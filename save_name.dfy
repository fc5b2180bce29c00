/** The file name rule of saveFile and the window titles of newFile,
    openFile and saveFile. */
module SaveName {
  import opened Options
  import opened JavaText

  /** A java.io.File as the editor handles it: the parent directory
      (getParentFile(), absent for a bare name) and the last name
      component (getName()). */
  datatype FilePath = FilePath(parent: Option<string>, name: string)

  const TxtExtension := ".txt"

  /** Line 31 and 145: the title of a window with no file. */
  const AppTitle := "Simple Text Editor"

  /** Line 178: the lower-cased name ends with ".txt". */
  predicate HasTxtExtension(name: string)
  {
    EndsWith(ToLowerAscii(name), TxtExtension)
  }

  /** c is the ASCII letter lower in either case. */
  predicate EitherCase(c: char, lower: char)
  {
    c == lower || c as int == lower as int - 32
  }

  /** The names the save rule keeps: a dot and then t, x and t, each in
      either case, at the very end. */
  lemma TxtExtensionCases(name: string)
    ensures HasTxtExtension(name) <==>
              (|name| >= 4 && name[|name| - 4] == '.' && EitherCase(name[|name| - 3], 't')
               && EitherCase(name[|name| - 2], 'x') && EitherCase(name[|name| - 1], 't'))
  {
    var l := ToLowerAscii(name);
    var k := |l| - 4;
    if k >= 0 {
      LowerIsEitherCase(name[k + 1], 't');
      LowerIsEitherCase(name[k + 2], 'x');
      LowerIsEitherCase(name[k + 3], 't');
      assert HasTxtExtension(name) <==> l[k] == '.' && l[k + 1] == 't' && l[k + 2] == 'x' && l[k + 3] == 't' by {
        if l[k] == '.' && l[k + 1] == 't' && l[k + 2] == 'x' && l[k + 3] == 't' {
          assert l[k..] == TxtExtension;
        }
      }
    }
  }

  /** Lower-casing gives a lower-case ASCII letter exactly from that letter
      in either case. */
  lemma LowerIsEitherCase(c: char, lower: char)
    requires 'a' <= lower <= 'z'
    ensures LowerAscii(c) == lower <==> EitherCase(c, lower)
  {
  }

  /** Lower-casing a name with ".txt" appended lower-cases the name and
      keeps ".txt". */
  lemma LowerWithExtension(name: string)
    ensures ToLowerAscii(name + TxtExtension) == ToLowerAscii(name) + TxtExtension
  {
    var l := ToLowerAscii(name + TxtExtension);
    forall i | 0 <= i < |l|
      ensures l[i] == (ToLowerAscii(name) + TxtExtension)[i]
    {
      if i >= |name| {
        assert (name + TxtExtension)[i] == TxtExtension[i - |name|];
      }
    }
  }

  /** Lines 178-179: the file the editor writes to. A name that is not
      ".txt" in any letter case gets ".txt" appended in the same parent
      directory; any other file is kept as it is. */
  function NormaliseSaveTarget(f: FilePath): (r: FilePath)
    ensures HasTxtExtension(r.name)
    ensures r.parent == f.parent
    ensures StartsWith(r.name, f.name)
    ensures r == f <==> HasTxtExtension(f.name)
    ensures r != f ==> r.name[|f.name|..] == TxtExtension
  {
    if !HasTxtExtension(f.name) then
      LowerWithExtension(f.name);
      assert (f.name + TxtExtension)[..|f.name|] == f.name;
      FilePath(f.parent, f.name + TxtExtension)
    else f
  }

  /** Normalising a second time changes nothing. */
  lemma NormaliseIdempotent(f: FilePath)
    ensures NormaliseSaveTarget(NormaliseSaveTarget(f)) == NormaliseSaveTarget(f)
  {
  }

  /** "notes" is saved as "notes.txt", in whatever directory it was chosen. */
  lemma BareNameExample(f: FilePath)
    requires f.name == "notes"
    ensures NormaliseSaveTarget(f) == FilePath(f.parent, "notes.txt")
  {
    assert !HasTxtExtension(f.name) by {
      assert ToLowerAscii(f.name)[1] == 'o';
    }
    assert f.name + TxtExtension == "notes.txt";
  }

  /** "notes.txt" and "NOTES.TXT" are saved under their own names. */
  lemma TxtNameExamples(f: FilePath)
    requires f.name == "notes.txt" || f.name == "NOTES.TXT"
    ensures NormaliseSaveTarget(f) == f
  {
    var l := ToLowerAscii(f.name);
    assert l[5] == '.' && l[6] == 't' && l[7] == 'x' && l[8] == 't';
    assert l[5..] == TxtExtension;
  }

  /** Another extension is kept and ".txt" goes after it. */
  lemma OtherExtensionExample(f: FilePath)
    requires f.name == "notes.md"
    ensures NormaliseSaveTarget(f) == FilePath(f.parent, "notes.md.txt")
  {
    assert !HasTxtExtension(f.name) by {
      assert ToLowerAscii(f.name)[4] == 's';
    }
    assert f.name + TxtExtension == "notes.md.txt";
  }

  /** Lines 158 and 181: the title while a file is open. */
  function TitleFor(name: string): (t: string)
    ensures StartsWith(t, AppTitle + " - ") && EndsWith(t, name)
    ensures t[|AppTitle + " - "|..] == name
  {
    AppTitle + " - " + name
  }
}
