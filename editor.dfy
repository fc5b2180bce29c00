/** The editor window's state as TextEditor.java changes it: the text
    area's buffer, the frame title and the status bar label, with the
    document listener that keeps the label up to date. The widgets, the
    file dialogs and the file system are outside the model: a dialog's
    choice and the outcome of a read or a write are parameters. */
module Editor {
  import opened Options
  import opened JavaText
  import opened StatusBar
  import opened SaveName

  /** How a file read or write turned out, each failure with the message of
      its IOException: it went through (Done); opening the file or the read
      or write itself threw, so nothing was delivered (Failed); or the read
      or write went through and the close() after it threw (CloseFailed). */
  datatype IoResult<T> = Done(value: T) | Failed(message: string) | CloseFailed(value: T, message: string)
  {
    /** The read or write itself went through. */
    predicate Delivered()
    {
      Done? || CloseFailed?
    }

    /** Some step threw, so the catch block runs. */
    predicate Threw()
    {
      Failed? || CloseFailed?
    }
  }

  const OpenErrorPrefix := "Error opening file: "
  const SaveErrorPrefix := "Error saving file: "

  /** Line 163: the message of the error dialog after a failed open. */
  function OpenErrorMessage(message: string): (r: string)
    ensures StartsWith(r, OpenErrorPrefix) && r[|OpenErrorPrefix|..] == message
  {
    OpenErrorPrefix + message
  }

  /** Line 186: the message of the error dialog after a failed save. */
  function SaveErrorMessage(message: string): (r: string)
    ensures StartsWith(r, SaveErrorPrefix) && r[|SaveErrorPrefix|..] == message
  {
    SaveErrorPrefix + message
  }

  class TextEditor {
    /** The text area's document. */
    var text: string
    /** The frame title. */
    var title: string
    /** The status bar label. */
    var status: string
    /** Whether the listener registered at line 92 is attached to the
        document the text area currently shows. */
    var listening: bool

    /** While the listener is attached, the label shows the counts of the
        buffer. */
    predicate Valid()
      reads this
    {
      listening ==> status == StatusText(text)
    }

    /** The state the rest of the window relies on: listener attached and
        label up to date. */
    predicate Consistent()
      reads this
    {
      listening && status == StatusText(text)
    }

    /** Lines 29-112 without the widget layout: empty buffer, the plain
        title, the zero label, and the listener attached. */
    constructor ()
      ensures text == "" && title == AppTitle && status == InitialLabel && listening
      ensures Consistent()
    {
      text, title, status, listening := "", AppTitle, InitialLabel, true;
      new;
      InitialLabelIsEmptyStatus(text);
    }

    /** Lines 194-204: recount the buffer and show the counts. */
    method UpdateStatus()
      modifies this`status
      ensures status == StatusText(text)
    {
      var charCount := |text|;
      var words := SplitOnRegexSpace(Trim(text));
      var wordCount := if Trim(text) == [] then 0 else |words|;
      status := " Words: " + DecimalString(wordCount) + " | Characters: " + DecimalString(charCount) + " ";
    }

    /** An insertion into the document (typing, paste). An empty string
        changes nothing and notifies nobody; an offset past the end is
        refused. Otherwise the listener's insertUpdate (lines 94-96)
        recounts, if it is attached. */
    method Insert(offset: nat, s: string) returns (ok: bool)
      requires Valid()
      modifies this`text, this`status
      ensures Valid()
      ensures ok <==> s == [] || offset <= |old(text)|
      ensures text == if s != [] && ok then old(text)[..offset] + s + old(text)[offset..] else old(text)
      ensures status == if s != [] && ok && listening then StatusText(text) else old(status)
    {
      ok := s == [] || offset <= |text|;
      if s != [] && ok {
        text := text[..offset] + s + text[offset..];
        if listening {
          UpdateStatus();
        }
      }
    }

    /** A removal from the document (typing, cut). Removing nothing changes
        nothing; a range past the end is refused. Otherwise the listener's
        removeUpdate (lines 99-101) recounts, if it is attached. */
    method Remove(offset: nat, count: nat) returns (ok: bool)
      requires Valid()
      modifies this`text, this`status
      ensures Valid()
      ensures ok <==> count == 0 || offset + count <= |old(text)|
      ensures text == if count > 0 && ok then old(text)[..offset] + old(text)[offset + count..] else old(text)
      ensures status == if count > 0 && ok && listening then StatusText(text) else old(status)
    {
      ok := count == 0 || offset + count <= |text|;
      if count > 0 && ok {
        text := text[..offset] + text[offset + count..];
        if listening {
          UpdateStatus();
        }
      }
    }

    /** Lines 143-147: empty the buffer and reset the title. Emptying a
        non-empty buffer is a removal, so an attached listener recounts and
        the label shows the zero counts. */
    method NewFile()
      requires Valid()
      modifies this`text, this`title, this`status
      ensures Valid()
      ensures text == "" && title == AppTitle
      ensures status == if old(text) != [] && listening then InitialLabel else old(status)
      ensures listening ==> status == InitialLabel
    {
      title := AppTitle;
      if text != [] {
        text := text[..0];
        if listening {
          UpdateStatus();
        }
      }
      InitialLabelIsEmptyStatus(text);
    }

    /** Lines 152-166 as written. With a file chosen, the title names it
        before the read is tried; a read that fails leaves the buffer alone.
        A read that goes through (line 160) installs a new document holding
        the file's text, to which the listener of line 92 is not attached:
        the label keeps the old counts, now and after every later edit. The
        error is reported whenever something threw, the close() of line 161
        included, which comes after the new document is in place. */
    method OpenFileAsWritten(chosen: Option<FilePath>, read: IoResult<string>) returns (dialog: Option<string>)
      requires Valid()
      modifies this`text, this`title, this`listening
      ensures Valid()
      ensures title == if chosen.Some? then TitleFor(chosen.value.name) else old(title)
      ensures text == if chosen.Some? && read.Delivered() then read.value else old(text)
      ensures listening <==> old(listening) && !(chosen.Some? && read.Delivered())
      ensures status == old(status)
      ensures dialog == if chosen.Some? && read.Threw() then Some(OpenErrorMessage(read.message)) else None
    {
      dialog := None;
      if chosen.Some? {
        title := TitleFor(chosen.value.name);
        if read.Delivered() {
          text := read.value;
          listening := false;
        }
        if read.Threw() {
          dialog := Some(OpenErrorMessage(read.message));
        }
      }
    }

    /** openFile as intended: the same, except that the loaded text is
        counted and the listener stays attached, so the label keeps
        following the buffer. */
    method OpenFile(chosen: Option<FilePath>, read: IoResult<string>) returns (dialog: Option<string>)
      requires Valid()
      modifies this`text, this`title, this`status
      ensures Valid()
      ensures title == if chosen.Some? then TitleFor(chosen.value.name) else old(title)
      ensures text == if chosen.Some? && read.Delivered() then read.value else old(text)
      ensures status == if chosen.Some? && read.Delivered() && listening then StatusText(text) else old(status)
      ensures dialog == if chosen.Some? && read.Threw() then Some(OpenErrorMessage(read.message)) else None
      ensures old(Consistent()) ==> Consistent()
    {
      dialog := None;
      if chosen.Some? {
        title := TitleFor(chosen.value.name);
        match read {
          case Done(contents) =>
            Load(contents);
          case Failed(message) =>
            dialog := Some(OpenErrorMessage(message));
          case CloseFailed(contents, message) =>
            Load(contents);
            dialog := Some(OpenErrorMessage(message));
        }
      }
    }

    /** The text area showing a file's text, with the listener kept. */
    method Load(contents: string)
      requires Valid()
      modifies this`text, this`status
      ensures Valid()
      ensures text == contents
      ensures status == if listening then StatusText(text) else old(status)
    {
      text := contents;
      if listening {
        UpdateStatus();
      }
    }

    /** Lines 171-189. With a file chosen, the target is the chosen file
        with ".txt" ensured, and the title names it before the write is
        tried; the buffer is written unchanged, and a write or a close()
        that throws is reported. */
    method SaveFile(chosen: Option<FilePath>, write: IoResult<()>) returns (target: Option<FilePath>, dialog: Option<string>)
      requires Valid()
      modifies this`title
      ensures Valid()
      ensures target == if chosen.Some? then Some(NormaliseSaveTarget(chosen.value)) else None
      ensures target.Some? ==> HasTxtExtension(target.value.name) && target.value.parent == chosen.value.parent
      ensures title == if target.Some? then TitleFor(target.value.name) else old(title)
      ensures dialog == if chosen.Some? && write.Threw() then Some(SaveErrorMessage(write.message)) else None
    {
      target, dialog := None, None;
      if chosen.Some? {
        var file := NormaliseSaveTarget(chosen.value);
        target := Some(file);
        title := TitleFor(file.name);
        if write.Threw() {
          dialog := Some(SaveErrorMessage(write.message));
        }
      }
    }
  }

  /** Opening, as written, a file whose text differs in length from the
      buffer leaves a label that no longer matches the buffer, and detaches
      the listener so that no later edit repairs it. In a fresh window
      (InitialLabelIsEmptyStatus) a file holding "hello world"
      (HelloWorldExample) is shown as " Words: 0 | Characters: 0 " instead
      of " Words: 2 | Characters: 11 ". */
  method StaleStatusAfterOpen(editor: TextEditor, file: FilePath, contents: string)
    requires editor.Consistent()
    requires |contents| != |editor.text|
    modifies editor
    ensures editor.text == contents && !editor.listening
    ensures editor.status == old(editor.status) != StatusText(editor.text)
  {
    var _ := editor.OpenFileAsWritten(Some(file), Done(contents));
    StatusLineInjective(StatusCounts(old(editor.text)), StatusCounts(contents));
  }
}
