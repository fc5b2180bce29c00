/** The status bar's text: the word and character counts that updateStatus
    computes from the whole buffer, and the label that shows them. */
module StatusBar {
  import opened Options
  import opened JavaText

  // ------------------------------------------------ reference definition

  /** Position i is the last code point of a maximal run of non-\s code points. */
  predicate EndsRun(s: string, i: nat)
    requires i < |s|
  {
    !IsRegexSpace(s[i]) && (i + 1 == |s| || IsRegexSpace(s[i + 1]))
  }

  /** The number of maximal runs of non-\s code points in s, one per
      position that ends such a run. */
  function RunCount(s: string): (n: nat)
    ensures n <= |s|
  {
    if s == [] then 0 else (if EndsRun(s, 0) then 1 else 0) + RunCount(s[1..])
  }

  // ------------------------------------------------------ the two counts

  /** Line 196: the length of the whole buffer, nothing trimmed: every
      code point counts, so there are never fewer characters than words. */
  function CharCount(text: string): (n: nat)
    ensures n == |text|
    ensures WordCount(text) <= n
  {
    |text|
  }

  /** Lines 200-201: zero when the trimmed buffer is empty, otherwise the
      number of pieces split("\\s+") makes of the trimmed buffer. That is
      the number of maximal runs of non-\s code points in the trimmed
      buffer, and it is zero exactly when the buffer holds nothing above
      U+0020 (so a lone U+0001 is no word). */
  function WordCount(text: string): (r: nat)
    ensures r == RunCount(Trim(text))
    ensures r == 0 <==> AllTrimSpace(text)
  {
    var t := Trim(text);
    if t == [] then 0
    else
      SplitCountsRuns(t);
      RunCountPositive(t, 0);
      |SplitOnRegexSpace(t)|
  }

  // ------------------------------------------- split counts maximal runs

  /** 1 when s is empty or starts with \s: Fields then begins with an empty piece. */
  function LeadingGap(s: string): nat
  {
    if s == [] || IsRegexSpace(s[0]) then 1 else 0
  }

  /** 1 when s ends with \s: Fields then ends with an empty piece. */
  function TrailingGap(s: string): nat
  {
    if s != [] && IsRegexSpace(s[|s| - 1]) then 1 else 0
  }

  /** Removing a leading run of \s code points removes no run of other ones. */
  lemma {:induction false} DropRegexSpaceKeepsRuns(s: string)
    ensures RunCount(DropRegexSpace(s)) == RunCount(s)
  {
    if s != [] && IsRegexSpace(s[0]) {
      DropRegexSpaceKeepsRuns(s[1..]);
    }
  }

  /** Fields has one piece per maximal run, plus an empty piece at each end
      of s that is \s (a single one, for the empty string). */
  lemma {:induction false} FieldsCount(s: string)
    ensures |Fields(s)| == RunCount(s) + LeadingGap(s) + TrailingGap(s)
    decreases |s|
  {
    if s == [] {
    } else if IsRegexSpace(s[0]) {
      var d := DropRegexSpace(s[1..]);
      FieldsCount(d);
      DropRegexSpaceKeepsRuns(s[1..]);
      if d != [] {
        assert d[|d| - 1] == s[|s| - 1];
      } else {
        assert IsRegexSpace(s[|s| - 1]) by {
          if |s| > 1 {
            assert IsRegexSpace(s[1..][|s| - 2]);
          }
        }
      }
    } else {
      FieldsCount(s[1..]);
      assert LeadingGap(s[1..]) == if EndsRun(s, 0) then 1 else 0;
      assert TrailingGap(s[1..]) == TrailingGap(s) by {
        if |s| > 1 {
          assert s[1..][|s| - 2] == s[|s| - 1];
        }
      }
    }
  }

  /** The last piece of Fields is empty exactly when s is empty or ends with \s. */
  lemma {:induction false} FieldsLastPiece(s: string)
    ensures Fields(s)[|Fields(s)| - 1] == [] <==> s == [] || IsRegexSpace(s[|s| - 1])
    decreases |s|
  {
    if s == [] {
    } else if IsRegexSpace(s[0]) {
      var d := DropRegexSpace(s[1..]);
      FieldsLastPiece(d);
      if d != [] {
        assert d[|d| - 1] == s[|s| - 1];
      } else if |s| > 1 {
        assert IsRegexSpace(s[1..][|s| - 2]);
      }
    } else {
      FieldsLastPiece(s[1..]);
    }
  }

  /** A string with a non-\s code point somewhere has at least one run. */
  lemma {:induction false} RunCountPositive(s: string, i: nat)
    requires i < |s| && !IsRegexSpace(s[i])
    ensures RunCount(s) >= 1
  {
    if !EndsRun(s, 0) {
      if i == 0 {
        assert !IsRegexSpace(s[1]);
        RunCountPositive(s[1..], 0);
      } else {
        RunCountPositive(s[1..], i - 1);
      }
    }
  }

  /** For a string that neither starts nor ends with \s, split("\\s+") makes
      exactly one piece per maximal run of non-\s code points. */
  lemma SplitCountsRuns(t: string)
    requires t != [] && !IsRegexSpace(t[0]) && !IsRegexSpace(t[|t| - 1])
    ensures |SplitOnRegexSpace(t)| == RunCount(t)
  {
    FieldsCount(t);
    FieldsLastPiece(t);
    if HasRegexSpace(t) {
      assert DropTrailingEmpty(Fields(t)) == Fields(t);
    } else {
      assert Fields(t) == [t] by {
        FieldsOfSpaceless(t);
      }
    }
  }

  // ------------------------------------------- what the word count means

  /** Padding the buffer with code points up to U+0020 at either end leaves
      the word count alone and adds their number to the character count. */
  lemma EdgePadding(p: string, text: string, q: string)
    requires AllTrimSpace(p) && AllTrimSpace(q)
    ensures WordCount(p + text + q) == WordCount(text)
    ensures CharCount(p + text + q) == CharCount(text) + |p| + |q|
  {
    TrimPadding(p, text, q);
  }

  // ----------------------------------------------------- the status line

  datatype Counts = Counts(words: nat, chars: nat)

  const WordsLabel := " Words: "
  const CharsLabel := " | Characters: "

  /** Line 203: the text the status bar is set to. */
  function StatusLine(c: Counts): string
  {
    WordsLabel + DecimalString(c.words) + CharsLabel + DecimalString(c.chars) + " "
  }

  /** A label built from any two non-empty digit strings parses back to
      the values of those digits. */
  lemma DigitsLabelParses(w: string, n: string)
    requires w != [] && AllDigits(w) && n != [] && AllDigits(n)
    ensures ParseStatusLine(WordsLabel + w + CharsLabel + n + " ") == Some(Counts(DigitsValue(w), DigitsValue(n)))
  {
    var afterChars := n + " ";
    var rest := CharsLabel + afterChars;
    var afterWords := w + rest;
    var line := WordsLabel + w + CharsLabel + n + " ";
    assert line == WordsLabel + afterWords;
    assert StartsWith(line, WordsLabel) && line[|WordsLabel|..] == afterWords;
    LeadingDigitsOf(w, rest);
    assert afterWords[|w|..] == rest;
    assert StartsWith(rest, CharsLabel) && rest[|CharsLabel|..] == afterChars;
    LeadingDigitsOf(n, " ");
    assert afterChars[|n|..] == " ";
  }

  function StatusCounts(text: string): Counts
  {
    Counts(WordCount(text), CharCount(text))
  }

  /** Lines 195-203: what updateStatus shows for a buffer. */
  function StatusText(text: string): string
  {
    StatusLine(StatusCounts(text))
  }

  /** Line 86: the label the status bar is created with. */
  const InitialLabel := " Words: 0 | Characters: 0 "

  /** Reads the two counts back out of a status line. */
  function ParseStatusLine(s: string): Option<Counts>
  {
    if !StartsWith(s, WordsLabel) then None
    else
      var afterWords := s[|WordsLabel|..];
      var w := LeadingDigits(afterWords);
      var rest := afterWords[|w|..];
      if w == [] || !StartsWith(rest, CharsLabel) then None
      else
        var afterChars := rest[|CharsLabel|..];
        var c := LeadingDigits(afterChars);
        if c == [] || afterChars[|c|..] != " " then None
        else Some(Counts(DigitsValue(w), DigitsValue(c)))
  }

  /** The status line determines both counts: parsing it gives them back. */
  lemma StatusLineRoundTrip(c: Counts)
    ensures ParseStatusLine(StatusLine(c)) == Some(c)
  {
    DigitsLabelParses(DecimalString(c.words), DecimalString(c.chars));
    DecimalRoundTrip(c.words);
    DecimalRoundTrip(c.chars);
  }

  /** What the label shows for a buffer reads back as its word count and its
      length. */
  lemma StatusTextRoundTrip(text: string)
    ensures ParseStatusLine(StatusText(text)) == Some(Counts(WordCount(text), |text|))
  {
    StatusLineRoundTrip(StatusCounts(text));
  }

  /** Different counts never show the same status line. */
  lemma StatusLineInjective(c1: Counts, c2: Counts)
    ensures StatusLine(c1) == StatusLine(c2) ==> c1 == c2
  {
    StatusLineRoundTrip(c1);
    StatusLineRoundTrip(c2);
  }

  /** The label the window starts with is the status of the empty buffer. */
  lemma InitialLabelIsEmptyStatus(text: string)
    requires text == []
    ensures StatusText(text) == InitialLabel
  {
    assert Trim(text) == [];
    ZeroCountsLine(StatusCounts(text));
  }

  /** The label for no words and no characters. */
  lemma ZeroCountsLine(c: Counts)
    requires c == Counts(0, 0)
    ensures StatusLine(c) == InitialLabel
  {
    SmallDecimal(c.words);
    SmallDecimal(c.chars);
  }

  /** Cutting a string next to a \s code point cuts no run in two, so the
      runs of the two sides add up. */
  lemma {:induction false} RunCountJoin(a: string, b: string)
    requires a == [] || IsRegexSpace(a[|a| - 1]) || b == [] || IsRegexSpace(b[0])
    ensures RunCount(a + b) == RunCount(a) + RunCount(b)
  {
    if a == [] {
      assert a + b == b;
    } else {
      assert (a + b)[1..] == a[1..] + b;
      if |a| > 1 {
        assert (a + b)[1] == a[1];
        assert a[1..][|a| - 2] == a[|a| - 1];
      }
      RunCountJoin(a[1..], b);
    }
  }

  /** A non-empty string without \s is a single run. */
  lemma SpacelessIsOneRun(s: string)
    requires s != [] && !HasRegexSpace(s)
    ensures RunCount(s) == 1
  {
    FieldsCount(s);
    FieldsOfSpaceless(s);
  }

  /** A word as the examples write it: non-empty, and nothing in it that
      trim() would strip. */
  predicate IsPlainWord(w: string)
  {
    w != [] && forall i :: 0 <= i < |w| ==> !IsTrimSpace(w[i])
  }

  /** A string made only of \s code points holds no run. */
  lemma {:induction false} GapHasNoRun(g: string)
    requires forall i :: 0 <= i < |g| ==> IsRegexSpace(g[i])
    ensures RunCount(g) == 0
  {
    if g != [] {
      assert forall i :: 0 <= i < |g| - 1 ==> IsRegexSpace(g[1..][i]) by {
        forall i | 0 <= i < |g| - 1 ensures IsRegexSpace(g[1..][i]) {
          assert g[1..][i] == g[i + 1];
        }
      }
      GapHasNoRun(g[1..]);
    }
  }

  /** trim() leaves alone a string that starts and ends above U+0020. */
  lemma TrimUntouched(s: string)
    requires s != [] && !IsTrimSpace(s[0]) && !IsTrimSpace(s[|s| - 1])
    ensures Trim(s) == s
  {
    assert TrimStart(s) == s;
    assert TrimEnd(s) == s;
  }

  /** Two words with a gap of \s between them, padded at either end with
      code points up to U+0020. */
  predicate TwoWordShape(p: string, a: string, g: string, b: string, q: string)
  {
    AllTrimSpace(p) && AllTrimSpace(q) && IsPlainWord(a) && IsRegexSpaceRun(g) && IsPlainWord(b)
  }

  /** Such a buffer counts two words. */
  lemma TwoWords(p: string, a: string, g: string, b: string, q: string)
    requires TwoWordShape(p, a, g, b, q)
    ensures WordCount(p + a + g + b + q) == 2
  {
    var m := a + (g + b);
    assert !HasRegexSpace(a) && !HasRegexSpace(b);
    SpacelessIsOneRun(a);
    SpacelessIsOneRun(b);
    GapHasNoRun(g);
    RunCountJoin(g, b);
    RunCountJoin(a, g + b);
    assert m[0] == a[0] && m[|m| - 1] == b[|b| - 1];
    TrimUntouched(m);
    Regroup(p, a, g, b, q);
    EdgePadding(p, m, q);
  }

  /** Concatenation regrouped, for TwoWords. */
  lemma Regroup(p: string, a: string, g: string, b: string, q: string)
    ensures p + a + g + b + q == p + (a + (g + b)) + q
  {
    assert p + a + g + b == p + (a + (g + b));
  }

  /** "hello world" cut into the pieces of TwoWordShape. */
  lemma HelloWorldPieces(text: string) returns (p: string, a: string, g: string, b: string, q: string)
    requires text == "hello world"
    ensures text == p + a + g + b + q && TwoWordShape(p, a, g, b, q)
  {
    p, a, g, b, q := "", "hello", " ", "world", "";
  }

  /** "  a   b  " cut into the pieces of TwoWordShape. */
  lemma SpacedPieces(text: string) returns (p: string, a: string, g: string, b: string, q: string)
    requires text == "  a   b  "
    ensures text == p + a + g + b + q && TwoWordShape(p, a, g, b, q)
  {
    p, a, g, b, q := "  ", "a", "   ", "b", "  ";
  }

  /** Lines 196 and 200-203 on "hello world": 2 words, 11 characters. */
  lemma HelloWorldExample(text: string)
    requires text == "hello world"
    ensures StatusCounts(text) == Counts(2, 11)
    ensures StatusText(text) == " Words: 2 | Characters: 11 "
  {
    var p, a, g, b, q := HelloWorldPieces(text);
    TwoWords(p, a, g, b, q);
    TwoElevenLine(StatusCounts(text));
  }

  /** The label for 2 words and 11 characters. */
  lemma TwoElevenLine(c: Counts)
    requires c == Counts(2, 11)
    ensures StatusLine(c) == " Words: 2 | Characters: 11 "
  {
    SmallDecimal(c.words);
    SmallDecimal(c.chars);
  }

  /** Runs of spaces collapse: "  a   b  " has 2 words and 9 characters. */
  lemma SpacedExample(text: string)
    requires text == "  a   b  "
    ensures StatusCounts(text) == Counts(2, 9)
  {
    var p, a, g, b, q := SpacedPieces(text);
    TwoWords(p, a, g, b, q);
  }

  /** A code point that trim() strips but \s does not match, such as U+0001:
      alone it is no word, and between two letters it joins them into one. */
  lemma StrippedButNotSpace(a: char, u: char, b: char)
    requires IsTrimSpace(u) && !IsRegexSpace(u)
    requires !IsTrimSpace(a) && !IsTrimSpace(b)
    ensures WordCount([u]) == 0
    ensures WordCount([a, u, b]) == 1
  {
    var t := [a, u, b];
    assert AllTrimSpace([u]);
    assert Trim(t) == t by {
      TrimUntouched(t);
    }
    assert !HasRegexSpace(t);
    SpacelessIsOneRun(t);
  }
}
