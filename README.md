# Simple Text Editor: a Dafny model

TextEditor.java is a single Swing window with a text area, File and Edit
menus and a status bar. Almost all of it is toolkit wiring. This project
models the parts that are logic:

- the status bar text that `updateStatus` computes. The character count is
  the length of the whole buffer. The word count is 0 for a buffer that
  trims to nothing. Otherwise it is the number of pieces
  `trim().split("\\s+")` returns. Both numbers go into the label
  ` Words: W | Characters: C `;
- the save rule of `saveFile`. A name that does not end in `.txt` in any
  letter case gets `.txt` appended, in the same parent directory;
- the window titles of `newFile`, `openFile` and `saveFile`;
- the editor state those methods change: the buffer, the title, the label,
  and whether the document listener is attached to the current document.

Modules, one per concern:

- `JavaText` (java_text.dfy): the `java.lang.String` operations the code
  calls. `trim()` strips code points up to U+0020. `split("\\s+")` splits on
  runs of `' '`, `\t`, `\n`, U+000B, `\f` and `\r`, returns the whole string
  when nothing matches, and drops trailing empty pieces. Also here: ASCII
  lower-casing, `endsWith`, and the decimal form of a count.
- `StatusBar` (status_bar.dfy): `CharCount`, `WordCount` and the label. It
  has a reference definition `RunCount`: the number of maximal runs of
  non-`\s` code points. It also has a parser for the label, the inverse of
  the label's format.
- `SaveName` (save_name.dfy): `FilePath` (parent directory and name), the
  `.txt` rule and the titles.
- `Editor` (editor.dfy): class `TextEditor`. It has the fields `text`,
  `title`, `status` and `listening`, and one method per action.
- `Options` (options.dfy): an `Option` type.

The two character classes differ, and the code's behaviour depends on that.
`trim()` strips every code point up to U+0020, but `\s` matches only six of
them. So a buffer holding only U+0001 has 0 words, while `a`, U+0001, `b`
is one word. The comment at TextEditor.java:198-199 speaks of splitting
"by whitespace" after `trim()`, but the two steps use different notions of
whitespace: `WordCount` counts the runs of non-`\s` code points in the
*trimmed* buffer, so a U+0001 at either edge is dropped before counting
and one in the middle joins its neighbours. An open or a save sets the
title (lines 158 and 181) before the file is read or written, so the title
names the file even when the read or write then fails.

Dialogs, the file system and the clipboard are outside the model. The file
a dialog returns (`Option<FilePath>`, `None` for a cancelled dialog) and the
outcome of a read or a write (`IoResult`) are parameters of the methods.
That outcome is one of three: the read or write and the `close()` after it
went through; something threw before anything was delivered; or the read
or write went through and `close()` then threw. An error dialog is
modelled as the message it would show.

## Model

| member | source | states |
|---|---|---|
| JavaText.IsTrimSpace | TextEditor.java:200 | every code point `\s` matches is also one `trim()` strips |
| JavaText.IsRegexSpace | TextEditor.java:200 | `\s` matches exactly `' '`, `\t`, `\n`, U+000B, `\f` and `\r` |
| JavaText.TrimStart | TextEditor.java:200 | the result is a suffix of s; everything removed is up to U+0020; the result is empty or starts above U+0020 |
| JavaText.TrimEnd | TextEditor.java:200 | the result is a prefix of s; everything removed is up to U+0020; the result is empty or ends above U+0020 |
| JavaText.Trim | TextEditor.java:200-201 | `trim()` is empty exactly when every code point is up to U+0020; otherwise it starts and ends above U+0020 |
| JavaText.TrimIsMiddle | TextEditor.java:200 | `trim()` only removes: s is the result with code points up to U+0020 on either side |
| JavaText.TrimPadding | TextEditor.java:200 | adding code points up to U+0020 at either end does not change `trim()` |
| JavaText.Fields | TextEditor.java:200 | the pieces between maximal `\s` runs: at least one piece, and no piece holds a `\s` code point |
| JavaText.FieldsRebuild | TextEditor.java:200 | the pieces lose nothing: there is one more piece than there are maximal `\s` runs, and the pieces with those runs put back between them, in order, are the string itself |
| JavaText.SeparatorsAreRuns | TextEditor.java:200 | every separator that `FieldsRebuild` puts back is a non-empty run of `\s` code points |
| JavaText.FieldsInteriorNonEmpty | TextEditor.java:200 | every piece but the first and the last is non-empty, and the first is non-empty unless the string starts with `\s`; with no `\s` in any piece, each separator is a maximal run |
| JavaText.FieldsOfSpaceless | TextEditor.java:200 | a string with no `\s` is a single piece |
| JavaText.SplitOnRegexSpace | TextEditor.java:200 | `split("\\s+")` returns the whole string when nothing matches; otherwise it returns the pieces between maximal `\s` runs, up to the last non-empty one, and every piece it drops is empty; no piece holds `\s` |
| JavaText.DropTrailingEmpty | TextEditor.java:200 | removes only empty pieces, only from the end, and leaves a list that is empty or ends in a non-empty piece |
| JavaText.ToLowerAscii | TextEditor.java:178 | lower-casing keeps the length and maps each code point on its own; only `A`-`Z` change |
| JavaText.DecimalString | TextEditor.java:203 | the decimal form of a count is a non-empty string of digits with no leading zero |
| JavaText.DecimalRoundTrip | TextEditor.java:203 | reading the decimal form of n back gives n |
| JavaText.SmallDecimal | TextEditor.java:203 | a count below 10 is written as one digit, a count from 10 to 99 as two digits, tens first |
| StatusBar.CharCount | TextEditor.java:196 | the character count is the length of the whole buffer, and never less than the word count |
| StatusBar.WordCount | TextEditor.java:200-201 | the word count equals the number of maximal non-`\s` runs in the trimmed buffer, and it is 0 exactly when every code point of the buffer is up to U+0020, the empty buffer included |
| StatusBar.FieldsCount | TextEditor.java:200 | the split makes one piece per maximal non-`\s` run, plus one empty piece for a leading run and one for a trailing run of `\s` |
| StatusBar.FieldsLastPiece | TextEditor.java:200 | the last piece is empty exactly when the string is empty or ends in `\s` |
| StatusBar.SplitCountsRuns | TextEditor.java:200-201 | for a string that neither starts nor ends with `\s`, `split("\\s+")` returns exactly as many pieces as the string has maximal non-`\s` runs |
| StatusBar.RunCountPositive | TextEditor.java:201 | a string holding a non-`\s` code point has at least one run |
| StatusBar.RunCountJoin | TextEditor.java:200 | next to a `\s` code point, the runs of the two sides add up |
| StatusBar.SpacelessIsOneRun | TextEditor.java:200 | a non-empty string without `\s` is one run |
| StatusBar.EdgePadding | TextEditor.java:196-201 | padding at either end with code points up to U+0020 leaves the word count unchanged; the character count grows by the number of code points added |
| StatusBar.StatusLineRoundTrip | TextEditor.java:203 | `StatusLine`, the label format, is invertible: parsing the label gives back the word and character counts it was built from |
| StatusBar.StatusTextRoundTrip | TextEditor.java:195-203 | `StatusText`, what `updateStatus` shows for a buffer, parses back to the buffer's word count and its length |
| StatusBar.StatusLineInjective | TextEditor.java:203 | two different pairs of counts never give the same label |
| StatusBar.InitialLabelIsEmptyStatus | TextEditor.java:86 | `InitialLabel`, the label the window is created with, is the label `StatusText` computes for the empty buffer |
| StatusBar.GapHasNoRun | TextEditor.java:200 | a string made only of `\s` code points has no run, so it adds no word |
| StatusBar.TrimUntouched | TextEditor.java:200 | `trim()` returns unchanged a string that starts and ends above U+0020 |
| StatusBar.TwoWords | TextEditor.java:200-201 | two words (nothing up to U+0020 in them) separated by a run of `\s`, with any padding up to U+0020 at either end, count exactly two words |
| StatusBar.HelloWorldExample | TextEditor.java:195-203 | "hello world" has 2 words and 11 characters, and its label shows Words: 2 and Characters: 11 |
| StatusBar.SpacedExample | TextEditor.java:200-201 | "  a   b  " has 2 words and 9 characters |
| StatusBar.StrippedButNotSpace | TextEditor.java:200-201 | a code point that `trim()` strips but `\s` does not match, such as U+0001, is no word on its own, and between two letters it joins them into one word |
| SaveName.TxtExtensionCases | TextEditor.java:178 | `HasTxtExtension` holds exactly when the name ends with a dot followed by t, x and t, each in either case |
| SaveName.LowerWithExtension | TextEditor.java:178-179 | lower-casing a name with ".txt" appended gives the lower-cased name followed by ".txt" |
| SaveName.NormaliseSaveTarget | TextEditor.java:178-179 | the target name always ends in ".txt" in any case; the parent directory is kept; the chosen name is a prefix of the result; the file is unchanged exactly when it already ends in ".txt" in any case, and otherwise ".txt" is what is appended |
| SaveName.NormaliseIdempotent | TextEditor.java:178-179 | applying the save rule twice gives the same file as applying it once |
| SaveName.BareNameExample | TextEditor.java:178-179 | "notes" is saved as "notes.txt", in the directory it was chosen in |
| SaveName.TxtNameExamples | TextEditor.java:178-179 | "notes.txt" and "NOTES.TXT" are saved under their own names, in any directory |
| SaveName.OtherExtensionExample | TextEditor.java:178-179 | "notes.md" becomes "notes.md.txt" in the same directory |
| SaveName.TitleFor | TextEditor.java:158 | an open-file title is "Simple Text Editor - " followed by exactly the file name |
| Editor.OpenErrorMessage | TextEditor.java:163 | the open error dialog says "Error opening file: " followed by exactly the exception's message |
| Editor.SaveErrorMessage | TextEditor.java:186 | the save error dialog says "Error saving file: " followed by exactly the exception's message |
| Editor.TextEditor.constructor | TextEditor.java:29-112 | a new window has an empty buffer, the title "Simple Text Editor", the zero label and the listener attached, so the label matches the buffer |
| Editor.TextEditor.UpdateStatus | TextEditor.java:194-204 | the label becomes the status text of the current buffer |
| Editor.TextEditor.Insert | TextEditor.java:92-96 | an insertion splices the string in at the offset and, if the listener is attached, recounts; an empty string is a no-op and an offset past the end is refused; the label-matches-buffer invariant is kept |
| Editor.TextEditor.Remove | TextEditor.java:98-101 | a removal cuts the range out and, if the listener is attached, recounts; removing nothing is a no-op and a range past the end is refused; the invariant is kept |
| Editor.TextEditor.NewFile | TextEditor.java:143-147 | the buffer becomes empty and the title "Simple Text Editor"; an attached listener recounts only if the buffer was not already empty, and whenever the listener is attached the label afterwards is the zero label of line 86; the label-matches-buffer invariant is kept |
| Editor.TextEditor.OpenFileAsWritten | TextEditor.java:152-166 | with a file chosen, the title names it even if the read fails; a read that goes through replaces the buffer but leaves the label as it was and detaches the listener; a read that throws keeps the buffer; whenever something throws, the `close()` after a read included, the error dialog says "Error opening file: " and the message |
| Editor.TextEditor.OpenFile | TextEditor.java:152-166 | as above, except that a read that goes through recounts and keeps the listener, so a consistent editor stays consistent, also when `close()` then throws |
| Editor.TextEditor.Load | TextEditor.java:160 | the corrected read: the buffer becomes the file's text and, with the listener attached, the label is recounted; the label-matches-buffer invariant is kept |
| Editor.TextEditor.SaveFile | TextEditor.java:171-189 | with a file chosen, the target is the chosen file under the save rule; the title names the target even if the write fails; a write or a `close()` that throws reports "Error saving file: " and the message; buffer and label are unchanged |
| Editor.StaleStatusAfterOpen | TextEditor.java:158-160 | after an open as written, where the loaded text differs in length from the buffer, the label differs from the status of the buffer and the listener is gone |

## Findings

| source | as written | input that shows it | evidently intended | confidence | as-written member | corrected member |
|---|---|---|---|---|---|---|
| TextEditor.java:160 | `textArea.read(reader, null)` builds a new document and installs it with `setDocument`. The listener added at line 92 stays on the old document. The label is not recounted for the loaded text or for any later edit | a fresh window, then Open on a file holding "hello world": the label keeps showing 0 words and 0 characters instead of 2 and 11 | the label shows the counts of the buffer after every change, as the comment at line 91 says | not executed; rests on `JTextComponent.read` replacing the document | Editor.StaleStatusAfterOpen | Editor.TextEditor.OpenFile |

`Editor.TextEditor.OpenFileAsWritten` models the code as written:
`listening` becomes false, so `Insert`, `Remove` and `NewFile` stop
recounting. `Editor.StaleStatusAfterOpen` shows the label going stale for
any file whose length differs from the buffer's. The worked instance combines
`StatusBar.InitialLabelIsEmptyStatus` with `StatusBar.HelloWorldExample`.
`Editor.TextEditor.OpenFile` is the corrected open. It keeps `Consistent()`,
meaning the listener stays attached and the label matches the buffer.

## Left out

- Swing construction and layout (TextEditor.java:29-112): the frame, the scroll pane, the menus, fonts, borders and centring are toolkit wiring. The constructor keeps only the initial title, label and listener.
- `JFileChooser` dialogs, `FileReader`/`FileWriter`, `textArea.read` and `textArea.write`: these are native dialogs and file I/O. The chosen file and the outcome of the read or write are parameters. The text a read yields is given after the editor kit has decoded it, so the platform charset and the conversion of `\r\n` and `\r` to `\n` are not modelled. The same goes for the line separator used on write.
- The `JOptionPane` error dialogs (lines 163 and 186): only their message is returned.
- A reader or writer whose read or write threw is never closed (lines 159-161 and 182-184): the open file handle is outside the model.
- Cut, copy and paste (lines 121-126): these are clipboard calls. Their effect on the buffer is a `Remove` or an `Insert`. Copy does not change the buffer.
- `changedUpdate` (lines 103-106) does nothing, so it has no counterpart.
- `System.exit` (line 136) and `SwingUtilities.invokeLater` with the event-dispatch thread (line 211): these are process control and the toolkit's threading.
- Counts are `nat`. A Java string's length fits in an `int`, and the word count is at most the length, so neither count can wrap.
- The buffer is a `seq<char>` of code points. UTF-16 surrogate pairs, which `String.length()` counts as two, are not modelled.
- `java.io.File` path handling is not modelled: separators and the normalisation of the parent path. A `FilePath` is just a parent and a name.
- SaveName.NormaliseSaveTarget: the ".txt" test lower-cases ASCII letters only, because `toLowerCase()` depends on the locale and on Unicode case mappings (some of which change the length of a string).
- JavaText.ToLowerAscii: maps only `A`-`Z`, for the same reason.
