# Simple Word Processor: session model

This project models the core of a small Tk text editor, the `WordProcessor`
class of `word_processor.py`, with the widgets taken away. Two parts are
modelled.

The editing session is one part. It tracks which file the text is tied to
(`file_path`, `None` at start), the text in the widget, the window title and
the status-bar text. The File menu changes the session with New, Open, Save
and Save As.

- `Editor.WordProcessor` is a class with those four fields. Its methods
  update them in place, step by step, as the Python methods do.
- Each method is proved to end in the state given by a pure function of
  module `Session` (`AfterNew`, `AfterOpen`, `AfterSave`, `AfterSaveAs`,
  `AfterKeyRelease`). The lemmas of `Session` state the source's promises
  about those functions. Several of them cover whole command sequences
  (`Run`).
- The file dialog's answer is a string argument, and `""` means cancelled.
  The file system is a map from path to text (`Editor.Disk`). A `Fault`
  argument says whether the file operation fails, and where: at `open`, or
  at `read`/`write`.
- The widget's `get(1.0, END)` is modelled as the text plus one newline
  (`Session.WidgetText`). Tk always keeps that newline at the end.

The status bar is the other part. `update_status` shows
`len(content.split())` words and `len(content) - 1` characters. Here
`Text.Split` models `str.split()`: it scans for maximal runs of
non-whitespace, with Python's `str.isspace()` whitespace. `Format.IntToDecimal`
renders the numbers.

Behaviour of the code that the model keeps, although a reader might expect
otherwise:

- A failed Open does not always leave the text alone. The text is cleared
  once the file is open (line 76), before `read()` runs (line 77). A read
  or decoding error therefore leaves an empty text. The path and title stay
  unchanged (`Session.OpenFailureKeepsPathAndTitle`).
- Save writes the widget text, which ends with the extra newline. Open
  followed by Save is therefore not byte-identical. Each Open/Save cycle
  grows the file by one newline (`Session.OpenThenSaveAppendsNewline`,
  `Session.OpenSaveCyclesGrowFile`). Save As, New, Open also returns the
  text with one more newline (`Session.SaveAsNewOpenAddsNewline`).
- The startup title is "Simple Word Processor", not an "Untitled" one. A
  file named `Untitled` gets the same title as New. So the title alone does
  not tell whether a file is tied (`Session.UntitledFileLooksNew`).
- New, Open, Save and Save As do not refresh the status bar. Only a key
  release does.

## Model

| member | source | states |
|---|---|---|
| `Editor.WordProcessor.constructor` | word_processor.py:6-61 | The window starts with no tied file, an empty text, the title "Simple Word Processor" and the status "Status Bar", and the title/path invariant holds |
| `Editor.WordProcessor.NewFile` | word_processor.py:63-66 | Clearing the text, forgetting the path and setting the Untitled title ends in exactly the `AfterNew` state and keeps the invariant |
| `Editor.WordProcessor.OpenFile` | word_processor.py:68-81 | The in-place steps (cancel check, open, clear, read, set path and title) end in exactly the state and error report `AfterOpen` gives, including the cleared text after a failed read |
| `Editor.WordProcessor.SaveFile` | word_processor.py:83-92 | With a tied path it writes the widget text there and reports a failure; otherwise it behaves as Save As; the result is exactly `AfterSave` |
| `Editor.WordProcessor.SaveAsFile` | word_processor.py:94-107 | Cancel does nothing; a write that succeeds ties the text to the chosen path and retitles; a failure reports and keeps the session; the result is exactly `AfterSaveAs` |
| `Editor.WordProcessor.UpdateStatus` | word_processor.py:153-157 | Only the status text changes, to the word and character counts of the widget text |
| `Editor.Disk.Write` | word_processor.py:87-88 | Opening for writing creates or truncates the file, and the write then replaces its contents; a failure at open changes nothing |
| `Session.TitleFor` | word_processor.py:79 | The title for a tied file ends with " - Simple Word Processor", and what comes before it contains no `/`, so no directory shows |
| `Session.StatusText` | word_processor.py:157 | For a widget text, which is never empty, the status line gives the word count after "Words: " and the length minus one after "Characters: ", both numbers without a sign |
| `Session.ReadFile` | word_processor.py:75-77 | Reading yields the stored contents exactly when the path exists and nothing fails; a missing path or a failing `open` fails before the text is touched, and a failing `read` fails after it |
| `Session.WriteFile` | word_processor.py:87-88 | The write succeeds exactly when nothing fails, and then the file holds the content; a failing `open` leaves the store as it was; a failure after the open leaves the file empty; no other file changes and no file other than the path appears |
| `Session.AfterNew` | word_processor.py:63-66 | After New the text is empty, no file is tied, the title/path invariant holds, and the status bar is unchanged |
| `Session.AfterOpen` | word_processor.py:68-81 | Open never changes the file store or the status bar |
| `Session.AfterSave` | word_processor.py:83-92 | Save changes at most the tied path and the title; the text and the status bar stay as they were |
| `Session.AfterSaveAs` | word_processor.py:94-107 | Save As changes at most the tied path and the title; the text and the status bar stay as they were |
| `Session.AfterKeyRelease` | word_processor.py:153-157 | A key release changes only the status bar |
| `Session.Consistent` | word_processor.py:61-79 | The title/path invariant: with no tied file the title is one of the two generic titles; a tied path is non-empty and the title is its base name plus the suffix; so a tied file never shows the startup title |
| `Session.WidgetText` | word_processor.py:154-156 | The widget text minus one character is exactly the text's length, and the extra newline adds no word |
| `Session.NewResetsSession` | word_processor.py:63-66 | New leaves an empty text, no path, and the title "Untitled - Simple Word Processor", which differs from the startup title; both states keep the invariant |
| `Session.OpenCancelledIsNoOp` | word_processor.py:69-73 | Open with a cancelled dialog changes nothing and shows no error |
| `Session.OpenSucceeds` | word_processor.py:75-79 | A successful Open loads the file's contents, ties the text to the path, titles the window with the base name, and shows no error |
| `Session.OpenFailureKeepsPathAndTitle` | word_processor.py:74-81 | A failed Open shows an error and keeps path and title; the text is kept when `open` fails, and it is empty when `read` fails |
| `Session.SaveWithPathWrites` | word_processor.py:84-90 | Save with a tied path writes the text plus a newline to that path, leaves the session unchanged, and shows an error exactly when the write fails |
| `Session.SaveWithoutPathIsSaveAs` | word_processor.py:91-92 | Save with no tied path is Save As |
| `Session.SaveAsCases` | word_processor.py:94-107 | Save As never changes the text. Cancel does nothing. Success writes the text plus a newline and sets path and title. Failure keeps the session and shows an error |
| `Session.KeyReleaseShowsCounts` | word_processor.py:153-157 | The status bar shows the number of words of the text and its exact length in characters; nothing else changes |
| `Session.StatusOfEmptyText` | word_processor.py:153-157 | An empty text shows 0 words and 0 characters |
| `Session.StatusOfHelloWorld` | word_processor.py:153-157 | The text "hello world" shows 2 words and 11 characters |
| `Session.ApplyKeepsConsistent` | word_processor.py:63-107 | Every command keeps the invariant. With a tied path the title is its base name plus the suffix. With none the title is one of the two generic titles |
| `Session.RunKeepsConsistent` | word_processor.py:63-107 | The invariant holds after any sequence of commands |
| `Session.UntitledFileLooksNew` | word_processor.py:63-79 | Opening or saving a file named "Untitled" gives the same title as New, so the title does not decide whether a path is tied |
| `Session.AssociationTracksCommands` | word_processor.py:63-107 | If no command in a sequence shows an error, the tied path is the one the latest New, Open, Save As, or Save of an untied text chose |
| `Session.OpenThenSaveAppendsNewline` | word_processor.py:75-88 | Open then Save leaves the file with one more newline than before, so it is not byte-identical |
| `Session.SaveAsNewOpenAddsNewline` | word_processor.py:63-105 | Save As, New, Open of the same path restores the text plus one newline and ties the path again |
| `Session.OpenSaveCyclesGrowFile` | word_processor.py:75-88 | After k Open-then-Save cycles the file holds its old contents followed by k newlines |
| `Text.Split` | word_processor.py:155 | `content.split()`: every element is non-empty and contains no whitespace, and the elements joined are the text with its whitespace removed |
| `Text.WordCount` | word_processor.py:155 | `len(content.split())` equals the number of maximal non-whitespace runs. A run starts at a non-whitespace character that comes first or follows whitespace |
| `Text.NoWordsIffAllWhitespace` | word_processor.py:155 | The word count is 0 exactly when the text is empty or all whitespace |
| `Text.WordCountBound` | word_processor.py:155 | A text of length n has at most (n + 1) / 2 words, so never more words than characters |
| `Text.TrailingSpaceKeepsWords` | word_processor.py:154-155 | Appending one whitespace character, such as the widget's newline, leaves the words unchanged |
| `Text.HelloWorld` | word_processor.py:155 | "hello world" splits into "hello" and "world", so the count is 2 |
| `Format.NatToDecimal` | word_processor.py:157 | A count is rendered as at least one digit, with no leading zero (0 is exactly "0"), and reads back as the same number |
| `Format.IntToDecimal` | word_processor.py:157 | `{n}` of an integer is a minus sign exactly when it is negative, then at least one digit with no leading zero and no "-0", and it reads back as the same integer |
| `Paths.Basename` | word_processor.py:79 | The base name is the longest suffix of the path without a `/`: it is the whole path or follows the last `/` |
| `Paths.BasenameIgnoresDirectory` | word_processor.py:105 | The directories in front of the last `/` do not change the base name, and so do not change the title |

## Left out

- Widget construction, menus, packing, event binding and the main loop (word_processor.py:6-58, 159-162). This is GUI wiring with no behaviour of its own. The constructor keeps only the three values it sets: the title, the status text and `file_path`.
- Font and font-size dialogs (word_processor.py:109-151). They consist of widget configuration and font enumeration.
- Undo, Redo, Cut, Copy, Paste and Exit (word_processor.py:27, 32-37). They pass straight through to Tk. The user typing into the widget is not modelled either: in the model, the text changes only through the File commands.
- The file dialogs and `messagebox.showerror`. The dialog's answer is an argument. An error is modelled only as "an error box was shown" (`reported`), without its message text.
- Real file I/O. The store is a map from path to text, as `read()` returns it and `write()` receives it. Text-mode newline translation, encodings and exception kinds are not modelled. When a write fails after the open, the model leaves the file empty; a real partial write can leave a prefix.
- `os.path.basename` is modelled with POSIX rules only (`/`). The Windows `\` separator and drive prefixes are not.
- A cancelled dialog that returns an empty tuple instead of `""` is not modelled separately. Both are falsy, so both take the same branch.
