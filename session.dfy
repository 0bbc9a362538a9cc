/**
 * The editing session of the word processor: which file the text is tied
 * to, the text itself, the window title and the status-bar text, and how the
 * File menu's New, Open, Save and Save As commands and the key-release
 * handler change them. Each command is a function from the state before it
 * (and the file store, the path picked in the file dialog and the point at
 * which the file operation fails, if any) to the state after it.
 */
module Session {
  import opened Wrappers
  import opened Text
  import opened Format
  import opened Paths

  /** The title set when the window is built. */
  const StartupTitle: string := "Simple Word Processor"

  /** What follows the file's name in the title. */
  const TitleSuffix: string := " - Simple Word Processor"

  /** The title set by New. */
  const UntitledTitle: string := "Untitled" + TitleSuffix

  /** The status-bar text before the first key release. */
  const StartupStatus: string := "Status Bar"

  /** The title shown while the text is tied to `path`: the file's name,
      without its directories, followed by the suffix. */
  function TitleFor(path: string): (t: string)
    ensures |TitleSuffix| <= |t| && t[|t| - |TitleSuffix|..] == TitleSuffix
    ensures forall i :: 0 <= i < |t| - |TitleSuffix| ==> t[i] != Separator
  {
    Basename(path) + TitleSuffix
  }

  /** What the text widget's `get(1.0, END)` returns: the text followed by
      the newline the widget always keeps after it. The status bar's `- 1`
      undoes exactly that newline, and it adds no word. */
  function WidgetText(buffer: string): (content: string)
    ensures |content| - 1 == |buffer|
    ensures Split(content) == Split(buffer)
  {
    TrailingSpaceKeepsWords(buffer, '\n');
    buffer + "\n"
  }

  /** The status-bar text computed from the widget text `content`. The
      widget text always holds its final newline, so neither count carries
      a minus sign. */
  function StatusText(content: string): (t: string)
    ensures content != [] ==>
      t == "Words: " + NatToDecimal(WordCount(content)) + " | Characters: " + NatToDecimal(|content| - 1)
  {
    "Words: " + IntToDecimal(WordCount(content)) + " | Characters: " + IntToDecimal(|content| - 1)
  }

  /** Where a file operation fails: nowhere, at `open(...)`, or afterwards
      at `read()` / `write(...)`. */
  datatype Fault = NoFault | FailsAtOpen | FailsAtTransfer

  datatype State = State(filePath: Option<string>, buffer: string, title: string, status: string)

  /** The state after a command, the file store after it, and whether an
      error box was shown. */
  datatype Outcome = Outcome(state: State, files: map<string, string>, reported: bool)

  const Startup: State := State(None, "", StartupTitle, StartupStatus)

  datatype ReadResult = Contents(text: string) | OpenFailed | ReadFailed

  /** `open(path, 'r')` then `read()`: a path that is not in the store
      fails at open. */
  function ReadFile(files: map<string, string>, path: string, fault: Fault): (r: ReadResult)
    ensures r.Contents? <==> path in files && fault == NoFault
    ensures r.Contents? ==> r.text == files[path]
    ensures r.ReadFailed? <==> path in files && fault == FailsAtTransfer
  {
    if path !in files then OpenFailed
    else
      match fault
      case FailsAtOpen => OpenFailed
      case FailsAtTransfer => ReadFailed
      case NoFault => Contents(files[path])
  }

  datatype WriteResult = WriteResult(files: map<string, string>, ok: bool)

  /** `open(path, 'w')` then `write(content)`: opening for writing creates
      or truncates the file, so a failure after the open leaves it empty. */
  function WriteFile(files: map<string, string>, path: string, content: string, fault: Fault): (w: WriteResult)
    ensures w.ok <==> fault == NoFault
    ensures w.ok ==> path in w.files && w.files[path] == content
    ensures fault == FailsAtOpen ==> w.files == files
    ensures fault == FailsAtTransfer ==> path in w.files && w.files[path] == ""
    ensures w.files.Keys <= files.Keys + {path}
    ensures forall q :: q in files && q != path ==> q in w.files && w.files[q] == files[q]
  {
    match fault
    case NoFault => WriteResult(files[path := content], true)
    case FailsAtOpen => WriteResult(files, false)
    case FailsAtTransfer => WriteResult(files[path := ""], false)
  }

  /** Python's truth test `if self.file_path:` */
  predicate HasPath(s: State)
  {
    s.filePath.Some? && s.filePath.value != ""
  }

  /** New: the text is emptied and tied to no file; the status bar is
      left as it was. */
  function AfterNew(s: State): (t: State)
    ensures Consistent(t) && t.filePath == None && t.buffer == ""
    ensures t.status == s.status
  {
    s.(buffer := "", filePath := None, title := UntitledTitle)
  }

  /** Open: the buffer is emptied once the file is open and refilled only
      if the read succeeds. */
  function AfterOpen(s: State, files: map<string, string>, chosen: string, fault: Fault): (o: Outcome)
    ensures o.files == files && o.state.status == s.status
  {
    if chosen == "" then Outcome(s, files, false)
    else
      match ReadFile(files, chosen, fault)
      case OpenFailed => Outcome(s, files, true)
      case ReadFailed => Outcome(s.(buffer := ""), files, true)
      case Contents(text) =>
        Outcome(s.(buffer := text, filePath := Some(chosen), title := TitleFor(chosen)), files, false)
  }

  /** Save As: only the path and the title may change in the session. */
  function AfterSaveAs(s: State, files: map<string, string>, chosen: string, fault: Fault): (o: Outcome)
    ensures o.state == s.(filePath := o.state.filePath, title := o.state.title)
  {
    if chosen == "" then Outcome(s, files, false)
    else
      var w := WriteFile(files, chosen, WidgetText(s.buffer), fault);
      if w.ok then Outcome(s.(filePath := Some(chosen), title := TitleFor(chosen)), w.files, false)
      else Outcome(s, w.files, true)
  }

  /** Save: `chosen` is the Save As dialog's answer, used only when the text
      is tied to no file. */
  function AfterSave(s: State, files: map<string, string>, chosen: string, fault: Fault): (o: Outcome)
    ensures o.state == s.(filePath := o.state.filePath, title := o.state.title)
  {
    if HasPath(s) then
      var w := WriteFile(files, s.filePath.value, WidgetText(s.buffer), fault);
      Outcome(s, w.files, !w.ok)
    else
      AfterSaveAs(s, files, chosen, fault)
  }

  /** The key-release handler that refreshes the status bar. */
  function AfterKeyRelease(s: State): (t: State)
    ensures t == s.(status := t.status)
  {
    s.(status := StatusText(WidgetText(s.buffer)))
  }

  /** The title tells which file the text is tied to: its base name, or one
      of the two generic titles when there is none. */
  predicate Consistent(s: State): (b: bool)
    ensures b && s.filePath.Some? ==> s.title != StartupTitle
  {
    match s.filePath
    case None => s.title == StartupTitle || s.title == UntitledTitle
    case Some(p) => p != "" && s.title == TitleFor(p)
  }

  // ---------------------------------------------------------------------
  // Sequences of user commands

  datatype Command =
    | New
    | Open(chosen: string, fault: Fault)
    | Save(chosen: string, fault: Fault)
    | SaveAs(chosen: string, fault: Fault)
    | KeyRelease

  function Apply(s: State, files: map<string, string>, c: Command): Outcome
  {
    match c
    case New => Outcome(AfterNew(s), files, false)
    case Open(chosen, fault) => AfterOpen(s, files, chosen, fault)
    case Save(chosen, fault) => AfterSave(s, files, chosen, fault)
    case SaveAs(chosen, fault) => AfterSaveAs(s, files, chosen, fault)
    case KeyRelease => Outcome(AfterKeyRelease(s), files, false)
  }

  /** The commands one after the other; `reported` tells whether any of
      them showed an error. */
  function Run(s: State, files: map<string, string>, cmds: seq<Command>): Outcome
    decreases |cmds|
  {
    if cmds == [] then Outcome(s, files, false)
    else
      var o := Apply(s, files, cmds[0]);
      var r := Run(o.state, o.files, cmds[1..]);
      r.(reported := o.reported || r.reported)
  }

  /** Reference for the associated path, looking only at the commands: New
      forgets the path, a non-cancelled Open or Save As picks the chosen one,
      and Save picks it only when there was none. */
  function Associate(path: Option<string>, c: Command): Option<string>
  {
    match c
    case New => None
    case Open(p, _) => if p == "" then path else Some(p)
    case SaveAs(p, _) => if p == "" then path else Some(p)
    case Save(p, _) => if (path.Some? && path.value != "") || p == "" then path else Some(p)
    case KeyRelease => path
  }

  function Association(path: Option<string>, cmds: seq<Command>): Option<string>
    decreases |cmds|
  {
    if cmds == [] then path else Association(Associate(path, cmds[0]), cmds[1..])
  }

  function OpenSaveCycles(path: string, k: nat): seq<Command>
  {
    if k == 0 then [] else [Open(path, NoFault), Save("", NoFault)] + OpenSaveCycles(path, k - 1)
  }

  function Newlines(k: nat): string
  {
    if k == 0 then "" else "\n" + Newlines(k - 1)
  }

  // ---------------------------------------------------------------------
  // Properties of single commands

  /** At startup no file is tied and the title is the bare application
      name; New empties the text, unties the file and shows a different,
      "Untitled" title, leaving the status bar as it was. */
  lemma NewResetsSession(s: State)
    ensures Startup.filePath == None && Startup.buffer == "" && Startup.title == StartupTitle
    ensures Consistent(Startup)
    ensures var t := AfterNew(s);
      && t.buffer == "" && t.filePath == None
      && t.title == UntitledTitle && t.status == s.status
      && Consistent(t)
    ensures UntitledTitle != StartupTitle
  {
    assert UntitledTitle[0] != StartupTitle[0];
  }

  /** A cancelled Open dialog changes nothing and reports nothing. */
  lemma OpenCancelledIsNoOp(s: State, files: map<string, string>, fault: Fault)
    ensures AfterOpen(s, files, "", fault) == Outcome(s, files, false)
  {
  }

  /** A successful Open loads the file, ties the text to it and names it in
      the title; no error is shown and the status bar is not refreshed. */
  lemma OpenSucceeds(s: State, files: map<string, string>, path: string)
    requires path != "" && path in files
    ensures var o := AfterOpen(s, files, path, NoFault);
      && o.state.buffer == files[path]
      && o.state.filePath == Some(path)
      && o.state.title == Basename(path) + TitleSuffix
      && o.state.status == s.status
      && o.files == files && !o.reported
  {
  }

  /** A failed Open shows an error and never changes the tied path or the
      title; a failure at `open` leaves the text alone, but a failure while
      reading comes after the text was cleared, so the text is lost. */
  lemma OpenFailureKeepsPathAndTitle(s: State, files: map<string, string>, path: string, fault: Fault)
    requires path != ""
    requires path !in files || fault != NoFault
    ensures var o := AfterOpen(s, files, path, fault);
      && o.reported
      && o.state.filePath == s.filePath && o.state.title == s.title && o.state.status == s.status
      && o.files == files
      && (path !in files || fault == FailsAtOpen ==> o.state.buffer == s.buffer)
      && (path in files && fault == FailsAtTransfer ==> o.state.buffer == "")
  {
  }

  /** Save with a tied file writes the widget text, that is the text plus a
      newline, to that file; whatever happens, the session is unchanged, and
      an error is shown exactly when the write fails. */
  lemma SaveWithPathWrites(s: State, files: map<string, string>, chosen: string, fault: Fault)
    requires HasPath(s)
    ensures var o := AfterSave(s, files, chosen, fault);
      var p := s.filePath.value;
      && o.state == s
      && o.reported == (fault != NoFault)
      && (fault == NoFault ==> o.files == files[p := s.buffer + "\n"])
      && (fault == FailsAtOpen ==> o.files == files)
      && (forall q :: q in files && q != p ==> q in o.files && o.files[q] == files[q])
  {
  }

  /** Save without a tied file is Save As. */
  lemma SaveWithoutPathIsSaveAs(s: State, files: map<string, string>, chosen: string, fault: Fault)
    requires !HasPath(s)
    ensures AfterSave(s, files, chosen, fault) == AfterSaveAs(s, files, chosen, fault)
  {
  }

  /** Save As never touches the text or the status bar; cancelling does
      nothing; success writes the text plus a newline and ties the text to
      the chosen file; failure shows an error and keeps path and title. */
  lemma SaveAsCases(s: State, files: map<string, string>, chosen: string, fault: Fault)
    ensures var o := AfterSaveAs(s, files, chosen, fault);
      && o.state.buffer == s.buffer && o.state.status == s.status
      && (chosen == "" ==> o == Outcome(s, files, false))
      && (chosen != "" && fault == NoFault ==>
            && o.files == files[chosen := s.buffer + "\n"]
            && o.state.filePath == Some(chosen)
            && o.state.title == Basename(chosen) + TitleSuffix
            && !o.reported)
      && (chosen != "" && fault != NoFault ==>
            o.state == s && o.reported)
  {
  }

  /** A key release only refreshes the status bar, which then shows the
      number of words and the exact number of characters of the text. */
  lemma KeyReleaseShowsCounts(s: State)
    ensures var t := AfterKeyRelease(s);
      && t == s.(status := t.status)
      && t.status == "Words: " + NatToDecimal(WordCount(s.buffer))
                     + " | Characters: " + NatToDecimal(|s.buffer|)
  {
  }

  /** The status line for `words` words and `chars` characters, with the
      two numbers already rendered as `w` and `c`. */
  lemma StatusLine(s: State, words: nat, chars: nat, w: string, c: string)
    requires WordCount(s.buffer) == words && |s.buffer| == chars
    requires NatToDecimal(words) == w && NatToDecimal(chars) == c
    ensures AfterKeyRelease(s).status == "Words: " + w + " | Characters: " + c
  {
    KeyReleaseShowsCounts(s);
  }

  lemma EmptyStatusLine()
    ensures "Words: " + "0" + " | Characters: " + "0" == "Words: 0 | Characters: 0"
  {
  }

  lemma HelloWorldStatusLine()
    ensures "Words: " + "2" + " | Characters: " + "11" == "Words: 2 | Characters: 11"
  {
  }

  /** An empty text shows zero words and zero characters. */
  lemma StatusOfEmptyText(s: State)
    requires s.buffer == ""
    ensures AfterKeyRelease(s).status == "Words: 0 | Characters: 0"
  {
    assert WordCount(s.buffer) == 0;
    assert NatToDecimal(0) == "0";
    StatusLine(s, 0, 0, "0", "0");
    EmptyStatusLine();
  }

  /** "hello world" shows two words and eleven characters. */
  lemma StatusOfHelloWorld(s: State)
    requires s.buffer == "hello world"
    ensures AfterKeyRelease(s).status == "Words: 2 | Characters: 11"
  {
    assert WordCount(s.buffer) == 2 by {
      HelloWorld();
    }
    assert NatToDecimal(2) == "2";
    assert NatToDecimal(11) == "11" by {
      TwoDigits(11);
      assert [DigitChar(1), DigitChar(1)] == "11";
    }
    StatusLine(s, 2, 11, "2", "11");
    HelloWorldStatusLine();
  }

  /** Every command keeps the title in step with the tied path. */
  lemma ApplyKeepsConsistent(s: State, files: map<string, string>, c: Command)
    requires Consistent(s)
    ensures Consistent(Apply(s, files, c).state)
  {
  }

  /** The generic title does not prove that no file is tied: a file named
      "Untitled" gets the same title as New. */
  lemma UntitledFileLooksNew()
    ensures TitleFor("Untitled") == UntitledTitle
    ensures Consistent(State(Some("Untitled"), "", UntitledTitle, StartupStatus))
  {
    BasenameOfPlainName("Untitled");
  }

  // ---------------------------------------------------------------------
  // Properties of command sequences

  lemma {:induction false} RunKeepsConsistent(s: State, files: map<string, string>, cmds: seq<Command>)
    requires Consistent(s)
    ensures Consistent(Run(s, files, cmds).state)
    decreases |cmds|
  {
    if cmds != [] {
      var o := Apply(s, files, cmds[0]);
      ApplyKeepsConsistent(s, files, cmds[0]);
      RunKeepsConsistent(o.state, o.files, cmds[1..]);
    }
  }

  lemma ApplyAssociates(s: State, files: map<string, string>, c: Command)
    requires !Apply(s, files, c).reported
    ensures Apply(s, files, c).state.filePath == Associate(s.filePath, c)
  {
  }

  /** When no command shows an error, the tied path is the one picked by the
      latest New, Open, Save As, or Save of an untied text. */
  lemma {:induction false} AssociationTracksCommands(s: State, files: map<string, string>, cmds: seq<Command>)
    requires !Run(s, files, cmds).reported
    ensures Run(s, files, cmds).state.filePath == Association(s.filePath, cmds)
    decreases |cmds|
  {
    if cmds != [] {
      var o := Apply(s, files, cmds[0]);
      ApplyAssociates(s, files, cmds[0]);
      AssociationTracksCommands(o.state, o.files, cmds[1..]);
    }
  }

  /** Opening a file and saving it at once does not leave it as it was: the
      widget's trailing newline is written too. */
  lemma OpenThenSaveAppendsNewline(s: State, files: map<string, string>, path: string)
    requires path != "" && path in files
    ensures var o := Run(s, files, [Open(path, NoFault), Save("", NoFault)]);
      && path in o.files && o.files[path] == files[path] + "\n"
      && !o.reported
  {
    var cmds := [Open(path, NoFault), Save("", NoFault)];
    var o1 := Apply(s, files, cmds[0]);
    assert o1.state.filePath == Some(path) && o1.state.buffer == files[path] && !o1.reported;
    assert cmds[1..] == [Save("", NoFault)];
    var o2 := Apply(o1.state, o1.files, Save("", NoFault));
    assert o2.files == files[path := files[path] + "\n"] && !o2.reported;
    assert Run(o1.state, o1.files, cmds[1..]) == o2 by {
      assert cmds[1..][1..] == [];
    }
  }

  /** Save As, New, then Open of the same file brings back the text with one
      newline more. */
  lemma SaveAsNewOpenAddsNewline(s: State, files: map<string, string>, path: string)
    requires path != ""
    ensures var o := Run(s, files, [SaveAs(path, NoFault), New, Open(path, NoFault)]);
      && o.state.buffer == s.buffer + "\n"
      && o.state.filePath == Some(path)
      && !o.reported
  {
    var cmds := [SaveAs(path, NoFault), New, Open(path, NoFault)];
    var o1 := Apply(s, files, cmds[0]);
    assert path in o1.files && o1.files[path] == s.buffer + "\n" && !o1.reported;
    var o2 := Apply(o1.state, o1.files, New);
    var o3 := Apply(o2.state, o2.files, Open(path, NoFault));
    assert o3.state.buffer == s.buffer + "\n" && o3.state.filePath == Some(path) && !o3.reported;
    assert Run(o2.state, o2.files, [Open(path, NoFault)]) == o3 by {
      assert [Open(path, NoFault)][1..] == [];
    }
    assert Run(o1.state, o1.files, [New, Open(path, NoFault)]) == o3 by {
      assert [New, Open(path, NoFault)][1..] == [Open(path, NoFault)];
    }
    assert cmds[1..] == [New, Open(path, NoFault)];
  }

  /** Running two commands and then `rest` leaves the files as running
      `rest` from the state after the two. */
  lemma RunTwoThen(s: State, files: map<string, string>, a: Command, b: Command, rest: seq<Command>)
    ensures var o1 := Apply(s, files, a);
      var o2 := Apply(o1.state, o1.files, b);
      Run(s, files, [a, b] + rest).files == Run(o2.state, o2.files, rest).files
  {
    var cmds := [a, b] + rest;
    assert cmds[0] == a && cmds[1..][0] == b && cmds[1..][1..] == rest;
  }

  /** One Open-then-Save cycle in front of `rest`: the file gains one
      newline, and `rest` then runs from state `t` and store `f`. */
  lemma OpenSaveStep(s: State, files: map<string, string>, path: string, rest: seq<Command>)
    returns (t: State, f: map<string, string>)
    requires path != "" && path in files
    ensures f == files[path := files[path] + "\n"]
    ensures Run(s, files, [Open(path, NoFault), Save("", NoFault)] + rest).files == Run(t, f, rest).files
  {
    var o1 := Apply(s, files, Open(path, NoFault));
    assert ReadFile(files, path, NoFault) == Contents(files[path]);
    assert o1.state.filePath == Some(path) && o1.state.buffer == files[path] && o1.files == files;
    assert HasPath(o1.state);
    var o2 := Apply(o1.state, o1.files, Save("", NoFault));
    RunTwoThen(s, files, Open(path, NoFault), Save("", NoFault), rest);
    t, f := o2.state, o2.files;
  }

  lemma NewlinesStep(x: string, k: nat)
    requires k > 0
    ensures (x + "\n") + Newlines(k - 1) == x + Newlines(k)
  {
  }

  /** Each Open-then-Save cycle grows the file by one newline. */
  lemma {:induction false} OpenSaveCyclesGrowFile(s: State, files: map<string, string>, path: string, k: nat)
    requires path != "" && path in files
    decreases k
    ensures var o := Run(s, files, OpenSaveCycles(path, k));
      path in o.files && o.files[path] == files[path] + Newlines(k)
  {
    if k > 0 {
      var rest := OpenSaveCycles(path, k - 1);
      assert OpenSaveCycles(path, k) == [Open(path, NoFault), Save("", NoFault)] + rest;
      var t, f := OpenSaveStep(s, files, path, rest);
      OpenSaveCyclesGrowFile(t, f, path, k - 1);
      NewlinesStep(files[path], k);
    }
  }
}
