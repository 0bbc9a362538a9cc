/**
 * The `WordProcessor` object of word_processor.py: its fields are updated in
 * place by `new_file`, `open_file`, `save_file`, `save_as_file` and
 * `update_status`, one assignment at a time in the order those methods make
 * them, and each method is proved to end in the state the matching function
 * of module Session describes.
 */
module Editor {
  import opened Wrappers
  import opened Text
  import opened Format
  import opened Session

  /** The file system as the editor sees it: the contents of each file by
      path. */
  class Disk {
    var files: map<string, string>

    constructor (files: map<string, string>)
      ensures this.files == files
    {
      this.files := files;
    }

    /** `with open(path, 'w') as file: file.write(content)` */
    method Write(path: string, content: string, fault: Fault) returns (ok: bool)
      modifies this
      ensures WriteResult(files, ok) == WriteFile(old(files), path, content, fault)
    {
      if fault == FailsAtOpen {
        return false;
      }
      files := files[path := ""];  // opening for writing creates or truncates
      if fault == FailsAtTransfer {
        return false;
      }
      files := files[path := content];
      return true;
    }
  }

  class WordProcessor {
    var filePath: Option<string>
    var buffer: string
    var title: string
    var status: string

    function Snapshot(): State
      reads this
    {
      State(filePath, buffer, title, status)
    }

    ghost predicate Valid()
      reads this
    {
      Consistent(Snapshot())
    }

    constructor ()
      ensures Valid()
      ensures Snapshot() == Startup
    {
      title := StartupTitle;
      buffer := "";
      status := StartupStatus;
      filePath := None;
    }

    method NewFile()
      requires Valid()
      modifies this
      ensures Valid()
      ensures Snapshot() == AfterNew(old(Snapshot()))
    {
      buffer := "";
      filePath := None;
      title := UntitledTitle;
    }

    /** `chosen` is the Open dialog's answer, "" when it was cancelled. */
    method OpenFile(disk: Disk, chosen: string, fault: Fault) returns (reported: bool)
      requires Valid()
      modifies this
      ensures Valid()
      ensures Outcome(Snapshot(), disk.files, reported) == AfterOpen(old(Snapshot()), disk.files, chosen, fault)
    {
      reported := false;
      if chosen == "" {
        return;
      }
      if chosen !in disk.files || fault == FailsAtOpen {
        reported := true;
        return;
      }
      buffer := "";
      if fault == FailsAtTransfer {
        reported := true;
        return;
      }
      buffer := disk.files[chosen];
      filePath := Some(chosen);
      title := TitleFor(chosen);
    }

    /** `chosen` is the Save As dialog's answer, consulted only when no file
        is tied to the text. */
    method SaveFile(disk: Disk, chosen: string, fault: Fault) returns (reported: bool)
      requires Valid()
      modifies this, disk
      ensures Valid()
      ensures Outcome(Snapshot(), disk.files, reported) == AfterSave(old(Snapshot()), old(disk.files), chosen, fault)
    {
      if filePath.Some? && filePath.value != "" {
        var content := WidgetText(buffer);
        var ok := disk.Write(filePath.value, content, fault);
        reported := !ok;
      } else {
        reported := SaveAsFile(disk, chosen, fault);
      }
    }

    /** `chosen` is the Save As dialog's answer, "" when it was cancelled. */
    method SaveAsFile(disk: Disk, chosen: string, fault: Fault) returns (reported: bool)
      requires Valid()
      modifies this, disk
      ensures Valid()
      ensures Outcome(Snapshot(), disk.files, reported) == AfterSaveAs(old(Snapshot()), old(disk.files), chosen, fault)
    {
      reported := false;
      if chosen == "" {
        return;
      }
      var content := WidgetText(buffer);
      var ok := disk.Write(chosen, content, fault);
      if !ok {
        reported := true;
        return;
      }
      filePath := Some(chosen);
      title := TitleFor(chosen);
    }

    method UpdateStatus()
      requires Valid()
      modifies this
      ensures Valid()
      ensures Snapshot() == AfterKeyRelease(old(Snapshot()))
    {
      var content := WidgetText(buffer);
      var words := |Split(content)|;
      var chars := |content| - 1;
      status := "Words: " + IntToDecimal(words) + " | Characters: " + IntToDecimal(chars);
    }
  }
}
