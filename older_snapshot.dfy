/**
 * The snapshot of the older commands (src/snapshot.rs): each record keeps
 * the text a preference showed before `apply` and the text it applied, and
 * the snapshot lists the external commands the last `apply` found. It is
 * kept in one file at a fixed path; the JSON text of the file is not
 * modelled, only whether it holds a snapshot or something that does not
 * parse as one.
 */
module OlderSnapshot {
  import opened Wrappers

  /** `SettingState`: `originalValue` is `None` when the preference was not set before. */
  datatype SettingState = SettingState(domain: string, key: string, originalValue: Option<string>, newValue: string)
  {
    function Key(): (string, string) { (domain, key) }
  }

  /** `ExternalCommandState`: a command, its string arguments and whether it runs under `sudo`. */
  datatype ExternalCommandState = ExternalCommandState(cmd: string, args: seq<string>, sudo: bool)

  datatype Snapshot = Snapshot(settings: seq<SettingState>, externalCommands: seq<ExternalCommandState>, version: string)

  /** `Snapshot::new`: nothing recorded, stamped with the program's version. */
  function New(version: string): (s: Snapshot)
    ensures s.settings == [] && s.externalCommands == [] && s.version == version
  {
    Snapshot([], [], version)
  }

  /** What the snapshot file holds. */
  datatype FileContent = Saved(snapshot: Snapshot) | Unreadable

  /** The file at the snapshot path (`~/.cutler_snapshot`). */
  class SnapshotFile {
    /** What is there; `None` when there is no file. */
    var content: Option<FileContent>
    /** Whether the file system lets the file be written and removed. */
    const writable: bool

    constructor(initial: Option<FileContent>, writable: bool)
      ensures content == initial && this.writable == writable
    {
      content := initial;
      this.writable := writable;
    }

    /** `Snapshot::load_from_file`: fails on a missing file and on one that does not parse. */
    method Load() returns (r: Result<Snapshot>)
      ensures r.Ok? <==> content.Some? && content.value.Saved?
      ensures r.Ok? ==> r.value == content.value.snapshot
    {
      if content.None? {
        return Err("No such file");
      }
      match content.value
      case Unreadable => return Err("Failed to parse snapshot.");
      case Saved(s) => return Ok(s);
    }

    /** `Snapshot::save_to_file`: a later `Load` gives the same snapshot back. */
    method Save(s: Snapshot) returns (r: Result<()>)
      modifies this
      ensures r.Ok? <==> writable
      ensures content == (if writable then Some(Saved(s)) else old(content))
    {
      if !writable {
        return Err("Could not write the snapshot file.");
      }
      content := Some(Saved(s));
      return Ok(());
    }

    /** `fs::remove_file` on the snapshot path: fails when there is no file. */
    method Remove() returns (r: Result<()>)
      modifies this
      ensures r.Ok? <==> old(content).Some? && writable
      ensures content == (if r.Ok? then None else old(content))
    {
      if content.None? || !writable {
        return Err("Could not remove the snapshot file.");
      }
      content := None;
      return Ok(());
    }
  }
}
