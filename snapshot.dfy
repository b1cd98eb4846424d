/**
 * The snapshot of what `apply` changed (src/snapshot/core.rs): one record
 * per preference written, holding the text it had before, so that
 * `unapply` can put it back; and the file the snapshot is kept in.
 */
module Snapshots {
  import opened Wrappers
  import Prefs

  /** `SettingState`: a preference `apply` wrote and the text it showed before (`None`: it was unset). */
  datatype SettingState = SettingState(domain: string, key: string, originalValue: Option<string>)
  {
    function Key(): Prefs.PrefKey { (domain, key) }
  }

  /**
   * `Snapshot`. `external` is the list of external commands recorded by
   * the older layout in src/snapshot/state.rs, which `unapply` reads; the
   * layout of src/snapshot/core.rs leaves it empty. `path` is not saved.
   */
  datatype Snapshot = Snapshot(
    settings: seq<SettingState>,
    execRunCount: int,
    version: string,
    digest: string,
    external: seq<string>,
    path: string)

  /** `Snapshot::new`: nothing recorded yet, at the snapshot path. */
  function New(path: string, version: string): (s: Snapshot)
    ensures s.settings == [] && s.execRunCount == 0 && s.digest == "" && s.external == []
    ensures s.path == path && s.version == version
  {
    Snapshot([], 0, version, "", [], path)
  }

  /** What a snapshot file holds: a snapshot (its path not saved), or text that does not parse as one. */
  datatype FileContent = Saved(snapshot: Snapshot) | Unreadable

  /** The snapshot files on disk, by path. */
  class SnapshotFiles {
    var files: map<string, FileContent>
    /** Whether the file system lets a snapshot file be written and removed. */
    const writable: bool

    constructor(initial: map<string, FileContent>, writable: bool)
      ensures files == initial && this.writable == writable
    {
      files := initial;
      this.writable := writable;
    }

    /** `Snapshot::is_loadable`: the snapshot path could be resolved and a file exists there. */
    function IsLoadable(path: Option<string>): bool
      reads this
    {
      path.Some? && path.value in files
    }

    /**
     * `Snapshot::save`: writes the snapshot to its own path, the path
     * itself not saved; fails, writing nothing, when the directory or the
     * file cannot be written.
     */
    method Save(s: Snapshot) returns (r: Result<()>)
      modifies this
      ensures r.Ok? <==> writable
      ensures files == if writable then old(files)[s.path := Saved(s.(path := ""))] else old(files)
    {
      if !writable {
        return Err("Could not write the snapshot file.");
      }
      files := files[s.path := Saved(s.(path := ""))];
      return Ok(());
    }

    /** `Snapshot::load`: fails on a missing or unreadable file; the loaded snapshot carries the path it came from. */
    method Load(path: string) returns (r: Result<Snapshot>)
      ensures r.Ok? <==> path in files && files[path].Saved?
      ensures r.Ok? ==> r.value == files[path].snapshot.(path := path)
    {
      if path !in files {
        return Err("Invalid path, cannot load.");
      }
      match files[path]
      case Unreadable => return Err("Snapshot file does not parse.");
      case Saved(s) => return Ok(s.(path := path));
    }

    /** `Snapshot::delete`: removes the file at the snapshot's path; fails, removing nothing, when there is none or it cannot be removed. */
    method Delete(s: Snapshot) returns (r: Result<()>)
      modifies this
      ensures r.Ok? <==> s.path in old(files) && writable
      ensures files == if r.Ok? then old(files) - {s.path} else old(files)
    {
      if s.path !in files || !writable {
        return Err("Could not delete snapshot file.");
      }
      files := files - {s.path};
      return Ok(());
    }
  }
}
