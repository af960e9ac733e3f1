/**
 * The project directory the controllers work on: `rubigo.json`, `rubigo.lock`
 * and the vendor tree, held by one `Store` whose fields the commands update.
 * Each file-system step takes a flag saying whether it succeeds.
 */
module Workspace {
  import opened Json
  import opened JsonHelper
  import Fs

  /** How a command ends: normally, or through `fatal`, which exits the process with status 1. */
  datatype Exit = Finished | Fatal

  /** A snapshot of the project directory. */
  datatype State = State(manifest: Doc, lock: Doc, dirs: set<Fs.Path>)

  /** The project directory after a command, and how the command ended. */
  datatype Run = Run(state: State, exit: Exit)

  /**
   * Which file-system steps succeed: the writes of the two documents, the
   * compensating rewrites of each, directory creation, a removal whose failure
   * is fatal, and the clean-up removals whose errors are ignored.
   */
  datatype Io = Io(
    manifestWriteOk: bool,
    lockWriteOk: bool,
    revertManifestOk: bool,
    revertLockOk: bool,
    createOk: bool,
    removeOk: bool,
    cleanupOk: bool)

  class Store {
    var manifest: Doc
    var lock: Doc
    var vendorDirs: set<Fs.Path>

    constructor (manifest: Doc, lock: Doc, vendorDirs: set<Fs.Path>)
      ensures this.manifest == manifest && this.lock == lock && this.vendorDirs == vendorDirs
    {
      this.manifest := manifest;
      this.lock := lock;
      this.vendorDirs := vendorDirs;
    }

    function Snapshot(): State
      reads this
    {
      State(manifest, lock, vendorDirs)
    }

    /** `json_helper::write("rubigo.json", ..)`: a failed write leaves the file as it was. */
    method WriteManifest(value: Json, ok: bool)
      modifies this
      ensures Snapshot() == old(Snapshot()).(manifest := if ok then Present(value) else old(manifest))
    {
      if ok {
        manifest := Present(value);
      }
    }

    /** `json_helper::write("rubigo.lock", ..)`. */
    method WriteLock(value: Json, ok: bool)
      modifies this
      ensures Snapshot() == old(Snapshot()).(lock := if ok then Present(value) else old(lock))
    {
      if ok {
        lock := Present(value);
      }
    }

    /** `remove_file("rubigo.json")`. */
    method DeleteManifest(ok: bool)
      modifies this
      ensures Snapshot() == old(Snapshot()).(manifest := if ok then Absent else old(manifest))
    {
      if ok {
        manifest := Absent;
      }
    }

    /** `remove_file("rubigo.lock")`. */
    method DeleteLock(ok: bool)
      modifies this
      ensures Snapshot() == old(Snapshot()).(lock := if ok then Absent else old(lock))
    {
      if ok {
        lock := Absent;
      }
    }

    /** `create_dir_all(p)` (and `create_dir` for the vendor root). */
    method CreateDir(p: Fs.Path, ok: bool)
      modifies this
      ensures Snapshot() == old(Snapshot()).(dirs := if ok then Fs.CreateDirAll(old(vendorDirs), p) else old(vendorDirs))
    {
      if ok {
        vendorDirs := Fs.CreateDirAll(vendorDirs, p);
      }
    }

    /** `remove_dir_all(p)`. */
    method RemoveDir(p: Fs.Path, ok: bool)
      modifies this
      ensures Snapshot() == old(Snapshot()).(dirs := if ok then Fs.RemoveDirAll(old(vendorDirs), p) else old(vendorDirs))
    {
      if ok {
        vendorDirs := Fs.RemoveDirAll(vendorDirs, p);
      }
    }

    /** The vendor tree as the vendor operations, which work on it as a value, left it. */
    method Vendored(dirs: set<Fs.Path>)
      modifies this
      ensures Snapshot() == old(Snapshot()).(dirs := dirs)
    {
      vendorDirs := dirs;
    }
  }
}
