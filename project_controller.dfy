/**
 * `controller/project.rs`: `init`, which creates the two documents for a
 * directory (synchronising with an existing vendor tree), and `reset`, which
 * rebuilds both from the vendor tree. The scan of the vendor tree
 * (`vendor::find_packages`) and the project name (`helpers::get_current_dir`)
 * are inputs.
 */
module ProjectController {
  import opened Wrappers
  import opened Json
  import opened JsonHelper
  import opened Fs
  import opened Helpers
  import opened Vendor
  import opened Workspace

  /** The package entries with their `update` key removed, every other key as it was. */
  function StripUpdate(packages: seq<Json>): (r: seq<Json>)
    ensures |r| == |packages|
    ensures forall i :: 0 <= i < |r| ==> Get(r[i], UPDATE_KEY) == Null
    ensures forall i, k :: 0 <= i < |r| && k != UPDATE_KEY ==> Get(r[i], k) == Get(packages[i], k)
  {
    seq(|packages|, i requires 0 <= i < |packages| => RemoveKey(packages[i], UPDATE_KEY))
  }

  /** Removing the `update` keys twice is the same as removing them once. */
  lemma StripUpdateIdempotent(packages: seq<Json>)
    ensures StripUpdate(StripUpdate(packages)) == StripUpdate(packages)
  {
    var once := StripUpdate(packages);
    forall i | 0 <= i < |packages|
      ensures RemoveKey(once[i], UPDATE_KEY) == once[i]
    {
      if packages[i].Obj? {
        assert once[i].fields - {UPDATE_KEY} == once[i].fields;
      }
    }
  }

  /** `remove_update_key`: drops `update` from every entry, in place. */
  method RemoveUpdateKey(packages: array<Json>)
    modifies packages
    ensures packages[..] == StripUpdate(old(packages[..]))
  {
    for i := 0 to packages.Length
      invariant packages[..i] == StripUpdate(old(packages[..]))[..i]
      invariant packages[i..] == old(packages[..])[i..]
    {
      packages[i] := RemoveKey(packages[i], UPDATE_KEY);
    }
  }

  /** `vendor`, the root of the vendor tree. */
  function VendorRoot(): Path {
    [VENDOR_DIR]
  }

  /** The info block `init` writes: the project's name. */
  function NameInfo(projectName: string): Json {
    Obj(map[NAME_KEY := Str(projectName)])
  }

  /** The manifest `init` writes for an existing vendor tree: the scanned git packages and nothing else. */
  function ScannedManifest(projectName: string, scanned: seq<Json>): (r: Json)
    ensures Get(Get(r, INFO_KEY), NAME_KEY) == Str(projectName)
    ensures Items(ManifestSet(r, GIT_KEY)) == scanned
    ensures Items(ManifestSet(r, LOCAL_KEY)) == [] && Items(ManifestSet(r, GLOBAL_KEY)) == []
  {
    ManifestDoc(NameInfo(projectName), Arr(scanned), Arr([]), Arr([]))
  }

  /** The lock record `init` writes next to it. */
  function ScannedLock(scanned: seq<Json>): (r: Json)
    ensures Len(Get(r, GIT_KEY)) == |scanned|
    ensures forall i :: 0 <= i < |scanned| ==> Get(Items(Get(r, GIT_KEY))[i], UPDATE_KEY) == Null
    ensures forall i, k :: 0 <= i < |scanned| && k != UPDATE_KEY ==> Get(Items(Get(r, GIT_KEY))[i], k) == Get(scanned[i], k)
    ensures Items(Get(r, LOCAL_KEY)) == [] && Items(Get(r, GLOBAL_KEY)) == []
  {
    LockDoc(Arr(StripUpdate(scanned)), Arr([]), Arr([]))
  }

  /**
   * `init`: refuses an initialised directory; deletes a stale lock record;
   * without a vendor tree writes the default manifest and creates `vendor`,
   * with one writes the scanned packages to both documents. A failure after the
   * manifest is written deletes it again.
   */
  function InitRun(s: State, projectName: string, scanned: seq<Json>, io: Io): Run {
    if s.manifest.Exists() then Run(s, Fatal)
    else if s.lock.Exists() && !io.removeOk then Run(s, Fatal)
    else
      var s1 := s.(lock := Absent);
      if VendorRoot() !in s.dirs then
        var manifest := DefaultManifest(projectName);
        if !io.manifestWriteOk then Run(s1, Fatal)
        else if !io.createOk then Run(s1.(manifest := if io.cleanupOk then Absent else Present(manifest)), Fatal)
        else Run(s1.(manifest := Present(manifest), dirs := CreateDirAll(s.dirs, VendorRoot())), Finished)
      else
        var manifest := ScannedManifest(projectName, scanned);
        if !io.manifestWriteOk then Run(s1, Fatal)
        else if !io.lockWriteOk then Run(s1.(manifest := if io.cleanupOk then Absent else Present(manifest)), Fatal)
        else Run(s1.(manifest := Present(manifest), lock := Present(ScannedLock(scanned))), Finished)
  }

  method Init(store: Store, projectName: string, scanned: seq<Json>, io: Io) returns (exit: Exit)
    modifies store
    ensures Run(store.Snapshot(), exit) == InitRun(old(store.Snapshot()), projectName, scanned, io)
  {
    if store.manifest.Exists() {
      return Fatal;
    }
    if store.lock.Exists() {
      store.DeleteLock(io.removeOk);
      if !io.removeOk {
        store.DeleteManifest(io.cleanupOk);
        return Fatal;
      }
    }
    if VendorRoot() !in store.vendorDirs {
      store.WriteManifest(DefaultManifest(projectName), io.manifestWriteOk);
      if !io.manifestWriteOk {
        store.DeleteManifest(io.cleanupOk);
        return Fatal;
      }
      store.CreateDir(VendorRoot(), io.createOk);
      if !io.createOk {
        store.DeleteManifest(io.cleanupOk);
        return Fatal;
      }
    } else {
      store.WriteManifest(ScannedManifest(projectName, scanned), io.manifestWriteOk);
      if !io.manifestWriteOk {
        store.DeleteManifest(io.cleanupOk);
        return Fatal;
      }
      var packages := new Json[|scanned|](i requires 0 <= i < |scanned| => scanned[i]);
      assert packages[..] == scanned;
      RemoveUpdateKey(packages);
      store.WriteLock(LockDoc(Arr(packages[..]), Arr([]), Arr([])), io.lockWriteOk);
      if !io.lockWriteOk {
        store.DeleteLock(io.cleanupOk);
        store.DeleteManifest(io.cleanupOk);
        return Fatal;
      }
    }
    return Finished;
  }

  /** An initialised directory is refused and left as it is. */
  lemma InitRefusesInitialised(s: State, projectName: string, scanned: seq<Json>, io: Io)
    requires s.manifest.Exists()
    ensures InitRun(s, projectName, scanned, io) == Run(s, Fatal)
  {
  }

  /**
   * A completed `init` leaves a manifest and no stale lock record: without a
   * vendor tree the default manifest, no lock record and a new `vendor`; with
   * one the scanned git packages in both documents (without `update` in the
   * lock record) and empty local and global sets.
   */
  lemma InitCompleted(s: State, projectName: string, scanned: seq<Json>, io: Io)
    requires InitRun(s, projectName, scanned, io).exit == Finished
    ensures var r := InitRun(s, projectName, scanned, io).state;
            && !s.manifest.Exists()
            && (VendorRoot() !in s.dirs ==>
                  r.manifest == Present(DefaultManifest(projectName)) && r.lock == Absent &&
                  r.dirs == s.dirs + {VendorRoot()})
            && (VendorRoot() in s.dirs ==>
                  r.manifest.Present? && r.lock.Present? && r.dirs == s.dirs &&
                  Get(Get(r.manifest.value, INFO_KEY), NAME_KEY) == Str(projectName) &&
                  ManifestSet(r.manifest.value, GIT_KEY) == Arr(scanned) &&
                  ManifestSet(r.manifest.value, LOCAL_KEY) == Arr([]) &&
                  ManifestSet(r.manifest.value, GLOBAL_KEY) == Arr([]) &&
                  Get(r.lock.value, LOCAL_KEY) == Arr([]) && Get(r.lock.value, GLOBAL_KEY) == Arr([]) &&
                  Get(r.lock.value, GIT_KEY).Arr? && |Get(r.lock.value, GIT_KEY).items| == |scanned| &&
                  (forall i, k :: 0 <= i < |scanned| && k != UPDATE_KEY ==>
                     Get(Get(r.lock.value, GIT_KEY).items[i], k) == Get(scanned[i], k)) &&
                  (forall i :: 0 <= i < |scanned| ==> Get(Get(r.lock.value, GIT_KEY).items[i], UPDATE_KEY) == Null))
  {
  }

  /**
   * A failed `init` in a directory without a manifest leaves none behind
   * when the clean-up removals succeed, and never leaves a lock record it wrote.
   */
  lemma InitFailureLeavesNoManifest(s: State, projectName: string, scanned: seq<Json>, io: Io)
    requires !s.manifest.Exists() && io.cleanupOk
    requires InitRun(s, projectName, scanned, io).exit == Fatal
    ensures var r := InitRun(s, projectName, scanned, io).state;
            r.manifest == Absent && (r.lock == Absent || r.lock == s.lock) && r.dirs == s.dirs
  {
  }

  /** The global set `reset` keeps: the lock record's, with null read as empty. */
  function CarriedGlobals(lock: Json): (r: Json)
    ensures !r.Null?
    ensures Items(r) == Items(Get(lock, GLOBAL_KEY))
    ensures Get(lock, GLOBAL_KEY).Arr? ==> r == Get(lock, GLOBAL_KEY)
  {
    if Get(lock, GLOBAL_KEY).Null? then Arr([]) else Get(lock, GLOBAL_KEY)
  }

  /** The info block `reset` keeps: the manifest's, with null read as `{}`. */
  function CarriedInfo(manifest: Json): (r: Json)
    ensures !r.Null?
    ensures forall k :: Get(r, k) == Get(Get(manifest, INFO_KEY), k)
    ensures Get(manifest, INFO_KEY).Obj? ==> r == Get(manifest, INFO_KEY)
  {
    if Get(manifest, INFO_KEY).Null? then EmptyObject() else Get(manifest, INFO_KEY)
  }

  /** The local packages of the lock record whose directory is in the vendor tree, in order. */
  function PresentLocals(lock: Json, dirs: set<Path>): (r: seq<Json>)
    ensures forall x :: x in r <==> x in Items(Get(lock, LOCAL_KEY)) && x.Str? && VendorPath(x.s) in dirs
  {
    KeptMembers(Items(Get(lock, LOCAL_KEY)), s => VendorPath(s) in dirs);
    Kept(Items(Get(lock, LOCAL_KEY)), s => VendorPath(s) in dirs)
  }

  /**
   * `inner_reset`: needs the vendor tree; writes a manifest holding the
   * scanned git packages, the lock record's local packages that still have a
   * directory, its global packages and the old info block, then the lock
   * record with the same sets (git entries without `update`). Unreadable
   * documents read as `{}`.
   */
  function InnerResetRun(s: State, scanned: seq<Json>, io: Io): Run {
    if VendorRoot() !in s.dirs then Run(s, Fatal)
    else
      var manifest := ReadOr(s.manifest, EmptyObject());
      var lock := ReadOr(s.lock, EmptyObject());
      var locals := Arr(PresentLocals(lock, s.dirs));
      var globals := CarriedGlobals(lock);
      if !io.manifestWriteOk then Run(s, Fatal)
      else
        var s1 := s.(manifest := Present(ManifestDoc(CarriedInfo(manifest), Arr(scanned), locals, globals)));
        if !io.lockWriteOk then Run(s1, Fatal)
        else Run(s1.(lock := Present(LockDoc(Arr(StripUpdate(scanned)), locals, globals))), Finished)
  }

  method InnerReset(store: Store, scanned: seq<Json>, io: Io) returns (exit: Exit)
    modifies store
    ensures Run(store.Snapshot(), exit) == InnerResetRun(old(store.Snapshot()), scanned, io)
  {
    if VendorRoot() !in store.vendorDirs {
      return Fatal;
    }
    var manifest := ReadOr(store.manifest, EmptyObject());
    var lock := ReadOr(store.lock, EmptyObject());
    var globalPackages := Get(lock, GLOBAL_KEY);
    if globalPackages.Null? {
      globalPackages := Arr([]);
    }
    var result := KeepPresentLocals(Get(lock, LOCAL_KEY), store.vendorDirs);
    var info := Get(manifest, INFO_KEY);
    if info.Null? {
      info := EmptyObject();
    }
    store.WriteManifest(ManifestDoc(info, Arr(scanned), Arr(result), globalPackages), io.manifestWriteOk);
    if !io.manifestWriteOk {
      return Fatal;
    }
    var packages := new Json[|scanned|](i requires 0 <= i < |scanned| => scanned[i]);
    assert packages[..] == scanned;
    RemoveUpdateKey(packages);
    store.WriteLock(LockDoc(Arr(packages[..]), Arr(result), globalPackages), io.lockWriteOk);
    if !io.lockWriteOk {
      return Fatal;
    }
    return Finished;
  }

  /** The filtering loop of `inner_reset`: string entries whose `vendor/<entry>` directory exists. */
  method KeepPresentLocals(localPackages: Json, dirs: set<Path>) returns (result: seq<Json>)
    ensures result == Kept(Items(localPackages), s => VendorPath(s) in dirs)
  {
    var items := Items(localPackages);
    result := [];
    for i := 0 to Len(localPackages)
      invariant result == Kept(items[..i], s => VendorPath(s) in dirs)
    {
      KeptSnoc(items, s => VendorPath(s) in dirs, i);
      var localPkg := At(localPackages, i);
      assert localPkg == items[i];
      if !localPkg.Str? {
        continue;
      }
      if VendorPath(localPkg.s) in dirs {
        result := result + [localPkg];
      }
    }
    assert items[..Len(localPackages)] == items;
  }

  /** `reset`: runs `inner_reset` when no prompt is wanted or the answer confirms; a declined answer changes nothing. */
  function ResetRun(s: State, noPrompt: bool, answer: Option<string>, scanned: seq<Json>, io: Io): Run {
    if noPrompt then InnerResetRun(s, scanned, io)
    else
      match ConfirmationPrompt(answer)
      case Some(true) => InnerResetRun(s, scanned, io)
      case Some(false) => Run(s, Finished)
      case None => Run(s, Fatal)
  }

  method Reset(store: Store, noPrompt: bool, answer: Option<string>, scanned: seq<Json>, io: Io)
    returns (exit: Exit)
    modifies store
    ensures Run(store.Snapshot(), exit) == ResetRun(old(store.Snapshot()), noPrompt, answer, scanned, io)
  {
    if noPrompt {
      exit := InnerReset(store, scanned, io);
    } else {
      var accepted := ConfirmationPrompt(answer);
      if accepted == Some(true) {
        exit := InnerReset(store, scanned, io);
      } else if accepted == Some(false) {
        exit := Finished;
      } else {
        exit := Fatal;
      }
    }
  }

  /** Unless the prompt is skipped or answered yes, `reset` leaves the directory as it is. */
  lemma ResetNeedsConsent(s: State, noPrompt: bool, answer: Option<string>, scanned: seq<Json>, io: Io)
    requires !noPrompt && ConfirmationPrompt(answer) != Some(true)
    ensures ResetRun(s, noPrompt, answer, scanned, io).state == s
    ensures ResetRun(s, noPrompt, answer, scanned, io).exit == (if answer.None? then Fatal else Finished)
  {
  }

  /**
   * A completed reset writes the same git, local and global sets to both
   * documents: the scan, the lock record's local entries that still have a
   * directory, and its global set (null read as empty); the info block is kept.
   */
  lemma InnerResetSets(s: State, scanned: seq<Json>, io: Io)
    requires InnerResetRun(s, scanned, io).exit == Finished
    ensures var r := InnerResetRun(s, scanned, io).state;
            var oldLock := ReadOr(s.lock, EmptyObject());
            && r.manifest.Present? && r.lock.Present? && r.dirs == s.dirs
            && Get(r.manifest.value, INFO_KEY) == CarriedInfo(ReadOr(s.manifest, EmptyObject()))
            && ManifestSet(r.manifest.value, GIT_KEY) == Arr(scanned)
            && Get(r.lock.value, GIT_KEY) == Arr(StripUpdate(scanned))
            && ManifestSet(r.manifest.value, LOCAL_KEY) == Get(r.lock.value, LOCAL_KEY)
            && ManifestSet(r.manifest.value, GLOBAL_KEY) == Get(r.lock.value, GLOBAL_KEY)
            && (Get(oldLock, GLOBAL_KEY).Null? ==> Get(r.lock.value, GLOBAL_KEY) == Arr([]))
            && (!Get(oldLock, GLOBAL_KEY).Null? ==> Get(r.lock.value, GLOBAL_KEY) == Get(oldLock, GLOBAL_KEY))
            && Get(r.lock.value, LOCAL_KEY).Arr?
            && (forall x :: x in Get(r.lock.value, LOCAL_KEY).items <==>
                  x in Items(Get(oldLock, LOCAL_KEY)) && x.Str? && VendorPath(x.s) in s.dirs)
  {
  }
}
