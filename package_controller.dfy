/**
 * `controller/package.rs`: `get`, `remove` and `update` as runs over the
 * project directory. Each command is specified by a function from the
 * directory before it to the directory after it and how it ended, and
 * implemented by a method on the `Store` that takes the same steps in the same
 * order. Git, `go get`, the prompts and the helpers whose code is not part of
 * this model are inputs.
 */
module PackageController {
  import opened Wrappers
  import opened Json
  import opened JsonHelper
  import opened Fs
  import opened GitHelper
  import opened Helpers
  import opened Vendor
  import opened Workspace
  import opened ProjectController

  /** `get`'s argument with one trailing `/` or `\` removed. */
  function TrimSlash(url: string): (r: string)
    ensures |r| <= |url| && r == url[..|r|] && |url| - |r| <= 1
    ensures |r| < |url| <==> |url| > 0 && (url[|url| - 1] == '/' || url[|url| - 1] == '\\')
  {
    if |url| > 0 && (url[|url| - 1] == '/' || url[|url| - 1] == '\\') then url[..|url| - 1] else url
  }

  /** Only one separator goes: `a//` becomes `a/`. */
  lemma TrimSlashOnce(url: string, c: char, d: char)
    requires (c == '/' || c == '\\') && (d == '/' || d == '\\')
    ensures TrimSlash(url + [c, d]) == url + [c]
  {
    assert (url + [c, d])[..|url| + 1] == url + [c];
  }

  /** What a set entry is compared by: the string itself, or the `import` of a git entry. */
  function EntryName(entry: Json, byImport: bool): Option<string> {
    if byImport then AsStr(Get(entry, IMPORT_KEY)) else AsStr(entry)
  }

  /** `name` is declared in `entries`. */
  predicate Declared(entries: Json, name: string, byImport: bool) {
    exists i :: 0 <= i < Len(entries) && EntryName(At(entries, i), byImport) == Some(name)
  }

  /** The first position at or after `i` where `name` is declared. */
  function FirstFrom(entries: Json, name: string, byImport: bool, i: nat): (r: Option<nat>)
    ensures r.Some? ==> i <= r.value < Len(entries) && EntryName(At(entries, r.value), byImport) == Some(name)
    ensures forall j :: i <= j < Len(entries) && (r.None? || j < r.value) ==>
              EntryName(At(entries, j), byImport) != Some(name)
    decreases Len(entries) - i
  {
    if i >= Len(entries) then None
    else if EntryName(At(entries, i), byImport) == Some(name) then Some(i)
    else FirstFrom(entries, name, byImport, i + 1)
  }

  /** The first position where `name` is declared: None exactly when it is not declared at all. */
  function FirstDeclared(entries: Json, name: string, byImport: bool): (r: Option<nat>)
    ensures r.None? <==> !Declared(entries, name, byImport)
    ensures r.Some? ==>
              && entries.Arr? && r.value < |entries.items|
              && EntryName(entries.items[r.value], byImport) == Some(name)
              && forall j :: 0 <= j < r.value ==> EntryName(At(entries, j), byImport) != Some(name)
  {
    FirstFrom(entries, name, byImport, 0)
  }

  /**
   * The search loops of `get` and `update`: the first entry whose name is
   * `name`, skipping entries that have no string name.
   */
  method FindEntry(entries: Json, name: string, byImport: bool) returns (index: Option<nat>)
    ensures index == FirstDeclared(entries, name, byImport)
  {
    for i := 0 to Len(entries)
      invariant forall j :: 0 <= j < i ==> EntryName(At(entries, j), byImport) != Some(name)
    {
      var entryName := if byImport then AsStr(Get(At(entries, i), IMPORT_KEY)) else AsStr(At(entries, i));
      if entryName.None? {
        continue;
      }
      if entryName.value == name {
        return Some(i);
      }
    }
    return None;
  }

  /**
   * The outside world of one `get`: the answer to the initialisation prompt and
   * what `init` needs, `go get`, `modify_golang_org` (the clone URL and the
   * import path to vendor under, if it differs), cloning, semantic versions,
   * the answer to the version menu, and whether detaching HEAD and the reset succeed.
   */
  datatype GetWorld = GetWorld(
    initAnswer: Option<string>,
    projectName: string,
    scanned: seq<Json>,
    initIo: Io,
    goGet: (string, bool) -> bool,
    rewrite: string -> (string, Option<string>),
    clone: string -> Option<Repo>,
    sem: Semver,
    versionAnswer: Option<string>,
    detachOk: bool,
    resetOk: bool)

  /**
   * How far `get` got before writing the documents: refused (leaving the
   * directory as given), or ready to write with the new packages objects of
   * both documents and the vendor path to remove if a write fails.
   */
  datatype Staged =
    | Refused(state: State)
    | Ready(state: State, packages: Json, lockPackages: Json, path: Path)

  /** The global branch of `get`: refuse a declared package, install it with `go get`, append it to both global sets. */
  function GlobalStage(s: State, manifest: Json, lock: Json, pkgImport: string, goGet: (string, bool) -> bool): (r: Staged)
    ensures r.state == s
    ensures r.Refused? <==> Declared(ManifestSet(manifest, GLOBAL_KEY), pkgImport, false) || !goGet(pkgImport, false)
    ensures r.Ready? ==>
              && r.path == VendorPath(pkgImport)
              && Get(r.packages, GIT_KEY) == ManifestSet(manifest, GIT_KEY)
              && Get(r.packages, LOCAL_KEY) == ManifestSet(manifest, LOCAL_KEY)
              && Appended(ManifestSet(manifest, GLOBAL_KEY), Get(r.packages, GLOBAL_KEY), pkgImport, false)
              && Get(r.lockPackages, GIT_KEY) == Get(lock, GIT_KEY)
              && Get(r.lockPackages, LOCAL_KEY) == Get(lock, LOCAL_KEY)
              && Appended(Get(lock, GLOBAL_KEY), Get(r.lockPackages, GLOBAL_KEY), pkgImport, false)
  {
    if Declared(ManifestSet(manifest, GLOBAL_KEY), pkgImport, false) || !goGet(pkgImport, false) then Refused(s)
    else
      AppendedByAppendOrCreate(ManifestSet(manifest, GLOBAL_KEY), Str(pkgImport), pkgImport, false);
      AppendedByAppendOrCreate(Get(lock, GLOBAL_KEY), Str(pkgImport), pkgImport, false);
      Ready(s,
            PackagesObject(ManifestSet(manifest, GIT_KEY), ManifestSet(manifest, LOCAL_KEY),
                           AppendOrCreate(ManifestSet(manifest, GLOBAL_KEY), Str(pkgImport))),
            PackagesObject(Get(lock, GIT_KEY), Get(lock, LOCAL_KEY),
                           AppendOrCreate(Get(lock, GLOBAL_KEY), Str(pkgImport))),
            VendorPath(pkgImport))
  }

  /** The local branch of `get`: refuse a declared package or an existing path, create the directory, append to both local sets. */
  function LocalStage(s: State, manifest: Json, lock: Json, pkgImport: string, io: Io): Staged {
    var path := VendorPath(pkgImport);
    if Declared(ManifestSet(manifest, LOCAL_KEY), pkgImport, false) || path in s.dirs || !io.createOk then Refused(s)
    else
      Ready(s.(dirs := CreateDirAll(s.dirs, path)),
            PackagesObject(ManifestSet(manifest, GIT_KEY),
                           AppendOrCreate(ManifestSet(manifest, LOCAL_KEY), Str(pkgImport)),
                           ManifestSet(manifest, GLOBAL_KEY)),
            PackagesObject(Get(lock, GIT_KEY), AppendOrCreate(Get(lock, LOCAL_KEY), Str(pkgImport)),
                           Get(lock, GLOBAL_KEY)),
            path)
  }

  /** The entry `get` starts a git package with: its import, and the repository URL when one was given. */
  function NewGitEntry(pkgImport: string, repoUrl: Option<string>): (r: Json)
    ensures r.Obj? && Get(r, IMPORT_KEY) == Str(pkgImport)
    ensures Get(r, REPO_KEY) == (if repoUrl.Some? then Str(repoUrl.value) else Null)
  {
    match repoUrl
    case Some(url) => Obj(map[IMPORT_KEY := Str(pkgImport), REPO_KEY := Str(url)])
    case None => Obj(map[IMPORT_KEY := Str(pkgImport)])
  }

  /** The (checkout, rule) pair: HEAD's commit for both without a prompt, else the menu's choice. */
  function ChosenVersion(repo: Repo, noPrompt: bool, sem: Semver, answer: Option<string>): (r: Option<(string, string)>)
    ensures noPrompt ==> (r.Some? <==> repo.head.Resolved? && repo.head.target.Some?)
    ensures noPrompt && r.Some? ==> r.value.0 == r.value.1 == repo.head.target.value
  {
    if noPrompt then
      match GetLatestCommit(repo)
      case Some(commit) => Some((commit, commit))
      case None => None
    else VersionPromptOf(sem, repo, answer)
  }

  /** The directory `get` vendors a git package under: the rewritten import path, if there is one. */
  function GitPath(pkgImport: string, w: GetWorld): (r: Path)
    ensures |r| >= 1 && r[0] == VENDOR_DIR
    ensures w.rewrite(pkgImport).1.None? ==> r == VendorPath(pkgImport)
  {
    VendorPathSegments(w.rewrite(pkgImport).1.GetOr(pkgImport));
    VendorPath(w.rewrite(pkgImport).1.GetOr(pkgImport))
  }

  /** The URL `get` clones a git package from: the given one, else the rewritten import. */
  function GitUrl(pkgImport: string, repoUrl: Option<string>, w: GetWorld): (r: string)
    ensures repoUrl.Some? ==> r == repoUrl.value
    ensures repoUrl.None? ==> r == w.rewrite(pkgImport).0
  {
    repoUrl.GetOr(w.rewrite(pkgImport).0)
  }

  /**
   * The git branch of `get`: refuse a declared import; delete an existing
   * directory (a failed deletion is fatal); create the directory; clone; choose
   * the version; resolve it; detach HEAD; reset. A failure after the directory
   * is created removes it. The manifest entry records the rule and the lock
   * entry the resolved label.
   */
  function GitStage(s: State, manifest: Json, lock: Json, pkgImport: string, repoUrl: Option<string>,
                    noPrompt: bool, w: GetWorld, io: Io): Staged {
    if Declared(ManifestSet(manifest, GIT_KEY), pkgImport, true) then Refused(s)
    else
      var path := GitPath(pkgImport, w);
      if path in s.dirs && !io.removeOk then Refused(s)
      else
        var cleared := if path in s.dirs then RemoveDirAll(s.dirs, path) else s.dirs;
        if !io.createOk then Refused(s.(dirs := cleared))
        else CloneStage(s.(dirs := CreateDirAll(cleared, path)), manifest, lock, pkgImport, repoUrl, noPrompt, w, io, path)
  }

  /**
   * The git branch of `get` once the directory `path` exists: clone, choose the
   * version, resolve it, detach HEAD and reset; any failure removes `path`.
   */
  function CloneStage(s: State, manifest: Json, lock: Json, pkgImport: string, repoUrl: Option<string>,
                      noPrompt: bool, w: GetWorld, io: Io, path: Path): Staged {
    var failed := Refused(s.(dirs := if io.cleanupOk then RemoveDirAll(s.dirs, path) else s.dirs));
    var entry := NewGitEntry(pkgImport, repoUrl);
    match w.clone(GitUrl(pkgImport, repoUrl, w))
    case None => failed
    case Some(repo) =>
      match ChosenVersion(repo, noPrompt, w.sem, w.versionAnswer)
      case None => failed
      case Some((version, rule)) =>
        match RevisionObject(repo, version, true)
        case None => failed
        case Some((_, resolved)) =>
          if !w.detachOk || !w.resetOk then failed
          else
            Ready(s,
                  PackagesObject(AppendOrCreate(ManifestSet(manifest, GIT_KEY), Set(entry, VERSION_KEY, Str(rule))),
                                 ManifestSet(manifest, LOCAL_KEY), ManifestSet(manifest, GLOBAL_KEY)),
                  PackagesObject(AppendOrCreate(Get(lock, GIT_KEY), Set(entry, VERSION_KEY, Str(resolved))),
                                 Get(lock, LOCAL_KEY), Get(lock, GLOBAL_KEY)),
                  path)
  }

  /** The manifest `get` writes: the old info block and the new packages object. */
  function ManifestWith(info: Json, packages: Json): (r: Json)
    ensures Get(r, INFO_KEY) == info && Get(r, PACKAGES_KEY) == packages
  {
    Obj(map[INFO_KEY := info, PACKAGES_KEY := packages])
  }

  /**
   * The end of `get`: the manifest is written first; if that fails, the vendor
   * path is removed unless the package is global. Then the lock record; if that
   * fails, the original manifest is written back and the vendor path removed.
   */
  function CommitRun(s: State, manifest: Json, packages: Json, lockPackages: Json, path: Path,
                     isGlobal: bool, io: Io): Run {
    var written := ManifestWith(Get(manifest, INFO_KEY), packages);
    if !io.manifestWriteOk then
      Run(s.(dirs := if !isGlobal && io.cleanupOk then RemoveDirAll(s.dirs, path) else s.dirs), Fatal)
    else if !io.lockWriteOk then
      Run(s.(manifest := Present(if io.revertManifestOk then manifest else written),
             dirs := if io.cleanupOk then RemoveDirAll(s.dirs, path) else s.dirs), Fatal)
    else Run(s.(manifest := Present(written), lock := Present(lockPackages)), Finished)
  }

  /** The branch of `get` that `isGlobal` and `isLocal` select. */
  function StageOf(s: State, manifest: Json, lock: Json, pkgImport: string, repoUrl: Option<string>, noPrompt: bool,
                   isGlobal: bool, isLocal: bool, w: GetWorld, io: Io): Staged {
    if isGlobal then GlobalStage(s, manifest, lock, pkgImport, w.goGet)
    else if isLocal then LocalStage(s, manifest, lock, pkgImport, io)
    else GitStage(s, manifest, lock, pkgImport, repoUrl, noPrompt, w, io)
  }

  /** The directory the selected branch of `get` vendors the package under. */
  function StagePath(pkgImport: string, isGlobal: bool, isLocal: bool, w: GetWorld): Path {
    if isGlobal || isLocal then VendorPath(pkgImport) else GitPath(pkgImport, w)
  }

  /** `get` in an initialised directory, from reading the manifest on. */
  function AddRun(s: State, url: string, repoUrl: Option<string>, noPrompt: bool, isGlobal: bool, isLocal: bool,
                  w: GetWorld, io: Io): Run {
    if !s.manifest.Present? then Run(s, Fatal)
    else
      var manifest := s.manifest.value;
      var lock := ReadOr(s.lock, EmptyObject());
      var pkgImport := StripUrlScheme(url);
      match StageOf(s, manifest, lock, pkgImport, repoUrl, noPrompt, isGlobal, isLocal, w, io)
      case Refused(s1) => Run(s1, Fatal)
      case Ready(s1, packages, lockPackages, path) =>
        CommitRun(s1, manifest, packages, lockPackages, path, isGlobal, io)
  }

  /**
   * `get`: strips one trailing separator; without a manifest initialises the
   * project (asking first unless prompts are off; a refusal is fatal); then
   * adds the package to the set `isGlobal`/`isLocal` selects.
   */
  function GetRun(s: State, packageUrl: string, repoUrl: Option<string>, noPrompt: bool, isGlobal: bool, isLocal: bool,
                  w: GetWorld, io: Io): Run {
    var url := TrimSlash(packageUrl);
    if s.manifest.Exists() then AddRun(s, url, repoUrl, noPrompt, isGlobal, isLocal, w, io)
    else if !noPrompt && ConfirmationPrompt(w.initAnswer) != Some(true) then Run(s, Fatal)
    else
      var init := InitRun(s, w.projectName, w.scanned, w.initIo);
      if init.exit == Fatal then init
      else AddRun(init.state, url, repoUrl, noPrompt, isGlobal, isLocal, w, io)
  }

  method GetPackage(store: Store, packageUrl: string, repoUrl: Option<string>, noPrompt: bool, isGlobal: bool, isLocal: bool,
             w: GetWorld, io: Io) returns (exit: Exit)
    modifies store
    ensures Run(store.Snapshot(), exit) == GetRun(old(store.Snapshot()), packageUrl, repoUrl, noPrompt, isGlobal, isLocal, w, io)
  {
    var url := packageUrl;
    if |url| > 0 && (url[|url| - 1] == '/' || url[|url| - 1] == '\\') {
      url := url[..|url| - 1];
    }
    if !store.manifest.Exists() {
      if noPrompt {
        exit := Init(store, w.projectName, w.scanned, w.initIo);
      } else {
        var state := ConfirmationPrompt(w.initAnswer);
        if state != Some(true) {
          return Fatal;
        }
        exit := Init(store, w.projectName, w.scanned, w.initIo);
      }
      if exit == Fatal {
        return;
      }
    }
    exit := AddPackage(store, url, repoUrl, noPrompt, isGlobal, isLocal, w, io);
  }

  method AddPackage(store: Store, url: string, repoUrl: Option<string>, noPrompt: bool, isGlobal: bool, isLocal: bool,
                    w: GetWorld, io: Io) returns (exit: Exit)
    modifies store
    ensures Run(store.Snapshot(), exit) == AddRun(old(store.Snapshot()), url, repoUrl, noPrompt, isGlobal, isLocal, w, io)
  {
    if !store.manifest.Present? {
      return Fatal;
    }
    var rubigoJson := store.manifest.value;
    var rubigoLock := ReadOr(store.lock, EmptyObject());
    var pkgImport := StripUrlScheme(url);
    var staged: Staged;
    if isGlobal {
      staged := AddGlobal(store, rubigoJson, rubigoLock, pkgImport, w.goGet);
    } else if isLocal {
      staged := AddLocal(store, rubigoJson, rubigoLock, pkgImport, io);
    } else {
      staged := AddGit(store, rubigoJson, rubigoLock, pkgImport, repoUrl, noPrompt, w, io);
    }
    if staged.Refused? {
      return Fatal;
    }
    exit := Commit(store, rubigoJson, staged.packages, staged.lockPackages, staged.path, isGlobal, io);
  }

  method AddGlobal(store: Store, manifest: Json, lock: Json, pkgImport: string, goGet: (string, bool) -> bool)
    returns (staged: Staged)
    modifies store
    ensures staged == GlobalStage(old(store.Snapshot()), manifest, lock, pkgImport, goGet)
    ensures store.Snapshot() == staged.state
  {
    var pkgPath := PathFromUrl(pkgImport);
    var found := FindEntry(ManifestSet(manifest, GLOBAL_KEY), pkgImport, false);
    if found.Some? || !goGet(pkgImport, false) {
      return Refused(store.Snapshot());
    }
    var globalPkgs := ManifestSet(manifest, GLOBAL_KEY);
    if globalPkgs.Null? {
      globalPkgs := Arr([Str(pkgImport)]);
    } else {
      globalPkgs := Push(globalPkgs, Str(pkgImport));
    }
    var lockGlobalPkgs := Get(lock, GLOBAL_KEY);
    if lockGlobalPkgs.Null? {
      lockGlobalPkgs := Arr([Str(pkgImport)]);
    } else {
      lockGlobalPkgs := Push(lockGlobalPkgs, Str(pkgImport));
    }
    staged := Ready(store.Snapshot(),
                    PackagesObject(ManifestSet(manifest, GIT_KEY), ManifestSet(manifest, LOCAL_KEY), globalPkgs),
                    PackagesObject(Get(lock, GIT_KEY), Get(lock, LOCAL_KEY), lockGlobalPkgs),
                    pkgPath);
  }

  method AddLocal(store: Store, manifest: Json, lock: Json, pkgImport: string, io: Io) returns (staged: Staged)
    modifies store
    ensures staged == LocalStage(old(store.Snapshot()), manifest, lock, pkgImport, io)
    ensures store.Snapshot() == staged.state
  {
    var pkgPath := PathFromUrl(pkgImport);
    var found := FindEntry(ManifestSet(manifest, LOCAL_KEY), pkgImport, false);
    if found.Some? || pkgPath in store.vendorDirs {
      return Refused(store.Snapshot());
    }
    store.CreateDir(pkgPath, io.createOk);
    if !io.createOk {
      return Refused(store.Snapshot());
    }
    var localPkgs := ManifestSet(manifest, LOCAL_KEY);
    if localPkgs.Null? {
      localPkgs := Arr([Str(pkgImport)]);
    } else {
      localPkgs := Push(localPkgs, Str(pkgImport));
    }
    var lockLocalPkgs := Get(lock, LOCAL_KEY);
    if lockLocalPkgs.Null? {
      lockLocalPkgs := Arr([Str(pkgImport)]);
    } else {
      lockLocalPkgs := Push(lockLocalPkgs, Str(pkgImport));
    }
    staged := Ready(store.Snapshot(),
                    PackagesObject(ManifestSet(manifest, GIT_KEY), localPkgs, ManifestSet(manifest, GLOBAL_KEY)),
                    PackagesObject(Get(lock, GIT_KEY), lockLocalPkgs, Get(lock, GLOBAL_KEY)),
                    pkgPath);
  }

  method AddGit(store: Store, manifest: Json, lock: Json, pkgImport: string, repoUrl: Option<string>,
                noPrompt: bool, w: GetWorld, io: Io) returns (staged: Staged)
    modifies store
    ensures staged == GitStage(old(store.Snapshot()), manifest, lock, pkgImport, repoUrl, noPrompt, w, io)
    ensures store.Snapshot() == staged.state
  {
    ghost var s0 := store.Snapshot();
    var found := FindEntry(ManifestSet(manifest, GIT_KEY), pkgImport, true);
    if found.Some? {
      return Refused(store.Snapshot());
    }
    assert !Declared(ManifestSet(manifest, GIT_KEY), pkgImport, true);
    var (pkgImportUrl, modifiedPkgPath) := w.rewrite(pkgImport);
    var modifiedPkgImport := if modifiedPkgPath.Some? then modifiedPkgPath.value else pkgImport;
    var pkgPath := PathFromUrl(modifiedPkgImport);
    assert pkgPath == GitPath(pkgImport, w);
    ghost var cleared := if pkgPath in s0.dirs then RemoveDirAll(s0.dirs, pkgPath) else s0.dirs;
    if pkgPath in store.vendorDirs {
      store.RemoveDir(pkgPath, io.removeOk);
      if !io.removeOk {
        return Refused(store.Snapshot());
      }
    }
    assert store.Snapshot() == s0.(dirs := cleared);
    store.CreateDir(pkgPath, io.createOk);
    if !io.createOk {
      return Refused(store.Snapshot());
    }
    assert store.Snapshot() == s0.(dirs := CreateDirAll(cleared, pkgPath));
    staged := CloneAndPin(store, manifest, lock, pkgImport, repoUrl, pkgImportUrl, noPrompt, w, io, pkgPath);
  }

  method CloneAndPin(store: Store, manifest: Json, lock: Json, pkgImport: string, repoUrl: Option<string>,
                     pkgImportUrl: string, noPrompt: bool, w: GetWorld, io: Io, pkgPath: Path) returns (staged: Staged)
    requires pkgImportUrl == w.rewrite(pkgImport).0
    modifies store
    ensures staged == CloneStage(old(store.Snapshot()), manifest, lock, pkgImport, repoUrl, noPrompt, w, io, pkgPath)
    ensures store.Snapshot() == staged.state
  {
    var pkgJson := Obj(map[IMPORT_KEY := Str(pkgImport)]);
    var cloneUrl := pkgImportUrl;
    if repoUrl.Some? {
      pkgJson := Set(pkgJson, REPO_KEY, Str(repoUrl.value));
      cloneUrl := repoUrl.value;
    }
    assert pkgJson == NewGitEntry(pkgImport, repoUrl);
    var repo := w.clone(cloneUrl);
    if repo.None? {
      store.RemoveDir(pkgPath, io.cleanupOk);
      return Refused(store.Snapshot());
    }
    var lockPkgJson := pkgJson;
    var choice := PromptOrLatest(repo.value, noPrompt, w);
    if choice.None? {
      store.RemoveDir(pkgPath, io.cleanupOk);
      return Refused(store.Snapshot());
    }
    var version := choice.value.0;
    pkgJson := Set(pkgJson, VERSION_KEY, Str(choice.value.1));
    var versionObject := RevisionObject(repo.value, version, true);
    if versionObject.None? {
      store.RemoveDir(pkgPath, io.cleanupOk);
      return Refused(store.Snapshot());
    }
    lockPkgJson := Set(lockPkgJson, VERSION_KEY, Str(versionObject.value.1));
    if !w.detachOk || !w.resetOk {
      store.RemoveDir(pkgPath, io.cleanupOk);
      return Refused(store.Snapshot());
    }
    staged := Ready(store.Snapshot(),
                    PackagesObject(AppendOrCreate(ManifestSet(manifest, GIT_KEY), pkgJson),
                                   ManifestSet(manifest, LOCAL_KEY), ManifestSet(manifest, GLOBAL_KEY)),
                    PackagesObject(AppendOrCreate(Get(lock, GIT_KEY), lockPkgJson),
                                   Get(lock, LOCAL_KEY), Get(lock, GLOBAL_KEY)),
                    pkgPath);
  }

  /** The version `get` checks out and the rule it records: the menu's choice, or HEAD's commit for both. */
  method PromptOrLatest(repo: Repo, noPrompt: bool, w: GetWorld) returns (choice: Option<(string, string)>)
    ensures choice == ChosenVersion(repo, noPrompt, w.sem, w.versionAnswer)
  {
    if !noPrompt {
      choice := VersionPrompt(w.sem, repo, w.versionAnswer);
    } else {
      var commit := GetLatestCommit(repo);
      if commit.None? {
        return None;
      }
      choice := Some((commit.value, commit.value));
    }
  }

  method Commit(store: Store, manifest: Json, packages: Json, lockPackages: Json, path: Path, isGlobal: bool, io: Io)
    returns (exit: Exit)
    modifies store
    ensures Run(store.Snapshot(), exit) == CommitRun(old(store.Snapshot()), manifest, packages, lockPackages, path, isGlobal, io)
  {
    store.WriteManifest(ManifestWith(Get(manifest, INFO_KEY), packages), io.manifestWriteOk);
    if !io.manifestWriteOk {
      if !isGlobal {
        store.RemoveDir(path, io.cleanupOk);
      }
      return Fatal;
    }
    store.WriteLock(lockPackages, io.lockWriteOk);
    if !io.lockWriteOk {
      store.WriteManifest(manifest, io.revertManifestOk);
      store.RemoveDir(path, io.cleanupOk);
      return Fatal;
    }
    return Finished;
  }

  /** The manifest set `get` adds to. */
  function TargetKey(isGlobal: bool, isLocal: bool): string {
    if isGlobal then GLOBAL_KEY else if isLocal then LOCAL_KEY else GIT_KEY
  }

  /** The import `get` records, from its argument. */
  function GetImport(packageUrl: string): string {
    StripUrlScheme(TrimSlash(packageUrl))
  }

  /** In an initialised directory, `get` of a package its set already declares is fatal and changes nothing. */
  lemma GetRefusesDeclared(s: State, packageUrl: string, repoUrl: Option<string>, noPrompt: bool, isGlobal: bool,
                           isLocal: bool, w: GetWorld, io: Io)
    requires s.manifest.Present?
    requires Declared(ManifestSet(s.manifest.value, TargetKey(isGlobal, isLocal)), GetImport(packageUrl),
                      !isGlobal && !isLocal)
    ensures GetRun(s, packageUrl, repoUrl, noPrompt, isGlobal, isLocal, w, io) == Run(s, Fatal)
  {
  }

  /**
   * A `get` in an initialised directory that ends normally has appended one
   * entry for the new import at the end of the target set of both documents,
   * where it was not declared before (a null set becomes that one entry), and
   * left the info block and the other two sets of both documents as they were.
   */
  lemma GetAppends(s: State, packageUrl: string, repoUrl: Option<string>, noPrompt: bool, isGlobal: bool,
                   isLocal: bool, w: GetWorld, io: Io)
    requires s.manifest.Present?
    requires GetRun(s, packageUrl, repoUrl, noPrompt, isGlobal, isLocal, w, io).exit == Finished
    ensures var r := GetRun(s, packageUrl, repoUrl, noPrompt, isGlobal, isLocal, w, io).state;
            var m0 := s.manifest.value;
            var l0 := ReadOr(s.lock, EmptyObject());
            var key := TargetKey(isGlobal, isLocal);
            var byImport := !isGlobal && !isLocal;
            && r.manifest.Present? && r.lock.Present?
            && !Declared(ManifestSet(m0, key), GetImport(packageUrl), byImport)
            && Get(r.manifest.value, INFO_KEY) == Get(m0, INFO_KEY)
            && (forall k :: k in {GIT_KEY, LOCAL_KEY, GLOBAL_KEY} && k != key ==>
                  ManifestSet(r.manifest.value, k) == ManifestSet(m0, k) && Get(r.lock.value, k) == Get(l0, k))
            && Appended(ManifestSet(m0, key), ManifestSet(r.manifest.value, key), GetImport(packageUrl), byImport)
            && Appended(Get(l0, key), Get(r.lock.value, key), GetImport(packageUrl), byImport)
  {
    var m0 := s.manifest.value;
    var l0 := ReadOr(s.lock, EmptyObject());
    var pkgImport := GetImport(packageUrl);
    if isGlobal {
      AppendedByAppendOrCreate(ManifestSet(m0, GLOBAL_KEY), Str(pkgImport), pkgImport, false);
      AppendedByAppendOrCreate(Get(l0, GLOBAL_KEY), Str(pkgImport), pkgImport, false);
    } else if isLocal {
      AppendedByAppendOrCreate(ManifestSet(m0, LOCAL_KEY), Str(pkgImport), pkgImport, false);
      AppendedByAppendOrCreate(Get(l0, LOCAL_KEY), Str(pkgImport), pkgImport, false);
    } else {
      var staged := GitStage(s, m0, l0, pkgImport, repoUrl, noPrompt, w, io);
      assert staged.Ready?;
      var path := GitPath(pkgImport, w);
      var cleared := if path in s.dirs then RemoveDirAll(s.dirs, path) else s.dirs;
      var s1 := s.(dirs := CreateDirAll(cleared, path));
      assert staged == CloneStage(s1, m0, l0, pkgImport, repoUrl, noPrompt, w, io, path);
      var repo := w.clone(GitUrl(pkgImport, repoUrl, w)).value;
      var (version, rule) := ChosenVersion(repo, noPrompt, w.sem, w.versionAnswer).value;
      var resolved := RevisionObject(repo, version, true).value.1;
      var entry := NewGitEntry(pkgImport, repoUrl);
      AppendedByAppendOrCreate(ManifestSet(m0, GIT_KEY), Set(entry, VERSION_KEY, Str(rule)), pkgImport, true);
      AppendedByAppendOrCreate(Get(l0, GIT_KEY), Set(entry, VERSION_KEY, Str(resolved)), pkgImport, true);
    }
  }

  /**
   * `after` is `before` with one more entry, named `name`, at the end (a null
   * `before` counts as empty); any other shape of `before` is left as it was.
   */
  predicate Appended(before: Json, after: Json, name: string, byImport: bool) {
    if before.Null? || before.Arr? then
      && after.Arr?
      && |after.items| == Len(before) + 1
      && after.items[..Len(before)] == Items(before)
      && EntryName(after.items[Len(before)], byImport) == Some(name)
    else after == before
  }

  lemma AppendedByAppendOrCreate(before: Json, entry: Json, name: string, byImport: bool)
    requires EntryName(entry, byImport) == Some(name)
    ensures Appended(before, AppendOrCreate(before, entry), name, byImport)
  {
    if before.Null? || before.Arr? {
      var after := AppendOrCreate(before, entry);
      assert Items(after) == Items(before) + [entry];
      assert after.items[..Len(before)] == Items(before);
    }
  }

  /**
   * A git `get` without prompting that ends normally pins the commit HEAD
   * points at in both documents: the manifest entry's `version` is that
   * commit, and so is the lock entry's, since the label `get_revision_object`
   * returns is either the version asked for or, on its retry, that same
   * commit. A repository URL given on the command line is recorded in both.
   */
  lemma GitGetPinsHead(s: State, packageUrl: string, repoUrl: Option<string>, w: GetWorld, io: Io)
    requires s.manifest.Present?
    requires GetRun(s, packageUrl, repoUrl, true, false, false, w, io).exit == Finished
    ensures var r := GetRun(s, packageUrl, repoUrl, true, false, false, w, io).state;
            var pkgImport := GetImport(packageUrl);
            var repo := w.clone(GitUrl(pkgImport, repoUrl, w));
            && repo.Some? && GetLatestCommit(repo.value).Some?
            && r.manifest.Present? && r.lock.Present?
            && var m0 := ManifestSet(s.manifest.value, GIT_KEY);
               var l0 := Get(ReadOr(s.lock, EmptyObject()), GIT_KEY);
               var m := ManifestSet(r.manifest.value, GIT_KEY);
               var l := Get(r.lock.value, GIT_KEY);
               var head := Str(GetLatestCommit(repo.value).value);
               var repoEntry := if repoUrl.Some? then Str(repoUrl.value) else Null;
               && Appended(m0, m, pkgImport, true) && Appended(l0, l, pkgImport, true)
               && ((m0.Null? || m0.Arr?) ==> LastPins(m, head, repoEntry))
               && ((l0.Null? || l0.Arr?) ==> LastPins(l, head, repoEntry))
  {
    var m0 := s.manifest.value;
    var l0 := ReadOr(s.lock, EmptyObject());
    var pkgImport := GetImport(packageUrl);
    var staged := GitStage(s, m0, l0, pkgImport, repoUrl, true, w, io);
    assert staged.Ready?;
    var path := GitPath(pkgImport, w);
    var cleared := if path in s.dirs then RemoveDirAll(s.dirs, path) else s.dirs;
    var s1 := s.(dirs := CreateDirAll(cleared, path));
    assert staged == CloneStage(s1, m0, l0, pkgImport, repoUrl, true, w, io, path);
    var repo := w.clone(GitUrl(pkgImport, repoUrl, w)).value;
    var commit := GetLatestCommit(repo).value;
    assert ChosenVersion(repo, true, w.sem, w.versionAnswer) == Some((commit, commit));
    var resolved := RevisionObject(repo, commit, true).value.1;
    assert resolved == commit;
    var entry := NewGitEntry(pkgImport, repoUrl);
    var mEntry := Set(entry, VERSION_KEY, Str(commit));
    var lEntry := Set(entry, VERSION_KEY, Str(resolved));
    var r := GetRun(s, packageUrl, repoUrl, true, false, false, w, io).state;
    assert ManifestSet(r.manifest.value, GIT_KEY) == AppendOrCreate(ManifestSet(m0, GIT_KEY), mEntry);
    assert Get(r.lock.value, GIT_KEY) == AppendOrCreate(Get(l0, GIT_KEY), lEntry);
    var repoEntry := if repoUrl.Some? then Str(repoUrl.value) else Null;
    PinsByAppendOrCreate(ManifestSet(m0, GIT_KEY), mEntry, pkgImport, Str(commit), repoEntry);
    PinsByAppendOrCreate(Get(l0, GIT_KEY), lEntry, pkgImport, Str(commit), repoEntry);
  }

  /** Appending a git entry leaves it last in a set that is an array or null. */
  lemma PinsByAppendOrCreate(before: Json, entry: Json, name: string, version: Json, repoEntry: Json)
    requires EntryName(entry, true) == Some(name)
    requires Get(entry, VERSION_KEY) == version && Get(entry, REPO_KEY) == repoEntry
    ensures Appended(before, AppendOrCreate(before, entry), name, true)
    ensures (before.Null? || before.Arr?) ==> LastPins(AppendOrCreate(before, entry), version, repoEntry)
  {
    AppendedByAppendOrCreate(before, entry, name, true);
  }

  /** The last entry of a git set records `version` and `repo` as given. */
  predicate LastPins(entries: Json, version: Json, repoEntry: Json) {
    && entries.Arr? && |entries.items| > 0
    && Get(entries.items[|entries.items| - 1], VERSION_KEY) == version
    && Get(entries.items[|entries.items| - 1], REPO_KEY) == repoEntry
  }

  /**
   * A `get` in an initialised directory that fails, when its compensating
   * steps succeed, leaves both documents as they were and adds no directory
   * but, possibly, parents of the package's vendor path that
   * `create_dir_all` made; and the lock record only ever changes in a `get`
   * that ends normally, after the manifest was written.
   */
  lemma GetAllOrNothing(s: State, packageUrl: string, repoUrl: Option<string>, noPrompt: bool, isGlobal: bool,
                        isLocal: bool, w: GetWorld, io: Io)
    requires s.manifest.Present?
    ensures var r := GetRun(s, packageUrl, repoUrl, noPrompt, isGlobal, isLocal, w, io);
            var path := StagePath(GetImport(packageUrl), isGlobal, isLocal, w);
            && (r.exit == Fatal && io.revertManifestOk && io.cleanupOk ==>
                  r.state.manifest == s.manifest && r.state.lock == s.lock && r.state.dirs <= s.dirs + Ancestors(path))
            && (r.state.lock != s.lock ==> r.exit == Finished && io.manifestWriteOk)
  {
    var m0 := s.manifest.value;
    var l0 := ReadOr(s.lock, EmptyObject());
    var pkgImport := GetImport(packageUrl);
    StageWithin(s, m0, l0, pkgImport, repoUrl, noPrompt, isGlobal, isLocal, w, io);
  }

  /**
   * Before the documents are written, `get` has changed only the vendor tree:
   * a refusal, when its clean-up succeeds, adds no directory but parents of
   * the package's vendor path; a staged package has that path and adds at
   * most it and its parents (a global one, nothing).
   */
  lemma StageWithin(s: State, manifest: Json, lock: Json, pkgImport: string, repoUrl: Option<string>, noPrompt: bool,
                    isGlobal: bool, isLocal: bool, w: GetWorld, io: Io)
    ensures var staged := StageOf(s, manifest, lock, pkgImport, repoUrl, noPrompt, isGlobal, isLocal, w, io);
            var path := StagePath(pkgImport, isGlobal, isLocal, w);
            && staged.state.manifest == s.manifest && staged.state.lock == s.lock
            && (staged.Refused? && io.cleanupOk ==> staged.state.dirs <= s.dirs + Ancestors(path))
            && (staged.Ready? ==> staged.path == path && staged.state.dirs <= s.dirs + Prefixes(path))
            && (staged.Ready? && !isGlobal ==> path in staged.state.dirs)
            && (staged.Ready? && isGlobal ==> staged.state.dirs == s.dirs)
  {
    if !isGlobal && !isLocal {
      GitStageWithin(s, manifest, lock, pkgImport, repoUrl, noPrompt, w, io);
    }
  }

  lemma GitStageWithin(s: State, manifest: Json, lock: Json, pkgImport: string, repoUrl: Option<string>,
                       noPrompt: bool, w: GetWorld, io: Io)
    ensures var staged := GitStage(s, manifest, lock, pkgImport, repoUrl, noPrompt, w, io);
            var path := GitPath(pkgImport, w);
            && staged.state.manifest == s.manifest && staged.state.lock == s.lock
            && (staged.Refused? && io.cleanupOk ==> staged.state.dirs <= s.dirs + Ancestors(path))
            && (staged.Ready? ==> staged.path == path && path in staged.state.dirs &&
                                  staged.state.dirs <= s.dirs + Prefixes(path))
  {
    var path := GitPath(pkgImport, w);
    var cleared := if path in s.dirs then RemoveDirAll(s.dirs, path) else s.dirs;
    var s1 := s.(dirs := CreateDirAll(cleared, path));
    if !Declared(ManifestSet(manifest, GIT_KEY), pkgImport, true) && !(path in s.dirs && !io.removeOk) && io.createOk {
      var staged := CloneStage(s1, manifest, lock, pkgImport, repoUrl, noPrompt, w, io, path);
      assert GitStage(s, manifest, lock, pkgImport, repoUrl, noPrompt, w, io) == staged;
      CloneStageWithin(s1, manifest, lock, pkgImport, repoUrl, noPrompt, w, io, path);
      assert s1.dirs <= s.dirs + Prefixes(path) by {
        assert cleared <= s.dirs;
      }
      assert staged.Refused? && io.cleanupOk ==> staged.state.dirs <= s.dirs + Ancestors(path) by {
        if staged.Refused? && io.cleanupOk {
          forall q | q in staged.state.dirs
            ensures q in s.dirs + Ancestors(path)
          {
            assert q in s1.dirs && q != path;
          }
        }
      }
    }
  }

  /** After the clone step the state is the one given, or, on a failure with clean-up, without `path`. */
  lemma CloneStageWithin(s: State, manifest: Json, lock: Json, pkgImport: string, repoUrl: Option<string>,
                         noPrompt: bool, w: GetWorld, io: Io, path: Path)
    ensures var staged := CloneStage(s, manifest, lock, pkgImport, repoUrl, noPrompt, w, io, path);
            && (staged.Ready? ==> staged.state == s && staged.path == path)
            && (staged.Refused? ==>
                  staged.state == s.(dirs := if io.cleanupOk then RemoveDirAll(s.dirs, path) else s.dirs))
  {
  }

  // remove

  /**
   * `json_helper::remove_package_from_array`, whose code is not part of this
   * model: the set given, without `name`; the flag says whether the entries
   * are strings (local, global) rather than git entries.
   */
  type Drop = (string, Json, bool) -> Json

  /**
   * What is known of the vendor tree `helpers::remove_package` leaves when it
   * succeeds: the package's directory and everything below it are gone, no
   * directory is added, and nothing outside `vendor` changes. Whether it also
   * removes parents left empty, `vendor` included, is up to the helper.
   */
  predicate PrunedWithin(before: set<Path>, path: Path, after: set<Path>) {
    && after <= before
    && path !in after
    && (forall q :: q in after ==> !IsBelow(path, q))
    && (forall q :: q in before && !IsBelow([VENDOR_DIR], q) ==> q in after)
  }

  /** Removing just the package's subtree is one helper the description allows. */
  function PruneSubtree(dirs: set<Path>, packageDir: string): (r: set<Path>)
    ensures PrunedWithin(dirs, VendorPath(packageDir), r)
  {
    var path := VendorPath(packageDir);
    VendorPathSegments(packageDir);
    assert forall q :: IsBelow(path, q) ==> IsBelow([VENDOR_DIR], q);
    RemoveDirAll(dirs, path)
  }

  /** Removing the whole vendor tree is another, the extreme of removing parents left empty. */
  function PruneVendor(dirs: set<Path>, packageDir: string): (r: set<Path>)
    ensures PrunedWithin(dirs, VendorPath(packageDir), r)
    ensures forall q :: q in r ==> !IsBelow([VENDOR_DIR], q)
  {
    var path := VendorPath(packageDir);
    VendorPathSegments(packageDir);
    assert forall q :: IsBelow(path, q) ==> IsBelow([VENDOR_DIR], q);
    set q | q in dirs && !IsBelow([VENDOR_DIR], q)
  }

  /**
   * `helpers::remove_package(name)`, whose code is not part of this model: the
   * vendor tree after a successful removal of the package `name`.
   */
  type Prune = f: (set<Path>, string) -> set<Path> | forall dirs, name :: PrunedWithin(dirs, VendorPath(name), f(dirs, name))
    witness PruneSubtree

  /** The manifest `remove` writes: the info block, and each set without the package. */
  function DroppedManifest(manifest: Json, packageDir: string, drop: Drop): (r: Json)
    ensures Get(r, INFO_KEY) == Get(manifest, INFO_KEY)
    ensures ManifestSet(r, GIT_KEY) == drop(packageDir, ManifestSet(manifest, GIT_KEY), false)
    ensures ManifestSet(r, LOCAL_KEY) == drop(packageDir, ManifestSet(manifest, LOCAL_KEY), true)
    ensures ManifestSet(r, GLOBAL_KEY) == drop(packageDir, ManifestSet(manifest, GLOBAL_KEY), true)
  {
    ManifestDoc(Get(manifest, INFO_KEY),
                drop(packageDir, ManifestSet(manifest, GIT_KEY), false),
                drop(packageDir, ManifestSet(manifest, LOCAL_KEY), true),
                drop(packageDir, ManifestSet(manifest, GLOBAL_KEY), true))
  }

  /** The lock record `remove` writes. */
  function DroppedLock(lock: Json, packageDir: string, drop: Drop): (r: Json)
    ensures Get(r, INFO_KEY) == Null
    ensures Get(r, GIT_KEY) == drop(packageDir, Get(lock, GIT_KEY), false)
    ensures Get(r, LOCAL_KEY) == drop(packageDir, Get(lock, LOCAL_KEY), true)
    ensures Get(r, GLOBAL_KEY) == drop(packageDir, Get(lock, GLOBAL_KEY), true)
  {
    LockDoc(drop(packageDir, Get(lock, GIT_KEY), false),
            drop(packageDir, Get(lock, LOCAL_KEY), true),
            drop(packageDir, Get(lock, GLOBAL_KEY), true))
  }

  /**
   * `remove`: both documents must be readable; the package leaves all six
   * sets; the manifest is written, then the lock record (a failure there
   * writes the manifest back); then the vendor directory, if there is one,
   * is deleted, and if that fails both documents are written back and the
   * process exits with status 1.
   */
  function RemoveRun(s: State, packageDir: string, drop: Drop, prune: Prune, io: Io): Run {
    if !s.manifest.Present? || !s.lock.Present? then Run(s, Fatal)
    else
      var manifest := s.manifest.value;
      var lock := s.lock.value;
      var newManifest := DroppedManifest(manifest, packageDir, drop);
      var newLock := DroppedLock(lock, packageDir, drop);
      var path := VendorPath(packageDir);
      if !io.manifestWriteOk then Run(s, Fatal)
      else if !io.lockWriteOk then
        Run(s.(manifest := Present(if io.revertManifestOk then manifest else newManifest)), Fatal)
      else if path in s.dirs && !io.removeOk then
        Run(s.(manifest := Present(if io.revertManifestOk then manifest else newManifest),
               lock := Present(if io.revertLockOk then lock else newLock)), Fatal)
      else
        Run(State(Present(newManifest), Present(newLock), if path in s.dirs then prune(s.dirs, packageDir) else s.dirs),
            Finished)
  }

  method Remove(store: Store, packageDir: string, drop: Drop, prune: Prune, io: Io) returns (exit: Exit)
    modifies store
    ensures Run(store.Snapshot(), exit) == RemoveRun(old(store.Snapshot()), packageDir, drop, prune, io)
  {
    if !store.manifest.Present? {
      return Fatal;
    }
    var jsonContent := store.manifest.value;
    if !store.lock.Present? {
      return Fatal;
    }
    var lockContent := store.lock.value;
    var newJsonGit := drop(packageDir, ManifestSet(jsonContent, GIT_KEY), false);
    var newLockGit := drop(packageDir, Get(lockContent, GIT_KEY), false);
    var newJsonLocal := drop(packageDir, ManifestSet(jsonContent, LOCAL_KEY), true);
    var newLockLocal := drop(packageDir, Get(lockContent, LOCAL_KEY), true);
    var newJsonGlobal := drop(packageDir, ManifestSet(jsonContent, GLOBAL_KEY), true);
    var newLockGlobal := drop(packageDir, Get(lockContent, GLOBAL_KEY), true);
    store.WriteManifest(ManifestDoc(Get(jsonContent, INFO_KEY), newJsonGit, newJsonLocal, newJsonGlobal),
                        io.manifestWriteOk);
    if !io.manifestWriteOk {
      return Fatal;
    }
    store.WriteLock(LockDoc(newLockGit, newLockLocal, newLockGlobal), io.lockWriteOk);
    if !io.lockWriteOk {
      store.WriteManifest(jsonContent, io.revertManifestOk);
      return Fatal;
    }
    var pkgPath := PathFromUrl(packageDir);
    if pkgPath in store.vendorDirs {
      if io.removeOk {
        store.Vendored(prune(store.vendorDirs, packageDir));
      } else {
        store.WriteManifest(jsonContent, io.revertManifestOk);
        store.WriteLock(lockContent, io.revertLockOk);
        return Fatal;
      }
    }
    return Finished;
  }

  /**
   * A `remove` that ends normally has dropped the package from all six sets,
   * kept the info block, and deleted its vendor directory and everything
   * below it; the vendor tree gains nothing, keeps everything outside
   * `vendor`, and is untouched when the package had no directory.
   */
  lemma RemoveCompleted(s: State, packageDir: string, drop: Drop, prune: Prune, io: Io)
    requires RemoveRun(s, packageDir, drop, prune, io).exit == Finished
    ensures var r := RemoveRun(s, packageDir, drop, prune, io).state;
            && s.manifest.Present? && s.lock.Present? && r.manifest.Present? && r.lock.Present?
            && Get(r.manifest.value, INFO_KEY) == Get(s.manifest.value, INFO_KEY)
            && ManifestSet(r.manifest.value, GIT_KEY) == drop(packageDir, ManifestSet(s.manifest.value, GIT_KEY), false)
            && ManifestSet(r.manifest.value, LOCAL_KEY) == drop(packageDir, ManifestSet(s.manifest.value, LOCAL_KEY), true)
            && ManifestSet(r.manifest.value, GLOBAL_KEY) == drop(packageDir, ManifestSet(s.manifest.value, GLOBAL_KEY), true)
            && Get(r.lock.value, GIT_KEY) == drop(packageDir, Get(s.lock.value, GIT_KEY), false)
            && Get(r.lock.value, LOCAL_KEY) == drop(packageDir, Get(s.lock.value, LOCAL_KEY), true)
            && Get(r.lock.value, GLOBAL_KEY) == drop(packageDir, Get(s.lock.value, GLOBAL_KEY), true)
            && VendorPath(packageDir) !in r.dirs && r.dirs <= s.dirs
            && (forall q :: q in s.dirs && !IsBelow([VENDOR_DIR], q) ==> q in r.dirs)
            && (VendorPath(packageDir) !in s.dirs ==> r.dirs == s.dirs)
            && (VendorPath(packageDir) in s.dirs || PrefixClosed(s.dirs) ==>
                  forall q :: q in r.dirs ==> !IsBelow(VendorPath(packageDir), q))
  {
    var path := VendorPath(packageDir);
    if path !in s.dirs && PrefixClosed(s.dirs) {
      PrefixClosedAbsent(s.dirs, path);
    }
  }

  /**
   * The model allows what the source's own test of `remove` observes: once the
   * only package is removed, `vendor` itself can be gone.
   */
  lemma RemoveMayEmptyVendor(s: State, packageDir: string, drop: Drop, io: Io)
    requires s.manifest.Present? && s.lock.Present? && VendorPath(packageDir) in s.dirs
    requires io.manifestWriteOk && io.lockWriteOk && io.removeOk
    ensures var r := RemoveRun(s, packageDir, drop, PruneVendor, io);
            r.exit == Finished && [VENDOR_DIR] !in r.state.dirs
  {
    var r := RemoveRun(s, packageDir, drop, PruneVendor, io);
    assert r.state.dirs == PruneVendor(s.dirs, packageDir);
    assert IsBelow([VENDOR_DIR], [VENDOR_DIR]);
  }

  /**
   * A `remove` that fails leaves the vendor tree alone and, when its
   * compensating writes succeed, both documents as they were.
   */
  lemma RemoveFailureRestores(s: State, packageDir: string, drop: Drop, prune: Prune, io: Io)
    requires RemoveRun(s, packageDir, drop, prune, io).exit == Fatal
    requires io.revertManifestOk && io.revertLockOk
    ensures RemoveRun(s, packageDir, drop, prune, io).state == s
  {
  }

  // update

  /**
   * The outside world of one `update`: `go get`, semantic versions, the
   * vendor-side `modify_golang_org`, what git does for a single package
   * (`syncEnv`) and for each package of a full update (`envs`, with the order
   * in which the worker threads report back), whether each local directory can
   * be created, and `helpers::remove_diff_packages` (old lock record, new lock
   * record, vendor tree before, vendor tree after), whose code is not part of
   * this model.
   */
  datatype UpdateWorld = UpdateWorld(
    goGet: (string, bool) -> bool,
    sem: Semver,
    rewrite: string -> string,
    syncEnv: SyncEnv,
    createOk: string -> bool,
    envs: seq<SyncEnv>,
    order: seq<nat>,
    removeDiff: (Json, Json, set<Path>) -> set<Path>)

  /** The per-package git outcomes of a full update fit the manifest's git set. */
  predicate FitsManifest(s: State, w: UpdateWorld) {
    s.manifest.Present? ==>
      var git := ManifestSet(s.manifest.value, GIT_KEY);
      |w.envs| == Len(git) && IsArrivalOrder(w.order, Len(git))
  }

  /**
   * `update` of one package: a declared git package is brought up to date and
   * moved, as sent back, to the end of the lock's git set; otherwise a
   * declared global package is reinstalled with `go get -u` and moved to the
   * end of the lock's global set; anything else is fatal. The lock's other
   * sets come from the manifest, the manifest is not written, and a failed
   * lock write is only reported.
   */
  function UpdateOneRun(s: State, manifest: Json, url: string, shouldClean: bool, w: UpdateWorld, io: Io): Run {
    var git := ManifestSet(manifest, GIT_KEY);
    var local := ManifestSet(manifest, LOCAL_KEY);
    var globals := ManifestSet(manifest, GLOBAL_KEY);
    match FirstDeclared(git, url, true)
    case Some(i) =>
      var o := Sync(git.items[i], shouldClean, false, s.dirs, w.sem, w.rewrite, w.syncEnv);
      var lock := LockDoc(Push(RemoveAt(git, i), o.sent), local, globals);
      Run(s.(dirs := o.dirs, lock := if io.lockWriteOk then Present(lock) else s.lock), Finished)
    case None => UpdateGlobalRun(s, manifest, url, w, io)
  }

  /** `update` of a package that is not a declared git package: it must be a declared global one. */
  function UpdateGlobalRun(s: State, manifest: Json, url: string, w: UpdateWorld, io: Io): Run {
    var globals := ManifestSet(manifest, GLOBAL_KEY);
    if globals.Null? then Run(s, Fatal)
    else
      match FirstDeclared(globals, url, false)
      case None => Run(s, Fatal)
      case Some(i) =>
        if !w.goGet(url, true) then Run(s, Fatal)
        else
          var lock := LockDoc(ManifestSet(manifest, GIT_KEY), ManifestSet(manifest, LOCAL_KEY),
                              Push(RemoveAt(globals, i), Str(url)));
          Run(s.(lock := if io.lockWriteOk then Present(lock) else s.lock), Finished)
  }

  /**
   * `update` of every package: the local, global and git sets of the manifest
   * are installed again, the directories of packages that left the lock are
   * removed (`remove_diff_packages`), and the lock record becomes what was
   * installed. The local and git installs, concurrent in the program, run one
   * after the other here.
   */
  function UpdateAllRun(s: State, manifest: Json, shouldClean: bool, w: UpdateWorld, io: Io): Run
    requires |w.envs| == Len(ManifestSet(manifest, GIT_KEY))
    requires IsArrivalOrder(w.order, Len(ManifestSet(manifest, GIT_KEY)))
  {
    var oldLock := ReadOr(s.lock, EmptyObject());
    var localItems := Items(ManifestSet(manifest, LOCAL_KEY));
    var installLocal := InstallLocal(localItems, s.dirs, w.createOk);
    var local := Arr(installLocal.installed);
    var localDirs := installLocal.dirs;
    var globals := Arr(Kept(Items(ManifestSet(manifest, GLOBAL_KEY)), p => w.goGet(p, true)));
    var runs := RunAll(Items(ManifestSet(manifest, GIT_KEY)), w.order, shouldClean, false, localDirs,
                       w.sem, w.rewrite, w.envs);
    var lock := LockDoc(Arr(Reported(runs.sents)), local, globals);
    Run(s.(dirs := w.removeDiff(oldLock, lock, runs.dirs), lock := if io.lockWriteOk then Present(lock) else s.lock),
        Finished)
  }

  /** `update`: the manifest must be readable; one package when one is named, every package otherwise. */
  function UpdateRun(s: State, packageUrl: Option<string>, shouldClean: bool, w: UpdateWorld, io: Io): Run
    requires packageUrl.None? ==> FitsManifest(s, w)
  {
    if !s.manifest.Present? then Run(s, Fatal)
    else if packageUrl.Some? then UpdateOneRun(s, s.manifest.value, packageUrl.value, shouldClean, w, io)
    else UpdateAllRun(s, s.manifest.value, shouldClean, w, io)
  }

  method Update(store: Store, packageUrl: Option<string>, shouldClean: bool, w: UpdateWorld, io: Io)
    returns (exit: Exit)
    requires packageUrl.None? ==> FitsManifest(store.Snapshot(), w)
    modifies store
    ensures Run(store.Snapshot(), exit) == UpdateRun(old(store.Snapshot()), packageUrl, shouldClean, w, io)
  {
    if !store.manifest.Present? {
      return Fatal;
    }
    var jsonContent := store.manifest.value;
    if packageUrl.Some? {
      exit := UpdateOne(store, jsonContent, packageUrl.value, shouldClean, w, io);
    } else {
      exit := UpdateAll(store, jsonContent, shouldClean, w, io);
    }
  }

  method UpdateOne(store: Store, jsonContent: Json, url: string, shouldClean: bool, w: UpdateWorld, io: Io)
    returns (exit: Exit)
    modifies store
    ensures Run(store.Snapshot(), exit) == UpdateOneRun(old(store.Snapshot()), jsonContent, url, shouldClean, w, io)
  {
    var gitPkgs := ManifestSet(jsonContent, GIT_KEY);
    var pkg: Option<Json> := None;
    if !gitPkgs.Null? {
      var found := FindEntry(gitPkgs, url, true);
      if found.Some? {
        pkg := Some(gitPkgs.items[found.value]);
        gitPkgs := RemoveAt(gitPkgs, found.value);
      }
    }
    if pkg.None? {
      exit := UpdateGlobal(store, jsonContent, url, w, io);
      return;
    }
    var sent, newDirs := UpdatePackage(pkg.value, shouldClean, false, store.vendorDirs, w.sem, w.rewrite, w.syncEnv);
    store.Vendored(newDirs);
    gitPkgs := Push(gitPkgs, sent);
    store.WriteLock(LockDoc(gitPkgs, ManifestSet(jsonContent, LOCAL_KEY), ManifestSet(jsonContent, GLOBAL_KEY)),
                    io.lockWriteOk);
    return Finished;
  }

  method UpdateGlobal(store: Store, jsonContent: Json, url: string, w: UpdateWorld, io: Io) returns (exit: Exit)
    modifies store
    ensures Run(store.Snapshot(), exit) == UpdateGlobalRun(old(store.Snapshot()), jsonContent, url, w, io)
  {
    var globalPkgs := ManifestSet(jsonContent, GLOBAL_KEY);
    if globalPkgs.Null? {
      return Fatal;
    }
    var found := FindEntry(globalPkgs, url, false);
    if found.None? {
      return Fatal;
    }
    var gPkg := globalPkgs.items[found.value].s;
    globalPkgs := RemoveAt(globalPkgs, found.value);
    if !w.goGet(gPkg, true) {
      return Fatal;
    }
    globalPkgs := Push(globalPkgs, Str(gPkg));
    store.WriteLock(LockDoc(ManifestSet(jsonContent, GIT_KEY), ManifestSet(jsonContent, LOCAL_KEY), globalPkgs),
                    io.lockWriteOk);
    return Finished;
  }

  method UpdateAll(store: Store, jsonContent: Json, shouldClean: bool, w: UpdateWorld, io: Io) returns (exit: Exit)
    requires |w.envs| == Len(ManifestSet(jsonContent, GIT_KEY))
    requires IsArrivalOrder(w.order, Len(ManifestSet(jsonContent, GIT_KEY)))
    modifies store
    ensures Run(store.Snapshot(), exit) == UpdateAllRun(old(store.Snapshot()), jsonContent, shouldClean, w, io)
  {
    var oldLock := ReadOr(store.lock, EmptyObject());
    var localPackages, localDirs := InstallLocalPackages(ManifestSet(jsonContent, LOCAL_KEY), store.vendorDirs, w.createOk);
    var globalPackages := InstallGlobalPackages(ManifestSet(jsonContent, GLOBAL_KEY), true, w.goGet);
    var gitPackages, gitDirs := InstallGitPackages(ManifestSet(jsonContent, GIT_KEY), shouldClean, false, localDirs,
                                                   w.sem, w.rewrite, w.envs, w.order);
    var newLock := LockDoc(gitPackages, localPackages, globalPackages);
    store.Vendored(w.removeDiff(oldLock, newLock, gitDirs));
    store.WriteLock(newLock, io.lockWriteOk);
    return Finished;
  }

  /**
   * `update` of a declared git package ends normally and writes only the
   * lock record: its git set is the manifest's without the first entry for the
   * package, followed by that entry as sent back, which differs from it at
   * most in `version`; its other sets are the manifest's.
   */
  lemma UpdateGitPackage(s: State, url: string, shouldClean: bool, w: UpdateWorld, io: Io)
    requires s.manifest.Present?
    requires Declared(ManifestSet(s.manifest.value, GIT_KEY), url, true)
    ensures var r := UpdateRun(s, Some(url), shouldClean, w, io);
            var m := s.manifest.value;
            var git := ManifestSet(m, GIT_KEY);
            var i := FirstDeclared(git, url, true).value;
            && r.exit == Finished && r.state.manifest == s.manifest
            && (io.lockWriteOk ==>
                  && r.state.lock.Present?
                  && var lockGit := Get(r.state.lock.value, GIT_KEY);
                     && lockGit.Arr? && |lockGit.items| == |git.items|
                     && lockGit.items[..|git.items| - 1] == git.items[..i] + git.items[i + 1..]
                     && SameButVersion(lockGit.items[|git.items| - 1], git.items[i])
                     && Get(r.state.lock.value, LOCAL_KEY) == ManifestSet(m, LOCAL_KEY)
                     && Get(r.state.lock.value, GLOBAL_KEY) == ManifestSet(m, GLOBAL_KEY))
            && (!io.lockWriteOk ==> r.state.lock == s.lock)
  {
    var m := s.manifest.value;
    var git := ManifestSet(m, GIT_KEY);
    var i := FirstDeclared(git, url, true).value;
    SyncSent(git.items[i], shouldClean, false, s.dirs, w.sem, w.rewrite, w.syncEnv);
    var o := Sync(git.items[i], shouldClean, false, s.dirs, w.sem, w.rewrite, w.syncEnv);
    var rest := RemoveAt(git, i);
    assert Push(rest, o.sent).items == rest.items + [o.sent];
    assert (rest.items + [o.sent])[..|git.items| - 1] == rest.items;
  }

  /**
   * `update` of a package that is not a declared git package ends normally
   * exactly when the manifest's global set declares it and `go get -u`
   * succeeds; then the lock's global set is the manifest's with that entry
   * moved to the end, and its other sets are the manifest's. A failure changes
   * nothing, and the manifest and the vendor tree are never touched.
   */
  lemma UpdateGlobalPackage(s: State, url: string, shouldClean: bool, w: UpdateWorld, io: Io)
    requires s.manifest.Present?
    requires !Declared(ManifestSet(s.manifest.value, GIT_KEY), url, true)
    ensures var r := UpdateRun(s, Some(url), shouldClean, w, io);
            var m := s.manifest.value;
            var globals := ManifestSet(m, GLOBAL_KEY);
            && (r.exit == Finished <==> Declared(globals, url, false) && w.goGet(url, true))
            && r.state.manifest == s.manifest && r.state.dirs == s.dirs
            && (r.exit == Fatal ==> r.state == s)
            && (r.exit == Finished && io.lockWriteOk ==>
                  && r.state.lock.Present?
                  && var i := FirstDeclared(globals, url, false).value;
                     var lockGlobals := Get(r.state.lock.value, GLOBAL_KEY);
                     && lockGlobals.Arr?
                     && lockGlobals.items == globals.items[..i] + globals.items[i + 1..] + [globals.items[i]]
                     && globals.items[i] == Str(url)
                     && Get(r.state.lock.value, GIT_KEY) == ManifestSet(m, GIT_KEY)
                     && Get(r.state.lock.value, LOCAL_KEY) == ManifestSet(m, LOCAL_KEY))
  {
    var m := s.manifest.value;
    var globals := ManifestSet(m, GLOBAL_KEY);
    if Declared(globals, url, false) {
      var i := FirstDeclared(globals, url, false).value;
      assert globals.items[i] == Str(url);
    }
  }

  /**
   * `update` of every package ends normally, leaves the manifest alone and,
   * when the lock write succeeds, records: only string entries of the local
   * set, among them each one whose directory existed or could be created (one
   * created as the parent of an earlier entry's directory is recorded too), each global entry `go get -u`
   * installed, and, for each git entry with a string `import`, that entry as
   * sent back, which differs from it at most in `version`; and nothing else.
   */
  lemma UpdateAllReinstalls(s: State, shouldClean: bool, w: UpdateWorld, io: Io)
    requires s.manifest.Present? && FitsManifest(s, w)
    ensures var r := UpdateRun(s, None, shouldClean, w, io);
            var m := s.manifest.value;
            var git := Items(ManifestSet(m, GIT_KEY));
            && r.exit == Finished && r.state.manifest == s.manifest
            && (!io.lockWriteOk ==> r.state.lock == s.lock)
            && (io.lockWriteOk ==>
                  && r.state.lock.Present?
                  && var lock := r.state.lock.value;
                     && (forall x :: x in Items(Get(lock, LOCAL_KEY)) ==> x in Items(ManifestSet(m, LOCAL_KEY)) && x.Str?)
                     && (forall x :: x in Items(ManifestSet(m, LOCAL_KEY)) && x.Str? &&
                                     (VendorPath(x.s) in s.dirs || w.createOk(x.s))
                                     ==> x in Items(Get(lock, LOCAL_KEY)))
                     && (forall x :: x in Items(Get(lock, GLOBAL_KEY)) <==>
                           x in Items(ManifestSet(m, GLOBAL_KEY)) && x.Str? && w.goGet(x.s, true))
                     && (forall i :: 0 <= i < |git| && AsStr(Get(git[i], IMPORT_KEY)).Some? ==>
                           exists p :: p in Items(Get(lock, GIT_KEY)) && SameButVersion(p, git[i]))
                     && (forall p :: p in Items(Get(lock, GIT_KEY)) ==>
                           exists i :: 0 <= i < |git| && SameButVersion(p, git[i])))
  {
    var m := s.manifest.value;
    var localDirs := InstallLocal(Items(ManifestSet(m, LOCAL_KEY)), s.dirs, w.createOk).dirs;
    InstallLocalBounds(Items(ManifestSet(m, LOCAL_KEY)), s.dirs, w.createOk);
    KeptMembers(Items(ManifestSet(m, GLOBAL_KEY)), p => w.goGet(p, true));
    GitPackagesReported(ManifestSet(m, GIT_KEY), shouldClean, localDirs, w.sem, w.rewrite, w.envs, w.order);
  }
}
