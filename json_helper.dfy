/**
 * The two documents, `rubigo.json` (the manifest) and `rubigo.lock` (the lock
 * record), as stored on disk, the keys the core reads them with, and the
 * default manifest that `json_helper::write` produces when given no data.
 */
module JsonHelper {
  import opened Wrappers
  import opened Json

  const INFO_KEY: string := "info"
  const NAME_KEY: string := "name"
  const PACKAGES_KEY: string := "packages"
  const GIT_KEY: string := "git"
  const LOCAL_KEY: string := "local"
  const GLOBAL_KEY: string := "global"
  const IMPORT_KEY: string := "import"
  const REPO_KEY: string := "repo"
  const VERSION_KEY: string := "version"
  const UPDATE_KEY: string := "update"

  const MANIFEST_FILE: string := "rubigo.json"
  const LOCK_FILE: string := "rubigo.lock"

  /** A document file: missing, present but unreadable, or present with a value. */
  datatype Doc = Absent | Corrupt | Present(value: Json) {
    predicate Exists() { !Absent? }
  }

  /** `json_helper::read(..).unwrap_or(default)`. */
  function ReadOr(d: Doc, default: Json): (r: Json)
    ensures d.Present? ==> r == d.value
    ensures !d.Present? ==> r == default
  {
    if d.Present? then d.value else default
  }

  function EmptyObject(): Json {
    Obj(map[])
  }

  /** The three package sets of a `packages` object (or of a lock record). */
  function PackagesObject(git: Json, local: Json, global: Json): (r: Json)
    ensures Get(r, GIT_KEY) == git && Get(r, LOCAL_KEY) == local && Get(r, GLOBAL_KEY) == global
  {
    Obj(map[GIT_KEY := git, LOCAL_KEY := local, GLOBAL_KEY := global])
  }

  /** A manifest: the project-info block and the packages object. */
  function ManifestDoc(info: Json, git: Json, local: Json, global: Json): (r: Json)
    ensures Get(r, INFO_KEY) == info
    ensures ManifestSet(r, GIT_KEY) == git && ManifestSet(r, LOCAL_KEY) == local
    ensures ManifestSet(r, GLOBAL_KEY) == global
  {
    Obj(map[INFO_KEY := info, PACKAGES_KEY := PackagesObject(git, local, global)])
  }

  /** A lock record holds the three sets directly, with no info block. */
  function LockDoc(git: Json, local: Json, global: Json): (r: Json)
    ensures Get(r, GIT_KEY) == git && Get(r, LOCAL_KEY) == local && Get(r, GLOBAL_KEY) == global
    ensures Get(r, INFO_KEY) == Null
  {
    PackagesObject(git, local, global)
  }

  /** `manifest[PACKAGES_KEY][key]`. */
  function ManifestSet(m: Json, key: string): Json {
    Get(Get(m, PACKAGES_KEY), key)
  }

  /** What `json_helper::write(path, name, None)` writes (json_helper.rs, lines 11-20). */
  function DefaultManifest(projectName: string): (r: Json)
    ensures Get(Get(r, INFO_KEY), NAME_KEY) == Str(projectName)
    ensures ManifestSet(r, GIT_KEY) == Arr([]) && ManifestSet(r, LOCAL_KEY) == Arr([])
    ensures ManifestSet(r, GLOBAL_KEY) == Arr([])
  {
    ManifestDoc(Obj(map[NAME_KEY := Str(projectName)]), Arr([]), Arr([]), Arr([]))
  }
}
