/**
 * The package record of `model/package.rs` and its JSON encoding: an import
 * path, an optional update policy and an optional version.
 */
module PackageModel {
  import opened Wrappers
  import opened Json
  import opened JsonHelper

  /** How far `update` may move a package. */
  datatype PackageUpdate = Fixed | Minor | Patch | Latest

  /** The policy's name in the JSON documents. */
  function UpdateName(u: PackageUpdate): string {
    match u
    case Fixed => "fixed"
    case Minor => "minor"
    case Patch => "patch"
    case Latest => "latest"
  }

  /** Reads a policy name back. */
  function ParseUpdate(s: string): (r: Option<PackageUpdate>)
    ensures r.Some? ==> UpdateName(r.value) == s
  {
    if s == "fixed" then Some(Fixed)
    else if s == "minor" then Some(Minor)
    else if s == "patch" then Some(Patch)
    else if s == "latest" then Some(Latest)
    else None
  }

  /** Every policy name reads back as the same policy, so the four names are distinct. */
  lemma UpdateNameRoundTrip(u: PackageUpdate)
    ensures ParseUpdate(UpdateName(u)) == Some(u)
  {
  }

  lemma UpdateNameInjective(a: PackageUpdate, b: PackageUpdate)
    ensures UpdateName(a) == UpdateName(b) <==> a == b
  {
    UpdateNameRoundTrip(a);
    UpdateNameRoundTrip(b);
  }

  datatype Package = Package(importPath: string, update: Option<PackageUpdate>, version: Option<string>)

  /**
   * `Package::to_json`: without a version only `import` is written; with one,
   * `import`, `update` (`fixed` when no policy is set) and `version`.
   */
  function ToJson(p: Package): (r: Json)
    ensures r.Obj? && Get(r, IMPORT_KEY) == Str(p.importPath)
    ensures p.version.None? ==> r.fields.Keys == {IMPORT_KEY}
    ensures p.version.Some? ==>
              && r.fields.Keys == {IMPORT_KEY, UPDATE_KEY, VERSION_KEY}
              && Get(r, VERSION_KEY) == Str(p.version.value)
              && Get(r, UPDATE_KEY) == Str(UpdateName(p.update.GetOr(Fixed)))
  {
    match p.version
    case Some(ver) =>
      Obj(map[IMPORT_KEY := Str(p.importPath),
              UPDATE_KEY := Str(UpdateName(p.update.GetOr(Fixed))),
              VERSION_KEY := Str(ver)])
    case None => Obj(map[IMPORT_KEY := Str(p.importPath)])
  }

  /** Reads a package entry: `import` is required, `update` and `version` are read when `version` is there. */
  function FromJson(j: Json): Option<Package> {
    match AsStr(Get(j, IMPORT_KEY))
    case None => None
    case Some(importPath) =>
      if !j.Obj? || VERSION_KEY !in j.fields then Some(Package(importPath, None, None))
      else
        match (AsStr(Get(j, VERSION_KEY)), AsStr(Get(j, UPDATE_KEY)))
        case (Some(ver), Some(name)) =>
          (match ParseUpdate(name)
           case Some(u) => Some(Package(importPath, Some(u), Some(ver)))
           case None => None)
        case _ => None
  }

  /** What the encoding keeps: an update policy is written only next to a version, and then always. */
  function Encoded(p: Package): Package {
    if p.version.Some? then p.(update := Some(p.update.GetOr(Fixed))) else p.(update := None)
  }

  /** Decoding an encoded package gives it back, up to the policy the encoding drops or defaults. */
  lemma {:induction false} FromToJson(p: Package)
    ensures FromJson(ToJson(p)) == Some(Encoded(p))
  {
    if p.version.Some? {
      UpdateNameRoundTrip(p.update.GetOr(Fixed));
    }
  }

  /** A package that already carries a policy with its version is encoded without loss. */
  lemma EncodedComplete(p: Package)
    requires p.version.Some? <==> p.update.Some?
    ensures FromJson(ToJson(p)) == Some(p)
  {
    FromToJson(p);
  }
}
