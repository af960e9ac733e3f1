/**
 * The vendor-tree operations: installing local and global packages, bringing
 * one git package to its resolved revision, collecting the results of a batch,
 * and reading a package back from a checkout.
 *
 * The vendor tree is a set of directory paths; git2, `go get` and directory
 * creation and removal are oracles. Results that arrive over a channel are
 * taken in a given arrival order.
 */
module Vendor {
  import opened Wrappers
  import opened Text
  import opened Json
  import opened JsonHelper
  import opened Fs
  import opened GitHelper
  import opened Helpers

  /** The string entries of `items` that `keep` accepts, in order; everything else is skipped. */
  function Kept(items: seq<Json>, keep: string -> bool): (r: seq<Json>)
    ensures |r| <= |items|
    decreases |items|
  {
    if items == [] then []
    else
      var last := items[|items| - 1];
      Kept(items[..|items| - 1], keep) + (if last.Str? && keep(last.s) then [last] else [])
  }

  /** An entry is kept exactly when it occurs in `items`, is a string and `keep` accepts it. */
  lemma {:induction false} KeptMembers(items: seq<Json>, keep: string -> bool)
    ensures forall x :: x in Kept(items, keep) <==> x in items && x.Str? && keep(x.s)
    decreases |items|
  {
    if items != [] {
      var last := items[|items| - 1];
      KeptMembers(items[..|items| - 1], keep);
      assert items == items[..|items| - 1] + [last];
    }
  }

  lemma KeptSnoc(items: seq<Json>, keep: string -> bool, i: nat)
    requires i < |items|
    ensures Kept(items[..i + 1], keep) ==
            Kept(items[..i], keep) + (if items[i].Str? && keep(items[i].s) then [items[i]] else [])
  {
    assert items[..i + 1][..i] == items[..i];
  }

  /**
   * Distinct imports whose segments all add a directory level have distinct
   * vendor paths. Imports with empty or `.` segments need not: `a/b`, `a//b`
   * and `a/./b` name one directory.
   */
  lemma VendorPathInjective(a: string, b: string)
    requires forall seg :: seg in Split(a, '/') ==> IsStep(seg)
    requires forall seg :: seg in Split(b, '/') ==> IsStep(seg)
    requires VendorPath(a) == VendorPath(b)
    ensures a == b
  {
    VendorPathSegments(a);
    VendorPathSegments(b);
  }

  lemma DirSegmentsSkipsMiddle(x: string, m: string, y: string)
    requires IsStep(x) && !IsStep(m) && IsStep(y)
    ensures DirSegments([x, m, y]) == [x, y]
  {
    var segments := [x, m, y];
    DirSegmentsSnoc(segments, 0);
    DirSegmentsSnoc(segments, 1);
    DirSegmentsSnoc(segments, 2);
    assert segments[..0] == [] && segments[..3] == segments;
  }

  /** A one-segment import names one level below the vendor root. */
  lemma VendorPathOne(x: string)
    requires IsStep(x) && '/' !in x
    ensures VendorPath(x) == [VENDOR_DIR, x]
  {
    SplitNoSep(x, '/');
    DirSegmentsSnoc([x], 0);
    assert [x][..1] == [x];
  }

  /** A two-segment import names two levels below the vendor root. */
  lemma VendorPathTwo(x: string, y: string)
    requires IsStep(x) && IsStep(y) && '/' !in x && '/' !in y
    ensures VendorPath(x + "/" + y) == [VENDOR_DIR, x, y]
  {
    SplitNoSep(x, '/');
    SplitNoSep(y, '/');
    var segments := [x, y];
    assert Split(x + "/" + y, '/') == segments by {
      SplitConcat(x, y, '/');
      assert x + "/" + y == x + ['/'] + y;
    }
    DirSegmentsSnoc(segments, 0);
    DirSegmentsSnoc(segments, 1);
    assert segments[..0] == [] && segments[..1] == [x] && segments[..2] == segments;
  }

  /**
   * The vendor path ignores an empty or `.` segment: `x//y`, `x/./y` and `x/y`
   * name one directory.
   */
  lemma VendorPathIgnoresEmptySegments(x: string, m: string, y: string)
    requires IsStep(x) && IsStep(y) && !IsStep(m)
    requires '/' !in x && '/' !in y
    ensures VendorPath(x + "/" + m + "/" + y) == VendorPath(x + "/" + y) == [VENDOR_DIR, x, y]
  {
    VendorPathTwo(x, y);
    assert '/' !in m;
    SplitThree(x, m, y, '/');
    DirSegmentsSkipsMiddle(x, m, y);
  }

  /** The recorded local entries and the vendor tree after installing the local set. */
  datatype LocalInstall = LocalInstall(installed: seq<Json>, dirs: set<Path>)

  /**
   * What `install_local_packages` does with `items`, entry by entry: a string
   * entry whose directory exists at that point (it may have been created as a
   * parent by an earlier entry) is recorded; otherwise its directory and the
   * missing ones above it are created and it is recorded when `createOk` allows;
   * other entries are skipped.
   */
  function InstallLocal(items: seq<Json>, dirs: set<Path>, createOk: string -> bool): (r: LocalInstall)
    ensures dirs <= r.dirs
    ensures |r.installed| <= |items|
    decreases |items|
  {
    if items == [] then LocalInstall([], dirs)
    else
      var last := items[|items| - 1];
      var before := InstallLocal(items[..|items| - 1], dirs, createOk);
      if !last.Str? then before
      else if VendorPath(last.s) in before.dirs then LocalInstall(before.installed + [last], before.dirs)
      else if createOk(last.s) then
        LocalInstall(before.installed + [last], CreateDirAll(before.dirs, VendorPath(last.s)))
      else before
  }

  /**
   * Installing the local set only adds directories on the way to the vendor
   * paths of entries whose creation `createOk` allows; it records only listed
   * string entries whose directory is then there, and it records every one
   * whose directory existed or could be created.
   */
  lemma {:induction false} InstallLocalBounds(items: seq<Json>, dirs: set<Path>, createOk: string -> bool)
    ensures var r := InstallLocal(items, dirs, createOk);
            && (forall q :: q in r.dirs ==>
                  q in dirs || exists x :: x in items && x.Str? && createOk(x.s) && q != [] && IsBelow(q, VendorPath(x.s)))
            && (forall x :: x in r.installed ==> x in items && x.Str? && VendorPath(x.s) in r.dirs)
            && (forall x :: x in items && x.Str? && (VendorPath(x.s) in dirs || createOk(x.s)) ==> x in r.installed)
    decreases |items|
  {
    if items != [] {
      var init := items[..|items| - 1];
      var last := items[|items| - 1];
      InstallLocalBounds(init, dirs, createOk);
      assert items == init + [last];
    }
  }

  lemma InstallLocalSnoc(items: seq<Json>, dirs: set<Path>, createOk: string -> bool, i: nat)
    requires i < |items|
    ensures var before := InstallLocal(items[..i], dirs, createOk);
            InstallLocal(items[..i + 1], dirs, createOk) ==
              if !items[i].Str? then before
              else if VendorPath(items[i].s) in before.dirs then LocalInstall(before.installed + [items[i]], before.dirs)
              else if createOk(items[i].s) then
                LocalInstall(before.installed + [items[i]], CreateDirAll(before.dirs, VendorPath(items[i].s)))
              else before
  {
    assert items[..i + 1][..i] == items[..i];
  }

  /**
   * An entry listed after one below it is recorded whatever `createOk` says of
   * it: creating `vendor/a/b` has created `vendor/a`.
   */
  lemma InstallLocalParentCreated(dirs: set<Path>, createOk: string -> bool, parent: string, child: string)
    requires IsBelow(VendorPath(parent), VendorPath(child))
    requires VendorPath(child) !in dirs && createOk(child)
    ensures InstallLocal([Str(child), Str(parent)], dirs, createOk).installed == [Str(child), Str(parent)]
  {
    var first := InstallLocal([Str(child)], dirs, createOk);
    assert first == LocalInstall([Str(child)], CreateDirAll(dirs, VendorPath(child))) by {
      assert [Str(child)][..0] == [];
      assert InstallLocal([], dirs, createOk) == LocalInstall([], dirs);
    }
    assert VendorPath(parent) in first.dirs by {
      assert |VendorPath(parent)| >= 1;
      assert VendorPath(parent) in Prefixes(VendorPath(child));
    }
    assert [Str(child), Str(parent)][..1] == [Str(child)];
  }

  /** Listed first, an entry whose directory is missing and cannot be created is skipped. */
  lemma InstallLocalParentFirst(dirs: set<Path>, createOk: string -> bool, parent: string, child: string)
    requires VendorPath(parent) !in dirs && !createOk(parent)
    ensures InstallLocal([Str(parent), Str(child)], dirs, createOk).installed ==
            if VendorPath(child) in dirs || createOk(child) then [Str(child)] else []
  {
    assert InstallLocal([Str(parent)], dirs, createOk) == LocalInstall([], dirs) by {
      assert [Str(parent)][..0] == [];
    }
    assert [Str(parent), Str(child)][..1] == [Str(parent)];
  }

  /** `a` is kept after `a/b` when only `a/b` can be created, and skipped before it. */
  lemma InstallLocalOrderMatters()
    ensures InstallLocal([Str("a/b"), Str("a")], {}, s => s == "a/b").installed == [Str("a/b"), Str("a")]
    ensures InstallLocal([Str("a"), Str("a/b")], {}, s => s == "a/b").installed == [Str("a/b")]
  {
    VendorPathOne("a");
    VendorPathTwo("a", "b");
    assert "a/b" == "a" + "/" + "b";
    assert IsBelow([VENDOR_DIR, "a"], [VENDOR_DIR, "a", "b"]);
    InstallLocalParentCreated({}, s => s == "a/b", "a", "a/b");
    InstallLocalParentFirst({}, s => s == "a/b", "a", "a/b");
  }

  /**
   * `install_local_packages`: each string entry whose vendor directory exists,
   * or can be created (`createOk`), is installed; the others are skipped.
   */
  method InstallLocalPackages(localPackages: Json, dirs: set<Path>, createOk: string -> bool)
    returns (installed: Json, newDirs: set<Path>)
    ensures var r := InstallLocal(Items(localPackages), dirs, createOk);
            installed == Arr(r.installed) && newDirs == r.dirs
  {
    var items := Items(localPackages);
    var result: seq<Json> := [];
    newDirs := dirs;
    for i := 0 to Len(localPackages)
      invariant LocalInstall(result, newDirs) == InstallLocal(items[..i], dirs, createOk)
    {
      InstallLocalSnoc(items, dirs, createOk, i);
      var entry := At(localPackages, i);
      assert entry == items[i];
      if !entry.Str? {
        continue;
      }
      var localPkg := entry.s;
      var dirPath := VendorPath(localPkg);
      if dirPath !in newDirs {
        if createOk(localPkg) {
          newDirs := CreateDirAll(newDirs, dirPath);
          result := result + [entry];
        }
      } else {
        result := result + [entry];
      }
    }
    assert items[..Len(localPackages)] == items;
    installed := Arr(result);
  }

  /**
   * `install_global_packages`: each string entry is handed to `go get` (with the
   * update flag); exactly the ones it installs are kept, in order.
   */
  method InstallGlobalPackages(globalPackages: Json, shouldUpdate: bool, goGet: (string, bool) -> bool)
    returns (installed: Json)
    ensures installed == Arr(Kept(Items(globalPackages), s => goGet(s, shouldUpdate)))
  {
    var items := Items(globalPackages);
    var result: seq<Json> := [];
    for i := 0 to Len(globalPackages)
      invariant result == Kept(items[..i], s => goGet(s, shouldUpdate))
    {
      KeptSnoc(items, s => goGet(s, shouldUpdate), i);
      var entry := At(globalPackages, i);
      assert entry == items[i];
      if !entry.Str? {
        continue;
      }
      if goGet(entry.s, shouldUpdate) {
        result := result + [entry];
      }
    }
    assert items[..Len(globalPackages)] == items;
    installed := Arr(result);
  }

  /** A component of a `std::path::Path`. */
  datatype Component = RootDir | CurDir | ParentDir | Normal(name: string)

  /** The components a pushed segment contributes: empty and `.` segments vanish. */
  function SegmentComponents(segment: string): seq<Component> {
    if segment == "" || segment == "." then []
    else if segment == ".." then [ParentDir]
    else [Normal(segment)]
  }

  /** `path.components()` of a relative path built by pushing segments. */
  function Components(p: Path): seq<Component>
    decreases |p|
  {
    if p == [] then [] else Components(p[..|p| - 1]) + SegmentComponents(p[|p| - 1])
  }

  lemma ComponentsSnoc(p: Path, segment: string)
    ensures Components(p + [segment]) == Components(p) + SegmentComponents(segment)
  {
    assert (p + [segment])[..|p|] == p;
  }

  /** Pushing a segment onto an empty path and then the rest gives that segment's components first. */
  lemma {:induction false} ComponentsCons(segment: string, q: Path)
    ensures Components([segment] + q) == SegmentComponents(segment) + Components(q)
    decreases |q|
  {
    if q == [] {
      assert [segment] + q == [segment];
      assert [segment][..0] == [];
    } else {
      var q', last := q[..|q| - 1], q[|q| - 1];
      ComponentsCons(segment, q');
      assert ([segment] + q)[..|q|] == [segment] + q';
      assert ([segment] + q)[|q|] == last;
      ConcatAssoc(SegmentComponents(segment), Components(q'), SegmentComponents(last));
    }
  }

  const VENDOR_COMPONENT: Component := Normal(VENDOR_DIR)
  const GIT_DIR: string := ".git"

  /** The position of the first `vendor` component. */
  function FirstVendor(cs: seq<Component>): (r: Option<nat>)
    ensures r.Some? ==> r.value < |cs| && cs[r.value] == VENDOR_COMPONENT
    ensures r.Some? ==> forall j :: 0 <= j < r.value ==> cs[j] != VENDOR_COMPONENT
    ensures r.None? <==> VENDOR_COMPONENT !in cs
    decreases |cs|
  {
    if cs == [] then None
    else if cs[0] == VENDOR_COMPONENT then Some(0)
    else
      match FirstVendor(cs[1..])
      case None => None
      case Some(k) => Some(k + 1)
  }

  /** The names of the normal components other than `.git`, in order. */
  function ImportNames(cs: seq<Component>): seq<string>
    decreases |cs|
  {
    if cs == [] then []
    else
      var c := cs[|cs| - 1];
      ImportNames(cs[..|cs| - 1]) + (if c.Normal? && c.name != GIT_DIR then [c.name] else [])
  }

  /** What `parse_import` yields: the names after the first `vendor` component, `.git` dropped, joined by `/`. */
  function ImportOf(cs: seq<Component>): string {
    match FirstVendor(cs)
    case None => ""
    case Some(k) => Join(ImportNames(cs[k + 1..]), '/')
  }

  /** `parse_import`: walks the components, starting to collect once `vendor` has been seen. */
  method ParseImport(cs: seq<Component>) returns (pkgImport: string)
    ensures pkgImport == ImportOf(cs)
  {
    var parts: seq<string> := [];
    var isVendorFound := false;
    ghost var k := 0;
    for i := 0 to |cs|
      invariant !isVendorFound ==> VENDOR_COMPONENT !in cs[..i] && parts == []
      invariant isVendorFound ==> k < i && FirstVendor(cs) == Some(k) && parts == ImportNames(cs[k + 1..i])
    {
      if isVendorFound {
        ImportNamesSnoc(cs, k + 1, i);
      } else {
        assert cs[..i + 1] == cs[..i] + [cs[i]];
      }
      if cs[i].Normal? {
        var c := cs[i].name;
        if isVendorFound && c != GIT_DIR {
          parts := parts + [c];
        } else if c == VENDOR_DIR {
          if !isVendorFound {
            FirstVendorAt(cs, i);
            k := i;
            assert cs[k + 1..i + 1] == [];
          }
          isVendorFound := true;
        }
      }
    }
    assert cs[..|cs|] == cs;
    assert isVendorFound ==> cs[k + 1..|cs|] == cs[k + 1..];
    pkgImport := Join(parts, '/');
  }

  lemma ImportNamesSnoc(cs: seq<Component>, lo: nat, i: nat)
    requires lo <= i < |cs|
    ensures ImportNames(cs[lo..i + 1]) ==
            ImportNames(cs[lo..i]) + (if cs[i].Normal? && cs[i].name != GIT_DIR then [cs[i].name] else [])
  {
    assert cs[lo..i + 1][..i - lo] == cs[lo..i];
  }

  /** A `vendor` component with none before it is the first one. */
  lemma FirstVendorAt(cs: seq<Component>, i: nat)
    requires i < |cs| && cs[i] == VENDOR_COMPONENT && VENDOR_COMPONENT !in cs[..i]
    ensures FirstVendor(cs) == Some(i)
  {
    forall j | 0 <= j < i
      ensures cs[j] != VENDOR_COMPONENT
    {
      assert cs[..i][j] == cs[j];
    }
  }

  /** Components before the first `vendor` do not matter. */
  lemma {:induction false} ImportIgnoresPrefix(pre: seq<Component>, rest: seq<Component>)
    requires VENDOR_COMPONENT !in pre
    requires VENDOR_COMPONENT in rest
    ensures ImportOf(pre + rest) == ImportOf(rest)
    decreases |pre|
  {
    if pre != [] {
      assert (pre + rest)[1..] == pre[1..] + rest;
      assert (pre + rest)[0] == pre[0];
      ImportIgnoresPrefix(pre[1..], rest);
      var k := FirstVendor(pre[1..] + rest).value;
      assert (pre + rest)[k + 2..] == (pre[1..] + rest)[k + 1..];
    } else {
      assert pre + rest == rest;
    }
  }

  /** A segment that becomes a normal component other than `.git`. */
  predicate PlainSegment(segment: string) {
    segment != "" && segment != "." && segment != ".." && segment != GIT_DIR
  }

  lemma {:induction false} ImportNamesOfSegments(segments: seq<string>)
    requires forall i :: 0 <= i < |segments| ==> PlainSegment(segments[i])
    ensures ImportNames(Components(segments)) == segments
    decreases |segments|
  {
    if segments != [] {
      var init := segments[..|segments| - 1];
      var last := segments[|segments| - 1];
      ImportNamesOfSegments(init);
      var ci := Components(init);
      var cs := Components(segments);
      assert SegmentComponents(last) == [Normal(last)];
      assert cs == ci + [Normal(last)];
      assert cs[..|cs| - 1] == ci;
      assert ImportNames(cs) == ImportNames(ci) + [last];
      assert segments == init + [last];
    }
  }

  /** The components of a vendor path with `.git` pushed on. */
  lemma GitDirComponents(segments: seq<string>)
    ensures Components([VENDOR_DIR] + segments + [GIT_DIR]) ==
            [VENDOR_COMPONENT] + (Components(segments) + [Normal(GIT_DIR)])
  {
    ComponentsSnoc([VENDOR_DIR] + segments, GIT_DIR);
    ComponentsCons(VENDOR_DIR, segments);
    ConcatAssoc([VENDOR_COMPONENT], Components(segments), [Normal(GIT_DIR)]);
  }

  lemma ImportNamesDropGit(cs: seq<Component>)
    ensures ImportNames(cs + [Normal(GIT_DIR)]) == ImportNames(cs)
  {
    assert (cs + [Normal(GIT_DIR)])[..|cs|] == cs;
  }

  /**
   * `parse_import` inverts `get_path_from_url`: the git directory of the vendor
   * path of an import reads back as the import, when its segments are non-empty
   * and none is `.`, `..` or `.git`.
   */
  lemma ParseImportRoundTrip(pkgImport: string)
    requires forall seg :: seg in Split(pkgImport, '/') ==> PlainSegment(seg)
    ensures ImportOf(Components(VendorPath(pkgImport) + [GIT_DIR])) == pkgImport
  {
    var segments := Split(pkgImport, '/');
    assert VendorPath(pkgImport) == [VENDOR_DIR] + segments by {
      assert forall k :: 0 <= k < |segments| ==> segments[k] in segments;
      DirSegmentsFacts(segments);
    }
    var body := Components(segments) + [Normal(GIT_DIR)];
    var cs := [VENDOR_COMPONENT] + body;
    assert Components(VendorPath(pkgImport) + [GIT_DIR]) == cs by {
      GitDirComponents(segments);
    }
    assert ImportOf(cs) == Join(ImportNames(body), '/') by {
      assert FirstVendor(cs) == Some(0);
      assert cs[1..] == body;
    }
    assert ImportNames(body) == segments by {
      ImportNamesDropGit(Components(segments));
      ImportNamesOfSegments(segments);
    }
    JoinSplit(pkgImport, '/');
  }

  /**
   * The `version` label `parse_repository` records: the tag name for a tag HEAD
   * and the short name for a branch HEAD, each falling back to the object id,
   * and the object id otherwise.
   */
  function HeadLabel(repo: Repo): (r: Option<string>)
    ensures r.Some? <==> GetLatestCommit(repo).Some?
    ensures r.Some? ==>
              r == GetLatestCommit(repo) ||
              (repo.head.kind.TagRef? && r == repo.head.kind.tagName) ||
              (repo.head.kind.BranchRef? && r == repo.head.kind.shorthand)
    ensures r.Some? && repo.head.kind.OtherRef? ==> r == GetLatestCommit(repo)
    ensures r.Some? && repo.head.kind.TagRef? && repo.head.kind.tagName.None? ==> r == GetLatestCommit(repo)
    ensures r.Some? && repo.head.kind.BranchRef? && repo.head.kind.shorthand.None? ==> r == GetLatestCommit(repo)
  {
    match repo.head
    case Resolved(Some(oid), kind) =>
      Some(match kind
        case TagRef(name) => name.GetOr(oid)
        case BranchRef(shorthand) => shorthand.GetOr(oid)
        case OtherRef => oid)
    case _ => None
  }

  /**
   * `parse_repository`: a package object with the HEAD label as `version` and the
   * import read from the git directory's path, or None when HEAD does not resolve
   * to an object.
   */
  method ParseRepository(repo: Repo, gitDir: seq<Component>) returns (pkg: Option<Json>)
    ensures pkg.None? <==> GetLatestCommit(repo).None?
    ensures pkg.Some? ==> pkg.value.Obj? && pkg.value.fields.Keys == {VERSION_KEY, IMPORT_KEY}
    ensures pkg.Some? ==> Get(pkg.value, VERSION_KEY) == Str(HeadLabel(repo).value)
    ensures pkg.Some? ==> Get(pkg.value, IMPORT_KEY) == Str(ImportOf(gitDir))
  {
    var obj := Obj(map[]);
    if !repo.head.Resolved? || repo.head.target.None? {
      return None;
    }
    var oid := repo.head.target.value;
    var headLabel: string;
    match repo.head.kind {
      case TagRef(name) => headLabel := name.GetOr(oid);
      case BranchRef(shorthand) => headLabel := shorthand.GetOr(oid);
      case OtherRef => headLabel := oid;
    }
    obj := Set(obj, VERSION_KEY, Str(headLabel));
    var pkgImport := ParseImport(gitDir);
    obj := Set(obj, IMPORT_KEY, Str(pkgImport));
    return Some(obj);
  }

  /**
   * A local branch met by the fast-forward after a fetch: its reference name,
   * its upstream's name (None when either lookup fails), whether `set_head`
   * and the hard reset succeed, the commit the branch points at before the
   * reset, and its short name.
   */
  datatype LocalBranch = LocalBranch(
    refName: Option<string>,
    upstream: Option<string>,
    setHeadOk: bool,
    resetOk: bool,
    target: Option<string>,
    shorthand: Option<string>)

  /** The lookups for this branch succeed and `set_head` points HEAD at it. */
  predicate SetsHead(repo: Repo, b: Option<LocalBranch>) {
    && b.Some? && b.value.refName.Some? && b.value.upstream.Some?
    && repo.revparse(b.value.upstream.value).Some?
    && b.value.setHeadOk
  }

  /** Every step for this branch succeeds, so it is reset to its upstream. */
  predicate FastForwards(repo: Repo, b: Option<LocalBranch>) {
    SetsHead(repo, b) && b.value.resetOk
  }

  /**
   * HEAD once `set_head` has pointed it at `b`: the branch, at its upstream's
   * commit when the hard reset succeeded and at its old commit otherwise.
   */
  function HeadOn(repo: Repo, b: Option<LocalBranch>): (h: Head)
    requires SetsHead(repo, b)
    ensures h.Resolved? && h.kind == BranchRef(b.value.shorthand)
    ensures FastForwards(repo, b) ==> h.target == repo.revparse(b.value.upstream.value)
    ensures !FastForwards(repo, b) ==> h.target == b.value.target
  {
    Resolved(if b.value.resetOk then repo.revparse(b.value.upstream.value) else b.value.target,
             BranchRef(b.value.shorthand))
  }

  /** The branches brought to their upstream, in listing order. */
  function FastForwarded(repo: Repo, branches: seq<Option<LocalBranch>>): seq<string>
    decreases |branches|
  {
    if branches == [] then []
    else
      var b := branches[|branches| - 1];
      FastForwarded(repo, branches[..|branches| - 1]) + (if FastForwards(repo, b) then [b.value.refName.value] else [])
  }

  /** A branch whose steps all succeed is updated whatever happens to the others, and no other branch is. */
  lemma {:induction false} FastForwardedMember(repo: Repo, branches: seq<Option<LocalBranch>>, name: string)
    ensures name in FastForwarded(repo, branches) <==>
              exists i :: 0 <= i < |branches| && FastForwards(repo, branches[i]) && branches[i].value.refName == Some(name)
    decreases |branches|
  {
    if branches != [] {
      var n := |branches| - 1;
      var init := branches[..n];
      FastForwardedMember(repo, init, name);
      if exists i :: 0 <= i < |branches| && FastForwards(repo, branches[i]) && branches[i].value.refName == Some(name) {
        var i :| 0 <= i < |branches| && FastForwards(repo, branches[i]) && branches[i].value.refName == Some(name);
        if i < n {
          assert init[i] == branches[i];
        }
      }
      if name in FastForwarded(repo, init) {
        var i :| 0 <= i < n && FastForwards(repo, init[i]) && init[i].value.refName == Some(name);
        assert init[i] == branches[i];
      }
    }
  }

  /**
   * The repository after the branch loop: each branch that `set_head` reaches
   * moves HEAD, so HEAD ends on the last of them; tags, the branch listing and
   * revision lookup are as before.
   */
  function FastForwardedRepo(repo: Repo, branches: seq<Option<LocalBranch>>): (r: Repo)
    ensures r.tagNames == repo.tagNames && r.localBranches == repo.localBranches && r.revparse == repo.revparse
    decreases |branches|
  {
    if branches == [] then repo
    else
      var b := branches[|branches| - 1];
      var before := FastForwardedRepo(repo, branches[..|branches| - 1]);
      if SetsHead(repo, b) then before.(head := HeadOn(repo, b)) else before
  }

  /**
   * HEAD is left alone when no branch gets through `set_head`, and otherwise is
   * where the last branch that did put it.
   */
  lemma FastForwardedHead(repo: Repo, branches: seq<Option<LocalBranch>>)
    ensures var r := FastForwardedRepo(repo, branches);
            && ((forall i :: 0 <= i < |branches| ==> !SetsHead(repo, branches[i])) ==> r == repo)
            && ((exists i :: 0 <= i < |branches| && SetsHead(repo, branches[i])) ==>
                  exists k :: 0 <= k < |branches| && SetsHead(repo, branches[k]) && r.head == HeadOn(repo, branches[k]) &&
                    forall j :: k < j < |branches| ==> !SetsHead(repo, branches[j]))
  {
    if forall i :: 0 <= i < |branches| ==> !SetsHead(repo, branches[i]) {
      FastForwardedUntouched(repo, branches);
    } else {
      var i :| 0 <= i < |branches| && SetsHead(repo, branches[i]);
      FastForwardedLastSetter(repo, branches, i);
    }
  }

  lemma {:induction false} FastForwardedUntouched(repo: Repo, branches: seq<Option<LocalBranch>>)
    requires forall i :: 0 <= i < |branches| ==> !SetsHead(repo, branches[i])
    ensures FastForwardedRepo(repo, branches) == repo
    decreases |branches|
  {
    if branches != [] {
      var n := |branches| - 1;
      var init := branches[..n];
      assert forall i :: 0 <= i < n ==> init[i] == branches[i];
      FastForwardedUntouched(repo, init);
      assert !SetsHead(repo, branches[n]);
    }
  }

  lemma {:induction false} FastForwardedLastSetter(repo: Repo, branches: seq<Option<LocalBranch>>, i: nat)
    requires i < |branches| && SetsHead(repo, branches[i])
    ensures exists k :: 0 <= k < |branches| && SetsHead(repo, branches[k]) &&
              FastForwardedRepo(repo, branches).head == HeadOn(repo, branches[k]) &&
              forall j :: k < j < |branches| ==> !SetsHead(repo, branches[j])
    decreases |branches|
  {
    var n := |branches| - 1;
    var init := branches[..n];
    var r := FastForwardedRepo(repo, branches);
    if SetsHead(repo, branches[n]) {
      assert r.head == HeadOn(repo, branches[n]);
    } else {
      assert init[i] == branches[i];
      FastForwardedLastSetter(repo, init, i);
      var k :| 0 <= k < n && SetsHead(repo, init[k]) &&
               FastForwardedRepo(repo, init).head == HeadOn(repo, init[k]) &&
               forall j :: k < j < n ==> !SetsHead(repo, init[j]);
      assert init[k] == branches[k];
      assert r == FastForwardedRepo(repo, init);
      forall j | k < j < |branches|
        ensures !SetsHead(repo, branches[j])
      {
        if j < n {
          assert init[j] == branches[j];
        }
      }
    }
  }

  lemma FastForwardSnoc(repo: Repo, branches: seq<Option<LocalBranch>>, i: nat)
    requires i < |branches|
    ensures FastForwarded(repo, branches[..i + 1]) ==
            FastForwarded(repo, branches[..i]) + (if FastForwards(repo, branches[i]) then [branches[i].value.refName.value] else [])
    ensures FastForwardedRepo(repo, branches[..i + 1]) ==
            if SetsHead(repo, branches[i]) then FastForwardedRepo(repo, branches[..i]).(head := HeadOn(repo, branches[i]))
            else FastForwardedRepo(repo, branches[..i])
  {
    assert branches[..i + 1][..i] == branches[..i];
  }

  /**
   * The branch loop after a fetch: a branch whose lookup fails, or whose
   * `set_head` or reset fails, is skipped and the loop goes on; gives the
   * branches reset and the repository afterwards.
   */
  method FastForwardBranches(repo: Repo, branches: Option<seq<Option<LocalBranch>>>)
    returns (updated: seq<string>, after: Repo)
    ensures updated == if branches.None? then [] else FastForwarded(repo, branches.value)
    ensures after == if branches.None? then repo else FastForwardedRepo(repo, branches.value)
  {
    updated := [];
    after := repo;
    if branches.None? {
      return;
    }
    var bs := branches.value;
    for i := 0 to |bs|
      invariant updated == FastForwarded(repo, bs[..i])
      invariant after == FastForwardedRepo(repo, bs[..i])
    {
      FastForwardSnoc(repo, bs, i);
      if bs[i].None? {
        continue;
      }
      var branch := bs[i].value;
      if branch.refName.None? || branch.upstream.None? {
        continue;
      }
      var remoteObject := repo.revparse(branch.upstream.value);
      if remoteObject.None? {
        continue;
      }
      if !branch.setHeadOk {
        continue;
      }
      if !branch.resetOk {
        after := after.(head := Resolved(branch.target, BranchRef(branch.shorthand)));
        continue;
      }
      after := after.(head := Resolved(remoteObject, BranchRef(branch.shorthand)));
      updated := updated + [branch.refName.value];
    }
    assert bs[..|bs|] == bs;
  }

  /** How far `remotes`, the first remote, `find_remote` and `fetch` get. */
  datatype RemoteStep = RemotesFailed | NoRemote | FindRemoteFailed | FetchFailed | Fetched

  /**
   * What the outside world answers while one package is brought up to date:
   * whether the old checkout can be removed, what clone and open yield, how the
   * fetch goes, the local branches, and whether detaching HEAD and the hard reset succeed.
   */
  datatype SyncEnv = SyncEnv(
    removeOk: bool,
    cloneResult: Option<Repo>,
    openResult: Option<Repo>,
    remote: RemoteStep,
    branches: Option<seq<Option<LocalBranch>>>,
    detachOk: bool,
    resetOk: bool)

  /** Where `update_package` stops: at one of its failure exits, or having checked out the revision. */
  datatype Stage =
    | NoImport | RemoveFailed | CloneFailed | OpenFailed | FetchStepFailed
    | NoVersion | NoRevision | DetachFailed | ResetFailed | Synced

  /**
   * One run of `update_package`: where it stopped, the vendor tree after it, the
   * URL it cloned from (None when it opened the checkout or stopped before),
   * whether it fetched, the branches it fast-forwarded, the repository it
   * reached, the version string it resolved, the revision found as (object id,
   * label), and the package it sends back.
   */
  datatype SyncOutcome = SyncOutcome(
    stage: Stage,
    dirs: set<Path>,
    cloneUrl: Option<string>,
    fetched: bool,
    updatedBranches: seq<string>,
    repo: Option<Repo>,
    requested: Option<string>,
    revision: Option<(string, string)>,
    sent: Json)

  /** The URL a package is cloned from: its `repo` entry, else the rewritten import (`modify_golang_org`). */
  function RepoUrl(package: Json, pkgImport: string, rewrite: string -> string): (r: string)
    ensures Get(package, REPO_KEY).Str? ==> r == Get(package, REPO_KEY).s
    ensures !Get(package, REPO_KEY).Str? ==> r == rewrite(pkgImport)
  {
    match AsStr(Get(package, REPO_KEY))
    case Some(url) => url
    case None => rewrite(pkgImport)
  }

  /** The steps after the repository is reached: read `version`, resolve it, detach HEAD, reset. */
  function Resolve(package: Json, isApply: bool, sem: Semver, repo: Repo, env: SyncEnv,
                   dirs: set<Path>, cloneUrl: Option<string>, fetched: bool, updated: seq<string>): SyncOutcome
  {
    match AsStr(Get(package, VERSION_KEY))
    case None => SyncOutcome(NoVersion, dirs, cloneUrl, fetched, updated, Some(repo), None, None, package)
    case Some(version) =>
      var requested := if isApply then version else LatestCompatVersion(sem, repo, version);
      match RevisionObject(repo, requested, true)
      case None => SyncOutcome(NoRevision, dirs, cloneUrl, fetched, updated, Some(repo), Some(requested), None, package)
      case Some(revision) =>
        if !env.detachOk then
          SyncOutcome(DetachFailed, dirs, cloneUrl, fetched, updated, Some(repo), Some(requested), Some(revision), package)
        else if !env.resetOk then
          SyncOutcome(ResetFailed, dirs, cloneUrl, fetched, updated, Some(repo), Some(requested), Some(revision), package)
        else
          SyncOutcome(Synced, dirs, cloneUrl, fetched, updated, Some(repo), Some(requested), Some(revision),
                      Set(package, VERSION_KEY, Str(revision.1)))
  }

  /** After the optional clean-up: clone when cleaning or when there is no checkout, else open and fetch. */
  function Acquire(package: Json, pkgImport: string, path: Path, shouldClean: bool, isApply: bool,
                   cleaned: set<Path>, sem: Semver, rewrite: string -> string, env: SyncEnv): SyncOutcome
  {
    if shouldClean || path !in cleaned then
      var url := RepoUrl(package, pkgImport, rewrite);
      match env.cloneResult
      case None => SyncOutcome(CloneFailed, cleaned, Some(url), false, [], None, None, None, package)
      case Some(repo) => Resolve(package, isApply, sem, repo, env, CreateDirAll(cleaned, path), Some(url), false, [])
    else
      match env.openResult
      case None => SyncOutcome(OpenFailed, cleaned, None, false, [], None, None, None, package)
      case Some(repo) =>
        if isApply then Resolve(package, isApply, sem, repo, env, cleaned, None, false, [])
        else if !env.remote.Fetched? then
          SyncOutcome(FetchStepFailed, cleaned, None, false, [], Some(repo), None, None, package)
        else
          var updated := if env.branches.None? then [] else FastForwarded(repo, env.branches.value);
          var after := if env.branches.None? then repo else FastForwardedRepo(repo, env.branches.value);
          Resolve(package, isApply, sem, after, env, cleaned, None, true, updated)
  }

  /**
   * `update_package`, with the package sent back on a failure being the input
   * package (see `SentAsWritten` for the version the code sends when
   * detaching HEAD or the reset fails).
   */
  function Sync(package: Json, shouldClean: bool, isApply: bool, dirs: set<Path>, sem: Semver,
                rewrite: string -> string, env: SyncEnv): SyncOutcome
  {
    match AsStr(Get(package, IMPORT_KEY))
    case None => SyncOutcome(NoImport, dirs, None, false, [], None, None, None, package)
    case Some(raw) =>
      var pkgImport := StripUrlScheme(raw);
      var path := VendorPath(pkgImport);
      if shouldClean && path in dirs && !env.removeOk then
        SyncOutcome(RemoveFailed, dirs, None, false, [], None, None, None, package)
      else
        var cleaned := if shouldClean && path in dirs then RemoveDirAll(dirs, path) else dirs;
        Acquire(package, pkgImport, path, shouldClean, isApply, cleaned, sem, rewrite, env)
  }

  /**
   * `update_package`: brings the checkout of one package to the revision its
   * `version` resolves to and sends back the package, with `version` set to the
   * resolved label once the checkout is done.
   */
  method UpdatePackage(package: Json, shouldClean: bool, isApply: bool, dirs: set<Path>, sem: Semver,
                       rewrite: string -> string, env: SyncEnv)
    returns (sent: Json, newDirs: set<Path>)
    ensures sent == Sync(package, shouldClean, isApply, dirs, sem, rewrite, env).sent
    ensures newDirs == Sync(package, shouldClean, isApply, dirs, sem, rewrite, env).dirs
  {
    sent := package;
    newDirs := dirs;
    var importRaw := AsStr(Get(package, IMPORT_KEY));
    if importRaw.None? {
      return;
    }
    var pkgImport := StripUrlScheme(importRaw.value);
    var pkgPath := PathFromUrl(pkgImport);
    if shouldClean && pkgPath in newDirs {
      if !env.removeOk {
        return;
      }
      newDirs := RemoveDirAll(newDirs, pkgPath);
    }
    sent, newDirs := OpenOrClone(package, pkgImport, pkgPath, shouldClean, isApply, newDirs, sem, rewrite, env);
  }

  /** The middle of `update_package`: clone or open (and fetch), then check out. */
  method OpenOrClone(package: Json, pkgImport: string, pkgPath: Path, shouldClean: bool, isApply: bool,
                     dirs: set<Path>, sem: Semver, rewrite: string -> string, env: SyncEnv)
    returns (sent: Json, newDirs: set<Path>)
    ensures var o := Acquire(package, pkgImport, pkgPath, shouldClean, isApply, dirs, sem, rewrite, env);
            sent == o.sent && newDirs == o.dirs
  {
    sent := package;
    newDirs := dirs;
    ghost var o := Acquire(package, pkgImport, pkgPath, shouldClean, isApply, dirs, sem, rewrite, env);
    if shouldClean || pkgPath !in newDirs {
      if env.cloneResult.None? {
        return;
      }
      var repo := env.cloneResult.value;
      newDirs := CreateDirAll(newDirs, pkgPath);
      assert o == Resolve(package, isApply, sem, repo, env, newDirs, Some(RepoUrl(package, pkgImport, rewrite)), false, []);
      sent := CheckOut(package, isApply, sem, repo, env);
    } else {
      if env.openResult.None? {
        return;
      }
      var repo := env.openResult.value;
      if isApply {
        assert o == Resolve(package, isApply, sem, repo, env, newDirs, None, false, []);
      } else {
        if !env.remote.Fetched? {
          return;
        }
        var updated, after := FastForwardBranches(repo, env.branches);
        assert o == Resolve(package, isApply, sem, after, env, newDirs, None, true, updated);
        repo := after;
      }
      sent := CheckOut(package, isApply, sem, repo, env);
    }
  }

  /** The tail of `update_package` once the repository is reached: resolve `version`, detach HEAD, reset. */
  method CheckOut(package: Json, isApply: bool, sem: Semver, repo: Repo, env: SyncEnv) returns (sent: Json)
    ensures forall dirs, cloneUrl, fetched, updated ::
              sent == Resolve(package, isApply, sem, repo, env, dirs, cloneUrl, fetched, updated).sent
  {
    sent := package;
    var version := AsStr(Get(package, VERSION_KEY));
    if version.None? {
      return;
    }
    var requested := version.value;
    if !isApply {
      requested := LatestCompatVersion(sem, repo, requested);
    }
    var versionObject := RevisionObject(repo, requested, true);
    if versionObject.None? {
      return;
    }
    if !env.detachOk || !env.resetOk {
      return;
    }
    sent := Set(sent, VERSION_KEY, Str(versionObject.value.1));
  }

  /**
   * Exactly one package comes back from every run. On any failure it is the
   * input package; on success it is the input with only `version` changed, to
   * the label of the resolved revision.
   */
  lemma SyncSent(package: Json, shouldClean: bool, isApply: bool, dirs: set<Path>, sem: Semver,
                 rewrite: string -> string, env: SyncEnv)
    ensures var o := Sync(package, shouldClean, isApply, dirs, sem, rewrite, env);
            && (o.stage != Synced ==> o.sent == package)
            && (o.stage == Synced ==>
                  package.Obj? && o.revision.Some? &&
                  o.sent == Obj(package.fields[VERSION_KEY := Str(o.revision.value.1)]))
            && (o.revision.Some? ==> o.stage == DetachFailed || o.stage == ResetFailed || o.stage == Synced)
            && (forall k :: k != VERSION_KEY ==> Get(o.sent, k) == Get(package, k))
  {
    match AsStr(Get(package, IMPORT_KEY))
    case None =>
    case Some(raw) =>
      var pkgImport := StripUrlScheme(raw);
      var path := VendorPath(pkgImport);
      if !(shouldClean && path in dirs && !env.removeOk) {
        var cleaned := if shouldClean && path in dirs then RemoveDirAll(dirs, path) else dirs;
        AcquireSent(package, pkgImport, path, shouldClean, isApply, cleaned, sem, rewrite, env);
      }
  }

  /** `SyncSent` for the clone-or-open phase. */
  lemma AcquireSent(package: Json, pkgImport: string, path: Path, shouldClean: bool, isApply: bool,
                    cleaned: set<Path>, sem: Semver, rewrite: string -> string, env: SyncEnv)
    ensures var o := Acquire(package, pkgImport, path, shouldClean, isApply, cleaned, sem, rewrite, env);
            && (o.stage != Synced ==> o.sent == package)
            && (o.stage == Synced ==>
                  package.Obj? && o.revision.Some? &&
                  o.sent == Obj(package.fields[VERSION_KEY := Str(o.revision.value.1)]))
            && (o.revision.Some? ==> o.stage == DetachFailed || o.stage == ResetFailed || o.stage == Synced)
  {
    if shouldClean || path !in cleaned {
      if env.cloneResult.Some? {
        ResolveSent(package, isApply, sem, env.cloneResult.value, env, CreateDirAll(cleaned, path), Some(RepoUrl(package, pkgImport, rewrite)), false, []);
      }
    } else if env.openResult.Some? {
      var repo := env.openResult.value;
      if isApply {
        ResolveSent(package, isApply, sem, repo, env, cleaned, None, false, []);
      } else if env.remote.Fetched? {
        var updated := if env.branches.None? then [] else FastForwarded(repo, env.branches.value);
        var after := if env.branches.None? then repo else FastForwardedRepo(repo, env.branches.value);
        ResolveSent(package, isApply, sem, after, env, cleaned, None, true, updated);
      }
    }
  }

  /** `SyncSent` for the checkout phase. */
  lemma ResolveSent(package: Json, isApply: bool, sem: Semver, repo: Repo, env: SyncEnv,
                    dirs: set<Path>, cloneUrl: Option<string>, fetched: bool, updated: seq<string>)
    ensures var o := Resolve(package, isApply, sem, repo, env, dirs, cloneUrl, fetched, updated);
            && (o.stage != Synced ==> o.sent == package)
            && (o.stage == Synced ==>
                  package.Obj? && o.revision.Some? &&
                  o.sent == Obj(package.fields[VERSION_KEY := Str(o.revision.value.1)]))
            && (o.revision.Some? ==> o.stage == DetachFailed || o.stage == ResetFailed || o.stage == Synced)
  {
  }

  /** The steps after the repository is reached change neither the vendor tree nor what came before. */
  lemma ResolveFacts(package: Json, isApply: bool, sem: Semver, repo: Repo, env: SyncEnv,
                     dirs: set<Path>, cloneUrl: Option<string>, fetched: bool, updated: seq<string>)
    ensures var o := Resolve(package, isApply, sem, repo, env, dirs, cloneUrl, fetched, updated);
            var version := AsStr(Get(package, VERSION_KEY));
            && o.dirs == dirs && o.cloneUrl == cloneUrl && o.fetched == fetched && o.updatedBranches == updated
            && o.repo == Some(repo)
            && (o.requested.Some? ==> version.Some?)
            && (isApply && o.requested.Some? ==> o.requested.value == version.value)
            && (!isApply && o.requested.Some? ==> o.requested.value == LatestCompatVersion(sem, repo, version.value))
            && (o.stage == Synced ==>
                  o.requested.Some? && o.revision.Some? && o.revision == RevisionObject(repo, o.requested.value, true) &&
                  (o.revision.value.1 == o.requested.value || GetLatestCommit(repo) == Some(o.revision.value.1)))
  {
    match AsStr(Get(package, VERSION_KEY))
    case None =>
    case Some(version) =>
      var requested := if isApply then version else LatestCompatVersion(sem, repo, version);
      match RevisionObject(repo, requested, true)
      case None =>
      case Some(revision) =>
  }

  /** Cloning or opening: the URL used and the vendor tree afterwards. */
  lemma AcquireDirs(package: Json, pkgImport: string, path: Path, shouldClean: bool, isApply: bool,
                    cleaned: set<Path>, sem: Semver, rewrite: string -> string, env: SyncEnv)
    requires path != []
    ensures var o := Acquire(package, pkgImport, path, shouldClean, isApply, cleaned, sem, rewrite, env);
            && (o.cloneUrl.Some? <==> shouldClean || path !in cleaned)
            && (o.cloneUrl.Some? ==> o.cloneUrl.value == RepoUrl(package, pkgImport, rewrite))
            && (o.stage == Synced ==> path in o.dirs)
            && (o.dirs == cleaned || o.dirs == CreateDirAll(cleaned, path))
  {
    var url := RepoUrl(package, pkgImport, rewrite);
    if shouldClean || path !in cleaned {
      if env.cloneResult.Some? {
        ResolveFacts(package, isApply, sem, env.cloneResult.value, env, CreateDirAll(cleaned, path), Some(url), false, []);
      }
    } else if env.openResult.Some? {
      var repo := env.openResult.value;
      if isApply {
        ResolveFacts(package, isApply, sem, repo, env, cleaned, None, false, []);
      } else if env.remote.Fetched? {
        var updated := if env.branches.None? then [] else FastForwarded(repo, env.branches.value);
        var after := if env.branches.None? then repo else FastForwardedRepo(repo, env.branches.value);
        ResolveFacts(package, isApply, sem, after, env, cleaned, None, true, updated);
      }
    }
  }

  /** Cloning or opening: the fetch and how `version` is resolved in the repository reached. */
  lemma AcquireResolves(package: Json, pkgImport: string, path: Path, shouldClean: bool, isApply: bool,
                        cleaned: set<Path>, sem: Semver, rewrite: string -> string, env: SyncEnv)
    ensures var o := Acquire(package, pkgImport, path, shouldClean, isApply, cleaned, sem, rewrite, env);
            var version := AsStr(Get(package, VERSION_KEY));
            && (isApply ==> !o.fetched && o.updatedBranches == [])
            && (o.requested.Some? ==> o.repo.Some? && version.Some?)
            && (isApply && o.requested.Some? ==> o.requested.value == version.value)
            && (!isApply && o.requested.Some? ==>
                  o.requested.value == LatestCompatVersion(sem, o.repo.value, version.value) &&
                  (o.cloneUrl.None? ==> o.fetched))
            && (o.stage == Synced ==>
                  o.requested.Some? && o.revision.Some? && o.revision == RevisionObject(o.repo.value, o.requested.value, true) &&
                  (o.revision.value.1 == o.requested.value ||
                   GetLatestCommit(o.repo.value) == Some(o.revision.value.1)))
  {
    var o := Acquire(package, pkgImport, path, shouldClean, isApply, cleaned, sem, rewrite, env);
    var url := RepoUrl(package, pkgImport, rewrite);
    if shouldClean || path !in cleaned {
      if env.cloneResult.Some? {
        var dirs := CreateDirAll(cleaned, path);
        assert o == Resolve(package, isApply, sem, env.cloneResult.value, env, dirs, Some(url), false, []);
        ResolveFacts(package, isApply, sem, env.cloneResult.value, env, dirs, Some(url), false, []);
      }
    } else if env.openResult.Some? {
      var repo := env.openResult.value;
      if isApply {
        assert o == Resolve(package, isApply, sem, repo, env, cleaned, None, false, []);
        ResolveFacts(package, isApply, sem, repo, env, cleaned, None, false, []);
      } else if env.remote.Fetched? {
        var updated := if env.branches.None? then [] else FastForwarded(repo, env.branches.value);
        var after := if env.branches.None? then repo else FastForwardedRepo(repo, env.branches.value);
        assert o == Resolve(package, isApply, sem, after, env, cleaned, None, true, updated);
        ResolveFacts(package, isApply, sem, after, env, cleaned, None, true, updated);
      }
    }
  }

  /**
   * The repository the version is resolved in: the clone, or the opened
   * checkout, which after a fetch is the checkout as the branch loop leaves it
   * (HEAD on the last branch `set_head` reached).
   */
  lemma AcquireRepo(package: Json, pkgImport: string, path: Path, shouldClean: bool, isApply: bool,
                    cleaned: set<Path>, sem: Semver, rewrite: string -> string, env: SyncEnv)
    ensures var o := Acquire(package, pkgImport, path, shouldClean, isApply, cleaned, sem, rewrite, env);
            o.repo.Some? ==>
              if o.cloneUrl.Some? then o.repo == env.cloneResult
              else env.openResult.Some? &&
                   o.repo.value == if o.fetched && env.branches.Some?
                                   then FastForwardedRepo(env.openResult.value, env.branches.value)
                                   else env.openResult.value
  {
    var o := Acquire(package, pkgImport, path, shouldClean, isApply, cleaned, sem, rewrite, env);
    var url := RepoUrl(package, pkgImport, rewrite);
    if shouldClean || path !in cleaned {
      if env.cloneResult.Some? {
        var dirs := CreateDirAll(cleaned, path);
        assert o == Resolve(package, isApply, sem, env.cloneResult.value, env, dirs, Some(url), false, []);
        ResolveKeeps(package, isApply, sem, env.cloneResult.value, env, dirs, Some(url), false, []);
      }
    } else if env.openResult.Some? {
      var repo := env.openResult.value;
      if isApply {
        assert o == Resolve(package, isApply, sem, repo, env, cleaned, None, false, []);
        ResolveKeeps(package, isApply, sem, repo, env, cleaned, None, false, []);
      } else if env.remote.Fetched? {
        var updated := if env.branches.None? then [] else FastForwarded(repo, env.branches.value);
        var after := if env.branches.None? then repo else FastForwardedRepo(repo, env.branches.value);
        assert o == Resolve(package, isApply, sem, after, env, cleaned, None, true, updated);
        ResolveKeeps(package, isApply, sem, after, env, cleaned, None, true, updated);
      }
    }
  }

  lemma ResolveKeeps(package: Json, isApply: bool, sem: Semver, repo: Repo, env: SyncEnv,
                     dirs: set<Path>, cloneUrl: Option<string>, fetched: bool, updated: seq<string>)
    ensures var o := Resolve(package, isApply, sem, repo, env, dirs, cloneUrl, fetched, updated);
            o.repo == Some(repo) && o.cloneUrl == cloneUrl && o.fetched == fetched
  {
  }

  /** The same for a whole run: the clone, or the opened checkout as the fetch's branch loop leaves it. */
  lemma SyncRepo(package: Json, shouldClean: bool, isApply: bool, dirs: set<Path>, sem: Semver,
                 rewrite: string -> string, env: SyncEnv)
    ensures var o := Sync(package, shouldClean, isApply, dirs, sem, rewrite, env);
            o.repo.Some? ==>
              if o.cloneUrl.Some? then o.repo == env.cloneResult
              else env.openResult.Some? &&
                   o.repo.value == if o.fetched && env.branches.Some?
                                   then FastForwardedRepo(env.openResult.value, env.branches.value)
                                   else env.openResult.value
  {
    var importRaw := AsStr(Get(package, IMPORT_KEY));
    if importRaw.Some? {
      var pkgImport := StripUrlScheme(importRaw.value);
      var path := VendorPath(pkgImport);
      if !(shouldClean && path in dirs && !env.removeOk) {
        var cleaned := if shouldClean && path in dirs then RemoveDirAll(dirs, path) else dirs;
        assert Sync(package, shouldClean, isApply, dirs, sem, rewrite, env)
            == Acquire(package, pkgImport, path, shouldClean, isApply, cleaned, sem, rewrite, env);
        AcquireRepo(package, pkgImport, path, shouldClean, isApply, cleaned, sem, rewrite, env);
      }
    }
  }

  /**
   * Where the checkout ends up: a run that gets past the clean-up clones exactly
   * when cleaning or when the package has no directory yet; cleaning removes
   * everything below the package directory; a successful run leaves the package
   * directory in place; nothing outside the package directory is removed; and
   * no directory is added but the package directory and the ones above it.
   */
  lemma SyncDirs(package: Json, shouldClean: bool, isApply: bool, dirs: set<Path>, sem: Semver,
                 rewrite: string -> string, env: SyncEnv)
    requires AsStr(Get(package, IMPORT_KEY)).Some?
    ensures var o := Sync(package, shouldClean, isApply, dirs, sem, rewrite, env);
            var pkgImport := StripUrlScheme(AsStr(Get(package, IMPORT_KEY)).value);
            var path := VendorPath(pkgImport);
            && (o.stage != RemoveFailed ==>
                  (o.cloneUrl.Some? <==> shouldClean || path !in dirs) &&
                  (o.cloneUrl.Some? ==> o.cloneUrl.value == RepoUrl(package, pkgImport, rewrite)))
            && (o.stage == Synced ==> path in o.dirs)
            && (shouldClean && path in dirs && o.stage != RemoveFailed ==>
                  forall q :: q in dirs && IsBelow(path, q) && q != path ==> q !in o.dirs)
            && (forall q :: q in dirs && !IsBelow(path, q) ==> q in o.dirs)
            && (forall q :: q in o.dirs ==> q in dirs || q in Prefixes(path))
  {
    var pkgImport := StripUrlScheme(AsStr(Get(package, IMPORT_KEY)).value);
    var path := VendorPath(pkgImport);
    if !(shouldClean && path in dirs && !env.removeOk) {
      var cleaned := if shouldClean && path in dirs then RemoveDirAll(dirs, path) else dirs;
      assert Sync(package, shouldClean, isApply, dirs, sem, rewrite, env)
          == Acquire(package, pkgImport, path, shouldClean, isApply, cleaned, sem, rewrite, env);
      AcquireDirs(package, pkgImport, path, shouldClean, isApply, cleaned, sem, rewrite, env);
    }
  }

  /**
   * What `version` is resolved as: in apply mode the recorded string as it is
   * and no fetch; otherwise the best tag compatible with it, after a fetch when
   * the checkout was opened rather than cloned. A checked-out label is the
   * requested one unless that did not resolve and HEAD's commit was used.
   */
  lemma SyncResolves(package: Json, shouldClean: bool, isApply: bool, dirs: set<Path>, sem: Semver,
                     rewrite: string -> string, env: SyncEnv)
    ensures var o := Sync(package, shouldClean, isApply, dirs, sem, rewrite, env);
            var version := AsStr(Get(package, VERSION_KEY));
            && (isApply ==> !o.fetched && o.updatedBranches == [])
            && (o.requested.Some? ==> o.repo.Some? && version.Some?)
            && (isApply && o.requested.Some? ==> o.requested.value == version.value)
            && (!isApply && o.requested.Some? ==>
                  o.requested.value == LatestCompatVersion(sem, o.repo.value, version.value) &&
                  (o.cloneUrl.None? ==> o.fetched))
            && (o.stage == Synced ==>
                  o.requested.Some? && o.revision.Some? && o.revision == RevisionObject(o.repo.value, o.requested.value, true) &&
                  (o.revision.value.1 == o.requested.value ||
                   GetLatestCommit(o.repo.value) == Some(o.revision.value.1)))
  {
    var raw := AsStr(Get(package, IMPORT_KEY));
    if raw.Some? {
      var pkgImport := StripUrlScheme(raw.value);
      var path := VendorPath(pkgImport);
      if !(shouldClean && path in dirs && !env.removeOk) {
        var cleaned := if shouldClean && path in dirs then RemoveDirAll(dirs, path) else dirs;
        assert Sync(package, shouldClean, isApply, dirs, sem, rewrite, env)
            == Acquire(package, pkgImport, path, shouldClean, isApply, cleaned, sem, rewrite, env);
        AcquireResolves(package, pkgImport, path, shouldClean, isApply, cleaned, sem, rewrite, env);
      } else {
        assert Sync(package, shouldClean, isApply, dirs, sem, rewrite, env)
            == SyncOutcome(RemoveFailed, dirs, None, false, [], None, None, None, package);
      }
    } else {
      assert Sync(package, shouldClean, isApply, dirs, sem, rewrite, env)
          == SyncOutcome(NoImport, dirs, None, false, [], None, None, None, package);
    }
  }

  /**
   * The package `update_package` sends back as the code stands: `version` is
   * overwritten as soon as the revision is found, before HEAD is detached and
   * the tree reset, so a failure of either still sends the new label.
   */
  function SentAsWritten(package: Json, shouldClean: bool, isApply: bool, dirs: set<Path>, sem: Semver,
                         rewrite: string -> string, env: SyncEnv): (r: Json)
    ensures var o := Sync(package, shouldClean, isApply, dirs, sem, rewrite, env);
            o.stage != DetachFailed && o.stage != ResetFailed ==> r == o.sent
  {
    SyncSent(package, shouldClean, isApply, dirs, sem, rewrite, env);
    var o := Sync(package, shouldClean, isApply, dirs, sem, rewrite, env);
    if o.revision.Some? then Set(package, VERSION_KEY, Str(o.revision.value.1)) else package
  }

  /** A checkout whose HEAD is at commit `c0ffee` and where nothing else resolves. */
  function DetachedAtCommit(): Repo {
    Repo(Resolved(Some("c0ffee"), OtherRef), Some([]), Some([]),
         s => if s == "c0ffee" then Some("c0ffee") else None)
  }

  /**
   * The package `x` at `v1`, already checked out, updated as `update` runs it
   * (not in apply mode, fetch succeeding): no tag satisfies `v1` as a rule and
   * `v1` does not resolve, HEAD's commit does, and detaching HEAD fails. The
   * code sends the package with `version` changed to the commit although
   * nothing was checked out; the intended behaviour sends the package unchanged.
   */
  lemma SentAsWrittenDetachFailure()
    ensures var package := Obj(map[IMPORT_KEY := Str("x"), VERSION_KEY := Str("v1")]);
            var env := SyncEnv(true, None, Some(DetachedAtCommit()), Fetched, None, false, true);
            var sem := Semver(s => false, (a, b) => false, s => s, s => false, (a, b) => false);
            var o := Sync(package, false, false, {VendorPath("x")}, sem, s => s, env);
            && o.stage == DetachFailed
            && o.fetched
            && o.sent == package
            && SentAsWritten(package, false, false, {VendorPath("x")}, sem, s => s, env)
               == Obj(map[IMPORT_KEY := Str("x"), VERSION_KEY := Str("c0ffee")])
            && SentAsWritten(package, false, false, {VendorPath("x")}, sem, s => s, env) != package
  {
    var package := Obj(map[IMPORT_KEY := Str("x"), VERSION_KEY := Str("v1")]);
    var sem := Semver(s => false, (a, b) => false, s => s, s => false, (a, b) => false);
    VendorPathOne("x");
    assert StripUrlScheme("x") == "x";
    assert Get(package, VERSION_KEY) == Str("v1");
    assert LatestCompatVersion(sem, DetachedAtCommit(), "v1") == "v1";
    assert RevisionObject(DetachedAtCommit(), "v1", true) == Some(("c0ffee", "c0ffee"));
    assert package.fields[VERSION_KEY] == Str("v1");
  }

  /** `order` lists every index below `n` exactly once: the order in which the worker threads report back. */
  predicate IsArrivalOrder(order: seq<nat>, n: nat) {
    && (forall k :: 0 <= k < |order| ==> order[k] < n)
    && multiset(order) == multiset(seq(n, i requires 0 <= i => i as nat))
  }

  /** The packages sent back, in arrival order, and the vendor tree after all runs. */
  datatype Runs = Runs(sents: seq<Json>, dirs: set<Path>)

  /** The runs of `update_package` for `items`, one after another in arrival order. */
  function RunAll(items: seq<Json>, order: seq<nat>, shouldClean: bool, isApply: bool, dirs: set<Path>,
                  sem: Semver, rewrite: string -> string, envs: seq<SyncEnv>): (r: Runs)
    requires |envs| == |items|
    requires forall k :: 0 <= k < |order| ==> order[k] < |items|
    ensures |r.sents| == |order|
    decreases |order|
  {
    if order == [] then Runs([], dirs)
    else
      var before := RunAll(items, order[..|order| - 1], shouldClean, isApply, dirs, sem, rewrite, envs);
      var i := order[|order| - 1];
      var o := Sync(items[i], shouldClean, isApply, before.dirs, sem, rewrite, envs[i]);
      Runs(before.sents + [o.sent], o.dirs)
  }

  /** `a` and `b` agree on every key except `version`. */
  ghost predicate SameButVersion(a: Json, b: Json) {
    forall k :: k != VERSION_KEY ==> Get(a, k) == Get(b, k)
  }

  /** The k-th package to come back is the `order[k]`-th package, with at most its `version` changed. */
  lemma {:induction false} RunAllSent(items: seq<Json>, order: seq<nat>, shouldClean: bool, isApply: bool,
                                      dirs: set<Path>, sem: Semver, rewrite: string -> string, envs: seq<SyncEnv>)
    requires |envs| == |items|
    requires forall k :: 0 <= k < |order| ==> order[k] < |items|
    ensures var r := RunAll(items, order, shouldClean, isApply, dirs, sem, rewrite, envs);
            forall k :: 0 <= k < |order| ==> SameButVersion(r.sents[k], items[order[k]])
    decreases |order|
  {
    if order != [] {
      var init := order[..|order| - 1];
      RunAllSent(items, init, shouldClean, isApply, dirs, sem, rewrite, envs);
      var before := RunAll(items, init, shouldClean, isApply, dirs, sem, rewrite, envs);
      var i := order[|order| - 1];
      SyncSent(items[i], shouldClean, isApply, before.dirs, sem, rewrite, envs[i]);
      var r := RunAll(items, order, shouldClean, isApply, dirs, sem, rewrite, envs);
      forall k | 0 <= k < |order|
        ensures SameButVersion(r.sents[k], items[order[k]])
      {
        if k < |order| - 1 {
          assert r.sents[k] == before.sents[k] && order[k] == init[k];
        }
      }
    }
  }

  /** The packages among `sents` that carry a string `import`, in order. */
  function Reported(sents: seq<Json>): (r: seq<Json>)
    ensures forall p :: p in r <==> p in sents && AsStr(Get(p, IMPORT_KEY)).Some?
    decreases |sents|
  {
    if sents == [] then []
    else
      var last := sents[|sents| - 1];
      assert sents == sents[..|sents| - 1] + [last];
      Reported(sents[..|sents| - 1]) + (if AsStr(Get(last, IMPORT_KEY)).Some? then [last] else [])
  }

  /**
   * `install_git_packages`: runs `update_package` for every entry of
   * `packages` and gathers what comes back in arrival order; entries without a
   * string `import` are dropped, and in apply mode nothing is gathered.
   */
  method InstallGitPackages(packages: Json, shouldClean: bool, isApply: bool, dirs: set<Path>, sem: Semver,
                            rewrite: string -> string, envs: seq<SyncEnv>, order: seq<nat>)
    returns (gitPackages: Json, newDirs: set<Path>)
    requires |envs| == Len(packages)
    requires IsArrivalOrder(order, Len(packages))
    ensures var runs := RunAll(Items(packages), order, shouldClean, isApply, dirs, sem, rewrite, envs);
            gitPackages == Arr(if isApply then [] else Reported(runs.sents)) && newDirs == runs.dirs
  {
    gitPackages := Arr([]);
    newDirs := dirs;
    if packages.Null? || Len(packages) == 0 {
      assert |order| == |multiset(order)| == 0;
      return;
    }
    var sents;
    sents, newDirs := RunInArrivalOrder(Items(packages), order, shouldClean, isApply, dirs, sem, rewrite, envs);
    gitPackages := Gather(sents, isApply);
  }

  /** The worker threads of `install_git_packages`, taken in the order they report back. */
  method RunInArrivalOrder(items: seq<Json>, order: seq<nat>, shouldClean: bool, isApply: bool, dirs: set<Path>,
                           sem: Semver, rewrite: string -> string, envs: seq<SyncEnv>)
    returns (sents: seq<Json>, newDirs: set<Path>)
    requires |envs| == |items|
    requires forall k :: 0 <= k < |order| ==> order[k] < |items|
    ensures RunAll(items, order, shouldClean, isApply, dirs, sem, rewrite, envs) == Runs(sents, newDirs)
  {
    sents := [];
    newDirs := dirs;
    for k := 0 to |order|
      invariant RunAll(items, order[..k], shouldClean, isApply, dirs, sem, rewrite, envs) == Runs(sents, newDirs)
    {
      assert order[..k + 1][..k] == order[..k];
      var sent;
      sent, newDirs := UpdatePackage(items[order[k]], shouldClean, isApply, newDirs, sem, rewrite, envs[order[k]]);
      sents := sents + [sent];
    }
    assert order[..|order|] == order;
  }

  /** The receiving loop of `install_git_packages`. */
  method Gather(sents: seq<Json>, isApply: bool) returns (gitPackages: Json)
    ensures gitPackages == Arr(if isApply then [] else Reported(sents))
  {
    gitPackages := Arr([]);
    for k := 0 to |sents|
      invariant gitPackages == Arr(if isApply then [] else Reported(sents[..k]))
    {
      assert sents[..k + 1][..k] == sents[..k];
      var pkg := sents[k];
      if AsStr(Get(pkg, IMPORT_KEY)).None? {
        continue;
      }
      if !isApply {
        gitPackages := Push(gitPackages, pkg);
      }
    }
    assert sents[..|sents|] == sents;
  }

  /**
   * Outside apply mode, every package with a string `import` comes back exactly
   * as given except for `version`, and everything that comes back is such a package.
   */
  lemma {:induction false} GitPackagesReported(packages: Json, shouldClean: bool, dirs: set<Path>, sem: Semver,
                                               rewrite: string -> string, envs: seq<SyncEnv>, order: seq<nat>)
    requires |envs| == Len(packages)
    requires IsArrivalOrder(order, Len(packages))
    ensures var runs := RunAll(Items(packages), order, shouldClean, false, dirs, sem, rewrite, envs);
            var got := Reported(runs.sents);
            && (forall i :: 0 <= i < Len(packages) && AsStr(Get(Items(packages)[i], IMPORT_KEY)).Some? ==>
                  exists p :: p in got && SameButVersion(p, Items(packages)[i]))
            && (forall p :: p in got ==> exists i :: 0 <= i < Len(packages) && SameButVersion(p, Items(packages)[i]))
  {
    var items := Items(packages);
    var runs := RunAll(items, order, shouldClean, false, dirs, sem, rewrite, envs);
    RunAllSent(items, order, shouldClean, false, dirs, sem, rewrite, envs);
    var indices := seq(Len(packages), i requires 0 <= i => i as nat);
    forall i | 0 <= i < Len(packages) && AsStr(Get(items[i], IMPORT_KEY)).Some?
      ensures exists p :: p in Reported(runs.sents) && SameButVersion(p, items[i])
    {
      assert indices[i] == i;
      assert i in multiset(order);
      var k :| 0 <= k < |order| && order[k] == i;
      assert Get(runs.sents[k], IMPORT_KEY) == Get(items[i], IMPORT_KEY);
      assert runs.sents[k] in Reported(runs.sents);
    }
    forall p | p in Reported(runs.sents)
      ensures exists i :: 0 <= i < Len(packages) && SameButVersion(p, items[i])
    {
      var k :| 0 <= k < |runs.sents| && runs.sents[k] == p;
      assert SameButVersion(p, items[order[k]]);
    }
  }
}
