/**
 * The vendor tree as a set of directory paths. A path is the sequence of
 * components pushed onto a `PathBuf`. `create_dir_all` adds the path and every
 * directory above it; `remove_dir_all` removes the path and everything below it.
 */
module Fs {

  type Path = seq<string>

  /** vendor.rs's `VENDOR_DIR`, the root of the vendor tree. */
  const VENDOR_DIR: string := "vendor"

  predicate IsBelow(root: Path, p: Path) {
    |root| <= |p| && p[..|root|] == root
  }

  /** A directory tree as a file system holds one: every directory's parents are there too. */
  predicate PrefixClosed(dirs: set<Path>) {
    forall q, k :: q in dirs && 1 <= k < |q| ==> q[..k] in dirs
  }

  /** In such a tree nothing lies below a directory that is not there. */
  lemma PrefixClosedAbsent(dirs: set<Path>, p: Path)
    requires PrefixClosed(dirs) && p != [] && p !in dirs
    ensures forall q :: q in dirs ==> !IsBelow(p, q)
  {
    forall q | q in dirs && |p| <= |q|
      ensures q[..|p|] in dirs
    {
      if |p| == |q| {
        assert q[..|p|] == q;
      }
    }
  }

  /** The directories on the way to `p`, `p` included. */
  function Prefixes(p: Path): (r: set<Path>)
    ensures forall q :: q in r <==> q != [] && IsBelow(q, p)
  {
    var r := set k | 1 <= k <= |p| :: p[..k];
    assert forall q :: q != [] && IsBelow(q, p) ==> q == p[..|q|];
    r
  }

  /** The directories strictly above `p`. */
  function Ancestors(p: Path): (r: set<Path>)
    ensures forall q :: q in r <==> q != [] && IsBelow(q, p) && q != p
  {
    Prefixes(p) - {p}
  }

  /** `create_dir_all`: the path and every missing directory above it are created; nothing else is. */
  function CreateDirAll(dirs: set<Path>, p: Path): (r: set<Path>)
    ensures p != [] ==> p in r
    ensures dirs <= r
    ensures forall q :: q in r <==> q in dirs || (q != [] && IsBelow(q, p))
  {
    dirs + Prefixes(p)
  }

  /** `remove_dir_all`: the path and everything below it go; nothing else does. */
  function RemoveDirAll(dirs: set<Path>, p: Path): (r: set<Path>)
    ensures p !in r && r <= dirs
    ensures forall q :: q in r ==> !IsBelow(p, q)
    ensures forall q :: q in dirs && !IsBelow(p, q) ==> q in r
  {
    set q | q in dirs && !IsBelow(p, q)
  }

  /** Creating and removing directories keep the tree a tree. */
  lemma TreeKept(dirs: set<Path>, p: Path)
    requires PrefixClosed(dirs)
    ensures PrefixClosed(CreateDirAll(dirs, p))
    ensures PrefixClosed(RemoveDirAll(dirs, p))
  {
    var created := CreateDirAll(dirs, p);
    forall q, k | q in created && 1 <= k < |q|
      ensures q[..k] in created
    {
      if q !in dirs {
        assert q[..k] == p[..k];
      }
    }
    var removed := RemoveDirAll(dirs, p);
    forall q, k | q in removed && 1 <= k < |q|
      ensures q[..k] in removed
    {
      BelowPrefix(p, q, k);
    }
  }

  lemma BelowPrefix(p: Path, q: Path, k: nat)
    requires k <= |q|
    ensures IsBelow(p, q[..k]) ==> IsBelow(p, q)
  {
    if |p| <= k {
      assert q[..|p|] == q[..k][..|p|];
    }
  }
}
