/**
 * The version resolver: reading HEAD and the current branch of a repository,
 * picking the greatest tag that satisfies a semantic-version rule, and turning
 * a version string into a revision with one fall-back to the HEAD commit.
 *
 * The repository (git2) and the `semver` crate are oracles: a `Repo` value
 * says what each git2 query answers, and a `Semver` value says which strings
 * parse, how parsed versions compare and which rules they match.
 */
module GitHelper {
  import opened Wrappers
  import opened Text

  /**
   * The `semver` crate, over version strings: `parses(s)` is `Version::parse(s).is_ok()`,
   * `greater(a, b)` is `parse(a) > parse(b)`, `display(s)` is `format!("{}", parse(s))`,
   * `parsesReq(r)` is `VersionReq::parse(r).is_ok()` and `matches(r, s)` is
   * `parse_req(r).matches(&parse(s))`.
   */
  datatype Semver = Semver(
    parses: string -> bool,
    greater: (string, string) -> bool,
    display: string -> string,
    parsesReq: string -> bool,
    matches: (string, string) -> bool)

  /** Semantic-version precedence is a strict weak order (equal precedence need not mean equal strings). */
  ghost predicate StrictWeakOrder(gt: (string, string) -> bool) {
    && (forall a :: !gt(a, a))
    && (forall a, b, c :: gt(a, b) && gt(b, c) ==> gt(a, c))
    && (forall a, b, c :: gt(a, b) ==> gt(a, c) || gt(c, b))
  }

  /** The kind of reference HEAD resolves to, with the name git2 reports for it (None when unavailable). */
  datatype RefKind = TagRef(tagName: Option<string>) | BranchRef(shorthand: Option<string>) | OtherRef

  /** `repo.head()` fails, `resolve()` fails, or HEAD resolves to a reference with an optional target id. */
  datatype Head = HeadError | ResolveError | Resolved(target: Option<string>, kind: RefKind)

  /** A local branch as listed by `repo.branches(Local)`; `name` is None when `name()` fails or is not UTF-8. */
  datatype Branch = Branch(isHead: bool, name: Option<string>)

  /**
   * A repository as git2 answers about it: HEAD, `tag_names` (None on error; an
   * entry is None when the name is not UTF-8), the local branches (None on error;
   * an entry is None when iteration yields an error) and `revparse_single`
   * (the object id a revision string resolves to).
   */
  datatype Repo = Repo(
    head: Head,
    tagNames: Option<seq<Option<string>>>,
    localBranches: Option<seq<Option<Branch>>>,
    revparse: string -> Option<string>)

  /** `get_latest_commit`: the id HEAD resolves to. */
  function GetLatestCommit(repo: Repo): (r: Option<string>)
    ensures r.Some? <==> repo.head.Resolved? && repo.head.target.Some?
    ensures r.Some? ==> r.value == repo.head.target.value
  {
    match repo.head
    case Resolved(target, _) => target
    case _ => None
  }

  predicate IsHeadEntry(e: Option<Branch>) {
    e.Some? && e.value.isHead
  }

  /** The position of the first listed branch that is HEAD. */
  function FirstHead(bs: seq<Option<Branch>>): (r: Option<nat>)
    ensures r.Some? ==> r.value < |bs| && IsHeadEntry(bs[r.value])
    ensures r.Some? ==> forall j :: 0 <= j < r.value ==> !IsHeadEntry(bs[j])
    ensures r.None? <==> forall j :: 0 <= j < |bs| ==> !IsHeadEntry(bs[j])
    decreases |bs|
  {
    if bs == [] then None
    else if IsHeadEntry(bs[0]) then Some(0)
    else
      match FirstHead(bs[1..])
      case None => None
      case Some(k) => Some(k + 1)
  }

  /** What `get_current_branch` answers: the name of the first local branch that is HEAD. */
  function CurrentBranchOf(repo: Repo): Option<string> {
    match repo.localBranches
    case None => None
    case Some(bs) =>
      match FirstHead(bs)
      case None => None
      case Some(i) => bs[i].value.name
  }

  /** `get_current_branch`: scans the local branches and returns at the first one that is HEAD. */
  method CurrentBranch(repo: Repo) returns (r: Option<string>)
    ensures r == CurrentBranchOf(repo)
    ensures r.Some? ==> exists i :: 0 <= i < |repo.localBranches.value| && repo.localBranches.value[i] == Some(Branch(true, r))
  {
    if repo.localBranches.None? {
      return None;
    }
    var bs := repo.localBranches.value;
    for i := 0 to |bs|
      invariant forall j :: 0 <= j < i ==> !IsHeadEntry(bs[j])
    {
      if bs[i].None? {
        continue;
      }
      var branch := bs[i].value;
      if branch.isHead {
        assert bs[i] == Some(Branch(true, branch.name));
        return branch.name;
      }
    }
    return None;
  }

  /** How many decimal digits `s` starts with. */
  function DigitCount(s: string): (n: nat)
    ensures n <= |s|
    ensures n == |s| || !IsDigit(s[n])
    decreases |s|
  {
    if s != [] && IsDigit(s[0]) then 1 + DigitCount(s[1..]) else 0
  }

  function SkipDot(s: string): string {
    if s != [] && s[0] == '.' then s[1..] else s
  }

  /** How much of `s` the pattern `.*` takes: everything before the first line break. */
  function LineLength(s: string): (n: nat)
    ensures n <= |s| && '\n' !in s[..n]
    ensures n == |s| || s[n] == '\n'
    decreases |s|
  {
    if s == [] || s[0] == '\n' then 0
    else
      var n := 1 + LineLength(s[1..]);
      assert s[..n] == [s[0]] + s[1..][..n - 1];
      n
  }

  function OrZero(digits: string): string {
    if digits == [] then "0" else digits
  }

  /** The patch number, or `0` when empty, followed by the suffix up to the first line break. */
  function PatchAndSuffix(c: string): string {
    var p := DigitCount(c);
    OrZero(c[..p]) + c[p..][..LineLength(c[p..])]
  }

  /** The minor number, or `0` when empty, then an optional dot and the patch part. */
  function MinorAndRest(b: string): string {
    var m := DigitCount(b);
    OrZero(b[..m]) + ("." + PatchAndSuffix(SkipDot(b[m..])))
  }

  /** The tag with its optional leading `v` dropped, rewritten; None when it does not start with a digit. */
  function RewriteNumbers(a: string): Option<string> {
    var n := DigitCount(a);
    if n == 0 then None else Some(a[..n] + ("." + MinorAndRest(SkipDot(a[n..]))))
  }

  /**
   * A tag name matched against `^v?([0-9]+)[.]?([0-9]*)[.]?([0-9]*)([-]?.*)` and
   * reformatted as `major.minor.patch` followed by the rest, with an empty minor or
   * patch written `0`. None when the pattern does not match.
   */
  function RewriteTag(tag: string): Option<string> {
    RewriteNumbers(if tag != [] && tag[0] == 'v' then tag[1..] else tag)
  }

  /** A tag is rewritten exactly when, after an optional leading `v`, it starts with a digit. */
  lemma RewriteTagAccepts(tag: string)
    ensures RewriteTag(tag).Some? <==>
              (tag != [] && IsDigit(tag[0])) || (|tag| >= 2 && tag[0] == 'v' && IsDigit(tag[1]))
  {
  }

  lemma {:induction false} DigitCountConcat(d: string, rest: string)
    requires AllDigits(d)
    requires rest == [] || !IsDigit(rest[0])
    ensures DigitCount(d + rest) == |d|
    decreases |d|
  {
    if d != [] {
      assert (d + rest)[1..] == d[1..] + rest;
      DigitCountConcat(d[1..], rest);
    } else {
      assert d + rest == rest;
    }
  }

  lemma {:induction false} LineLengthWhole(s: string)
    requires '\n' !in s
    ensures LineLength(s) == |s|
    decreases |s|
  {
    if s != [] {
      LineLengthWhole(s[1..]);
    }
  }

  /** A run of digits followed by a non-digit splits off exactly. */
  lemma DigitPrefix(d: string, rest: string)
    requires AllDigits(d)
    requires rest == [] || !IsDigit(rest[0])
    ensures DigitCount(d + rest) == |d|
    ensures (d + rest)[..|d|] == d && (d + rest)[|d|..] == rest
  {
    DigitCountConcat(d, rest);
  }

  lemma PatchAndSuffixOf(patch: string, suffix: string)
    requires AllDigits(patch)
    requires suffix == [] || !IsDigit(suffix[0])
    requires '\n' !in suffix
    ensures PatchAndSuffix(patch + suffix) == OrZero(patch) + suffix
  {
    DigitPrefix(patch, suffix);
    LineLengthWhole(suffix);
  }

  lemma MinorAndRestOf(minor: string, patch: string, suffix: string)
    requires AllDigits(minor) && AllDigits(patch) && minor != []
    requires suffix == [] || !IsDigit(suffix[0])
    requires '\n' !in suffix
    ensures MinorAndRest(minor + ("." + (patch + suffix))) == minor + ("." + (OrZero(patch) + suffix))
  {
    DigitPrefix(minor, "." + (patch + suffix));
    PatchAndSuffixOf(patch, suffix);
  }

  /** Dropping the optional leading `v` leaves the text after it. */
  lemma DropV(withV: bool, a: string)
    requires a != [] && IsDigit(a[0])
    ensures var tag := (if withV then "v" else "") + a;
            (if tag != [] && tag[0] == 'v' then tag[1..] else tag) == a
  {
  }

  /** A full `[v]major.minor.patch` tag keeps its three numbers and its suffix verbatim. */
  lemma RewriteFullTag(withV: bool, major: string, minor: string, patch: string, suffix: string)
    requires major != [] && minor != [] && patch != []
    requires AllDigits(major) && AllDigits(minor) && AllDigits(patch)
    requires suffix == [] || !IsDigit(suffix[0])
    requires '\n' !in suffix
    ensures var version := major + ("." + (minor + ("." + (patch + suffix))));
            RewriteTag((if withV then "v" else "") + version) == Some(version)
  {
    var rest := minor + ("." + (patch + suffix));
    DropV(withV, major + ("." + rest));
    DigitPrefix(major, "." + rest);
    MinorAndRestOf(minor, patch, suffix);
  }

  /** Neither minor nor patch present: both become `0`. */
  lemma MinorAndRestEmpty(suffix: string)
    requires suffix == [] || (!IsDigit(suffix[0]) && suffix[0] != '.')
    requires '\n' !in suffix
    ensures MinorAndRest(suffix) == ".0.0"[1..] + suffix
  {
    DigitPrefix([], suffix);
    PatchAndSuffixOf([], suffix);
    assert "0" + ("." + ("0" + suffix)) == ".0.0"[1..] + suffix;
  }

  /** A tag with only a major number gets `.0.0` and keeps the rest (a `-` suffix included). */
  lemma RewriteMajorOnly(withV: bool, major: string, suffix: string)
    requires major != [] && AllDigits(major)
    requires suffix == [] || (!IsDigit(suffix[0]) && suffix[0] != '.')
    requires '\n' !in suffix
    ensures RewriteTag((if withV then "v" else "") + (major + suffix)) == Some(major + (".0.0" + suffix))
  {
    var tag, a := (if withV then "v" else "") + (major + suffix), major + suffix;
    DropV(withV, a);
    assert RewriteTag(tag) == RewriteNumbers(a);
    DigitPrefix(major, suffix);
    assert SkipDot(a[|major|..]) == suffix;
    assert RewriteNumbers(a) == Some(major + ("." + MinorAndRest(suffix)));
    MinorAndRestEmpty(suffix);
    var zeros := ".0.0"[1..];
    assert ".0.0" == "." + zeros;
    assert "." + (zeros + suffix) == ("." + zeros) + suffix;
  }

  /** The tag as `(name, version string)` when it is rewritable, parses and satisfies the rule. */
  function Candidate(sem: Semver, tag: Option<string>, rule: Option<string>): (r: Option<(string, string)>)
    ensures r.Some? <==> tag.Some? && RewriteTag(tag.value).Some? && sem.parses(RewriteTag(tag.value).value)
                         && (rule.None? || sem.matches(rule.value, RewriteTag(tag.value).value))
    ensures r.Some? ==> tag == Some(r.value.0) && RewriteTag(r.value.0) == Some(r.value.1)
  {
    match tag
    case None => None
    case Some(name) =>
      match RewriteTag(name)
      case None => None
      case Some(vs) =>
        if sem.parses(vs) && (rule.None? || sem.matches(rule.value, vs)) then Some((name, vs)) else None
  }

  /** For each listed tag, its `(name, version)` when it qualifies. */
  function Candidates(sem: Semver, tags: seq<Option<string>>, rule: Option<string>): (cs: seq<Option<(string, string)>>)
    ensures |cs| == |tags|
    ensures forall i :: 0 <= i < |tags| ==> cs[i] == Candidate(sem, tags[i], rule)
  {
    seq(|tags|, i requires 0 <= i < |tags| => Candidate(sem, tags[i], rule))
  }

  /**
   * The position the selection loop ends on: a later candidate replaces the
   * selection only when its version is strictly greater.
   */
  function SelectIndex(gt: (string, string) -> bool, cs: seq<Option<(string, string)>>): (r: Option<nat>)
    ensures r.Some? ==> r.value < |cs| && cs[r.value].Some?
    ensures r.None? <==> forall i :: 0 <= i < |cs| ==> cs[i].None?
    decreases |cs|
  {
    if cs == [] then None
    else
      var n := |cs| - 1;
      var prev := SelectIndex(gt, cs[..n]);
      assert forall i :: 0 <= i < n ==> cs[..n][i] == cs[i];
      if cs[n].Some? && (prev.None? || gt(cs[n].value.1, cs[prev.value].value.1)) then Some(n) else prev
  }

  function Select(gt: (string, string) -> bool, cs: seq<Option<(string, string)>>): Option<(string, string)> {
    match SelectIndex(gt, cs)
    case None => None
    case Some(k) => cs[k]
  }

  /** One more candidate: the selection moves to it exactly when it is present and strictly greater. */
  lemma SelectSnoc(gt: (string, string) -> bool, cs: seq<Option<(string, string)>>, i: nat)
    requires i < |cs|
    ensures var prev := Select(gt, cs[..i]);
            Select(gt, cs[..i + 1]) ==
              if cs[i].Some? && (prev.None? || gt(cs[i].value.1, prev.value.1)) then cs[i] else prev
  {
    var s := cs[..i + 1];
    assert s[..i] == cs[..i];
    var k := SelectIndex(gt, cs[..i]);
    if k.Some? {
      assert s[k.value] == cs[..i][k.value];
    }
  }

  /** No present candidate has a greater version than the selected one. */
  lemma {:induction false} SelectIsGreatest(gt: (string, string) -> bool, cs: seq<Option<(string, string)>>, j: nat)
    requires StrictWeakOrder(gt)
    requires j < |cs| && cs[j].Some?
    ensures SelectIndex(gt, cs).Some?
    ensures !gt(cs[j].value.1, cs[SelectIndex(gt, cs).value].value.1)
    decreases |cs|
  {
    var n := |cs| - 1;
    var pre := cs[..n];
    var k := SelectIndex(gt, cs).value;
    if j < n {
      assert pre[j] == cs[j];
      SelectIsGreatest(gt, pre, j);
      var p := SelectIndex(gt, pre).value;
      assert pre[p] == cs[p];
    } else if k != n {
      assert pre[k] == cs[k];
    }
  }

  /** A present candidate before the selected one has a strictly smaller version: ties keep the first. */
  lemma {:induction false} SelectIsEarliest(gt: (string, string) -> bool, cs: seq<Option<(string, string)>>, j: nat)
    requires StrictWeakOrder(gt)
    requires SelectIndex(gt, cs).Some? && j < SelectIndex(gt, cs).value && cs[j].Some?
    ensures gt(cs[SelectIndex(gt, cs).value].value.1, cs[j].value.1)
    decreases |cs|
  {
    var n := |cs| - 1;
    var pre := cs[..n];
    var prev := SelectIndex(gt, pre);
    var k := SelectIndex(gt, cs).value;
    assert pre[j] == cs[j];
    if k == n {
      assert prev.Some?;
      var p := prev.value;
      assert pre[p] == cs[p];
      SelectIsGreatest(gt, pre, j);
      assert gt(cs[n].value.1, cs[p].value.1);
      assert !gt(cs[j].value.1, cs[p].value.1);
    } else {
      assert pre[k] == cs[k];
      SelectIsEarliest(gt, pre, j);
    }
  }

  /** What `get_latest_version` answers: the selection among the qualifying tags. */
  function LatestVersionOf(sem: Semver, repo: Repo, rule: Option<string>): (r: Option<(string, string)>)
    ensures r.None? <==>
              (repo.tagNames.None? ||
               forall i :: 0 <= i < |repo.tagNames.value| ==> Candidate(sem, repo.tagNames.value[i], rule).None?)
    ensures r.Some? ==>
              exists i :: 0 <= i < |repo.tagNames.value| && repo.tagNames.value[i] == Some(r.value.0) &&
                Candidate(sem, repo.tagNames.value[i], rule) == r
  {
    match repo.tagNames
    case None => None
    case Some(tags) =>
      var cs := Candidates(sem, tags, rule);
      var k := SelectIndex(sem.greater, cs);
      assert k.Some? ==> tags[k.value] == Some(cs[k.value].value.0);
      Select(sem.greater, cs)
  }

  /**
   * `get_latest_version`: returns the first of the greatest tags whose rewritten
   * version parses and satisfies `rule` (any tag when there is no rule), or None.
   */
  method LatestVersion(sem: Semver, repo: Repo, rule: Option<string>) returns (version: Option<(string, string)>)
    ensures version == LatestVersionOf(sem, repo, rule)
  {
    version := None;
    if repo.tagNames.None? {
      return;
    }
    var tags := repo.tagNames.value;
    ghost var cs := Candidates(sem, tags, rule);
    var selected: Option<string> := None;
    for i := 0 to |tags|
      invariant version == Select(sem.greater, cs[..i])
      invariant selected == if version.Some? then Some(version.value.1) else None
    {
      SelectSnoc(sem.greater, cs, i);
      if tags[i].None? {
        continue;
      }
      var tagName := tags[i].value;
      var rewritten := RewriteTag(tagName);
      if rewritten.None? {
        continue;
      }
      var tagVersion := rewritten.value;
      if !sem.parses(tagVersion) {
        continue;
      }
      if (rule.None? || sem.matches(rule.value, tagVersion)) && (selected.None? || sem.greater(tagVersion, selected.value)) {
        version := Some((tagName, tagVersion));
        selected := Some(tagVersion);
      }
    }
    assert cs[..|tags|] == cs;
  }

  /**
   * Under semantic-version precedence, the selected tag is a greatest qualifying
   * tag, and every qualifying tag listed before it is strictly smaller.
   */
  lemma LatestVersionIsFirstGreatest(sem: Semver, repo: Repo, rule: Option<string>)
    requires StrictWeakOrder(sem.greater)
    requires LatestVersionOf(sem, repo, rule).Some?
    ensures var tags := repo.tagNames.value;
            var r := LatestVersionOf(sem, repo, rule).value;
            exists k :: 0 <= k < |tags| && Candidate(sem, tags[k], rule) == Some(r) &&
              (forall j :: 0 <= j < |tags| && Candidate(sem, tags[j], rule).Some? ==>
                 !sem.greater(Candidate(sem, tags[j], rule).value.1, r.1)) &&
              (forall j :: 0 <= j < k && Candidate(sem, tags[j], rule).Some? ==>
                 sem.greater(r.1, Candidate(sem, tags[j], rule).value.1))
  {
    var tags := repo.tagNames.value;
    var cs := Candidates(sem, tags, rule);
    var k := SelectIndex(sem.greater, cs).value;
    forall j | 0 <= j < |tags| && Candidate(sem, tags[j], rule).Some?
      ensures !sem.greater(Candidate(sem, tags[j], rule).value.1, cs[k].value.1)
    {
      SelectIsGreatest(sem.greater, cs, j);
    }
    forall j | 0 <= j < k && Candidate(sem, tags[j], rule).Some?
      ensures sem.greater(cs[k].value.1, Candidate(sem, tags[j], rule).value.1)
    {
      SelectIsEarliest(sem.greater, cs, j);
    }
  }

  /**
   * `get_latest_compat_version`: the name of the best tag matching the rule, or
   * the input itself when it is not a version requirement or no tag matches.
   */
  function LatestCompatVersion(sem: Semver, repo: Repo, ruleTagName: string): (r: string)
    ensures !sem.parsesReq(ruleTagName) ==> r == ruleTagName
    ensures sem.parsesReq(ruleTagName) && LatestVersionOf(sem, repo, Some(ruleTagName)).None? ==> r == ruleTagName
    ensures sem.parsesReq(ruleTagName) && LatestVersionOf(sem, repo, Some(ruleTagName)).Some? ==>
              Some(r) in repo.tagNames.value && Candidate(sem, Some(r), Some(ruleTagName)).Some? &&
              r == LatestVersionOf(sem, repo, Some(ruleTagName)).value.0
  {
    if !sem.parsesReq(ruleTagName) then ruleTagName
    else
      match LatestVersionOf(sem, repo, Some(ruleTagName))
      case Some((tagName, _)) => tagName
      case None => ruleTagName
  }

  /**
   * Under semantic-version precedence, the tag `get_latest_compat_version`
   * picks for a requirement has a version no matching tag exceeds.
   */
  lemma LatestCompatIsGreatest(sem: Semver, repo: Repo, ruleTagName: string)
    requires StrictWeakOrder(sem.greater)
    requires sem.parsesReq(ruleTagName) && LatestVersionOf(sem, repo, Some(ruleTagName)).Some?
    ensures var r := LatestCompatVersion(sem, repo, ruleTagName);
            var tags := repo.tagNames.value;
            var picked := Candidate(sem, Some(r), Some(ruleTagName));
            && picked.Some?
            && forall j :: 0 <= j < |tags| && Candidate(sem, tags[j], Some(ruleTagName)).Some? ==>
                 !sem.greater(Candidate(sem, tags[j], Some(ruleTagName)).value.1, picked.value.1)
  {
    LatestVersionIsFirstGreatest(sem, repo, Some(ruleTagName));
    var tags := repo.tagNames.value;
    var best := LatestVersionOf(sem, repo, Some(ruleTagName)).value;
    var k :| 0 <= k < |tags| && Candidate(sem, tags[k], Some(ruleTagName)) == Some(best) &&
             (forall j :: 0 <= j < |tags| && Candidate(sem, tags[j], Some(ruleTagName)).Some? ==>
                !sem.greater(Candidate(sem, tags[j], Some(ruleTagName)).value.1, best.1));
    assert tags[k] == Some(best.0);
  }

  /**
   * `get_revision_object`: resolves `version`; if that fails and a retry is
   * allowed, resolves the HEAD commit instead, once. Gives the object id and the
   * label that was resolved.
   */
  function RevisionObject(repo: Repo, version: string, shouldRetry: bool): (r: Option<(string, string)>)
    ensures repo.revparse(version).Some? ==> r == Some((repo.revparse(version).value, version))
    ensures r.Some? && r.value.1 != version ==>
              shouldRetry && repo.revparse(version).None? && GetLatestCommit(repo) == Some(r.value.1)
    ensures r.Some? ==> repo.revparse(r.value.1) == Some(r.value.0)
    ensures r.None? <==>
              (repo.revparse(version).None? &&
               (!shouldRetry || GetLatestCommit(repo).None? || repo.revparse(GetLatestCommit(repo).value).None?))
    decreases shouldRetry
  {
    match repo.revparse(version)
    case Some(obj) => Some((obj, version))
    case None =>
      if !shouldRetry then None
      else
        match GetLatestCommit(repo)
        case Some(commit) => RevisionObject(repo, commit, false)
        case None => None
  }
}
