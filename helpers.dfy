/**
 * The helpers the package operations share: scheme stripping, import path to
 * vendor path, the yes/no answer, the version menu and the thread-pool width.
 * The console line is a parameter: `None` stands for a failed read.
 */
module Helpers {
  import opened Wrappers
  import opened Text
  import opened Fs
  import opened GitHelper

  predicate StartsWith(s: string, prefix: string) {
    |prefix| <= |s| && s[..|prefix|] == prefix
  }

  /** An `http://` or `https://` begins at position `i`. */
  predicate SchemeAt(s: string, i: nat)
    requires i <= |s|
  {
    StartsWith(s[i..], "http://") || StartsWith(s[i..], "https://")
  }

  /**
   * `strip_url_scheme`: the regex `https?://` replaced by nothing, everywhere.
   * The scan goes left to right and resumes after each removed match.
   */
  function StripUrlScheme(s: string): (r: string)
    ensures |r| <= |s|
    decreases |s|
  {
    if StartsWith(s, "https://") then StripUrlScheme(s[8..])
    else if StartsWith(s, "http://") then StripUrlScheme(s[7..])
    else if s == [] then []
    else [s[0]] + StripUrlScheme(s[1..])
  }

  /** A string with no scheme anywhere comes back unchanged. */
  lemma {:induction false} StripUrlSchemeNoScheme(s: string)
    requires forall i :: 0 <= i <= |s| ==> !SchemeAt(s, i)
    ensures StripUrlScheme(s) == s
    decreases |s|
  {
    assert !SchemeAt(s, 0);
    assert s[0..] == s;
    if s != [] {
      forall i | 0 <= i <= |s[1..]|
        ensures !SchemeAt(s[1..], i)
      {
        assert s[1..][i..] == s[i + 1..];
        assert !SchemeAt(s, i + 1);
      }
      StripUrlSchemeNoScheme(s[1..]);
    }
  }

  lemma StripHttps(s: string)
    ensures StripUrlScheme("https://" + s) == StripUrlScheme(s)
  {
    var t := "https://" + s;
    assert t[..8] == "https://";
    assert t[8..] == s;
  }

  lemma StripHttp(s: string)
    ensures StripUrlScheme("http://" + s) == StripUrlScheme(s)
  {
    var t := "http://" + s;
    assert t[..7] == "http://";
    assert t[7..] == s;
    assert !StartsWith(t, "https://") by {
      assert t[4] == ':';
    }
  }

  /** A leading scheme is removed and the rest kept, when the rest has no scheme of its own. */
  lemma StripUrlSchemeLeading(s: string)
    requires forall i :: 0 <= i <= |s| ==> !SchemeAt(s, i)
    ensures StripUrlScheme("https://" + s) == s
    ensures StripUrlScheme("http://" + s) == s
  {
    StripHttps(s);
    StripHttp(s);
    StripUrlSchemeNoScheme(s);
  }

  /**
   * A scheme in the middle of the string is removed too, and what comes before
   * it is kept as it stands, when no match can begin there.
   */
  lemma StripUrlSchemeInside(a: string, b: string)
    requires 'h' !in a
    ensures StripUrlScheme(a + "https://" + b) == a + StripUrlScheme(b)
    ensures StripUrlScheme(a + "http://" + b) == a + StripUrlScheme(b)
  {
    StripHttps(b);
    StripRemovedInside(a, "https://", b);
    StripHttp(b);
    StripRemovedInside(a, "http://", b);
  }

  lemma StripRemovedInside(a: string, m: string, b: string)
    requires 'h' !in a && StripUrlScheme(m + b) == StripUrlScheme(b)
    ensures StripUrlScheme(a + m + b) == a + StripUrlScheme(b)
  {
    StripPlainPrefix(a, m + b);
    assert a + m + b == a + (m + b);
  }

  /** Characters none of which can begin a scheme are kept, whatever follows them. */
  lemma {:induction false} StripPlainPrefix(a: string, t: string)
    requires 'h' !in a
    ensures StripUrlScheme(a + t) == a + StripUrlScheme(t)
    decreases |a|
  {
    if a == [] {
      assert a + t == t;
    } else {
      var c, rest := a[0], a[1..];
      assert c in a;
      var s := a + t;
      assert s[0] == c && s[1..] == rest + t;
      StripPlainFirst(s);
      StripPlainPrefix(rest, t);
      var x := StripUrlScheme(t);
      assert a == [c] + rest;
      assert [c] + (rest + x) == a + x;
    }
  }

  /** A first character that cannot begin a scheme is kept. */
  lemma StripPlainFirst(t: string)
    requires t != [] && t[0] != 'h'
    ensures StripUrlScheme(t) == [t[0]] + StripUrlScheme(t[1..])
  {
    assert !StartsWith(t, "https://") by {
      if 8 <= |t| {
        assert t[..8][0] == t[0];
      }
    }
    assert !StartsWith(t, "http://") by {
      if 7 <= |t| {
        assert t[..7][0] == t[0];
      }
    }
  }

  /**
   * A segment that adds a directory level when pushed: pushing an empty segment
   * only adds a separator, and `.` names the directory it is pushed onto.
   */
  predicate IsStep(segment: string) {
    segment != "" && segment != "."
  }

  /** The segments that add a directory level, in order. */
  function DirSegments(segments: seq<string>): (r: seq<string>)
    ensures |r| <= |segments|
    decreases |segments|
  {
    if segments == [] then []
    else
      var last := segments[|segments| - 1];
      DirSegments(segments[..|segments| - 1]) + (if IsStep(last) then [last] else [])
  }

  /**
   * The kept segments are exactly the listed ones that add a level, and a list
   * whose every segment adds one is kept whole.
   */
  lemma {:induction false} DirSegmentsFacts(segments: seq<string>)
    ensures var r := DirSegments(segments);
            && (forall k :: 0 <= k < |r| ==> IsStep(r[k]))
            && (forall x :: x in r <==> x in segments && IsStep(x))
            && ((forall k :: 0 <= k < |segments| ==> IsStep(segments[k])) ==> r == segments)
    decreases |segments|
  {
    if segments != [] {
      var init := segments[..|segments| - 1];
      var last := segments[|segments| - 1];
      DirSegmentsFacts(init);
      assert segments == init + [last];
    }
  }

  lemma DirSegmentsSnoc(segments: seq<string>, i: nat)
    requires i < |segments|
    ensures DirSegments(segments[..i + 1]) ==
            DirSegments(segments[..i]) + (if IsStep(segments[i]) then [segments[i]] else [])
  {
    assert segments[..i + 1][..i] == segments[..i];
  }

  /**
   * The directory `get_path_from_url` names: the vendor root followed by the
   * `/`-separated segments of the import that add a directory level, in order.
   * Imports that differ only in empty or `.` segments name the same directory.
   */
  function VendorPath(pkgImport: string): Path {
    [VENDOR_DIR] + DirSegments(Split(pkgImport, '/'))
  }

  /**
   * A vendor path is the vendor root followed by directory levels without `/`;
   * when every segment of the import adds a level, joining them gives the import back.
   */
  lemma VendorPathSegments(pkgImport: string)
    ensures var path := VendorPath(pkgImport);
            && |path| >= 1 && path[0] == VENDOR_DIR
            && (forall k :: 1 <= k < |path| ==> '/' !in path[k] && IsStep(path[k]))
            && ((forall seg :: seg in Split(pkgImport, '/') ==> IsStep(seg)) ==> Join(path[1..], '/') == pkgImport)
  {
    var path := VendorPath(pkgImport);
    var segments := Split(pkgImport, '/');
    DirSegmentsFacts(segments);
    assert path[1..] == DirSegments(segments);
    forall k | 1 <= k < |path|
      ensures '/' !in path[k] && IsStep(path[k])
    {
      assert path[k] == DirSegments(segments)[k - 1];
      assert path[k] in segments;
    }
    if forall seg :: seg in segments ==> IsStep(seg) {
      assert forall k :: 0 <= k < |segments| ==> IsStep(segments[k]) by {
        forall k | 0 <= k < |segments|
          ensures IsStep(segments[k])
        {
          assert segments[k] in segments;
        }
      }
      JoinSplit(pkgImport, '/');
    }
  }

  /**
   * `get_path_from_url`: pushes each `/`-separated segment onto `vendor`; an
   * empty or `.` segment leaves the directory named unchanged.
   */
  method PathFromUrl(pkgImport: string) returns (path: Path)
    ensures |path| >= 1 && path[0] == VENDOR_DIR
    ensures forall k :: 1 <= k < |path| ==> '/' !in path[k] && IsStep(path[k])
    ensures (forall seg :: seg in Split(pkgImport, '/') ==> IsStep(seg)) ==> Join(path[1..], '/') == pkgImport
    ensures path == VendorPath(pkgImport)
  {
    path := [VENDOR_DIR];
    var segments := Split(pkgImport, '/');
    for i := 0 to |segments|
      invariant path == [VENDOR_DIR] + DirSegments(segments[..i])
    {
      DirSegmentsSnoc(segments, i);
      if IsStep(segments[i]) {
        path := path + [segments[i]];
      }
    }
    assert segments[..|segments|] == segments;
    VendorPathSegments(pkgImport);
  }

  /** The answers `confirmation_prompt` takes as yes, after lowercasing and trimming. */
  const YES_ANSWERS: set<string> := {"y", "yes", "yea", "yeah", "yep", "yup"}

  /** `confirmation_prompt`: a failed read is an error; otherwise yes exactly for the listed answers. */
  function ConfirmationPrompt(input: Option<string>): (r: Option<bool>)
    ensures r.None? <==> input.None?
    ensures input.Some? ==> (r.value <==> Trim(ToLower(input.value)) in YES_ANSWERS)
  {
    match input
    case None => None
    case Some(line) => Some(Trim(ToLower(line)) in YES_ANSWERS)
  }

  lemma ToLowerConcat(a: string, b: string)
    ensures ToLower(a + b) == ToLower(a) + ToLower(b)
  {
  }

  lemma ToLowerBlank(s: string)
    requires forall i :: 0 <= i < |s| ==> IsWhitespace(s[i])
    ensures ToLower(s) == s
  {
  }

  /**
   * Case and surrounding white space do not matter: any casing of a yes answer,
   * padded with white space (a line break included), is a yes.
   */
  lemma ConfirmationTolerant(pre: string, answer: string, post: string)
    requires forall i :: 0 <= i < |pre| ==> IsWhitespace(pre[i])
    requires forall i :: 0 <= i < |post| ==> IsWhitespace(post[i])
    requires ToLower(answer) in YES_ANSWERS
    ensures ConfirmationPrompt(Some(pre + answer + post)) == Some(true)
  {
    var w := ToLower(answer);
    ToLowerConcat(pre + answer, post);
    ToLowerConcat(pre, answer);
    ToLowerBlank(pre);
    ToLowerBlank(post);
    assert w != [] && !IsWhitespace(w[0]) && !IsWhitespace(w[|w| - 1]);
    TrimSurrounded(pre, w, post);
  }

  /** Any line that does not lowercase and trim to a listed answer, `no` or an empty line say, is a no. */
  lemma ConfirmationDeclines(line: string)
    requires Trim(ToLower(line)) !in YES_ANSWERS
    ensures ConfirmationPrompt(Some(line)) == Some(false)
  {
  }

  /** A line of the version menu: its title, the version rule it records and the revision it checks out. */
  datatype MenuEntry = MenuEntry(title: string, rule: string, checkout: string)

  /**
   * The three rules on the best tag's version as `semver` displays it (tilde,
   * caret, exact), each checking out that tag.
   */
  function TagEntries(sem: Semver, tagVersion: Option<(string, string)>): seq<MenuEntry> {
    match tagVersion
    case None => []
    case Some((tag, ver)) =>
      [MenuEntry("Tilde (Patch)", "~" + sem.display(ver), tag),
       MenuEntry("Caret (Minor)", "^" + sem.display(ver), tag),
       MenuEntry("Exact (Fixed)", "=" + sem.display(ver), tag)]
  }

  function BranchEntries(branch: Option<string>): seq<MenuEntry> {
    match branch
    case None => []
    case Some(name) => [MenuEntry("Branch (HEAD)", name, name)]
  }

  function CommitEntry(commit: string): MenuEntry {
    MenuEntry("Latest commit", commit, commit)
  }

  /** The version menu: the tag rules, then the current branch, then the latest commit. */
  function Menu(sem: Semver, tagVersion: Option<(string, string)>, branch: Option<string>, commit: string): (m: seq<MenuEntry>)
    ensures |m| == (if tagVersion.Some? then 3 else 0) + (if branch.Some? then 1 else 0) + 1
    ensures tagVersion.Some? ==>
              && m[0].rule == "~" + sem.display(tagVersion.value.1)
              && m[1].rule == "^" + sem.display(tagVersion.value.1)
              && m[2].rule == "=" + sem.display(tagVersion.value.1)
              && m[0].checkout == m[1].checkout == m[2].checkout == tagVersion.value.0
    ensures branch.Some? ==> m[|m| - 2].rule == m[|m| - 2].checkout == branch.value
    ensures m[|m| - 1] == CommitEntry(commit)
  {
    TagEntries(sem, tagVersion) + BranchEntries(branch) + [CommitEntry(commit)]
  }

  /** The `(checkout, rule)` pair a menu entry stands for. */
  function Pick(e: MenuEntry): (string, string) {
    (e.checkout, e.rule)
  }

  /**
   * The menu choice: a failed read or `q`/`quit` cancels; a number from 1 to the
   * menu length picks that entry; anything else picks the last entry.
   */
  function Choose(menu: seq<MenuEntry>, input: Option<string>): (r: Option<(string, string)>)
    requires menu != []
    ensures r.Some? ==> exists i :: 0 <= i < |menu| && r.value == Pick(menu[i])
  {
    match input
    case None => None
    case Some(line) => ChooseAnswer(menu, Trim(ToLower(line)))
  }

  /** The menu choice for an answer already trimmed and lower-cased. */
  function ChooseAnswer(menu: seq<MenuEntry>, answer: string): (r: Option<(string, string)>)
    requires menu != []
    ensures r.Some? ==> exists i :: 0 <= i < |menu| && r.value == Pick(menu[i])
  {
    if answer == "q" || answer == "quit" then None
    else
      match ParseUsize(answer)
      case Some(k) =>
        if k <= |menu| && k > 0 then Some(Pick(menu[k - 1])) else Some(Pick(menu[|menu| - 1]))
      case None => Some(Pick(menu[|menu| - 1]))
  }

  /** What `version_prompt` answers, given the console line. */
  function VersionPromptOf(sem: Semver, repo: Repo, input: Option<string>): Option<(string, string)> {
    match GetLatestCommit(repo)
    case None => None
    case Some(commit) =>
      var tagVersion := LatestVersionOf(sem, repo, None);
      var branch := CurrentBranchOf(repo);
      if tagVersion.None? && branch.None? then Some((commit, commit))
      else Choose(Menu(sem, tagVersion, branch, commit), input)
  }

  /**
   * `version_prompt`: offers the menu and returns the chosen `(checkout, rule)`;
   * without a tag or a branch it takes the latest commit without asking.
   */
  method VersionPrompt(sem: Semver, repo: Repo, input: Option<string>) returns (r: Option<(string, string)>)
    ensures r == VersionPromptOf(sem, repo, input)
  {
    var latestCommit := GetLatestCommit(repo);
    if latestCommit.None? {
      return None;
    }
    var commit := latestCommit.value;
    var tagVersion := LatestVersion(sem, repo, None);
    var currentBranch := CurrentBranch(repo);
    if tagVersion.None? && currentBranch.None? {
      return Some((commit, commit));
    }
    var versions := BuildMenu(sem, tagVersion, currentBranch, commit);
    r := ChooseVersion(versions, input);
  }

  /** The menu-building part of `version_prompt`. */
  method BuildMenu(sem: Semver, tagVersion: Option<(string, string)>, currentBranch: Option<string>, commit: string)
    returns (versions: seq<MenuEntry>)
    ensures versions == Menu(sem, tagVersion, currentBranch, commit)
  {
    versions := [];
    if tagVersion.Some? {
      var (tag, ver) := tagVersion.value;
      var shown := sem.display(ver);
      versions := versions + [MenuEntry("Tilde (Patch)", "~" + shown, tag)];
      versions := versions + [MenuEntry("Caret (Minor)", "^" + shown, tag)];
      versions := versions + [MenuEntry("Exact (Fixed)", "=" + shown, tag)];
    }
    assert versions == TagEntries(sem, tagVersion);
    if currentBranch.Some? {
      var branchName := currentBranch.value;
      versions := versions + [MenuEntry("Branch (HEAD)", branchName, branchName)];
    }
    assert versions == TagEntries(sem, tagVersion) + BranchEntries(currentBranch);
    versions := versions + [MenuEntry("Latest commit", commit, commit)];
  }

  /** The numeric choice in `version_prompt`, given the console line. */
  method ChooseVersion(versions: seq<MenuEntry>, input: Option<string>) returns (r: Option<(string, string)>)
    requires versions != []
    ensures r == Choose(versions, input)
  {
    if input.None? {
      return None;
    }
    var answer := Trim(ToLower(input.value));
    if answer == "q" || answer == "quit" {
      return None;
    }
    var last := versions[|versions| - 1];
    var index := ParseUsize(answer);
    if index.Some? && index.value <= |versions| && index.value > 0 {
      var chosen := versions[index.value - 1];
      r := Some((chosen.checkout, chosen.rule));
    } else {
      r := Some((last.checkout, last.rule));
    }
  }

  /** Without a tag and without a current branch, the latest commit is both checkout and rule. */
  lemma VersionPromptNoChoice(sem: Semver, repo: Repo, input: Option<string>)
    requires GetLatestCommit(repo).Some?
    requires LatestVersionOf(sem, repo, None).None? && CurrentBranchOf(repo).None?
    ensures VersionPromptOf(sem, repo, input) == Some((GetLatestCommit(repo).value, GetLatestCommit(repo).value))
  {
  }

  /** When there is something to choose, the menu has between two and five entries. */
  lemma MenuSize(sem: Semver, tagVersion: Option<(string, string)>, branch: Option<string>, commit: string)
    requires tagVersion.Some? || branch.Some?
    ensures 2 <= |Menu(sem, tagVersion, branch, commit)| <= 5
  {
  }

  /** An answer `k` with `1 <= k <= |menu|` picks entry `k - 1`. */
  lemma ChooseNumber(menu: seq<MenuEntry>, line: string, k: nat)
    requires menu != []
    requires ParseUsize(Trim(ToLower(line))) == Some(k) && 1 <= k <= |menu|
    ensures Choose(menu, Some(line)) == Some(Pick(menu[k - 1]))
  {
    AnswerNumber(menu, Trim(ToLower(line)), k);
  }

  /** Typing the number `k` as `usize` prints it picks entry `k - 1`. */
  lemma ChooseTyped(menu: seq<MenuEntry>, k: nat)
    requires 1 <= k <= |menu| < USIZE_LIMIT
    ensures Choose(menu, Some(Decimal(k))) == Some(Pick(menu[k - 1]))
  {
    var d := Decimal(k);
    assert ToLower(d) == d;
    TrimSurrounded([], d, []);
    assert [] + d + [] == d;
    ParseUsizeDecimal(k);
    ChooseNumber(menu, d, k);
  }

  lemma AnswerNumber(menu: seq<MenuEntry>, answer: string, k: nat)
    requires menu != []
    requires ParseUsize(answer) == Some(k) && 1 <= k <= |menu|
    ensures ChooseAnswer(menu, answer) == Some(Pick(menu[k - 1]))
  {
    NumberIsNotQuit(answer, k);
  }

  /** A number is neither of the quit answers. */
  lemma NumberIsNotQuit(answer: string, k: nat)
    requires ParseUsize(answer) == Some(k)
    ensures answer != "q" && answer != "quit"
  {
    assert "q"[0] == 'q' && "quit"[0] == 'q';
  }

  /** Any other answer that is not `q` or `quit`, `0` and non-numbers included, picks the last entry. */
  lemma ChooseDefault(menu: seq<MenuEntry>, line: string)
    requires menu != []
    requires Trim(ToLower(line)) != "q" && Trim(ToLower(line)) != "quit"
    requires match ParseUsize(Trim(ToLower(line))) case None => true case Some(k) => k == 0 || k > |menu|
    ensures Choose(menu, Some(line)) == Some(Pick(menu[|menu| - 1]))
  {
  }

  /** The choice is cancelled exactly on a failed read or a `q`/`quit` answer. */
  lemma ChooseCancels(menu: seq<MenuEntry>, input: Option<string>)
    requires menu != []
    ensures Choose(menu, input).None? <==>
              input.None? || Trim(ToLower(input.value)) == "q" || Trim(ToLower(input.value)) == "quit"
  {
  }

  /** A `(checkout, rule)` pair the menu can yield. */
  predicate OnMenu(choice: (string, string), sem: Semver, tagVersion: Option<(string, string)>, branch: Option<string>,
                   commit: string) {
    var (checkout, rule) := choice;
    (checkout == rule && (checkout == commit || Some(checkout) == branch))
    || (tagVersion.Some? && checkout == tagVersion.value.0 &&
        var shown := sem.display(tagVersion.value.1);
        (rule == "~" + shown || rule == "^" + shown || rule == "=" + shown))
  }

  lemma MenuEntriesOnMenu(sem: Semver, tagVersion: Option<(string, string)>, branch: Option<string>, commit: string, i: nat)
    requires i < |Menu(sem, tagVersion, branch, commit)|
    ensures OnMenu(Pick(Menu(sem, tagVersion, branch, commit)[i]), sem, tagVersion, branch, commit)
  {
    var t := TagEntries(sem, tagVersion);
    var b := BranchEntries(branch);
    var m := Menu(sem, tagVersion, branch, commit);
    if i < |t| {
      assert m[i] == t[i];
    } else if i < |t| + |b| {
      assert m[i] == b[i - |t|];
    }
  }

  /**
   * Whatever is chosen checks out the latest commit or the current branch, with
   * the same string as rule, or the best tag with a `~`, `^` or `=` rule on its displayed version.
   */
  lemma VersionPromptChoices(sem: Semver, repo: Repo, input: Option<string>)
    requires VersionPromptOf(sem, repo, input).Some?
    ensures OnMenu(VersionPromptOf(sem, repo, input).value, sem, LatestVersionOf(sem, repo, None),
                   CurrentBranchOf(repo), GetLatestCommit(repo).value)
  {
    var commit := GetLatestCommit(repo).value;
    var tv := LatestVersionOf(sem, repo, None);
    var branch := CurrentBranchOf(repo);
    if tv.Some? || branch.Some? {
      var m := Menu(sem, tv, branch, commit);
      var i :| 0 <= i < |m| && VersionPromptOf(sem, repo, input).value == Pick(m[i]);
      MenuEntriesOnMenu(sem, tv, branch, commit, i);
    }
  }

  /** `new_thread_pool`'s width: the CPU count when above one, else two. */
  function ThreadPoolWidth(cpus: nat): (width: nat)
    ensures width >= 2
    ensures cpus > 1 ==> width == cpus
  {
    if cpus > 1 then cpus else 2
  }
}
