# rubigo core, modelled in Dafny

rubigo is a dependency manager for Go projects. A project directory holds
`rubigo.json` (the manifest: an `info` block and three package sets, `git`,
`local` and `global`), `rubigo.lock` (the lock record: the same three sets as
they were last installed) and a `vendor` tree. The model covers:

- **`controller/package.rs`**: `get`, `remove` and `update` (`PackageController`).
- **`controller/project.rs`**: `init` and `reset` (`ProjectController`).
- **`inner/vendor.rs`**: installing local, global and git packages,
  `update_package`, and reading a package back from a checkout (`Vendor`).
- **`inner/git_helper.rs`**: picking the greatest tag that satisfies a
  version rule, and resolving a version with one fall-back to HEAD's commit
  (`GitHelper`).
- **`inner/helpers.rs`**: scheme stripping, the vendor path of an import, the
  yes/no prompt, the version menu and the thread-pool width (`Helpers`).
- **`model/package.rs`**: the package record and its JSON encoding (`PackageModel`).

The project directory is a `Workspace.Store`, a class with three fields: the
manifest, the lock record and the vendor tree (a set of directory paths).

Each command has two parts:

- **A function** maps the directory before the command to the directory after
  it and how the command ended (`Finished`, or `Fatal` for `logger.fatal`,
  which exits the process with status 1). Examples: `GetRun`, `RemoveRun`,
  `UpdateRun`, `InitRun` and `ResetRun`.
- **A method** on the store takes the source's steps in the source's order. Its
  postcondition ties the new state to the function applied to the old state.

The properties are proved as lemmas about those functions.

Everything outside the process is an input:

- **git2** is a `Repo` value: HEAD, the tags, the local branches and `revparse`.
- **The `semver` crate** is a `Semver` value: which strings parse, how versions
  compare, and which rules they match.
- **`go get`, `modify_golang_org` and cloning** are functions.
- **The console lines** are `Option<string>`; `None` is a failed read.
- **Whether each file-system step succeeds** is a flag in `Io`.
- **The order in which worker threads report back** is a permutation.

Supporting modules:

- `Json`: the subset of the `json` crate the core uses.
- `JsonHelper`: the document keys and `json_helper::write`'s default manifest.
- `Fs`: `create_dir_all` and `remove_dir_all` on the vendor tree.
- `Text`: split, join, trim, ASCII lowercase and `usize` parsing.

## Model

| member | source | states |
|---|---|---|
| Json.Items | src/inner/vendor.rs:68-70 | what a `for i in 0..len()` loop visits: the elements of an array, and nulls for any other value |
| Json.Get | src/controller/package.rs:85 | `j[key]` (definition): the field of an object, null for a missing key or any other value |
| Json.Len | src/inner/vendor.rs:69 | `len()` (definition): the entries of an array or object, 0 for anything else |
| Json.At | src/inner/vendor.rs:70 | `j[i]` (definition): an array element, null out of range and for any other value |
| Json.Push | src/inner/vendor.rs:78 | `let _ = push(v)` (definition): appends to an array; any other value is left as it is |
| Json.AppendOrCreate | src/controller/package.rs:85-90 | a null set becomes a one-element array; an array gets the entry appended; any other value is left unchanged |
| Json.Set | src/controller/package.rs:240 | on an object, the key now holds the new value; every other key keeps its value |
| Json.RemoveKey | src/controller/project.rs:241 | the key reads as null afterwards; every other key keeps its value; a non-object is unchanged |
| Json.RemoveAt | src/controller/package.rs:426 | `array_remove(i)` leaves the array without element i, the others in order |
| JsonHelper.ReadOr | src/controller/package.rs:83 | a readable document gives its value; a missing or unreadable one gives the default |
| JsonHelper.PackagesObject | src/controller/package.rs:99-109 | the object built holds the three given sets under `git`, `local` and `global` |
| JsonHelper.ManifestDoc | src/controller/project.rs:117-126 | a manifest whose info block and three package sets are the given ones |
| JsonHelper.LockDoc | src/controller/package.rs:499-503 | a lock record holds the three sets directly and has no info block |
| JsonHelper.DefaultManifest | src/inner/json_helper.rs:10-20 | writing no data gives the project name under `info` and three empty sets |
| Fs.CreateDirAll | src/inner/vendor.rs:76 | the path and every directory above it are in the tree afterwards; the tree gains nothing else |
| Fs.Prefixes | src/inner/vendor.rs:76 | the directories on the way to a path, itself included: exactly the non-empty paths it lies below |
| Fs.Ancestors | src/controller/package.rs:201 | the directories strictly above a path |
| Fs.RemoveDirAll | src/controller/package.rs:193 | the path and everything below it are gone; every path not below it is kept; nothing is added |
| Fs.PrefixClosedAbsent | src/controller/package.rs:191-193 | in a tree that holds the parents of each of its directories, nothing lies below a directory that is absent |
| Fs.TreeKept | src/controller/package.rs:193-201 | creating and removing directories keep the parents of every directory in the tree |
| Text.Split | src/inner/helpers.rs:117 | `split` yields at least one piece, and no piece contains the separator |
| Text.JoinSplit | src/inner/helpers.rs:117 | joining the pieces of a split gives back the original string |
| Text.SplitNoSep | src/inner/helpers.rs:117 | a string without the separator is one piece |
| Text.SplitConcat | src/inner/helpers.rs:117 | splitting at a separator splits each side on its own |
| Text.SplitThree | src/inner/helpers.rs:117 | three separator-free pieces joined by the separator split back into those three |
| Text.TrimSurrounded | src/inner/helpers.rs:36 | `trim` removes exactly the surrounding white space |
| Text.ToLower | src/inner/helpers.rs:36 | lowercasing keeps the length and maps each character by itself |
| Text.ParseUsize | src/inner/helpers.rs:85 | a parsed number fits a 64-bit `usize` |
| Text.Decimal | src/inner/helpers.rs:85 | the decimal rendering of a number is a non-empty run of digits |
| Text.ParseUsizeDecimal | src/inner/helpers.rs:85 | every number below 2^64 parses back from its decimal rendering |
| GitHelper.GetLatestCommit | src/inner/git_helper.rs:6-17 | answers exactly when HEAD resolves to a reference with a target, and gives that target |
| GitHelper.FirstHead | src/inner/git_helper.rs:22-35 | finds the first listed branch that is HEAD, and answers None exactly when there is none |
| GitHelper.CurrentBranch | src/inner/git_helper.rs:19-41 | the loop returns the name of the first local branch that is HEAD, a branch the listing holds |
| GitHelper.CurrentBranchOf | src/inner/git_helper.rs:19-41 | `get_current_branch` (definition): the name of the first local branch that is HEAD; None when the branches cannot be listed |
| GitHelper.RewriteTag | src/inner/git_helper.rs:58-96 | the tag rewriting (definition), stated by the next three lemmas |
| GitHelper.RewriteTagAccepts | src/inner/git_helper.rs:48-96 | a tag is rewritten exactly when, after an optional `v`, it starts with a digit |
| GitHelper.RewriteFullTag | src/inner/git_helper.rs:58-95 | a `[v]major.minor.patch` tag keeps its three numbers and its suffix verbatim |
| GitHelper.RewriteMajorOnly | src/inner/git_helper.rs:70-91 | a tag with only a major number gets `.0.0`, and its suffix is kept |
| GitHelper.Candidate | src/inner/git_helper.rs:52-102 | a tag qualifies exactly when it has a name, is rewritten, parses and satisfies the rule; the candidate is its name and version |
| GitHelper.Candidates | src/inner/git_helper.rs:52-101 | one candidate per listed tag, position by position |
| GitHelper.SelectIndex | src/inner/git_helper.rs:102-105 | the selection is a present candidate, and there is none exactly when no candidate is present |
| GitHelper.Select | src/inner/git_helper.rs:102-105 | the candidate at the selected position (definition), stated by the next three lemmas |
| GitHelper.SelectSnoc | src/inner/git_helper.rs:102-105 | one more tag moves the selection to it exactly when it is present and strictly greater |
| GitHelper.SelectIsGreatest | src/inner/git_helper.rs:102-105 | no present candidate is greater than the selected one |
| GitHelper.SelectIsEarliest | src/inner/git_helper.rs:102-105 | a present candidate before the selected one is strictly smaller, so ties keep the first |
| GitHelper.LatestVersionOf | src/inner/git_helper.rs:43-111 | None exactly when the tags cannot be listed or no tag qualifies; otherwise a qualifying tag with its version |
| GitHelper.LatestVersion | src/inner/git_helper.rs:43-111 | the loop over the tag names computes the first greatest qualifying tag |
| GitHelper.LatestVersionIsFirstGreatest | src/inner/git_helper.rs:102-105 | the tag returned qualifies, no qualifying tag is greater, and every earlier qualifying tag is smaller |
| GitHelper.LatestCompatVersion | src/inner/git_helper.rs:113-121 | an unparsable rule, or a rule no tag satisfies, comes back unchanged; otherwise the name of the tag `get_latest_version` picks for the rule, a listed tag that satisfies it |
| GitHelper.LatestCompatIsGreatest | src/inner/git_helper.rs:113-121 | that name satisfies the rule, and no listed tag that satisfies it has a greater version |
| GitHelper.RevisionObject | src/inner/git_helper.rs:123-139 | a version that resolves is used; otherwise one retry with HEAD's commit; None exactly when neither resolves |
| Helpers.ConfirmationPrompt | src/inner/helpers.rs:34-42 | a failed read is an error; otherwise the answer is yes exactly for the six listed words, after lowercasing and trimming |
| Helpers.ConfirmationTolerant | src/inner/helpers.rs:36-37 | a yes word in any case, surrounded by any white space, is a yes |
| Helpers.ConfirmationDeclines | src/inner/helpers.rs:38 | any other line is a no |
| Helpers.TagEntries | src/inner/helpers.rs:58-62 | the three tag entries (definition): `~`, `^` and `=` on the displayed version, each checking out the tag |
| Helpers.Menu | src/inner/helpers.rs:56-70 | with a tag, the first three entries are the `~`, `^` and `=` rules on its version as `semver` displays it, each checking out the tag; a current branch is next to last, as both rule and checkout; the latest commit is always last |
| Helpers.Choose | src/inner/helpers.rs:80-95 | any choice is the (checkout, rule) pair of some menu entry |
| Helpers.ChooseAnswer | src/inner/helpers.rs:81-91 | for the trimmed, lower-cased answer: any choice is the (checkout, rule) pair of some menu entry |
| Helpers.VersionPrompt | src/inner/helpers.rs:44-96 | builds the menu and reads the choice as the version prompt does |
| Helpers.VersionPromptOf | src/inner/helpers.rs:44-96 | `version_prompt` (definition): None without HEAD's commit; the commit twice with neither tag nor branch; otherwise the menu's choice |
| Helpers.BuildMenu | src/inner/helpers.rs:56-70 | the pushes build exactly that menu |
| Helpers.ChooseVersion | src/inner/helpers.rs:80-95 | reads the answer and picks the entry as specified |
| Helpers.VersionPromptNoChoice | src/inner/helpers.rs:52-54 | with no tag and no current branch, the latest commit is both checkout and rule, whatever is typed |
| Helpers.MenuSize | src/inner/helpers.rs:56-70 | when there is a choice, the menu has two to five entries |
| Helpers.ChooseNumber | src/inner/helpers.rs:85-87 | an answer k with 1 <= k <= menu size picks entry k |
| Helpers.ChooseTyped | src/inner/helpers.rs:85-87 | typing the number k, as `usize` prints it, picks entry k |
| Helpers.ChooseDefault | src/inner/helpers.rs:88-91 | any other answer except `q`/`quit` picks the last entry (the default); this includes 0, out-of-range numbers and non-numbers |
| Helpers.ChooseCancels | src/inner/helpers.rs:81-84 | the prompt is cancelled exactly on a failed read or a `q`/`quit` answer |
| Helpers.MenuEntriesOnMenu | src/inner/helpers.rs:58-70 | every menu entry pairs a tag with its tilde, caret or exact rule, or is the branch, or is the commit |
| Helpers.VersionPromptChoices | src/inner/helpers.rs:44-96 | what the prompt yields is one of those pairs, for the repository's best tag, current branch and HEAD commit |
| Helpers.StripUrlScheme | src/inner/helpers.rs:107-113 | stripping never lengthens the string |
| Helpers.StripUrlSchemeNoScheme | src/inner/helpers.rs:107-113 | a string with no `http://` or `https://` anywhere is unchanged |
| Helpers.StripHttps | src/inner/helpers.rs:108-112 | a leading `https://` is removed |
| Helpers.StripHttp | src/inner/helpers.rs:108-112 | a leading `http://` is removed |
| Helpers.StripUrlSchemeLeading | src/inner/helpers.rs:107-113 | a scheme in front of a scheme-free rest leaves exactly that rest |
| Helpers.StripUrlSchemeInside | src/inner/helpers.rs:107-113 | a scheme after a prefix that cannot begin one is removed too, and the prefix is kept |
| Helpers.DirSegmentsFacts | src/inner/helpers.rs:115-122 | the segments that become directory levels are exactly the non-empty ones other than `.`, in order |
| Helpers.VendorPathSegments | src/inner/helpers.rs:115-122 | the vendor path is `vendor` followed by levels without `/`; when every segment is a level, they join back to the import |
| Helpers.PathFromUrl | src/inner/helpers.rs:115-122 | the loop builds the vendor path: `vendor`, then the segments that add a level (neither empty nor `.`), none containing `/`; when every segment adds a level, joined they give the import back |
| Helpers.VendorPath | src/inner/helpers.rs:115-122 | `get_path_from_url` (definition): `vendor` followed by the segments that add a level; stated by Helpers.VendorPathSegments, Vendor.VendorPathInjective and Vendor.VendorPathIgnoresEmptySegments, and computed by Helpers.PathFromUrl |
| Helpers.ThreadPoolWidth | src/inner/helpers.rs:98-105 | the pool has the CPU count when it is above one, else two, so never fewer than two |
| Vendor.Kept | src/inner/vendor.rs:69-85 | the installed entries, never more than were listed |
| Vendor.KeptMembers | src/inner/vendor.rs:69-85 | an entry is installed exactly when it is listed, is a string and passes the test |
| Vendor.VendorPathInjective | src/inner/helpers.rs:115-122 | imports whose segments all add a level have distinct vendor paths |
| Vendor.VendorPathIgnoresEmptySegments | src/inner/helpers.rs:115-122 | an empty or `.` segment adds no level: `x//y`, `x/./y` and `x/y` name one directory |
| Vendor.InstallLocal | src/inner/vendor.rs:66-89 | the tree only grows, and no more entries are recorded than are listed |
| Vendor.InstallLocalBounds | src/inner/vendor.rs:66-89 | directories are added only on the way to the path of an entry whose creation succeeded; each recorded entry is a listed string whose directory is there; each string entry whose directory existed or could be created is recorded |
| Vendor.InstallLocalParentCreated | src/inner/vendor.rs:74-85 | an entry whose directory was created above an earlier entry's is recorded without being created |
| Vendor.InstallLocalParentFirst | src/inner/vendor.rs:74-85 | listed first, the same entry is not recorded when its own creation fails |
| Vendor.InstallLocalOrderMatters | src/inner/vendor.rs:74-85 | so the order of the local set matters: `a/b, a` records both, `a, a/b` only `a/b` |
| Vendor.InstallLocalPackages | src/inner/vendor.rs:66-89 | the loop records the entries and leaves the tree, parent directories included, as InstallLocal states |
| Vendor.InstallGlobalPackages | src/inner/vendor.rs:91-109 | records each global entry that `go get` installs, in order |
| Vendor.ComponentsCons | src/inner/vendor.rs:373 | the components of a path built from a first segment and the rest are that segment's components followed by the rest's |
| Vendor.FirstVendor | src/inner/vendor.rs:376-384 | finds the first `vendor` component, and answers None exactly when there is none |
| Vendor.ImportOf | src/inner/vendor.rs:368-390 | `parse_import` (definition): the names after the first `vendor` component, `.git` dropped, joined by `/`; computed by Vendor.ParseImport and stated by Vendor.ImportIgnoresPrefix and Vendor.ParseImportRoundTrip |
| Vendor.ParseImport | src/inner/vendor.rs:368-390 | the loop yields the names after the first `vendor` component, without `.git`, joined by `/` |
| Vendor.ImportIgnoresPrefix | src/inner/vendor.rs:376-384 | components before the first `vendor` do not change the import |
| Vendor.ImportNamesOfSegments | src/inner/vendor.rs:375-381 | plain segments come back as themselves, in order |
| Vendor.ImportNamesDropGit | src/inner/vendor.rs:376 | a trailing `.git` is not part of the import |
| Vendor.ParseImportRoundTrip | src/inner/vendor.rs:368-390 | the import read from `vendor/<import>/.git` is the import itself when its segments are plain |
| Vendor.HeadLabel | src/inner/vendor.rs:394-414 | a label exists exactly when HEAD's commit is known; it is the tag name, the branch shorthand, or otherwise the commit |
| Vendor.ParseRepository | src/inner/vendor.rs:392-419 | a package exactly when HEAD's commit is known, with only `version` (HEAD's label) and `import` (the parsed path) |
| Vendor.FastForwarded | src/inner/vendor.rs:199-235 | the branches the fetch loop brings to their upstream, in listing order (definition); stated by Vendor.FastForwardedMember and computed by Vendor.FastForwardBranches |
| Vendor.FastForwardedMember | src/inner/vendor.rs:199-235 | a branch is updated exactly when its own lookup, upstream and reset steps succeed, whatever happens to the others |
| Vendor.HeadOn | src/inner/vendor.rs:220-231 | after `set_head`, HEAD is the branch, at its upstream's commit when the hard reset succeeded and at its old commit otherwise |
| Vendor.FastForwardedRepo | src/inner/vendor.rs:199-235 | the branch loop moves only HEAD: tags, the branch listing and revision lookup are kept |
| Vendor.FastForwardedHead | src/inner/vendor.rs:199-235 | HEAD is unchanged when no branch reaches `set_head`, and otherwise is where the last one that did put it |
| Vendor.FastForwardBranches | src/inner/vendor.rs:199-235 | the loop updates exactly those branches, in listing order, and none when the listing fails; it leaves the checkout as FastForwardedRepo states |
| Vendor.UpdatePackage | src/inner/vendor.rs:145-316 | the package sent back and the vendor tree afterwards are those of one run of `update_package` |
| Vendor.OpenOrClone | src/inner/vendor.rs:176-270 | the package sent and the tree are those of cloning (when cleaning or when the checkout is missing) or of opening, fetching and running the branch loop, then checking out |
| Vendor.AcquireRepo | src/inner/vendor.rs:176-270 | the version is resolved in the clone, or in the opened checkout, which after a fetch is the checkout as the branch loop leaves it |
| Vendor.CheckOut | src/inner/vendor.rs:272-315 | reads `version`, resolves it, detaches HEAD and resets, and sets `version` only when all of these succeed |
| Vendor.RepoUrl | src/inner/vendor.rs:157-161 | a package is cloned from its `repo` entry when that is a string, and from the rewritten import otherwise |
| Vendor.Sync | src/inner/vendor.rs:145-316 | `update_package` (definition), with the corrected order of the Findings table; stated by the lemmas that follow |
| Vendor.Acquire | src/inner/vendor.rs:176-270 | clone or open and fetch (definition); stated by AcquireRepo, SyncDirs and SyncResolves |
| Vendor.Resolve | src/inner/vendor.rs:272-315 | read `version`, resolve it, detach HEAD and reset (definition); stated by SyncResolves and SyncSent |
| Vendor.SyncSent | src/inner/vendor.rs:145-316 | every run sends back one package: unchanged on failure, and on success only `version` changed, to the resolved label |
| Vendor.SyncDirs | src/inner/vendor.rs:163-187 | clones exactly when cleaning or when the directory is missing, using the `repo` URL else the rewritten import; cleaning removes what is below the package directory; success leaves that directory; nothing outside it is removed; no directory is added but the package directory and those above it |
| Vendor.SyncResolves | src/inner/vendor.rs:272-295 | apply mode uses the recorded version and does not fetch; otherwise the greatest compatible tag, after a fetch when the checkout was opened; the label checked out is the requested one or HEAD's commit in the repository resolved in |
| Vendor.SyncRepo | src/inner/vendor.rs:145-316 | that repository is the clone, or the opened checkout as the fetch's branch loop leaves it |
| Vendor.SentAsWritten | src/inner/vendor.rs:285-313 | as written, the package sent back already carries the new version when detaching or the reset fails; it agrees with `Sync` everywhere else |
| Vendor.SentAsWrittenDetachFailure | src/inner/vendor.rs:285-313 | an input where detaching fails: the source sends a version that was never checked out, and the corrected run sends the package unchanged |
| Vendor.RunAll | src/inner/vendor.rs:124-133 | one package comes back per run, in arrival order |
| Vendor.RunAllSent | src/inner/vendor.rs:124-133 | the k-th package to come back is the order[k]-th input, with at most its `version` changed |
| Vendor.Reported | src/inner/vendor.rs:133-141 | keeps exactly the returned packages with a string `import`; membership only, and the number and order of the entries are not stated, since the arrival order is an input |
| Vendor.InstallGitPackages | src/inner/vendor.rs:111-143 | the packages gathered (none in apply mode, and none for a null or empty set) and the vendor tree after all runs |
| Vendor.RunInArrivalOrder | src/inner/vendor.rs:124-133 | the loop performs the runs in arrival order |
| Vendor.Gather | src/inner/vendor.rs:132-142 | the receiving loop keeps the packages with a string `import`, or none in apply mode |
| Vendor.GitPackagesReported | src/inner/vendor.rs:111-143 | outside apply mode, each input with a string `import` comes back with at most its `version` changed, and nothing else comes back; membership only, and the number and order of entries in `installed_packages` are not stated, since the arrival order is an input |
| PackageModel.UpdateName | src/model/package.rs:23-31 | the name a policy is written under (definition); PackageModel.UpdateNameRoundTrip and PackageModel.UpdateNameInjective state that the four names read back and are distinct |
| PackageModel.ParseUpdate | src/model/package.rs:23-31 | a policy read back from a name has that name |
| PackageModel.UpdateNameRoundTrip | src/model/package.rs:23-31 | each policy's name reads back as that policy |
| PackageModel.UpdateNameInjective | src/model/package.rs:24-28 | the four policy names are distinct |
| PackageModel.ToJson | src/model/package.rs:18-41 | `import` is always written; without a version nothing else is written; with one, `update` (default `fixed`) and `version` are written too |
| PackageModel.FromJson | src/model/package.rs:18-41 | a decoder the source does not have (definition): it inverts `to_json` for the round trip PackageModel.FromToJson. `import` is required, and `update` and `version` are read when `version` is there |
| PackageModel.FromToJson | src/model/package.rs:18-41 | decoding the encoding gives the package back, with its policy dropped when it has no version and defaulted to `fixed` when it has one |
| PackageModel.EncodedComplete | src/model/package.rs:18-41 | a package that has a policy exactly when it has a version is encoded without loss |
| ProjectController.StripUpdate | src/controller/project.rs:239-243 | every entry loses `update` and keeps every other key |
| ProjectController.StripUpdateIdempotent | src/controller/project.rs:239-243 | removing the `update` keys twice is the same as removing them once |
| ProjectController.RemoveUpdateKey | src/controller/project.rs:239-243 | the loop removes `update` in place, from every array element |
| ProjectController.ScannedManifest | src/controller/project.rs:117-126 | the manifest `init` writes over an existing vendor tree: the info block names the project, the git set is the scanned packages and the local and global sets are empty |
| ProjectController.ScannedLock | src/controller/project.rs:131-136 | the lock record written next to it: one git entry per scanned package, each without `update` and otherwise the same; empty local and global sets |
| ProjectController.InitRun | src/controller/project.rs:81-149 | `init` (definition), stated by the lemmas that follow |
| ProjectController.Init | src/controller/project.rs:81-149 | the steps of `init` on the store end as the `init` run specifies |
| ProjectController.InitRefusesInitialised | src/controller/project.rs:90-93 | an initialised directory is refused and left as it is |
| ProjectController.InitCompleted | src/controller/project.rs:95-146 | a completed `init` (see the full statement after this table) |
| ProjectController.InitFailureLeavesNoManifest | src/controller/project.rs:82-88 | a failed `init` leaves no manifest when the clean-up removal succeeds, and the vendor tree unchanged |
| ProjectController.InnerResetRun | src/controller/project.rs:165-236 | `inner_reset` (definition), stated by InnerResetSets |
| ProjectController.InnerReset | src/controller/project.rs:165-236 | the steps of the reset on the store end as the reset run specifies |
| ProjectController.KeepPresentLocals | src/controller/project.rs:193-207 | keeps the local entries of the lock record whose directory exists, in order |
| ProjectController.PresentLocals | src/controller/project.rs:193-207 | a local entry of the lock record is kept exactly when it is a string whose directory exists |
| ProjectController.CarriedGlobals | src/controller/project.rs:189-192 | the global set `reset` keeps is never null and holds the same entries as the lock record's; an array is kept as it is |
| ProjectController.CarriedInfo | src/controller/project.rs:209-212 | the info block `reset` keeps is never null and has the same fields as the manifest's; an object is kept as it is |
| ProjectController.ResetRun | src/controller/project.rs:151-163 | `reset` (definition), stated by ResetNeedsConsent |
| ProjectController.Reset | src/controller/project.rs:151-163 | runs the reset only with no prompt or a yes |
| ProjectController.ResetNeedsConsent | src/controller/project.rs:154-162 | a no leaves the directory as it is and ends normally; a failed read is fatal and changes nothing |
| ProjectController.InnerResetSets | src/controller/project.rs:185-233 | a completed reset (see the full statement after this table) |
| PackageController.TrimSlash | src/controller/package.rs:15-17 | removes at most one character, exactly when the argument ends in `/` or `\` |
| PackageController.TrimSlashOnce | src/controller/package.rs:15-17 | only one separator goes: `a//` becomes `a/` |
| PackageController.FirstFrom | src/controller/package.rs:166-177 | the first position at or after i that declares the name |
| PackageController.FirstDeclared | src/controller/package.rs:418-430 | the first position that declares the name, and None exactly when the set does not declare it |
| PackageController.FindEntry | src/controller/package.rs:421-429 | the scan stops at the first match, skipping entries of the wrong shape |
| PackageController.NewGitEntry | src/controller/package.rs:179-181 | a new git entry holds the import, and `repo` when a URL was given |
| PackageController.ManifestWith | src/controller/package.rs:312-315 | the manifest written keeps the old info block and holds the new packages object |
| PackageController.GetRun | src/controller/package.rs:14-334 | `get` (definition), stated by the lemmas that follow |
| PackageController.AddRun | src/controller/package.rs:38-334 | `get` from reading the manifest on (definition) |
| PackageController.GlobalStage | src/controller/package.rs:61-109 | the global branch of `get` refuses exactly a package already declared global or one `go get` fails on, changing nothing; otherwise only the two global sets change, each gaining the import at its end, and the path to clean up is the import's vendor path |
| PackageController.LocalStage | src/controller/package.rs:110-164 | the local branch of `get` (definition): refuse a declared package or an existing path, create the directory and those above it, append to both local sets |
| PackageController.GitPath | src/controller/package.rs:183-189 | the directory of a git package is under `vendor`, and is the import's own vendor path when `modify_golang_org` gives no other path |
| PackageController.GitUrl | src/controller/package.rs:209-215 | a git package is cloned from the URL given on the command line, and otherwise from the URL `modify_golang_org` gives |
| PackageController.ChosenVersion | src/controller/package.rs:229-252 | without a prompt, a version is chosen exactly when HEAD resolves to a commit, and that commit is both checkout and rule; with one, the menu's choice (Helpers.VersionPromptOf) |
| PackageController.GitStage | src/controller/package.rs:165-207 | the git branch of `get` up to creating the directory (definition) |
| PackageController.CloneStage | src/controller/package.rs:209-309 | the git branch of `get` once the directory exists (definition) |
| PackageController.CommitRun | src/controller/package.rs:312-333 | the end of `get` (definition): the manifest, then the lock record, with the compensating steps |
| PackageController.GetPackage | src/controller/package.rs:14-334 | the steps of `get` on the store end as the `get` run specifies |
| PackageController.AddPackage | src/controller/package.rs:38-334 | `get` from reading the manifest on |
| PackageController.AddGlobal | src/controller/package.rs:61-109 | the global branch of `get` |
| PackageController.AddLocal | src/controller/package.rs:110-164 | the local branch of `get` |
| PackageController.AddGit | src/controller/package.rs:165-207 | the git branch of `get` up to creating the directory |
| PackageController.CloneAndPin | src/controller/package.rs:209-309 | clone, choose the version, resolve it, detach, reset and append; any failure removes the directory |
| PackageController.PromptOrLatest | src/controller/package.rs:228-250 | the menu's choice, or HEAD's commit as both checkout and rule when the prompt is skipped |
| PackageController.Commit | src/controller/package.rs:312-333 | writes the manifest, then the lock record, with the compensating steps on failure |
| PackageController.GetRefusesDeclared | src/controller/package.rs:61-73 | a `get` of a package its set already declares is fatal and changes nothing (the git set is compared by `import`) |
| PackageController.GetAppends | src/controller/package.rs:83-164 | a completed `get` (see the full statement after this table) |
| PackageController.AppendedByAppendOrCreate | src/controller/package.rs:284-297 | the null-or-push step appends exactly one entry named after the package |
| PackageController.GitGetPinsHead | src/controller/package.rs:241-256 | a git `get` without prompting appends to both git sets an entry for the import; when a set was an array or null, the new last entry pins HEAD's commit as `version` and records the `repo` URL given, or none |
| PackageController.GetAllOrNothing | src/controller/package.rs:312-333 | a failed `get` whose compensating steps succeed leaves both documents unchanged and adds at most directories above the package path; the lock record changes only in a completed `get` whose manifest write succeeded |
| PackageController.StageWithin | src/controller/package.rs:61-310 | before writing, `get` changes only the vendor tree: a refusal leaves at most directories above the package path, success adds that path and at most the directories above it, and a global package changes nothing |
| PackageController.GitStageWithin | src/controller/package.rs:165-309 | the same for the git branch, whose path is the vendor import `modify_golang_org` gives |
| PackageController.CloneStageWithin | src/controller/package.rs:209-309 | past the directory, the git branch succeeds leaving the state as it is, or removes the path |
| PackageController.DroppedManifest | src/controller/package.rs:353-365 | the manifest `remove` writes keeps the info block and holds each set as `remove_package_from_array` leaves it |
| PackageController.DroppedLock | src/controller/package.rs:353-379 | the lock record `remove` writes holds the three sets as `remove_package_from_array` leaves them, and no info block |
| PackageController.RemoveRun | src/controller/package.rs:336-406 | `remove` (definition), with `helpers::remove_package` as the `Prune` input; stated by RemoveCompleted, RemoveFailureRestores and RemoveMayEmptyVendor |
| PackageController.Remove | src/controller/package.rs:336-406 | the steps of `remove` on the store, with `helpers::remove_package` as the `Prune` input, end as the `remove` run specifies |
| PackageController.RemoveCompleted | src/controller/package.rs:353-405 | a completed `remove` has dropped the package from all six sets and kept the info block. The package directory and everything below it are gone, and no directory is added. Nothing outside `vendor` changes. When the package had no directory, the tree is untouched. Everything below it is gone too when the directory was there or the tree holds every directory's parents |
| PackageController.RemoveFailureRestores | src/controller/package.rs:369-404 | a failed `remove` whose reverts succeed leaves the directory exactly as it was |
| PackageController.RemoveMayEmptyVendor | src/tests/mod.rs:204-222 | with a `remove_package` that also removes the parents left empty, removing the only package leaves no `vendor`, as the source's test of `remove` expects |
| PackageController.PruneSubtree | src/controller/package.rs:393-394 | removing only the package's subtree meets what is known of `remove_package` |
| PackageController.PruneVendor | src/controller/package.rs:393-394 | so does removing the whole vendor tree; afterwards nothing under `vendor` is left |
| PackageController.UpdateRun | src/controller/package.rs:408-544 | `update` (definition), stated by the lemmas that follow |
| PackageController.UpdateOneRun | src/controller/package.rs:417-509 | `update` of one package (definition) |
| PackageController.UpdateGlobalRun | src/controller/package.rs:431-481 | `update` of a package that is not a declared git package (definition) |
| PackageController.UpdateAllRun | src/controller/package.rs:511-544 | `update` of every package (definition) |
| PackageController.Update | src/controller/package.rs:408-544 | the steps of `update` on the store end as the `update` run specifies |
| PackageController.UpdateOne | src/controller/package.rs:417-509 | updating one named package |
| PackageController.UpdateGlobal | src/controller/package.rs:431-481 | updating a package that is not a declared git package |
| PackageController.UpdateAll | src/controller/package.rs:511-544 | updating every package |
| PackageController.UpdateGitPackage | src/controller/package.rs:418-506 | a declared git package: see the full statement after this table |
| PackageController.UpdateGlobalPackage | src/controller/package.rs:431-480 | any other package: see the full statement after this table |
| PackageController.UpdateAllReinstalls | src/controller/package.rs:511-544 | a full update: see the full statement after this table; membership only, and the number and order of the lock's git entries are not stated, since the arrival order is an input |
| Workspace.Store.WriteManifest | src/inner/json_helper.rs:7-32 | a successful write replaces the manifest; a failed one leaves it; nothing else changes |
| Workspace.Store.WriteLock | src/inner/json_helper.rs:7-32 | the same for the lock record |
| Workspace.Store.DeleteManifest | src/controller/project.rs:82-88 | a successful removal deletes the manifest; nothing else changes |
| Workspace.Store.DeleteLock | src/controller/project.rs:95-101 | a successful removal deletes the lock record; nothing else changes |
| Workspace.Store.CreateDir | src/controller/project.rs:110-113 | a successful creation adds the path and every directory above it; nothing else changes |
| Workspace.Store.RemoveDir | src/controller/package.rs:191-200 | a successful removal deletes the path and everything below it; nothing else changes |
| Workspace.Store.Vendored | src/controller/package.rs:483-486 | the vendor tree becomes the one the vendor operations leave; nothing else changes |

The lemmas whose statements are too long for the table:

- **ProjectController.InitCompleted.** A completed `init` leaves a manifest
  and no stale lock record.
  - Without a vendor tree: the default manifest, no lock record, and a new
    `vendor` directory.
  - With a vendor tree: the scanned git packages in both documents, without
    `update` in the lock record, and empty local and global sets.
- **ProjectController.InnerResetSets.** A completed reset writes the same git,
  local and global sets to both documents and keeps the info block:
  - git: the scan;
  - local: the lock record's local entries whose directory exists;
  - global: the lock record's global set, with null read as empty.
- **PackageController.GetAppends.** A completed `get` in an initialised
  directory:
  - appends one entry for the import to the end of the target set of both
    documents;
  - the import was not declared before;
  - keeps the info block and the other two sets of both documents.
- **PackageController.UpdateGitPackage.** Updating a declared git package ends
  normally and leaves the manifest alone. When the lock write succeeds, the
  lock record holds:
  - git: the manifest's git set without the first entry for the package,
    followed by that entry as sent back, which differs from it at most in
    `version`;
  - local and global: the manifest's sets.
- **PackageController.UpdateGlobalPackage.** Updating a package that is not a
  declared git package:
  - ends normally exactly when the manifest's global set declares it and
    `go get -u` succeeds;
  - then the lock record's global set is the manifest's with that entry moved
    to the end, and its other sets are the manifest's;
  - a failure changes nothing, and the manifest and the vendor tree are never
    touched.
- **PackageController.UpdateAllReinstalls.** A full update ends normally and
  leaves the manifest alone. When the lock write succeeds, the lock record
  holds exactly:
  - every local entry whose directory existed or could be created, and
    otherwise only string entries of the manifest's local set (an entry whose
    directory an earlier entry created as a parent is recorded too);
  - the global entries that `go get -u` installed;
  - for each git entry with a string `import`, that entry as sent back, which
    differs from it at most in `version`.

## Left out

- Reading the vendor tree for git checkouts (`vendor::find_packages` and
  `parse_dir`, with their thread pool, counter and channel) is not modelled.
  Its result is the `scanned` input of `init` and `reset`.
- `helpers::get_current_dir` and `helpers::get_input` are inputs: the project
  name and the console lines.
- Threads, channels and `CpuPool` futures are not modelled.
  - `install_git_packages` runs the packages one after another in a given
    arrival order, which must be a permutation.
  - In `update` with no package, the local, global and git installs run one
    after another. `FitsManifest` states that there is one git outcome per
    manifest entry.
- The receive in a single-package `update` always succeeds, because
  `update_package` sends on every path.
- git2 is an oracle: HEAD, tags, branches, `revparse`, clone, open, the remote
  and fetch steps, detaching HEAD and the hard reset.
- The `semver` crate and the regex engine are not modelled. The semver crate's
  parsing, ordering, display and rule matching are an oracle. The tag-rewriting
  regex `^v?([0-9]+)[.]?([0-9]*)[.]?([0-9]*)([-]?.*)` is written out directly.
- The outcome of `go::get` is an oracle.
- `helpers::modify_golang_org` is an oracle. In `get` it gives the clone URL
  and an optional vendor import; in `update_package` it gives the clone URL.
- `helpers::remove_package` is the `Prune` input, with a flag for failure. Its
  code is not part of this model. The `Prune` type keeps only what is known of
  it: the package directory and everything below it go, nothing is added, and
  nothing outside `vendor` changes.
- PackageController.RemoveRun, PackageController.Remove, PackageController.RemoveCompleted:
  they do not say which directories above the package `remove` deletes, nor that
  the directories of other packages survive. The source's test of `remove`
  (src/tests/mod.rs:221) expects `vendor` itself to be gone once it is empty.
- `json_helper::remove_package_from_array` is the `Drop` input. Its code is not
  part of this model.
- `helpers::remove_diff_packages` is the `removeDiff` input of `update`. Its
  code is not part of this model.
- `json_helper::read` is a `Doc` value: absent, unreadable, or a JSON value.
- Writes are atomic: a partial write is not modelled.
- The outcomes of clean-up and revert steps whose errors the source ignores are
  flags.
- JSON numbers are integers; object key order and pretty printing are not
  modelled.
- `to_lowercase` covers ASCII letters only. `char::is_whitespace` covers the
  Unicode White_Space characters.
- Paths are sequences of pushed segments. `Path::exists` and `is_dir` are
  membership in the tree; files inside the vendor tree and symbolic links are
  not modelled.
- The logger is not modelled, apart from `fatal` ending the command. The
  prompt and menu message texts are not modelled.
- `project::new`, `main.rs`, `info`, `list` and the logger are not part of this
  model.
- Global packages: a `get` whose lock-record write fails still removes the
  package's vendor path (src/controller/package.rs:326-332). This is modelled
  as written, although for a global package that path was never created.
- Vendor.CheckOut: the branches a fetch fast-forwards are computed but not
  returned. `Sync` records them in `SyncOutcome.updatedBranches`.
- Vendor.UpdatePackage, Vendor.CheckOut: they, and with them `update` and
  `install_git_packages`, record the corrected package of the Findings table,
  which keeps its old `version` when detaching HEAD or the reset fails. The
  code as written is `SentAsWritten`.
- A failed `create_dir_all` or clone is modelled as creating nothing; the
  directories it may have made above the package before failing are not.
- Vendor paths are relative. `install_local_packages` joins the whole local
  name onto `vendor` (src/inner/vendor.rs:74), and so does `inner_reset`'s
  filter of the local packages (src/controller/project.rs:198), so a name starting with `/`
  would name an absolute path there; the model uses the name's vendor path, as
  `get_path_from_url` builds it. `..` segments are kept as names and not
  resolved.
- After the fetch's branch loop only HEAD moves: the branch listing's
  `is_head` flags and `revparse` of the moved branch names stay as the
  opened checkout gave them.

## Findings

| source | as written | input that shows it | evidently intended | confidence | as-written member | corrected member |
|---|---|---|---|---|---|---|
| src/inner/vendor.rs:285-313 | `update_package` stores the resolved label into `version` before detaching HEAD and resetting. If either step fails, the package sent back names a revision that was never checked out, and `update` records it in `rubigo.lock`. | The package `{"import": "x", "version": "v1"}`, already checked out, updated as `update` runs it: not in apply mode, with the fetch succeeding. No tag satisfies `v1` and `v1` does not resolve, so the version falls back to HEAD's commit `c0ffee`, and detaching HEAD fails. The source sends `version: "c0ffee"`. | On a failure the package is sent back unchanged. This is what every other failure exit of `update_package` does. | medium (not executed) | Vendor.SentAsWrittenDetachFailure | Vendor.SyncSent |
