# find-git-repositories, modelled in Dafny

find-git-repositories is a native Node.js addon. It walks a directory tree
breadth-first and reports every directory that holds a `.git` directory. It
reports them in two ways: progress batches while the walk is still running,
and the full ordered list once the walk ends. This project models four things:

- the two C++ addons: the current N-API one and the older NAN one;
- the Windows long-path helpers;
- the JavaScript wrapper that calls the older addon.

It also proves what these components promise.

## What is modelled

- **The walk** (`Traversal`). Both addons do the same thing:
  - keep a FIFO frontier of directories and list the one at its front;
  - for each entry, either skip it, record a repository (a kept directory named
    `.git`), or keep it as a child for the back of the frontier.

  The variants differ in only two ways. The first is a *scan rule*: which
  entries count as directories, the separator, how a match is reported, and
  whether a listing stops at its first `.git`. The second is whether a matched
  directory's other children are *pruned*. `Walk` is written once for all
  variants. The three imperative loops are proved to record exactly what
  `Walk` returns, in the same order.

  `Found` is an independent depth-first reference definition. It finds the
  same repositories, each as often. The model also proves:
  - that a `.git` in any directory the walk lists is reported, and that every
    queued subtree is searched;
  - breadth-first level order;
  - that pruning only removes results;
  - that nothing below a match is ever listed;
  - that unopenable directories are skipped.
- **The filesystem** (`FileTree`) is a finite tree. A directory is what one
  listing of it yields: either `Unopenable`, or its entries in enumeration
  order. Each entry has a platform-specific kind:
  - POSIX: the `uv_dirent` type, plus the mode `lstat` would give;
  - Windows: the `dwFileAttributes` word.
- **POSIX listing** (`PosixScan`, `StatModes`). An entry is kept when its type
  is directory. An entry of unknown type is kept when `lstat` succeeds and says
  "directory, not link". A match records `path + "/.git"`. The current addon
  prunes; the older addon does not, so it also finds nested repositories.
- **Windows listing** (`WindowsScan`, `WindowsHelpers`).
  - The walk runs on NT-prefixed wide paths (`\\?\`, `\\?\UNC\`).
  - `.` and `..` are skipped.
  - A listing stops at its first `.git`.
  - A match is reported as the converted path with `\.git` appended. The path
    is first stripped of its prefix, unless the caller's path was already an
    NT path.
  - A failed conversion records nothing, but still blocks descent.

  Stripping is proved to undo the prefixing for every path below the root.
  Reports therefore come back in the full-path form of the root (what
  `GetFullPathNameW` returns, not necessarily what the caller wrote) without
  the NT prefix, for roots that are not UNC heads.
  - The Windows loop tests only `FILE_ATTRIBUTE_DIRECTORY`, so it also descends
    into directory symbolic links and junctions. The model does the same:
    `KeepWindows` has no reparse-point test. The model's walk ends because the
    tree is finite; the source's walk does not end on a link cycle.
- **Throttled progress delivery** (`ProgressGate`, `CurrentAddon`). Each
  recorded repository calls `ThrottledProgressCallback`. That call schedules a
  delivery in two cases: always when the throttle is 0, and otherwise when at
  least the throttle has elapsed since the last scheduled delivery. The gate is
  armed one period in the past, so the first repository is always delivered.

  The model proves the following:
  - scheduled deliveries are spaced by at least the throttle;
  - each one happens at the time of a call;
  - with throttle 0, every call schedules one.

  A scheduled delivery drains the whole queue, front first. It makes no call
  when the queue is empty. The worker's invariant is
  `delivered + queue == repositories`: every recorded path is either delivered
  or still queued, in recording order. The promise resolves with the whole list.
- **The older addon** (`LegacyAddon`). It checks three arguments in order and
  throws the first failing check's message. It walks without pruning. The
  progress handle delivers whatever is queued each time it fires, even when the
  queue is empty. At completion the handle is closed and its queue is dropped,
  and the completion callback receives every recorded path.
- **Argument validation of the current addon** (`CurrentAddon.ValidateArguments`).
  It produces the five `TypeError` messages in the source's order. The
  throttle is truncated to whole milliseconds.
- **The JavaScript entry** (`JsEntry`). It rejects a falsy path other than
  `''` and a falsy progress callback. On win32 it turns `\` into `/` going in
  and `/` into `\` coming out. It then hands the older three-argument native
  function the arguments. The native function's throw rejects the promise.

Directory listings, `lstat`, the clock, UTF-8/UTF-16 conversion and
`GetFullPathNameW` are parameters: a tree, `clock: nat -> int` (the
steady-clock reading when the k-th repository is recorded), and oracle
functions.

### Behaviour of the code worth knowing (the model follows the code)

- test/index-spec.js expects two features that no code here implements:
  - a `maxSubfolderDeep` option, validated at test/index-spec.js:41-51 and
    used at :228-291;
  - cancellation through the progress callback's return value, at :293-332.

  `js/index.js:9` takes only `(startingPath, progressCallback)`, so a third
  options argument is ignored and neither feature is in the model.
- test/index-spec.js:124-150 expects symbolic links not to be followed on every
  platform. The Windows loop follows directory links and junctions (see above).
- The root check accepts the empty path:
  - The native checks only require a string.
  - The JavaScript wrapper lets `''` through explicitly
    (`JsEntry.EmptyPathIsAccepted`).
- The throttle's delivery rules:
  - Throttle 0 schedules a delivery on every recorded repository.
  - With a throttle, deliveries happen only when a repository is recorded.
    There is no heartbeat, and a delivery that finds the queue empty makes no
    call.
- Some throttle values pass validation:
  - NaN passes the range check, because every comparison with NaN is false,
    and becomes 0.
  - 0 is accepted, although the message says "> 0".
- `js/index.js` calls the native function with three arguments
  `(path, progress, completion)`. That matches the older addon, so `JsEntry`
  is composed with `LegacyAddon`.
- On win32 the wrapper wraps the progress value in a function of its own. A
  truthy progress value that is not a function is therefore accepted there and
  refused elsewhere (`JsEntry.ProgressMustBeAFunctionOnlyOffWin32`).

## Model

| member | source | states |
|---|---|---|
| Traversal.Reported | cpp/src/FindGitRepos.cpp:148-159 | a match records at most one string, exactly the report of the directory's path, and nothing when reporting fails |
| Traversal.Classify | cpp/src/FindGitRepos.cpp:224-240 | an entry is skipped exactly when the rule does not keep it, and is the `.git` marker exactly when it is kept and named `.git`; any other kept entry is a child |
| Traversal.ChildOf | cpp/src/FindGitRepos.cpp:222 | the frontier entry for a kept child: the parent path, the separator and the child's name, with the child's subtree |
| Traversal.ScanEntries | cpp/src/FindGitRepos.cpp:221-246 | one listing keeps children smaller than itself; a rule that stops at the first `.git` records at most once; a failing report records nothing |
| Traversal.ScanMatchesIffMarker | cpp/src/FindGitRepos.cpp:237-242 | a listing counts as a repository exactly when some entry is a kept directory named `.git` (both directions) |
| Traversal.ScanRecordsOnlyReports | cpp/src/FindGitRepos.cpp:242-244 | every string a listing records is the report for that listing's own directory |
| Traversal.MarkerIsRecorded | cpp/src/FindGitRepos.cpp:237-244 | a listing holding a kept `.git` records the directory's report whenever reporting succeeds (the converse of ScanRecordsOnlyReports) |
| Traversal.ScanDir | cpp/src/FindGitRepos.cpp:217-219 | a listing's kept children are strictly smaller than the listed directory (the walk terminates) |
| Traversal.Next | cpp/src/FindGitRepos.cpp:248-250 | the children a scanned listing appends: none when the policy prunes and the listing matched, otherwise all it kept; QueuedChildIsSearched and PruningOnlyRemoves state its effect |
| Traversal.Walk | cpp/src/FindGitRepos.cpp:205-252 | the specification of the queue loops (also cpp/src/FindGitRepos.cpp:115-203 and src/FindGitRepos.cpp:40-83): list the front directory, record its matches, append its kept children unless a match prunes them; it has no contract of its own; the three Execute methods are proved equal to it, WalkAgreesWithFound and WalkByLevels state what and in which order it reports, and ListedIsReported and RepositoryInFrontierIsReported that it misses no repository of a listed directory |
| Traversal.WalkAgreesWithFound | cpp/src/FindGitRepos.cpp:205-252 | the breadth-first walk reports exactly the repositories of the depth-first reference definition, each as often |
| Traversal.ListedIsReported | cpp/src/FindGitRepos.cpp:205-252 | whatever any directory of the frontier records when listed is among the walk's reports |
| Traversal.RepositoryInFrontierIsReported | cpp/src/FindGitRepos.cpp:237-244 | a directory of the frontier whose listing holds a kept `.git` has its report among the walk's reports, whenever reporting succeeds |
| Traversal.QueuedChildIsSearched | cpp/src/FindGitRepos.cpp:248-250 | everything a queued child's subtree finds, its parent's subtree finds too, so the walk searches every queued subtree |
| Traversal.WalkByLevels | cpp/src/FindGitRepos.cpp:208-250 | breadth-first order: every directory of one frontier level is listed before any child it appends |
| Traversal.PruningOnlyRemoves | cpp/src/FindGitRepos.cpp:248-250 | dropping a matched directory's children only removes results (sub-multiset of the unpruned walk) |
| Traversal.ScanIgnoresSubtrees | cpp/src/FindGitRepos.cpp:221-246 | what one listing records and whether it matches does not depend on what lies below its entries |
| Traversal.NothingBelowMatchIsListed | cpp/src/FindGitRepos.cpp:248-250 | once a listing holds `.git`, the pruning walk records that listing's matches and continues with the rest; its subtrees never matter |
| Traversal.UnopenableIsSkipped | cpp/src/FindGitRepos.cpp:217-219 | a directory that cannot be listed contributes nothing and the walk carries on |
| Traversal.UnreportableMatchStillPrunes | cpp/src/FindGitRepos.cpp:180-184 | a match whose report fails records nothing and still stops descent into that directory |
| Traversal.KidsComeFromKeptEntries | cpp/src/FindGitRepos.cpp:224-239 | every child put in the frontier is a kept non-`.git` entry joined to the parent path with the separator |
| Traversal.KeptEntriesBecomeKids | src/FindGitRepos.cpp:55-81 | a scan that does not stop at `.git` puts every kept non-`.git` entry in the frontier |
| Traversal.KidPathsExtendParent | cpp/src/FindGitRepos.cpp:222-238 | every child path has its parent's path as a prefix |
| Traversal.RecordsAreReportsUnder | cpp/src/FindGitRepos.cpp:136-194 | everything the walk records is the report of some path below the root it started from |
| PosixUnique.WalkReportsEachRepositoryOnce | cpp/src/FindGitRepos.cpp:205-252 | in a tree whose listings hold distinct, non-empty names without `/`, the POSIX walk (pruning or not) reports no path twice, and every report names a `.git` at or below the root |
| PosixUnique.FoundOnce | cpp/src/FindGitRepos.cpp:237-250 | in such a tree, the depth-first reference finds each repository at most once, and only at or below the directory it starts from |
| PosixUnique.FoundAllOnce | cpp/src/FindGitRepos.cpp:248-250 | the subtrees of distinct siblings report disjoint sets of repositories, each at most once |
| PosixUnique.ListingRecords | cpp/src/FindGitRepos.cpp:237-244 | a listing with distinct names records at most one path, and that path is the listed directory followed by `/.git` |
| PosixUnique.ListingKids | cpp/src/FindGitRepos.cpp:222-238 | the children a listing appends are distinct paths, each the parent path, `/` and a plain name |
| PosixUnique.SiblingsAreApart | cpp/src/FindGitRepos.cpp:222 | no path lies at or below two differently named children of one directory |
| StatModes.DirIsNotLink | cpp/src/FindGitRepos.cpp:226-230 | a mode whose type bits say directory never says link, so the link test only rejects non-directories |
| StatModes.IsDir | cpp/src/FindGitRepos.cpp:228 | `S_ISDIR`: the file-type bits of the mode say directory; DirIsNotLink and DirectoryModesAccepted state its properties |
| StatModes.IsLink | cpp/src/FindGitRepos.cpp:229 | `S_ISLNK`: the file-type bits of the mode say symbolic link |
| StatModes.UnknownEntryIsDirectory | cpp/src/FindGitRepos.cpp:226-230 | an entry of unknown type is accepted when `lstat` succeeds and says directory and not link (also src/FindGitRepos.cpp:62-68); DirectoryModesAccepted states it for every directory and link mode |
| StatModes.Win32IsDirAsWritten | src/FindGitRepos.cpp:4 | the `_WIN32` `S_ISDIR` as written, `m & (0170000 == 0040000)`; Win32MacrosMissDirectory shows that it is 0 for a directory mode |
| StatModes.Win32IsLinkAsWritten | src/FindGitRepos.cpp:5 | the `_WIN32` `S_ISLNK` as written, `m & (0170000 == 0120000)`; Win32MacrosSkipEveryUnknownEntry shows that it is always 0 |
| StatModes.UnknownEntryIsDirectoryWin32AsWritten | src/FindGitRepos.cpp:62-68 | the same acceptance test with the `_WIN32` macros as written; Win32MacrosSkipEveryUnknownEntry shows it never accepts |
| StatModes.Win32MacrosSkipEveryUnknownEntry | src/FindGitRepos.cpp:4-5 | as written, both `_WIN32` macros are 0 for every mode, so every entry of unknown type is skipped |
| StatModes.Win32MacrosMissDirectory | src/FindGitRepos.cpp:3-6 | mode 040755 is accepted by the intended test and rejected by the `_WIN32` spelling |
| StatModes.DirectoryModesAccepted | src/FindGitRepos.cpp:58-68 | the intended test accepts every directory mode and rejects every link mode, whatever the permission bits |
| PosixScan.ReportPosix | cpp/src/FindGitRepos.cpp:222-244 | a POSIX match records the directory's path extended by `/.git`, and never fails |
| PosixScan.KeepPosix | cpp/src/FindGitRepos.cpp:224-235 | an entry is kept when its type is directory, or when its type is unknown and `lstat` succeeds and says directory and not link (also src/FindGitRepos.cpp:58-71); LinksAreNeverKept states what it refuses |
| PosixScan.CurrentPosix | cpp/src/FindGitRepos.cpp:248-250 | the current addon's walk: the POSIX rule, and a matched directory's children are dropped |
| PosixScan.LegacyPosix | src/FindGitRepos.cpp:73-80 | the older addon's walk: the POSIX rule, and every kept child is queued, `.git` siblings included |
| PosixScan.LinksAreNeverKept | cpp/src/FindGitRepos.cpp:224-235 | links, unknown entries whose `lstat` fails, and unknown entries that `lstat` reports as links never enter the frontier |
| PosixScan.CurrentReportsNoMoreThanLegacy | cpp/src/FindGitRepos.cpp:248-250 | every repository the current addon reports, the older addon reports at least as often |
| PosixScan.NestedRepositoryScenario | src/FindGitRepos.cpp:73-80 | for `r/a/.git` with a nested `r/a/b/.git`, the current walk reports only `r/a/.git` and the older walk reports both, in that order |
| WindowsHelpers.StripNtPrefix | cpp/includes/WindowsHelpers.h:5-11 | `\\?\UNC\rest` becomes `\\rest`, other `\\?\rest` becomes `rest`, anything else is unchanged; never longer |
| WindowsHelpers.NtRewrite | cpp/includes/WindowsHelpers.h:58-60 | a full path gets `\\?\UNC\` (network) or `\\?\` (drive) in front and is then an NT path |
| WindowsHelpers.IsNtPath | cpp/includes/WindowsHelpers.h:42-44 | a path is an NT path when it starts with `\\?\` or `\??\`; NtRewrite ensures it of every rewritten path |
| WindowsHelpers.PrefixWithNtPath | cpp/includes/WindowsHelpers.h:46-61 | a failed or inconsistent `GetFullPathNameW` leaves the path unchanged; otherwise the result is an NT path that stripping turns back into the full path |
| WindowsHelpers.QuerySucceeded | cpp/includes/WindowsHelpers.h:47-56 | the two `GetFullPathNameW` calls succeed when the first asks for a non-zero length and the second writes exactly one less |
| WindowsHelpers.ConvertWideCharToMultiByte | cpp/includes/WindowsHelpers.h:13-40 | converts the input as given when the root was an NT path or the input has no prefix, and otherwise converts it with the `\\?\` or `\\?\UNC\` prefix stripped |
| WindowsHelpers.ConvertMultiByteToWideChar | cpp/includes/WindowsHelpers.h:63-79 | the converted text, or the empty string when conversion fails |
| WindowsHelpers.StripUndoesRewrite | cpp/includes/WindowsHelpers.h:5-61 | stripping undoes prefixing for the full path and every path below it, unless the unprefixed path starts with `UNC\` |
| WindowsHelpers.RoundTrip | cpp/includes/WindowsHelpers.h:5-61 | `StripNtPrefix(NtRewrite(p)) == p` for every full path not starting with `UNC\` |
| WindowsHelpers.RoundTripFailsForUncHead | cpp/includes/WindowsHelpers.h:58-60 | `UNC\x` comes back from the round trip as the network path `\\x` |
| WindowsHelpers.ObjectPathsAreNotStripped | cpp/includes/WindowsHelpers.h:42-44 | a `\??\` path is an NT path, and stripping leaves it alone |
| WindowsScan.GitPathOf | cpp/src/FindGitRepos.cpp:150-156 | a successful conversion yields that text followed by `\.git`; a failed one yields nothing (both directions) |
| WindowsScan.KeepWindows | cpp/src/FindGitRepos.cpp:143-147 | an entry is kept when its attributes include `FILE_ATTRIBUTE_DIRECTORY` and it is not `.` or `..` (also cpp/src/FindGitRepos.cpp:170-176); there is no reparse-point test, so directory links and junctions are kept; DotEntriesAreNeverKept states what it refuses |
| WindowsScan.ReportWindows | cpp/src/FindGitRepos.cpp:149-156 | the converted directory path followed by `\.git`, or nothing when conversion fails; WindowsReported states it of every record |
| WindowsScan.WindowsRule | cpp/src/FindGitRepos.cpp:143-159 | the Windows listing rule: KeepWindows, the `\` separator, ReportWindows, and a stop at the first `.git` |
| WindowsScan.WindowsPolicy | cpp/src/FindGitRepos.cpp:196-199 | the Windows walk: the Windows rule, and a matched directory's children are dropped |
| WindowsScan.WindowsRoot | cpp/src/FindGitRepos.cpp:121-126 | the walk starts from the caller's converted path; it is kept when already an NT path and otherwise prefixed, which gives an NT path whenever `GetFullPathNameW` succeeds |
| WindowsScan.DotEntriesAreNeverKept | cpp/src/FindGitRepos.cpp:143-176 | `.` and `..` are never kept whatever their attributes, and neither is a non-directory `.git` |
| WindowsScan.ReportsAreStrippedFullPaths | cpp/src/FindGitRepos.cpp:148-159 | from a prefixed full path that is not a UNC head, every report is the conversion of a path below that full path (the `GetFullPathNameW` form, not the caller's form), without the NT prefix, followed by `\.git` |
| WindowsScan.FailedConversionStillBlocksDescent | cpp/src/FindGitRepos.cpp:178-199 | a listing with a `.git` whose path cannot be converted adds neither a report nor children to the walk |
| WindowsScan.WindowsReported | cpp/src/FindGitRepos.cpp:149-159 | a Windows match records the converted directory path with `\.git` appended, or nothing when conversion fails |
| JsValues.Property | cpp/src/FindGitRepos.cpp:333-334 | reading a missing option yields `undefined` |
| JsValues.Truthy | js/index.js:10-18 | JavaScript truthiness: `undefined`, `null`, `false`, `0`, `NaN` and `''` are falsy, everything else truthy; NaNArgumentsAreRejected and EmptyPathIsAccepted state its effect on the wrapper |
| JsValues.IsObject | cpp/src/FindGitRepos.cpp:325 | plain objects and functions pass the options check |
| JsValues.HasProperty | cpp/src/FindGitRepos.cpp:334 | `options.Has(key)`: the options object carries the key |
| ProgressGate.Step | cpp/src/FindGitRepos.cpp:285-296 | a call schedules a delivery at its own time when the throttle is 0 or has elapsed, and moves `last` only under a throttle; otherwise nothing changes |
| ProgressGate.Run | cpp/src/FindGitRepos.cpp:270-297 | the gate after a sequence of calls, each a `Step` at its own time, in order; RunOnlyAppends, DeliveriesAreSpaced and DeliveriesHappenAtCalls state its properties |
| ProgressGate.Fires | cpp/src/FindGitRepos.cpp:285-290 | a call schedules a delivery when the throttle is 0 or at least the throttle has passed since the last one |
| ProgressGate.RunOnlyAppends | cpp/src/FindGitRepos.cpp:285-296 | calls never retract or reorder scheduled deliveries, and add at most one each |
| ProgressGate.ZeroThrottleSchedulesEveryCall | cpp/src/FindGitRepos.cpp:285-288 | with throttle 0, every call schedules a delivery at its own time |
| ProgressGate.DeliveriesAreSpaced | cpp/src/FindGitRepos.cpp:290-296 | with a throttle, consecutive scheduled deliveries are at least the throttle apart, and `last` is the latest of them |
| ProgressGate.DeliveriesHappenAtCalls | cpp/src/FindGitRepos.cpp:285-296 | every scheduled delivery is at the time of some call |
| ProgressGate.FirstCallAlwaysFires | cpp/src/FindGitRepos.cpp:105-107 | a gate armed one throttle period before the start delivers on the first call made after the start |
| CurrentAddon.ToMilliseconds | cpp/src/FindGitRepos.cpp:340-349 | an accepted throttle becomes its whole milliseconds, at most 60000, and NaN becomes 0 |
| CurrentAddon.OutOfRange | cpp/src/FindGitRepos.cpp:343 | a number is refused when below 0 or above 60000; NaN is not refused, because both comparisons are false, and the infinities are |
| CurrentAddon.ValidateArguments | cpp/src/FindGitRepos.cpp:309-351 | a launch needs a string path and a function callback; the throttle is 0 unless a numeric option is given, in range, and truncated |
| CurrentAddon.RejectsExactlyUnusableArguments | cpp/src/FindGitRepos.cpp:311-347 | the call is rejected exactly when some argument is unusable (both directions), and a bad path is reported before a bad callback |
| CurrentAddon.DeliverQueued | cpp/src/FindGitRepos.cpp:271-283 | a delivery makes no call exactly when the queue is empty; otherwise it hands over the whole queue, front first, and empties it |
| CurrentAddon.FindGitReposWorker.constructor | cpp/src/FindGitRepos.cpp:92-108 | a fresh worker has no repositories and an empty queue, and its gate is armed one throttle period in the past |
| CurrentAddon.FindGitReposWorker.ThrottledProgressCallback | cpp/src/FindGitRepos.cpp:270-297 | the gate takes exactly one `Step` at the call's time |
| CurrentAddon.FindGitReposWorker.Record | cpp/src/FindGitRepos.cpp:242-245 | the path is appended to the queue and to the result list, and the gate steps once, at the clock reading for that repository |
| CurrentAddon.FindGitReposWorker.ScanListingPosix | cpp/src/FindGitRepos.cpp:221-246 | one listing records exactly what the scan rule records and collects exactly its children, in order |
| CurrentAddon.FindGitReposWorker.ExecutePosix | cpp/src/FindGitRepos.cpp:205-252 | the POSIX loop appends exactly the pruning walk's reports to the results, in order, and steps the gate once per repository |
| CurrentAddon.FindGitReposWorker.RecordConverted | cpp/src/FindGitRepos.cpp:148-163 | a Windows match records the converted path followed by `\.git`, or nothing when conversion fails |
| CurrentAddon.FindGitReposWorker.ScanListingWindows | cpp/src/FindGitRepos.cpp:142-166 | the first entry, then the rest, record and collect exactly what the Windows scan rule does |
| CurrentAddon.FindGitReposWorker.ScanNextEntriesWindows | cpp/src/FindGitRepos.cpp:168-195 | the `FindNextFileW` loop adds exactly the rule's children after those already collected, and stops at the first `.git` |
| CurrentAddon.FindGitReposWorker.ExecuteWindows | cpp/src/FindGitRepos.cpp:115-203 | the Windows loop, from the NT-form root, appends exactly the Windows walk's reports, in order, and steps the gate once per repository |
| CurrentAddon.FindGitReposWorker.RunScheduledCall | cpp/src/FindGitRepos.cpp:271-286 | a scheduled delivery hands the callback everything queued so far, in recording order, and keeps every recorded path either delivered or queued |
| CurrentAddon.FindGitReposWorker.OnOK | cpp/src/FindGitRepos.cpp:255-264 | the promise resolves with every recorded repository, in order: what was delivered followed by what is still queued |
| CurrentAddon.FindGitRepos | cpp/src/FindGitRepos.cpp:309-367 | a rejected call creates no worker; an accepted call starts a worker on the validated path and throttle |
| RepositoryQueues.RepositoryQueue.constructor | cpp/src/FindGitRepos.cpp:353 | a new queue is empty |
| RepositoryQueues.RepositoryQueue.Enqueue | cpp/src/FindGitRepos.cpp:243 | the path is added at the back; nothing else changes |
| RepositoryQueues.RepositoryQueue.Dequeue | cpp/src/FindGitRepos.cpp:279 | the front path is returned and removed; the rest keep their order |
| RepositoryQueues.RepositoryQueue.Count | cpp/src/FindGitRepos.cpp:272 | the number of queued paths |
| RepositoryQueues.RepositoryQueue.Clear | src/FindGitRepos.cpp:105 | the queue becomes empty |
| LegacyAddon.ValidateArguments | src/FindGitRepos.cpp:8-26 | a worker is queued exactly when the arguments are a string and two functions, and a bad path is reported first |
| LegacyAddon.FindGitReposWorker.constructor | src/FindGitRepos.cpp:28-38 | a fresh worker has no repositories, an empty baton queue and no pending signal |
| LegacyAddon.FindGitReposWorker.Record | src/FindGitRepos.cpp:73-77 | the path is appended to the queue and to the result list, and the progress handle is woken |
| LegacyAddon.FindGitReposWorker.ScanListing | src/FindGitRepos.cpp:55-81 | one listing records exactly the rule's matches and pushes exactly its children, `.git` siblings included, onto the path queue |
| LegacyAddon.FindGitReposWorker.Execute | src/FindGitRepos.cpp:40-83 | the loop appends exactly the unpruned walk's reports, in order, and leaves the handle woken exactly when it found something |
| LegacyAddon.FindGitReposWorker.FireProgressCallback | src/FindGitRepos.cpp:85-100 | each firing hands over the whole queue, front first, possibly empty, and empties it |
| LegacyAddon.FindGitReposWorker.CleanUpProgressBatonAndHandle | src/FindGitRepos.cpp:102-109 | paths still queued are dropped |
| LegacyAddon.FindGitReposWorker.HandleOKCallback | src/FindGitRepos.cpp:111-124 | the completion callback gets every recorded path in order, including those whose progress delivery is dropped |
| LegacyAddon.FindGitRepos | src/FindGitRepos.cpp:8-26 | a failed check throws its message and queues nothing; otherwise a worker is queued on the path |
| JsEntry.ReplaceAll | js/index.js:3-7 | a global single-character `replace` keeps the length and changes exactly the matching characters |
| JsEntry.NormalizeStartingPath | js/index.js:3-5 | on win32 no `\` remains; elsewhere the path is untouched |
| JsEntry.NormalizeRepositoryPath | js/index.js:7 | no `/` remains, and the length is unchanged |
| JsEntry.NormalizationIsIdempotent | js/index.js:3-7 | normalising twice gives the same result as normalising once |
| JsEntry.SeparatorRoundTrip | js/index.js:20-24 | on win32, a path without `/` comes back from the native side in its original form |
| JsEntry.NormalizeAll | js/index.js:23-24 | each path of a batch is normalised, in order, into a new batch of the same length |
| JsEntry.Delivered | js/index.js:20-26 | callers see batches normalised on win32 and untouched elsewhere |
| JsEntry.Exported | js/index.js:9-33 | the falsy-path and falsy-callback rejections come first; a running walk has a string path normalised for the platform; a string path with a function callback always runs the walk on the normalised path |
| JsEntry.EmptyPathIsAccepted | js/index.js:10-13 | `''` passes the wrapper's check and reaches the native walk |
| JsEntry.NaNArgumentsAreRejected | js/index.js:10-18 | a `NaN` path is rejected with the path message, and a `NaN` progress callback with the callback message |
| JsEntry.ProgressMustBeAFunctionOnlyOffWin32 | js/index.js:15-29 | a truthy progress value that is not a function is refused by the native check off win32, and accepted on win32 |
| JsEntry.NonStringPathIsRejected | js/index.js:20-31 | a truthy non-string path is rejected: by `replace` on win32, by the native check elsewhere |

## Left out

- The N-API and NAN lifecycle is left out: worker scheduling, `Queue()`, promise plumbing, `ThreadSafeFunction` and `uv_async` handles. Concurrency is left out too. A delivery is a separate method call on the worker, and `uv_async_send` coalescing is a single flag.
- includes/Queue.h is not part of this model. Its locking is not modelled; `RepositoryQueue` is modelled as a FIFO of strings.
- The real filesystem calls are replaced by a finite tree: `uv_fs_scandir`, `uv_fs_lstat`, `FindFirstFileW` and `FindNextFileW`. A directory is listed the same way each time. Cycles cannot occur, and races with concurrent changes are not modelled.
- UTF-8/UTF-16 conversion and `GetFullPathNameW` are oracles.
- WindowsHelpers.ConvertWideCharToMultiByte: when `WideCharToMultiByte` reports a zero length, the source's `resize(utf8Length - 1)` is `resize(SIZE_MAX)`, which throws `std::length_error` out of `Execute`. The model treats it as a failed conversion instead.
- `std::chrono::steady_clock` is replaced by `clock(k)`, the reading when the k-th repository is recorded. Time is an unbounded integer of milliseconds.
- CurrentAddon.FindGitReposWorker.ExecuteWindows: an empty listing is treated like `FindFirstFileW` failing. Both add nothing to the walk.
- WindowsHelpers.StripNtPrefix: modelled as a function returning the new string rather than an in-place edit of its argument.
- WindowsHelpers.PrefixWithNtPath: the round trip is stated only for full paths that do not start with `UNC\`. `GetFullPathNameW` yields drive or network paths, and `RoundTripFailsForUncHead` shows what goes wrong otherwise.
- JsEntry.Exported: on win32 a non-string path fails inside `replace`. The model gives that error a fixed message; V8's exact `TypeError` text is not modelled.
- Other V8 conversions are not modelled: `ToString()` of the path and `DoubleValue()` beyond the cases shown (finite, NaN, ±Infinity).
- The `maxSubfolderDeep` option and cancellation that test/index-spec.js exercises have no code, so they have no model. A third argument to the wrapper is ignored.
- LegacyAddon: the win32 build of the older walk is modelled with the corrected `S_ISDIR`/`S_ISLNK` macros. The as-written `_WIN32` macros appear only in `StatModes.Win32MacrosMissDirectory` and `StatModes.Win32MacrosSkipEveryUnknownEntry` (see Findings).
- JsValues.HasProperty: only plain objects carry properties in the model. A function passed as the options argument with its own `throttleTimeoutMS` is read as having none, so the throttle defaults to 0; cpp/src/FindGitRepos.cpp:334-336 would see that property and, for a non-number, reject with the number message.
- WindowsScan: that no repository is reported twice is proved only for the POSIX walks (`PosixUnique.WalkReportsEachRepositoryOnce`). On Windows it depends on the UTF-8 conversion oracle being injective on the stripped paths, and it is not proved.
- The test suites are not modelled.

## Findings

| source | as written | input that shows it | evidently intended | confidence | as-written member | corrected member |
|---|---|---|---|---|---|---|
| src/FindGitRepos.cpp:4-5 | `#define S_ISDIR(m) ((m & 0170000 == 0040000))` parses as `m & (0170000 == 0040000)`, which is `m & 0`; the same holds for `S_ISLNK` | on a `_WIN32` build, an entry of unknown type with mode 040755: the macro yields 0, so the directory is skipped | `((m) & 0170000) == 0040000`, so an unknown entry that `lstat` calls a directory is searched | high, not executed | StatModes.Win32MacrosMissDirectory | StatModes.DirectoryModesAccepted |
