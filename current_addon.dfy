/**
 * The current addon (cpp/src/FindGitRepos.cpp): argument validation, the
 * worker with its two walks, the throttled progress delivery and the result.
 *
 * The walk runs against a directory tree given as a parameter; `clock(k)` is
 * the steady-clock reading when the `k`-th repository of the worker is
 * recorded; text conversions and `GetFullPathNameW` are oracles.
 */
module CurrentAddon {
  import opened Wrappers
  import opened FileTree
  import opened Traversal
  import opened StatModes
  import opened PosixScan
  import opened WindowsHelpers
  import opened WindowsScan
  import opened ProgressGate
  import opened RepositoryQueues
  import opened JsValues

  const PathMessage: string := "Must provide starting path as first argument."
  const CallbackMessage: string := "Must provide progress callback as second argument."
  const OptionsMessage: string := "Options argument must be an object, if passed."
  const NumberMessage: string := "options.throttleTimeoutMS must be a number, if passed."
  const RangeMessage: string := "options.throttleTimeoutMS must be > 0 and <= 60000, if passed."
  const ThrottleKey: string := "throttleTimeoutMS"
  const MaxThrottleMs: nat := 60000

  /** A rejected promise with its `TypeError` message, or the path and throttle a worker is started with. */
  datatype Validation = Reject(message: string) | Launch(path: string, throttleTimeoutMs: nat)

  /** `bounds < 0 || bounds > 60000`; NaN fails both comparisons and so passes. */
  predicate OutOfRange(n: JsNumber)
  {
    match n
    case Finite(v) => v < 0.0 || v > MaxThrottleMs as real
    case NaN => false
    case PositiveInfinity => true
    case NegativeInfinity => true
  }

  /** The `uint32_t` conversion of an accepted throttle: the whole milliseconds, and 0 for NaN. */
  function ToMilliseconds(n: JsNumber): (ms: nat)
    requires !OutOfRange(n)
    ensures ms <= MaxThrottleMs
    ensures n.Finite? ==> ms as real <= n.value < ms as real + 1.0
    ensures n.NaN? ==> ms == 0
  {
    if n.Finite? then n.value.Floor else 0
  }

  /** The checks of `FindGitRepos`, in order; the first failing one decides the message. */
  function ValidateArguments(info: seq<JsValue>): (r: Validation)
    ensures r.Launch? ==> |info| >= 2 && info[0] == Str(r.path) && info[1].Function?
    ensures r.Launch? ==> r.throttleTimeoutMs <= MaxThrottleMs
    ensures r.Launch? && (|info| < 3 || !Property(info[2], ThrottleKey).Number?) ==> r.throttleTimeoutMs == 0
    ensures r.Launch? && |info| >= 3 && Property(info[2], ThrottleKey).Number? ==>
      !OutOfRange(Property(info[2], ThrottleKey).n)
      && r.throttleTimeoutMs == ToMilliseconds(Property(info[2], ThrottleKey).n)
  {
    if |info| < 1 || !info[0].Str? then Reject(PathMessage)
    else if |info| < 2 || !info[1].Function? then Reject(CallbackMessage)
    else if |info| < 3 then Launch(info[0].s, 0)
    else if !IsObject(info[2]) then Reject(OptionsMessage)
    else
      var option := Property(info[2], ThrottleKey);
      if HasProperty(info[2], ThrottleKey) && !option.Number? then Reject(NumberMessage)
      else if !option.Number? then Launch(info[0].s, 0)
      else if OutOfRange(option.n) then Reject(RangeMessage)
      else Launch(info[0].s, ToMilliseconds(option.n))
  }

  /** Some argument is unusable: no string path, no callback, options that are not an object or carry a bad throttle. */
  predicate Unusable(info: seq<JsValue>)
  {
    || |info| < 1 || !info[0].Str?
    || |info| < 2 || !info[1].Function?
    || (|info| >= 3 && !IsObject(info[2]))
    || (|info| >= 3 && HasProperty(info[2], ThrottleKey) && !Property(info[2], ThrottleKey).Number?)
    || (|info| >= 3 && Property(info[2], ThrottleKey).Number? && OutOfRange(Property(info[2], ThrottleKey).n))
  }

  /** The call is rejected exactly when some argument is unusable, and a missing path is reported before anything else. */
  lemma RejectsExactlyUnusableArguments(info: seq<JsValue>)
    ensures ValidateArguments(info).Reject? <==> Unusable(info)
    ensures (|info| < 1 || !info[0].Str?) ==> ValidateArguments(info) == Reject(PathMessage)
    ensures |info| >= 1 && info[0].Str? && (|info| < 2 || !info[1].Function?) ==>
      ValidateArguments(info) == Reject(CallbackMessage)
  {
  }

  /** The times of the calls made while recording repositories `from` up to `to`. */
  function CallTimes(clock: nat -> int, from: nat, to: nat): (times: seq<int>)
    requires from <= to
    ensures |times| == to - from
    ensures forall i :: 0 <= i < |times| ==> times[i] == clock(from + i)
  {
    seq(to - from, i requires 0 <= i < to - from => clock(from + i))
  }

  lemma CallTimesSnoc(clock: nat -> int, from: nat, to: nat)
    requires from <= to
    ensures CallTimes(clock, from, to + 1) == CallTimes(clock, from, to) + [clock(to)]
  {
  }

  /**
   * The drain each scheduled delivery runs: it counts the queue, makes no call
   * when it is empty, and otherwise takes exactly that many paths, front first.
   */
  method DeliverQueued(progressQueue: RepositoryQueue) returns (batch: Option<seq<string>>)
    modifies progressQueue
    ensures old(progressQueue.items) == [] <==> batch == None
    ensures batch.Some? ==> batch.value == old(progressQueue.items)
    ensures progressQueue.items == []
  {
    var numRepos := progressQueue.Count();
    if numRepos == 0 {
      return None;
    }
    var repositoryArray: seq<string> := [];
    for i := 0 to numRepos
      invariant |repositoryArray| == i
      invariant repositoryArray + progressQueue.items == old(progressQueue.items)
    {
      var repoPath := progressQueue.Dequeue();
      repositoryArray := repositoryArray + [repoPath];
    }
    return Some(repositoryArray);
  }

  class FindGitReposWorker {
    const path: string
    const progressQueue: RepositoryQueue
    const throttleTimeoutMs: nat
    var lastProgressCallbackTime: int
    /** The times of the deliveries scheduled and not yet run. */
    var scheduledCalls: seq<int>
    var repositories: seq<string>
    /** The paths handed to the progress callback so far. */
    ghost var delivered: seq<string>

    /** Every recorded path has been delivered or still waits in the queue, in recording order. */
    ghost predicate Valid()
      reads this, progressQueue
    {
      delivered + progressQueue.items == repositories
    }

    function GateState(): Gate
      reads this
    {
      Gate(lastProgressCallbackTime, scheduledCalls)
    }

    /** The gate is armed one throttle period in the past, so that the first repository is delivered at once. */
    constructor (path: string, progressQueue: RepositoryQueue, throttleTimeoutMs: nat, now: int)
      requires progressQueue.items == []
      ensures Valid()
      ensures this.path == path && this.progressQueue == progressQueue
      ensures this.throttleTimeoutMs == throttleTimeoutMs
      ensures GateState() == Gate(now - throttleTimeoutMs, [])
      ensures repositories == [] && delivered == []
    {
      this.path := path;
      this.progressQueue := progressQueue;
      this.throttleTimeoutMs := throttleTimeoutMs;
      lastProgressCallbackTime := now - throttleTimeoutMs;
      scheduledCalls := [];
      repositories := [];
      delivered := [];
    }

    /** Schedules a delivery unless one was scheduled less than a throttle period ago. */
    method ThrottledProgressCallback(now: int)
      modifies this`lastProgressCallbackTime, this`scheduledCalls
      ensures GateState() == Step(throttleTimeoutMs, old(GateState()), now)
    {
      if throttleTimeoutMs == 0 {
        scheduledCalls := scheduledCalls + [now];
        return;
      }
      if now - lastProgressCallbackTime < throttleTimeoutMs {
        return;
      }
      scheduledCalls := scheduledCalls + [now];
      lastProgressCallbackTime := now;
    }

    /** The gate has run once per repository recorded since the `base`-th, starting from `g0`. */
    ghost predicate GateFollows(clock: nat -> int, base: nat, g0: Gate)
      reads this
    {
      base <= |repositories| && GateState() == Run(throttleTimeoutMs, g0, CallTimes(clock, base, |repositories|))
    }

    /** Records one repository: into the progress queue, into the result list, then the throttled callback. */
    method Record(repoPath: string, clock: nat -> int, ghost base: nat, ghost g0: Gate)
      requires Valid() && GateFollows(clock, base, g0)
      modifies this, progressQueue
      ensures Valid() && delivered == old(delivered) && GateFollows(clock, base, g0)
      ensures repositories == old(repositories) + [repoPath]
      ensures progressQueue.items == old(progressQueue.items) + [repoPath]
    {
      progressQueue.Enqueue(repoPath);
      repositories := repositories + [repoPath];
      CallTimesSnoc(clock, base, |repositories| - 1);
      RunSnoc(throttleTimeoutMs, g0, CallTimes(clock, base, |repositories| - 1), clock(|repositories| - 1));
      ThrottledProgressCallback(clock(|repositories| - 1));
    }

    /**
     * One POSIX listing, entry by entry: records every `.git` directory, collects
     * the other directories as children, exactly as the specification scan does.
     */
    method ScanListingPosix(currentPath: string, es: seq<Entry<PosixKind>>, clock: nat -> int, ghost base: nat, ghost g0: Gate)
      returns (temp: seq<Pending<PosixKind>>, isGitRepo: bool)
      requires Valid() && GateFollows(clock, base, g0)
      modifies this, progressQueue
      ensures Valid() && delivered == old(delivered) && GateFollows(clock, base, g0)
      ensures repositories == old(repositories) + ScanEntries(PosixRule, currentPath, es).records
      ensures temp == ScanEntries(PosixRule, currentPath, es).kids
      ensures isGitRepo == ScanEntries(PosixRule, currentPath, es).matched
    {
      ghost var s := ScanEntries(PosixRule, currentPath, es);
      temp := [];
      isGitRepo := false;
      for i := 0 to |es|
        invariant Valid() && delivered == old(delivered) && GateFollows(clock, base, g0)
        invariant repositories + ScanEntries(PosixRule, currentPath, es[i..]).records == old(repositories) + s.records
        invariant temp + ScanEntries(PosixRule, currentPath, es[i..]).kids == s.kids
        invariant (isGitRepo || ScanEntries(PosixRule, currentPath, es[i..]).matched) == s.matched
      {
        var entry := es[i];
        ghost var r0 := repositories;
        ghost var rest := ScanEntries(PosixRule, currentPath, es[i + 1..]);
        ScanEntriesFrom(PosixRule, currentPath, es, i);
        var nextPath := currentPath + "/" + entry.name;
        if entry.kind.dtype == DirentUnknown {
          if !UnknownEntryIsDirectory(entry.kind.lstat) {
            continue;
          }
        } else if entry.kind.dtype != DirentDir {
          continue;
        }
        if entry.name != GitMarker {
          AppendAssoc(temp, [Pending(nextPath, entry.sub)], rest.kids);
          temp := temp + [Pending(nextPath, entry.sub)];
          continue;
        }
        isGitRepo := true;
        Record(nextPath, clock, base, g0);
        assert Reported(PosixRule, currentPath) == [nextPath];
        AppendAssoc(r0, [nextPath], rest.records);
      }
      ScanEntriesAtEnd(PosixRule, currentPath, es);
    }

    /**
     * The POSIX walk. It records exactly what the specification walk reports, in
     * the same order, in both the result list and the progress queue, and runs the
     * gate once per recorded repository.
     */
    method ExecutePosix(fs: Dir<PosixKind>, clock: nat -> int)
      requires Valid()
      modifies this, progressQueue
      ensures Valid() && delivered == old(delivered)
      ensures repositories == old(repositories) + Walk(CurrentPosix(), [Pending(path, fs)])
      ensures GateFollows(clock, |old(repositories)|, old(GateState()))
    {
      ghost var base := |repositories|;
      ghost var g0 := GateState();
      ghost var spec := Walk(CurrentPosix(), [Pending(path, fs)]);
      var foundPaths := [Pending(path, fs)];
      while foundPaths != []
        invariant Valid() && delivered == old(delivered) && GateFollows(clock, base, g0)
        invariant old(repositories) + spec == repositories + Walk(CurrentPosix(), foundPaths)
        decreases SizeAll(foundPaths)
      {
        ghost var f0 := foundPaths;
        ghost var r0 := repositories;
        var current := foundPaths[0];
        foundPaths := foundPaths[1..];
        if current.dir.Unopenable? {
          WalkRound(CurrentPosix(), f0, foundPaths + [], r0);
          assert foundPaths + [] == foundPaths && r0 + [] == r0;
          continue;
        }
        var temp, isGitRepo := ScanListingPosix(current.path, current.dir.entries, clock, base, g0);
        if !isGitRepo {
          foundPaths := foundPaths + temp;
        } else {
          foundPaths := foundPaths + [];
        }
        WalkRound(CurrentPosix(), f0, foundPaths, r0);
      }
    }

    /**
     * A `.git` directory in a Windows listing: the directory's path is converted
     * back and recorded with `\.git` appended; when conversion fails nothing is.
     */
    method RecordConverted(currentPath: string, wasNtPath: bool, toUtf8: string -> Option<string>,
                           clock: nat -> int, ghost base: nat, ghost g0: Gate)
      requires Valid() && GateFollows(clock, base, g0)
      modifies this, progressQueue
      ensures Valid() && delivered == old(delivered) && GateFollows(clock, base, g0)
      ensures repositories == old(repositories) + Reported(WindowsRule(wasNtPath, toUtf8), currentPath)
    {
      WindowsReported(currentPath, wasNtPath, toUtf8);
      var repoPath := ConvertWideCharToMultiByte(currentPath, wasNtPath, toUtf8);
      if repoPath.None? {
        assert repositories + [] == repositories;
        return;
      }
      Record(repoPath.value + "\\" + GitMarker, clock, base, g0);
    }

    /**
     * One Windows listing: the entry `FindFirstFileW` returns, then the others
     * (see `ScanNextEntriesWindows`). `isGitRepo` says whether the listing's
     * children stay out of the frontier.
     */
    method ScanListingWindows(currentPath: string, es: seq<Entry<bv32>>, wasNtPath: bool,
                              toUtf8: string -> Option<string>, clock: nat -> int, ghost base: nat, ghost g0: Gate)
      returns (tempPaths: seq<Pending<bv32>>, isGitRepo: bool)
      requires es != []
      requires Valid() && GateFollows(clock, base, g0)
      modifies this, progressQueue
      ensures Valid() && delivered == old(delivered) && GateFollows(clock, base, g0)
      ensures repositories == old(repositories) + ScanEntries(WindowsRule(wasNtPath, toUtf8), currentPath, es).records
      ensures tempPaths == ScanEntries(WindowsRule(wasNtPath, toUtf8), currentPath, es).kids
      ensures isGitRepo == ScanEntries(WindowsRule(wasNtPath, toUtf8), currentPath, es).matched
    {
      ghost var rule := WindowsRule(wasNtPath, toUtf8);
      ScanEntriesFrom(rule, currentPath, es, 0);
      assert es[0..] == es;
      tempPaths := [];
      var first := es[0];
      if first.kind & FileAttributeDirectory == FileAttributeDirectory && first.name != "." && first.name != ".." {
        if first.name == GitMarker {
          RecordConverted(currentPath, wasNtPath, toUtf8, clock, base, g0);
          return [], true;
        }
        tempPaths := tempPaths + [Pending(currentPath + "\\" + first.name, first.sub)];
        assert Classify(rule, first) == Child && tempPaths == [ChildOf(rule, currentPath, first)];
      } else {
        assert Classify(rule, first) == Skip;
      }
      tempPaths, isGitRepo := ScanNextEntriesWindows(currentPath, es[1..], tempPaths, wasNtPath, toUtf8, clock, base, g0);
    }

    /**
     * The `FindNextFileW` loop: skips `.` and `..` and non-directories, collects
     * directories after those already collected, and stops at the first `.git`.
     */
    method ScanNextEntriesWindows(currentPath: string, es: seq<Entry<bv32>>, collected: seq<Pending<bv32>>, wasNtPath: bool,
                                  toUtf8: string -> Option<string>, clock: nat -> int, ghost base: nat, ghost g0: Gate)
      returns (tempPaths: seq<Pending<bv32>>, isGitRepo: bool)
      requires Valid() && GateFollows(clock, base, g0)
      modifies this, progressQueue
      ensures Valid() && delivered == old(delivered) && GateFollows(clock, base, g0)
      ensures repositories == old(repositories) + ScanEntries(WindowsRule(wasNtPath, toUtf8), currentPath, es).records
      ensures tempPaths == collected + ScanEntries(WindowsRule(wasNtPath, toUtf8), currentPath, es).kids
      ensures isGitRepo == ScanEntries(WindowsRule(wasNtPath, toUtf8), currentPath, es).matched
    {
      ghost var rule := WindowsRule(wasNtPath, toUtf8);
      ghost var s := ScanEntries(rule, currentPath, es);
      tempPaths := collected;
      isGitRepo := false;
      var i := 0;
      while i < |es|
        invariant 0 <= i <= |es| && !isGitRepo
        invariant Valid() && delivered == old(delivered) && GateFollows(clock, base, g0)
        invariant repositories == old(repositories)
        invariant ScanEntries(rule, currentPath, es[i..]).records == s.records
        invariant tempPaths + ScanEntries(rule, currentPath, es[i..]).kids == collected + s.kids
        invariant ScanEntries(rule, currentPath, es[i..]).matched == s.matched
      {
        var entry := es[i];
        ghost var later := ScanEntries(rule, currentPath, es[i + 1..]);
        ScanEntriesFrom(rule, currentPath, es, i);
        i := i + 1;
        if entry.name == "." || entry.name == ".." {
          continue;
        }
        if entry.kind & FileAttributeDirectory != FileAttributeDirectory {
          continue;
        }
        if entry.name == GitMarker {
          isGitRepo := true;
          RecordConverted(currentPath, wasNtPath, toUtf8, clock, base, g0);
          assert tempPaths + [] == tempPaths;
          return;
        }
        AppendAssoc(tempPaths, [Pending(currentPath + "\\" + entry.name, entry.sub)], later.kids);
        tempPaths := tempPaths + [Pending(currentPath + "\\" + entry.name, entry.sub)];
      }
      ScanEntriesAtEnd(rule, currentPath, es);
    }

    /**
     * The Windows walk: from the caller's path in NT form. It records exactly what
     * the specification walk reports, in order, and runs the gate once per
     * recorded repository.
     */
    method ExecuteWindows(fs: Dir<bv32>, clock: nat -> int, fromUtf8: string -> Option<string>,
                          toUtf8: string -> Option<string>, fullPathOf: string -> FullPathQuery)
      requires Valid()
      modifies this, progressQueue
      ensures Valid() && delivered == old(delivered)
      ensures var (root, wasNtPath) := WindowsRoot(path, fromUtf8, fullPathOf);
              repositories == old(repositories) + Walk(WindowsPolicy(wasNtPath, toUtf8), [Pending(root, fs)])
      ensures GateFollows(clock, |old(repositories)|, old(GateState()))
    {
      var rootPath := ConvertMultiByteToWideChar(path, fromUtf8);
      var wasNtPath := IsNtPath(rootPath);
      if !wasNtPath {
        rootPath := PrefixWithNtPath(rootPath, fullPathOf(rootPath));
      }
      ghost var policy := WindowsPolicy(wasNtPath, toUtf8);
      ghost var base := |repositories|;
      ghost var g0 := GateState();
      ghost var spec := Walk(policy, [Pending(rootPath, fs)]);
      var foundPaths := [Pending(rootPath, fs)];
      while foundPaths != []
        invariant Valid() && delivered == old(delivered) && GateFollows(clock, base, g0)
        invariant old(repositories) + spec == repositories + Walk(policy, foundPaths)
        decreases SizeAll(foundPaths)
      {
        ghost var f0 := foundPaths;
        ghost var r0 := repositories;
        var current := foundPaths[0];
        foundPaths := foundPaths[1..];
        if current.dir.Unopenable? || current.dir.entries == [] {
          WalkRound(policy, f0, foundPaths + [], r0);
          assert foundPaths + [] == foundPaths && r0 + [] == r0;
          continue;
        }
        var tempPaths, isGitRepo := ScanListingWindows(current.path, current.dir.entries, wasNtPath, toUtf8, clock, base, g0);
        if !isGitRepo {
          foundPaths := foundPaths + tempPaths;
        } else {
          foundPaths := foundPaths + [];
        }
        WalkRound(policy, f0, foundPaths, r0);
      }
    }

    /** Runs the oldest scheduled delivery: everything queued so far reaches the callback, in recording order. */
    method RunScheduledCall() returns (batch: Option<seq<string>>)
      requires Valid() && scheduledCalls != []
      modifies this`scheduledCalls, this`delivered, progressQueue
      ensures Valid()
      ensures scheduledCalls == old(scheduledCalls)[1..]
      ensures delivered == old(delivered) + old(progressQueue.items)
      ensures progressQueue.items == []
      ensures old(progressQueue.items) == [] <==> batch == None
      ensures batch.Some? ==> batch.value == old(progressQueue.items)
    {
      scheduledCalls := scheduledCalls[1..];
      delivered := delivered + progressQueue.items;
      batch := DeliverQueued(progressQueue);
    }

    /** `OnOK`: the promise resolves with every recorded repository, in recording order. */
    method OnOK() returns (result: seq<string>)
      requires Valid()
      ensures result == repositories
      ensures result == delivered + progressQueue.items
    {
      result := [];
      for i := 0 to |repositories|
        invariant result == repositories[..i]
      {
        result := result + [repositories[i]];
      }
    }
  }

  /**
   * `FindGitRepos`: a rejected call creates no worker; an accepted one starts a
   * worker on the given path and throttle with an empty queue.
   */
  method FindGitRepos(info: seq<JsValue>, now: int) returns (rejection: Option<string>, worker: FindGitReposWorker?)
    ensures ValidateArguments(info).Reject? ==> rejection == Some(ValidateArguments(info).message) && worker == null
    ensures ValidateArguments(info).Launch? ==>
      && rejection == None && worker != null && fresh(worker) && fresh(worker.progressQueue)
      && worker.Valid() && worker.repositories == []
      && worker.path == ValidateArguments(info).path
      && worker.throttleTimeoutMs == ValidateArguments(info).throttleTimeoutMs
      && worker.GateState() == Gate(now - worker.throttleTimeoutMs, [])
  {
    match ValidateArguments(info)
    case Reject(message) =>
      return Some(message), null;
    case Launch(path, throttleTimeoutMs) =>
      var progressQueue := new RepositoryQueue();
      worker := new FindGitReposWorker(path, progressQueue, throttleTimeoutMs, now);
      rejection := None;
  }
}
