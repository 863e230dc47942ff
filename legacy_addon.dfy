/**
 * The older addon (src/FindGitRepos.cpp): a three-argument native call with a
 * completion callback, a walk that keeps searching below repositories, and a
 * progress handle that delivers whatever is queued each time it fires.
 */
module LegacyAddon {
  import opened Wrappers
  import opened FileTree
  import opened Traversal
  import opened StatModes
  import opened PosixScan
  import opened RepositoryQueues
  import opened JsValues

  const PathMessage: string := "Must provide starting path as first argument."
  const ProgressMessage: string := "Must provide progress callback as second argument."
  const CompletionMessage: string := "Must provide completion callback as third argument."

  /** A thrown error with its message, or the path a worker is queued with. */
  datatype Outcome = Throw(message: string) | Queued(path: string)

  /** The checks of `NAN_METHOD(FindGitRepos)`, in order; the first failing one decides the message. */
  function ValidateArguments(info: seq<JsValue>): (r: Outcome)
    ensures r.Queued? <==> |info| >= 3 && info[0].Str? && info[1].Function? && info[2].Function?
    ensures r.Queued? ==> info[0] == Str(r.path)
    ensures r.Throw? && (|info| >= 1 && info[0].Str?) ==> r.message != PathMessage
    ensures (|info| < 1 || !info[0].Str?) ==> r == Throw(PathMessage)
  {
    if |info| < 1 || !info[0].Str? then Throw(PathMessage)
    else if |info| < 2 || !info[1].Function? then Throw(ProgressMessage)
    else if |info| < 3 || !info[2].Function? then Throw(CompletionMessage)
    else Queued(info[0].s)
  }

  class FindGitReposWorker {
    const mPath: string
    /** The queue of the progress baton. */
    const progressQueue: RepositoryQueue
    var mRepositories: seq<string>
    /** A `uv_async_send` has been made that the progress handle has not yet serviced. */
    var progressSignalled: bool
    /** The paths handed to the progress callback so far. */
    ghost var delivered: seq<string>

    /** Every recorded path has been delivered or still waits in the baton's queue, in recording order. */
    ghost predicate Valid()
      reads this, progressQueue
    {
      delivered + progressQueue.items == mRepositories
    }

    constructor (path: string, progressQueue: RepositoryQueue)
      requires progressQueue.items == []
      ensures Valid() && mPath == path && this.progressQueue == progressQueue
      ensures mRepositories == [] && delivered == [] && !progressSignalled
    {
      mPath := path;
      this.progressQueue := progressQueue;
      mRepositories := [];
      progressSignalled := false;
      delivered := [];
    }

    /** Records one repository: into the baton's queue, into the result list, then wakes the progress handle. */
    method Record(repoPath: string)
      requires Valid()
      modifies this, progressQueue
      ensures Valid() && delivered == old(delivered) && progressSignalled
      ensures mRepositories == old(mRepositories) + [repoPath]
    {
      progressQueue.Enqueue(repoPath);
      mRepositories := mRepositories + [repoPath];
      progressSignalled := true;
    }

    /**
     * One listing: each `.git` directory is recorded, every other directory is
     * pushed onto the back of the path queue, `.git` siblings included.
     */
    method ScanListing(currentPath: string, es: seq<Entry<PosixKind>>, pathQueue: seq<Pending<PosixKind>>)
      returns (pathQueue': seq<Pending<PosixKind>>)
      requires Valid()
      modifies this, progressQueue
      ensures Valid() && delivered == old(delivered)
      ensures mRepositories == old(mRepositories) + ScanEntries(PosixRule, currentPath, es).records
      ensures pathQueue' == pathQueue + ScanEntries(PosixRule, currentPath, es).kids
      ensures progressSignalled == (old(progressSignalled) || |mRepositories| > |old(mRepositories)|)
    {
      ghost var s := ScanEntries(PosixRule, currentPath, es);
      pathQueue' := pathQueue;
      for i := 0 to |es|
        invariant Valid() && delivered == old(delivered)
        invariant mRepositories + ScanEntries(PosixRule, currentPath, es[i..]).records == old(mRepositories) + s.records
        invariant pathQueue' + ScanEntries(PosixRule, currentPath, es[i..]).kids == pathQueue + s.kids
        invariant progressSignalled == (old(progressSignalled) || |mRepositories| > |old(mRepositories)|)
        invariant |old(mRepositories)| <= |mRepositories|
      {
        var entry := es[i];
        ghost var r0 := mRepositories;
        ghost var rest := ScanEntries(PosixRule, currentPath, es[i + 1..]);
        ScanEntriesFrom(PosixRule, currentPath, es, i);
        var nextPath := currentPath + "/" + entry.name;
        if entry.kind.dtype == DirentUnknown {
          if !UnknownEntryIsDirectory(entry.kind.lstat) {
            continue;
          }
        } else if entry.kind.dtype != DirentDir {
          continue;
        }
        if entry.name == GitMarker {
          Record(nextPath);
          assert Reported(PosixRule, currentPath) == [nextPath];
          AppendAssoc(r0, [nextPath], rest.records);
          continue;
        }
        AppendAssoc(pathQueue', [Pending(nextPath, entry.sub)], rest.kids);
        pathQueue' := pathQueue' + [Pending(nextPath, entry.sub)];
      }
      ScanEntriesAtEnd(PosixRule, currentPath, es);
    }

    /**
     * `Execute`: the walk records exactly what the specification walk without
     * pruning reports, in order, and leaves the progress handle woken when it
     * recorded anything.
     */
    method Execute(fs: Dir<PosixKind>)
      requires Valid()
      modifies this, progressQueue
      ensures Valid() && delivered == old(delivered)
      ensures mRepositories == old(mRepositories) + Walk(LegacyPosix(), [Pending(mPath, fs)])
      ensures progressSignalled == (old(progressSignalled) || Walk(LegacyPosix(), [Pending(mPath, fs)]) != [])
    {
      ghost var spec := Walk(LegacyPosix(), [Pending(mPath, fs)]);
      var pathQueue := [Pending(mPath, fs)];
      while pathQueue != []
        invariant Valid() && delivered == old(delivered)
        invariant old(mRepositories) + spec == mRepositories + Walk(LegacyPosix(), pathQueue)
        invariant progressSignalled == (old(progressSignalled) || |mRepositories| > |old(mRepositories)|)
        invariant |old(mRepositories)| <= |mRepositories|
        decreases SizeAll(pathQueue)
      {
        ghost var f0 := pathQueue;
        ghost var r0 := mRepositories;
        var current := pathQueue[0];
        pathQueue := pathQueue[1..];
        if current.dir.Unopenable? {
          WalkRound(LegacyPosix(), f0, pathQueue + [], r0);
          assert pathQueue + [] == pathQueue && r0 + [] == r0;
          continue;
        }
        pathQueue := ScanListing(current.path, current.dir.entries, pathQueue);
        WalkRound(LegacyPosix(), f0, pathQueue, r0);
      }
      assert |mRepositories| > |old(mRepositories)| <==> spec != [];
    }

    /**
     * `FireProgressCallback`: counts the baton's queue and hands exactly that many
     * paths, front first, to the progress callback, which is called even when
     * there are none.
     */
    method FireProgressCallback() returns (batch: seq<string>)
      requires Valid()
      modifies this`progressSignalled, this`delivered, progressQueue
      ensures Valid() && !progressSignalled
      ensures batch == old(progressQueue.items)
      ensures delivered == old(delivered) + batch
      ensures progressQueue.items == []
    {
      progressSignalled := false;
      var numRepos := progressQueue.Count();
      batch := [];
      for i := 0 to numRepos
        invariant |batch| == i && !progressSignalled && delivered == old(delivered)
        invariant batch + progressQueue.items == old(progressQueue.items)
      {
        var repoPath := progressQueue.Dequeue();
        batch := batch + [repoPath];
      }
      delivered := delivered + batch;
    }

    /** `CleanUpProgressBatonAndHandle`: paths still queued are dropped without reaching the progress callback. */
    method CleanUpProgressBatonAndHandle()
      modifies progressQueue
      ensures progressQueue.items == []
    {
      progressQueue.Clear();
    }

    /**
     * `HandleOKCallback`: closes the progress handle, which clears the queue, and
     * passes every recorded path, in recording order, to the completion callback,
     * including those whose progress delivery is dropped.
     */
    method HandleOKCallback() returns (result: seq<string>)
      requires Valid()
      modifies progressQueue
      ensures result == mRepositories
      ensures result == delivered + old(progressQueue.items)
      ensures progressQueue.items == []
    {
      CleanUpProgressBatonAndHandle();
      result := [];
      for i := 0 to |mRepositories|
        invariant result == mRepositories[..i]
      {
        result := result + [mRepositories[i]];
      }
    }
  }

  /** `NAN_METHOD(FindGitRepos)`: a failed check throws and queues nothing; otherwise a worker is queued on the path. */
  method FindGitRepos(info: seq<JsValue>) returns (thrown: Option<string>, worker: FindGitReposWorker?)
    ensures ValidateArguments(info).Throw? ==> thrown == Some(ValidateArguments(info).message) && worker == null
    ensures ValidateArguments(info).Queued? ==>
      && thrown == None && worker != null && fresh(worker) && fresh(worker.progressQueue)
      && worker.Valid() && worker.mRepositories == [] && worker.mPath == ValidateArguments(info).path
  {
    match ValidateArguments(info)
    case Throw(message) =>
      return Some(message), null;
    case Queued(path) =>
      var progressQueue := new RepositoryQueue();
      worker := new FindGitReposWorker(path, progressQueue);
      thrown := None;
  }
}
