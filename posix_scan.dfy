/**
 * The listing rule shared by the POSIX loop of the current addon
 * (cpp/src/FindGitRepos.cpp:205-252) and by the older addon
 * (src/FindGitRepos.cpp:40-83), and the two walk policies built from it.
 */
module PosixScan {
  import opened Wrappers
  import opened FileTree
  import opened Traversal
  import opened StatModes

  /** `uv_dirent_type_t`: the type `uv_fs_scandir_next` reports for an entry. */
  datatype DirentType =
    | DirentUnknown | DirentFile | DirentDir | DirentLink
    | DirentFifo | DirentSocket | DirentChar | DirentBlock

  /**
   * What the loop can learn about an entry: its reported type, and the mode
   * `uv_fs_lstat` would return for its path (`None` when that call fails).
   */
  datatype PosixKind = PosixKind(dtype: DirentType, lstat: Option<bv64>)

  /** An entry is used when it is reported as a directory, or has unknown type and `lstat` says directory and not link. */
  predicate KeepPosix(name: string, k: PosixKind)
  {
    match k.dtype
    case DirentUnknown => UnknownEntryIsDirectory(k.lstat)
    case DirentDir => true
    case _ => false
  }

  /** A match in the directory at `path` records `path + "/.git"`, which never fails. */
  function ReportPosix(path: string): (r: Option<string>)
    ensures r.Some? && path <= r.value && |r.value| == |path| + 5
  {
    Some(path + "/" + GitMarker)
  }

  const PosixRule: ScanRule<PosixKind> := ScanRule(KeepPosix, "/", ReportPosix, false)

  /** The current addon: a directory holding `.git` contributes no children. */
  function CurrentPosix(): Policy<PosixKind>
  {
    Policy(PosixRule, true)
  }

  /** The older addon: siblings of `.git` are still queued, so nested repositories are found. */
  function LegacyPosix(): Policy<PosixKind>
  {
    Policy(PosixRule, false)
  }

  /** Links, and entries whose `lstat` fails or reports a link, never enter the frontier. */
  lemma LinksAreNeverKept(name: string, m: bv64, other: PosixKind)
    ensures !KeepPosix(name, PosixKind(DirentLink, other.lstat))
    ensures !KeepPosix(name, PosixKind(DirentUnknown, None))
    ensures IsLink(m) ==> !KeepPosix(name, PosixKind(DirentUnknown, Some(m)))
  {
  }

  /** Every repository the current addon reports, the older one reports too, as often. */
  lemma CurrentReportsNoMoreThanLegacy(root: string, d: Dir<PosixKind>)
    ensures multiset(Walk(CurrentPosix(), [Pending(root, d)])) <= multiset(Walk(LegacyPosix(), [Pending(root, d)]))
  {
    WalkAgreesWithFound(CurrentPosix(), [Pending(root, d)]);
    WalkAgreesWithFound(LegacyPosix(), [Pending(root, d)]);
    PruningOnlyRemoves(PosixRule, [Pending(root, d)]);
  }

  function DirEntry(name: string, sub: Dir<PosixKind>): Entry<PosixKind>
  {
    Entry(name, PosixKind(DirentDir, None), sub)
  }

  /** `r/a` is a repository and holds a nested repository `r/a/b`. */
  function NestedTree(): Dir<PosixKind>
  {
    Opened([DirEntry("a", Opened([DirEntry(".git", Opened([])), DirEntry("b", Opened([DirEntry(".git", Opened([]))]))]))])
  }

  /** The current addon reports only the outer repository; the older one reports both. */
  lemma NestedRepositoryScenario()
    ensures Walk(CurrentPosix(), [Pending("r", NestedTree())]) == ["r/a/.git"]
    ensures Walk(LegacyPosix(), [Pending("r", NestedTree())]) == ["r/a/.git", "r/a/b/.git"]
  {
    var b := Opened([DirEntry(".git", Opened([]))]);
    var a := Opened([DirEntry(".git", Opened([])), DirEntry("b", b)]);
    var top := [Pending("r", NestedTree())];
    var inA := [Pending("r/a", a)];
    var inB := [Pending("r/a/b", b)];
    var gitEntry := DirEntry(".git", Opened([]));
    assert Classify(PosixRule, gitEntry) == Marker;
    assert Classify(PosixRule, DirEntry("a", a)) == Child;
    assert Classify(PosixRule, DirEntry("b", b)) == Child;
    assert PosixRule.report("r/a") == Some("r/a/.git") by {
      assert "r/a" + "/" + GitMarker == "r/a/.git";
    }
    assert PosixRule.report("r/a/b") == Some("r/a/b/.git") by {
      assert "r/a/b" + "/" + GitMarker == "r/a/b/.git";
    }
    assert Reported(PosixRule, "r/a") == ["r/a/.git"];
    assert Reported(PosixRule, "r/a/b") == ["r/a/b/.git"];
    assert ChildOf(PosixRule, "r", DirEntry("a", a)) == inA[0];
    assert ChildOf(PosixRule, "r/a", DirEntry("b", b)) == inB[0];
    assert NestedTree().entries[1..] == [] && a.entries[2..] == [] && b.entries[1..] == [];
    assert ScanDir(PosixRule, top[0]) == DirScan([], inA, false);
    assert ScanEntries(PosixRule, "r/a", a.entries[1..]) == DirScan([], inB, false);
    assert ScanDir(PosixRule, inA[0]) == DirScan(["r/a/.git"], inB, true);
    assert ScanDir(PosixRule, inB[0]) == DirScan(["r/a/b/.git"], [], true);
    assert top[1..] + inA == inA;
    assert inA[1..] + [] == [];
    assert inA[1..] + inB == inB;
    assert inB[1..] + [] == [];
    WalkStep(CurrentPosix(), top);
    WalkStep(CurrentPosix(), inA);
    WalkStep(LegacyPosix(), top);
    WalkStep(LegacyPosix(), inA);
    WalkStep(LegacyPosix(), inB);
  }
}
