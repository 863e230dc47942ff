/**
 * The listing rule of the Windows loop of the current addon
 * (cpp/src/FindGitRepos.cpp:115-203): entries come from `FindFirstFileW` and
 * `FindNextFileW`, the walk runs on NT-prefixed wide paths, a listing stops at
 * its first `.git` directory, and a match is reported in the `GetFullPathNameW`
 * full-path form without the NT prefix, or as given when the caller's path was
 * already an NT path.
 */
module WindowsScan {
  import opened Wrappers
  import opened FileTree
  import opened Traversal
  import opened WindowsHelpers

  /** `FILE_ATTRIBUTE_DIRECTORY`. */
  const FileAttributeDirectory: bv32 := 0x10

  /** An entry is used when its attributes say directory and it is neither `.` nor `..`. */
  predicate KeepWindows(name: string, attributes: bv32)
  {
    attributes & FileAttributeDirectory == FileAttributeDirectory && name != "." && name != ".."
  }

  /** Appends `\.git` to a converted path; a failed conversion reports nothing. */
  function GitPathOf(converted: Option<string>): (r: Option<string>)
    ensures r.Some? <==> converted.Some?
    ensures r.Some? ==> converted.value <= r.value && r.value[|converted.value|..] == "\\.git"
  {
    match converted
    case None => None
    case Some(text) => Some(text + "\\" + GitMarker)
  }

  /** A match in the directory at `path` is converted (stripped unless the root was an NT path) and suffixed. */
  function ReportWindows(path: string, wasNtPath: bool, toUtf8: string -> Option<string>): Option<string>
  {
    GitPathOf(ConvertWideCharToMultiByte(path, wasNtPath, toUtf8))
  }

  function WindowsRule(wasNtPath: bool, toUtf8: string -> Option<string>): ScanRule<bv32>
  {
    ScanRule(KeepWindows, "\\", path => ReportWindows(path, wasNtPath, toUtf8), true)
  }

  /** The Windows walk: a listing stops at its first match, and a matched directory contributes no children. */
  function WindowsPolicy(wasNtPath: bool, toUtf8: string -> Option<string>): Policy<bv32>
  {
    Policy(WindowsRule(wasNtPath, toUtf8), true)
  }

  /**
   * Where the Windows walk starts: the caller's path in wide form, given the NT
   * prefix unless it already is an NT path, and whether it was one.
   */
  function WindowsRoot(path: string, fromUtf8: string -> Option<string>, fullPathOf: string -> FullPathQuery): (root: (string, bool))
    ensures root.1 == IsNtPath(ConvertMultiByteToWideChar(path, fromUtf8))
    ensures root.1 ==> root.0 == ConvertMultiByteToWideChar(path, fromUtf8)
    ensures root.1 || QuerySucceeded(fullPathOf(ConvertMultiByteToWideChar(path, fromUtf8))) ==> IsNtPath(root.0)
  {
    var wide := ConvertMultiByteToWideChar(path, fromUtf8);
    var wasNtPath := IsNtPath(wide);
    (if wasNtPath then wide else PrefixWithNtPath(wide, fullPathOf(wide)), wasNtPath)
  }

  /** `.` and `..` never enter the frontier, whatever their attributes. */
  lemma DotEntriesAreNeverKept(attributes: bv32)
    ensures !KeepWindows(".", attributes) && !KeepWindows("..", attributes)
    ensures !KeepWindows(GitMarker, attributes & !FileAttributeDirectory)
  {
  }

  /**
   * When the walk started from a full path that is not a UNC head and was
   * prefixed, everything it reports is the conversion of a path below that
   * full path (the `GetFullPathNameW` form, not the form the caller wrote),
   * without the NT prefix, followed by `\.git`.
   */
  lemma ReportsAreStrippedFullPaths(full: string, d: Dir<bv32>, toUtf8: string -> Option<string>)
    requires !(UncHead <= full) && !(full <= UncHead)
    ensures forall r :: r in Walk(WindowsPolicy(false, toUtf8), [Pending(NtRewrite(full), d)]) ==>
      exists suffix :: GitPathOf(toUtf8(full + suffix)) == Some(r)
  {
    var p := WindowsPolicy(false, toUtf8);
    var root := NtRewrite(full);
    RecordsAreReportsUnder(p, [Pending(root, d)], root);
    forall r | r in Walk(p, [Pending(root, d)])
      ensures exists suffix :: GitPathOf(toUtf8(full + suffix)) == Some(r)
    {
      var q :| root <= q && p.rule.report(q) == Some(r);
      var suffix := q[|root|..];
      assert q == root + suffix;
      DivergentPathsStayClearOfUncHead(full, suffix);
      StripUndoesRewrite(full, suffix);
      assert GitPathOf(toUtf8(full + suffix)) == Some(r);
    }
  }

  /** A matched directory whose path cannot be converted records nothing, and its subtree is still not searched. */
  lemma FailedConversionStillBlocksDescent(path: string, es: seq<Entry<bv32>>, g: seq<Pending<bv32>>,
                                           wasNtPath: bool, toUtf8: string -> Option<string>)
    requires ConvertWideCharToMultiByte(path, wasNtPath, toUtf8) == None
    requires exists i :: 0 <= i < |es| && Classify(WindowsRule(wasNtPath, toUtf8), es[i]) == Marker
    ensures Walk(WindowsPolicy(wasNtPath, toUtf8), [Pending(path, Opened(es))] + g) == Walk(WindowsPolicy(wasNtPath, toUtf8), g)
  {
    UnreportableMatchStillPrunes(WindowsRule(wasNtPath, toUtf8), path, es, g);
  }

  /** What a match in the directory at `path` records under the Windows rule. */
  lemma WindowsReported(path: string, wasNtPath: bool, toUtf8: string -> Option<string>)
    ensures var converted := ConvertWideCharToMultiByte(path, wasNtPath, toUtf8);
            Reported(WindowsRule(wasNtPath, toUtf8), path) ==
              if converted.None? then [] else [converted.value + "\\" + GitMarker]
  {
  }
}
