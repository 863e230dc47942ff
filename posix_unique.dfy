/**
 * No repository is reported twice by a POSIX walk (the duplicate checks of
 * test/index-spec.js:98, 141 and 254), for directory trees whose listings hold
 * distinct, non-empty names without `/`, as real directory listings do.
 *
 * The argument follows the depth-first reference definition `Found`: every report
 * is `q + "/.git"` for a directory path `q` under the listed directory, siblings'
 * subtrees share no directory path, and one listing records at most once.
 */
module PosixUnique {
  import opened FileTree
  import opened Traversal
  import opened PosixScan

  /** A name a directory listing can hold. */
  predicate PlainName(n: string)
  {
    n != "" && '/' !in n
  }

  predicate DistinctNames(es: seq<Entry<PosixKind>>)
  {
    forall i, j :: 0 <= i < j < |es| ==> es[i].name != es[j].name
  }

  /** Every listing of the tree holds distinct plain names. */
  predicate WellNamed(d: Dir<PosixKind>)
    decreases d
  {
    match d
    case Unopenable => true
    case Opened(es) =>
      && DistinctNames(es)
      && forall i :: 0 <= i < |es| ==> PlainName(es[i].name) && WellNamed(es[i].sub)
  }

  /** `q` is the directory `root` or a directory below it. */
  predicate Under(root: string, q: string)
  {
    q == root || root + "/" <= q
  }

  /** The directory whose `.git` a report names. */
  function Origin(x: string): string
    requires |x| >= 5
  {
    x[..|x| - 5]
  }

  /** `x` reports a repository in `root` or below it. */
  predicate ReportUnder(root: string, x: string)
  {
    |x| >= 5 && Under(root, Origin(x))
  }

  /** The frontier entries a listing of `path` contributes: distinct children named by plain names. */
  predicate SiblingsOf(path: string, f: seq<Pending<PosixKind>>)
  {
    && (forall i :: 0 <= i < |f| ==>
          && path + "/" <= f[i].path
          && PlainName(f[i].path[|path| + 1..])
          && WellNamed(f[i].dir))
    && (forall i, j :: 0 <= i < j < |f| ==> f[i].path != f[j].path)
  }

  /** Directories below two different siblings are different. */
  lemma SiblingsAreApart(path: string, n1: string, n2: string, q: string)
    requires PlainName(n1) && PlainName(n2) && n1 != n2
    ensures !(Under(path + "/" + n1, q) && Under(path + "/" + n2, q))
  {
    var c1, c2 := path + "/" + n1, path + "/" + n2;
    var k := |path| + 1;
    assert c1[k..] == n1 && c2[k..] == n2;
    if Under(c1, q) {
      assert q[..|c1|] == c1;
      if |n1| == |n2| {
        assert c1 != c2;
      } else if |n1| < |n2| {
        assert c2[k + |n1|] == n2[|n1|];
        assert n2[|n1|] in n2;
        if |q| >= |c2| {
          assert q[k + |n1|] == '/';
          assert q[..|c2|][k + |n1|] != c2[k + |n1|];
        }
      } else {
        assert c1[k + |n2|] == n1[|n2|];
        assert n1[|n2|] in n1;
        assert q[k + |n2|] == c1[k + |n2|];
        assert q != c2;
      }
    }
  }

  /** A directory under a child of `path` lies strictly below `path`. */
  lemma UnderChildIsBelow(path: string, child: string, q: string)
    requires path + "/" <= child && Under(child, q)
    ensures path + "/" <= q && q != path
  {
    assert q[..|child|] == child;
    assert q[..|path| + 1] == child[..|path| + 1];
  }

  /** A listing without a `.git` entry records nothing. */
  lemma {:induction false} NoMarkerNoRecords(path: string, es: seq<Entry<PosixKind>>)
    requires forall i :: 0 <= i < |es| ==> es[i].name != GitMarker
    ensures ScanEntries(PosixRule, path, es).records == []
    decreases |es|
  {
    if es != [] {
      NoMarkerNoRecords(path, es[1..]);
    }
  }

  /** A listing with distinct names records at most once, and only its own `.git`. */
  lemma {:induction false} ListingRecords(path: string, es: seq<Entry<PosixKind>>)
    requires DistinctNames(es)
    ensures |ScanEntries(PosixRule, path, es).records| <= 1
    ensures forall x :: x in ScanEntries(PosixRule, path, es).records ==> x == path + "/" + GitMarker
    decreases |es|
  {
    ScanRecordsOnlyReports(PosixRule, path, es);
    if es != [] {
      if Classify(PosixRule, es[0]) == Marker {
        forall i | 0 <= i < |es[1..]|
          ensures es[1..][i].name != GitMarker
        {
          assert es[1..][i] == es[i + 1];
        }
        NoMarkerNoRecords(path, es[1..]);
      } else {
        ListingRecords(path, es[1..]);
      }
    }
  }

  /** The children of a listing with distinct plain names are siblings of that listing. */
  lemma {:induction false} ListingKids(path: string, es: seq<Entry<PosixKind>>)
    requires DistinctNames(es)
    requires forall i :: 0 <= i < |es| ==> PlainName(es[i].name) && WellNamed(es[i].sub)
    ensures SiblingsOf(path, ScanEntries(PosixRule, path, es).kids)
    decreases |es|
  {
    if es != [] {
      var rest := ScanEntries(PosixRule, path, es[1..]).kids;
      ListingKids(path, es[1..]);
      if Classify(PosixRule, es[0]) == Child {
        var c := ChildOf(PosixRule, path, es[0]);
        var kids := [c] + rest;
        assert c.path == path + "/" + es[0].name;
        assert c.path[|path| + 1..] == es[0].name;
        KidsComeFromKeptEntries(PosixRule, path, es[1..]);
        forall j | 0 <= j < |rest|
          ensures c.path != rest[j].path
        {
          assert rest[j] in rest;
          var m :| 0 <= m < |es[1..]| && Classify(PosixRule, es[1..][m]) == Child && rest[j] == ChildOf(PosixRule, path, es[1..][m]);
          assert es[1..][m] == es[m + 1];
          assert rest[j].path[|path| + 1..] == es[m + 1].name;
        }
        forall i, j | 0 <= i < j < |kids|
          ensures kids[i].path != kids[j].path
        {
          if i > 0 {
            assert kids[i] == rest[i - 1] && kids[j] == rest[j - 1];
          } else {
            assert kids[j] == rest[j - 1];
          }
        }
        forall i | 0 <= i < |kids|
          ensures path + "/" <= kids[i].path && PlainName(kids[i].path[|path| + 1..]) && WellNamed(kids[i].dir)
        {
          if i > 0 {
            assert kids[i] == rest[i - 1];
          }
        }
      }
    }
  }

  /** Every element of `m` reports a repository strictly below `path`. */
  predicate ReportsBelow(path: string, m: multiset<string>)
  {
    forall x :: x in m ==> |x| >= 5 && path + "/" <= Origin(x)
  }

  /** The reports of the children's subtrees lie strictly below the listed directory. */
  lemma ChildReportsBelow(path: string, next: seq<Pending<PosixKind>>, below: multiset<string>)
    requires SiblingsOf(path, next)
    requires forall x :: x in below ==> exists j :: 0 <= j < |next| && ReportUnder(next[j].path, x)
    ensures ReportsBelow(path, below)
  {
    forall x | x in below
      ensures |x| >= 5 && path + "/" <= Origin(x)
    {
      var j :| 0 <= j < |next| && ReportUnder(next[j].path, x);
      UnderChildIsBelow(path, next[j].path, Origin(x));
    }
  }

  /** A listing's own record joined with the reports from below: at most once each, all at or below the listing. */
  lemma OwnAndBelow(path: string, records: seq<string>, below: multiset<string>)
    requires |records| <= 1
    requires forall x :: x in records ==> x == path + "/" + GitMarker
    requires ReportsBelow(path, below)
    requires forall x :: below[x] <= 1
    ensures forall x :: x in multiset(records) + below ==> ReportUnder(path, x)
    ensures forall x :: (multiset(records) + below)[x] <= 1
  {
    forall x | x in multiset(records)
      ensures ReportUnder(path, x) && below[x] == 0
    {
      assert x in records;
      assert x == path + "/" + GitMarker;
      assert x[..|x| - 5] == path;
    }
    forall x
      ensures multiset(records)[x] <= 1
    {
      assert multiset(records)[x] <= |multiset(records)|;
    }
  }

  /**
   * Depth-first: every repository found from `pend` is reported for a directory
   * at or below it, and none is found twice.
   */
  lemma {:induction false} FoundOnce(prunes: bool, pend: Pending<PosixKind>)
    requires WellNamed(pend.dir)
    ensures forall x :: x in Found(Policy(PosixRule, prunes), pend) ==> ReportUnder(pend.path, x)
    ensures forall x :: Found(Policy(PosixRule, prunes), pend)[x] <= 1
    decreases Size(pend.dir), 0
  {
    var p := Policy(PosixRule, prunes);
    var s := ScanDir(PosixRule, pend);
    var next := Next(p, s);
    if pend.dir.Opened? {
      ListingRecords(pend.path, pend.dir.entries);
      ListingKids(pend.path, pend.dir.entries);
    }
    assert SiblingsOf(pend.path, next);
    FoundAllOnce(prunes, pend.path, next);
    ChildReportsBelow(pend.path, next, FoundAll(p, next));
    OwnAndBelow(pend.path, s.records, FoundAll(p, next));
  }

  /** Depth-first over the children of one listing: each report belongs to one child, and none is found twice. */
  lemma {:induction false} FoundAllOnce(prunes: bool, path: string, f: seq<Pending<PosixKind>>)
    requires SiblingsOf(path, f)
    ensures forall x :: x in FoundAll(Policy(PosixRule, prunes), f) ==>
      exists j :: 0 <= j < |f| && ReportUnder(f[j].path, x)
    ensures forall x :: FoundAll(Policy(PosixRule, prunes), f)[x] <= 1
    decreases SizeAll(f), 1
  {
    var p := Policy(PosixRule, prunes);
    if f != [] {
      var tail := f[1..];
      assert SiblingsOf(path, tail) by {
        forall i | 0 <= i < |tail|
          ensures path + "/" <= tail[i].path && PlainName(tail[i].path[|path| + 1..]) && WellNamed(tail[i].dir)
        {
          assert tail[i] == f[i + 1];
        }
        forall i, j | 0 <= i < j < |tail|
          ensures tail[i].path != tail[j].path
        {
          assert tail[i] == f[i + 1] && tail[j] == f[j + 1];
        }
      }
      FoundOnce(prunes, f[0]);
      FoundAllOnce(prunes, path, tail);
      var first := Found(p, f[0]);
      var rest := FoundAll(p, tail);
      assert FoundAll(p, f) == first + rest;
      forall x | x in first
        ensures rest[x] == 0
      {
        if x in rest {
          var j :| 0 <= j < |tail| && ReportUnder(tail[j].path, x);
          assert tail[j] == f[j + 1];
          var n0, nj := f[0].path[|path| + 1..], f[j + 1].path[|path| + 1..];
          assert f[0].path == path + "/" + n0 by {
            assert f[0].path[..|path| + 1] == path + "/";
          }
          assert f[j + 1].path == path + "/" + nj by {
            assert f[j + 1].path[..|path| + 1] == path + "/";
          }
          SiblingsAreApart(path, n0, nj, Origin(x));
        }
      }
      forall x | x in FoundAll(p, f)
        ensures exists j :: 0 <= j < |f| && ReportUnder(f[j].path, x)
      {
        if x !in first {
          var j :| 0 <= j < |tail| && ReportUnder(tail[j].path, x);
          assert tail[j] == f[j + 1];
        }
      }
    }
  }

  /** A sequence whose multiset holds every element at most once has no repeated element. */
  lemma NoRepeats(s: seq<string>)
    requires forall x :: multiset(s)[x] <= 1
    ensures forall i, j :: 0 <= i < j < |s| ==> s[i] != s[j]
  {
    forall i, j | 0 <= i < j < |s|
      ensures s[i] != s[j]
    {
      assert s == s[..j] + [s[j]] + s[j + 1..];
      assert s[..j][i] == s[i];
      assert multiset(s)[s[j]] == multiset(s[..j])[s[j]] + 1 + multiset(s[j + 1..])[s[j]];
      assert s[j] !in multiset(s[..j]);
    }
  }

  /**
   * Over a tree whose listings hold distinct plain names, the walk of either addon
   * reports no repository twice, and every report is a `.git` directly inside a
   * directory at or below the root.
   */
  lemma WalkReportsEachRepositoryOnce(prunes: bool, root: string, d: Dir<PosixKind>)
    requires WellNamed(d)
    ensures var w := Walk(Policy(PosixRule, prunes), [Pending(root, d)]);
            forall i, j :: 0 <= i < j < |w| ==> w[i] != w[j]
    ensures forall x :: x in Walk(Policy(PosixRule, prunes), [Pending(root, d)]) ==> ReportUnder(root, x)
  {
    var p := Policy(PosixRule, prunes);
    var f := [Pending(root, d)];
    WalkAgreesWithFound(p, f);
    assert f[1..] == [];
    assert FoundAll(p, f) == Found(p, f[0]) + FoundAll(p, []);
    FoundOnce(prunes, f[0]);
    NoRepeats(Walk(p, f));
  }
}
