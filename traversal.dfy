/**
 * The breadth-first repository walk, written once against an abstract scan rule.
 *
 * Both addon variants keep a FIFO frontier of directories, list the directory at
 * its front, and for each entry either skip it, record a repository (the entry is
 * named `.git`), or remember it as a child to explore. They differ only in the
 * rule for one listing (which entries count as directories, the path separator,
 * how a match is reported, whether the scan stops at the first match) and in
 * whether a matched directory's other children still join the frontier.
 *
 * `Walk` is the specification the imperative loops are proved against; `Found`
 * is an independent, depth-first reference definition of what the walk reports.
 */
module Traversal {
  import opened Wrappers
  import opened FileTree

  /** Name of the entry that marks its parent directory as a repository root. */
  const GitMarker: string := ".git"

  /** A directory waiting in the frontier: the path it is listed by, and what that listing yields. */
  datatype Pending<K> = Pending(path: string, dir: Dir<K>)

  /**
   * How one listing is scanned: `keep` decides from an entry's name and kind whether
   * it is a directory the walk may use; `sep` joins a parent path and a child name;
   * `report` turns the path of a matched directory into the reported string (or
   * fails); `stopAtMarker` says whether the scan of a listing ends at its first match.
   */
  datatype ScanRule<!K> = ScanRule(
    keep: (string, K) -> bool,
    sep: string,
    report: string -> Option<string>,
    stopAtMarker: bool)

  /** A scan rule, and whether a matched directory's other children are dropped. */
  datatype Policy<!K> = Policy(rule: ScanRule<K>, prunes: bool)

  datatype EntryClass = Skip | Marker | Child

  /** A listed entry is skipped unless the rule keeps it; a kept `.git` is the marker, any other kept entry a child. */
  function Classify<K>(rule: ScanRule<K>, e: Entry<K>): (c: EntryClass)
    ensures c == Skip <==> !rule.keep(e.name, e.kind)
    ensures c == Marker <==> rule.keep(e.name, e.kind) && e.name == GitMarker
  {
    if !rule.keep(e.name, e.kind) then Skip
    else if e.name == GitMarker then Marker
    else Child
  }

  /** The frontier entry for a child directory: parent path, separator, child name. */
  function ChildOf<K>(rule: ScanRule<K>, path: string, e: Entry<K>): Pending<K>
  {
    Pending(path + rule.sep + e.name, e.sub)
  }

  /** What a match in the directory at `path` records: one string, or nothing when reporting fails. */
  function Reported<K>(rule: ScanRule<K>, path: string): (r: seq<string>)
    ensures |r| <= 1
    ensures forall x :: x in r <==> rule.report(path) == Some(x)
  {
    match rule.report(path)
    case None => []
    case Some(s) => [s]
  }

  /** The outcome of scanning one listing: what it recorded, the children it kept, whether it matched. */
  datatype DirScan<K> = DirScan(records: seq<string>, kids: seq<Pending<K>>, matched: bool)

  function SizeAll<K>(f: seq<Pending<K>>): nat
  {
    if f == [] then 0 else Size(f[0].dir) + SizeAll(f[1..])
  }

  lemma {:induction false} SizeAllAppend<K>(a: seq<Pending<K>>, b: seq<Pending<K>>)
    ensures SizeAll(a + b) == SizeAll(a) + SizeAll(b)
    decreases |a|
  {
    if a == [] {
      assert a + b == b;
    } else {
      assert (a + b)[0] == a[0];
      assert (a + b)[1..] == a[1..] + b;
      SizeAllAppend(a[1..], b);
    }
  }

  /**
   * Scans the entries of one listing in enumeration order. The kept children are
   * smaller than the listing; a rule that stops at the first match records at most
   * once; a failing report records nothing. `ScanMatchesIffMarker` states when it
   * matches; `MarkerIsRecorded` and `ScanRecordsOnlyReports` state, in the two
   * directions, what it records.
   */
  function ScanEntries<K>(rule: ScanRule<K>, path: string, es: seq<Entry<K>>): (s: DirScan<K>)
    ensures SizeAll(s.kids) <= SizeEntries(es)
    ensures rule.stopAtMarker ==> |s.records| <= 1
    ensures rule.report(path) == None ==> s.records == []
    decreases |es|
  {
    if es == [] then DirScan([], [], false)
    else
      match Classify(rule, es[0])
      case Skip => ScanEntries(rule, path, es[1..])
      case Child =>
        var rest := ScanEntries(rule, path, es[1..]);
        DirScan(rest.records, [ChildOf(rule, path, es[0])] + rest.kids, rest.matched)
      case Marker =>
        if rule.stopAtMarker then DirScan(Reported(rule, path), [], true)
        else
          var rest := ScanEntries(rule, path, es[1..]);
          DirScan(Reported(rule, path) + rest.records, rest.kids, true)
  }

  /** A listing matches exactly when one of its entries is a kept directory named `.git`. */
  lemma {:induction false} ScanMatchesIffMarker<K>(rule: ScanRule<K>, path: string, es: seq<Entry<K>>)
    ensures ScanEntries(rule, path, es).matched <==> exists i :: 0 <= i < |es| && Classify(rule, es[i]) == Marker
    decreases |es|
  {
    if es != [] {
      ScanMatchesIffMarker(rule, path, es[1..]);
      assert forall i :: 1 <= i < |es| ==> es[i] == es[1..][i - 1];
    }
  }

  /** Everything a listing records is the report for that directory. */
  lemma {:induction false} ScanRecordsOnlyReports<K>(rule: ScanRule<K>, path: string, es: seq<Entry<K>>)
    ensures forall r :: r in ScanEntries(rule, path, es).records ==> rule.report(path) == Some(r)
    decreases |es|
  {
    if es != [] && !(Classify(rule, es[0]) == Marker && rule.stopAtMarker) {
      ScanRecordsOnlyReports(rule, path, es[1..]);
    }
  }

  /** One listing of a frontier entry; an unopenable directory yields nothing. */
  function ScanDir<K>(rule: ScanRule<K>, pend: Pending<K>): (s: DirScan<K>)
    ensures SizeAll(s.kids) < Size(pend.dir)
  {
    match pend.dir
    case Unopenable => DirScan([], [], false)
    case Opened(es) => ScanEntries(rule, pend.path, es)
  }

  /** The directories a scanned listing appends to the back of the frontier. */
  function Next<K>(p: Policy<K>, s: DirScan<K>): seq<Pending<K>>
  {
    if p.prunes && s.matched then [] else s.kids
  }

  /** The walk: list the front of the frontier, record, append what it kept, repeat. */
  function Walk<K>(p: Policy<K>, f: seq<Pending<K>>): seq<string>
    decreases SizeAll(f)
  {
    if f == [] then []
    else
      var s := ScanDir(p.rule, f[0]);
      SizeAllAppend(f[1..], Next(p, s));
      s.records + Walk(p, f[1..] + Next(p, s))
  }

  lemma WalkStep<K>(p: Policy<K>, f: seq<Pending<K>>)
    requires f != []
    ensures Walk(p, f) == ScanDir(p.rule, f[0]).records + Walk(p, f[1..] + Next(p, ScanDir(p.rule, f[0])))
  {
  }

  /** Reference definition: what a directory contributes, computed depth-first. */
  function Found<K>(p: Policy<K>, pend: Pending<K>): multiset<string>
    decreases Size(pend.dir), 0
  {
    var s := ScanDir(p.rule, pend);
    multiset(s.records) + FoundAll(p, Next(p, s))
  }

  function FoundAll<K>(p: Policy<K>, f: seq<Pending<K>>): multiset<string>
    decreases SizeAll(f), 1
  {
    if f == [] then multiset{} else Found(p, f[0]) + FoundAll(p, f[1..])
  }

  lemma {:induction false} FoundAllAppend<K>(p: Policy<K>, a: seq<Pending<K>>, b: seq<Pending<K>>)
    ensures FoundAll(p, a + b) == FoundAll(p, a) + FoundAll(p, b)
    decreases |a|
  {
    if a == [] {
      assert a + b == b;
    } else {
      assert (a + b)[0] == a[0];
      assert (a + b)[1..] == a[1..] + b;
      FoundAllAppend(p, a[1..], b);
    }
  }

  /**
   * The breadth-first walk reports exactly what the depth-first reference definition
   * finds, each repository as often: the order of the frontier affects only the
   * order of the results.
   */
  lemma {:induction false} WalkAgreesWithFound<K>(p: Policy<K>, f: seq<Pending<K>>)
    ensures multiset(Walk(p, f)) == FoundAll(p, f)
    decreases SizeAll(f)
  {
    if f != [] {
      var s := ScanDir(p.rule, f[0]);
      var rest := f[1..] + Next(p, s);
      SizeAllAppend(f[1..], Next(p, s));
      WalkAgreesWithFound(p, rest);
      FoundAllAppend(p, f[1..], Next(p, s));
    }
  }

  /** A listing that holds a kept `.git` records the directory's report, whenever reporting succeeds. */
  lemma {:induction false} MarkerIsRecorded<K>(rule: ScanRule<K>, path: string, es: seq<Entry<K>>, i: nat)
    requires i < |es| && Classify(rule, es[i]) == Marker && rule.report(path).Some?
    ensures rule.report(path).value in ScanEntries(rule, path, es).records
    decreases |es|
  {
    if Classify(rule, es[0]) != Marker {
      assert es[1..][i - 1] == es[i];
      MarkerIsRecorded(rule, path, es[1..], i - 1);
    }
  }

  /** The depth-first reference finds, for each frontier entry, everything that entry finds. */
  lemma {:induction false} FoundIsPartOfFoundAll<K>(p: Policy<K>, f: seq<Pending<K>>, i: nat)
    requires i < |f|
    ensures Found(p, f[i]) <= FoundAll(p, f)
    decreases |f|
  {
    if i > 0 {
      assert f[1..][i - 1] == f[i];
      FoundIsPartOfFoundAll(p, f[1..], i - 1);
    }
  }

  /** Whatever a directory of the frontier records when it is listed, the walk reports. */
  lemma ListedIsReported<K>(p: Policy<K>, f: seq<Pending<K>>, i: nat, x: string)
    requires i < |f| && x in ScanDir(p.rule, f[i]).records
    ensures x in Walk(p, f)
  {
    WalkAgreesWithFound(p, f);
    FoundIsPartOfFoundAll(p, f, i);
    assert x in Found(p, f[i]);
  }

  /**
   * Every repository in a directory of the frontier is reported: a kept `.git`
   * in its listing puts the directory's report in the walk's results.
   */
  lemma RepositoryInFrontierIsReported<K>(p: Policy<K>, f: seq<Pending<K>>, i: nat, j: nat)
    requires i < |f| && f[i].dir.Opened? && j < |f[i].dir.entries|
    requires Classify(p.rule, f[i].dir.entries[j]) == Marker && p.rule.report(f[i].path).Some?
    ensures p.rule.report(f[i].path).value in Walk(p, f)
  {
    MarkerIsRecorded(p.rule, f[i].path, f[i].dir.entries, j);
    ListedIsReported(p, f, i, p.rule.report(f[i].path).value);
  }

  /** What a child the listing queues finds, its parent finds too: the walk reaches every queued subtree. */
  lemma {:induction false} QueuedChildIsSearched<K>(p: Policy<K>, pend: Pending<K>, j: nat)
    requires j < |Next(p, ScanDir(p.rule, pend))|
    ensures Found(p, Next(p, ScanDir(p.rule, pend))[j]) <= Found(p, pend)
  {
    FoundIsPartOfFoundAll(p, Next(p, ScanDir(p.rule, pend)), j);
  }

  /** Everything the directories of one frontier level record, in frontier order. */
  function LevelRecords<K>(p: Policy<K>, f: seq<Pending<K>>): seq<string>
  {
    if f == [] then [] else ScanDir(p.rule, f[0]).records + LevelRecords(p, f[1..])
  }

  /** The next frontier level: the children each directory of this level appends, in order. */
  function NextLevel<K>(p: Policy<K>, f: seq<Pending<K>>): seq<Pending<K>>
  {
    if f == [] then [] else Next(p, ScanDir(p.rule, f[0])) + NextLevel(p, f[1..])
  }

  /**
   * Breadth-first order: a frontier `f` followed by `g` is walked by first listing
   * every directory of `f`, then walking `g` followed by all the children of `f`.
   * With `g` empty: every directory of one level is listed before any of the next.
   */
  lemma {:induction false} WalkByLevels<K>(p: Policy<K>, f: seq<Pending<K>>, g: seq<Pending<K>>)
    ensures Walk(p, f + g) == LevelRecords(p, f) + Walk(p, g + NextLevel(p, f))
    decreases |f|
  {
    if f == [] {
      assert f + g == g;
      assert g + NextLevel(p, f) == g;
    } else {
      var s := ScanDir(p.rule, f[0]);
      var g' := g + Next(p, s);
      WalkConsStep(p, f, g);
      WalkByLevels(p, f[1..], g');
      AppendAssoc(g, Next(p, s), NextLevel(p, f[1..]));
      AppendAssoc(s.records, LevelRecords(p, f[1..]), Walk(p, g + NextLevel(p, f)));
    }
  }

  lemma AppendAssoc<T>(a: seq<T>, b: seq<T>, c: seq<T>)
    ensures a + (b + c) == (a + b) + c
  {
  }

  lemma ConsTail<T>(f: seq<T>, g: seq<T>, n: seq<T>)
    requires f != []
    ensures (f + g)[0] == f[0]
    ensures (f + g)[1..] + n == f[1..] + (g + n)
  {
  }

  /** One step of the walk over a frontier that starts with the non-empty `f`. */
  lemma WalkConsStep<K>(p: Policy<K>, f: seq<Pending<K>>, g: seq<Pending<K>>)
    requires f != []
    ensures Walk(p, f + g) == ScanDir(p.rule, f[0]).records + Walk(p, f[1..] + (g + Next(p, ScanDir(p.rule, f[0]))))
  {
    ConsTail(f, g, Next(p, ScanDir(p.rule, f[0])));
    WalkStep(p, f + g);
  }

  /**
   * Dropping the children of matched directories can only remove reports: whatever
   * a pruning walk finds, the same scan without pruning finds too.
   */
  lemma {:induction false} PruningOnlyRemoves<K>(rule: ScanRule<K>, f: seq<Pending<K>>)
    ensures FoundAll(Policy(rule, true), f) <= FoundAll(Policy(rule, false), f)
    decreases SizeAll(f)
  {
    if f != [] {
      var pruning, full := Policy(rule, true), Policy(rule, false);
      var s := ScanDir(rule, f[0]);
      assert Found(full, f[0]) == multiset(s.records) + FoundAll(full, s.kids);
      if s.matched {
        assert Found(pruning, f[0]) == multiset(s.records) + FoundAll(pruning, []);
      } else {
        assert Found(pruning, f[0]) == multiset(s.records) + FoundAll(pruning, s.kids);
        PruningOnlyRemoves(rule, s.kids);
      }
      PruningOnlyRemoves(rule, f[1..]);
    }
  }

  /** Replaces the listing below every entry, keeping names and kinds. */
  function ReplaceSubs<K>(es: seq<Entry<K>>, subs: seq<Dir<K>>): (r: seq<Entry<K>>)
    requires |subs| == |es|
    ensures |r| == |es|
    ensures forall i :: 0 <= i < |es| ==> r[i] == Entry(es[i].name, es[i].kind, subs[i])
  {
    seq(|es|, i requires 0 <= i < |es| => Entry(es[i].name, es[i].kind, subs[i]))
  }

  lemma {:induction false} ScanIgnoresSubtrees<K>(rule: ScanRule<K>, path: string, es: seq<Entry<K>>, subs: seq<Dir<K>>)
    requires |subs| == |es|
    ensures ScanEntries(rule, path, ReplaceSubs(es, subs)).records == ScanEntries(rule, path, es).records
    ensures ScanEntries(rule, path, ReplaceSubs(es, subs)).matched == ScanEntries(rule, path, es).matched
    decreases |es|
  {
    if es != [] {
      var es' := ReplaceSubs(es, subs);
      assert es'[1..] == ReplaceSubs(es[1..], subs[1..]);
      assert Classify(rule, es'[0]) == Classify(rule, es[0]);
      ScanIgnoresSubtrees(rule, path, es[1..], subs[1..]);
    }
  }

  /**
   * No descent below a match: once a listing holds a `.git` directory, what lies
   * below any of its entries never influences the walk, because none of them is
   * ever listed.
   */
  lemma NothingBelowMatchIsListed<K>(rule: ScanRule<K>, path: string, es: seq<Entry<K>>,
                                     subs: seq<Dir<K>>, g: seq<Pending<K>>)
    requires |subs| == |es|
    requires exists i :: 0 <= i < |es| && Classify(rule, es[i]) == Marker
    ensures Walk(Policy(rule, true), [Pending(path, Opened(ReplaceSubs(es, subs)))] + g)
         == ScanEntries(rule, path, es).records + Walk(Policy(rule, true), g)
    ensures Walk(Policy(rule, true), [Pending(path, Opened(es))] + g)
         == ScanEntries(rule, path, es).records + Walk(Policy(rule, true), g)
  {
    var p := Policy(rule, true);
    ScanMatchesIffMarker(rule, path, es);
    ScanIgnoresSubtrees(rule, path, es, subs);
    var f1 := [Pending(path, Opened(ReplaceSubs(es, subs)))] + g;
    var f2 := [Pending(path, Opened(es))] + g;
    assert f1[1..] == g && f2[1..] == g;
    assert f1[1..] + [] == g && f2[1..] + [] == g;
  }

  /** An unopenable directory contributes nothing, and the walk carries on with the rest. */
  lemma UnopenableIsSkipped<K>(p: Policy<K>, path: string, g: seq<Pending<K>>)
    ensures Walk(p, [Pending(path, Unopenable)] + g) == Walk(p, g)
  {
    var f := [Pending(path, Unopenable)] + g;
    assert f[1..] + [] == g;
  }

  /**
   * A match whose report fails records nothing, yet still ends the descent of a
   * pruning walk at that directory.
   */
  lemma UnreportableMatchStillPrunes<K>(rule: ScanRule<K>, path: string, es: seq<Entry<K>>, g: seq<Pending<K>>)
    requires rule.report(path) == None
    requires exists i :: 0 <= i < |es| && Classify(rule, es[i]) == Marker
    ensures Walk(Policy(rule, true), [Pending(path, Opened(es))] + g) == Walk(Policy(rule, true), g)
  {
    ScanMatchesIffMarker(rule, path, es);
    var f := [Pending(path, Opened(es))] + g;
    assert f[1..] + [] == g;
  }

  /** Every child a scan keeps comes from a kept, non-marker entry: only directories enter the frontier. */
  lemma {:induction false} KidsComeFromKeptEntries<K>(rule: ScanRule<K>, path: string, es: seq<Entry<K>>)
    ensures forall k :: k in ScanEntries(rule, path, es).kids ==>
      exists i :: 0 <= i < |es| && Classify(rule, es[i]) == Child && k == ChildOf(rule, path, es[i])
    decreases |es|
  {
    var s := ScanEntries(rule, path, es);
    if es == [] || (Classify(rule, es[0]) == Marker && rule.stopAtMarker) {
      assert s.kids == [];
    } else {
      var rest := ScanEntries(rule, path, es[1..]);
      KidsComeFromKeptEntries(rule, path, es[1..]);
      var first := if Classify(rule, es[0]) == Child then [ChildOf(rule, path, es[0])] else [];
      assert s.kids == first + rest.kids;
      forall k | k in s.kids
        ensures exists i :: 0 <= i < |es| && Classify(rule, es[i]) == Child && k == ChildOf(rule, path, es[i])
      {
        if k in first {
          assert Classify(rule, es[0]) == Child && k == ChildOf(rule, path, es[0]);
        } else {
          assert k in rest.kids;
          var i' :| 0 <= i' < |es[1..]| && Classify(rule, es[1..][i']) == Child && k == ChildOf(rule, path, es[1..][i']);
          assert es[i' + 1] == es[1..][i'];
        }
      }
    }
  }

  /** A scan that does not stop at a match keeps every kept, non-marker entry as a child. */
  lemma {:induction false} KeptEntriesBecomeKids<K>(rule: ScanRule<K>, path: string, es: seq<Entry<K>>)
    requires !rule.stopAtMarker
    ensures forall i :: 0 <= i < |es| && Classify(rule, es[i]) == Child ==>
      ChildOf(rule, path, es[i]) in ScanEntries(rule, path, es).kids
    decreases |es|
  {
    if es != [] {
      var s := ScanEntries(rule, path, es);
      var rest := ScanEntries(rule, path, es[1..]);
      KeptEntriesBecomeKids(rule, path, es[1..]);
      var first := if Classify(rule, es[0]) == Child then [ChildOf(rule, path, es[0])] else [];
      assert s.kids == first + rest.kids;
      forall i | 0 <= i < |es| && Classify(rule, es[i]) == Child
        ensures ChildOf(rule, path, es[i]) in s.kids
      {
        if i > 0 {
          assert es[1..][i - 1] == es[i];
        }
      }
    }
  }

  /** A listing's children are listed by paths that extend the listing's own path. */
  lemma KidPathsExtendParent<K>(rule: ScanRule<K>, pend: Pending<K>)
    ensures forall k :: k in ScanDir(rule, pend).kids ==> pend.path <= k.path
  {
    if pend.dir.Opened? {
      KidsComeFromKeptEntries(rule, pend.path, pend.dir.entries);
      forall k | k in ScanDir(rule, pend).kids
        ensures pend.path <= k.path
      {
        var i :| 0 <= i < |pend.dir.entries| && Classify(rule, pend.dir.entries[i]) == Child
          && k == ChildOf(rule, pend.path, pend.dir.entries[i]);
        assert k.path == pend.path + (rule.sep + pend.dir.entries[i].name);
      }
    }
  }

  /**
   * Every path the walk lists extends the path of a frontier entry it started
   * from, so everything it records is the report for a path under that root.
   */
  lemma {:induction false} RecordsAreReportsUnder<K>(p: Policy<K>, f: seq<Pending<K>>, root: string)
    requires forall x :: x in f ==> root <= x.path
    ensures forall r :: r in Walk(p, f) ==> exists q :: root <= q && p.rule.report(q) == Some(r)
    decreases SizeAll(f)
  {
    if f != [] {
      var s := ScanDir(p.rule, f[0]);
      var g := f[1..] + Next(p, s);
      WalkStep(p, f);
      SizeAllAppend(f[1..], Next(p, s));
      KidPathsExtendParent(p.rule, f[0]);
      forall x | x in g
        ensures root <= x.path
      {
        if x !in f[1..] {
          assert f[0].path <= x.path;
        }
      }
      RecordsAreReportsUnder(p, g, root);
      if f[0].dir.Opened? {
        ScanRecordsOnlyReports(p.rule, f[0].path, f[0].dir.entries);
      }
      forall r | r in s.records
        ensures exists q :: root <= q && p.rule.report(q) == Some(r)
      {
        assert p.rule.report(f[0].path) == Some(r);
      }
    }
  }

  /** One round of the walk seen from a loop: what was recorded so far grows by the listing's records. */
  lemma WalkRound<K>(p: Policy<K>, f: seq<Pending<K>>, f': seq<Pending<K>>, done: seq<string>)
    requires f != []
    requires f' == f[1..] + Next(p, ScanDir(p.rule, f[0]))
    ensures done + Walk(p, f) == (done + ScanDir(p.rule, f[0]).records) + Walk(p, f')
    ensures SizeAll(f') < SizeAll(f)
  {
    WalkStep(p, f);
    SizeAllAppend(f[1..], Next(p, ScanDir(p.rule, f[0])));
    AppendAssoc(done, ScanDir(p.rule, f[0]).records, Walk(p, f'));
  }

  /** The scan of the entries from the `i`-th on, by what the `i`-th entry is. */
  lemma ScanEntriesFrom<K>(rule: ScanRule<K>, path: string, es: seq<Entry<K>>, i: nat)
    requires i < |es|
    ensures var here := ScanEntries(rule, path, es[i..]);
            var rest := ScanEntries(rule, path, es[i + 1..]);
            && (Classify(rule, es[i]) == Skip ==> here == rest)
            && (Classify(rule, es[i]) == Child ==>
                  here == DirScan(rest.records, [ChildOf(rule, path, es[i])] + rest.kids, rest.matched))
            && (Classify(rule, es[i]) == Marker && !rule.stopAtMarker ==>
                  here == DirScan(Reported(rule, path) + rest.records, rest.kids, true))
            && (Classify(rule, es[i]) == Marker && rule.stopAtMarker ==>
                  here == DirScan(Reported(rule, path), [], true))
  {
    assert es[i..][0] == es[i] && es[i..][1..] == es[i + 1..];
  }

  lemma ScanEntriesAtEnd<K>(rule: ScanRule<K>, path: string, es: seq<Entry<K>>)
    ensures ScanEntries(rule, path, es[|es|..]) == DirScan([], [], false)
  {
    assert es[|es|..] == [];
  }
}
