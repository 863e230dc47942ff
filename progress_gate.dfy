/**
 * The throttle of `ThrottledProgressCallback` (cpp/src/FindGitRepos.cpp:285-296)
 * as a state machine over the time of the last scheduled delivery, with time
 * in milliseconds as an integer.
 */
module ProgressGate {
  /** The time of the last scheduled delivery, and the times of the deliveries scheduled so far. */
  datatype Gate = Gate(last: int, scheduled: seq<int>)

  /** A call at `now` schedules a delivery when there is no throttle, or when at least `throttle` ms have passed. */
  predicate Fires(throttle: nat, last: int, now: int)
  {
    throttle == 0 || now - last >= throttle
  }

  /** One call: a firing call is scheduled, and with a throttle it also moves `last` to `now`; otherwise nothing changes. */
  function Step(throttle: nat, g: Gate, now: int): (r: Gate)
    ensures Fires(throttle, g.last, now) ==> r.scheduled == g.scheduled + [now]
    ensures !Fires(throttle, g.last, now) ==> r == g
    ensures r.last == (if throttle > 0 && Fires(throttle, g.last, now) then now else g.last)
  {
    if throttle == 0 then Gate(g.last, g.scheduled + [now])
    else if now - g.last < throttle then g
    else Gate(now, g.scheduled + [now])
  }

  /** A run of calls at the given times, oldest first. */
  function Run(throttle: nat, g: Gate, times: seq<int>): Gate
    decreases |times|
  {
    if times == [] then g
    else Step(throttle, Run(throttle, g, times[..|times| - 1]), times[|times| - 1])
  }

  lemma RunSnoc(throttle: nat, g: Gate, times: seq<int>, now: int)
    ensures Run(throttle, g, times + [now]) == Step(throttle, Run(throttle, g, times), now)
  {
    assert (times + [now])[..|times|] == times;
  }

  /** Calls only ever add deliveries: what was scheduled before stays scheduled, in place. */
  lemma {:induction false} RunOnlyAppends(throttle: nat, g: Gate, times: seq<int>)
    ensures g.scheduled <= Run(throttle, g, times).scheduled
    ensures |Run(throttle, g, times).scheduled| <= |g.scheduled| + |times|
    decreases |times|
  {
    if times != [] {
      RunOnlyAppends(throttle, g, times[..|times| - 1]);
    }
  }

  /** Without a throttle every call schedules a delivery, at its own time. */
  lemma {:induction false} ZeroThrottleSchedulesEveryCall(g: Gate, times: seq<int>)
    ensures Run(0, g, times) == Gate(g.last, g.scheduled + times)
    decreases |times|
  {
    if times != [] {
      var init := times[..|times| - 1];
      ZeroThrottleSchedulesEveryCall(g, init);
      assert g.scheduled + init + [times[|times| - 1]] == g.scheduled + times;
    }
  }

  /** The deliveries a run of calls adds. */
  function Added(throttle: nat, g: Gate, times: seq<int>): seq<int>
  {
    RunOnlyAppends(throttle, g, times);
    Run(throttle, g, times).scheduled[|g.scheduled|..]
  }

  /** The last call of a run adds its own time or nothing. */
  lemma AddedStep(throttle: nat, g: Gate, times: seq<int>)
    requires times != []
    ensures var init := times[..|times| - 1];
            var now := times[|times| - 1];
            Added(throttle, g, times) ==
              if Fires(throttle, Run(throttle, g, init).last, now) then Added(throttle, g, init) + [now]
              else Added(throttle, g, init)
  {
    var init := times[..|times| - 1];
    var before := Run(throttle, g, init);
    RunOnlyAppends(throttle, g, init);
    assert Run(throttle, g, times) == Step(throttle, before, times[|times| - 1]);
    assert (before.scheduled + [times[|times| - 1]])[|g.scheduled|..] == before.scheduled[|g.scheduled|..] + [times[|times| - 1]];
  }

  /** Each time is at least `throttle` after the one before it, the first at least `throttle` after `start`. */
  predicate Spaced(throttle: nat, start: int, xs: seq<int>)
  {
    forall i :: 0 <= i < |xs| ==> xs[i] - (if i == 0 then start else xs[i - 1]) >= throttle
  }

  function LastOr(start: int, xs: seq<int>): int
  {
    if xs == [] then start else xs[|xs| - 1]
  }

  lemma SpacedSnoc(throttle: nat, start: int, xs: seq<int>, x: int)
    requires Spaced(throttle, start, xs)
    requires x - LastOr(start, xs) >= throttle
    ensures Spaced(throttle, start, xs + [x])
  {
    var ys := xs + [x];
    forall i | 0 <= i < |ys|
      ensures ys[i] - (if i == 0 then start else ys[i - 1]) >= throttle
    {
      if i < |xs| {
        assert ys[i] == xs[i];
        assert xs[i] - (if i == 0 then start else xs[i - 1]) >= throttle;
        if i > 0 { assert ys[i - 1] == xs[i - 1]; }
      } else {
        assert ys[i] == x;
        if i > 0 { assert ys[i - 1] == xs[|xs| - 1]; }
      }
    }
    assert Spaced(throttle, start, ys);
  }

  /**
   * With a throttle, the added deliveries are at least `throttle` ms apart, the
   * first at least `throttle` ms after the starting `last`, and `last` ends at the
   * latest of them.
   */
  lemma {:induction false} DeliveriesAreSpaced(throttle: nat, g: Gate, times: seq<int>)
    requires throttle > 0
    ensures Spaced(throttle, g.last, Added(throttle, g, times))
    ensures Run(throttle, g, times).last == LastOr(g.last, Added(throttle, g, times))
    decreases |times|
  {
    if times != [] {
      var init := times[..|times| - 1];
      var now := times[|times| - 1];
      DeliveriesAreSpaced(throttle, g, init);
      var before := Run(throttle, g, init);
      var prev := Added(throttle, g, init);
      AddedStep(throttle, g, times);
      assert Run(throttle, g, times) == Step(throttle, before, now);
      if Fires(throttle, before.last, now) {
        SpacedSnoc(throttle, g.last, prev, now);
      }
    }
  }

  /** Every added delivery is scheduled at the time of one of the calls. */
  lemma {:induction false} DeliveriesHappenAtCalls(throttle: nat, g: Gate, times: seq<int>)
    ensures forall t :: t in Added(throttle, g, times) ==> t in times
    decreases |times|
  {
    if times != [] {
      var init := times[..|times| - 1];
      DeliveriesHappenAtCalls(throttle, g, init);
      AddedStep(throttle, g, times);
      assert forall t :: t in init ==> t in times;
    }
  }

  /**
   * A gate armed at `start - throttle`, as the worker's constructor arms it,
   * delivers on the first call made at or after `start`.
   */
  lemma {:induction false} FirstCallAlwaysFires(throttle: nat, start: int, times: seq<int>)
    requires times != [] && times[0] >= start
    ensures Run(throttle, Gate(start - throttle, []), times).scheduled != []
    ensures Run(throttle, Gate(start - throttle, []), times).scheduled[0] == times[0]
    decreases |times|
  {
    var g := Gate(start - throttle, []);
    if |times| == 1 {
      assert times[..0] == [];
    } else {
      var init := times[..|times| - 1];
      FirstCallAlwaysFires(throttle, start, init);
      RunOnlyAppends(throttle, Run(throttle, g, init), [times[|times| - 1]]);
      assert Run(throttle, Run(throttle, g, init), [times[|times| - 1]]) == Run(throttle, g, times) by {
        assert [times[|times| - 1]][..0] == [];
      }
    }
  }
}
