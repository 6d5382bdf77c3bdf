// The sliding-window circuit breaker (orch/watchdog.go).
module Breaker {

  datatype Failure = Failure(worker: string, at: int)

  /** The times later than `cutoff` of one worker's failures among the first `n`, in order. */
  function RecentOf(h: seq<Failure>, n: nat, worker: string, cutoff: int): seq<int>
    requires n <= |h|
  {
    if n == 0 then [] else
      var rest := RecentOf(h, n - 1, worker, cutoff);
      if h[n - 1].worker == worker && h[n - 1].at > cutoff then rest + [h[n - 1].at] else rest
  }

  function Recent(h: seq<Failure>, worker: string, cutoff: int): seq<int> { RecentOf(h, |h|, worker, cutoff) }

  function Keep(times: seq<int>, cutoff: int): seq<int> {
    if times == [] then [] else
      var rest, last := Keep(times[..|times| - 1], cutoff), times[|times| - 1];
      if last > cutoff then rest + [last] else rest
  }

  ghost predicate Monotone(h: seq<Failure>) {
    forall i, j :: 0 <= i <= j < |h| ==> h[i].at <= h[j].at
  }

  /** At some rapid failure of its own, a worker had reached the threshold inside the window. */
  ghost predicate Overloaded(h: seq<Failure>, threshold: int, window: int) {
    exists i :: 0 <= i < |h| && OverloadedAt(h, i, threshold, window)
  }

  ghost predicate OverloadedAt(h: seq<Failure>, i: nat, threshold: int, window: int)
    requires i < |h|
  {
    |RecentOf(h, i + 1, h[i].worker, h[i].at - window)| >= threshold
  }

  /** The full history, cut to the window that ends at its latest failure. */
  ghost predicate IsPruned(m: map<string, seq<int>>, h: seq<Failure>, window: int) {
    if h == [] then m == map[] else IsWindow(m, h, h[|h| - 1].at - window)
  }

  ghost predicate IsWindow(m: map<string, seq<int>>, h: seq<Failure>, cutoff: int) {
    forall w :: (w in m <==> Recent(h, w, cutoff) != []) && (w in m ==> m[w] == Recent(h, w, cutoff))
  }

  lemma {:induction false} KeepRecent(h: seq<Failure>, n: nat, worker: string, c1: int, c2: int)
    requires c1 <= c2 && n <= |h|
    ensures Keep(RecentOf(h, n, worker, c1), c2) == RecentOf(h, n, worker, c2)
  {
    if n > 0 {
      KeepRecent(h, n - 1, worker, c1, c2);
      KeepSnoc(RecentOf(h, n - 1, worker, c1), h[n - 1].at, c2);
    }
  }

  lemma {:induction false} RecentShrinks(h: seq<Failure>, n: nat, worker: string, c1: int, c2: int)
    requires c1 <= c2 && n <= |h|
    ensures |RecentOf(h, n, worker, c2)| <= |RecentOf(h, n, worker, c1)|
  {
    if n > 0 { RecentShrinks(h, n - 1, worker, c1, c2); }
  }

  /** Later failures do not change what the first `n` say. */
  lemma {:induction false} RecentPrefix(h: seq<Failure>, e: Failure, n: nat, worker: string, cutoff: int)
    requires n <= |h|
    ensures RecentOf(h + [e], n, worker, cutoff) == RecentOf(h, n, worker, cutoff)
  {
    if n > 0 { RecentPrefix(h, e, n - 1, worker, cutoff); }
  }

  lemma {:induction false} RecentAgrees(h: seq<Failure>, h': seq<Failure>, n: nat, worker: string, cutoff: int)
    requires n <= |h| && h <= h'
    ensures RecentOf(h', n, worker, cutoff) == RecentOf(h, n, worker, cutoff)
  {
    if n > 0 { RecentAgrees(h, h', n - 1, worker, cutoff); }
  }

  lemma {:induction false} RecentLonger(h: seq<Failure>, m: nat, n: nat, worker: string, cutoff: int)
    requires m <= n <= |h|
    ensures |RecentOf(h, m, worker, cutoff)| <= |RecentOf(h, n, worker, cutoff)|
    decreases n
  {
    if m < n { RecentLonger(h, m, n - 1, worker, cutoff); }
  }

  lemma RecentGrows(h: seq<Failure>, h': seq<Failure>, worker: string, cutoff: int)
    requires h <= h'
    ensures |Recent(h, worker, cutoff)| <= |Recent(h', worker, cutoff)|
  {
    RecentAgrees(h, h', |h|, worker, cutoff);
    RecentLonger(h', |h|, |h'|, worker, cutoff);
  }

  lemma OverloadedGrows(h: seq<Failure>, h': seq<Failure>, threshold: int, window: int)
    requires h <= h' && Overloaded(h, threshold, window)
    ensures Overloaded(h', threshold, window)
  {
    var i :| 0 <= i < |h| && OverloadedAt(h, i, threshold, window);
    RecentAgrees(h, h', i + 1, h[i].worker, h[i].at - window);
    assert OverloadedAt(h', i, threshold, window);
  }

  /** The recent failures are counted one by one: this worker's, later than the cutoff. */
  lemma {:induction false} RecentCounts(h: seq<Failure>, n: nat, worker: string, cutoff: int)
    requires n <= |h|
    ensures |RecentOf(h, n, worker, cutoff)| == |set i | 0 <= i < n && h[i].worker == worker && h[i].at > cutoff|
  {
    if n > 0 {
      RecentCounts(h, n - 1, worker, cutoff);
      var before := set i | 0 <= i < n - 1 && h[i].worker == worker && h[i].at > cutoff;
      var now := set i | 0 <= i < n && h[i].worker == worker && h[i].at > cutoff;
      if h[n - 1].worker == worker && h[n - 1].at > cutoff {
        assert now == before + {n - 1};
      } else {
        assert now == before;
      }
    }
  }

  /** The flag in plain counts: some failure was, with those of the same worker before it in the open window that ends
      at it, at least the threshold. */
  lemma OverloadedMeans(h: seq<Failure>, threshold: int, window: int)
    ensures Overloaded(h, threshold, window) <==> exists i | 0 <= i < |h| ::
              |set j | 0 <= j <= i && h[j].worker == h[i].worker && h[j].at > h[i].at - window| >= threshold
  {
    forall i | 0 <= i < |h|
      ensures OverloadedAt(h, i, threshold, window) <==>
              |set j | 0 <= j <= i && h[j].worker == h[i].worker && h[j].at > h[i].at - window| >= threshold
    {
      RecentCounts(h, i + 1, h[i].worker, h[i].at - window);
      assert (set j | 0 <= j < i + 1 && h[j].worker == h[i].worker && h[j].at > h[i].at - window) ==
             (set j | 0 <= j <= i && h[j].worker == h[i].worker && h[j].at > h[i].at - window);
    }
  }

  /** A worker over the threshold now was already over it at its own last failure. */
  lemma {:induction false} BlamesOwnFailure(h: seq<Failure>, n: nat, worker: string, cutoff: int,
                                            threshold: int, window: int) returns (i: nat)
    requires n <= |h| && Monotone(h) && threshold > 0
    requires n > 0 ==> h[n - 1].at - window <= cutoff
    requires |RecentOf(h, n, worker, cutoff)| >= threshold
    ensures i < n && h[i].worker == worker && OverloadedAt(h, i, threshold, window)
    decreases n
  {
    if h[n - 1].worker == worker {
      i := n - 1;
      RecentShrinks(h, n, worker, h[i].at - window, cutoff);
    } else {
      i := BlamesOwnFailure(h, n - 1, worker, cutoff, threshold, window);
    }
  }

  lemma OverloadedSnoc(h: seq<Failure>, e: Failure, threshold: int, window: int)
    ensures Overloaded(h + [e], threshold, window) <==>
            Overloaded(h, threshold, window) || |Recent(h + [e], e.worker, e.at - window)| >= threshold
  {
    var h' := h + [e];
    assert OverloadedAt(h', |h|, threshold, window) <==> |Recent(h', e.worker, e.at - window)| >= threshold;
    forall i | 0 <= i < |h| ensures OverloadedAt(h', i, threshold, window) <==> OverloadedAt(h, i, threshold, window) {
      RecentPrefix(h, e, i + 1, h[i].worker, h[i].at - window);
    }
  }

  /** The pruned map stands for the whole history, and the flag for an overload in it. */
  ghost predicate Agrees(m: map<string, seq<int>>, tripped: bool, h: seq<Failure>, threshold: int, window: int) {
    && window > 0 && Monotone(h)
    && IsPruned(m, h, window)
    && (tripped <==> Overloaded(h, threshold, window))
  }

  /** Some worker in the map has reached the threshold. */
  ghost predicate SomeoneOver(m: map<string, seq<int>>, threshold: int) { exists w :: w in m && |m[w]| >= threshold }

  class CircuitBreaker {
    const threshold: int
    const window: int
    var failures: map<string, seq<int>>
    var tripped: bool
    /** Every rapid failure since the last Reset. */
    ghost var history: seq<Failure>

    ghost predicate Valid() reads this { Agrees(failures, tripped, history, threshold, window) }

    constructor (threshold: int, window: int)
      requires window > 0
      ensures Valid() && history == [] && this.threshold == threshold && this.window == window
    {
      this.threshold, this.window := threshold, window;
      failures, tripped, history := map[], false, [];
    }

    method Reset()
      requires Valid()
      modifies this
      ensures Valid() && history == [] && !tripped
    {
      failures, tripped, history := map[], false, [];
    }

    /** Drops the expired entries of every worker, and workers left with none. */
    method Prune(cutoff: int)
      modifies this`failures
      ensures forall w :: w in failures <==> w in old(failures) && Keep(old(failures)[w], cutoff) != []
      ensures forall w :: w in failures ==> failures[w] == Keep(old(failures)[w], cutoff)
    {
      var rest := failures.Keys;
      while rest != {}
        invariant rest <= old(failures).Keys
        invariant forall w :: w in rest ==> w in failures && failures[w] == old(failures)[w]
        invariant forall w :: w !in rest ==>
                    (w in failures <==> w in old(failures) && Keep(old(failures)[w], cutoff) != [])
        invariant forall w :: w in failures && w !in rest ==> failures[w] == Keep(old(failures)[w], cutoff)
        decreases |rest|
      {
        var name :| name in rest;
        var times := failures[name];
        var recent: seq<int> := [];
        for i := 0 to |times|
          invariant recent == Keep(times[..i], cutoff)
        {
          assert times[..i + 1][..i] == times[..i];
          if times[i] > cutoff { recent := recent + [times[i]]; }
        }
        assert times[..|times|] == times;
        if |recent| == 0 { failures := failures - {name}; } else { failures := failures[name := recent]; }
        rest := rest - {name};
      }
    }

    method AnyAtThreshold() returns (r: bool)
      ensures r <==> SomeoneOver(failures, threshold)
    {
      var rest := failures.Keys;
      while rest != {}
        invariant rest <= failures.Keys
        invariant forall w :: w in failures && w !in rest ==> |failures[w]| < threshold
        decreases |rest|
      {
        var name :| name in rest;
        if |failures[name]| >= threshold { return true; }
        rest := rest - {name};
      }
      return false;
    }

    /** With the new time appended, the map cut to the new window says what the history says. */
    method Append(worker: string, now: int)
      requires Valid()
      requires history != [] ==> history[|history| - 1].at <= now
      modifies this`failures
      ensures CutsTo(failures, history + [Failure(worker, now)], now - window)
    {
      ghost var before := failures;
      failures := failures[worker := (if worker in failures then failures[worker] else []) + [now]];
      AppendedCutsTo(before, failures, history, Failure(worker, now), window);
    }

    method PruneTo(ghost h: seq<Failure>, cutoff: int)
      requires CutsTo(failures, h, cutoff)
      modifies this`failures
      ensures IsWindow(failures, h, cutoff)
    {
      ghost var appended := failures;
      Prune(cutoff);
      PrunedMap(appended, failures, h, cutoff);
    }

    /** Appending the new time and pruning keeps the map equal to the windowed history. */
    method AppendAndPrune(worker: string, now: int)
      requires Valid()
      requires history != [] ==> history[|history| - 1].at <= now
      modifies this`failures
      ensures IsPruned(failures, history + [Failure(worker, now)], window)
    {
      ghost var h' := history + [Failure(worker, now)];
      assert h'[|h'| - 1].at == now;
      Append(worker, now);
      PruneTo(h', now - window);
    }

    method RecordFailure(worker: string, sessionStart: int, now: int) returns (r: bool)
      requires Valid()
      requires history != [] ==> history[|history| - 1].at <= now
      modifies this
      ensures Valid() && r == tripped
      ensures history == if now - sessionStart < window then old(history) + [Failure(worker, now)] else old(history)
      ensures !old(tripped) && tripped ==>
                now - sessionStart < window && |Recent(history, worker, now - window)| >= threshold
    {
      if now - sessionStart >= window { return tripped; }
      RecordRapid(worker, now);
      return tripped;
    }

    method RecordRapid(worker: string, now: int)
      requires Valid()
      requires history != [] ==> history[|history| - 1].at <= now
      modifies this
      ensures Valid() && history == old(history) + [Failure(worker, now)]
      ensures !old(tripped) && tripped ==> |Recent(history, worker, now - window)| >= threshold
    {
      ghost var h, e, was := history, Failure(worker, now), tripped;
      AppendAndPrune(worker, now);
      var over := AnyAtThreshold();
      OverNow(failures, h, e, threshold, window, was);
      ghost var own := Recent(h + [e], worker, now - window);
      assert over && !was ==> |own| >= threshold;
      history := h + [e];
      tripped := over || tripped;
      assert Recent(history, worker, now - window) == own;
    }
  }

  lemma MonotoneSnoc(h: seq<Failure>, e: Failure)
    requires Monotone(h) && (h != [] ==> h[|h| - 1].at <= e.at)
    ensures Monotone(h + [e])
  {
  }

  lemma KeptIsRecent(m: map<string, seq<int>>, h: seq<Failure>, window: int, cutoff: int, w: string)
    requires IsPruned(m, h, window) && (h != [] ==> h[|h| - 1].at - window <= cutoff)
    ensures Keep(if w in m then m[w] else [], cutoff) == Recent(h, w, cutoff)
  {
    if h != [] { KeepRecent(h, |h|, w, h[|h| - 1].at - window, cutoff); }
  }

  lemma PrunedAfter(before: map<string, seq<int>>, appended: map<string, seq<int>>, h: seq<Failure>, e: Failure,
                    window: int, w: string)
    requires window > 0 && IsPruned(before, h, window)
    requires h != [] ==> h[|h| - 1].at <= e.at
    requires appended == before[e.worker := (if e.worker in before then before[e.worker] else []) + [e.at]]
    ensures var cutoff := e.at - window;
            && (w !in appended ==> Recent(h + [e], w, cutoff) == [])
            && (w in appended ==> Keep(appended[w], cutoff) == Recent(h + [e], w, cutoff))
  {
    var cutoff := e.at - window;
    RecentSnoc(h, e, w, cutoff);
    var kept: seq<int> := if w in before then before[w] else [];
    KeptIsRecent(before, h, window, cutoff, w);
    if w == e.worker { KeepSnoc(kept, e.at, cutoff); }
  }

  /** Cut at `cutoff`, the map says what the history says. */
  ghost predicate CutsTo(m: map<string, seq<int>>, h: seq<Failure>, cutoff: int) {
    forall w :: Keep(if w in m then m[w] else [], cutoff) == Recent(h, w, cutoff)
  }

  lemma AppendedCutsTo(before: map<string, seq<int>>, appended: map<string, seq<int>>, h: seq<Failure>,
                       e: Failure, window: int)
    requires window > 0 && IsPruned(before, h, window)
    requires h != [] ==> h[|h| - 1].at <= e.at
    requires appended == before[e.worker := (if e.worker in before then before[e.worker] else []) + [e.at]]
    ensures CutsTo(appended, h + [e], e.at - window)
  {
    forall w
      ensures Keep(if w in appended then appended[w] else [], e.at - window) == Recent(h + [e], w, e.at - window)
    {
      PrunedAfter(before, appended, h, e, window, w);
    }
  }

  lemma PrunedMap(appended: map<string, seq<int>>, pruned: map<string, seq<int>>, h: seq<Failure>, cutoff: int)
    requires CutsTo(appended, h, cutoff)
    requires forall w :: w in pruned <==> w in appended && Keep(appended[w], cutoff) != []
    requires forall w :: w in pruned ==> pruned[w] == Keep(appended[w], cutoff)
    ensures IsWindow(pruned, h, cutoff)
  {
  }

  /** Whether the flag must be up after one more failure, from the flag before and the scan. */
  lemma OverNow(m: map<string, seq<int>>, h: seq<Failure>, e: Failure, threshold: int, window: int, tripped: bool)
    requires window > 0 && Monotone(h) && (h != [] ==> h[|h| - 1].at <= e.at) && IsPruned(m, h + [e], window)
    requires tripped <==> Overloaded(h, threshold, window)
    ensures Agrees(m, SomeoneOver(m, threshold) || tripped, h + [e], threshold, window)
    ensures SomeoneOver(m, threshold) && !tripped ==> |Recent(h + [e], e.worker, e.at - window)| >= threshold
  {
    TripsForRecorded(m, h, e, threshold, window);
    OverloadedSnoc(h, e, threshold, window);
    MonotoneSnoc(h, e);
  }

  lemma RecentSnoc(h: seq<Failure>, e: Failure, w: string, cutoff: int)
    ensures Recent(h + [e], w, cutoff) ==
            if e.worker == w && e.at > cutoff then Recent(h, w, cutoff) + [e.at] else Recent(h, w, cutoff)
  {
    RecentPrefix(h, e, |h|, w, cutoff);
  }

  lemma KeepSnoc(times: seq<int>, at: int, cutoff: int)
    ensures Keep(times + [at], cutoff) == if at > cutoff then Keep(times, cutoff) + [at] else Keep(times, cutoff)
  {
    assert (times + [at])[..|times|] == times;
  }

  /** A worker other than the one recorded that is over the threshold was so before. */
  lemma OthersWereOver(h: seq<Failure>, e: Failure, w: string, threshold: int, window: int)
    requires Monotone(h) && (h != [] ==> h[|h| - 1].at <= e.at) && w != e.worker
    requires |Recent(h + [e], w, e.at - window)| >= threshold
    ensures threshold <= 0 || Overloaded(h, threshold, window)
  {
    RecentSnoc(h, e, w, e.at - window);
    if threshold > 0 {
      var i := BlamesOwnFailure(h, |h|, w, e.at - window, threshold, window);
    }
  }

  /** The scan looks at every worker, but only the one just recorded can newly reach the threshold. */
  lemma TripsForRecorded(m: map<string, seq<int>>, h: seq<Failure>, e: Failure, threshold: int, window: int)
    requires window > 0 && Monotone(h) && (h != [] ==> h[|h| - 1].at <= e.at)
    requires IsPruned(m, h + [e], window)
    ensures Overloaded(h, threshold, window) || SomeoneOver(m, threshold) <==>
            Overloaded(h, threshold, window) || |Recent(h + [e], e.worker, e.at - window)| >= threshold
  {
    var h', cutoff := h + [e], e.at - window;
    RecentSnoc(h, e, e.worker, cutoff);
    assert e.worker in m && m[e.worker] == Recent(h', e.worker, cutoff);
    if w :| w in m && |m[w]| >= threshold && w != e.worker {
      assert |Recent(h', w, cutoff)| >= threshold;
      OthersWereOver(h, e, w, threshold, window);
    }
  }
}
