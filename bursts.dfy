/**
 * The burst-interval estimator of the probe views (control/views/probes.py):
 * gaps between consecutive probes longer than one second, and their running mean.
 * Gaps are kept in microseconds (the unit of the model's instants) rather than
 * seconds; averages are exact `real` arithmetic, not floating point.
 */
module Bursts {
  import opened Courses

  /** The time differences between consecutive probes. */
  function Gaps(times: seq<int>): (g: seq<int>)
    ensures |g| == if |times| == 0 then 0 else |times| - 1
    ensures forall i :: 0 <= i < |g| ==> g[i] == times[i + 1] - times[i]
  {
    if |times| <= 1 then []
    else seq(|times| - 1, i requires 0 <= i < |times| - 1 => times[i + 1] - times[i])
  }

  lemma GapsStep(times: seq<int>, i: int)
    requires 1 <= i < |times|
    ensures Gaps(times[..i + 1]) == Gaps(times[..i]) + [times[i] - times[i - 1]]
  {
    var a, b := Gaps(times[..i + 1]), Gaps(times[..i]) + [times[i] - times[i - 1]];
    assert |a| == |b|;
    forall k | 0 <= k < |a| ensures a[k] == b[k] {
      if k < i - 1 {
        assert b[k] == Gaps(times[..i])[k];
      }
    }
  }

  /** Gaps of more than one second: not inside a burst. */
  predicate BetweenBursts(d: int) {
    d > SECOND
  }

  /** The gaps that lie between bursts, in their order. */
  function AboveOneSecond(ds: seq<int>): seq<int> {
    if ds == [] then []
    else (if BetweenBursts(ds[0]) then [ds[0]] else []) + AboveOneSecond(ds[1..])
  }

  function BurstDeltas(times: seq<int>): seq<int> {
    AboveOneSecond(Gaps(times))
  }

  lemma {:induction false} AboveOneSecondAppend(ds: seq<int>, d: int)
    ensures AboveOneSecond(ds + [d]) == AboveOneSecond(ds) + (if BetweenBursts(d) then [d] else [])
  {
    if ds != [] {
      assert (ds + [d])[1..] == ds[1..] + [d];
      AboveOneSecondAppend(ds[1..], d);
    } else {
      assert AboveOneSecond([d]) == (if BetweenBursts(d) then [d] else []) + AboveOneSecond([]);
    }
  }

  /** The filter keeps exactly the gaps above one second, and nothing else. */
  lemma {:induction false} AboveOneSecondMembers(ds: seq<int>)
    ensures |AboveOneSecond(ds)| <= |ds|
    ensures forall x :: x in AboveOneSecond(ds) <==> x in ds && BetweenBursts(x)
  {
    if ds != [] {
      AboveOneSecondMembers(ds[1..]);
      assert forall x :: x in ds <==> x == ds[0] || x in ds[1..];
    }
  }

  /**
   * The burst deltas are, as values, exactly the consecutive gaps of more than
   * one second, and there are at most n - 1 of them.
   */
  lemma BurstDeltasMembers(times: seq<int>)
    ensures |BurstDeltas(times)| <= if |times| == 0 then 0 else |times| - 1
    ensures forall x :: x in BurstDeltas(times) <==>
              exists i :: 0 <= i < |times| - 1 && x == times[i + 1] - times[i] && BetweenBursts(x)
  {
    var g := Gaps(times);
    AboveOneSecondMembers(g);
    assert forall x :: x in g <==> exists i :: 0 <= i < |g| && g[i] == x;
  }

  lemma {:induction false} NoneAboveOneSecond(ds: seq<int>)
    requires forall i :: 0 <= i < |ds| ==> !BetweenBursts(ds[i])
    ensures AboveOneSecond(ds) == []
  {
    if ds != [] {
      NoneAboveOneSecond(ds[1..]);
    }
  }

  /** A stream in which no gap exceeds one second (one burst) yields no delta at all. */
  lemma BurstCollapse(times: seq<int>)
    requires forall i :: 0 <= i < |times| - 1 ==> times[i + 1] - times[i] <= SECOND
    ensures BurstDeltas(times) == []
  {
    NoneAboveOneSecond(Gaps(times));
  }

  /** get_probes_burst_deltas: skip the first probe, then keep each gap above one second. */
  method GetProbesBurstDeltas(times: seq<int>) returns (deltas: seq<int>)
    ensures deltas == BurstDeltas(times)
    ensures |deltas| <= if |times| == 0 then 0 else |times| - 1
    ensures forall d :: d in deltas ==> BetweenBursts(d)
  {
    deltas := [];
    for i := 0 to |times|
      invariant deltas == AboveOneSecond(Gaps(times[..i]))
    {
      if i == 0 {
        continue;
      }
      var delta := times[i] - times[i - 1];
      GapsStep(times, i);
      AboveOneSecondAppend(Gaps(times[..i]), delta);
      if delta > SECOND {
        deltas := deltas + [delta];
      }
    }
    assert times[..|times|] == times;
    BurstDeltasMembers(times);
  }

  // ---------------------------------------------------------------------
  // update_burst_interval

  function Sum(ds: seq<int>): int {
    if ds == [] then 0 else Sum(ds[..|ds| - 1]) + ds[|ds| - 1]
  }

  /** `statistics.mean`, over exact reals. */
  function Mean(ds: seq<int>): real
    requires |ds| > 0
  {
    Sum(ds) as real / |ds| as real
  }

  lemma {:induction false} SumConcat(a: seq<int>, b: seq<int>)
    ensures Sum(a + b) == Sum(a) + Sum(b)
  {
    if b != [] {
      assert (a + b)[..|a + b| - 1] == a + b[..|b| - 1];
      SumConcat(a, b[..|b| - 1]);
    } else {
      assert a + b == a;
    }
  }

  lemma DivMul(x: real, c: real)
    requires c != 0.0
    ensures x / c * c == x
  {
  }

  /** One step of incremental averaging keeps `mean * count` equal to the running total. */
  lemma IncrementalStep(mean: real, c: real, total: real, d: real, next: real)
    requires c >= 1.0 && mean * (c - 1.0) == total
    requires next == mean + (d - mean) / c
    ensures next * c == total + d
  {
    var q := (d - mean) / c;
    DivMul(d - mean, c);
    assert next * c == mean * c + q * c;
    assert mean * c == mean * (c - 1.0) + mean;
  }

  /** The loop step of update_burst_interval, stated over the running total of the deltas. */
  lemma IncrementalLoopStep(mean: real, count: int, base: real, deltas: seq<int>, k: int, next: real)
    requires count >= 1 && 0 <= k < |deltas|
    requires mean * (count - 1) as real == base + Sum(deltas[..k]) as real
    requires next == mean + (deltas[k] as real - mean) / count as real
    ensures next * count as real == base + Sum(deltas[..k + 1]) as real
  {
    assert deltas[..k + 1][..k] == deltas[..k];
    assert Sum(deltas[..k + 1]) == Sum(deltas[..k]) + deltas[k];
    IncrementalStep(mean, count as real, base + Sum(deltas[..k]) as real, deltas[k] as real, next);
  }

  /** `mean` over `count` values carries the total of `storedCount` values of mean `interval` plus `ds`. */
  predicate TotalKept(mean: real, count: int, interval: real, storedCount: int, ds: seq<int>) {
    mean * count as real == interval * storedCount as real + Sum(ds) as real
  }

  /**
   * The incremental loop of update_burst_interval: folds `deltas` into a mean
   * `interval` over `storedCount` earlier values. The result times the new count
   * is the old total plus the new deltas.
   */
  method IncrementalMean(interval: real, storedCount: nat, deltas: seq<int>) returns (mean: real, count: nat)
    ensures count == storedCount + |deltas|
    ensures TotalKept(mean, count, interval, storedCount, deltas)
  {
    mean, count := interval, storedCount;
    ghost var base := interval * storedCount as real;
    for k := 0 to |deltas|
      invariant count == storedCount + k
      invariant mean * count as real == base + Sum(deltas[..k]) as real
    {
      var delta := deltas[k];
      count := count + 1;
      var next := mean + (delta as real - mean) / count as real;
      IncrementalLoopStep(mean, count, base, deltas, k, next);
      mean := next;
    }
    assert deltas[..|deltas|] == deltas;
  }

  /**
   * Returns (code, interval, count): code 0 and the inputs unchanged when there
   * are no deltas; code 1 and the plain mean when the device has no stored count;
   * code 2 and the incremental mean over the stored count plus the new deltas.
   */
  method UpdateBurstInterval(times: seq<int>, interval: real, probesCount: int, storedCount: nat)
    returns (code: int, newInterval: real, newCount: int)
    ensures BurstDeltas(times) == [] ==> code == 0 && newInterval == interval && newCount == probesCount
    ensures BurstDeltas(times) != [] && storedCount == 0 ==>
              code == 1 && newInterval == Mean(BurstDeltas(times)) && newCount == |BurstDeltas(times)|
    ensures BurstDeltas(times) != [] && storedCount > 0 ==>
              && code == 2
              && newCount == storedCount + |BurstDeltas(times)|
              && TotalKept(newInterval, newCount, interval, storedCount, BurstDeltas(times))
  {
    var deltas := GetProbesBurstDeltas(times);
    newInterval, newCount := interval, probesCount;
    if deltas == [] {
      code := 0;
    } else if storedCount == 0 {
      newInterval := Sum(deltas) as real / |deltas| as real;
      newCount := |deltas|;
      code := 1;
    } else {
      var count;
      newInterval, count := IncrementalMean(interval, storedCount, deltas);
      newCount := count;
      code := 2;
    }
  }

  /**
   * When the stored interval is the mean of earlier deltas and the stored count
   * their number, the incremental result is the mean of all deltas together.
   */
  lemma IncrementalIsMean(earlier: seq<int>, deltas: seq<int>, result: real)
    requires |earlier| > 0
    requires TotalKept(result, |earlier| + |deltas|, Mean(earlier), |earlier|, deltas)
    ensures result == Mean(earlier + deltas)
  {
    var all := earlier + deltas;
    SumConcat(earlier, deltas);
    var n := |earlier| as real;
    var m := Mean(earlier);
    assert m == Sum(earlier) as real / n;
    DivMul(Sum(earlier) as real, n);
    assert m * n == Sum(earlier) as real;
    var t := |all| as real;
    assert t == (|earlier| + |deltas|) as real;
    assert result * t == m * n + Sum(deltas) as real;
    assert result * t == Sum(all) as real;
    Quotient(result, t, Sum(all) as real);
  }

  lemma Quotient(r: real, t: real, s: real)
    requires t != 0.0 && r * t == s
    ensures r == s / t
  {
  }
}
