/**
 * Nearest-rank percentiles and the samples of one call
 * (apps/agent-worker/voiceos_voice/accounting.py).
 */
module Percentiles {
  import opened Wrappers
  import opened Rounding
  import opened CallQuality

  function Insert(x: real, s: seq<real>): seq<real> {
    if s == [] || x <= s[0] then [x] + s else [s[0]] + Insert(x, s[1..])
  }

  function Sort(s: seq<real>): (r: seq<real>)
    ensures |r| == |s|
  {
    if s == [] then [] else InsertLen(s[0], Sort(s[1..])); Insert(s[0], Sort(s[1..]))
  }

  lemma InsertLen(x: real, s: seq<real>)
    ensures |Insert(x, s)| == |s| + 1
  {
  }

  function Ceil(x: real): int {
    -((-x).Floor)
  }

  /** The index for a share of `x` values. */
  function Rank(x: real): int {
    if Ceil(x) < 1 then 0 else Ceil(x) - 1
  }

  lemma RankInRange(n: nat, x: real)
    requires 0.0 < x <= n as real
    ensures 0 <= Rank(x) < n
    ensures Rank(x) as real < x <= (Rank(x) + 1) as real
  {
    var k := (-x).Floor;
    assert k as real <= -x < k as real + 1.0;
  }

  lemma ShareInRange(n: nat, p: real)
    requires n > 0 && 0.0 < p <= 1.0
    ensures 0.0 < p * n as real <= n as real
  {
  }

  function Selected(values: seq<real>, p: real): real
    requires values != [] && 0.0 < p <= 1.0
  {
    ShareInRange(|values|, p);
    RankInRange(|values|, p * |values| as real);
    Sort(values)[Rank(p * |values| as real)]
  }

  /** In milliseconds; absent without values. */
  function Percentile(values: seq<real>, p: real): Option<int>
    requires 0.0 < p <= 1.0
  {
    if values == [] then None else Some(RoundInt(Selected(values, p) * 1000.0))
  }

  // ------------------------------------------------------------------- the nearest rank

  function AtMost(s: seq<real>, x: real): nat {
    if s == [] then 0 else (if s[0] <= x then 1 else 0) + AtMost(s[1..], x)
  }

  function Below(s: seq<real>, x: real): nat {
    if s == [] then 0 else (if s[0] < x then 1 else 0) + Below(s[1..], x)
  }

  predicate Sorted(s: seq<real>) {
    forall i, j :: 0 <= i < j < |s| ==> s[i] <= s[j]
  }

  lemma {:induction false} InsertKeeps(x: real, s: seq<real>, y: real)
    ensures AtMost(Insert(x, s), y) == AtMost([x] + s, y) && Below(Insert(x, s), y) == Below([x] + s, y)
    ensures y in Insert(x, s) <==> y == x || y in s
  {
    assert ([x] + s)[1..] == s;
    if s != [] && x > s[0] {
      InsertKeeps(x, s[1..], y);
      var rest := Insert(x, s[1..]);
      assert ([s[0]] + rest)[1..] == rest;
      assert ([x] + s[1..])[1..] == s[1..];
    }
  }

  lemma {:induction false} InsertSorted(x: real, s: seq<real>)
    requires Sorted(s)
    ensures Sorted(Insert(x, s))
  {
    if s != [] && x > s[0] {
      InsertSorted(x, s[1..]);
      var rest := Insert(x, s[1..]);
      forall i | 0 <= i < |rest| ensures s[0] <= rest[i] {
        InsertKeeps(x, s[1..], rest[i]);
      }
    }
  }

  lemma {:induction false} SortKeeps(s: seq<real>, y: real)
    ensures AtMost(Sort(s), y) == AtMost(s, y) && Below(Sort(s), y) == Below(s, y)
    ensures y in Sort(s) <==> y in s
  {
    if s != [] {
      SortKeeps(s[1..], y);
      InsertKeeps(s[0], Sort(s[1..]), y);
      assert ([s[0]] + Sort(s[1..]))[1..] == Sort(s[1..]);
    }
  }

  lemma {:induction false} SortSorted(s: seq<real>)
    ensures Sorted(Sort(s))
  {
    if s != [] {
      SortSorted(s[1..]);
      InsertSorted(s[0], Sort(s[1..]));
    }
  }

  /** In a sorted list, the element at `k` has at least k + 1 values at most it, and at most k below it. */
  lemma {:induction false} SortedCounts(s: seq<real>, k: nat)
    requires Sorted(s) && k < |s|
    ensures AtMost(s, s[k]) >= k + 1 && Below(s, s[k]) <= k
  {
    if k > 0 {
      SortedCounts(s[1..], k - 1);
    } else {
      NoneBelow(s, s[0]);
    }
  }

  lemma {:induction false} NoneBelow(s: seq<real>, x: real)
    requires forall i :: 0 <= i < |s| ==> x <= s[i]
    ensures Below(s, x) == 0
  {
    if s != [] { NoneBelow(s[1..], x); }
  }

  lemma {:induction false} AtMostBelow(s: seq<real>, x: real, y: real)
    requires x < y
    ensures AtMost(s, x) <= Below(s, y)
  {
    if s != [] { AtMostBelow(s[1..], x, y); }
  }

  /** A value with at least x values at most it and fewer than x below it. */
  predicate IsNearest(values: seq<real>, x: real, r: real) {
    r in values && AtMost(values, r) as real >= x > Below(values, r) as real
  }

  lemma RankIsNearest(values: seq<real>, x: real)
    requires 0.0 < x <= |values| as real
    ensures 0 <= Rank(x) < |values| && IsNearest(values, x, Sort(values)[Rank(x)])
  {
    RankInRange(|values|, x);
    SortSorted(values);
    SortedCounts(Sort(values), Rank(x));
    SortKeeps(values, Sort(values)[Rank(x)]);
  }

  lemma NearestIsUnique(values: seq<real>, x: real, r: real, s: real)
    requires IsNearest(values, x, r) && IsNearest(values, x, s)
    ensures r == s
  {
    if r < s { AtMostBelow(values, r, s); }
    if s < r { AtMostBelow(values, s, r); }
  }

  /** The selected value is the nearest-rank percentile: at least p of the list is at most it and
      less than p of the list is below it. No other value is. */
  lemma SelectedIsNearestRank(values: seq<real>, p: real, r: real)
    requires values != [] && 0.0 < p <= 1.0
    ensures IsNearest(values, p * |values| as real, r) <==> r == Selected(values, p)
  {
    var x := p * |values| as real;
    ShareInRange(|values|, p);
    RankIsNearest(values, x);
    var found := Selected(values, p);
    assert IsNearest(values, x, found);
    if IsNearest(values, x, r) { NearestIsUnique(values, x, r, found); }
  }

  /** It is reported in whole milliseconds, to the nearest. */
  lemma PercentileNearest(values: seq<real>, p: real)
    requires values != [] && 0.0 < p <= 1.0
    ensures -0.5 <= Percentile(values, p).value as real - 1000.0 * Selected(values, p) <= 0.5
  {
    RoundNearest(Selected(values, p) * 1000.0);
  }

  lemma SelectedOrdered(values: seq<real>, p: real, q: real)
    requires values != [] && 0.0 < p <= q <= 1.0
    ensures Selected(values, p) <= Selected(values, q)
  {
    var x, y := Shares(|values|, p, q);
    SelectedAt(values, p, x);
    SelectedAt(values, q, y);
    RanksOrdered(values, x, y);
  }

  lemma Shares(n: nat, p: real, q: real) returns (x: real, y: real)
    requires n > 0 && 0.0 < p <= q <= 1.0
    ensures IsShare(x, n, p) && IsShare(y, n, q) && 0.0 < x <= y <= n as real
  {
    x, y := p * n as real, q * n as real;
    ShareInRange(n, p);
    ShareInRange(n, q);
    ShareMonotone(n, p, q);
  }

  lemma SelectedAt(values: seq<real>, p: real, x: real)
    requires values != [] && 0.0 < p <= 1.0 && IsShare(x, |values|, p)
    ensures 0.0 < x <= |values| as real && 0 <= Rank(x) < |values| && Selected(values, p) == Sort(values)[Rank(x)]
  {
    ShareInRange(|values|, p);
    RankInRange(|values|, x);
  }

  predicate IsShare(x: real, n: nat, p: real) {
    x == p * n as real
  }

  lemma RanksOrdered(values: seq<real>, x: real, y: real)
    requires 0.0 < x <= y <= |values| as real
    ensures 0 <= Rank(x) <= Rank(y) < |values| && Sort(values)[Rank(x)] <= Sort(values)[Rank(y)]
  {
    var i, j := RankMonotone(|values|, x, y);
    SortSorted(values);
    SortedAt(Sort(values), i, j);
  }

  lemma SortedAt(s: seq<real>, i: nat, j: nat)
    requires Sorted(s) && i <= j < |s|
    ensures s[i] <= s[j]
  {
  }

  /** A higher percentile is never smaller: p50 is at most p95. */
  lemma PercentilesOrdered(values: seq<real>, p: real, q: real)
    requires values != [] && 0.0 < p <= q <= 1.0
    ensures Percentile(values, p).value <= Percentile(values, q).value
  {
    SelectedOrdered(values, p, q);
    RoundMonotone(Selected(values, p) * 1000.0, Selected(values, q) * 1000.0);
  }

  lemma ShareMonotone(n: nat, p: real, q: real)
    requires p <= q
    ensures p * n as real <= q * n as real
  {
  }

  lemma RankMonotone(n: nat, x: real, y: real) returns (i: nat, j: nat)
    requires 0.0 < x <= y <= n as real
    ensures i == Rank(x) && j == Rank(y) && i <= j < n
  {
    RankInRange(n, x);
    RankInRange(n, y);
    i, j := Rank(x), Rank(y);
  }

  // ---------------------------------------------------------------------- one call's samples

  datatype Sample = Sample(loss: real, jitter: real, rtt: real, mos: real)

  function Sum(s: seq<real>): real {
    if s == [] then 0.0 else Sum(s[..|s| - 1]) + s[|s| - 1]
  }

  predicate Honest(sample: Sample) {
    && sample.loss >= 0.0 && sample.jitter >= 0.0 && sample.rtt >= 0.0
    && sample.mos == EstimateMos(sample.loss, sample.jitter, sample.rtt)
  }

  lemma {:induction false} SumBounds(s: seq<real>, lo: real, hi: real)
    requires forall i :: 0 <= i < |s| ==> lo <= s[i] <= hi
    ensures lo * |s| as real <= Sum(s) <= hi * |s| as real
  {
    if s != [] { SumBounds(s[..|s| - 1], lo, hi); }
  }

  lemma MeanBounds(sum: real, n: nat, lo: real, hi: real)
    requires n > 0 && lo * n as real <= sum <= hi * n as real
    ensures lo <= sum / n as real <= hi
  {
    var m := sum / n as real;
    assert m * n as real == sum;
  }

  /** One measure of every sample. */
  function Column(samples: seq<Sample>, measure: Sample -> real): (c: seq<real>)
    ensures |c| == |samples|
    ensures forall i :: 0 <= i < |c| ==> c[i] == measure(samples[i])
  {
    seq(|samples|, i requires 0 <= i < |samples| => measure(samples[i]))
  }

  /** The mean that is reported for a measure. */
  function Mean(samples: seq<Sample>, measure: Sample -> real): real
    requires samples != []
  {
    Round2(Sum(Column(samples, measure)) / |samples| as real)
  }

  const Loss := (s: Sample) => s.loss
  const Jitter := (s: Sample) => s.jitter
  const Rtt := (s: Sample) => s.rtt
  const Mos := (s: Sample) => s.mos

  /** A measure that lies between two values with at most two decimals has its mean there too. */
  lemma MeanBetween(samples: seq<Sample>, measure: Sample -> real, lo: real, hi: real)
    requires samples != [] && Round2(lo) == lo && Round2(hi) == hi
    requires forall i :: 0 <= i < |samples| ==> lo <= measure(samples[i]) <= hi
    ensures lo <= Mean(samples, measure) <= hi
  {
    var column, n := Column(samples, measure), |samples|;
    SumBounds(column, lo, hi);
    MeanBounds(Sum(column), n, lo, hi);
    Round2Monotone(lo, Sum(column) / n as real);
    Round2Monotone(Sum(column) / n as real, hi);
  }

  /** The reported mean score of any list of samples lies in the range of a single score. */
  lemma MeanInRange(samples: seq<Sample>)
    requires samples != [] && forall i :: 0 <= i < |samples| ==> Honest(samples[i])
    ensures 1.0 <= Mean(samples, Mos) <= 4.4
  {
    forall i | 0 <= i < |samples| ensures 1.0 <= Mos(samples[i]) <= 4.4 {
      assert Honest(samples[i]);
      MosRange(samples[i].loss, samples[i].jitter, samples[i].rtt);
    }
    MeanBetween(samples, Mos, 1.0, 4.4);
  }

  datatype Means = Means(loss: real, jitter: real, rtt: real, mos: real)

  class CallAccounting {
    var ttfb: seq<real>
    var samples: seq<Sample>

    ghost predicate Valid() reads this {
      && (forall i :: 0 <= i < |samples| ==> Honest(samples[i]))
      && (forall i :: 0 <= i < |ttfb| ==> ttfb[i] >= 0.0)
    }

    constructor ()
      ensures Valid() && ttfb == [] && samples == []
    {
      ttfb, samples := [], [];
    }

    method ObserveE2eLatency(latency: Option<real>)
      requires Valid()
      modifies this
      ensures Valid() && samples == old(samples)
      ensures ttfb == if latency.Some? && latency.value >= 0.0 then old(ttfb) + [latency.value] else old(ttfb)
    {
      if latency.Some? && latency.value >= 0.0 {
        ttfb := ttfb + [latency.value];
      }
    }

    method ObserveNetwork(loss: real, jitter: real, rtt: real)
      requires Valid()
      modifies this
      ensures Valid() && ttfb == old(ttfb)
      ensures if loss < 0.0 || jitter < 0.0 || rtt < 0.0 then samples == old(samples)
              else samples == old(samples) + [Sample(loss, jitter, rtt, EstimateMos(loss, jitter, rtt))]
    {
      if Min(Min(loss, jitter), rtt) < 0.0 {
        return;
      }
      samples := samples + [Sample(loss, jitter, rtt, EstimateMos(loss, jitter, rtt))];
    }

    /** The means reported for the call; absent without samples. */
    method NetworkMeans() returns (means: Option<Means>)
      requires Valid()
      ensures means.None? <==> samples == []
      ensures means.Some? ==>
                means.value == Means(Mean(samples, Loss), Mean(samples, Jitter), Mean(samples, Rtt), Mean(samples, Mos))
      ensures means.Some? ==> 1.0 <= means.value.mos <= 4.4
    {
      if samples == [] {
        return None;
      }
      MeanInRange(samples);
      var loss := MeanOf(Loss);
      var jitter := MeanOf(Jitter);
      var rtt := MeanOf(Rtt);
      var mos := MeanOf(Mos);
      return Some(Means(loss, jitter, rtt, mos));
    }

    method MeanOf(measure: Sample -> real) returns (mean: real)
      requires samples != []
      ensures mean == Mean(samples, measure)
    {
      var total := 0.0;
      ghost var column := Column(samples, measure);
      for i := 0 to |samples|
        invariant total == Sum(column[..i])
      {
        assert column[..i + 1][..i] == column[..i];
        total := total + measure(samples[i]);
      }
      assert column[..|samples|] == column;
      return Round2(total / |samples| as real);
    }

    method LatencyPercentiles() returns (p50: Option<int>, p95: Option<int>)
      ensures p50 == Percentile(ttfb, 0.5) && p95 == Percentile(ttfb, 0.95)
      ensures ttfb != [] ==> p50.Some? && p95.Some? && p50.value <= p95.value
    {
      p50, p95 := Percentile(ttfb, 0.5), Percentile(ttfb, 0.95);
      if ttfb != [] { PercentilesOrdered(ttfb, 0.5, 0.95); }
    }
  }
}
