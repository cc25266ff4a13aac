/** Percentiles of visited-tree counts: from the sorted list, and from a histogram. */
module Histograms {

  /** The bucket a count falls in: counts outside 0..max go to the ends. */
  function Bucket(v: int, max: nat): (b: nat)
    ensures b <= max
  {
    if v <= 0 then 0 else if v < max then v else max
  }

  /** How many counts fall in buckets below `t`. */
  function Below(v: seq<int>, t: nat, max: nat): (n: nat)
    ensures n <= |v|
  {
    if |v| == 0 then 0 else Below(v[..|v| - 1], t, max) + if Bucket(v[|v| - 1], max) < t then 1 else 0
  }

  /** How many fall in bucket `i`. */
  function InBucket(v: seq<int>, i: nat, max: nat): nat {
    if |v| == 0 then 0 else InBucket(v[..|v| - 1], i, max) + if Bucket(v[|v| - 1], max) == i then 1 else 0
  }

  method HistogramFromVisits(visits: seq<int>, max: nat) returns (hist: seq<nat>)
    ensures |hist| == max + 1 && forall i | 0 <= i <= max :: hist[i] == InBucket(visits, i, max)
  {
    var h := new nat[max + 1](_ => 0);
    for k := 0 to |visits|
      invariant forall i | 0 <= i <= max :: h[i] == InBucket(visits[..k], i, max)
    {
      assert visits[..k + 1][..k] == visits[..k];
      var idx := if visits[k] <= 0 then 0 else if visits[k] < max then visits[k] else max;
      h[idx] := h[idx] + 1;
    }
    assert visits[..|visits|] == visits;
    hist := h[..];
  }

  function Prefix(hist: seq<nat>, n: nat): nat
    requires n <= |hist|
  {
    if n == 0 then 0 else Prefix(hist, n - 1) + hist[n - 1]
  }

  lemma {:induction false} BucketsAddUp(v: seq<int>, t: nat, max: nat)
    ensures Below(v, t + 1, max) == Below(v, t, max) + InBucket(v, t, max)
  {
    if |v| > 0 { BucketsAddUp(v[..|v| - 1], t, max); }
  }

  lemma {:induction false} NothingBelowZero(v: seq<int>, max: nat)
    ensures Below(v, 0, max) == 0
  {
    if |v| > 0 { NothingBelowZero(v[..|v| - 1], max); }
  }

  lemma {:induction false} AllBelowEnd(v: seq<int>, max: nat)
    ensures Below(v, max + 1, max) == |v|
  {
    if |v| > 0 { AllBelowEnd(v[..|v| - 1], max); }
  }

  ghost predicate IsHistogram(hist: seq<nat>, v: seq<int>, max: nat) {
    |hist| == max + 1 && forall i | 0 <= i <= max :: hist[i] == InBucket(v, i, max)
  }

  lemma {:induction false} PrefixIsBelow(hist: seq<nat>, v: seq<int>, max: nat, n: nat)
    requires IsHistogram(hist, v, max) && n <= max + 1
    ensures Prefix(hist, n) == Below(v, n, max)
  {
    if n == 0 {
      NothingBelowZero(v, max);
    } else {
      PrefixIsBelow(hist, v, max, n - 1);
      BucketsAddUp(v, n - 1, max);
    }
  }

  /** The histogram counts every visit once. */
  lemma HistogramCountsAll(hist: seq<nat>, v: seq<int>, max: nat)
    requires IsHistogram(hist, v, max)
    ensures Prefix(hist, |hist|) == |v|
  {
    PrefixIsBelow(hist, v, max, max + 1);
    AllBelowEnd(v, max);
  }

  lemma {:induction false} InBucketJoin(a: seq<int>, b: seq<int>, i: nat, max: nat)
    ensures InBucket(a + b, i, max) == InBucket(a, i, max) + InBucket(b, i, max)
  {
    if |b| == 0 {
      assert a + b == a;
    } else {
      assert (a + b)[..|a + b| - 1] == a + b[..|b| - 1];
      InBucketJoin(a, b[..|b| - 1], i, max);
    }
  }

  /** Histograms of parts add up to the histogram of the whole. */
  lemma HistogramsMerge(ha: seq<nat>, a: seq<int>, hb: seq<nat>, b: seq<int>, max: nat)
    requires IsHistogram(ha, a, max) && IsHistogram(hb, b, max)
    ensures IsHistogram(seq(max + 1, i requires 0 <= i <= max => ha[i] + hb[i]), a + b, max)
  {
    forall i | 0 <= i <= max ensures ha[i] + hb[i] == InBucket(a + b, i, max) { InBucketJoin(a, b, i, max); }
  }

  // ---------------------------------------------------------------- sorting

  predicate IsSorted(s: seq<int>) { forall i, j | 0 <= i < j < |s| :: s[i] <= s[j] }

  function Insert(x: int, s: seq<int>): (r: seq<int>)
    requires IsSorted(s)
    ensures |r| == |s| + 1 && IsSorted(r)
    ensures r[|r| - 1] == if |s| > 0 && s[|s| - 1] > x then s[|s| - 1] else x
  {
    if |s| == 0 || s[|s| - 1] <= x then s + [x] else Insert(x, s[..|s| - 1]) + [s[|s| - 1]]
  }

  function Sort(v: seq<int>): (s: seq<int>)
    ensures |s| == |v| && IsSorted(s)
  {
    if |v| == 0 then [] else Insert(v[|v| - 1], Sort(v[..|v| - 1]))
  }

  /** How often `x` occurs. */
  function Occurrences(v: seq<int>, x: int): nat {
    if |v| == 0 then 0 else Occurrences(v[..|v| - 1], x) + if v[|v| - 1] == x then 1 else 0
  }

  lemma {:induction false} InsertCounts(x: int, s: seq<int>, t: nat, max: nat, y: int)
    requires IsSorted(s)
    ensures Below(Insert(x, s), t, max) == Below(s, t, max) + if Bucket(x, max) < t then 1 else 0
    ensures Occurrences(Insert(x, s), y) == Occurrences(s, y) + if x == y then 1 else 0
  {
    var r := Insert(x, s);
    if |s| == 0 || s[|s| - 1] <= x {
      assert r[..|r| - 1] == s;
    } else {
      InsertCounts(x, s[..|s| - 1], t, max, y);
      assert r[..|r| - 1] == Insert(x, s[..|s| - 1]);
    }
  }

  /** Sorting rearranges: it keeps how often each count occurs, and what is below each bucket. */
  lemma {:induction false} SortCounts(v: seq<int>, t: nat, max: nat, y: int)
    ensures Below(Sort(v), t, max) == Below(v, t, max)
    ensures Occurrences(Sort(v), y) == Occurrences(v, y)
  {
    if |v| == 0 {
    } else {
      SortCounts(v[..|v| - 1], t, max, y);
      InsertCounts(v[|v| - 1], Sort(v[..|v| - 1]), t, max, y);
    }
  }

  lemma {:induction false} OccursIff(v: seq<int>, x: int)
    ensures Occurrences(v, x) > 0 <==> x in v
  {
    if |v| == 0 {
    } else {
      OccursIff(v[..|v| - 1], x);
      assert v == v[..|v| - 1] + [v[|v| - 1]];
    }
  }

  lemma SortedFrom(v: seq<int>, k: nat)
    requires k < |v|
    ensures Sort(v)[k] in v
  {
    var x := Sort(v)[k];
    SortCounts(v, 0, 0, x);
    OccursIff(Sort(v), x);
    OccursIff(v, x);
  }

  lemma {:induction false} AllCounted(s: seq<int>, t: nat, max: nat)
    requires forall k | 0 <= k < |s| :: Bucket(s[k], max) < t
    ensures Below(s, t, max) == |s|
  {
    if |s| > 0 { AllCounted(s[..|s| - 1], t, max); }
  }

  predicate NoneBelow(s: seq<int>, n: nat, t: nat, max: nat) { forall k | n <= k < |s| :: Bucket(s[k], max) >= t }

  lemma {:induction false} MoreCounts(s: seq<int>, n: nat, t: nat, max: nat)
    requires n <= |s|
    ensures Below(s[..n], t, max) <= Below(s, t, max)
    ensures NoneBelow(s, n, t, max) ==> Below(s, t, max) == Below(s[..n], t, max)
  {
    if n == |s| {
      assert s[..n] == s;
    } else {
      var front := s[..|s| - 1];
      assert front[..n] == s[..n];
      MoreCounts(front, n, t, max);
    }
  }

  /** In a sorted list, the element at `k` is in a lower bucket exactly when more than `k` elements are. */
  lemma OrderStatistic(s: seq<int>, k: nat, t: nat, max: nat)
    requires IsSorted(s) && k < |s|
    ensures Bucket(s[k], max) < t <==> Below(s, t, max) > k
  {
    if Bucket(s[k], max) < t {
      var front := s[..k + 1];
      forall j | 0 <= j < |front| ensures Bucket(front[j], max) < t {}
      AllCounted(front, t, max);
      MoreCounts(s, k + 1, t, max);
    } else {
      assert NoneBelow(s, k, t, max);
      MoreCounts(s, k, t, max);
    }
  }

  // ---------------------------------------------------------------- percentiles

  /** Half away from zero, as non-negative numbers are rounded. */
  function Round(x: real): nat
    requires x >= 0.0
  {
    (x + 0.5).Floor
  }

  /** Which element of `n` sorted ones a quantile asks for. */
  function Rank(n: nat, q: real): (k: nat)
    requires n > 0 && 0.0 <= q <= 1.0
    ensures k < n
  {
    var span := (n - 1) as real;
    assert 0.0 <= span * q <= span by { ScaledWithin(span, q); }
    Round(span * q)
  }

  /** The rank asked for is the nearest to that share of the way from the first to the last, the later one of two as
      near. */
  lemma RankIsNearest(n: nat, q: real)
    requires n > 0 && 0.0 <= q <= 1.0
    ensures Rank(n, q) as real - 0.5 <= (n - 1) as real * q < Rank(n, q) as real + 0.5
    ensures Rank(n, 0.0) == 0 && Rank(n, 1.0) == n - 1
  {
    ScaledWithin((n - 1) as real, q);
  }

  lemma ScaledWithin(x: real, q: real)
    requires x >= 0.0 && 0.0 <= q <= 1.0
    ensures 0.0 <= x * q <= x
  {
    assert x - x * q == x * (1.0 - q);
  }

  function Pct(v: seq<int>, q: real): int
    requires 0.0 <= q <= 1.0
  {
    if |v| == 0 then 0
    else Sort(v)[Rank(|v|, q)]
  }

  /** The running sum passes the rank exactly at the bucket of the ranked element. */
  lemma PassesAt(hist: seq<nat>, v: seq<int>, max: nat, target: nat, n: nat)
    requires IsHistogram(hist, v, max) && target < |v| && n <= max + 1
    ensures Prefix(hist, n) > target <==> Bucket(Sort(v)[target], max) < n
  {
    PrefixIsBelow(hist, v, max, n);
    SortCounts(v, n, max, 0);
    OrderStatistic(Sort(v), target, n, max);
  }

  lemma InRange(v: seq<int>, x: int, max: nat)
    requires x in v && forall k | 0 <= k < |v| :: 0 <= v[k] <= max
    ensures Bucket(x, max) == x
  {}

  /** The percentile from the histogram is the bucket of the percentile of the sorted list, for any counts;
      for counts within range it is that percentile. */
  method PctFromHist(hist: seq<nat>, q: real, n: nat, ghost v: seq<int>, ghost max: nat) returns (r: int)
    requires IsHistogram(hist, v, max) && n == |v| && 0.0 <= q <= 1.0
    ensures r == Bucket(Pct(v, q), max)
    ensures (forall k | 0 <= k < |v| :: 0 <= v[k] <= max) ==> r == Pct(v, q)
  {
    if n == 0 {
      return 0;
    }
    var target := Rank(n, q);
    ghost var s := Sort(v);
    if forall k | 0 <= k < |v| :: 0 <= v[k] <= max {
      SortedFrom(v, target);
      InRange(v, s[target], max);
    }
    var acc := 0;
    for i := 0 to |hist|
      invariant acc == Prefix(hist, i) && i <= Bucket(s[target], max)
    {
      acc := acc + hist[i];
      PassesAt(hist, v, max, target, i + 1);
      if acc > target {
        return i;
      }
    }
    return |hist| - 1;
  }
}
