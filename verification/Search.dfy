/** The repository's upper-bound search: linear up to sixteen entries, binary above. */
module Search {

  predicate Sorted(vals: seq<real>) {
    forall i, j | 0 <= i < j < |vals| :: vals[i] <= vals[j]
  }

  /** How many entries are at most `x`. */
  function CountAtMost(vals: seq<real>, x: real): (n: nat)
    ensures n <= |vals|
  {
    if |vals| == 0 then 0 else
      CountAtMost(vals[..|vals| - 1], x) + if vals[|vals| - 1] <= x then 1 else 0
  }

  /** How many entries are below `t`. */
  function CountBelow(vals: seq<real>, t: real): (n: nat)
    ensures n <= |vals|
  {
    if |vals| == 0 then 0 else
      CountBelow(vals[..|vals| - 1], t) + if vals[|vals| - 1] < t then 1 else 0
  }

  lemma {:induction false} AllAbove(vals: seq<real>, x: real)
    requires forall k | 0 <= k < |vals| :: vals[k] > x
    ensures CountAtMost(vals, x) == 0
  {
    if |vals| > 0 { AllAbove(vals[..|vals| - 1], x); }
  }

  /** A split between the entries at most `x` and those above it is the count. */
  lemma {:induction false} SplitIsCount(vals: seq<real>, x: real, n: nat)
    requires n <= |vals|
    requires forall k | 0 <= k < n :: vals[k] <= x
    requires forall k | n <= k < |vals| :: vals[k] > x
    ensures CountAtMost(vals, x) == n
  {
    if n == 0 {
      AllAbove(vals, x);
    } else if n == |vals| {
      SplitIsCount(vals[..|vals| - 1], x, n - 1);
    } else {
      SplitIsCount(vals[..|vals| - 1], x, n);
    }
  }

  /** Comparing counts decides the comparison with any entry of the list, sorted or not. */
  lemma {:induction false} CountDecides(vals: seq<real>, x: real, t: real)
    requires t in vals
    ensures CountAtMost(vals, x) <= CountBelow(vals, t) <==> x < t
  {
    if x < t { AtMostFewer(vals, x, t); } else { BelowFewer(vals, x, t); }
  }

  lemma {:induction false} AtMostFewer(vals: seq<real>, x: real, t: real)
    requires x < t
    ensures CountAtMost(vals, x) <= CountBelow(vals, t)
  {
    if |vals| > 0 { AtMostFewer(vals[..|vals| - 1], x, t); }
  }

  lemma {:induction false} BelowFewer(vals: seq<real>, x: real, t: real)
    requires t <= x
    ensures CountBelow(vals, t) + (if t in vals then 1 else 0) <= CountAtMost(vals, x)
  {
    if |vals| == 0 {
    } else {
      var init := vals[..|vals| - 1];
      assert vals == init + [vals[|vals| - 1]];
      BelowFewer(init, x, t);
    }
  }

  lemma {:induction false} CountAtLeast(vals: seq<real>, x: real, n: nat)
    requires n <= |vals| && forall k | 0 <= k < n :: vals[k] <= x
    ensures CountAtMost(vals, x) >= n
  {
    if 0 < n == |vals| {
      CountAtLeast(vals[..n - 1], x, n - 1);
    } else if n < |vals| {
      CountAtLeast(vals[..|vals| - 1], x, n);
    }
  }

  lemma {:induction false} CountAtMostIndex(vals: seq<real>, x: real, n: nat)
    requires n <= |vals| && forall k | n <= k < |vals| :: x < vals[k]
    ensures CountAtMost(vals, x) <= n
  {
    if n < |vals| { CountAtMostIndex(vals[..|vals| - 1], x, n); }
  }

  /** In a sorted list, a rank is at most an index exactly when the value is below the entry there. */
  lemma RankDecides(vals: seq<real>, x: real, r: nat)
    requires Sorted(vals) && r < |vals|
    ensures CountAtMost(vals, x) <= r <==> x < vals[r]
  {
    if x < vals[r] { CountAtMostIndex(vals, x, r); } else { CountAtLeast(vals, x, r + 1); }
  }

  /** Where bisection ends between `lo` and `hi`, for any list. */
  function Bisect(vals: seq<real>, x: real, lo: nat, hi: nat): (n: nat)
    requires lo <= hi <= |vals|
    ensures lo <= n <= hi && (lo < n ==> vals[n - 1] <= x) && (n < hi ==> x < vals[n])
    decreases hi - lo
  {
    if lo == hi then lo
    else
      var mid := (lo + hi) / 2;
      if vals[mid] <= x then Bisect(vals, x, mid + 1, hi) else Bisect(vals, x, lo, mid)
  }

  /** In a sorted list bisection counts the entries at most `x`. */
  lemma BisectCounts(vals: seq<real>, x: real)
    requires Sorted(vals)
    ensures Bisect(vals, x, 0, |vals|) == CountAtMost(vals, x)
  {
    SplitIsCount(vals, x, Bisect(vals, x, 0, |vals|));
  }

  method UpperBound(vals: seq<real>, x: real) returns (n: nat)
    requires Sorted(vals)
    ensures n == CountAtMost(vals, x)
  {
    if |vals| <= 16 {
      var i := 0;
      while i < |vals|
        invariant i <= |vals|
        invariant forall k | 0 <= k < i :: vals[k] <= x
      {
        if vals[i] > x {
          SplitIsCount(vals, x, i);
          return i;
        }
        i := i + 1;
      }
      SplitIsCount(vals, x, |vals|);
      return |vals|;
    }
    n := BinaryUpperBound(vals, x);
  }

  method BinaryUpperBound(vals: seq<real>, x: real) returns (lo: nat)
    ensures lo == Bisect(vals, x, 0, |vals|)
    ensures Sorted(vals) ==> lo == CountAtMost(vals, x)
  {
    lo := 0;
    var hi := |vals|;
    while lo < hi
      invariant lo <= hi <= |vals|
      invariant Bisect(vals, x, lo, hi) == Bisect(vals, x, 0, |vals|)
    {
      var mid := (lo + hi) / 2;
      if vals[mid] <= x {
        lo := mid + 1;
      } else {
        hi := mid;
      }
    }
    if Sorted(vals) {
      BisectCounts(vals, x);
    }
  }
}
