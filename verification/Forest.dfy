/** Tree ensembles in structure-of-arrays form, and the plain meaning of a score: the sum of the
    leaves reached by walking every tree.  Scores and thresholds are real numbers; a feature is a
    number or missing. */
module Forest {

  datatype Result<+T> = Ok(value: T) | Err

  datatype Option<+T> = None | Some(value: T)

  datatype Feature = NaN | Num(v: real)

  type Row = seq<Feature>

  datatype SoaModel = SoaModel(
    nFeatures: nat,
    treeRoots: seq<nat>,
    fidx: seq<int>,
    left: seq<nat>,
    right: seq<nat>,
    missing: seq<nat>,
    thr: seq<real>,
    leaf: seq<real>,
    isLeaf: seq<bool>)
  {
    function NodeCount(): nat { |isLeaf| }

    /** Every array has one entry per node, and the children of a split come after it. */
    ghost predicate Valid() {
      && |fidx| == |left| == |right| == |missing| == |thr| == |leaf| == |isLeaf|
      && (forall t | 0 <= t < |treeRoots| :: treeRoots[t] < NodeCount())
      && (forall i | 0 <= i < NodeCount() && !isLeaf[i] :: SplitOk(i))
    }

    predicate SplitOk(i: nat)
      requires |fidx| == |left| == |right| == |missing| == |thr| == |leaf| == |isLeaf|
      requires i < NodeCount()
    {
      && 0 <= fidx[i] < nFeatures
      && i < left[i] < NodeCount()
      && i < right[i] < NodeCount()
      && i < missing[i] < NodeCount()
    }
  }

  /** The child a split sends a feature value to. */
  function Next(m: SoaModel, i: nat, x: Feature): (next: nat)
    requires m.Valid() && i < m.NodeCount() && !m.isLeaf[i]
    ensures i < next < m.NodeCount()
  {
    assert m.SplitOk(i);
    match x
    case NaN => m.missing[i]
    case Num(v) => if v < m.thr[i] then m.left[i] else m.right[i]
  }

  /** The leaf a row ends in, starting at node `i`. */
  function Walk(m: SoaModel, row: Row, i: nat): (l: nat)
    requires m.Valid() && |row| == m.nFeatures && i < m.NodeCount()
    ensures i <= l < m.NodeCount() && m.isLeaf[l]
    decreases m.NodeCount() - i
  {
    if m.isLeaf[i] then i else
      assert m.SplitOk(i);
      Walk(m, row, Next(m, i, row[m.fidx[i]]))
  }

  /** How many splits the walk tests. */
  function Depth(m: SoaModel, row: Row, i: nat): nat
    requires m.Valid() && |row| == m.nFeatures && i < m.NodeCount()
    decreases m.NodeCount() - i
  {
    if m.isLeaf[i] then 0 else
      assert m.SplitOk(i);
      1 + Depth(m, row, Next(m, i, row[m.fidx[i]]))
  }

  function TreeScore(m: SoaModel, row: Row, t: nat): real
    requires m.Valid() && |row| == m.nFeatures && t < |m.treeRoots|
  {
    m.leaf[Walk(m, row, m.treeRoots[t])]
  }

  predicate NanFree(row: Row) {
    forall f | 0 <= f < |row| :: row[f].Num?
  }

  // ---------------------------------------------------------------- sums

  /** The sum of the first `n` entries. */
  function Sum(v: seq<real>, n: nat): real
    requires n <= |v|
  {
    if n == 0 then 0.0 else Sum(v, n - 1) + v[n - 1]
  }

  function Total(v: seq<real>): real { Sum(v, |v|) }

  lemma {:induction false} SumPrefix(v: seq<real>, w: seq<real>, n: nat)
    requires n <= |v| && n <= |w| && v[..n] == w[..n]
    ensures Sum(v, n) == Sum(w, n)
  {
    if n == 0 {
    } else {
      assert v[..n - 1] == v[..n][..n - 1] == w[..n][..n - 1] == w[..n - 1];
      assert v[n - 1] == v[..n][n - 1] == w[n - 1];
      SumPrefix(v, w, n - 1);
    }
  }

  // ---------------------------------------------------------------- evaluation plans

  /** The order trees are evaluated in, with bounds on what the trees from each position on add. */
  datatype TreeOrder = TreeOrder(order: seq<nat>, suffixMin: seq<real>, suffixMax: seq<real>) {
    predicate Fits(m: SoaModel) {
      && |suffixMin| == |suffixMax| == |order| + 1
      && forall p | 0 <= p < |order| :: order[p] < |m.treeRoots|
    }
  }

  /** What each tree of the plan adds to a row's score, in plan order. */
  function PlanScores(m: SoaModel, plan: TreeOrder, row: Row): seq<real>
    requires m.Valid() && |row| == m.nFeatures && plan.Fits(m)
  {
    seq(|plan.order|, p requires 0 <= p < |plan.order| => TreeScore(m, row, plan.order[p]))
  }

  // ---------------------------------------------------------------- leaving out the missing test

  /** A float comparison: a missing value is below nothing. */
  predicate IsBelow(x: Feature, t: real) { x.Num? && x.v < t }

  /** The ensemble that sends every missing value right, as the comparison alone does. */
  function MissingRight(m: SoaModel): (r: SoaModel)
    requires m.Valid()
    ensures r.Valid() && r.NodeCount() == m.NodeCount()
  {
    var r := m.(missing := m.right);
    assert forall i | 0 <= i < r.NodeCount() && !r.isLeaf[i] :: m.SplitOk(i) ==> r.SplitOk(i);
    r
  }

  /** Every missing value of the row goes right wherever it is tested: so it is with rows that have none. */
  ghost predicate GoesRight(m: SoaModel, row: Row)
    requires m.Valid() && |row| == m.nFeatures
  {
    forall i: nat | i < m.NodeCount() && !m.isLeaf[i] && m.SplitOk(i) ::
      row[m.fidx[i]].NaN? ==> m.missing[i] == m.right[i]
  }

  /** For such rows the missing test can be left out. */
  lemma {:induction false} RightWalk(m: SoaModel, row: Row, i: nat)
    requires m.Valid() && |row| == m.nFeatures && GoesRight(m, row) && i < m.NodeCount()
    ensures Walk(MissingRight(m), row, i) == Walk(m, row, i)
    ensures Depth(MissingRight(m), row, i) == Depth(m, row, i)
    decreases m.NodeCount() - i
  {
    if m.isLeaf[i] {
    } else {
      assert m.SplitOk(i);
      RightWalk(m, row, Next(m, i, row[m.fidx[i]]));
    }
  }

  lemma RightScores(m: SoaModel, plan: TreeOrder, row: Row)
    requires m.Valid() && |row| == m.nFeatures && plan.Fits(m) && GoesRight(m, row)
    ensures PlanScores(MissingRight(m), plan, row) == PlanScores(m, plan, row)
  {
    forall p | 0 <= p < |plan.order|
      ensures TreeScore(MissingRight(m), row, plan.order[p]) == TreeScore(m, row, plan.order[p])
    {
      RightWalk(m, row, m.treeRoots[plan.order[p]]);
    }
  }

  // ---------------------------------------------------------------- sums in any order

  /** The sum of `v` at the positions `idx[..n]`. */
  function PositionsSum(v: seq<real>, idx: seq<nat>, n: nat): real
    requires n <= |idx| && forall k | 0 <= k < n :: idx[k] < |v|
  {
    if n == 0 then 0.0 else PositionsSum(v, idx, n - 1) + v[idx[n - 1]]
  }

  function Positions(n: nat): (s: seq<nat>)
    ensures |s| == n && forall k | 0 <= k < n :: s[k] == k
  {
    seq(n, k => k)
  }

  lemma {:induction false} AllPositions(v: seq<real>, n: nat)
    requires n <= |v|
    ensures PositionsSum(v, Positions(|v|), n) == Sum(v, n)
  {
    if n > 0 { AllPositions(v, n - 1); }
  }

  lemma {:induction false} PositionsPrefix(v: seq<real>, idx: seq<nat>, jdx: seq<nat>, n: nat)
    requires n <= |idx| && n <= |jdx| && idx[..n] == jdx[..n] && forall k | 0 <= k < n :: idx[k] < |v|
    ensures forall k | 0 <= k < n :: jdx[k] < |v|
    ensures PositionsSum(v, idx, n) == PositionsSum(v, jdx, n)
  {
    forall k | 0 <= k < n ensures idx[k] == jdx[k] { assert idx[..n][k] == jdx[..n][k]; }
    if n > 0 {
      assert idx[..n - 1] == idx[..n][..n - 1] == jdx[..n][..n - 1] == jdx[..n - 1];
      PositionsPrefix(v, idx, jdx, n - 1);
    }
  }

  /** Taking one position out of a list takes its value out of the sum. */
  lemma {:induction false} PositionsDrop(v: seq<real>, idx: seq<nat>, k: nat)
    requires k < |idx| && forall j | 0 <= j < |idx| :: idx[j] < |v|
    ensures var rest := idx[..k] + idx[k + 1..];
            PositionsSum(v, idx, |idx|) == PositionsSum(v, rest, |rest|) + v[idx[k]]
    decreases |idx|
  {
    var rest := idx[..k] + idx[k + 1..];
    var last := |idx| - 1;
    var init := idx[..last];
    PositionsPrefix(v, idx, init, last);
    if k == last {
      assert rest == init;
    } else {
      PositionsDrop(v, init, k);
      var rest' := init[..k] + init[k + 1..];
      assert rest == rest' + [idx[last]];
      PositionsPrefix(v, rest, rest', |rest'|);
    }
  }

  lemma SameMembers(idx: seq<nat>, jdx: seq<nat>, bound: nat)
    requires multiset(idx) == multiset(jdx) && forall k | 0 <= k < |idx| :: idx[k] < bound
    ensures |idx| == |jdx| && forall k | 0 <= k < |jdx| :: jdx[k] < bound
  {
    assert |idx| == |multiset(idx)| == |multiset(jdx)| == |jdx|;
    forall k | 0 <= k < |jdx| ensures jdx[k] < bound {
      assert jdx[k] in multiset(jdx);
      assert jdx[k] in idx;
    }
  }

  lemma DropFromBoth(idx: seq<nat>, jdx: seq<nat>) returns (k: nat)
    requires multiset(idx) == multiset(jdx) && |idx| > 0
    ensures k < |jdx| && jdx[k] == idx[|idx| - 1]
    ensures multiset(idx[..|idx| - 1]) == multiset(jdx[..k] + jdx[k + 1..])
  {
    var x := idx[|idx| - 1];
    assert x in multiset(idx);
    k :| 0 <= k < |jdx| && jdx[k] == x;
    assert idx == idx[..|idx| - 1] + [x];
    var init, rest := idx[..|idx| - 1], jdx[..k] + jdx[k + 1..];
    assert jdx == jdx[..k] + [x] + jdx[k + 1..];
    assert multiset(init) == multiset(idx) - multiset{x};
    assert multiset(jdx) == multiset(rest) + multiset{x};
    assert multiset(rest) == multiset(jdx) - multiset{x};
  }

  /** Sums do not depend on the order of the positions. */
  lemma {:induction false} PositionsPermute(v: seq<real>, idx: seq<nat>, jdx: seq<nat>)
    requires multiset(idx) == multiset(jdx)
    requires |idx| == |jdx| && forall k | 0 <= k < |idx| :: idx[k] < |v| && jdx[k] < |v|
    ensures PositionsSum(v, idx, |idx|) == PositionsSum(v, jdx, |jdx|)
    decreases |idx|
  {
    if |idx| == 0 {
    } else {
      var last := |idx| - 1;
      var k := DropFromBoth(idx, jdx);
      PositionsPrefix(v, idx, idx[..last], last);
      PositionsDrop(v, jdx, k);
      PositionsPermute(v, idx[..last], jdx[..k] + jdx[k + 1..]);
    }
  }

  /** What each tree of the model adds to a row's score, by tree number. */
  function TreeScores(m: SoaModel, row: Row): seq<real>
    requires m.Valid() && |row| == m.nFeatures
  {
    seq(|m.treeRoots|, t requires 0 <= t < |m.treeRoots| => TreeScore(m, row, t))
  }

  /** The plan evaluates every tree of the model exactly once. */
  ghost predicate IsPermutation(m: SoaModel, plan: TreeOrder) {
    multiset(plan.order) == multiset(Positions(|m.treeRoots|))
  }

  lemma {:induction false} PlanSum(m: SoaModel, plan: TreeOrder, row: Row, n: nat)
    requires m.Valid() && |row| == m.nFeatures && plan.Fits(m) && n <= |plan.order|
    ensures Sum(PlanScores(m, plan, row), n) == PositionsSum(TreeScores(m, row), plan.order, n)
  {
    if n > 0 { PlanSum(m, plan, row, n - 1); }
  }

  /** Any plan that is a permutation has the whole ensemble's sum. */
  lemma PlanTotal(m: SoaModel, plan: TreeOrder, row: Row)
    requires m.Valid() && |row| == m.nFeatures && plan.Fits(m) && IsPermutation(m, plan)
    ensures Total(PlanScores(m, plan, row)) == Total(TreeScores(m, row))
  {
    var v := TreeScores(m, row);
    PlanSum(m, plan, row, |plan.order|);
    SameMembers(plan.order, Positions(|v|), |v|);
    PositionsPermute(v, plan.order, Positions(|v|));
    AllPositions(v, |v|);
  }

  /** The bounds hold of these tree scores. */
  ghost predicate BoundsCover(plan: TreeOrder, v: seq<real>) {
    && |plan.suffixMin| == |plan.suffixMax| == |v| + 1
    && forall k | 0 <= k <= |v| :: plan.suffixMin[k] <= Total(v) - Sum(v, k) <= plan.suffixMax[k]
  }
}

/** Running totals of a row's evaluation: score, work done and trees resolved by a block. */
module Tallies {
  import opened Forest

  /** What one tree contributes. */
  datatype TreeEval = TreeEval(value: real, work: nat, resolved: nat)

  datatype Tally = Tally(score: real, work: nat, resolved: nat) {
    function Add(e: TreeEval): Tally {
      Tally(score + e.value, work + e.work, resolved + e.resolved)
    }
  }

  /** The tally after the trees `from..to`. */
  function Run(init: Tally, evals: seq<TreeEval>, from: nat, to: nat): Tally
    requires from <= to <= |evals|
  {
    if from == to then init else Run(init, evals, from, to - 1).Add(evals[to - 1])
  }

  lemma {:induction false} RunSplits(init: Tally, evals: seq<TreeEval>, from: nat, mid: nat, to: nat)
    requires from <= mid <= to <= |evals|
    ensures Run(init, evals, from, to) == Run(Run(init, evals, from, mid), evals, mid, to)
  {
    if mid < to { RunSplits(init, evals, from, mid, to - 1); }
  }

  /** These evaluations have these values. */
  ghost predicate HaveValues(evals: seq<TreeEval>, v: seq<real>) {
    |evals| == |v| && forall p | 0 <= p < |v| :: evals[p].value == v[p]
  }

  lemma {:induction false} RunSums(init: Tally, evals: seq<TreeEval>, v: seq<real>, from: nat, to: nat)
    requires from <= to <= |evals| <= |v| && forall p | 0 <= p < |evals| :: evals[p].value == v[p]
    ensures Run(init, evals, from, to).score == init.score + Sum(v, to) - Sum(v, from)
  {
    if from < to { RunSums(init, evals, v, from, to - 1); }
  }
}
