/** Staged hot runs: the feature buffer is filled stage by stage, each time with the features that the
    trees up to the next checkpoint test for the first time. */
module HotStages {
  import opened Forest
  import opened Tallies
  import opened Ladders
  import opened HotPacks

  /** Feature numbers are 16-bit words, offsets into them 32-bit words. */
  datatype StagePlan = StagePlan(checkpoints: seq<nat>, featureOffsets: seq<nat>, hotFeatureIds: seq<nat>)

  function U32(x: int): nat { x % 0x1_0000_0000 }

  // ---------------------------------------------------------------- tested features

  /** The features tested at or below a node. */
  ghost function Tested(m: SoaModel, i: nat): (s: set<nat>)
    requires m.Valid() && i < m.NodeCount()
    ensures forall f | f in s :: f < m.nFeatures
    decreases m.NodeCount() - i
  {
    if m.isLeaf[i] then {} else
      assert m.SplitOk(i);
      {m.fidx[i]} + Tested(m, m.left[i]) + Tested(m, m.right[i]) + Tested(m, m.missing[i])
  }

  /** The features the trees `from..to` test. */
  ghost function TestedFrom(m: SoaModel, from: nat, to: nat): set<nat>
    requires m.Valid() && from <= to <= |m.treeRoots|
  {
    if from == to then {} else TestedFrom(m, from, to - 1) + Tested(m, m.treeRoots[to - 1])
  }

  lemma {:induction false} TreeIsTested(m: SoaModel, from: nat, to: nat, t: nat)
    requires m.Valid() && from <= t < to <= |m.treeRoots|
    ensures Tested(m, m.treeRoots[t]) <= TestedFrom(m, from, to)
  {
    if t < to - 1 { TreeIsTested(m, from, to - 1, t); }
  }

  lemma {:induction false} TestedJoins(m: SoaModel, from: nat, mid: nat, to: nat)
    requires m.Valid() && from <= mid <= to <= |m.treeRoots|
    ensures TestedFrom(m, from, to) == TestedFrom(m, from, mid) + TestedFrom(m, mid, to)
  {
    if mid < to { TestedJoins(m, from, mid, to - 1); }
  }

  // ---------------------------------------------------------------- marks

  ghost function MarkedSet(marks: seq<bool>): set<nat> { set f: nat | f < |marks| && marks[f] }

  function CountMarks(marks: seq<bool>, n: nat): (c: nat)
    requires n <= |marks|
    ensures c <= n
  {
    if n == 0 then 0 else CountMarks(marks, n - 1) + if marks[n - 1] then 1 else 0
  }

  lemma {:induction false} CountOneMore(marks: seq<bool>, f: nat, n: nat)
    requires n <= |marks| && f < |marks| && !marks[f]
    ensures CountMarks(marks[f := true], n) == CountMarks(marks, n) + if f < n then 1 else 0
  {
    if n > 0 { CountOneMore(marks, f, n - 1); }
  }

  lemma {:induction false} NoMarks(marks: seq<bool>, n: nat)
    requires n <= |marks| && forall f | 0 <= f < |marks| :: !marks[f]
    ensures CountMarks(marks, n) == 0
  {
    if n > 0 { NoMarks(marks, n - 1); }
  }

  /** The list names exactly the marked features, each once. */
  ghost predicate Lists(ids: seq<nat>, marks: seq<bool>) {
    && (forall f: nat :: f in ids <==> f in MarkedSet(marks))
    && |ids| == CountMarks(marks, |marks|)
  }

  lemma ListsOneMore(ids: seq<nat>, marks: seq<bool>, f: nat)
    requires Lists(ids, marks) && f < |marks| && !marks[f]
    ensures Lists(ids + [f], marks[f := true])
  {
    CountOneMore(marks, f, |marks|);
    forall g: nat ensures g in ids + [f] <==> g in MarkedSet(marks[f := true]) {
      assert g in ids <==> g in MarkedSet(marks);
    }
  }

  // ---------------------------------------------------------------- collecting a stage's features

  ghost predicate Awaited(seen: seq<bool>, stack: seq<nat>, i: nat) { (i < |seen| && seen[i]) || i in stack }

  /** The feature of a seen split is marked, and its children are seen or on the stack. */
  ghost predicate ClosedAt(m: SoaModel, seen: seq<bool>, marks: seq<bool>, stack: seq<nat>, i: nat)
    requires m.Valid()
  {
    i < |seen| == m.NodeCount() && seen[i] && !m.isLeaf[i] ==>
      && m.fidx[i] in MarkedSet(marks)
      && Awaited(seen, stack, m.left[i]) && Awaited(seen, stack, m.right[i]) && Awaited(seen, stack, m.missing[i])
  }

  ghost predicate Closed(m: SoaModel, seen: seq<bool>, marks: seq<bool>, stack: seq<nat>)
    requires m.Valid()
  {
    |seen| == m.NodeCount() && forall i: nat :: ClosedAt(m, seen, marks, stack, i)
  }

  /** What is still to come tests no other features than these. */
  ghost predicate Tests(m: SoaModel, stack: seq<nat>, all: set<nat>)
    requires m.Valid()
  {
    forall k | 0 <= k < |stack| :: stack[k] < m.NodeCount() && Tested(m, stack[k]) <= all
  }

  function Pushed(m: SoaModel, i: nat): seq<nat>
    requires m.Valid() && i < m.NodeCount()
  {
    if m.isLeaf[i] then [] else [m.left[i], m.right[i], m.missing[i]]
  }

  lemma PushedTests(m: SoaModel, rest: seq<nat>, i: nat, all: set<nat>)
    requires m.Valid() && Tests(m, rest + [i], all)
    ensures i < m.NodeCount() && Tests(m, rest + Pushed(m, i), all)
  {
    assert (rest + [i])[|rest|] == i;
    forall k | 0 <= k < |rest| ensures rest[k] < m.NodeCount() && Tested(m, rest[k]) <= all {
      assert (rest + [i])[k] == rest[k];
    }
    if !m.isLeaf[i] { assert m.SplitOk(i); }
  }

  /** A node seen before goes. */
  lemma SkipClosed(m: SoaModel, seen: seq<bool>, marks: seq<bool>, rest: seq<nat>, i: nat)
    requires m.Valid() && Closed(m, seen, marks, rest + [i]) && i < |seen| && seen[i]
    ensures Closed(m, seen, marks, rest)
  {
    forall j: nat ensures ClosedAt(m, seen, marks, rest, j) { assert ClosedAt(m, seen, marks, rest + [i], j); }
  }

  /** A new node is marked seen, with its feature, and leaves its children on the stack. */
  lemma VisitClosed(m: SoaModel, seen: seq<bool>, marks: seq<bool>, marks': seq<bool>, rest: seq<nat>, i: nat)
    requires m.Valid() && Closed(m, seen, marks, rest + [i]) && i < |seen|
    requires MarkedSet(marks') == MarkedSet(marks) + (if m.isLeaf[i] then {} else {m.fidx[i]})
    ensures Closed(m, seen[i := true], marks', rest + Pushed(m, i))
  {
    var seen', stack' := seen[i := true], rest + Pushed(m, i);
    forall j: nat ensures ClosedAt(m, seen', marks', stack', j) { assert ClosedAt(m, seen, marks, rest + [i], j); }
  }

  /** With nothing on the stack, all features below a seen node are marked. */
  lemma {:induction false} SeenIsMarked(m: SoaModel, seen: seq<bool>, marks: seq<bool>, i: nat)
    requires m.Valid() && Closed(m, seen, marks, []) && i < m.NodeCount() && seen[i]
    ensures Tested(m, i) <= MarkedSet(marks)
    decreases m.NodeCount() - i
  {
    if m.isLeaf[i] {
    } else {
      assert m.SplitOk(i) && ClosedAt(m, seen, marks, [], i);
      SeenIsMarked(m, seen, marks, m.left[i]);
      SeenIsMarked(m, seen, marks, m.right[i]);
      SeenIsMarked(m, seen, marks, m.missing[i]);
    }
  }

  lemma {:induction false} RootsAreMarked(m: SoaModel, seen: seq<bool>, marks: seq<bool>, from: nat, to: nat)
    requires m.Valid() && Closed(m, seen, marks, []) && from <= to <= |m.treeRoots|
    requires forall t | from <= t < to :: seen[m.treeRoots[t]]
    ensures TestedFrom(m, from, to) <= MarkedSet(marks)
  {
    if from == to {
    } else {
      RootsAreMarked(m, seen, marks, from, to - 1);
      SeenIsMarked(m, seen, marks, m.treeRoots[to - 1]);
    }
  }

  /** Marks a split's feature, listing it if it is new. */
  method MarkFeature(marks: array<bool>, f: nat, ids: seq<nat>) returns (more: seq<nat>)
    requires f < marks.Length && Lists(ids, marks[..])
    modifies marks
    ensures Lists(more, marks[..]) && ids <= more
    ensures MarkedSet(marks[..]) == MarkedSet(old(marks[..])) + {f}
  {
    more := ids;
    if !marks[f] {
      ListsOneMore(ids, marks[..], f);
      marks[f] := true;
      assert marks[..] == old(marks[..])[f := true];
      more := ids + [f];
    }
  }

  /** One node off the stack: skipped if it was seen, otherwise seen, its feature marked, its children pushed. */
  method VisitTop(c: CompiledPack, seen: array<bool>, marks: array<bool>, ids: seq<nat>, stack: seq<nat>,
                  ghost pack: PrefixPack, ghost all: set<nat>)
    returns (more: seq<nat>, left: seq<nat>)
    requires IsCompiled(pack, c) && seen.Length == |c.nodes| && marks.Length == |c.hotGlobalFidx| && seen != marks
             && |stack| > 0
    requires Closed(pack.nodes, seen[..], marks[..], stack) && Tests(pack.nodes, stack, all) && Lists(ids, marks[..])
    requires MarkedSet(marks[..]) <= all
    modifies seen, marks
    ensures Closed(pack.nodes, seen[..], marks[..], left) && Tests(pack.nodes, left, all) && Lists(more, marks[..])
    ensures MarkedSet(old(marks[..])) <= MarkedSet(marks[..]) <= all && ids <= more
    ensures forall i | 0 <= i < seen.Length && old(seen[i]) :: seen[i]
    ensures seen[stack[|stack| - 1]]
    ensures forall i: nat | i in stack :: Awaited(seen[..], left, i)
    ensures Unseen(seen[..]) < Unseen(old(seen[..])) || (Unseen(seen[..]) == Unseen(old(seen[..])) && |left| < |stack|)
  {
    ghost var m := pack.nodes;
    var rest, idx := stack[..|stack| - 1], stack[|stack| - 1];
    assert stack == rest + [idx];
    PushedTests(m, rest, idx, all);
    more := ids;
    if seen[idx] {
      SkipClosed(m, seen[..], marks[..], rest, idx);
      return more, rest;
    }
    ghost var seen0, marks0 := seen[..], marks[..];
    var node := c.nodes[idx];
    assert NodeKept(m, idx, node);
    left := rest;
    if !node.IsLeaf() {
      assert m.SplitOk(idx);
      more := MarkFeature(marks, node.HotFidx(), ids);
      left := rest + [node.left, node.right, node.missing];
    }
    SeeOne(seen0, idx);
    seen[idx] := true;
    assert seen[..] == seen0[idx := true];
    VisitClosed(m, seen0, marks0, marks[..], rest, idx);
    assert left == rest + Pushed(m, idx);
  }

  function Unseen(seen: seq<bool>): (n: nat) { |seen| - CountMarks(seen, |seen|) }

  lemma SeeOne(seen: seq<bool>, i: nat)
    requires i < |seen| && !seen[i]
    ensures Unseen(seen[i := true]) < Unseen(seen)
  {
    CountOneMore(seen, i, |seen|);
  }

  /** One tree: afterwards its root is seen and nothing is left on the stack. */
  method CollectTree(c: CompiledPack, root: nat, seen: array<bool>, marks: array<bool>, ids: seq<nat>,
                     ghost pack: PrefixPack, ghost all: set<nat>)
    returns (more: seq<nat>)
    requires IsCompiled(pack, c) && seen.Length == |c.nodes| && marks.Length == |c.hotGlobalFidx| && seen != marks
             && root < |c.nodes|
    requires Closed(pack.nodes, seen[..], marks[..], []) && Tested(pack.nodes, root) <= all && Lists(ids, marks[..])
    requires MarkedSet(marks[..]) <= all
    modifies seen, marks
    ensures Closed(pack.nodes, seen[..], marks[..], []) && Lists(more, marks[..])
    ensures MarkedSet(old(marks[..])) <= MarkedSet(marks[..]) <= all && ids <= more
    ensures seen[root] && forall i | 0 <= i < seen.Length && old(seen[i]) :: seen[i]
  {
    ghost var m := pack.nodes;
    var stack := [root];
    more := ids;
    forall j: nat ensures ClosedAt(m, seen[..], marks[..], stack, j) { assert ClosedAt(m, seen[..], marks[..], [], j); }
    while |stack| > 0
      invariant Closed(m, seen[..], marks[..], stack) && Tests(m, stack, all) && Lists(more, marks[..])
      invariant MarkedSet(old(marks[..])) <= MarkedSet(marks[..]) <= all && ids <= more
      invariant Awaited(seen[..], stack, root) && forall i | 0 <= i < seen.Length && old(seen[i]) :: seen[i]
      decreases Unseen(seen[..]), |stack|
    {
      more, stack := VisitTop(c, seen, marks, more, stack, pack, all);
    }
    assert stack == [];
  }

  /** The depth-first search over a stage's trees: afterwards the marked features are the earlier ones
      and exactly those the trees test, and the list names each once. */
  method CollectTreeHotFeatures(c: CompiledPack, start: nat, end: nat, marks: array<bool>, ids: seq<nat>,
                                ghost pack: PrefixPack)
    returns (more: seq<nat>)
    requires IsCompiled(pack, c) && start <= end <= |c.treeRoots| && marks.Length == |c.hotGlobalFidx|
             && Lists(ids, marks[..])
    modifies marks
    ensures MarkedSet(marks[..]) == MarkedSet(old(marks[..])) + TestedFrom(pack.nodes, start, end)
    ensures Lists(more, marks[..]) && ids <= more
  {
    ghost var m := pack.nodes;
    ghost var all := MarkedSet(marks[..]) + TestedFrom(m, start, end);
    var seen := new bool[|c.nodes|](_ => false);
    more := ids;
    for tree := start to end
      invariant Closed(m, seen[..], marks[..], []) && Lists(more, marks[..]) && ids <= more
      invariant MarkedSet(old(marks[..])) <= MarkedSet(marks[..]) <= all
      invariant forall t | start <= t < tree :: seen[m.treeRoots[t]]
    {
      TreeIsTested(m, start, end, tree);
      more := CollectTree(c, c.treeRoots[tree], seen, marks, more, pack, all);
    }
    RootsAreMarked(m, seen[..], marks[..], start, end);
  }

  // ---------------------------------------------------------------- the plan

  /** What is filled after stage `k`: exactly the features that the trees up to its checkpoint test. */
  ghost predicate StageAt(pack: PrefixPack, plan: StagePlan, k: nat)
    requires pack.nodes.Valid()
  {
    k < |plan.checkpoints| && k + 1 < |plan.featureOffsets| && plan.checkpoints[k] <= |pack.nodes.treeRoots| ==>
      && plan.featureOffsets[k] <= plan.featureOffsets[k + 1] <= |plan.hotFeatureIds|
      && Elements(plan.hotFeatureIds[..plan.featureOffsets[k + 1]]) == TestedFrom(pack.nodes, 0, plan.checkpoints[k])
  }

  ghost function Elements(ids: seq<nat>): set<nat> { set f | f in ids }

  /** The plan fills, stage by stage, what the trees test. */
  ghost predicate StagesFill(pack: PrefixPack, plan: StagePlan) {
    && pack.nodes.Valid()
    && (forall f | f in plan.hotFeatureIds :: f < pack.nodes.nFeatures)
    && (|plan.featureOffsets| > 0 ==> plan.featureOffsets[0] == 0)
    && forall k: nat :: StageAt(pack, plan, k)
  }

  /** The first `k` stages of a plan, with the features listed so far. */
  ghost predicate BuiltTo(pack: PrefixPack, cps: seq<nat>, offsets: seq<nat>, ids: seq<nat>, k: nat)
    requires pack.nodes.Valid()
  {
    && k <= |cps| && |offsets| == k + 1 && offsets[0] == 0 && offsets[k] == |ids|
    && forall j: nat | j < k :: StageAt(pack, StagePlan(cps, offsets, ids), j)
  }

  lemma StageBuilt(pack: PrefixPack, cps: seq<nat>, offsets: seq<nat>, ids: seq<nat>, k: nat, more: seq<nat>)
    requires pack.nodes.Valid() && BuiltTo(pack, cps, offsets, ids, k) && k < |cps| && ids <= more
    requires cps[k] <= |pack.nodes.treeRoots| ==> Elements(more) == TestedFrom(pack.nodes, 0, cps[k])
    ensures BuiltTo(pack, cps, offsets + [|more|], more, k + 1)
  {
    var offsets' := offsets + [|more|];
    forall j: nat | j < k + 1 ensures StageAt(pack, StagePlan(cps, offsets', more), j) {
      if j < k {
        assert StageAt(pack, StagePlan(cps, offsets, ids), j);
        if cps[j] <= |pack.nodes.treeRoots| { assert more[..offsets[j + 1]] == ids[..offsets[j + 1]]; }
      } else {
        assert more[..|more|] == more;
      }
    }
  }

  lemma AllBuilt(pack: PrefixPack, cps: seq<nat>, offsets: seq<nat>, ids: seq<nat>, marks: seq<bool>)
    requires pack.nodes.Valid() && BuiltTo(pack, cps, offsets, ids, |cps|) && Lists(ids, marks)
             && |marks| == pack.nodes.nFeatures
    ensures StagesFill(pack, StagePlan(cps, offsets, ids))
  {
    forall f | f in ids ensures f < pack.nodes.nFeatures { assert f in MarkedSet(marks); }
    forall k: nat ensures StageAt(pack, StagePlan(cps, offsets, ids), k) {}
  }

  /** One stage: the features its trees test for the first time join the list. */
  method AddStage(c: CompiledPack, cps: seq<nat>, k: nat, treeStart: nat, marks: array<bool>, ids: seq<nat>,
                  offsets: seq<nat>, ghost pack: PrefixPack)
    returns (more: seq<nat>, offsets': seq<nat>)
    requires IsCompiled(pack, c) && marks.Length == |c.hotGlobalFidx| <= 0x7FFF
    requires k < |cps| && treeStart < cps[k] <= |c.treeRoots|
    requires BuiltTo(pack, cps, offsets, ids, k) && Lists(ids, marks[..])
    requires MarkedSet(marks[..]) == TestedFrom(pack.nodes, 0, treeStart)
    modifies marks
    ensures BuiltTo(pack, cps, offsets', more, k + 1) && Lists(more, marks[..])
    ensures MarkedSet(marks[..]) == TestedFrom(pack.nodes, 0, cps[k])
  {
    TestedJoins(pack.nodes, 0, treeStart, cps[k]);
    more := CollectTreeHotFeatures(c, treeStart, cps[k], marks, ids, pack);
    assert Elements(more) == MarkedSet(marks[..]);
    StageBuilt(pack, cps, offsets, ids, k, more);
    offsets' := offsets + [U32(|more|)];
  }

  /** Builds the plan for a ladder, or fails on an invalid one. */
  method BuildStagePlan(c: CompiledPack, cps: seq<nat>, ghost pack: PrefixPack) returns (r: Result<StagePlan>)
    requires IsCompiled(pack, c) && |c.hotGlobalFidx| <= 0x7FFF
    ensures r.Ok? <==> |cps| == 0 || ValidLadder(cps, |c.treeRoots|)
    ensures r.Ok? ==> StagesFill(pack, r.value) && r.value.checkpoints == cps
    ensures r.Ok? ==> |r.value.featureOffsets| == if |cps| == 0 then 0 else |cps| + 1
  {
    if |cps| == 0 {
      return Ok(StagePlan([], [], []));
    }
    var marks := new bool[|c.hotGlobalFidx|](_ => false);
    var ids: seq<nat>, offsets: seq<nat>, treeStart: nat := [], [0], 0;
    NoMarks(marks[..], marks.Length);
    for k := 0 to |cps|
      invariant BuiltTo(pack, cps, offsets, ids, k) && Lists(ids, marks[..])
      invariant treeStart <= |c.treeRoots| && MarkedSet(marks[..]) == TestedFrom(pack.nodes, 0, treeStart)
      invariant LadderTo(cps, |c.treeRoots|, k, treeStart)
    {
      if cps[k] <= treeStart || cps[k] > |c.treeRoots| {
        return Err;
      }
      ids, offsets := AddStage(c, cps, k, treeStart, marks, ids, offsets, pack);
      treeStart := cps[k];
    }
    AllBuilt(pack, cps, offsets, ids, marks[..]);
    r := Ok(StagePlan(cps, offsets, ids));
  }

  /** The first `k` checkpoints are a ladder that ends at `last`. */
  ghost predicate LadderTo(cps: seq<nat>, nTrees: nat, k: nat, last: nat) {
    && k <= |cps| && last == (if k == 0 then 0 else cps[k - 1])
    && (forall j | 0 <= j < k :: 0 < cps[j] <= nTrees && cps[j] <= last)
    && (forall i, j | 0 <= i < j < k :: cps[i] < cps[j])
  }

  // ---------------------------------------------------------------- the staged run

  /** The buffer holds this row's values of these features. */
  ghost predicate Right(buf: seq<Feature>, hot: Row, known: set<nat>) {
    |buf| == |hot| && forall f | f in known && f < |hot| :: buf[f] == hot[f]
  }

  method FillSubset(buf: array<Feature>, hotGlobalFidx: seq<nat>, feat: Row, hotIds: seq<nat>, ghost pack: PrefixPack,
                    ghost known: set<nat>)
    requires pack.Valid(|feat|) && hotGlobalFidx == pack.hotGlobalFidx && buf.Length == |hotGlobalFidx|
    requires (forall f | f in hotIds :: f < |hotGlobalFidx|) && Right(buf[..], HotRow(pack, feat), known)
    modifies buf
    ensures Right(buf[..], HotRow(pack, feat), known + Elements(hotIds))
  {
    var i := 0;
    while i < |hotIds|
      invariant i <= |hotIds| && Right(buf[..], HotRow(pack, feat), known + Elements(hotIds[..i]))
    {
      assert hotIds[i] in hotIds && hotIds[..i + 1] == hotIds[..i] + [hotIds[i]];
      buf[hotIds[i]] := feat[hotGlobalFidx[hotIds[i]]];
      i := i + 1;
    }
    assert hotIds[..i] == hotIds;
  }

  /** One compiled tree over a buffer that is right about the features the tree tests. */
  method WalkStaged(c: CompiledPack, buf: seq<Feature>, root: nat, ghost hot: Row, ghost pack: PrefixPack)
    returns (leaf: real, evals: nat)
    requires IsCompiled(pack, c) && |hot| == pack.nodes.nFeatures && root < |c.nodes|
    requires Right(buf, hot, Tested(pack.nodes, root))
    ensures leaf == pack.nodes.leaf[Walk(MissingRight(pack.nodes), hot, root)]
    ensures evals == Depth(MissingRight(pack.nodes), hot, root)
  {
    ghost var m := MissingRight(pack.nodes);
    var idx := root;
    evals := 0;
    while !c.nodes[idx].IsLeaf()
      invariant idx < |c.nodes| && Tested(pack.nodes, idx) <= Tested(pack.nodes, root)
      invariant Walk(m, hot, idx) == Walk(m, hot, root)
      invariant evals + Depth(m, hot, idx) == Depth(m, hot, root)
      decreases |c.nodes| - idx
    {
      var node := c.nodes[idx];
      assert NodeKept(pack.nodes, idx, node) && pack.nodes.SplitOk(idx);
      assert node.HotFidx() in Tested(pack.nodes, root);
      var x := buf[node.HotFidx()];
      evals := evals + 1;
      idx := if IsBelow(x, node.thr) then node.left else node.right;
    }
    assert NodeKept(pack.nodes, idx, c.nodes[idx]);
    leaf := c.nodes[idx].leaf;
  }

  lemma TreeRight(m: SoaModel, buf: seq<Feature>, hot: Row, end: nat, t: nat)
    requires m.Valid() && t < end <= |m.treeRoots| && Right(buf, hot, TestedFrom(m, 0, end))
    ensures Right(buf, hot, Tested(m, m.treeRoots[t]))
  {
    TreeIsTested(m, 0, end, t);
  }

  /** What tree `t` contributes. */
  method StageTree(c: CompiledPack, buf: seq<Feature>, t: nat, ghost end: nat, ghost feat: Row, ghost pack: PrefixPack)
    returns (e: TreeEval)
    requires pack.Valid(|feat|) && IsCompiled(pack, c) && t < end <= |c.treeRoots|
    requires Right(buf, HotRow(pack, feat), TestedFrom(pack.nodes, 0, end))
    ensures e == HotEvals(AsWalked(pack, true), feat)[t]
  {
    assert HotRow(AsWalked(pack, true), feat) == HotRow(pack, feat);
    TreeRight(pack.nodes, buf, HotRow(pack, feat), end, t);
    var leaf, work := WalkStaged(c, buf, c.treeRoots[t], HotRow(pack, feat), pack);
    e := TreeEval(leaf, work, 0);
  }

  /** The trees of one stage. */
  method RunStage(c: CompiledPack, buf: seq<Feature>, start: nat, end: nat, init: Tally, ghost feat: Row,
                  ghost pack: PrefixPack)
    returns (t: Tally)
    requires pack.Valid(|feat|) && IsCompiled(pack, c) && start <= end <= |c.treeRoots|
    requires Right(buf, HotRow(pack, feat), TestedFrom(pack.nodes, 0, end))
    ensures t == Run(init, HotEvals(AsWalked(pack, true), feat), start, end)
  {
    t := init;
    for pos := start to end
      invariant t == Run(init, HotEvals(AsWalked(pack, true), feat), start, pos)
    {
      var e := StageTree(c, buf, pos, end, feat, pack);
      t := t.Add(e);
    }
  }

  /** Fills what stage `k` adds. */
  method FillStage(c: CompiledPack, buf: array<Feature>, feat: Row, plan: StagePlan, k: nat, ghost pack: PrefixPack)
    requires pack.Valid(|feat|) && IsCompiled(pack, c) && buf.Length == |c.hotGlobalFidx| && StagesFill(pack, plan)
    requires k < |plan.checkpoints| && k + 1 < |plan.featureOffsets| && plan.checkpoints[k] <= |c.treeRoots|
    requires plan.featureOffsets[k] <= |plan.hotFeatureIds|
    requires Right(buf[..], HotRow(pack, feat), Elements(plan.hotFeatureIds[..plan.featureOffsets[k]]))
    modifies buf
    ensures plan.featureOffsets[k + 1] <= |plan.hotFeatureIds|
    ensures Right(buf[..], HotRow(pack, feat), Elements(plan.hotFeatureIds[..plan.featureOffsets[k + 1]]))
    ensures Right(buf[..], HotRow(pack, feat), TestedFrom(pack.nodes, 0, plan.checkpoints[k]))
  {
    assert StageAt(pack, plan, k);
    var off, end := plan.featureOffsets[k], plan.featureOffsets[k + 1];
    var ids := plan.hotFeatureIds;
    assert ids[..end] == ids[..off] + ids[off..end];
    forall f | f in ids[off..end] ensures f < |c.hotGlobalFidx| { assert f in ids; }
    if end > off {
      FillSubset(buf, c.hotGlobalFidx, feat, ids[off..end], pack, Elements(ids[..off]));
    }
  }

  /** Where a run goes that looks at each checkpoint only when it comes to it: where it ends, unless it
      comes to a bad one, and how it leaves the handler. */
  function Staged(cert: Certifier, init: real, st: HandlerState, idx: seq<nat>, cps: seq<nat>, k: nat, t: Tally,
                  evals: seq<TreeEval>, pos: nat): (Option<Ascent>, HandlerState)
    requires |idx| == |cps| && k <= |cps| && pos <= |evals|
    decreases |cps| - k
  {
    if k == |cps| then (Some(Ascent(t, pos, st)), st)
    else if cps[k] <= pos || cps[k] > |evals| then (None, st)
    else
      var reached := Run(t, evals, pos, cps[k]);
      var st' := Handle(cert, init, st, idx[k], cps[k], reached);
      if Stops(cert, init, st, idx[k], cps[k], reached) then (Some(Ascent(reached, cps[k], st')), st')
      else Staged(cert, init, st', idx, cps, k + 1, reached, evals, cps[k])
  }

  /** On a valid ladder it climbs the ladder. */
  lemma {:induction false} StagedClimbs(cert: Certifier, init: real, st: HandlerState, idx: seq<nat>, cps: seq<nat>,
                                        k: nat, t: Tally, evals: seq<TreeEval>, pos: nat)
    requires |idx| == |cps| && k < |cps| && ValidLadder(cps, |evals|) && pos < cps[k]
    ensures var a := Climb(cert, init, st, idx, cps, k, t, evals, pos);
            Staged(cert, init, st, idx, cps, k, t, evals, pos) == (Some(a), a.st)
    decreases |cps| - k
  {
    var reached := Run(t, evals, pos, cps[k]);
    if k + 1 < |cps| && !Stops(cert, init, st, idx[k], cps[k], reached) {
      var st' := Handle(cert, init, st, idx[k], cps[k], reached);
      StagedClimbs(cert, init, st', idx, cps, k + 1, reached, evals, cps[k]);
    }
  }

  /** The staged run, without the missing test: for a plan that fills what its trees test, the result, and every
      call of the handler, is that of such a run over the whole feature buffer, whatever the buffer held before;
      on a ladder that goes wrong it fails where it comes to the bad checkpoint. */
  method HotPrefixUntilStaged(c: CompiledPack, buf: array<Feature>, feat: Row, plan: StagePlan, idx: seq<nat>,
                              init: real, h: CheckpointHandler, ghost pack: PrefixPack)
    returns (r: Result<(Tally, nat)>)
    requires pack.Valid(|feat|) && IsCompiled(pack, c) && buf.Length == |c.hotGlobalFidx|
    requires StagesFill(pack, plan) && |idx| == |plan.checkpoints|
    modifies buf, h
    ensures |plan.checkpoints| == 0 || |plan.featureOffsets| != |plan.checkpoints| + 1 ==> r.Err? && h.st == old(h.st)
    ensures |plan.checkpoints| > 0 && |plan.featureOffsets| == |plan.checkpoints| + 1 ==>
              (if r.Ok? then Some(Ascent(r.value.0, r.value.1, h.st)) else None, h.st) ==
              Staged(h.cert, h.init, old(h.st), idx, plan.checkpoints, 0, Tally(init, 0, 0),
                     HotEvals(AsWalked(pack, true), feat), 0)
    ensures ValidLadder(plan.checkpoints, |c.treeRoots|) && |plan.featureOffsets| == |plan.checkpoints| + 1 ==>
              r.Ok? && Ascent(r.value.0, r.value.1, h.st) ==
                       Climb(h.cert, h.init, old(h.st), idx, plan.checkpoints, 0, Tally(init, 0, 0),
                             HotEvals(AsWalked(pack, true), feat), 0)
  {
    if |plan.checkpoints| == 0 || |plan.featureOffsets| != |plan.checkpoints| + 1 {
      return Err;
    }
    ghost var evals, cps, st0 := HotEvals(AsWalked(pack, true), feat), plan.checkpoints, h.st;
    ghost var goal := Staged(h.cert, h.init, st0, idx, cps, 0, Tally(init, 0, 0), evals, 0);
    if ValidLadder(cps, |evals|) { StagedClimbs(h.cert, h.init, st0, idx, cps, 0, Tally(init, 0, 0), evals, 0); }
    var t, treeStart: nat := Tally(init, 0, 0), 0;
    for k := 0 to |plan.checkpoints|
      invariant plan.featureOffsets[k] <= |plan.hotFeatureIds|
      invariant Right(buf[..], HotRow(pack, feat), Elements(plan.hotFeatureIds[..plan.featureOffsets[k]]))
      invariant treeStart <= |c.treeRoots| && Staged(h.cert, h.init, h.st, idx, cps, k, t, evals, treeStart) == goal
    {
      var checkpoint := plan.checkpoints[k];
      if checkpoint <= treeStart || checkpoint > |c.treeRoots| {
        return Err;
      }
      FillStage(c, buf, feat, plan, k, pack);
      t := RunStage(c, buf[..], treeStart, checkpoint, t, feat, pack);
      treeStart := checkpoint;
      var stop := h.OnCheckpoint(idx[k], checkpoint, t);
      if stop {
        return Ok((t, checkpoint));
      }
    }
    r := Ok((t, treeStart));
  }
}
