/** The late if-tree program: the later trees of a plan packed into nodes with byte-sized links. */
module LatePrograms {
  import opened Forest
  import opened Tallies
  import opened Ladders
  import opened PrefixKernels

  /** Links are bytes, relative to the tree's first node; bit 7 of the flag byte marks leaves. */
  datatype LateNode = LateNode(thr: real, leaf: real, left: nat, right: nat, flags: nat) {
    predicate IsLeaf() { flags / 0x80 % 2 == 1 }
    function Fidx(): nat { flags % 0x80 }
  }

  datatype LateProgram = LateProgram(start: nat, nTrees: nat, offs: seq<nat>, nodes: seq<LateNode>)

  function U8(x: int): nat { x % 0x100 }
  function U32(x: int): nat { x % 0x1_0000_0000 }

  /** Where the nodes of tree `t` end. */
  function NodesEnd(m: SoaModel, t: nat): nat
    requires t < |m.treeRoots|
  {
    if t + 1 < |m.treeRoots| then m.treeRoots[t + 1] else m.NodeCount()
  }

  /** The nodes of tree `t` are stored together, from its root on. */
  ghost predicate Contiguous(m: SoaModel, t: nat)
    requires m.Valid() && t < |m.treeRoots|
  {
    && m.treeRoots[t] < NodesEnd(m, t)
    && forall i: nat | m.treeRoots[t] <= i < NodesEnd(m, t) && !m.isLeaf[i] ::
         assert m.SplitOk(i); m.left[i] < NodesEnd(m, t) && m.right[i] < NodesEnd(m, t)
  }

  predicate TreeFits(m: SoaModel, t: nat)
    requires t < |m.treeRoots|
  {
    m.treeRoots[t] <= NodesEnd(m, t) <= m.NodeCount() && NodesEnd(m, t) - m.treeRoots[t] <= 0xFF
  }

  /** What the compiler's guards admit. */
  predicate FitsLate(m: SoaModel, plan: TreeOrder, start: nat, cps: seq<nat>)
    requires plan.Fits(m)
  {
    && |cps| > 0 && start <= cps[|cps| - 1] <= |plan.order| && m.nFeatures <= 0x7F
    && forall p | start <= p < cps[|cps| - 1] :: TreeFits(m, plan.order[p])
  }

  function LateNodeOf(m: SoaModel, src: nat, i: nat): LateNode
    requires m.Valid() && i < m.NodeCount()
  {
    if m.isLeaf[i] then LateNode(m.thr[i], m.leaf[i], 0, 0, 0x80)
    else LateNode(m.thr[i], m.leaf[i], U8(m.left[i] - src), U8(m.right[i] - src), U8(m.fidx[i]))
  }

  /** The packed node means what the source node meant, relative to the tree's root. */
  predicate NodeKept(m: SoaModel, src: nat, i: nat, n: LateNode)
    requires m.Valid() && i < m.NodeCount()
  {
    && n.IsLeaf() == m.isLeaf[i] && n.leaf == m.leaf[i] && n.thr == m.thr[i]
    && (!m.isLeaf[i] ==> n.Fidx() == m.fidx[i] && src + n.left == m.left[i] && src + n.right == m.right[i])
  }

  /** This list starts with the packed nodes of tree `t`. */
  ghost predicate TreeKept(m: SoaModel, t: nat, own: seq<LateNode>)
    requires m.Valid() && t < |m.treeRoots|
  {
    && m.treeRoots[t] <= NodesEnd(m, t) <= m.NodeCount() && m.treeRoots[t] + |own| >= NodesEnd(m, t)
    && forall k: nat | m.treeRoots[t] + k < NodesEnd(m, t) :: NodeKept(m, m.treeRoots[t], m.treeRoots[t] + k, own[k])
  }

  ghost predicate TreeAt(m: SoaModel, t: nat, nodes: seq<LateNode>, off: nat)
    requires m.Valid() && t < |m.treeRoots|
  {
    off <= |nodes| && TreeKept(m, t, nodes[off..])
  }

  ghost predicate IsProgram(m: SoaModel, plan: TreeOrder, prog: LateProgram)
    requires m.Valid() && plan.Fits(m)
  {
    && prog.start + prog.nTrees <= |plan.order| && |prog.offs| == prog.nTrees
    && forall p | 0 <= p < prog.nTrees :: TreeAt(m, plan.order[prog.start + p], prog.nodes, prog.offs[p])
  }

  lemma NodeOfIsKept(m: SoaModel, t: nat, i: nat)
    requires m.Valid() && t < |m.treeRoots| && Contiguous(m, t) && TreeFits(m, t) && m.nFeatures <= 0x7F
    requires m.treeRoots[t] <= i < NodesEnd(m, t)
    ensures NodeKept(m, m.treeRoots[t], i, LateNodeOf(m, m.treeRoots[t], i))
  {
    if !m.isLeaf[i] { assert m.SplitOk(i); }
  }

  /** The inner loop of the compiler: one tree's nodes, pushed one by one. */
  method CompileTree(m: SoaModel, t: nat) returns (own: seq<LateNode>)
    requires m.Valid() && t < |m.treeRoots| && Contiguous(m, t) && TreeFits(m, t) && m.nFeatures <= 0x7F
    ensures TreeKept(m, t, own) && |own| == NodesEnd(m, t) - m.treeRoots[t]
  {
    var src := m.treeRoots[t];
    own := [];
    for i := src to NodesEnd(m, t)
      invariant src + |own| == i
      invariant forall k: nat | src + k < i :: NodeKept(m, src, src + k, own[k])
    {
      NodeOfIsKept(m, t, i);
      own := own + [LateNodeOf(m, src, i)];
    }
  }

  lemma StillAt(m: SoaModel, t: nat, nodes: seq<LateNode>, more: seq<LateNode>, off: nat)
    requires m.Valid() && t < |m.treeRoots| && TreeAt(m, t, nodes, off)
    ensures TreeAt(m, t, nodes + more, off)
  {
    assert (nodes + more)[off..] == nodes[off..] + more;
  }

  lemma PushedAt(m: SoaModel, t: nat, nodes: seq<LateNode>, own: seq<LateNode>)
    requires m.Valid() && t < |m.treeRoots| && TreeKept(m, t, own)
    ensures TreeAt(m, t, nodes + own, |nodes|)
  {
    assert (nodes + own)[|nodes|..] == own;
  }

  /** How many nodes tree `t` has. */
  function TreeNodes(m: SoaModel, t: nat): nat
    requires t < |m.treeRoots|
  {
    if m.treeRoots[t] < NodesEnd(m, t) then NodesEnd(m, t) - m.treeRoots[t] else 0
  }

  /** How many nodes the plan's trees `start..end` have. */
  function NodesOf(m: SoaModel, plan: TreeOrder, start: nat, end: nat): nat
    requires plan.Fits(m) && start <= end <= |plan.order|
  {
    if start == end then 0 else NodesOf(m, plan, start, end - 1) + TreeNodes(m, plan.order[end - 1])
  }

  lemma {:induction false} NodesGrow(m: SoaModel, plan: TreeOrder, start: nat, k: nat, end: nat)
    requires plan.Fits(m) && start <= k < end <= |plan.order|
    requires forall t: nat | t < |m.treeRoots| :: TreeNodes(m, t) > 0
    ensures NodesOf(m, plan, start, k) < NodesOf(m, plan, start, end)
    decreases end - k
  {
    if k < end - 1 { NodesGrow(m, plan, start, k, end - 1); }
  }

  lemma OffsetFits(m: SoaModel, plan: TreeOrder, start: nat, k: nat, end: nat)
    requires m.Valid() && plan.Fits(m) && start <= k < end <= |plan.order|
    requires (forall t: nat | t < |m.treeRoots| :: Contiguous(m, t)) && NodesOf(m, plan, start, end) <= 0x1_0000_0000
    ensures U32(NodesOf(m, plan, start, k)) == NodesOf(m, plan, start, k)
  {
    forall t: nat | t < |m.treeRoots| ensures TreeNodes(m, t) > 0 { assert Contiguous(m, t); }
    NodesGrow(m, plan, start, k, end);
  }

  /** Offsets are 32-bit words, so the trees must not have more nodes than there are words. */
  method CompileLateProgram(m: SoaModel, plan: TreeOrder, start: nat, cps: seq<nat>) returns (r: Result<LateProgram>)
    requires m.Valid() && plan.Fits(m) && forall t: nat | t < |m.treeRoots| :: Contiguous(m, t)
    requires |cps| > 0 && start <= cps[|cps| - 1] <= |plan.order| ==>
               NodesOf(m, plan, start, cps[|cps| - 1]) <= 0x1_0000_0000
    ensures r.Ok? <==> FitsLate(m, plan, start, cps)
    ensures r.Ok? ==> IsProgram(m, plan, r.value) && r.value.start == start && start + r.value.nTrees == cps[|cps| - 1]
  {
    if |cps| == 0 {
      return Err;
    }
    var end := cps[|cps| - 1];
    if start > end || end > |plan.order| || m.nFeatures > 0x7F {
      return Err;
    }
    var offs: seq<nat>, nodes := [], [];
    for p := start to end
      invariant |offs| == p - start && |nodes| == NodesOf(m, plan, start, p)
      invariant forall q | start <= q < p :: TreeFits(m, plan.order[q])
      invariant forall k | 0 <= k < |offs| :: TreeAt(m, plan.order[start + k], nodes, offs[k])
    {
      var t := plan.order[p];
      if !TreeFits(m, t) {
        return Err;
      }
      assert Contiguous(m, t);
      OffsetFits(m, plan, start, p, end);
      var own := CompileTree(m, t);
      forall k | 0 <= k < |offs| ensures TreeAt(m, plan.order[start + k], nodes + own, offs[k]) {
        StillAt(m, plan.order[start + k], nodes, own, offs[k]);
      }
      PushedAt(m, t, nodes, own);
      offs := offs + [U32(|nodes|)];
      nodes := nodes + own;
    }
    r := Ok(LateProgram(start, end - start, offs, nodes));
  }

  /** What the program contributes per plan position: the walked leaf, one unit of work per split. */
  function WalkEvals(m: SoaModel, plan: TreeOrder, row: Row): (evals: seq<TreeEval>)
    requires m.Valid() && plan.Fits(m) && |row| == m.nFeatures
    ensures HaveValues(evals, PlanScores(m, plan, row))
  {
    seq(|plan.order|, p requires 0 <= p < |plan.order| =>
      TreeEval(TreeScore(m, row, plan.order[p]), Depth(m, row, m.treeRoots[plan.order[p]]), 0))
  }

  /** One packed tree, walked with links relative to its first node. */
  method WalkLate(nodes: seq<LateNode>, feat: Row, ghost m: SoaModel, ghost t: nat) returns (leaf: real, evals: nat)
    requires m.Valid() && |feat| == m.nFeatures
    requires t < |m.treeRoots| && Contiguous(m, t) && TreeKept(m, t, nodes)
    ensures leaf == m.leaf[Walk(MissingRight(m), feat, m.treeRoots[t])]
    ensures evals == Depth(MissingRight(m), feat, m.treeRoots[t])
  {
    ghost var src, right := m.treeRoots[t], MissingRight(m);
    var idx: nat := 0;
    evals := 0;
    assert NodeKept(m, src, src + 0, nodes[0]);
    while !nodes[idx].IsLeaf()
      invariant src + idx < NodesEnd(m, t) && NodeKept(m, src, src + idx, nodes[idx])
      invariant Walk(right, feat, src + idx) == Walk(right, feat, src)
      invariant evals + Depth(right, feat, src + idx) == Depth(right, feat, src)
      decreases NodesEnd(m, t) - idx
    {
      var node := nodes[idx];
      assert m.SplitOk(src + idx);
      evals := evals + 1;
      idx := if IsBelow(feat[node.Fidx()], node.thr) then node.left else node.right;
      assert NodeKept(m, src, src + idx, nodes[idx]);
    }
    leaf := nodes[idx].leaf;
  }

  /** For rows whose missing values go right, leaving out the missing test changes nothing. */
  lemma RightEvals(m: SoaModel, plan: TreeOrder, row: Row)
    requires m.Valid() && plan.Fits(m) && |row| == m.nFeatures && GoesRight(m, row)
    ensures WalkEvals(MissingRight(m), plan, row) == WalkEvals(m, plan, row)
  {
    forall p | 0 <= p < |plan.order|
      ensures WalkEvals(MissingRight(m), plan, row)[p] == WalkEvals(m, plan, row)[p]
    {
      RightWalk(m, row, m.treeRoots[plan.order[p]]);
    }
  }

  /** The late run, without the missing test, reaches the same checkpoints with the same scores as walking the
      plan's trees in that way. */
  method LatePrefixUntil(prog: LateProgram, feat: Row, idx: seq<nat>, cps: seq<nat>, init: Tally, h: CheckpointHandler,
                         ghost m: SoaModel, ghost plan: TreeOrder)
    returns (r: Result<(Tally, nat)>)
    requires m.Valid() && plan.Fits(m) && IsProgram(m, plan, prog) && |feat| == m.nFeatures
    requires forall t: nat | t < |m.treeRoots| :: Contiguous(m, t)
    requires |idx| == |cps|
    requires |cps| > 0 ==>
             ValidLadder(cps, |plan.order|) && prog.start < cps[0] && cps[|cps| - 1] <= prog.start + prog.nTrees
    modifies h
    ensures r.Ok? <==> |cps| > 0
    ensures r.Ok? ==> Ascent(r.value.0, r.value.1, h.st) ==
                      Climb(h.cert, h.init, old(h.st), idx, cps, 0, init, WalkEvals(MissingRight(m), plan, feat),
                            prog.start)
    ensures r.Err? ==> h.st == old(h.st)
  {
    if |cps| == 0 {
      return Err;
    }
    ghost var evals := WalkEvals(MissingRight(m), plan, feat);
    var t, next: nat := init, 0;
    ghost var goal := Climb(h.cert, h.init, h.st, idx, cps, 0, t, evals, prog.start);
    for pos := 0 to prog.nTrees
      invariant Underway(h, idx, cps, next, t, evals, prog.start + pos, true, old(h.st), goal)
    {
      ghost var tree := plan.order[prog.start + pos];
      assert Contiguous(m, tree) && TreeAt(m, tree, prog.nodes, prog.offs[pos]);
      var leaf, work := WalkLate(prog.nodes[prog.offs[pos]..], feat, m, tree);
      ghost var before := t;
      t := t.Add(TreeEval(leaf, work, 0));
      var done;
      done, next := TreeDoneUnderway(h, idx, cps, next, t, evals, prog.start + pos, before, true, old(h.st), goal);
      if done {
        return Ok((t, prog.start + pos + 1));
      }
    }
    return Err;
  }
}
