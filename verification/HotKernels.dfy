/** The prefix kernels: the QuickScorer run, the interpreted hot run with its lazy feature cache, and
    the compiled hot and late node programs.  All of them climb the same ladder with the same
    per-tree contributions as the plain walk. */
module PrefixKernels {
  import opened Forest
  import opened Tallies
  import opened EpochCaches
  import opened LeafMasks
  import opened QuickScorer
  import opened QuickScorerExact
  import opened Ladders

  // ---------------------------------------------------------------- QuickScorer prefix run

  /** Evaluating every tree of the pack succeeds with these results. */
  ghost predicate Evaluates(pack: QsPack, ans: seq<Answer>, evals: seq<TreeEval>)
    requires pack.Valid() && AnswersFit(pack, ans)
  {
    |evals| == |pack.trees| && forall p: nat | p < |evals| :: EvalTree(pack, pack.trees[p], ans) == Ok(evals[p])
  }

  lemma PackEvaluates(pack: QsPack, m: SoaModel, plan: TreeOrder, row: Row)
    requires PackEncodes(pack, m, plan) && |row| == m.nFeatures
    ensures Evaluates(pack, Answers(pack, row), QsEvals(pack, m, plan, row))
  {
    forall p: nat | p < |pack.trees|
      ensures EvalTree(pack, pack.trees[p], Answers(pack, row)) == Ok(QsEvals(pack, m, plan, row)[p])
    {
      EncodedTreeEval(pack, m, plan, row, p);
    }
  }

  method EvalOne(pack: QsPack, p: nat, ranks: seq<nat>, missing: seq<nat>, ghost evals: seq<TreeEval>)
    returns (r: Result<TreeEval>)
    requires pack.Valid() && |ranks| == |missing| && AnswersFit(pack, FromBuffers(ranks, missing))
    requires Evaluates(pack, FromBuffers(ranks, missing), evals) && p < |pack.trees|
    ensures r == Ok(evals[p])
  {
    r := ScoreTreeQuantized(pack, pack.trees[p], ranks, missing);
  }

  /** From tree `start`, the QuickScorer run fails exactly on a bad ladder or one it has passed. */
  method PrefixUntilFrom(pack: QsPack, feat: Row, ranks: array<nat>, missing: array<nat>, idx: seq<nat>, cps: seq<nat>,
                         start: nat, init: Tally, h: CheckpointHandler, ghost evals: seq<TreeEval>)
    returns (r: Result<(Tally, nat)>)
    requires pack.Valid() && |feat| == pack.nFeatures && |idx| == |cps|
    requires Evaluates(pack, Answers(pack, feat), evals)
    requires ranks.Length == missing.Length == pack.nFeatures && ranks != missing
    modifies ranks, missing, h
    ensures r.Ok? <==> ValidLadder(cps, |evals|) && start < cps[0]
    ensures r.Ok? ==>
            Ascent(r.value.0, r.value.1, h.st) == Climb(h.cert, h.init, old(h.st), idx, cps, 0, init, evals, start)
    ensures r.Err? ==> h.st == old(h.st)
  {
    var ok := CheckLadder(cps, |pack.trees|);
    if !ok {
      return Err;
    }
    QuantizeRow(pack, feat, ranks, missing);
    if start > |pack.trees| {
      return Err;
    }
    r := ClimbQs(pack, ranks[..], missing[..], idx, cps, start, init, h, evals);
  }

  /** The loop state: on its way to `goal`, or already past the first checkpoint and going nowhere. */
  ghost predicate Underway(h: CheckpointHandler, idx: seq<nat>, cps: seq<nat>, next: nat, t: Tally,
                           evals: seq<TreeEval>, pos: nat, onWay: bool, st0: HandlerState, goal: Ascent)
    reads h
  {
    && |idx| == |cps| && ValidLadder(cps, |evals|)
    && if onWay then OnWay(h, idx, cps, next, t, evals, pos, goal) else next == 0 && cps[0] <= pos && h.st == st0
  }

  method TreeDoneUnderway(h: CheckpointHandler, idx: seq<nat>, cps: seq<nat>, next: nat, t: Tally,
                          ghost evals: seq<TreeEval>, pos: nat, ghost before: Tally, ghost onWay: bool,
                          ghost st0: HandlerState, ghost goal: Ascent)
    returns (done: bool, next': nat)
    requires Underway(h, idx, cps, next, before, evals, pos, onWay, st0, goal) && pos < |evals|
             && t == before.Add(evals[pos])
    modifies h
    ensures done ==> onWay && Ascent(t, pos + 1, h.st) == goal
    ensures !done ==> Underway(h, idx, cps, next', t, evals, pos + 1, onWay, st0, goal)
  {
    if pos + 1 == cps[next] {
      done, next' := TreeDone(h, idx, cps, next, t, evals, pos, before, goal);
    } else {
      if onWay { ClimbOneTree(h.cert, h.init, h.st, idx, cps, next, before, evals, pos); }
      done, next' := false, next;
    }
  }

  method ClimbQs(pack: QsPack, ranks: seq<nat>, missing: seq<nat>, idx: seq<nat>, cps: seq<nat>, start: nat,
                 init: Tally, h: CheckpointHandler, ghost evals: seq<TreeEval>)
    returns (r: Result<(Tally, nat)>)
    requires pack.Valid() && |ranks| == |missing| && AnswersFit(pack, FromBuffers(ranks, missing))
    requires Evaluates(pack, FromBuffers(ranks, missing), evals)
    requires |idx| == |cps| && ValidLadder(cps, |evals|)
    modifies h
    ensures r.Ok? <==> start < cps[0]
    ensures r.Ok? ==>
            Ascent(r.value.0, r.value.1, h.st) == Climb(h.cert, h.init, old(h.st), idx, cps, 0, init, evals, start)
    ensures r.Err? ==> h.st == old(h.st)
  {
    var maxCheckpoint := cps[|cps| - 1];
    var t, next: nat, pos := init, 0, start;
    ghost var onWay := start < cps[0];
    ghost var goal :=
        if onWay then Climb(h.cert, h.init, h.st, idx, cps, 0, init, evals, start) else Ascent(init, 0, h.st);
    while pos < maxCheckpoint
      invariant Underway(h, idx, cps, next, t, evals, pos, onWay, old(h.st), goal)
    {
      var e := EvalOne(pack, pos, ranks, missing, evals);
      ghost var before := t;
      t := t.Add(e.value);
      var done;
      done, next := TreeDoneUnderway(h, idx, cps, next, t, evals, pos, before, onWay, old(h.st), goal);
      if done {
        return Ok((t, pos + 1));
      }
      pos := pos + 1;
    }
    return Err;
  }
}

/** Hot prefix packs: the leading trees of a plan over a short list of hot features. */
module HotPacks {
  import opened Forest
  import opened Tallies
  import opened EpochCaches
  import opened Ladders
  import opened PrefixKernels

  /** The nodes test hot features, numbered by their position in `hotGlobalFidx`. */
  datatype PrefixPack = PrefixPack(hotGlobalFidx: seq<nat>, nodes: SoaModel) {
    ghost predicate Valid(nFeatures: nat) {
      && nodes.Valid() && nodes.nFeatures == |hotGlobalFidx|
      && forall i | 0 <= i < |hotGlobalFidx| :: hotGlobalFidx[i] < nFeatures
    }
  }

  /** The row as the hot nodes see it. */
  function HotRow(pack: PrefixPack, row: Row): (hot: Row)
    requires pack.Valid(|row|)
    ensures |hot| == pack.nodes.nFeatures
  {
    seq(|pack.hotGlobalFidx|, i requires 0 <= i < |pack.hotGlobalFidx| => row[pack.hotGlobalFidx[i]])
  }

  /** What each hot tree contributes: its leaf, and one unit of work per split. */
  function HotEvals(pack: PrefixPack, row: Row): (evals: seq<TreeEval>)
    requires pack.Valid(|row|)
    ensures |evals| == |pack.nodes.treeRoots|
  {
    var hot := HotRow(pack, row);
    seq(|pack.nodes.treeRoots|, t requires 0 <= t < |pack.nodes.treeRoots| =>
      TreeEval(pack.nodes.leaf[Walk(pack.nodes, hot, pack.nodes.treeRoots[t])],
               Depth(pack.nodes, hot, pack.nodes.treeRoots[t]), 0))
  }

  method CachedFeature(pack: PrefixPack, cache: EpochCache<Feature>, feat: Row, hotFidx: nat) returns (x: Feature)
    requires pack.Valid(|feat|) && hotFidx < pack.nodes.nFeatures && cache.Holds(HotRow(pack, feat))
    modifies cache.values, cache.stamps
    ensures cache.Holds(HotRow(pack, feat)) && x == HotRow(pack, feat)[hotFidx]
  {
    if cache.stamps[hotFidx] == cache.epoch {
      return cache.values[hotFidx];
    }
    x := feat[pack.hotGlobalFidx[hotFidx]];
    cache.Store(hotFidx, x, HotRow(pack, feat));
  }

  /** One interpreted hot tree, reading features through the lazy cache. */
  method WalkHot(pack: PrefixPack, cache: EpochCache<Feature>, feat: Row, root: nat) returns (leaf: real, evals: nat)
    requires pack.Valid(|feat|) && root < pack.nodes.NodeCount() && cache.Holds(HotRow(pack, feat))
    modifies cache.values, cache.stamps
    ensures cache.Holds(HotRow(pack, feat))
    ensures leaf == pack.nodes.leaf[Walk(pack.nodes, HotRow(pack, feat), root)]
    ensures evals == Depth(pack.nodes, HotRow(pack, feat), root)
  {
    var idx := root;
    ghost var hot := HotRow(pack, feat);
    evals := 0;
    while !pack.nodes.isLeaf[idx]
      invariant idx < pack.nodes.NodeCount() && cache.Holds(hot)
      invariant Walk(pack.nodes, hot, idx) == Walk(pack.nodes, hot, root)
      invariant evals + Depth(pack.nodes, hot, idx) == Depth(pack.nodes, hot, root)
      decreases pack.nodes.NodeCount() - idx
    {
      assert pack.nodes.SplitOk(idx);
      var x := CachedFeature(pack, cache, feat, pack.nodes.fidx[idx]);
      evals := evals + 1;
      idx := match x
        case NaN => pack.nodes.missing[idx]
        case Num(v) => if v < pack.nodes.thr[idx] then pack.nodes.left[idx] else pack.nodes.right[idx];
    }
    leaf := pack.nodes.leaf[idx];
  }

  /** The interpreted hot run: whatever the cache held before, it climbs the ladder of this row. */
  method HotPrefixUntil(pack: PrefixPack, cache: EpochCache<Feature>, feat: Row, idx: seq<nat>, cps: seq<nat>,
                        init: real, h: CheckpointHandler)
    returns (r: Result<(Tally, nat)>)
    requires pack.Valid(|feat|) && |idx| == |cps| && cache.Valid() && cache.values.Length == pack.nodes.nFeatures
    modifies cache, cache.values, cache.stamps, h
    ensures cache.Valid()
    ensures r.Ok? <==> ValidLadder(cps, |pack.nodes.treeRoots|)
    ensures r.Ok? ==> Ascent(r.value.0, r.value.1, h.st) ==
                      Climb(h.cert, h.init, old(h.st), idx, cps, 0, Tally(init, 0, 0), HotEvals(pack, feat), 0)
    ensures r.Err? ==> h.st == old(h.st)
  {
    var ok := CheckLadder(cps, |pack.nodes.treeRoots|);
    if !ok {
      return Err;
    }
    cache.NextRow();
    assert cache.Holds(HotRow(pack, feat));
    r := ClimbHot(pack, cache, feat, idx, cps, init, h);
  }

  method ClimbHot(pack: PrefixPack, cache: EpochCache<Feature>, feat: Row, idx: seq<nat>, cps: seq<nat>, init: real,
                  h: CheckpointHandler)
    returns (r: Result<(Tally, nat)>)
    requires pack.Valid(|feat|) && |idx| == |cps| && cache.Holds(HotRow(pack, feat))
    requires ValidLadder(cps, |pack.nodes.treeRoots|)
    modifies cache.values, cache.stamps, h
    ensures cache.Valid()
    ensures r.Ok? && Ascent(r.value.0, r.value.1, h.st) ==
                     Climb(h.cert, h.init, old(h.st), idx, cps, 0, Tally(init, 0, 0), HotEvals(pack, feat), 0)
  {
    ghost var evals := HotEvals(pack, feat);
    var t, next: nat := Tally(init, 0, 0), 0;
    ghost var goal := Climb(h.cert, h.init, h.st, idx, cps, 0, t, evals, 0);
    for pos := 0 to cps[|cps| - 1]
      invariant cache.Holds(HotRow(pack, feat))
      invariant Underway(h, idx, cps, next, t, evals, pos, true, old(h.st), goal)
    {
      var leaf, work := WalkHot(pack, cache, feat, pack.nodes.treeRoots[pos]);
      ghost var before := t;
      t := t.Add(TreeEval(leaf, work, 0));
      var done;
      done, next := TreeDoneUnderway(h, idx, cps, next, t, evals, pos, before, true, old(h.st), goal);
      if done {
        return Ok((t, pos + 1));
      }
    }
    return Err;
  }

  // ---------------------------------------------------------------- compiled hot packs

  /** Node indices are 16-bit words; bit 15 of the flag word marks leaves, the rest is the feature. */
  datatype CompiledNode = CompiledNode(thr: real, leaf: real, left: nat, right: nat, missing: nat, flags: nat) {
    predicate IsLeaf() { flags / 0x8000 % 2 == 1 }
    function HotFidx(): nat { flags % 0x8000 }
  }

  datatype CompiledPack = CompiledPack(hotGlobalFidx: seq<nat>, treeRoots: seq<nat>, nodes: seq<CompiledNode>)

  function U16(x: int): nat { x % 0x1_0000 }

  /** What the compiler's guards admit. */
  predicate FitsCompiled(pack: PrefixPack) {
    |pack.hotGlobalFidx| <= 0x7FFF && pack.nodes.NodeCount() <= 0xFFFF
  }

  function CompileNode(m: SoaModel, i: nat): CompiledNode
    requires |m.fidx| == |m.left| == |m.right| == |m.missing| == |m.thr| == |m.leaf| == |m.isLeaf| && i < m.NodeCount()
  {
    CompiledNode(m.thr[i], m.leaf[i], U16(m.left[i]), U16(m.right[i]), U16(m.missing[i]),
                 if m.isLeaf[i] then 0x8000 else if m.fidx[i] < 0 then 0 else U16(m.fidx[i]))
  }

  method CompileHotPrefixPack(pack: PrefixPack, nFeatures: nat) returns (r: Result<CompiledPack>)
    requires pack.Valid(nFeatures)
    ensures r.Ok? <==> FitsCompiled(pack)
    ensures r.Ok? ==> IsCompiled(pack, r.value)
  {
    if |pack.hotGlobalFidx| > 0xFFFF || |pack.hotGlobalFidx| > 0x7FFF || pack.nodes.NodeCount() > 0xFFFF {
      return Err;
    }
    var nodes := [];
    for i := 0 to pack.nodes.NodeCount()
      invariant |nodes| == i && forall j | 0 <= j < i :: nodes[j] == CompileNode(pack.nodes, j)
    {
      nodes := nodes + [CompileNode(pack.nodes, i)];
    }
    var n := |pack.nodes.treeRoots|;
    var c := CompiledPack(pack.hotGlobalFidx, seq(n, t requires 0 <= t < n => U16(pack.nodes.treeRoots[t])), nodes);
    forall i: nat | i < pack.nodes.NodeCount() ensures NodeKept(pack.nodes, i, c.nodes[i]) {
      if !pack.nodes.isLeaf[i] { assert pack.nodes.SplitOk(i); }
    }
    r := Ok(c);
  }

  /** No narrowing lost anything: the packed node means what the source node meant. */
  predicate NodeKept(m: SoaModel, i: nat, c: CompiledNode)
    requires m.Valid() && i < m.NodeCount()
  {
    && c.IsLeaf() == m.isLeaf[i] && c.leaf == m.leaf[i] && c.thr == m.thr[i]
    && (!m.isLeaf[i] ==>
          c.HotFidx() == m.fidx[i] && c.left == m.left[i] && c.right == m.right[i] && c.missing == m.missing[i])
  }

  ghost predicate IsCompiled(pack: PrefixPack, c: CompiledPack) {
    && pack.nodes.Valid() && pack.nodes.nFeatures == |pack.hotGlobalFidx|
    && c.hotGlobalFidx == pack.hotGlobalFidx && c.treeRoots == pack.nodes.treeRoots
    && |c.nodes| == pack.nodes.NodeCount()
    && forall i: nat | i < |c.nodes| :: NodeKept(pack.nodes, i, c.nodes[i])
  }

  /** The pack as it is walked with the missing test, or without it. */
  function AsWalked(pack: PrefixPack, nanFree: bool): PrefixPack
    requires pack.nodes.Valid()
  {
    if nanFree then pack.(nodes := MissingRight(pack.nodes)) else pack
  }

  /** For rows whose missing values go right both are the same. */
  lemma WalkedSame(pack: PrefixPack, row: Row, nanFree: bool)
    requires pack.Valid(|row|) && (nanFree ==> GoesRight(pack.nodes, HotRow(pack, row)))
    ensures AsWalked(pack, nanFree).Valid(|row|) && HotEvals(AsWalked(pack, nanFree), row) == HotEvals(pack, row)
  {
    if nanFree {
      var hot := HotRow(pack, row);
      assert HotRow(AsWalked(pack, true), row) == hot;
      forall t | 0 <= t < |pack.nodes.treeRoots|
        ensures HotEvals(AsWalked(pack, true), row)[t] == HotEvals(pack, row)[t]
      {
        RightWalk(pack.nodes, hot, pack.nodes.treeRoots[t]);
      }
    }
  }

  /** One compiled tree; on rows said to have no missing value the test for it is left out. */
  method WalkCompiled(c: CompiledPack, hot: Row, root: nat, nanFree: bool, ghost pack: PrefixPack)
    returns (leaf: real, evals: nat)
    requires IsCompiled(pack, c) && |hot| == pack.nodes.nFeatures && root < |c.nodes|
    ensures leaf == pack.nodes.leaf[Walk(AsWalked(pack, nanFree).nodes, hot, root)]
    ensures evals == Depth(AsWalked(pack, nanFree).nodes, hot, root)
  {
    ghost var m := AsWalked(pack, nanFree).nodes;
    var idx := root;
    evals := 0;
    while !c.nodes[idx].IsLeaf()
      invariant idx < |c.nodes|
      invariant Walk(m, hot, idx) == Walk(m, hot, root)
      invariant evals + Depth(m, hot, idx) == Depth(m, hot, root)
      decreases |c.nodes| - idx
    {
      var node := c.nodes[idx];
      assert NodeKept(pack.nodes, idx, node) && pack.nodes.SplitOk(idx);
      var x := hot[node.HotFidx()];
      evals := evals + 1;
      idx := if !nanFree && x.NaN? then node.missing else if IsBelow(x, node.thr) then node.left else node.right;
    }
    assert NodeKept(pack.nodes, idx, c.nodes[idx]);
    leaf := c.nodes[idx].leaf;
  }

  method FillHotBuffer(buf: array<Feature>, hotGlobalFidx: seq<nat>, feat: Row)
    requires buf.Length == |hotGlobalFidx| && forall i | 0 <= i < |hotGlobalFidx| :: hotGlobalFidx[i] < |feat|
    modifies buf
    ensures forall i | 0 <= i < buf.Length :: buf[i] == feat[hotGlobalFidx[i]]
  {
    var i := 0;
    while i < |hotGlobalFidx|
      invariant i <= |hotGlobalFidx| && forall j | 0 <= j < i :: buf[j] == feat[hotGlobalFidx[j]]
    {
      buf[i] := feat[hotGlobalFidx[i]];
      i := i + 1;
    }
  }

  /** The compiled hot run gives the result of the interpreted run, over the pack as it tests it, and calls the
      handler with the same checkpoints, scores and work, whatever the feature buffer held. */
  method HotPrefixUntilCompiled(c: CompiledPack, buf: array<Feature>, feat: Row, idx: seq<nat>, cps: seq<nat>,
                                init: real, nanFree: bool, h: CheckpointHandler, ghost pack: PrefixPack)
    returns (r: Result<(Tally, nat)>)
    requires pack.Valid(|feat|) && IsCompiled(pack, c) && |idx| == |cps| && buf.Length == |c.hotGlobalFidx|
    modifies buf, h
    ensures r.Ok? <==> ValidLadder(cps, |pack.nodes.treeRoots|)
    ensures r.Ok? ==> Ascent(r.value.0, r.value.1, h.st) ==
                      Climb(h.cert, h.init, old(h.st), idx, cps, 0, Tally(init, 0, 0),
                            HotEvals(AsWalked(pack, nanFree), feat), 0)
    ensures r.Err? ==> h.st == old(h.st)
  {
    var ok := CheckLadder(cps, |c.treeRoots|);
    if !ok {
      return Err;
    }
    FillHotBuffer(buf, c.hotGlobalFidx, feat);
    assert buf[..] == HotRow(pack, feat);
    r := ClimbCompiled(c, buf[..], feat, idx, cps, init, nanFree, h, pack);
  }

  method ClimbCompiled(c: CompiledPack, hot: Row, ghost feat: Row, idx: seq<nat>, cps: seq<nat>, init: real,
                       nanFree: bool, h: CheckpointHandler, ghost pack: PrefixPack)
    returns (r: Result<(Tally, nat)>)
    requires pack.Valid(|feat|) && IsCompiled(pack, c) && |idx| == |cps| && hot == HotRow(pack, feat)
    requires ValidLadder(cps, |pack.nodes.treeRoots|)
    modifies h
    ensures r.Ok? && Ascent(r.value.0, r.value.1, h.st) ==
                     Climb(h.cert, h.init, old(h.st), idx, cps, 0, Tally(init, 0, 0),
                           HotEvals(AsWalked(pack, nanFree), feat), 0)
  {
    ghost var evals := HotEvals(AsWalked(pack, nanFree), feat);
    assert HotRow(AsWalked(pack, nanFree), feat) == hot;
    var t, next: nat := Tally(init, 0, 0), 0;
    ghost var goal := Climb(h.cert, h.init, h.st, idx, cps, 0, t, evals, 0);
    for pos := 0 to cps[|cps| - 1]
      invariant Underway(h, idx, cps, next, t, evals, pos, true, old(h.st), goal)
    {
      var leaf, work := WalkCompiled(c, hot, c.treeRoots[pos], nanFree, pack);
      ghost var before := t;
      t := t.Add(TreeEval(leaf, work, 0));
      var done;
      done, next := TreeDoneUnderway(h, idx, cps, next, t, evals, pos, before, true, old(h.st), goal);
      if done {
        return Ok((t, pos + 1));
      }
    }
    return Err;
  }
}
