/** Sums over marked positions: what has been added already, and what is left. */
module Marks {
  import opened Forest

  /** The sum of the marked positions below `n`. */
  function MarkedSum(v: seq<real>, marks: seq<bool>, n: nat): real
    requires n <= |v| == |marks|
  {
    if n == 0 then 0.0 else MarkedSum(v, marks, n - 1) + if marks[n - 1] then v[n - 1] else 0.0
  }

  /** The positions below `n` that are not marked, in order. */
  function Unmarked(marks: seq<bool>, n: nat): (rest: seq<nat>)
    requires n <= |marks|
    ensures forall k | 0 <= k < |rest| :: rest[k] < n
  {
    if n == 0 then [] else if marks[n - 1] then Unmarked(marks, n - 1) else Unmarked(marks, n - 1) + [n - 1]
  }

  lemma {:induction false} MarkedSumUpdate(v: seq<real>, marks: seq<bool>, p: nat, n: nat)
    requires n <= |v| == |marks| && p < |marks|
    ensures MarkedSum(v, marks[p := true], n) == MarkedSum(v, marks, n) + if p < n && !marks[p] then v[p] else 0.0
  {
    if n > 0 { MarkedSumUpdate(v, marks, p, n - 1); }
  }

  lemma {:induction false} UnmarkedSum(v: seq<real>, marks: seq<bool>, n: nat)
    requires n <= |v| == |marks|
    ensures var rest := Unmarked(marks, n);
            PositionsSum(v, rest, |rest|) + MarkedSum(v, marks, n) == Sum(v, n)
  {
    if n == 0 {
    } else {
      UnmarkedSum(v, marks, n - 1);
      var shorter, rest := Unmarked(marks, n - 1), Unmarked(marks, n);
      PositionsPrefix(v, shorter, rest, |shorter|);
    }
  }

  /** The marks after marking `idx[..n]`. */
  function MarkAll(marks: seq<bool>, idx: seq<nat>, n: nat): (r: seq<bool>)
    requires n <= |idx| && forall k | 0 <= k < n :: idx[k] < |marks|
    ensures |r| == |marks|
  {
    if n == 0 then marks else MarkAll(marks, idx, n - 1)[idx[n - 1] := true]
  }

  lemma {:induction false} MarkAllMarks(marks: seq<bool>, idx: seq<nat>, n: nat, p: nat)
    requires n <= |idx| && (forall k | 0 <= k < n :: idx[k] < |marks|) && p < |marks|
    ensures MarkAll(marks, idx, n)[p] <==> marks[p] || p in idx[..n]
  {
    if n == 0 {
    } else {
      MarkAllMarks(marks, idx, n - 1, p);
      assert idx[..n] == idx[..n - 1] + [idx[n - 1]];
    }
  }

  lemma {:induction false} MarkAllPrefix(marks: seq<bool>, idx: seq<nat>, p: nat, n: nat)
    requires n <= |idx| && (forall k | 0 <= k < |idx| :: idx[k] < |marks|) && p < |marks|
    ensures MarkAll(marks, idx + [p], n) == MarkAll(marks, idx, n)
  {
    if n > 0 { MarkAllPrefix(marks, idx, p, n - 1); }
  }

  lemma MarkOneMore(marks: seq<bool>, idx: seq<nat>, p: nat)
    requires (forall k | 0 <= k < |idx| :: idx[k] < |marks|) && p < |marks|
    ensures MarkAll(marks, idx + [p], |idx + [p]|) == MarkAll(marks, idx, |idx|)[p := true]
  {
    MarkAllPrefix(marks, idx, p, |idx|);
  }

  /** What marking counts twice: the values at positions that were marked already when their turn came. */
  function Overlap(v: seq<real>, marks: seq<bool>, idx: seq<nat>, n: nat): real
    requires |v| == |marks| && n <= |idx| && forall k | 0 <= k < n :: idx[k] < |marks|
  {
    if n == 0 then 0.0
    else Overlap(v, marks, idx, n - 1) + if MarkAll(marks, idx, n - 1)[idx[n - 1]] then v[idx[n - 1]] else 0.0
  }

  /** The listed positions are distinct and none was marked before. */
  ghost predicate AllNew(marks: seq<bool>, idx: seq<nat>, n: nat)
    requires n <= |idx| && forall k | 0 <= k < n :: idx[k] < |marks|
  {
    && (forall k | 0 <= k < n :: !marks[idx[k]])
    && (forall j, k | 0 <= j < k < n :: idx[j] != idx[k])
  }

  lemma {:induction false} MarkAllSum(v: seq<real>, marks: seq<bool>, idx: seq<nat>, n: nat)
    requires |v| == |marks| && n <= |idx| && forall k | 0 <= k < n :: idx[k] < |marks|
    ensures MarkedSum(v, MarkAll(marks, idx, n), |v|) + Overlap(v, marks, idx, n) ==
            MarkedSum(v, marks, |v|) + PositionsSum(v, idx, n)
  {
    if n == 0 {
    } else {
      MarkAllSum(v, marks, idx, n - 1);
      MarkedSumUpdate(v, MarkAll(marks, idx, n - 1), idx[n - 1], |v|);
    }
  }

  lemma {:induction false} NewHasNoOverlap(v: seq<real>, marks: seq<bool>, idx: seq<nat>, n: nat)
    requires |v| == |marks| && n <= |idx| && forall k | 0 <= k < n :: idx[k] < |marks|
    requires AllNew(marks, idx, n)
    ensures Overlap(v, marks, idx, n) == 0.0
  {
    if n == 0 {
    } else {
      NewHasNoOverlap(v, marks, idx, n - 1);
      MarkAllMarks(marks, idx, n - 1, idx[n - 1]);
    }
  }

  lemma {:induction false} OverlapOfOnes(ones: seq<real>, marks: seq<bool>, idx: seq<nat>, n: nat)
    requires |ones| == |marks| && n <= |idx| && forall k | 0 <= k < n :: idx[k] < |marks|
    requires forall p | 0 <= p < |ones| :: ones[p] == 1.0
    ensures Overlap(ones, marks, idx, n) >= 0.0
    ensures Overlap(ones, marks, idx, n) == 0.0 ==> AllNew(marks, idx, n)
  {
    if n == 0 {
    } else {
      OverlapOfOnes(ones, marks, idx, n - 1);
      if Overlap(ones, marks, idx, n) == 0.0 {
        MarkAllMarks(marks, idx, n - 1, idx[n - 1]);
        forall j | 0 <= j < n - 1 ensures idx[j] != idx[n - 1] {
          assert idx[j] in idx[..n - 1];
        }
      }
    }
  }

  /** Nothing is counted twice, whatever the values, if and only if every listed position is new. */
  lemma OverlapZeroIff(marks: seq<bool>, idx: seq<nat>, n: nat)
    requires n <= |idx| && forall k | 0 <= k < n :: idx[k] < |marks|
    ensures AllNew(marks, idx, n) <==> forall v: seq<real> | |v| == |marks| :: Overlap(v, marks, idx, n) == 0.0
  {
    if AllNew(marks, idx, n) {
      forall v: seq<real> | |v| == |marks| ensures Overlap(v, marks, idx, n) == 0.0 {
        NewHasNoOverlap(v, marks, idx, n);
      }
    } else {
      var ones := seq(|marks|, _ => 1.0);
      OverlapOfOnes(ones, marks, idx, n);
      assert |ones| == |marks|;
    }
  }
}

/** Anchor and rescue runs: when the anchor's prefix run stays undecided, a router may start a second
    run over other trees, from the anchor's score; whatever is left is added by the continuation. */
module AnchorRescue {
  import opened Forest
  import opened Tallies
  import opened EpochCaches
  import opened QuickScorer
  import opened QuickScorerExact
  import opened Ladders
  import opened HotPacks
  import opened LatePrograms
  import opened Marks
  import opened Prediction

  datatype Action = Fallback | RejectRescue | ReferRescue

  /** The rescue bundles; `route` is the router's answer for an entry checkpoint and a prefix score. */
  datatype Rescue = Rescue(reject: Runtime, refer: Runtime, route: (nat, real) -> Action)
  {
    function Chosen(action: Action): Runtime
      requires !action.Fallback?
    {
      if action.RejectRescue? then reject else refer
    }
  }

  /** The answer of a rescue run counts only on its own side. */
  predicate WrongSide(action: Action, rescue: Shadow) {
    !rescue.fallbackUsed && ((action.RejectRescue? && !rescue.reject) || (action.ReferRescue? && rescue.reject))
  }

  datatype RescueShadow = RescueShadow(out: Shadow, anchorTrees: nat, rescueTrees: nat, action: Action)

  /** How the two runs are put together. */
  function Joined(anchor: Shadow, action: Action, rescue: Shadow, rescueCheckpoints: seq<nat>): RescueShadow {
    var last := if |rescueCheckpoints| == 0 then 0 else rescueCheckpoints[|rescueCheckpoints| - 1];
    var wrong := WrongSide(action, rescue);
    RescueShadow(
      Shadow(rescue.prefixScore, anchor.treesUsed + rescue.treesUsed, anchor.workEvals + rescue.workEvals,
             anchor.resolvedEarly + rescue.resolvedEarly,
             if wrong then false else rescue.reject,
             if wrong then rescue.prefixScore else rescue.routeScore,
             wrong || rescue.fallbackUsed,
             if wrong then 0 else rescue.directCheckpoint,
             if wrong then last else rescue.fallbackEntry),
      anchor.treesUsed, rescue.treesUsed, action)
  }

  /** A direct answer of the rescue run stands exactly when it is the one its side is for; otherwise the row falls back
      at the last rescue checkpoint with the rescue's prefix score.  Work of both runs adds up either way. */
  lemma JoinedReports(anchor: Shadow, action: Action, rescue: Shadow, rescueCheckpoints: seq<nat>)
    requires !action.Fallback?
    ensures var j := Joined(anchor, action, rescue, rescueCheckpoints).out;
            && (!j.fallbackUsed <==> !rescue.fallbackUsed && (rescue.reject <==> action.RejectRescue?))
            && (!j.fallbackUsed ==> j.reject == rescue.reject && j.routeScore == rescue.routeScore
                                    && j.directCheckpoint == rescue.directCheckpoint)
            && (j.fallbackUsed && !rescue.fallbackUsed ==>
                  && !j.reject && j.routeScore == rescue.prefixScore && j.directCheckpoint == 0
                  && if |rescueCheckpoints| == 0 then j.fallbackEntry == 0
                     else j.fallbackEntry == rescueCheckpoints[|rescueCheckpoints| - 1])
            && (rescue.fallbackUsed ==>
                  && j.reject == rescue.reject && j.routeScore == rescue.routeScore
                  && j.directCheckpoint == rescue.directCheckpoint && j.fallbackEntry == rescue.fallbackEntry)
            && j.prefixScore == rescue.prefixScore && j.treesUsed == anchor.treesUsed + rescue.treesUsed
            && j.workEvals == anchor.workEvals + rescue.workEvals
            && j.resolvedEarly == anchor.resolvedEarly + rescue.resolvedEarly
  {}

  ghost function AnchorShadow(rt: Runtime, m: SoaModel, row: Row, cert: Certifier): Shadow
    requires Fits(rt, m) && |row| == m.nFeatures
  {
    ReportShadow(PrefixRun(rt, m, row, cert, rt.pack.baseScore, false), rt.checkpoints)
  }

  /** The whole shadow run, as a function of the row alone. */
  ghost function RescueRun(rt: Runtime, rescue: Rescue, m: SoaModel, row: Row, cert: Certifier,
                           rescueCert: Action -> Certifier): RescueShadow
    requires Fits(rt, m) && Fits(rescue.reject, m) && Fits(rescue.refer, m) && |row| == m.nFeatures
  {
    var anchor := AnchorShadow(rt, m, row, cert);
    var action := if anchor.fallbackUsed then rescue.route(anchor.fallbackEntry, anchor.prefixScore) else Fallback;
    if action.Fallback? then RescueShadow(anchor, anchor.treesUsed, 0, Fallback)
    else
      var rr := rescue.Chosen(action);
      Joined(anchor, action,
             ReportShadow(PrefixRun(rr, m, row, rescueCert(action), anchor.prefixScore, false), rr.checkpoints),
             rr.checkpoints)
  }

  /** A row the anchor decides is not rescued.  One it does not is routed by the entry and the prefix score it
      reports; a reject rescue runs the reject bundle, a refer rescue the refer bundle, from that score. */
  lemma RescueRuns(rt: Runtime, rescue: Rescue, m: SoaModel, row: Row, cert: Certifier,
                   rescueCert: Action -> Certifier)
    requires Fits(rt, m) && Fits(rescue.reject, m) && Fits(rescue.refer, m) && |row| == m.nFeatures
    ensures var anchor, r := AnchorShadow(rt, m, row, cert), RescueRun(rt, rescue, m, row, cert, rescueCert);
            && (!anchor.fallbackUsed ==> r == RescueShadow(anchor, anchor.treesUsed, 0, Fallback))
            && (anchor.fallbackUsed ==> r.action == rescue.route(anchor.fallbackEntry, anchor.prefixScore))
            && match r.action
               case Fallback => r == RescueShadow(anchor, anchor.treesUsed, 0, Fallback)
               case RejectRescue =>
                 r == RescuedBy(anchor, RejectRescue, rescue.reject, m, row, rescueCert(RejectRescue))
               case ReferRescue =>
                 r == RescuedBy(anchor, ReferRescue, rescue.refer, m, row, rescueCert(ReferRescue))
  {}

  /** These are the last checkpoint and the exact score of the trees used. */
  lemma AnchorEntry(rt: Runtime, m: SoaModel, row: Row, cert: Certifier)
    requires Fits(rt, m) && |row| == m.nFeatures && Splits(rt, rt.pack.baseScore)
    ensures var anchor := AnchorShadow(rt, m, row, cert);
            && anchor.treesUsed <= |rt.plan.order|
            && anchor.prefixScore == rt.pack.baseScore + Sum(PlanScores(m, rt.plan, row), anchor.treesUsed)
            && (anchor.fallbackUsed ==> anchor.fallbackEntry == rt.checkpoints[|rt.checkpoints| - 1])
  {
    PrefixRunIsExact(rt, m, row, cert, rt.pack.baseScore, false);
  }

  /** The anchor's run joined with that of a bundle from its score. */
  ghost function RescuedBy(anchor: Shadow, action: Action, rr: Runtime, m: SoaModel, row: Row,
                           cert: Certifier): RescueShadow
    requires Fits(rr, m) && |row| == m.nFeatures
  {
    Joined(anchor, action, ReportShadow(PrefixRun(rr, m, row, cert, anchor.prefixScore, false), rr.checkpoints),
      rr.checkpoints)
  }

  method RunRescue(rr: Runtime, feat: Row, start: real, cert: Certifier, scratch: Scratch, ghost m: SoaModel)
    returns (r: Result<Shadow>)
    requires Fits(rr, m) && |feat| == m.nFeatures
    requires scratch.ranks.Length == scratch.missing.Length == m.nFeatures && scratch.ranks != scratch.missing
    modifies scratch.ranks, scratch.missing
    ensures r == Ok(ReportShadow(PrefixRun(rr, m, feat, cert, start, false), rr.checkpoints))
  {
    var nHot := if rr.hotPack.Some? then |rr.hotPack.value.hotGlobalFidx| else 0;
    var own := new Scratch.WithBuffers(scratch.ranks, scratch.missing, nHot);
    r := ShadowRowFrom(rr, feat, start, cert, own, nHot, m);
  }

  method RunAnchorRescue(rt: Runtime, rescue: Rescue, feat: Row, cert: Certifier, rescueCert: Action -> Certifier,
                         scratch: Scratch, nHot: nat, ghost m: SoaModel)
    returns (r: Result<RescueShadow>)
    requires Fits(rt, m) && Fits(rescue.reject, m) && Fits(rescue.refer, m) && |feat| == m.nFeatures
    requires scratch.Sized(m.nFeatures, nHot) && (rt.hotPack.Some? ==> nHot == |rt.hotPack.value.hotGlobalFidx|)
    modifies scratch.Footprint()
    ensures scratch.Sized(m.nFeatures, nHot)
    ensures r == Ok(RescueRun(rt, rescue, m, feat, cert, rescueCert))
  {
    var anchor := ShadowRowFrom(rt, feat, rt.pack.baseScore, cert, scratch, nHot, m);
    if !anchor.value.fallbackUsed {
      return Ok(RescueShadow(anchor.value, anchor.value.treesUsed, 0, Fallback));
    }
    var action := rescue.route(anchor.value.fallbackEntry, anchor.value.prefixScore);
    if action.Fallback? {
      return Ok(RescueShadow(anchor.value, anchor.value.treesUsed, 0, Fallback));
    }
    var rr := rescue.Chosen(action);
    var shadow := RunRescue(rr, feat, anchor.value.prefixScore, rescueCert(action), scratch, m);
    r := Ok(Joined(anchor.value, action, shadow.value, rr.checkpoints));
  }

  // ---------------------------------------------------------------- the continuation

  /** Where the plan evaluates a tree: the last such position. */
  function PositionOf(order: seq<nat>, tree: nat): (p: nat)
    requires tree in order
    ensures p < |order| && order[p] == tree
  {
    var last := |order| - 1;
    if order[last] == tree then last else PositionOf(order[..last], tree)
  }

  /** The positions of those of the trees `ids[..n]` that the plan has. */
  function Found(order: seq<nat>, ids: seq<nat>, n: nat): (idx: seq<nat>)
    requires n <= |ids|
    ensures forall k | 0 <= k < |idx| :: idx[k] < |order|
  {
    if n == 0 then []
    else if ids[n - 1] in order then Found(order, ids, n - 1) + [PositionOf(order, ids[n - 1])]
    else Found(order, ids, n - 1)
  }

  function AnchorMarks(nPlan: nat, anchorTrees: nat): (marks: seq<bool>)
    ensures |marks| == nPlan
  {
    seq(nPlan, p => p < anchorTrees)
  }

  /** What has been run: the anchor's first positions and the rescue's first trees. */
  function Executed(order: seq<nat>, anchorTrees: nat, rescueOrder: seq<nat>, rescueTrees: nat): (marks: seq<bool>)
    ensures |marks| == |order|
  {
    var n := if rescueTrees < |rescueOrder| then rescueTrees else |rescueOrder|;
    var idx := Found(order, rescueOrder, n);
    MarkAll(AnchorMarks(|order|, anchorTrees), idx, |idx|)
  }

  method IndexPlan(order: seq<nat>) returns (pos: map<nat, nat>)
    ensures forall t: nat :: t in pos <==> t in order
    ensures forall t: nat | t in pos :: pos[t] == PositionOf(order, t)
  {
    pos := map[];
    for p := 0 to |order|
      invariant forall t: nat :: t in pos <==> t in order[..p]
      invariant forall t: nat | t in pos :: pos[t] == PositionOf(order[..p], t)
    {
      assert order[..p + 1] == order[..p] + [order[p]] && order[..p + 1][..p] == order[..p];
      pos := pos[order[p] := p];
    }
    assert order[..|order|] == order;
  }

  method MarkExecuted(order: seq<nat>, anchorTrees: nat, rescueOrder: seq<nat>, rescueTrees: nat)
    returns (marks: seq<bool>)
    ensures marks == Executed(order, anchorTrees, rescueOrder, rescueTrees)
  {
    var executed := new bool[|order|](_ => false);
    var a := if anchorTrees < |order| then anchorTrees else |order|;
    for p := 0 to a
      invariant forall q | 0 <= q < |order| :: executed[q] <==> q < p
    {
      executed[p] := true;
    }
    assert executed[..] == AnchorMarks(|order|, anchorTrees);
    var pos := IndexPlan(order);
    var n := if rescueTrees < |rescueOrder| then rescueTrees else |rescueOrder|;
    for k := 0 to n
      invariant executed[..] ==
                MarkAll(AnchorMarks(|order|, anchorTrees), Found(order, rescueOrder, k), |Found(order, rescueOrder, k)|)
    {
      ghost var first, before, done := AnchorMarks(|order|, anchorTrees), Found(order, rescueOrder, k), executed[..];
      if rescueOrder[k] in pos {
        MarkOneMore(first, before, pos[rescueOrder[k]]);
        executed[pos[rescueOrder[k]]] := true;
        assert executed[..] == done[pos[rescueOrder[k]] := true];
      }
    }
    marks := executed[..];
  }

  method Remaining(marks: seq<bool>) returns (idx: seq<nat>)
    ensures idx == Unmarked(marks, |marks|)
  {
    idx := [];
    for p := 0 to |marks|
      invariant idx == Unmarked(marks, p)
    {
      if !marks[p] {
        idx := idx + [p];
      }
    }
  }

  /** The positions a shadow run has executed. */
  function RunMarks(R: RescueShadow, rt: Runtime, rescue: Rescue): (marks: seq<bool>)
    ensures |marks| == |rt.plan.order|
  {
    if R.action.Fallback? then AnchorMarks(|rt.plan.order|, R.anchorTrees)
    else Executed(rt.plan.order, R.anchorTrees, rescue.Chosen(R.action).plan.order, R.rescueTrees)
  }

  /** The score the continuation reaches from a shadow run. */
  ghost function ContinuedScore(R: RescueShadow, rt: Runtime, rescue: Rescue, m: SoaModel, row: Row): real
    requires m.Valid() && |row| == m.nFeatures && rt.plan.Fits(m)
  {
    var v := PlanScores(m, rt.plan, row);
    R.out.prefixScore + Total(v) - MarkedSum(v, RunMarks(R, rt, rescue), |v|)
  }

  /** Adds every tree of the anchor's plan that has not been run. */
  method ContinueRescue(rt: Runtime, rescue: Rescue, feat: Row, tau: real, shadow: RescueShadow, scratch: Scratch,
                        ghost m: SoaModel)
    returns (r: Result<(real, bool, nat)>)
    requires PackEncodes(rt.pack, m, rt.plan) && |feat| == m.nFeatures
    requires scratch.ranks.Length == scratch.missing.Length == m.nFeatures && scratch.ranks != scratch.missing
    modifies scratch.ranks, scratch.missing
    ensures r.Ok? && r.value.0 == ContinuedScore(shadow, rt, rescue, m, feat)
    ensures (r.value.1 <==> r.value.0 >= tau) && r.value.2 == |Unmarked(RunMarks(shadow, rt, rescue), |rt.plan.order|)|
  {
    QuantizeRow(rt.pack, feat, scratch.ranks, scratch.missing);
    var rescueOrder := if shadow.action.Fallback? then [] else rescue.Chosen(shadow.action).plan.order;
    var marks := MarkExecuted(rt.plan.order, shadow.anchorTrees, rescueOrder, shadow.rescueTrees);
    var idx := Remaining(marks);
    ghost var v := PlanScores(m, rt.plan, feat);
    PackYieldsPlan(rt.pack, m, rt.plan, feat);
    ScoreIndicesIsSum(rt.pack, Answers(rt.pack, feat), v, idx, |idx|, Tally(0.0, 0, 0));
    UnmarkedSum(v, marks, |v|);
    var left := ScoreTreeIndices(rt.pack, idx, scratch.ranks[..], scratch.missing[..], Tally(0.0, 0, 0));
    var score := shadow.out.prefixScore + left.value.score;
    r := Ok((score, score >= tau, |idx|));
  }

  // ---------------------------------------------------------------- every tree exactly once

  /** The rescue trees run are distinct and none of them is among the anchor trees used. */
  ghost predicate RescueIsNew(order: seq<nat>, anchorTrees: nat, rescueOrder: seq<nat>, n: nat)
    requires anchorTrees <= |order| && n <= |rescueOrder|
  {
    && (forall k | 0 <= k < n :: rescueOrder[k] !in order[..anchorTrees])
    && (forall j, k | 0 <= j < k < n :: rescueOrder[j] != rescueOrder[k])
  }

  /** Every tree number occurs once in a permutation plan. */
  lemma PlanHasTree(m: SoaModel, plan: TreeOrder, tree: nat)
    requires IsPermutation(m, plan)
    ensures tree in plan.order <==> tree < |m.treeRoots|
  {
    var all := Positions(|m.treeRoots|);
    assert tree in plan.order <==> tree in multiset(plan.order);
    assert tree in all <==> tree in multiset(all);
    if tree < |m.treeRoots| { assert all[tree] == tree; }
  }

  /** All of these trees are found in the plan. */
  lemma {:induction false} FoundAll(order: seq<nat>, ids: seq<nat>, n: nat)
    requires n <= |ids| && forall k | 0 <= k < n :: ids[k] in order
    ensures var idx := Found(order, ids, n);
            |idx| == n && forall k | 0 <= k < n :: order[idx[k]] == ids[k]
  {
    if n > 0 { FoundAll(order, ids, n - 1); }
  }

  lemma PlanFindsAll(m: SoaModel, plan: TreeOrder, other: TreeOrder, n: nat)
    requires m.Valid() && plan.Fits(m) && other.Fits(m) && IsPermutation(m, plan) && n <= |other.order|
    ensures var idx := Found(plan.order, other.order, n);
            |idx| == n && forall k | 0 <= k < n :: plan.order[idx[k]] == other.order[k]
  {
    forall k | 0 <= k < n ensures other.order[k] in plan.order { PlanHasTree(m, plan, other.order[k]); }
    FoundAll(plan.order, other.order, n);
  }

  lemma {:induction false} SameValues(v: seq<real>, w: seq<real>, idx: seq<nat>, n: nat)
    requires n <= |idx| && n <= |w| && forall k | 0 <= k < n :: idx[k] < |v| && v[idx[k]] == w[k]
    ensures PositionsSum(v, idx, n) == Sum(w, n)
  {
    if n > 0 { SameValues(v, w, idx, n - 1); }
  }

  lemma {:induction false} AnchorMarksSum(v: seq<real>, anchorTrees: nat, n: nat)
    requires n <= |v|
    ensures MarkedSum(v, AnchorMarks(|v|, anchorTrees), n) == Sum(v, if anchorTrees < n then anchorTrees else n)
  {
    if n > 0 { AnchorMarksSum(v, anchorTrees, n - 1); }
  }

  /** What the continuation does not add is the anchor's trees and the rescue's, less what both ran. */
  lemma ExecutedSum(m: SoaModel, plan: TreeOrder, other: TreeOrder, row: Row, anchorTrees: nat, n: nat)
    requires m.Valid() && |row| == m.nFeatures && plan.Fits(m) && other.Fits(m) && IsPermutation(m, plan)
    requires anchorTrees <= |plan.order| && n <= |other.order|
    ensures var v := PlanScores(m, plan, row);
            var idx, first := Found(plan.order, other.order, n), AnchorMarks(|v|, anchorTrees);
            && |idx| == n
            && MarkedSum(v, Executed(plan.order, anchorTrees, other.order, n), |v|) + Overlap(v, first, idx, n) ==
               Sum(v, anchorTrees) + Sum(PlanScores(m, other, row), n)
  {
    var v := PlanScores(m, plan, row);
    PlanFindsAll(m, plan, other, n);
    SameValues(v, PlanScores(m, other, row), Found(plan.order, other.order, n), n);
    MarkAllSum(v, AnchorMarks(|v|, anchorTrees), Found(plan.order, other.order, n), n);
    AnchorMarksSum(v, anchorTrees, |v|);
  }

  /** The tree condition is exactly that the marks find only new positions. */
  lemma NewTreesNewPositions(m: SoaModel, plan: TreeOrder, other: TreeOrder, anchorTrees: nat, n: nat)
    requires m.Valid() && plan.Fits(m) && other.Fits(m) && IsPermutation(m, plan)
    requires anchorTrees <= |plan.order| && n <= |other.order|
    ensures var idx := Found(plan.order, other.order, n);
            |idx| == n && (RescueIsNew(plan.order, anchorTrees, other.order, n) <==>
                AllNew(AnchorMarks(|plan.order|, anchorTrees), idx, n))
  {
    PlanFindsAll(m, plan, other, n);
    var idx := Found(plan.order, other.order, n);
    PlanIsDistinct(m, plan);
    forall k | 0 <= k < n ensures other.order[k] in plan.order[..anchorTrees] <==> idx[k] < anchorTrees {
      if other.order[k] in plan.order[..anchorTrees] {
        var p: nat :| p < anchorTrees && plan.order[p] == other.order[k];
      }
    }
  }

  lemma PlanIsDistinct(m: SoaModel, plan: TreeOrder)
    requires IsPermutation(m, plan)
    ensures forall p, q | 0 <= p < q < |plan.order| :: plan.order[p] != plan.order[q]
  {
    forall p, q | 0 <= p < q < |plan.order| ensures plan.order[p] != plan.order[q] {
      if plan.order[p] == plan.order[q] {
        var all, x := Positions(|m.treeRoots|), plan.order[p];
        var front := plan.order[..p];
        var mid := plan.order[p + 1..q];
        assert plan.order == front + [x] + mid + [x] + plan.order[q + 1..];
        assert multiset(plan.order)[x] >= 2;
        OneOf(|m.treeRoots|, x);
      }
    }
  }

  lemma {:induction false} OneOf(n: nat, x: nat)
    ensures multiset(Positions(n))[x] <= 1
  {
    if n == 0 {
    } else {
      assert Positions(n) == Positions(n - 1) + [n - 1];
      OneOf(n - 1, x);
      assert x in multiset(Positions(n - 1)) <==> x in Positions(n - 1);
    }
  }

  // ---------------------------------------------------------------- end to end

  /** The trees the shadow run added to the base score: the anchor's, then the rescue's. */
  ghost predicate ScoreIs(R: RescueShadow, rt: Runtime, rescue: Rescue, m: SoaModel, row: Row)
    requires m.Valid() && |row| == m.nFeatures && rt.plan.Fits(m) && rescue.reject.plan.Fits(m)
             && rescue.refer.plan.Fits(m)
  {
    var v := PlanScores(m, rt.plan, row);
    && R.anchorTrees <= |v|
    && if R.action.Fallback? then R.out.prefixScore == rt.pack.baseScore + Sum(v, R.anchorTrees)
       else
         var w := PlanScores(m, rescue.Chosen(R.action).plan, row);
         R.rescueTrees <= |w| && R.out.prefixScore == rt.pack.baseScore + Sum(v, R.anchorTrees) + Sum(w, R.rescueTrees)
  }

  ghost predicate RescueSplits(rt: Runtime, rescue: Rescue, anchorScore: real) {
    Splits(rt, rt.pack.baseScore) && Splits(rescue.reject, anchorScore) && Splits(rescue.refer, anchorScore)
  }

  /** A shadow run is made of these one or two runs, and they are exact. */
  ghost predicate TwoRuns(R: RescueShadow, anchor: Shadow, action: Action, second: Shadow, rt: Runtime, rescue: Rescue,
                          m: SoaModel, row: Row, cert: Certifier, rescueCert: Action -> Certifier)
    requires m.Valid() && |row| == m.nFeatures && rt.plan.Fits(m) && rescue.reject.plan.Fits(m)
             && rescue.refer.plan.Fits(m)
  {
    && ExactRun(anchor, cert, rt.checkpoints, rt.pack.baseScore, PlanScores(m, rt.plan, row))
    && if action.Fallback? then R == RescueShadow(anchor, anchor.treesUsed, 0, Fallback)
       else
         var rr := rescue.Chosen(action);
         && R == Joined(anchor, action, second, rr.checkpoints)
         && ExactRun(second, rescueCert(action), rr.checkpoints, anchor.prefixScore, PlanScores(m, rr.plan, row))
  }

  lemma BothRunsExact(rt: Runtime, rescue: Rescue, m: SoaModel, row: Row, cert: Certifier,
                      rescueCert: Action -> Certifier)
    returns (anchor: Shadow, action: Action, second: Shadow)
    requires Fits(rt, m) && Fits(rescue.reject, m) && Fits(rescue.refer, m) && |row| == m.nFeatures
    requires RescueSplits(rt, rescue, AnchorShadow(rt, m, row, cert).prefixScore)
    ensures anchor == AnchorShadow(rt, m, row, cert)
    ensures TwoRuns(RescueRun(rt, rescue, m, row, cert, rescueCert), anchor, action, second, rt, rescue, m, row, cert,
            rescueCert)
  {
    anchor := AnchorShadow(rt, m, row, cert);
    ShadowIsExact(rt, m, row, cert, rt.pack.baseScore, false);
    action := if anchor.fallbackUsed then rescue.route(anchor.fallbackEntry, anchor.prefixScore) else Fallback;
    second := anchor;
    if !action.Fallback? {
      var rr := rescue.Chosen(action);
      second := ReportShadow(PrefixRun(rr, m, row, rescueCert(action), anchor.prefixScore, false), rr.checkpoints);
      ShadowIsExact(rr, m, row, rescueCert(action), anchor.prefixScore, false);
    }
  }

  /** What a shadow run counts twice. */
  ghost function CountedTwice(R: RescueShadow, rt: Runtime, rescue: Rescue, m: SoaModel, row: Row): real
    requires ScoreRequires(R, rt, rescue, m, row)
  {
    if R.action.Fallback? then 0.0 else
      var idx := Found(rt.plan.order, rescue.Chosen(R.action).plan.order, R.rescueTrees);
      Overlap(PlanScores(m, rt.plan, row), AnchorMarks(|rt.plan.order|, R.anchorTrees), idx, |idx|)
  }

  ghost predicate ScoreRequires(R: RescueShadow, rt: Runtime, rescue: Rescue, m: SoaModel, row: Row) {
    && m.Valid() && |row| == m.nFeatures && rt.plan.Fits(m) && rescue.reject.plan.Fits(m) && rescue.refer.plan.Fits(m)
    && IsPermutation(m, rt.plan) && ScoreIs(R, rt, rescue, m, row)
  }

  /** Conservation, for every router action: base, plus every tree of the ensemble once, plus the
      trees that both runs added. */
  lemma RescueConserves(R: RescueShadow, rt: Runtime, rescue: Rescue, m: SoaModel, row: Row)
    requires ScoreRequires(R, rt, rescue, m, row)
    ensures ContinuedScore(R, rt, rescue, m, row) ==
            rt.pack.baseScore + Total(TreeScores(m, row)) + CountedTwice(R, rt, rescue, m, row)
  {
    var v := PlanScores(m, rt.plan, row);
    PlanTotal(m, rt.plan, row);
    if R.action.Fallback? {
      AnchorMarksSum(v, R.anchorTrees, |v|);
    } else {
      ExecutedSum(m, rt.plan, rescue.Chosen(R.action).plan, row, R.anchorTrees, R.rescueTrees);
    }
  }

  ghost predicate RescueTreesNew(R: RescueShadow, rt: Runtime, rescue: Rescue) {
    !R.action.Fallback? ==>
      && R.anchorTrees <= |rt.plan.order| && R.rescueTrees <= |rescue.Chosen(R.action).plan.order|
      && RescueIsNew(rt.plan.order, R.anchorTrees, rescue.Chosen(R.action).plan.order, R.rescueTrees)
  }

  lemma NewTreesCountOnce(R: RescueShadow, rt: Runtime, rescue: Rescue, m: SoaModel, row: Row)
    requires ScoreRequires(R, rt, rescue, m, row) && RescueTreesNew(R, rt, rescue)
    ensures CountedTwice(R, rt, rescue, m, row) == 0.0
  {
    if !R.action.Fallback? {
      var other := rescue.Chosen(R.action).plan;
      NewTreesNewPositions(m, rt.plan, other, R.anchorTrees, R.rescueTrees);
      NewHasNoOverlap(PlanScores(m, rt.plan, row), AnchorMarks(|rt.plan.order|, R.anchorTrees),
                      Found(rt.plan.order, other.order, R.rescueTrees), R.rescueTrees);
    }
  }

  /** For any tree scores: no tree is added twice if and only if the rescue trees are new. */
  lemma CountsOnceIff(m: SoaModel, plan: TreeOrder, other: TreeOrder, anchorTrees: nat, n: nat)
    requires m.Valid() && plan.Fits(m) && other.Fits(m) && IsPermutation(m, plan)
    requires anchorTrees <= |plan.order| && n <= |other.order|
    ensures var idx := Found(plan.order, other.order, n);
            && |idx| == n
            && (RescueIsNew(plan.order, anchorTrees, other.order, n) <==>
                forall v: seq<real> | |v| == |AnchorMarks(|plan.order|, anchorTrees)| ::
                  Overlap(v, AnchorMarks(|plan.order|, anchorTrees), idx, n) == 0.0)
  {
    NewTreesNewPositions(m, plan, other, anchorTrees, n);
    OverlapZeroIff(AnchorMarks(|plan.order|, anchorTrees), Found(plan.order, other.order, n), n);
  }

  /** A rescue certifier has to be right only when it answers on its own side. */
  ghost predicate SideSound(cert: Certifier, action: Action, checkpoints: seq<nat>, start: real, v: seq<real>,
                            full: real, tau: real)
  {
    forall s: Sight | ExactSight(s, checkpoints, start, v) && cert(s).Some?
        && (cert(s).value.reject <==> action.RejectRescue?) ::
      cert(s).value.reject <==> full >= tau
  }

  ghost predicate RescueSound(rescue: Rescue, rescueCert: Action -> Certifier, m: SoaModel, row: Row, start: real,
                              full: real, tau: real)
    requires m.Valid() && |row| == m.nFeatures && rescue.reject.plan.Fits(m) && rescue.refer.plan.Fits(m)
  {
    && SideSound(rescueCert(RejectRescue), RejectRescue, rescue.reject.checkpoints, start,
        PlanScores(m, rescue.reject.plan, row), full, tau)
    && SideSound(rescueCert(ReferRescue), ReferRescue, rescue.refer.checkpoints, start,
        PlanScores(m, rescue.refer.plan, row), full, tau)
  }

  /** Direct decisions of either run are right: on the wrong side, a rescue answer becomes a fallback. */
  lemma DirectDecisionsRight(R: RescueShadow, anchor: Shadow, action: Action, second: Shadow, rt: Runtime,
                             rescue: Rescue, m: SoaModel, row: Row, cert: Certifier, rescueCert: Action -> Certifier,
                             tau: real)
    requires m.Valid() && |row| == m.nFeatures && rt.plan.Fits(m) && rescue.reject.plan.Fits(m)
             && rescue.refer.plan.Fits(m)
    requires TwoRuns(R, anchor, action, second, rt, rescue, m, row, cert, rescueCert)
    requires CertifierSound(cert, rt.checkpoints, rt.pack.baseScore, PlanScores(m, rt.plan, row), tau)
    requires RescueSound(rescue, rescueCert, m, row, anchor.prefixScore,
                         rt.pack.baseScore + Total(PlanScores(m, rt.plan, row)), tau)
    ensures !R.out.fallbackUsed ==> (R.out.reject <==> rt.pack.baseScore + Total(PlanScores(m, rt.plan, row)) >= tau)
  {}

  /** A shadow run answers rightly, and what a continuation would add makes base plus every tree. */
  ghost predicate Settles(R: RescueShadow, rt: Runtime, rescue: Rescue, m: SoaModel, row: Row, tau: real) {
    && ScoreRequires(R, rt, rescue, m, row)
    && var full := rt.pack.baseScore + Total(TreeScores(m, row));
       (!R.out.fallbackUsed ==> (R.out.reject <==> full >= tau)) && ContinuedScore(R, rt, rescue, m, row) == full
  }

  lemma RescueSettles(rt: Runtime, rescue: Rescue, m: SoaModel, row: Row, cert: Certifier,
                      rescueCert: Action -> Certifier, tau: real)
    requires Fits(rt, m) && Fits(rescue.reject, m) && Fits(rescue.refer, m) && |row| == m.nFeatures
             && IsPermutation(m, rt.plan)
    requires RescueSplits(rt, rescue, AnchorShadow(rt, m, row, cert).prefixScore)
    requires CertifierSound(cert, rt.checkpoints, rt.pack.baseScore, PlanScores(m, rt.plan, row), tau)
    requires RescueSound(rescue, rescueCert, m, row, AnchorShadow(rt, m, row, cert).prefixScore,
                         rt.pack.baseScore + Total(PlanScores(m, rt.plan, row)), tau)
    requires RescueTreesNew(RescueRun(rt, rescue, m, row, cert, rescueCert), rt, rescue)
    ensures Settles(RescueRun(rt, rescue, m, row, cert, rescueCert), rt, rescue, m, row, tau)
  {
    var R := RescueRun(rt, rescue, m, row, cert, rescueCert);
    PlanTotal(m, rt.plan, row);
    var anchor, action, second := BothRunsExact(rt, rescue, m, row, cert, rescueCert);
    DirectDecisionsRight(R, anchor, action, second, rt, rescue, m, row, cert, rescueCert, tau);
    RescueConserves(R, rt, rescue, m, row);
    NewTreesCountOnce(R, rt, rescue, m, row);
  }

  /** A row through anchor, rescue and continuation. */
  method PredictAnchorRescue(rt: Runtime, rescue: Rescue, feat: Row, tau: real, cert: Certifier,
                             rescueCert: Action -> Certifier, scratch: Scratch, nHot: nat, ghost m: SoaModel)
    returns (r: Result<(real, bool)>)
    requires Fits(rt, m) && Fits(rescue.reject, m) && Fits(rescue.refer, m) && |feat| == m.nFeatures
             && IsPermutation(m, rt.plan)
    requires scratch.Sized(m.nFeatures, nHot) && (rt.hotPack.Some? ==> nHot == |rt.hotPack.value.hotGlobalFidx|)
    requires RescueSplits(rt, rescue, AnchorShadow(rt, m, feat, cert).prefixScore)
    requires CertifierSound(cert, rt.checkpoints, rt.pack.baseScore, PlanScores(m, rt.plan, feat), tau)
    requires RescueSound(rescue, rescueCert, m, feat, AnchorShadow(rt, m, feat, cert).prefixScore,
                         rt.pack.baseScore + Total(PlanScores(m, rt.plan, feat)), tau)
    requires RescueTreesNew(RescueRun(rt, rescue, m, feat, cert, rescueCert), rt, rescue)
    modifies scratch.Footprint()
    ensures r.Ok? && (r.value.1 <==> rt.pack.baseScore + Total(TreeScores(m, feat)) >= tau)
    ensures var R := RescueRun(rt, rescue, m, feat, cert, rescueCert);
            r.value.0 == if R.out.fallbackUsed then rt.pack.baseScore + Total(TreeScores(m, feat)) else R.out.routeScore
  {
    RescueSettles(rt, rescue, m, feat, cert, rescueCert, tau);
    var shadow := RunAnchorRescue(rt, rescue, feat, cert, rescueCert, scratch, nHot, m);
    if !shadow.value.out.fallbackUsed {
      return Ok((shadow.value.out.routeScore, shadow.value.out.reject));
    }
    var done := ContinueRescue(rt, rescue, feat, tau, shadow.value, scratch, m);
    r := Ok((done.value.0, done.value.1));
  }
}
