/** Walking trees in plan order with early exits: the suffix-bound exit, the calibrated approximate
    exit, and the float, missing-aware and rank-quantised ways of walking a tree. */
module Traversal {
  import opened Forest
  import opened Search
  import opened EpochCaches

  datatype InferMode =
    | RouteFast | MarginExact | RouteExactReordered | MarginExactReordered
    | RouteApprox | L2RouteExactReordered | L2RouteApprox

  predicate IsRouteMode(mode: InferMode) {
    mode.RouteFast? || mode.RouteExactReordered? || mode.L2RouteExactReordered?
  }

  predicate IsApproxMode(mode: InferMode) { mode.RouteApprox? || mode.L2RouteApprox? }

  datatype ApproxPolicy = ApproxPolicy(
    usedCheckpoints: seq<nat>, tauRef: seq<Option<real>>, tauPositive: seq<Option<real>>, kHot: nat)
  {
    predicate Valid() { |usedCheckpoints| == |tauRef| == |tauPositive| }
  }

  datatype RowMeta = RowMeta(approxPass: bool, approxRefer: bool, checkpointIdx: int)

  const NO_META := RowMeta(false, false, -1)

  datatype Exit = Exit(score: real, pass: bool, visited: nat, meta: RowMeta)

  datatype Settings = Settings(
    threshold: real, mode: InferMode, approx: Option<ApproxPolicy>, eps: real, guard: real, every: nat)
  {
    predicate Valid() { every >= 1 && (approx.Some? ==> approx.value.Valid()) }
  }

  function MaybeExactExit(score: real, threshold: real, suffixMin: real, suffixMax: real, eps: real,
                          guard: real): Option<bool>
  {
    if score + suffixMin >= threshold + eps + guard then Some(true)
    else if score + suffixMax < threshold - eps - guard then Some(false)
    else None
  }

  /** The approximate exit at a checkpoint; the second result is the next checkpoint index. */
  function MaybeApproxExit(score: real, threshold: real, visited: nat, policy: ApproxPolicy,
                           cpIdx: nat): (Option<(bool, RowMeta)>, nat)
    requires policy.Valid()
  {
    if cpIdx >= |policy.usedCheckpoints| || policy.usedCheckpoints[cpIdx] != visited then (None, cpIdx)
    else if policy.tauRef[cpIdx].Some? && score - threshold <= policy.tauRef[cpIdx].value then
      (Some((false, RowMeta(false, true, cpIdx))), cpIdx + 1)
    else if policy.tauPositive[cpIdx].Some? && score - threshold >= policy.tauPositive[cpIdx].value then
      (Some((true, RowMeta(true, false, cpIdx))), cpIdx + 1)
    else (None, cpIdx + 1)
  }

  predicate ChecksBounds(s: Settings, nTrees: nat, mEnd: nat)
    requires s.Valid()
  {
    IsRouteMode(s.mode) && (mEnd % s.every == 0 || mEnd == nTrees)
  }

  /** What happens after the tree at position `mEnd - 1` has been added. */
  function AfterTree(s: Settings, plan: TreeOrder, score: real, mEnd: nat, cpIdx: nat): (Option<Exit>, nat)
    requires s.Valid() && |plan.suffixMin| == |plan.suffixMax| == |plan.order| + 1 && mEnd <= |plan.order|
  {
    var exact := if ChecksBounds(s, |plan.order|, mEnd)
                 then MaybeExactExit(score, s.threshold, plan.suffixMin[mEnd], plan.suffixMax[mEnd], s.eps, s.guard)
                 else None;
    if exact.Some? then (Some(Exit(score, exact.value, mEnd, NO_META)), cpIdx)
    else if IsApproxMode(s.mode) && s.approx.Some? then
      var (approx, next) := MaybeApproxExit(score, s.threshold, mEnd, s.approx.value, cpIdx);
      (if approx.Some? then Some(Exit(score, approx.value.0, mEnd, approx.value.1)) else None, next)
    else (None, cpIdx)
  }

  /** The traversal over tree scores `v`, from position `pos` with the score so far. */
  function Traverse(s: Settings, plan: TreeOrder, v: seq<real>, pos: nat, score: real, cpIdx: nat): Exit
    requires s.Valid() && |plan.suffixMin| == |plan.suffixMax| == |plan.order| + 1 == |v| + 1 && pos <= |v|
    decreases |v| - pos
  {
    if pos == |v| then Exit(score, score >= s.threshold, pos, NO_META) else
      var (exit, next) := AfterTree(s, plan, score + v[pos], pos + 1, cpIdx);
      if exit.Some? then exit.value else Traverse(s, plan, v, pos + 1, score + v[pos], next)
  }

  // ---------------------------------------------------------------- early exit is exact

  /** Stopping on a suffix bound never changes the decision, and the count of visited trees and
      the prefix score it reports are those of the position where it stopped. */
  lemma {:induction false} EarlyExitKeepsDecision(s: Settings, plan: TreeOrder, v: seq<real>, pos: nat, score: real,
                                                  cpIdx: nat)
    requires s.Valid() && s.eps >= 0.0 && s.guard >= 0.0 && !IsApproxMode(s.mode)
    requires |plan.order| == |v| && BoundsCover(plan, v) && pos <= |v|
    ensures var exit := Traverse(s, plan, v, pos, score, cpIdx);
            && (exit.pass <==> score + Total(v) - Sum(v, pos) >= s.threshold)
            && pos <= exit.visited <= |v|
            && exit.score == score + Sum(v, exit.visited) - Sum(v, pos)
            && exit.meta == NO_META
    decreases |v| - pos
  {
    if pos == |v| {
    } else {
      var (exit, next) := AfterTree(s, plan, score + v[pos], pos + 1, cpIdx);
      if exit.None? {
        EarlyExitKeepsDecision(s, plan, v, pos + 1, score + v[pos], next);
      }
    }
  }

  /** In any mode: an exit that no approximate checkpoint took is exact. */
  lemma {:induction false} OnlyApproxExitsMayErr(s: Settings, plan: TreeOrder, v: seq<real>, pos: nat, score: real,
                                                 cpIdx: nat)
    requires s.Valid() && s.eps >= 0.0 && s.guard >= 0.0
    requires |plan.order| == |v| && BoundsCover(plan, v) && pos <= |v|
    ensures var exit := Traverse(s, plan, v, pos, score, cpIdx);
            || (exit.pass <==> score + Total(v) - Sum(v, pos) >= s.threshold)
            || (&& IsApproxMode(s.mode) && s.approx.Some?
                && 0 <= exit.meta.checkpointIdx < |s.approx.value.usedCheckpoints|
                && s.approx.value.usedCheckpoints[exit.meta.checkpointIdx] == exit.visited
                && exit.meta.approxPass == exit.pass && exit.meta.approxRefer == !exit.pass)
    decreases |v| - pos
  {
    if pos == |v| {
    } else {
      var (exit, next) := AfterTree(s, plan, score + v[pos], pos + 1, cpIdx);
      if exit.None? {
        OnlyApproxExitsMayErr(s, plan, v, pos + 1, score + v[pos], next);
      }
    }
  }

  // ---------------------------------------------------------------- where a run stops

  /** The score when `m` trees have been added, of which those from `pos` on come on top of `score`. */
  function ScoreAfter(v: seq<real>, pos: nat, score: real, m: nat): real
    requires pos <= |v| && m <= |v|
  {
    score + Sum(v, m) - Sum(v, pos)
  }

  /** Whatever is still to come, the row passes; or it does not. */
  predicate Sure(s: Settings, plan: TreeOrder, score: real, m: nat)
    requires m < |plan.suffixMin|
  {
    score + plan.suffixMin[m] >= s.threshold + s.eps + s.guard
  }

  predicate Hopeless(s: Settings, plan: TreeOrder, score: real, m: nat)
    requires m < |plan.suffixMax|
  {
    score + plan.suffixMax[m] < s.threshold - s.eps - s.guard
  }

  /** The bounds are looked at after `m` trees, and decide. */
  predicate Decided(s: Settings, plan: TreeOrder, score: real, m: nat)
    requires s.Valid() && m < |plan.suffixMin| && m < |plan.suffixMax|
  {
    (m % s.every == 0 || m == |plan.order|) && (Sure(s, plan, score, m) || Hopeless(s, plan, score, m))
  }

  /** The exit is at the first place where the bounds decide, as they do; or, if there is none, after all trees. */
  ghost predicate FirstDecided(s: Settings, plan: TreeOrder, v: seq<real>, pos: nat, score: real, e: Exit)
    requires s.Valid() && |plan.suffixMin| == |plan.suffixMax| == |v| + 1 && pos <= |v|
  {
    && pos <= e.visited <= |v| && e.score == ScoreAfter(v, pos, score, e.visited) && e.meta == NO_META
    && (forall m | pos < m < e.visited :: !Decided(s, plan, ScoreAfter(v, pos, score, m), m))
    && if pos < e.visited && Decided(s, plan, e.score, e.visited) then e.pass <==> Sure(s, plan, e.score, e.visited)
       else e.visited == |v| && (e.pass <==> e.score >= s.threshold)
  }

  /** In a mode with bounds the traversal exits where they first decide. */
  lemma {:induction false} BoundExit(s: Settings, plan: TreeOrder, v: seq<real>, pos: nat, score: real, cpIdx: nat)
    requires s.Valid() && pos <= |v|
    requires s.mode.RouteFast? || s.mode.RouteExactReordered? || s.mode.L2RouteExactReordered?
    requires |plan.suffixMin| == |plan.suffixMax| == |plan.order| + 1 == |v| + 1
    ensures FirstDecided(s, plan, v, pos, score, Traverse(s, plan, v, pos, score, cpIdx))
    decreases |v| - pos
  {
    if pos == |v| {
    } else {
      var score' := score + v[pos];
      assert forall m | 0 <= m <= |v| :: ScoreAfter(v, pos + 1, score', m) == ScoreAfter(v, pos, score, m);
      assert ScoreAfter(v, pos, score, pos + 1) == score';
      if !Decided(s, plan, score', pos + 1) {
        BoundExit(s, plan, v, pos + 1, score', cpIdx);
      }
    }
  }

  /** Without bounds and checkpoints it adds all trees. */
  lemma {:induction false} PlainExit(s: Settings, plan: TreeOrder, v: seq<real>, pos: nat, score: real, cpIdx: nat)
    requires s.Valid() && pos <= |v|
    requires s.mode.MarginExact? || s.mode.MarginExactReordered?
             || ((s.mode.RouteApprox? || s.mode.L2RouteApprox?) && s.approx.None?)
    requires |plan.suffixMin| == |plan.suffixMax| == |plan.order| + 1 == |v| + 1
    ensures var all := ScoreAfter(v, pos, score, |v|);
            Traverse(s, plan, v, pos, score, cpIdx) == Exit(all, all >= s.threshold, |v|, NO_META)
    decreases |v| - pos
  {
    if pos == |v| {
    } else {
      PlainExit(s, plan, v, pos + 1, score + v[pos], cpIdx);
    }
  }

  /** Checkpoint `k` refers rows whose margin is at most its reference bound ... */
  predicate Refers(s: Settings, k: nat, score: real)
    requires s.Valid() && s.approx.Some? && k < |s.approx.value.usedCheckpoints|
  {
    s.approx.value.tauRef[k].Some? && score - s.threshold <= s.approx.value.tauRef[k].value
  }

  /** ... and passes rows whose margin is at least its positive bound. */
  predicate Passes(s: Settings, k: nat, score: real)
    requires s.Valid() && s.approx.Some? && k < |s.approx.value.usedCheckpoints|
  {
    s.approx.value.tauPositive[k].Some? && score - s.threshold >= s.approx.value.tauPositive[k].value
  }

  /** The tree count after which checkpoint `j` is waited for. */
  function Before(used: seq<nat>, c: nat, pos: nat, j: nat): nat
    requires c <= j <= |used|
  {
    if j == c then pos else used[j - 1]
  }

  /** The checkpoints from `c` up to `n` are those a run comes to, one after the other, when tree counts go from
      `pos` up to `upto`. */
  ghost predicate ComesTo(used: seq<nat>, c: nat, pos: nat, upto: nat, n: nat) {
    && c <= n && (c < n ==> n <= |used|)
    && (forall j | c <= j < n :: Before(used, c, pos, j) < used[j] <= upto)
    && (n < |used| ==> !(Before(used, c, pos, n) < used[n] <= upto))
  }

  /** No checkpoint from `c` up to `n` before tree count `m` would have stopped the run. */
  ghost predicate NoneMet(s: Settings, v: seq<real>, pos: nat, score: real, c: nat, n: nat, m: nat)
    requires s.Valid() && s.approx.Some? && pos <= |v|
  {
    forall j | c <= j < n && j < |s.approx.value.usedCheckpoints| && s.approx.value.usedCheckpoints[j] < m <= |v| + 1 ::
      var at := ScoreAfter(v, pos, score, s.approx.value.usedCheckpoints[j]);
      !Refers(s, j, at) && !Passes(s, j, at)
  }

  /** The exit is at the last checkpoint come to, which refers the row, or else passes it; none before it does. */
  ghost predicate FirstMet(s: Settings, v: seq<real>, pos: nat, score: real, c: nat, n: nat, e: Exit)
    requires s.Valid() && s.approx.Some? && pos <= |v|
  {
    && c < n <= |s.approx.value.usedCheckpoints| && pos < e.visited <= |v|
    && ComesTo(s.approx.value.usedCheckpoints, c, pos, e.visited, n)
    && s.approx.value.usedCheckpoints[n - 1] == e.visited && e.score == ScoreAfter(v, pos, score, e.visited)
    && e.meta == RowMeta(e.pass, !e.pass, n - 1)
    && (if e.pass then Passes(s, n - 1, e.score) && !Refers(s, n - 1, e.score) else Refers(s, n - 1, e.score))
    && NoneMet(s, v, pos, score, c, n, e.visited)
  }

  /** No checkpoint come to up to this tree count would have stopped the run. */
  ghost predicate NothingMet(s: Settings, v: seq<real>, pos: nat, score: real, c: nat, n: nat, upto: nat)
    requires s.Valid() && s.approx.Some? && pos <= |v|
  {
    ComesTo(s.approx.value.usedCheckpoints, c, pos, upto, n) && NoneMet(s, v, pos, score, c, n, upto + 1)
  }

  /** Waiting for checkpoint `c` at one more tree. */
  lemma ComesOneLater(used: seq<nat>, c: nat, pos: nat, upto: nat, n: nat)
    requires pos < upto
    requires if c < |used| && used[c] == pos + 1 then ComesTo(used, c + 1, pos + 1, upto, n)
             else ComesTo(used, c, pos + 1, upto, n)
    ensures ComesTo(used, c, pos, upto, n)
  {
    if c < |used| && used[c] == pos + 1 {
      forall j | c <= j < n ensures Before(used, c, pos, j) < used[j] <= upto {
        if j > c { assert Before(used, c, pos, j) == Before(used, c + 1, pos + 1, j); }
      }
    } else {
      forall j | c <= j < n ensures Before(used, c, pos, j) < used[j] <= upto {
        assert Before(used, c, pos + 1, j) < used[j];
      }
    }
  }

  /** The run does not stop after its next tree, and then waits for checkpoint `c'`. */
  ghost predicate GoesOn(s: Settings, v: seq<real>, pos: nat, score: real, c: nat, c': nat)
    requires s.Valid() && s.approx.Some? && pos < |v|
  {
    var used := s.approx.value.usedCheckpoints;
    if c < |used| && used[c] == pos + 1
    then c' == c + 1 && !Refers(s, c, score + v[pos]) && !Passes(s, c, score + v[pos]) else c' == c
  }

  /** Then the rest of the run tells where the whole one stops. */
  lemma MetOneLater(s: Settings, v: seq<real>, pos: nat, score: real, c: nat, c': nat, n: nat, m: nat)
    requires s.Valid() && s.approx.Some? && pos < |v| && GoesOn(s, v, pos, score, c, c')
    requires NoneMet(s, v, pos + 1, score + v[pos], c', n, m)
    ensures NoneMet(s, v, pos, score, c, n, m)
  {
    var used := s.approx.value.usedCheckpoints;
    forall j | c <= j < n && j < |used| && used[j] < m <= |v| + 1
      ensures var at := ScoreAfter(v, pos, score, used[j]); !Refers(s, j, at) && !Passes(s, j, at)
    {
      assert ScoreAfter(v, pos + 1, score + v[pos], used[j]) == ScoreAfter(v, pos, score, used[j]);
    }
  }

  lemma FirstMetLater(s: Settings, v: seq<real>, pos: nat, score: real, c: nat, c': nat, n: nat, e: Exit)
    requires s.Valid() && s.approx.Some? && pos < |v| && GoesOn(s, v, pos, score, c, c')
    requires FirstMet(s, v, pos + 1, score + v[pos], c', n, e)
    ensures FirstMet(s, v, pos, score, c, n, e)
  {
    ComesOneLater(s.approx.value.usedCheckpoints, c, pos, e.visited, n);
    MetOneLater(s, v, pos, score, c, c', n, e.visited);
  }

  lemma NothingMetLater(s: Settings, v: seq<real>, pos: nat, score: real, c: nat, c': nat, n: nat, upto: nat)
    requires s.Valid() && s.approx.Some? && pos < |v| && pos < upto && GoesOn(s, v, pos, score, c, c')
    requires NothingMet(s, v, pos + 1, score + v[pos], c', n, upto)
    ensures NothingMet(s, v, pos, score, c, n, upto)
  {
    ComesOneLater(s.approx.value.usedCheckpoints, c, pos, upto, n);
    MetOneLater(s, v, pos, score, c, c', n, upto + 1);
  }

  /** What a checkpoint does to the run after tree `pos`: it stops it, or the run goes on. */
  lemma ApproxStep(s: Settings, v: seq<real>, pos: nat, score: real, c: nat)
    requires s.Valid() && s.approx.Some? && pos < |v|
    ensures var (approx, next) := MaybeApproxExit(score + v[pos], s.threshold, pos + 1, s.approx.value, c);
            if approx.None? then GoesOn(s, v, pos, score, c, next)
            else FirstMet(s, v, pos, score, c, c + 1, Exit(score + v[pos], approx.value.0, pos + 1, approx.value.1))
  {
    assert score + v[pos] == ScoreAfter(v, pos, score, pos + 1);
  }

  /** The exit is at the first checkpoint that refers or passes the row, as it does; or, if none does, after all
      trees. */
  ghost predicate ApproxStop(s: Settings, v: seq<real>, pos: nat, score: real, c: nat, n: nat, e: Exit)
    requires s.Valid() && s.approx.Some? && pos <= |v|
  {
    var all := ScoreAfter(v, pos, score, |v|);
    if e.meta != NO_META then FirstMet(s, v, pos, score, c, n, e)
    else e == Exit(all, all >= s.threshold, |v|, NO_META) && NothingMet(s, v, pos, score, c, n, |v|)
  }

  lemma ApproxStopLater(s: Settings, v: seq<real>, pos: nat, score: real, c: nat, c': nat, n: nat, e: Exit)
    requires s.Valid() && s.approx.Some? && pos < |v| && GoesOn(s, v, pos, score, c, c')
    requires ApproxStop(s, v, pos + 1, score + v[pos], c', n, e)
    ensures ApproxStop(s, v, pos, score, c, n, e)
  {
    if e.meta != NO_META {
      FirstMetLater(s, v, pos, score, c, c', n, e);
    } else {
      NothingMetLater(s, v, pos, score, c, c', n, |v|);
    }
  }

  lemma ApproxStopEnd(s: Settings, v: seq<real>, score: real, c: nat)
    requires s.Valid() && s.approx.Some?
    ensures ApproxStop(s, v, |v|, score, c, c, Exit(score, score >= s.threshold, |v|, NO_META))
  {}

  lemma ApproxStopNow(s: Settings, v: seq<real>, pos: nat, score: real, c: nat, e: Exit)
    requires s.Valid() && s.approx.Some? && pos < |v| && FirstMet(s, v, pos, score, c, c + 1, e)
    ensures ApproxStop(s, v, pos, score, c, c + 1, e)
  {}

  lemma OneTree(s: Settings, plan: TreeOrder, v: seq<real>, pos: nat, score: real, c: nat)
    requires s.Valid() && (s.mode.RouteApprox? || s.mode.L2RouteApprox?) && s.approx.Some? && pos < |v|
    requires |plan.suffixMin| == |plan.suffixMax| == |plan.order| + 1 == |v| + 1
    ensures var (approx, next) := MaybeApproxExit(score + v[pos], s.threshold, pos + 1, s.approx.value, c);
            Traverse(s, plan, v, pos, score, c) ==
            if approx.Some? then Exit(score + v[pos], approx.value.0, pos + 1, approx.value.1)
            else Traverse(s, plan, v, pos + 1, score + v[pos], next)
  {}

  /** In an approximate mode the traversal stops there. */
  lemma {:induction false} ApproxExit(s: Settings, plan: TreeOrder, v: seq<real>, pos: nat, score: real, c: nat)
    returns (n: nat)
    requires s.Valid() && (s.mode.RouteApprox? || s.mode.L2RouteApprox?) && s.approx.Some? && pos <= |v|
    requires |plan.suffixMin| == |plan.suffixMax| == |plan.order| + 1 == |v| + 1
    ensures ApproxStop(s, v, pos, score, c, n, Traverse(s, plan, v, pos, score, c))
    decreases |v| - pos
  {
    if pos == |v| {
      ApproxStopEnd(s, v, score, c);
      n := c;
    } else {
      ApproxStep(s, v, pos, score, c);
      OneTree(s, plan, v, pos, score, c);
      var (approx, next) := MaybeApproxExit(score + v[pos], s.threshold, pos + 1, s.approx.value, c);
      if approx.Some? {
        n := c + 1;
        ApproxStopNow(s, v, pos, score, c, Exit(score + v[pos], approx.value.0, pos + 1, approx.value.1));
      } else {
        n := ApproxExit(s, plan, v, pos + 1, score + v[pos], next);
        ApproxStopLater(s, v, pos, score, c, next, n, Traverse(s, plan, v, pos + 1, score + v[pos], next));
      }
    }
  }

  // ---------------------------------------------------------------- rank packs

  datatype RankPack = RankPack(nodeThrRank: seq<int>, featOffset: seq<nat>, featCount: seq<nat>,
                               thresholds: seq<real>) {
    ghost predicate Fits(m: SoaModel)
      requires m.Valid()
    {
      && |nodeThrRank| == m.NodeCount() && |featOffset| == |featCount| == m.nFeatures
      && (forall f: nat | f < m.nFeatures :: featOffset[f] + featCount[f] <= |thresholds| && Sorted(Values(f)))
      && (forall i: nat | i < m.NodeCount() && !m.isLeaf[i] :: NodeRanked(m, i))
    }

    function Values(f: nat): seq<real>
      requires f < |featOffset| == |featCount| && featOffset[f] + featCount[f] <= |thresholds|
    {
      thresholds[featOffset[f]..featOffset[f] + featCount[f]]
    }

    /** The stored rank of a split is the index of its threshold. */
    ghost predicate NodeRanked(m: SoaModel, i: nat)
      requires m.Valid() && |nodeThrRank| == m.NodeCount() && |featOffset| == |featCount| == m.nFeatures
      requires forall f: nat | f < m.nFeatures :: featOffset[f] + featCount[f] <= |thresholds|
      requires i < m.NodeCount() && !m.isLeaf[i]
    {
      assert m.SplitOk(i);
      var vals := Values(m.fidx[i]);
      0 <= nodeThrRank[i] < |vals| && vals[nodeThrRank[i]] == m.thr[i]
    }
  }

  /** The rank of every feature of a row; missing features are never ranked. */
  function RowRanks(pack: RankPack, m: SoaModel, row: Row): seq<nat>
    requires m.Valid() && pack.Fits(m) && |row| == m.nFeatures
  {
    seq(|row|, f requires 0 <= f < |row| => if row[f].NaN? then 0 else CountAtMost(pack.Values(f), row[f].v))
  }

  method CachedRank(pack: RankPack, m: SoaModel, cache: EpochCache<nat>, feat: Row, f: nat) returns (rank: nat)
    requires m.Valid() && pack.Fits(m) && |feat| == m.nFeatures && f < |feat| && feat[f].Num?
    requires cache.Holds(RowRanks(pack, m, feat))
    modifies cache.values, cache.stamps
    ensures cache.Holds(RowRanks(pack, m, feat))
    ensures rank == CountAtMost(pack.Values(f), feat[f].v)
  {
    if cache.stamps[f] == cache.epoch {
      return cache.values[f];
    }
    rank := UpperBound(pack.Values(f), feat[f].v);
    cache.Store(f, rank, RowRanks(pack, m, feat));
  }

  /** One tree, as the generic traversal walks it: missing, then rank if there is one, then float. */
  method WalkTree(m: SoaModel, pack: Option<RankPack>, cache: EpochCache?<nat>, feat: Row, root: nat) returns (idx: nat)
    requires m.Valid() && |feat| == m.nFeatures && root < m.NodeCount()
    requires pack.Some? && cache != null ==> pack.value.Fits(m) && cache.Holds(RowRanks(pack.value, m, feat))
    modifies if cache != null then {cache.values as object, cache.stamps} else {}
    ensures pack.Some? && cache != null ==> cache.Holds(RowRanks(pack.value, m, feat))
    ensures idx == Walk(m, feat, root)
  {
    idx := root;
    while !m.isLeaf[idx]
      invariant idx < m.NodeCount() && Walk(m, feat, idx) == Walk(m, feat, root)
      invariant pack.Some? && cache != null ==> cache.Holds(RowRanks(pack.value, m, feat))
      decreases m.NodeCount() - idx
    {
      assert m.SplitOk(idx);
      var f := m.fidx[idx];
      match feat[f] {
        case NaN => idx := m.missing[idx];
        case Num(x) =>
          if pack.Some? && cache != null {
            assert pack.value.NodeRanked(m, idx);
            var rank := CachedRank(pack.value, m, cache, feat, f);
            RankDecides(pack.value.Values(f), x, pack.value.nodeThrRank[idx]);
            idx := if rank <= pack.value.nodeThrRank[idx] then m.left[idx] else m.right[idx];
          } else {
            idx := if x < m.thr[idx] then m.left[idx] else m.right[idx];
          }
      }
    }
  }

  method TraverseGenericFrom(m: SoaModel, pack: Option<RankPack>, cache: EpochCache?<nat>, feat: Row, s: Settings,
                             init: real, plan: TreeOrder, start: nat)
    returns (exit: Exit)
    requires m.Valid() && |feat| == m.nFeatures && plan.Fits(m) && s.Valid() && start <= |plan.order|
    requires pack.Some? && cache != null ==> pack.value.Fits(m) && cache.Holds(RowRanks(pack.value, m, feat))
    modifies if cache != null then {cache.values as object, cache.stamps} else {}
    ensures pack.Some? && cache != null ==> cache.Holds(RowRanks(pack.value, m, feat))
    ensures exit == Traverse(s, plan, PlanScores(m, plan, feat), start, init, 0)
  {
    ghost var v := PlanScores(m, plan, feat);
    var score, cpIdx := init, 0;
    for pos := start to |plan.order|
      invariant pack.Some? && cache != null ==> cache.Holds(RowRanks(pack.value, m, feat))
      invariant Traverse(s, plan, v, start, init, 0) == Traverse(s, plan, v, pos, score, cpIdx)
    {
      var idx := WalkTree(m, pack, cache, feat, m.treeRoots[plan.order[pos]]);
      score := score + m.leaf[idx];
      var (done, next) := AfterTree(s, plan, score, pos + 1, cpIdx);
      if done.Some? {
        return done.value;
      }
      cpIdx := next;
    }
    return Exit(score, score >= s.threshold, |plan.order|, NO_META);
  }

  method TraverseFloatNomissFrom(m: SoaModel, feat: Row, s: Settings, init: real, plan: TreeOrder, start: nat)
    returns (exit: Exit)
    requires m.Valid() && |feat| == m.nFeatures && plan.Fits(m) && s.Valid() && start <= |plan.order|
    ensures exit == Traverse(s, plan, PlanScores(MissingRight(m), plan, feat), start, init, 0)
  {
    ghost var v := PlanScores(MissingRight(m), plan, feat);
    var score, cpIdx := init, 0;
    for pos := start to |plan.order|
      invariant Traverse(s, plan, v, start, init, 0) == Traverse(s, plan, v, pos, score, cpIdx)
    {
      var idx := WalkNomiss(m, feat, m.treeRoots[plan.order[pos]]);
      score := score + m.leaf[idx];
      var (done, next) := AfterTree(s, plan, score, pos + 1, cpIdx);
      if done.Some? {
        return done.value;
      }
      cpIdx := next;
    }
    return Exit(score, score >= s.threshold, |plan.order|, NO_META);
  }

  method WalkNomiss(m: SoaModel, feat: Row, root: nat) returns (idx: nat)
    requires m.Valid() && |feat| == m.nFeatures && root < m.NodeCount()
    ensures idx == Walk(MissingRight(m), feat, root)
  {
    idx := root;
    while !m.isLeaf[idx]
      invariant idx < m.NodeCount() && Walk(MissingRight(m), feat, idx) == Walk(MissingRight(m), feat, root)
      decreases m.NodeCount() - idx
    {
      assert m.SplitOk(idx);
      idx := if IsBelow(feat[m.fidx[idx]], m.thr[idx]) then m.left[idx] else m.right[idx];
    }
  }

  /** One row through the cache, whatever it held before. */
  method TraverseRow(m: SoaModel, pack: RankPack, cache: EpochCache<nat>, row: Row, s: Settings, base: real,
                     plan: TreeOrder)
    returns (exit: Exit)
    requires m.Valid() && pack.Fits(m) && plan.Fits(m) && s.Valid() && |row| == m.nFeatures
    requires cache.Valid() && cache.values.Length == m.nFeatures
    modifies cache, cache.values, cache.stamps
    ensures cache.Valid() && exit == Traverse(s, plan, PlanScores(m, plan, row), 0, base, 0)
  {
    cache.NextRow();
    assert cache.Holds(RowRanks(pack, m, row));
    exit := TraverseGenericFrom(m, Some(pack), cache, row, s, base, plan, 0);
  }

  /** Any run of rows through one cache, starting from any epoch: every row is scored as if alone. */
  method TraverseRows(m: SoaModel, pack: RankPack, cache: EpochCache<nat>, rows: seq<Row>, s: Settings, base: real,
                      plan: TreeOrder)
    returns (exits: seq<Exit>)
    requires m.Valid() && pack.Fits(m) && plan.Fits(m) && s.Valid()
    requires forall row | row in rows :: |row| == m.nFeatures
    requires cache.Valid() && cache.values.Length == m.nFeatures
    modifies cache, cache.values, cache.stamps
    ensures |exits| == |rows| && cache.Valid()
    ensures forall r | 0 <= r < |rows| :: exits[r] == Traverse(s, plan, PlanScores(m, plan, rows[r]), 0, base, 0)
  {
    exits := [];
    for r := 0 to |rows|
      invariant |exits| == r && cache.Valid()
      invariant forall q | 0 <= q < r :: exits[q] == Traverse(s, plan, PlanScores(m, plan, rows[q]), 0, base, 0)
    {
      var exit := TraverseRow(m, pack, cache, rows[r], s, base, plan);
      exits := exits + [exit];
    }
  }
}
