/** Checkpoint ladders: a prefix run evaluates trees in order and stops at checkpoints, where a
    handler asks a certifier whether the decision can already be made. */
module Ladders {
  import opened Forest
  import opened Tallies

  /** What a certifier may look at. */
  datatype Sight = Sight(
    cpIdx: nat, checkpoint: nat, score: real, work: nat, resolved: nat, deltaPrev: real, deltaFrom64: real)

  datatype Verdict = Verdict(reject: bool, routeScore: real)

  type Certifier = Sight -> Option<Verdict>

  /** The variables the checkpoint closure carries from one checkpoint to the next. */
  datatype HandlerState = HandlerState(last: real, at64: Option<real>, decision: Option<(Verdict, nat)>)

  function Look(init: real, st: HandlerState, cpIdx: nat, checkpoint: nat, t: Tally): Sight {
    Sight(cpIdx, checkpoint, t.score, t.work, t.resolved,
          if cpIdx == 0 then t.score - init else t.score - st.last,
          if st.at64.Some? then t.score - st.at64.value else 0.0)
  }

  function Handle(cert: Certifier, init: real, st: HandlerState, cpIdx: nat, checkpoint: nat, t: Tally): HandlerState {
    var verdict := cert(Look(init, st, cpIdx, checkpoint, t));
    HandlerState(t.score, if checkpoint == 64 then Some(t.score) else st.at64,
                 if verdict.Some? then Some((verdict.value, checkpoint)) else st.decision)
  }

  predicate Stops(cert: Certifier, init: real, st: HandlerState, cpIdx: nat, checkpoint: nat, t: Tally) {
    cert(Look(init, st, cpIdx, checkpoint, t)).Some?
  }

  class CheckpointHandler {
    const cert: Certifier
    const init: real
    var st: HandlerState

    constructor (cert: Certifier, init: real)
      ensures this.cert == cert && this.init == init && st == HandlerState(init, None, None)
    {
      this.cert := cert;
      this.init := init;
      st := HandlerState(init, None, None);
    }

    method OnCheckpoint(cpIdx: nat, checkpoint: nat, t: Tally) returns (stop: bool)
      modifies this
      ensures st == Handle(cert, init, old(st), cpIdx, checkpoint, t)
      ensures stop == Stops(cert, init, old(st), cpIdx, checkpoint, t)
    {
      var deltaPrev := if cpIdx == 0 then t.score - init else t.score - st.last;
      var deltaFrom64 := if st.at64.Some? then t.score - st.at64.value else 0.0;
      st := st.(at64 := if checkpoint == 64 then Some(t.score) else st.at64, last := t.score);
      var verdict := cert(Sight(cpIdx, checkpoint, t.score, t.work, t.resolved, deltaPrev, deltaFrom64));
      if verdict.Some? {
        st := st.(decision := Some((verdict.value, checkpoint)));
        return true;
      }
      return false;
    }
  }

  /** The checks every prefix kernel makes on its checkpoints. */
  predicate ValidLadder(cps: seq<nat>, nTrees: nat) {
    && |cps| > 0
    && (forall k | 0 <= k < |cps| :: 0 < cps[k] <= nTrees)
    && (forall j, k | 0 <= j < k < |cps| :: cps[j] < cps[k])
  }

  method CheckLadder(cps: seq<nat>, nTrees: nat) returns (ok: bool)
    ensures ok == ValidLadder(cps, nTrees)
  {
    if |cps| == 0 {
      return false;
    }
    var prev := 0;
    for k := 0 to |cps|
      invariant forall j | 0 <= j < k :: 0 < cps[j] <= prev && cps[j] <= nTrees
      invariant forall i, j | 0 <= i < j < k :: cps[i] < cps[j]
      invariant prev == if k == 0 then 0 else cps[k - 1]
    {
      if cps[k] == 0 || cps[k] > nTrees {
        return false;
      }
      if cps[k] <= prev {
        assert k > 0 && !(cps[k - 1] < cps[k]);
        return false;
      }
      prev := cps[k];
    }
    return true;
  }

  /** Where a run ends: its tally, the trees it used, and the handler's state. */
  datatype Ascent = Ascent(tally: Tally, trees: nat, st: HandlerState)

  /** A run after `pos` trees, heading for checkpoint `k`; `idx` gives each checkpoint its number
      among all the checkpoints of the calibration. */
  function Climb(cert: Certifier, init: real, st: HandlerState, idx: seq<nat>, cps: seq<nat>, k: nat, t: Tally,
                 evals: seq<TreeEval>, pos: nat): Ascent
    requires |idx| == |cps| && k < |cps| && ValidLadder(cps, |evals|) && pos <= cps[k]
    decreases |cps| - k
  {
    var reached := Run(t, evals, pos, cps[k]);
    var st' := Handle(cert, init, st, idx[k], cps[k], reached);
    if Stops(cert, init, st, idx[k], cps[k], reached) || k + 1 == |cps| then Ascent(reached, cps[k], st')
    else Climb(cert, init, st', idx, cps, k + 1, reached, evals, cps[k])
  }

  lemma ClimbOneTree(cert: Certifier, init: real, st: HandlerState, idx: seq<nat>, cps: seq<nat>, k: nat, t: Tally,
                     evals: seq<TreeEval>, pos: nat)
    requires |idx| == |cps| && k < |cps| && ValidLadder(cps, |evals|) && pos < cps[k]
    ensures Climb(cert, init, st, idx, cps, k, t, evals, pos) ==
            Climb(cert, init, st, idx, cps, k, t.Add(evals[pos]), evals, pos + 1)
  {
    RunSplits(t, evals, pos, pos + 1, cps[k]);
    assert Run(t, evals, pos, pos + 1) == t.Add(evals[pos]);
  }

  /** The kernel is on its way: it has `pos` trees, will end at `goal`, and heads for checkpoint `k`. */
  ghost predicate OnWay(h: CheckpointHandler, idx: seq<nat>, cps: seq<nat>, k: nat, t: Tally, evals: seq<TreeEval>,
                        pos: nat, goal: Ascent)
    reads h
  {
    && |idx| == |cps| && k < |cps| && ValidLadder(cps, |evals|) && pos < cps[k] <= cps[|cps| - 1]
    && Climb(h.cert, h.init, h.st, idx, cps, k, t, evals, pos) == goal
  }

  /** What every kernel does once a tree is complete: call the handler if this is the next checkpoint. */
  method TreeDone(h: CheckpointHandler, idx: seq<nat>, cps: seq<nat>, k: nat, t: Tally, ghost evals: seq<TreeEval>,
                  pos: nat, ghost before: Tally, ghost goal: Ascent)
    returns (done: bool, next: nat)
    requires OnWay(h, idx, cps, k, before, evals, pos, goal) && t == before.Add(evals[pos])
    modifies h
    ensures done ==> Ascent(t, pos + 1, h.st) == goal
    ensures !done ==> OnWay(h, idx, cps, next, t, evals, pos + 1, goal)
  {
    ClimbOneTree(h.cert, h.init, h.st, idx, cps, k, before, evals, pos);
    if pos + 1 != cps[k] {
      return false, k;
    }
    var stop := h.OnCheckpoint(idx[k], pos + 1, t);
    done := stop || k + 1 >= |cps|;
    next := k + 1;
  }

  // ---------------------------------------------------------------- sound certifiers

  /** The certifier only gives right answers: whenever it is shown the exact prefix score at one of
      the checkpoints of a row whose full score is `base + Total(v)`, its verdict is the row's decision. */
  ghost predicate CertifierSound(cert: Certifier, checkpoints: seq<nat>, base: real, v: seq<real>, tau: real) {
    forall s: Sight | ExactSight(s, checkpoints, base, v) && cert(s).Some? ::
      cert(s).value.reject <==> base + Total(v) >= tau
  }

  /** The certifier gave this verdict when shown an exact prefix score. */
  ghost predicate Seen(cert: Certifier, checkpoints: seq<nat>, base: real, v: seq<real>, d: Verdict) {
    exists s: Sight :: ExactSight(s, checkpoints, base, v) && cert(s) == Some(d)
  }

  ghost predicate ExactSight(s: Sight, checkpoints: seq<nat>, base: real, v: seq<real>) {
    && s.cpIdx < |checkpoints| && checkpoints[s.cpIdx] == s.checkpoint
    && 0 < s.checkpoint <= |v| && s.score == base + Sum(v, s.checkpoint)
  }

  /** `idx` numbers the checkpoints `cps` among all of them. */
  predicate Numbered(idx: seq<nat>, cps: seq<nat>, checkpoints: seq<nat>) {
    |idx| == |cps| && forall k | 0 <= k < |cps| :: idx[k] < |checkpoints| && checkpoints[idx[k]] == cps[k]
  }

  /** Where a run ends: at a checkpoint, with the trees since its start added, and at the last one
      unless the handler decided. */
  lemma {:induction false} ClimbSums(cert: Certifier, init: real, st: HandlerState, idx: seq<nat>, cps: seq<nat>,
                                     k: nat, t: Tally, evals: seq<TreeEval>, v: seq<real>, pos: nat)
    requires |idx| == |cps| && k < |cps| && ValidLadder(cps, |evals|) && pos <= cps[k]
    requires |evals| <= |v| && forall p | 0 <= p < |evals| :: evals[p].value == v[p]
    requires st.decision.None?
    ensures var a := Climb(cert, init, st, idx, cps, k, t, evals, pos);
            && a.trees in cps && pos <= a.trees <= |evals|
            && a.tally.score == t.score + Sum(v, a.trees) - Sum(v, pos)
            && (if a.st.decision.Some? then a.st.decision.value.1 == a.trees else a.trees == cps[|cps| - 1])
    decreases |cps| - k
  {
    var reached := Run(t, evals, pos, cps[k]);
    RunSums(t, evals, v, pos, cps[k]);
    if !Stops(cert, init, st, idx[k], cps[k], reached) && k + 1 < |cps| {
      var st' := Handle(cert, init, st, idx[k], cps[k], reached);
      ClimbSums(cert, init, st', idx, cps, k + 1, reached, evals, v, cps[k]);
    }
  }

  /** A run from an exact prefix only takes decisions its certifier gives at exact prefixes. */
  lemma {:induction false} ClimbDecides(cert: Certifier, init: real, st: HandlerState, idx: seq<nat>, cps: seq<nat>,
                                        k: nat, t: Tally, evals: seq<TreeEval>, v: seq<real>, pos: nat,
                                        checkpoints: seq<nat>, base: real)
    requires Numbered(idx, cps, checkpoints) && k < |cps| && ValidLadder(cps, |evals|) && pos <= cps[k]
    requires |evals| <= |v| && forall p | 0 <= p < |evals| :: evals[p].value == v[p]
    requires t.score == base + Sum(v, pos) && st.decision.None?
    ensures var a := Climb(cert, init, st, idx, cps, k, t, evals, pos);
            a.st.decision.Some? ==> Seen(cert, checkpoints, base, v, a.st.decision.value.0)
    decreases |cps| - k
  {
    var reached := Run(t, evals, pos, cps[k]);
    RunSums(t, evals, v, pos, cps[k]);
    assert ExactSight(Look(init, st, idx[k], cps[k], reached), checkpoints, base, v);
    if !Stops(cert, init, st, idx[k], cps[k], reached) && k + 1 < |cps| {
      var st' := Handle(cert, init, st, idx[k], cps[k], reached);
      ClimbDecides(cert, init, st', idx, cps, k + 1, reached, evals, v, cps[k], checkpoints, base);
    }
  }

  // ---------------------------------------------------------------- what is shown, and where a run stops

  /** The ladder stays within the trees. */
  predicate Within(checkpoints: seq<nat>, v: seq<real>) { forall i | 0 <= i < |checkpoints| :: checkpoints[i] <= |v| }

  /** What the certifier is shown at a checkpoint: the exact prefix score, and how far it is from the one at the
      checkpoint before and, after it, from the one at checkpoint 64. */
  ghost predicate RightSight(s: Sight, checkpoints: seq<nat>, i: nat, start: real, v: seq<real>)
    requires i < |checkpoints| && Within(checkpoints, v)
  {
    && s.cpIdx == i && s.checkpoint == checkpoints[i] && s.score == start + Sum(v, checkpoints[i])
    && s.deltaPrev == s.score - (if i == 0 then start else start + Sum(v, checkpoints[i - 1]))
    && s.deltaFrom64 == if 64 in checkpoints[..i] then s.score - (start + Sum(v, 64)) else 0.0
  }

  /** The first checkpoints were shown, in order, and all but the last of them asked in vain. */
  ghost predicate Shown(cert: Certifier, checkpoints: seq<nat>, start: real, v: seq<real>, sights: seq<Sight>)
    requires Within(checkpoints, v)
  {
    && |sights| <= |checkpoints|
    && (forall i | 0 <= i < |sights| :: RightSight(sights[i], checkpoints, i, start, v))
    && (forall i | 0 <= i < |sights| - 1 :: cert(sights[i]).None?)
  }

  /** The run stopped at the first checkpoint at which the certifier answered, with that answer; without an answer it
      went to the last. */
  ghost predicate StopsFirst(cert: Certifier, checkpoints: seq<nat>, start: real, v: seq<real>, sights: seq<Sight>,
                             a: Ascent)
    requires Within(checkpoints, v)
  {
    && |sights| > 0 && Shown(cert, checkpoints, start, v, sights)
    && var last := |sights| - 1;
       && a.trees == checkpoints[last]
       && match a.st.decision
          case Some(d) => cert(sights[last]) == Some(d.0) && d.1 == a.trees
          case None => |sights| == |checkpoints| && cert(sights[last]).None?
  }

  /** What the handler remembers after `m` checkpoints without an answer. */
  ghost predicate Remembers(st: HandlerState, checkpoints: seq<nat>, m: nat, start: real, v: seq<real>)
    requires m <= |checkpoints| && Within(checkpoints, v)
  {
    && st.decision.None? && (m > 0 ==> st.last == start + Sum(v, checkpoints[m - 1]))
    && st.at64 == if 64 in checkpoints[..m] then Some(start + Sum(v, 64)) else None
  }

  /** The checkpoints of a climb are these of all, in order. */
  predicate PartOf(idx: seq<nat>, cps: seq<nat>, checkpoints: seq<nat>, off: nat) {
    && |idx| == |cps| && off + |cps| <= |checkpoints|
    && forall k | 0 <= k < |cps| :: idx[k] == off + k && cps[k] == checkpoints[off + k]
  }

  lemma LookIsRight(st: HandlerState, checkpoints: seq<nat>, i: nat, start: real, v: seq<real>, t: Tally)
    requires i < |checkpoints| && Within(checkpoints, v) && Remembers(st, checkpoints, i, start, v)
    requires t.score == start + Sum(v, checkpoints[i])
    ensures RightSight(Look(start, st, i, checkpoints[i], t), checkpoints, i, start, v)
  {}

  lemma HandledRemembers(cert: Certifier, st: HandlerState, checkpoints: seq<nat>, i: nat, start: real, v: seq<real>,
                         t: Tally)
    requires i < |checkpoints| && Within(checkpoints, v) && Remembers(st, checkpoints, i, start, v)
    requires t.score == start + Sum(v, checkpoints[i]) && !Stops(cert, start, st, i, checkpoints[i], t)
    ensures Remembers(Handle(cert, start, st, i, checkpoints[i], t), checkpoints, i + 1, start, v)
  {
    assert checkpoints[..i + 1] == checkpoints[..i] + [checkpoints[i]];
  }

  /** A climb through part of the checkpoints, the ones before having been asked in vain. */
  lemma {:induction false} ClimbShows(cert: Certifier, start: real, st: HandlerState, idx: seq<nat>, cps: seq<nat>,
                                      k: nat, t: Tally, evals: seq<TreeEval>, v: seq<real>, pos: nat,
                                      checkpoints: seq<nat>, off: nat, before: seq<Sight>)
    returns (sights: seq<Sight>)
    requires PartOf(idx, cps, checkpoints, off) && k < |cps| && ValidLadder(cps, |evals|) && pos <= cps[k]
    requires |evals| <= |v| && forall p | 0 <= p < |evals| :: evals[p].value == v[p]
    requires Within(checkpoints, v) && t.score == start + Sum(v, pos) && |before| == off + k
    requires Remembers(st, checkpoints, off + k, start, v)
    requires Shown(cert, checkpoints, start, v, before) && forall s | s in before :: cert(s).None?
    ensures Shown(cert, checkpoints, start, v, sights) && off + k < |sights| <= off + |cps|
    ensures var a, last := Climb(cert, start, st, idx, cps, k, t, evals, pos), |sights| - 1;
            && a.trees == checkpoints[last] && a.tally.score == start + Sum(v, a.trees)
            && match a.st.decision
               case Some(d) => cert(sights[last]) == Some(d.0) && d.1 == a.trees
               case None =>
                 && |sights| == off + |cps| && Remembers(a.st, checkpoints, off + |cps|, start, v)
                 && forall s | s in sights :: cert(s).None?
    decreases |cps| - k
  {
    var reached, i := Run(t, evals, pos, cps[k]), off + k;
    RunSums(t, evals, v, pos, cps[k]);
    var sight := Look(start, st, idx[k], cps[k], reached);
    LookIsRight(st, checkpoints, i, start, v, reached);
    sights := before + [sight];
    if cert(sight).None? {
      HandledRemembers(cert, st, checkpoints, i, start, v, reached);
      if k + 1 < |cps| {
        sights := ClimbShows(cert, start, Handle(cert, start, st, idx[k], cps[k], reached), idx, cps, k + 1, reached,
          evals, v, cps[k], checkpoints, off, sights);
      }
    }
  }

  /** A run over all checkpoints stops at the first that answers. */
  lemma ClimbStopsFirst(cert: Certifier, start: real, checkpoints: seq<nat>, evals: seq<TreeEval>, v: seq<real>)
    returns (sights: seq<Sight>)
    requires ValidLadder(checkpoints, |evals|)
    requires |evals| <= |v| && forall p | 0 <= p < |evals| :: evals[p].value == v[p]
    ensures Within(checkpoints, v)
    ensures StopsFirst(cert, checkpoints, start, v, sights,
              Climb(cert, start, HandlerState(start, None, None), Positions(|checkpoints|), checkpoints, 0,
                Tally(start, 0, 0), evals, 0))
  {
    sights := ClimbShows(cert, start, HandlerState(start, None, None), Positions(|checkpoints|), checkpoints, 0,
      Tally(start, 0, 0), evals, v, 0, checkpoints, 0, []);
  }

  // ---------------------------------------------------------------- the hot and late stages

  /** The checkpoints at or below the hot limit, and those above it, with their numbers. */
  datatype Layout = Layout(hotValues: seq<nat>, hotIndices: seq<nat>, lateValues: seq<nat>, lateIndices: seq<nat>)

  method BuildLayout(checkpoints: seq<nat>, hotLimit: nat) returns (layout: Layout)
    ensures LayoutOf(layout, checkpoints, hotLimit)
    ensures forall i: nat | i < |checkpoints| :: i in layout.hotIndices || i in layout.lateIndices
  {
    layout := Layout([], [], [], []);
    for i := 0 to |checkpoints|
      invariant LayoutOf(layout, checkpoints[..i], hotLimit)
      invariant forall j: nat | j < i :: j in layout.hotIndices || j in layout.lateIndices
    {
      assert checkpoints[..i + 1] == checkpoints[..i] + [checkpoints[i]];
      if checkpoints[i] <= hotLimit {
        layout := layout.(hotValues := layout.hotValues + [checkpoints[i]], hotIndices := layout.hotIndices + [i]);
      } else {
        layout := layout.(lateValues := layout.lateValues + [checkpoints[i]], lateIndices := layout.lateIndices + [i]);
      }
    }
    assert checkpoints[..|checkpoints|] == checkpoints;
  }

  /** Every checkpoint is in exactly one list, on its side of the limit, in order. */
  ghost predicate LayoutOf(layout: Layout, checkpoints: seq<nat>, hotLimit: nat) {
    && Numbered(layout.hotIndices, layout.hotValues, checkpoints)
    && Numbered(layout.lateIndices, layout.lateValues, checkpoints)
    && (forall i, j | 0 <= i < j < |layout.hotIndices| :: layout.hotIndices[i] < layout.hotIndices[j])
    && (forall i, j | 0 <= i < j < |layout.lateIndices| :: layout.lateIndices[i] < layout.lateIndices[j])
    && (forall k | 0 <= k < |layout.hotValues| :: layout.hotValues[k] <= hotLimit)
    && (forall k | 0 <= k < |layout.lateValues| :: layout.lateValues[k] > hotLimit)
    && (forall c | c in checkpoints :: c in layout.hotValues || c in layout.lateValues)
  }

  /** A hot run from `start`; without hot checkpoints, no trees and the score `base`. */
  function HotStage(cert: Certifier, init: real, st: HandlerState, layout: Layout, hotEvals: seq<TreeEval>, base: real,
                    start: real): Ascent
    requires |layout.hotIndices| == |layout.hotValues|
             && (|layout.hotValues| > 0 ==> ValidLadder(layout.hotValues, |hotEvals|))
  {
    if |layout.hotValues| == 0 then Ascent(Tally(base, 0, 0), 0, st)
    else Climb(cert, init, st, layout.hotIndices, layout.hotValues, 0, Tally(start, 0, 0), hotEvals, 0)
  }

  /** After the hot stage, still undecided, a late run from the hot limit. */
  function LateStage(cert: Certifier, init: real, hot: Ascent, layout: Layout, lateEvals: seq<TreeEval>,
                     hotLimit: nat): Ascent
    requires |layout.lateIndices| == |layout.lateValues|
    requires |layout.lateValues| > 0 ==> ValidLadder(layout.lateValues, |lateEvals|) && hotLimit < layout.lateValues[0]
  {
    if hot.st.decision.None? && |layout.lateValues| > 0
    then Climb(cert, init, hot.st, layout.lateIndices, layout.lateValues, 0, hot.tally, lateEvals, hotLimit)
    else hot
  }

  /** The two stages. */
  function TwoStage(cert: Certifier, init: real, layout: Layout, hotEvals: seq<TreeEval>, lateEvals: seq<TreeEval>,
                    hotLimit: nat, base: real, start: real): Ascent
    requires StagesFit(layout, |hotEvals|, |lateEvals|, hotLimit)
  {
    LateStage(cert, init, HotStage(cert, init, HandlerState(init, None, None), layout, hotEvals, base, start), layout,
        lateEvals, hotLimit)
  }

  /** Both stages have valid ladders. */
  predicate StagesFit(layout: Layout, nHot: nat, nTrees: nat, hotLimit: nat) {
    && |layout.hotIndices| == |layout.hotValues| && |layout.lateIndices| == |layout.lateValues|
    && (|layout.hotValues| > 0 ==>
        ValidLadder(layout.hotValues, nHot) && layout.hotValues[|layout.hotValues| - 1] <= hotLimit)
    && (|layout.lateValues| > 0 ==> ValidLadder(layout.lateValues, nTrees) && hotLimit < layout.lateValues[0])
  }

  /** The hot stage ends where the late stage starts. */
  predicate StagesMeet(layout: Layout, hotLimit: nat) {
    |layout.lateValues| > 0 ==>
      hotLimit == LastHot(layout)
  }

  lemma LayoutStagesFit(layout: Layout, checkpoints: seq<nat>, hotLimit: nat, nHot: nat, nTrees: nat)
    requires LayoutOf(layout, checkpoints, hotLimit) && ValidLadder(checkpoints, nTrees) && hotLimit <= nHot
    ensures StagesFit(layout, nHot, nTrees, hotLimit)
  {}

  ghost predicate StartsWith(evals: seq<TreeEval>, v: seq<real>) {
    |evals| <= |v| && forall p | 0 <= p < |evals| :: evals[p].value == v[p]
  }

  /** The score of a two-stage run, whether or not its stages meet: trees between the last hot
      checkpoint and the hot limit are never added. */
  lemma TwoStageSums(cert: Certifier, init: real, layout: Layout, hotEvals: seq<TreeEval>, lateEvals: seq<TreeEval>,
                     hotLimit: nat, base: real, start: real, v: seq<real>)
    requires StagesFit(layout, |hotEvals|, |lateEvals|, hotLimit)
    requires StartsWith(hotEvals, v) && HaveValues(lateEvals, v) && hotLimit <= |v|
    ensures var a := TwoStage(cert, init, layout, hotEvals, lateEvals, hotLimit, base, start);
            var last := if |layout.hotValues| > 0 then layout.hotValues[|layout.hotValues| - 1] else 0;
            var from := if |layout.hotValues| > 0 then start else base;
            && a.trees <= |v| && last <= |v|
            && a.tally.score ==
                from + Sum(v, a.trees) - (if a.trees in layout.lateValues then Sum(v, hotLimit) - Sum(v, last) else 0.0)
            && (a.st.decision.None? ==>
                a.trees == if |layout.lateValues| > 0 then layout.lateValues[|layout.lateValues| - 1] else last)
  {
    var st := HandlerState(init, None, None);
    if |layout.hotValues| > 0 {
      ClimbSums(cert, init, st, layout.hotIndices, layout.hotValues, 0, Tally(start, 0, 0), hotEvals, v, 0);
    }
    var hot := HotStage(cert, init, st, layout, hotEvals, base, start);
    assert hot.trees <= hotLimit;
    if hot.st.decision.None? && |layout.lateValues| > 0 {
      ClimbSums(cert, init, hot.st, layout.lateIndices, layout.lateValues, 0, hot.tally, lateEvals, v, hotLimit);
    }
  }

  /** With stages that meet, and the start score used, a two-stage run is exact. */
  lemma TwoStageExact(cert: Certifier, init: real, layout: Layout, hotEvals: seq<TreeEval>, lateEvals: seq<TreeEval>,
                      hotLimit: nat, base: real, start: real, v: seq<real>)
    requires StagesFit(layout, |hotEvals|, |lateEvals|, hotLimit) && StagesMeet(layout, hotLimit)
    requires StartsWith(hotEvals, v) && HaveValues(lateEvals, v) && hotLimit <= |v|
    requires |layout.hotValues| > 0 || start == base
    ensures var a := TwoStage(cert, init, layout, hotEvals, lateEvals, hotLimit, base, start);
            a.trees <= |v| && a.tally.score == start + Sum(v, a.trees)
  {
    TwoStageSums(cert, init, layout, hotEvals, lateEvals, hotLimit, base, start, v);
  }

  /** ... and its decisions are its certifier's at exact prefixes. */
  lemma TwoStageDecides(cert: Certifier, init: real, layout: Layout, hotEvals: seq<TreeEval>, lateEvals: seq<TreeEval>,
                        hotLimit: nat, base: real, start: real, v: seq<real>, checkpoints: seq<nat>)
    requires StagesFit(layout, |hotEvals|, |lateEvals|, hotLimit) && StagesMeet(layout, hotLimit)
    requires StartsWith(hotEvals, v) && HaveValues(lateEvals, v) && hotLimit <= |v|
    requires |layout.hotValues| > 0 || start == base
    requires Numbered(layout.hotIndices, layout.hotValues, checkpoints)
             && Numbered(layout.lateIndices, layout.lateValues, checkpoints)
    ensures var a := TwoStage(cert, init, layout, hotEvals, lateEvals, hotLimit, base, start);
            a.st.decision.Some? ==> Seen(cert, checkpoints, start, v, a.st.decision.value.0)
  {
    var st := HandlerState(init, None, None);
    var hot := HotStage(cert, init, st, layout, hotEvals, base, start);
    if |layout.hotValues| > 0 {
      ClimbSums(cert, init, st, layout.hotIndices, layout.hotValues, 0, Tally(start, 0, 0), hotEvals, v, 0);
      ClimbDecides(cert, init, st, layout.hotIndices, layout.hotValues, 0, Tally(start, 0, 0), hotEvals, v, 0,
          checkpoints, start);
    }
    if hot.st.decision.None? && |layout.lateValues| > 0 {
      ClimbDecides(cert, init, hot.st, layout.lateIndices, layout.lateValues, 0, hot.tally, lateEvals, v, hotLimit,
          checkpoints, start);
    }
  }

  /** A checkpoint is in the list of its side, under its number. */
  lemma HotPlace(layout: Layout, checkpoints: seq<nat>, hotLimit: nat, nTrees: nat, c: nat) returns (p: nat)
    requires LayoutOf(layout, checkpoints, hotLimit) && ValidLadder(checkpoints, nTrees)
    requires c < |checkpoints| && checkpoints[c] <= hotLimit
    ensures p < |layout.hotIndices| && layout.hotIndices[p] == c
  {
    assert checkpoints[c] in checkpoints;
    p :| 0 <= p < |layout.hotValues| && layout.hotValues[p] == checkpoints[c];
  }

  lemma LatePlace(layout: Layout, checkpoints: seq<nat>, hotLimit: nat, nTrees: nat, c: nat) returns (p: nat)
    requires LayoutOf(layout, checkpoints, hotLimit) && ValidLadder(checkpoints, nTrees)
    requires c < |checkpoints| && checkpoints[c] > hotLimit
    ensures p < |layout.lateIndices| && layout.lateIndices[p] == c
  {
    assert checkpoints[c] in checkpoints;
    p :| 0 <= p < |layout.lateValues| && layout.lateValues[p] == checkpoints[c];
  }

  /** In an increasing ladder the hot checkpoints are the first ones ... */
  lemma {:induction false} HotFirst(layout: Layout, checkpoints: seq<nat>, hotLimit: nat, nTrees: nat, k: nat)
    requires LayoutOf(layout, checkpoints, hotLimit) && ValidLadder(checkpoints, nTrees) && k < |layout.hotIndices|
    ensures forall j | 0 <= j <= k :: layout.hotIndices[j] == j
  {
    if k > 0 { HotFirst(layout, checkpoints, hotLimit, nTrees, k - 1); }
    assert k > 0 ==> layout.hotIndices[k - 1] < layout.hotIndices[k];
    if k < layout.hotIndices[k] { var p := HotPlace(layout, checkpoints, hotLimit, nTrees, k); }
  }

  /** ... and the late ones the rest. */
  lemma {:induction false} LateNext(layout: Layout, checkpoints: seq<nat>, hotLimit: nat, nTrees: nat, k: nat)
    requires LayoutOf(layout, checkpoints, hotLimit) && ValidLadder(checkpoints, nTrees) && k < |layout.lateIndices|
    ensures forall j | 0 <= j <= k :: layout.lateIndices[j] == |layout.hotIndices| + j
  {
    var h := |layout.hotIndices|;
    if h > 0 { HotFirst(layout, checkpoints, hotLimit, nTrees, h - 1); }
    if k > 0 { LateNext(layout, checkpoints, hotLimit, nTrees, k - 1); }
    var i := layout.lateIndices[k];
    assert k > 0 ==> layout.lateIndices[k - 1] < i;
    assert layout.lateValues[k] == checkpoints[i];
    assert forall q | 0 <= q < h :: checkpoints[q] == layout.hotValues[q] <= hotLimit;
    if h + k < i {
      if checkpoints[h + k] <= hotLimit {
        var q := HotPlace(layout, checkpoints, hotLimit, nTrees, h + k);
      } else {
        var p := LatePlace(layout, checkpoints, hotLimit, nTrees, h + k);
      }
    }
  }

  /** The two stages, when they meet, stop at the first checkpoint that answers. */
  lemma TwoStageStopsFirst(cert: Certifier, start: real, layout: Layout, hotEvals: seq<TreeEval>,
                           lateEvals: seq<TreeEval>, hotLimit: nat, base: real, v: seq<real>, checkpoints: seq<nat>)
    returns (sights: seq<Sight>)
    requires StagesFit(layout, |hotEvals|, |lateEvals|, hotLimit) && StagesMeet(layout, hotLimit)
    requires StartsWith(hotEvals, v) && HaveValues(lateEvals, v) && hotLimit <= |v|
    requires |layout.hotValues| > 0 || start == base
    requires LayoutOf(layout, checkpoints, hotLimit) && ValidLadder(checkpoints, |v|)
    ensures StopsFirst(cert, checkpoints, start, v, sights,
              TwoStage(cert, start, layout, hotEvals, lateEvals, hotLimit, base, start))
  {
    var h := |layout.hotIndices|;
    var hot := HotStage(cert, start, HandlerState(start, None, None), layout, hotEvals, base, start);
    LayoutParts(layout, checkpoints, hotLimit, |v|);
    sights := HotShows(cert, start, layout, hotEvals, hotLimit, base, v, checkpoints);
    if |layout.lateValues| > 0 && hot.st.decision.None? {
      sights := ClimbShows(cert, start, hot.st, layout.lateIndices, layout.lateValues, 0, hot.tally, lateEvals, v,
        hotLimit, checkpoints, h, sights);
    }
  }

  /** The hot stage has asked at the hot checkpoints, as far as it went. */
  lemma HotShows(cert: Certifier, start: real, layout: Layout, hotEvals: seq<TreeEval>, hotLimit: nat, base: real,
                 v: seq<real>, checkpoints: seq<nat>)
    returns (sights: seq<Sight>)
    requires PartOf(layout.hotIndices, layout.hotValues, checkpoints, 0) && Within(checkpoints, v)
    requires |layout.hotValues| > 0 ==> ValidLadder(layout.hotValues, |hotEvals|)
    requires StartsWith(hotEvals, v) && (|layout.hotValues| > 0 || start == base)
    ensures Shown(cert, checkpoints, start, v, sights) && |sights| <= |layout.hotValues|
    ensures var hot := HotStage(cert, start, HandlerState(start, None, None), layout, hotEvals, base, start);
            && hot.trees <= |v| && hot.tally.score == start + Sum(v, hot.trees)
            && match hot.st.decision
               case Some(d) =>
                 |sights| > 0 && hot.trees == checkpoints[|sights| - 1] && d.1 == hot.trees
                 && cert(sights[|sights| - 1]) == Some(d.0)
               case None =>
                 && |sights| == |layout.hotValues| && hot.trees == LastHot(layout)
                 && Remembers(hot.st, checkpoints, |sights|, start, v) && forall s | s in sights :: cert(s).None?
  {
    sights := [];
    if |layout.hotValues| > 0 {
      sights := ClimbShows(cert, start, HandlerState(start, None, None), layout.hotIndices, layout.hotValues, 0,
        Tally(start, 0, 0), hotEvals, v, 0, checkpoints, 0, []);
    }
  }

  /** The lists are the two parts of an increasing ladder. */
  lemma LayoutParts(layout: Layout, checkpoints: seq<nat>, hotLimit: nat, nTrees: nat)
    requires LayoutOf(layout, checkpoints, hotLimit) && ValidLadder(checkpoints, nTrees)
    ensures PartOf(layout.hotIndices, layout.hotValues, checkpoints, 0)
    ensures PartOf(layout.lateIndices, layout.lateValues, checkpoints, |layout.hotValues|)
    ensures |checkpoints| == |layout.hotValues| + |layout.lateValues|
  {
    var h, l := |layout.hotIndices|, |layout.lateIndices|;
    if h > 0 { HotFirst(layout, checkpoints, hotLimit, nTrees, h - 1); }
    if l > 0 { LateNext(layout, checkpoints, hotLimit, nTrees, l - 1); }
    AllPlaced(layout, checkpoints, hotLimit, nTrees);
  }

  /** Every checkpoint is in one of the lists. */
  lemma AllPlaced(layout: Layout, checkpoints: seq<nat>, hotLimit: nat, nTrees: nat)
    requires LayoutOf(layout, checkpoints, hotLimit) && ValidLadder(checkpoints, nTrees)
    ensures |checkpoints| == |layout.hotValues| + |layout.lateValues|
  {
    var h, l, last := |layout.hotValues|, |layout.lateValues|, |checkpoints| - 1;
    if h > 0 { HotFirst(layout, checkpoints, hotLimit, nTrees, h - 1); }
    if l > 0 { LateNext(layout, checkpoints, hotLimit, nTrees, l - 1); }
    assert h > 0 ==> layout.hotIndices[h - 1] < |checkpoints|;
    assert l > 0 ==> layout.lateIndices[l - 1] < |checkpoints|;
    if checkpoints[last] <= hotLimit {
      var q := HotPlace(layout, checkpoints, hotLimit, nTrees, last);
      assert layout.hotIndices[q] == q;
    } else {
      var p := LatePlace(layout, checkpoints, hotLimit, nTrees, last);
      assert layout.lateIndices[p] == h + p;
    }
  }

  /** The last hot checkpoint, or the start. */
  function LastHot(layout: Layout): nat {
    if |layout.hotValues| > 0 then layout.hotValues[|layout.hotValues| - 1] else 0
  }

  /** For any ladder, with or without checkpoints in either stage: undecided runs end at the exact prefix
      for every ensemble if and only if the stages meet. */
  lemma StagesMeetIff(layout: Layout, hotLimit: nat, n: nat, base: real)
    requires StagesFit(layout, hotLimit, n, hotLimit) && hotLimit <= n
    ensures StagesMeet(layout, hotLimit) <==>
            forall v: seq<real> | |v| == n ::
              var a := TwoStage(Never, base, layout, Plain(v[..hotLimit]), Plain(v), hotLimit, base, base);
              a.trees <= n && a.tally.score == base + Sum(v, a.trees)
  {
    var last, skips := LastHot(layout), |layout.lateValues| > 0;
    forall v: seq<real> | |v| == n
      ensures var a := TwoStage(Never, base, layout, Plain(v[..hotLimit]), Plain(v), hotLimit, base, base);
              && a.trees <= n && last <= n
              && a.tally.score == base + Sum(v, a.trees) - if skips then Sum(v, hotLimit) - Sum(v, last) else 0.0
    {
      TwoStageSums(Never, base, layout, Plain(v[..hotLimit]), Plain(v), hotLimit, base, base, v);
      TwoStageUndecided(layout, Plain(v[..hotLimit]), Plain(v), hotLimit, base);
    }
    if !StagesMeet(layout, hotLimit) {
      var ones := seq(n, _ => 1.0);
      SumOfOnes(ones, hotLimit);
      SumOfOnes(ones, last);
      assert |ones| == n;
    }
  }

  /** Evaluations with these values and no work. */
  function Plain(v: seq<real>): (evals: seq<TreeEval>)
    ensures HaveValues(evals, v)
  {
    seq(|v|, p requires 0 <= p < |v| => TreeEval(v[p], 0, 0))
  }

  lemma {:induction false} SumOfOnes(v: seq<real>, n: nat)
    requires n <= |v| && forall p | 0 <= p < |v| :: v[p] == 1.0
    ensures Sum(v, n) == n as real
  {
    if n > 0 { SumOfOnes(v, n - 1); }
  }

  /** A certifier that never answers. */
  function Never(s: Sight): Option<Verdict> { None }

  lemma {:induction false} ClimbUndecided(init: real, st: HandlerState, idx: seq<nat>, cps: seq<nat>, k: nat, t: Tally,
                                          evals: seq<TreeEval>, pos: nat)
    requires |idx| == |cps| && k < |cps| && ValidLadder(cps, |evals|) && pos <= cps[k] && st.decision.None?
    ensures var a := Climb(Never, init, st, idx, cps, k, t, evals, pos);
            a.st.decision.None? && a.trees == cps[|cps| - 1]
    decreases |cps| - k
  {
    if k + 1 < |cps| {
      var reached := Run(t, evals, pos, cps[k]);
      ClimbUndecided(init, Handle(Never, init, st, idx[k], cps[k], reached), idx, cps, k + 1, reached, evals, cps[k]);
    }
  }

  lemma TwoStageUndecided(layout: Layout, hotEvals: seq<TreeEval>, lateEvals: seq<TreeEval>, hotLimit: nat, base: real)
    requires StagesFit(layout, |hotEvals|, |lateEvals|, hotLimit)
    ensures var trees := TwoStage(Never, base, layout, hotEvals, lateEvals, hotLimit, base, base).trees;
            if |layout.lateValues| > 0 then trees in layout.lateValues else trees == LastHot(layout)
  {
    var st := HandlerState(base, None, None);
    if |layout.hotValues| > 0 {
      ClimbUndecided(base, st, layout.hotIndices, layout.hotValues, 0, Tally(base, 0, 0), hotEvals, 0);
    }
    var hot := HotStage(Never, base, st, layout, hotEvals, base, base);
    if |layout.lateValues| > 0 {
      ClimbUndecided(base, hot.st, layout.lateIndices, layout.lateValues, 0, hot.tally, lateEvals, hotLimit);
    }
  }
}
