/** Predicting one row: a prefix run that may decide at a checkpoint, and the exact continuation. */
module Prediction {
  import opened Forest
  import opened Tallies
  import opened EpochCaches
  import opened QuickScorer
  import opened QuickScorerExact
  import opened Ladders
  import opened PrefixKernels
  import opened HotPacks
  import opened LatePrograms
  import opened Calibration
  import opened Traversal

  /** The loaded bundle.  `hotKernel` is set when the direct kernel is one of the hot ones, `compiledRoute`
      when the certifier is the atlas one and an atlas is loaded. */
  datatype Runtime = Runtime(
    pack: QsPack,
    plan: TreeOrder,
    checkpoints: seq<nat>,
    tables: seq<LoadedTable>,
    hotKernel: bool,
    compiledRoute: bool,
    hotPack: Option<PrefixPack>,
    compiled: Option<CompiledPack>,
    layout: Option<Layout>,
    late: Option<LateProgram>)
  {
    function HotLimit(): nat {
      if hotPack.None? then 0
      else if |hotPack.value.nodes.treeRoots| < |pack.trees| then |hotPack.value.nodes.treeRoots| else |pack.trees|
    }
  }

  /** Every part of the bundle describes the trees of the model, in plan order. */
  ghost predicate Fits(rt: Runtime, m: SoaModel) {
    && PackEncodes(rt.pack, m, rt.plan)
    && ValidLadder(rt.checkpoints, |rt.pack.trees|)
    && (rt.hotKernel ==> rt.hotPack.Some? && rt.layout.Some?)
    && (rt.hotPack.Some? ==> HotAgrees(rt.hotPack.value, m, rt.plan))
    && (rt.layout.Some? ==> rt.hotPack.Some? && LayoutOf(rt.layout.value, rt.checkpoints, rt.HotLimit()))
    && (rt.compiled.Some? ==> rt.hotPack.Some? && IsCompiled(rt.hotPack.value, rt.compiled.value))
    && (rt.late.Some? ==> LateFits(rt, m, rt.late.value))
  }

  /** The hot pack's trees give every row what the first trees of the plan give it. */
  ghost predicate HotAgrees(hot: PrefixPack, m: SoaModel, plan: TreeOrder)
    requires m.Valid() && plan.Fits(m)
  {
    hot.Valid(m.nFeatures) && forall row: Row | |row| == m.nFeatures ::
        StartsWith(HotEvals(hot, row), PlanScores(m, plan, row))
  }

  ghost predicate LateFits(rt: Runtime, m: SoaModel, prog: LateProgram)
    requires m.Valid() && rt.plan.Fits(m)
  {
    && (forall t: nat | t < |m.treeRoots| :: Contiguous(m, t))
    && IsProgram(m, rt.plan, prog) && prog.start == rt.HotLimit()
    && (|rt.checkpoints| > 0 ==> rt.checkpoints[|rt.checkpoints| - 1] <= prog.start + prog.nTrees)
  }

  /** The buffers reused from row to row; nothing is assumed about what they hold. */
  class Scratch {
    const ranks: array<nat>
    const missing: array<nat>
    const hotBuf: array<Feature>
    const hotCache: EpochCache<Feature>

    ghost predicate Sized(nFeatures: nat, nHot: nat)
      reads this, hotCache, hotCache.stamps
    {
      && ranks.Length == missing.Length == nFeatures && ranks != missing
      && hotBuf.Length == nHot && hotBuf != hotCache.values
      && hotCache.Valid() && hotCache.values.Length == nHot
      && hotCache.stamps != ranks && hotCache.stamps != missing
    }

    ghost function Footprint(): set<object> { {ranks, missing, hotBuf, hotCache, hotCache.values, hotCache.stamps} }

    constructor (nFeatures: nat, nHot: nat)
      ensures Sized(nFeatures, nHot) && fresh(Footprint())
    {
      ranks := new nat[nFeatures](_ => 0);
      missing := new nat[nFeatures](_ => 0);
      hotBuf := new Feature[nHot](_ => Num(0.0));
      hotCache := new EpochCache(nHot, Num(0.0));
    }

    /** A hot cache of its own beside the given rank buffers. */
    constructor WithBuffers(ranks: array<nat>, missing: array<nat>, nHot: nat)
      requires ranks.Length == missing.Length && ranks != missing
      ensures Sized(ranks.Length, nHot) && this.ranks == ranks && this.missing == missing
      ensures fresh({this.hotBuf, this.hotCache, this.hotCache.values, this.hotCache.stamps})
    {
      this.ranks := ranks;
      this.missing := missing;
      hotBuf := new Feature[nHot](_ => Num(0.0));
      hotCache := new EpochCache(nHot, Num(0.0));
    }
  }

  /** What the prefix run reports about a row. */
  datatype Shadow = Shadow(
    prefixScore: real, treesUsed: nat, workEvals: nat, resolvedEarly: nat,
    reject: bool, routeScore: real, fallbackUsed: bool, directCheckpoint: nat, fallbackEntry: nat)

  function ReportShadow(a: Ascent, checkpoints: seq<nat>): Shadow {
    match a.st.decision
    case Some(d) =>
      Shadow(a.tally.score, a.trees, a.tally.work, a.tally.resolved, d.0.reject, d.0.routeScore, false, d.1, 0)
    case None =>
      Shadow(a.tally.score, a.trees, a.tally.work, a.tally.resolved, false, a.tally.score, true, 0,
             if |checkpoints| == 0 then 0 else checkpoints[|checkpoints| - 1])
  }

  /** What the late stage contributes per tree: the if-tree program when there is one and the row may
      have no missing value, QuickScorer otherwise. */
  ghost function LateEvals(rt: Runtime, m: SoaModel, row: Row, program: bool): (evals: seq<TreeEval>)
    requires PackEncodes(rt.pack, m, rt.plan) && |row| == m.nFeatures
    ensures HaveValues(evals, PlanScores(m, rt.plan, row))
  {
    if program then WalkEvals(m, rt.plan, row) else QsEvals(rt.pack, m, rt.plan, row)
  }

  /** The run a row's prefix evaluation makes, starting from score `start`. */
  ghost function PrefixRun(rt: Runtime, m: SoaModel, row: Row, cert: Certifier, start: real, program: bool): (a: Ascent)
    requires Fits(rt, m) && |row| == m.nFeatures
  {
    if rt.hotKernel then
      LayoutStagesFit(rt.layout.value, rt.checkpoints, rt.HotLimit(), |HotEvals(rt.hotPack.value, row)|,
          |rt.pack.trees|);
      TwoStage(cert, start, rt.layout.value, HotEvals(rt.hotPack.value, row), LateEvals(rt, m, row, program),
               rt.HotLimit(), rt.pack.baseScore, start)
    else
      Climb(cert, start, HandlerState(start, None, None), Positions(|rt.checkpoints|), rt.checkpoints, 0,
            Tally(start, 0, 0), QsEvals(rt.pack, m, rt.plan, row), 0)
  }

  /** Every missing value of the row goes right wherever it is tested, so that the tests for it can be left out. */
  ghost predicate NoneMisled(rt: Runtime, m: SoaModel, row: Row)
    requires Fits(rt, m) && |row| == m.nFeatures
  {
    && GoesRight(m, row)
    && (rt.hotPack.Some? ==> GoesRight(rt.hotPack.value.nodes, HotRow(rt.hotPack.value, row)))
  }

  /** So it is with rows that have none. */
  lemma NoMissingNoneMisled(rt: Runtime, m: SoaModel, row: Row)
    requires Fits(rt, m) && |row| == m.nFeatures && NanFree(row)
    ensures NoneMisled(rt, m, row)
  {
    if rt.hotPack.Some? {
      var hot := HotRow(rt.hotPack.value, row);
      forall i | 0 <= i < |hot| ensures hot[i].Num? {}
    }
  }

  /** The late trees can be evaluated: by QuickScorer, and by the if-tree program when that is chosen. */
  ghost predicate LateReady(rt: Runtime, m: SoaModel, row: Row, program: bool) {
    && PackEncodes(rt.pack, m, rt.plan) && |row| == m.nFeatures
    && (program ==> rt.late.Some? && GoesRight(m, row) && LateFits(rt, m, rt.late.value))
  }

  /** The late stage: from the hot limit, with the hot stage's tally. */
  method RunLate(rt: Runtime, feat: Row, idx: seq<nat>, cps: seq<nat>, limit: nat, t: Tally, scratch: Scratch,
                 h: CheckpointHandler, program: bool, ghost m: SoaModel)
    returns (r: Result<(Tally, nat)>)
    requires LateReady(rt, m, feat, program) && scratch.Sized(m.nFeatures, scratch.hotBuf.Length)
    requires |idx| == |cps| && ValidLadder(cps, |rt.pack.trees|) && limit < cps[0]
    requires program ==>
             limit == rt.HotLimit() && |rt.checkpoints| > 0 && cps[|cps| - 1] <= rt.checkpoints[|rt.checkpoints| - 1]
    modifies scratch.ranks, scratch.missing, h
    ensures r.Ok? && Ascent(r.value.0, r.value.1, h.st) ==
                     Climb(h.cert, h.init, old(h.st), idx, cps, 0, t, LateEvals(rt, m, feat, program), limit)
  {
    if program {
      RightEvals(m, rt.plan, feat);
      r := LatePrefixUntil(rt.late.value, feat, idx, cps, t, h, m, rt.plan);
    } else {
      PackEvaluates(rt.pack, m, rt.plan, feat);
      r := PrefixUntilFrom(rt.pack, feat, scratch.ranks, scratch.missing, idx, cps, limit, t, h,
          QsEvals(rt.pack, m, rt.plan, feat));
    }
  }

  predicate LastLateFits(layout: Layout, checkpoints: seq<nat>) {
    |layout.lateValues| > 0 ==>
      |checkpoints| > 0 && layout.lateValues[|layout.lateValues| - 1] <= checkpoints[|checkpoints| - 1]
  }

  lemma LastLateIsCheckpoint(layout: Layout, checkpoints: seq<nat>, hotLimit: nat, nTrees: nat)
    requires LayoutOf(layout, checkpoints, hotLimit) && ValidLadder(checkpoints, nTrees)
    ensures LastLateFits(layout, checkpoints)
  {}

  /** The hot stage, interpreted through the lazy cache or compiled over the feature buffer. */
  method RunHot(hot: PrefixPack, c: Option<CompiledPack>, feat: Row, idx: seq<nat>, cps: seq<nat>, start: real,
                scratch: Scratch, nanFree: bool, h: CheckpointHandler)
    returns (r: Result<(Tally, nat)>)
    requires hot.Valid(|feat|) && (c.Some? ==> IsCompiled(hot, c.value))
    requires c.Some? && nanFree ==> GoesRight(hot.nodes, HotRow(hot, feat))
    requires |idx| == |cps| && ValidLadder(cps, |hot.nodes.treeRoots|) && scratch.Sized(|feat|, |hot.hotGlobalFidx|)
    modifies scratch.hotBuf, scratch.hotCache, scratch.hotCache.values, scratch.hotCache.stamps, h
    ensures scratch.Sized(|feat|, |hot.hotGlobalFidx|)
    ensures r.Ok? && Ascent(r.value.0, r.value.1, h.st) ==
                     Climb(h.cert, h.init, old(h.st), idx, cps, 0, Tally(start, 0, 0), HotEvals(hot, feat), 0)
  {
    if c.Some? {
      WalkedSame(hot, feat, nanFree);
      r := HotPrefixUntilCompiled(c.value, scratch.hotBuf, feat, idx, cps, start, nanFree, h, hot);
    } else {
      r := HotPrefixUntil(hot, scratch.hotCache, feat, idx, cps, start, h);
    }
  }

  lemma LayoutFits(rt: Runtime, m: SoaModel)
    requires Fits(rt, m) && rt.hotKernel
    ensures rt.hotPack.value.Valid(m.nFeatures)
    ensures StagesFit(rt.layout.value, |rt.hotPack.value.nodes.treeRoots|, |rt.pack.trees|, rt.HotLimit())
    ensures LastLateFits(rt.layout.value, rt.checkpoints)
  {
    LayoutStagesFit(rt.layout.value, rt.checkpoints, rt.HotLimit(), |rt.hotPack.value.nodes.treeRoots|,
        |rt.pack.trees|);
    LastLateIsCheckpoint(rt.layout.value, rt.checkpoints, rt.HotLimit(), |rt.pack.trees|);
  }

  /** The hot stage if it has checkpoints; without any, the late stage will start from the base score. */
  method RunHotStage(rt: Runtime, feat: Row, start: real, scratch: Scratch, c: Option<CompiledPack>, nanFree: bool,
                     h: CheckpointHandler)
    returns (r: Result<(Tally, nat)>)
    requires rt.hotPack.Some? && rt.layout.Some? && rt.hotPack.value.Valid(|feat|)
    requires c.Some? ==> IsCompiled(rt.hotPack.value, c.value)
    requires c.Some? && nanFree ==> GoesRight(rt.hotPack.value.nodes, HotRow(rt.hotPack.value, feat))
    requires StagesFit(rt.layout.value, |rt.hotPack.value.nodes.treeRoots|, |rt.pack.trees|, rt.HotLimit())
    requires scratch.Sized(|feat|, |rt.hotPack.value.hotGlobalFidx|)
    modifies scratch.hotBuf, scratch.hotCache, scratch.hotCache.values, scratch.hotCache.stamps, h
    ensures scratch.Sized(|feat|, |rt.hotPack.value.hotGlobalFidx|)
    ensures r.Ok? && Ascent(r.value.0, r.value.1, h.st) ==
                     HotStage(h.cert, h.init, old(h.st), rt.layout.value, HotEvals(rt.hotPack.value, feat),
                         rt.pack.baseScore, start)
  {
    var layout := rt.layout.value;
    if |layout.hotValues| == 0 {
      return Ok((Tally(rt.pack.baseScore, 0, 0), 0));
    }
    r := RunHot(rt.hotPack.value, c, feat, layout.hotIndices, layout.hotValues, start, scratch, nanFree, h);
  }

  /** The late stage if the hot one left the row undecided and there are late checkpoints. */
  method RunLateStage(rt: Runtime, feat: Row, hot: (Tally, nat), scratch: Scratch, program: bool, h: CheckpointHandler,
                      ghost m: SoaModel)
    returns (r: Result<(Tally, nat)>)
    requires LateReady(rt, m, feat, program) && rt.layout.Some? && scratch.Sized(m.nFeatures, scratch.hotBuf.Length)
    requires StagesFit(rt.layout.value, rt.HotLimit(), |rt.pack.trees|, rt.HotLimit())
             && LastLateFits(rt.layout.value, rt.checkpoints)
    modifies scratch.ranks, scratch.missing, h
    ensures r.Ok? && Ascent(r.value.0, r.value.1, h.st) ==
                     LateStage(h.cert, h.init, Ascent(hot.0, hot.1, old(h.st)), rt.layout.value,
                         LateEvals(rt, m, feat, program), rt.HotLimit())
  {
    var layout := rt.layout.value;
    if h.st.decision.Some? || |layout.lateValues| == 0 {
      return Ok(hot);
    }
    r := RunLate(rt, feat, layout.lateIndices, layout.lateValues, rt.HotLimit(), hot.0, scratch, h, program, m);
  }

  /** Both stages, with one handler. */
  method RunStages(rt: Runtime, feat: Row, start: real, scratch: Scratch, c: Option<CompiledPack>, nanFree: bool,
                   h: CheckpointHandler, ghost m: SoaModel)
    returns (r: Result<(Tally, nat)>)
    requires Fits(rt, m) && rt.hotKernel && |feat| == m.nFeatures && (nanFree ==> NoneMisled(rt, m, feat))
    requires scratch.Sized(m.nFeatures, |rt.hotPack.value.hotGlobalFidx|)
    requires c.Some? ==> c == rt.compiled
    requires h.init == start && h.st == HandlerState(start, None, None)
    modifies scratch.Footprint(), h
    ensures scratch.Sized(m.nFeatures, |rt.hotPack.value.hotGlobalFidx|)
    ensures r.Ok? && Ascent(r.value.0, r.value.1, h.st) ==
            PrefixRun(rt, m, feat, h.cert, start, c.Some? && nanFree && rt.late.Some?)
  {
    LayoutFits(rt, m);
    r := RunHotStage(rt, feat, start, scratch, c, nanFree, h);
    r := RunLateStage(rt, feat, r.value, scratch, c.Some? && nanFree && rt.late.Some?, h, m);
  }

  /** The interpreted route, for any start score. */
  method ShadowRowFrom(rt: Runtime, feat: Row, start: real, cert: Certifier, scratch: Scratch, nHot: nat,
                       ghost m: SoaModel)
    returns (r: Result<Shadow>)
    requires Fits(rt, m) && |feat| == m.nFeatures && scratch.Sized(m.nFeatures, nHot)
    requires rt.hotPack.Some? ==> nHot == |rt.hotPack.value.hotGlobalFidx|
    modifies scratch.Footprint()
    ensures scratch.Sized(m.nFeatures, nHot)
    ensures r == Ok(ReportShadow(PrefixRun(rt, m, feat, cert, start, false), rt.checkpoints))
  {
    var h := new CheckpointHandler(cert, start);
    var run;
    if rt.hotKernel {
      run := RunStages(rt, feat, start, scratch, None, false, h, m);
    } else {
      PackEvaluates(rt.pack, m, rt.plan, feat);
      run := PrefixUntilFrom(rt.pack, feat, scratch.ranks, scratch.missing, Positions(|rt.checkpoints|), rt.checkpoints,
                             0, Tally(start, 0, 0), h, QsEvals(rt.pack, m, rt.plan, feat));
    }
    r := Ok(ReportShadow(Ascent(run.value.0, run.value.1, h.st), rt.checkpoints));
  }

  /** The single-route entry: compiled when everything it needs is loaded, interpreted otherwise. */
  method ShadowRow(rt: Runtime, feat: Row, cert: Certifier, scratch: Scratch, nHot: nat, nanFree: bool,
                   ghost m: SoaModel)
    returns (r: Result<Shadow>, ghost program: bool)
    requires Fits(rt, m) && |feat| == m.nFeatures && (nanFree ==> NoneMisled(rt, m, feat))
    requires scratch.Sized(m.nFeatures, nHot)
    requires rt.hotPack.Some? ==> nHot == |rt.hotPack.value.hotGlobalFidx|
    modifies scratch.Footprint()
    ensures scratch.Sized(m.nFeatures, nHot)
    ensures r == Ok(ReportShadow(PrefixRun(rt, m, feat, cert, rt.pack.baseScore, program), rt.checkpoints))
  {
    if rt.compiled.Some? && rt.layout.Some? && rt.compiledRoute && rt.hotKernel {
      var h := new CheckpointHandler(cert, rt.pack.baseScore);
      var run := RunStages(rt, feat, rt.pack.baseScore, scratch, rt.compiled, nanFree, h, m);
      program := nanFree && rt.late.Some?;
      r := Ok(ReportShadow(Ascent(run.value.0, run.value.1, h.st), rt.checkpoints));
    } else {
      r := ShadowRowFrom(rt, feat, rt.pack.baseScore, cert, scratch, nHot, m);
      program := false;
    }
  }

  datatype Output = Output(score: real, reject: bool, visitedTrees: nat, treesUsed: nat, fallbackUsed: bool)

  const CONTINUATION: InferMode := L2RouteExactReordered

  /** The exact continuation of a plain prefix run: traverse the plan from the first tree not used. */
  method Continue(m: SoaModel, plan: TreeOrder, feat: Row, tau: real, shadow: Shadow, nanFree: bool)
    returns (exit: Exit)
    requires m.Valid() && plan.Fits(m) && |feat| == m.nFeatures && (nanFree ==> GoesRight(m, feat))
             && shadow.treesUsed <= |plan.order|
    ensures exit ==
            Traverse(Settings(tau, CONTINUATION, None, 0.0, 0.0, 1), plan, PlanScores(m, plan, feat), shadow.treesUsed,
                shadow.prefixScore, 0)
  {
    var s := Settings(tau, CONTINUATION, None, 0.0, 0.0, 1);
    if nanFree {
      RightScores(m, plan, feat);
      exit := TraverseFloatNomissFrom(m, feat, s, shadow.prefixScore, plan, shadow.treesUsed);
    } else {
      exit := TraverseGenericFrom(m, None, null, feat, s, shadow.prefixScore, plan, shadow.treesUsed);
    }
  }

  /** The stages meet, and the start score is used. */
  predicate Splits(rt: Runtime, start: real) {
    rt.hotKernel && rt.layout.Some? ==>
      && StagesMeet(rt.layout.value, rt.HotLimit())
      && (|rt.layout.value.hotValues| > 0 || start == rt.pack.baseScore)
  }

  /** A prefix run from any start score is exact, and decides what its certifier says at exact prefixes. */
  lemma PrefixRunIsExact(rt: Runtime, m: SoaModel, row: Row, cert: Certifier, start: real, program: bool)
    requires Fits(rt, m) && |row| == m.nFeatures && Splits(rt, start)
    ensures var v := PlanScores(m, rt.plan, row);
            var a := PrefixRun(rt, m, row, cert, start, program);
            && a.trees <= |v| && a.tally.score == start + Sum(v, a.trees)
            && (a.st.decision.Some? ==> Seen(cert, rt.checkpoints, start, v, a.st.decision.value.0))
  {
    var v := PlanScores(m, rt.plan, row);
    var base := rt.pack.baseScore;
    if rt.hotKernel {
      var hotEvals, lateEvals := HotEvals(rt.hotPack.value, row), LateEvals(rt, m, row, program);
      LayoutStagesFit(rt.layout.value, rt.checkpoints, rt.HotLimit(), |hotEvals|, |rt.pack.trees|);
      TwoStageExact(cert, start, rt.layout.value, hotEvals, lateEvals, rt.HotLimit(), base, start, v);
      TwoStageDecides(cert, start, rt.layout.value, hotEvals, lateEvals, rt.HotLimit(), base, start, v, rt.checkpoints);
    } else {
      var evals, st := QsEvals(rt.pack, m, rt.plan, row), HandlerState(start, None, None);
      ClimbSums(cert, start, st, Positions(|rt.checkpoints|), rt.checkpoints, 0, Tally(start, 0, 0), evals, v, 0);
      ClimbDecides(cert, start, st, Positions(|rt.checkpoints|), rt.checkpoints, 0, Tally(start, 0, 0), evals, v, 0,
          rt.checkpoints, start);
    }
  }

  /** A reported run added its trees to the start score, and decided what its certifier says at an exact prefix. */
  /** A prefix run shows its certifier the exact prefix scores at the checkpoints in turn, and stops at the first it
      answers. */
  lemma PrefixRunStopsFirst(rt: Runtime, m: SoaModel, row: Row, cert: Certifier, start: real, program: bool)
    returns (sights: seq<Sight>)
    requires Fits(rt, m) && |row| == m.nFeatures && Splits(rt, start)
    ensures Within(rt.checkpoints, PlanScores(m, rt.plan, row))
    ensures StopsFirst(cert, rt.checkpoints, start, PlanScores(m, rt.plan, row), sights,
              PrefixRun(rt, m, row, cert, start, program))
  {
    var v := PlanScores(m, rt.plan, row);
    if rt.hotKernel {
      var hotEvals, lateEvals := HotEvals(rt.hotPack.value, row), LateEvals(rt, m, row, program);
      LayoutStagesFit(rt.layout.value, rt.checkpoints, rt.HotLimit(), |hotEvals|, |rt.pack.trees|);
      sights := TwoStageStopsFirst(cert, start, rt.layout.value, hotEvals, lateEvals, rt.HotLimit(), rt.pack.baseScore,
        v, rt.checkpoints);
    } else {
      sights := ClimbStopsFirst(cert, start, rt.checkpoints, QsEvals(rt.pack, m, rt.plan, row), v);
    }
  }

  /** What is reported of a run: its prefix, and either the answer and the checkpoint it came at, or the last checkpoint
      to go on from. */
  lemma ShadowReports(a: Ascent, checkpoints: seq<nat>)
    requires |checkpoints| > 0 && (a.st.decision.Some? ==> a.st.decision.value.1 == a.trees)
    ensures var s := ReportShadow(a, checkpoints);
            && s.prefixScore == a.tally.score && s.treesUsed == a.trees && s.workEvals == a.tally.work
            && s.resolvedEarly == a.tally.resolved && (s.fallbackUsed <==> a.st.decision.None?)
            && (!s.fallbackUsed ==> s.directCheckpoint == s.treesUsed && s.fallbackEntry == 0
                                    && Verdict(s.reject, s.routeScore) == a.st.decision.value.0)
            && (s.fallbackUsed ==> s.directCheckpoint == 0 && s.fallbackEntry == checkpoints[|checkpoints| - 1]
                                   && !s.reject && s.routeScore == s.prefixScore)
  {}

  ghost predicate ExactRun(s: Shadow, cert: Certifier, checkpoints: seq<nat>, start: real, v: seq<real>) {
    && s.treesUsed <= |v| && s.prefixScore == start + Sum(v, s.treesUsed)
    && (!s.fallbackUsed ==> exists d: Verdict :: Seen(cert, checkpoints, start, v, d) && d.reject == s.reject)
  }

  lemma ShadowIsExact(rt: Runtime, m: SoaModel, row: Row, cert: Certifier, start: real, program: bool)
    requires Fits(rt, m) && |row| == m.nFeatures && Splits(rt, start)
    ensures ExactRun(ReportShadow(PrefixRun(rt, m, row, cert, start, program), rt.checkpoints), cert, rt.checkpoints,
                     start, PlanScores(m, rt.plan, row))
  {
    PrefixRunIsExact(rt, m, row, cert, start, program);
  }

  /** What a row's prediction says of its run: the direct decision, or the continuation's. */
  ghost predicate Reports(o: Output, a: Ascent, plan: TreeOrder, tau: real, base: real, v: seq<real>)
  {
    && o.treesUsed == a.trees
    && match a.st.decision
       case Some(d) => !o.fallbackUsed && o.score == d.0.routeScore && o.reject == d.0.reject && o.visitedTrees == 0
       case None => ContinuedFrom(o, plan, tau, a.trees, base, v)
  }

  /** The continuation of a prefix added trees, in order, until the bounds told. */
  ghost predicate ContinuedFrom(o: Output, plan: TreeOrder, tau: real, trees: nat, base: real, v: seq<real>) {
    && o.fallbackUsed && o.treesUsed == trees <= o.visitedTrees <= |v| && o.score == base + Sum(v, o.visitedTrees)
    && |plan.suffixMin| == |plan.suffixMax| == |v| + 1
    && FirstDecided(EveryTree(tau), plan, v, trees, base + Sum(v, trees),
         Exit(o.score, o.reject, o.visitedTrees, NO_META))
  }

  /** With a sound certifier the prefix run is exact, and decides as all trees do. */
  lemma PrefixDecidesRight(rt: Runtime, m: SoaModel, row: Row, cert: Certifier, tau: real, program: bool)
    requires Fits(rt, m) && |row| == m.nFeatures && Splits(rt, rt.pack.baseScore) && IsPermutation(m, rt.plan)
    requires CertifierSound(cert, rt.checkpoints, rt.pack.baseScore, PlanScores(m, rt.plan, row), tau)
    ensures var a := PrefixRun(rt, m, row, cert, rt.pack.baseScore, program);
            && a.trees <= |rt.plan.order|
            && a.tally.score == rt.pack.baseScore + Sum(PlanScores(m, rt.plan, row), a.trees)
            && (a.st.decision.Some? ==>
                  (a.st.decision.value.0.reject <==> rt.pack.baseScore + Total(TreeScores(m, row)) >= tau))
  {
    PrefixRunIsExact(rt, m, row, cert, rt.pack.baseScore, program);
    PlanTotal(m, rt.plan, row);
  }

  /** A row whose prefix run fell back. */
  method FinishRow(m: SoaModel, plan: TreeOrder, row: Row, tau: real, shadow: Shadow, ghost base: real)
    returns (o: Output)
    requires m.Valid() && plan.Fits(m) && |row| == m.nFeatures && GoesRight(m, row) && IsPermutation(m, plan)
    requires BoundsCover(plan, PlanScores(m, plan, row)) && shadow.treesUsed <= |plan.order|
    requires shadow.prefixScore == base + Sum(PlanScores(m, plan, row), shadow.treesUsed)
    ensures o.reject <==> base + Total(TreeScores(m, row)) >= tau
    ensures ContinuedFrom(o, plan, tau, shadow.treesUsed, base, PlanScores(m, plan, row))
  {
    var exit := Continue(m, plan, row, tau, shadow, true);
    ContinuationIsExact(m, plan, row, tau, base, shadow.treesUsed);
    o := Output(exit.score, exit.pass, exit.visited, shadow.treesUsed, true);
  }

  /** The continuation looks at the bounds after every tree. */
  function EveryTree(tau: real): Settings { Settings(tau, CONTINUATION, None, 0.0, 0.0, 1) }

  /** The continuation of an exact prefix decides as all trees do, where the bounds first tell. */
  lemma ContinuationIsExact(m: SoaModel, plan: TreeOrder, row: Row, tau: real, base: real, trees: nat)
    requires m.Valid() && |row| == m.nFeatures && plan.Fits(m) && IsPermutation(m, plan)
    requires BoundsCover(plan, PlanScores(m, plan, row)) && trees <= |plan.order|
    ensures var v := PlanScores(m, plan, row);
            var e := Traverse(EveryTree(tau), plan, v, trees, base + Sum(v, trees), 0);
            && (e.pass <==> base + Total(TreeScores(m, row)) >= tau)
            && FirstDecided(EveryTree(tau), plan, v, trees, base + Sum(v, trees), e)
            && e.score == base + Sum(v, e.visited)
  {
    PlanTotal(m, plan, row);
    ContinuationDecides(plan, PlanScores(m, plan, row), tau, base, trees);
  }

  lemma ContinuationDecides(plan: TreeOrder, v: seq<real>, tau: real, base: real, trees: nat)
    requires |plan.order| == |v| && BoundsCover(plan, v) && trees <= |v|
    ensures var e := Traverse(EveryTree(tau), plan, v, trees, base + Sum(v, trees), 0);
            && (e.pass <==> base + Total(v) >= tau)
            && FirstDecided(EveryTree(tau), plan, v, trees, base + Sum(v, trees), e)
            && e.score == base + Sum(v, e.visited)
  {
    EarlyExitKeepsDecision(EveryTree(tau), plan, v, trees, base + Sum(v, trees), 0);
    BoundExit(EveryTree(tau), plan, v, trees, base + Sum(v, trees), 0);
  }

  /** One row, end to end: `reject` is the decision of the whole ensemble. */
  method PredictRow(rt: Runtime, m: SoaModel, row: Row, tau: real, foldId: int, extra: Certifier, scratch: Scratch,
                    nHot: nat)
    returns (r: Result<Output>, ghost program: bool)
    requires Fits(rt, m) && |row| == m.nFeatures && NoneMisled(rt, m, row) && scratch.Sized(m.nFeatures, nHot)
    requires rt.hotPack.Some? ==> nHot == |rt.hotPack.value.hotGlobalFidx|
    requires Splits(rt, rt.pack.baseScore)
    requires BoundsCover(rt.plan, PlanScores(m, rt.plan, row)) && IsPermutation(m, rt.plan)
    requires CertifierSound(BandCertifier(rt.tables, foldId, tau, extra), rt.checkpoints, rt.pack.baseScore,
             PlanScores(m, rt.plan, row), tau)
    modifies scratch.Footprint()
    ensures scratch.Sized(m.nFeatures, nHot)
    ensures r.Ok? && (r.value.reject <==> rt.pack.baseScore + Total(TreeScores(m, row)) >= tau)
    ensures Reports(r.value,
                    PrefixRun(rt, m, row, BandCertifier(rt.tables, foldId, tau, extra), rt.pack.baseScore, program),
                    rt.plan, tau, rt.pack.baseScore, PlanScores(m, rt.plan, row))
  {
    var cert := BandCertifier(rt.tables, foldId, tau, extra);
    var shadow;
    shadow, program := ShadowRow(rt, row, cert, scratch, nHot, true, m);
    PrefixDecidesRight(rt, m, row, cert, tau, program);
    if !shadow.value.fallbackUsed {
      return Ok(Output(shadow.value.routeScore, shadow.value.reject, 0, shadow.value.treesUsed, false)), program;
    }
    var o := FinishRow(m, rt.plan, row, tau, shadow.value, rt.pack.baseScore);
    r := Ok(o);
  }
}
