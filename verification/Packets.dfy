/** Packet scheduling: the trees come in packets, a policy picks the next packet from the score so far,
    and the continuation adds every packet the scheduler did not run. */
module Packets {
  import opened Forest
  import opened Search
  import opened Tallies
  import opened LeafMasks
  import opened QuickScorer
  import opened QuickScorerExact
  import opened Ladders
  import opened HotPacks
  import opened Calibration
  import opened Marks

  /** `blockProxy` is the work a compiled packet is charged with. */
  datatype Packet = Packet(packetId: nat, treeIndices: seq<nat>, treeCount: nat, blockProxy: nat,
                           compiled: Option<PrefixPack>)

  /** Rankings and lists of packets hold 16-bit words. */
  const WORDS: nat := 0x1_0000
  type Word16 = n: nat | n < WORDS

  datatype Policy = Policy(
    tauEdges: seq<real>, gapEdgesByStep: seq<seq<real>>, deltaEdgesByStep: seq<seq<real>>,
    stateRankings: map<(nat, nat, nat, nat), seq<Word16>>,
    stepTauDefaults: map<(nat, nat), seq<Word16>>,
    stepDefaults: map<nat, seq<Word16>>)
  {
    /** The ranking of the exact state, else of the step and threshold bin, else of the step. */
    function Ranking(step: nat, tauBin: nat, gapBin: nat, deltaBin: nat): seq<Word16> {
      if (step, tauBin, gapBin, deltaBin) in stateRankings then stateRankings[(step, tauBin, gapBin, deltaBin)]
      else if (step, tauBin) in stepTauDefaults then stepTauDefaults[(step, tauBin)]
      else if step in stepDefaults then stepDefaults[step]
      else []
    }
  }

  datatype Scheduler = Scheduler(maxSteps: nat, packets: seq<Packet>, policy: Policy) {
    ghost predicate Valid(nFeatures: nat) {
      && (forall i: nat | i < |packets| :: packets[i].packetId == i && PacketOk(packets[i], nFeatures))
      && |policy.gapEdgesByStep| == |policy.deltaEdgesByStep| == maxSteps
    }

    ghost predicate PacketOk(p: Packet, nFeatures: nat) { p.compiled.Some? ==> p.compiled.value.Valid(nFeatures) }
  }

  // ---------------------------------------------------------------- choosing a packet

  function FirstRanked(ranking: seq<nat>, used: seq<bool>): (r: Option<nat>)
    ensures r.Some? ==> r.value in ranking && r.value < |used| && !used[r.value]
    ensures r.None? ==> forall i | i in ranking && i < |used| :: used[i]
  {
    if |ranking| == 0 then None
    else if ranking[0] < |used| && !used[ranking[0]] then Some(ranking[0])
    else FirstRanked(ranking[1..], used)
  }

  function FirstUnused(used: seq<bool>, from: nat): (r: Option<nat>)
    requires from <= |used|
    ensures r.Some? ==> from <= r.value < |used| && !used[r.value]
    ensures r.None? ==> forall i | from <= i < |used| :: used[i]
    decreases |used| - from
  {
    if from == |used| then None else if !used[from] then Some(from) else FirstUnused(used, from + 1)
  }

  /** The next packet: the policy's first unused one, else the first unused one; none only when all are used. */
  function Choose(ranking: seq<nat>, used: seq<bool>): (r: Option<nat>)
    ensures r.Some? ==> r.value < |used| && !used[r.value]
    ensures r.None? <==> forall i | 0 <= i < |used| :: used[i]
  {
    if FirstRanked(ranking, used).Some? then FirstRanked(ranking, used) else FirstUnused(used, 0)
  }

  method ChoosePacket(ranking: seq<nat>, used: seq<bool>) returns (r: Option<nat>)
    ensures r == Choose(ranking, used)
  {
    for k := 0 to |ranking|
      invariant FirstRanked(ranking, used) == FirstRanked(ranking[k..], used)
    {
      var idx := ranking[k];
      if idx < |used| && !used[idx] {
        return Some(idx);
      }
      assert ranking[k..][1..] == ranking[k + 1..];
    }
    for p := 0 to |used|
      invariant FirstUnused(used, 0) == FirstUnused(used, p)
    {
      if !used[p] {
        return Some(p);
      }
    }
    return None;
  }

  // ---------------------------------------------------------------- evaluating a packet

  /** A compiled packet, walked tree by tree straight from the row. */
  method HotScoreFull(pack: PrefixPack, feat: Row) returns (score: real, nodeEvals: nat)
    requires pack.Valid(|feat|)
    ensures var t := Run(Tally(0.0, 0, 0), HotEvals(pack, feat), 0, |pack.nodes.treeRoots|);
            score == t.score && nodeEvals == t.work
  {
    ghost var hot := HotRow(pack, feat);
    score, nodeEvals := 0.0, 0;
    for pos := 0 to |pack.nodes.treeRoots|
      invariant var t := Run(Tally(0.0, 0, 0), HotEvals(pack, feat), 0, pos); score == t.score && nodeEvals == t.work
    {
      var leaf, evals := WalkFromRow(pack, feat, pack.nodes.treeRoots[pos]);
      score := score + leaf;
      nodeEvals := nodeEvals + evals;
    }
  }

  method WalkFromRow(pack: PrefixPack, feat: Row, root: nat) returns (leaf: real, evals: nat)
    requires pack.Valid(|feat|) && root < pack.nodes.NodeCount()
    ensures leaf == pack.nodes.leaf[Walk(pack.nodes, HotRow(pack, feat), root)]
    ensures evals == Depth(pack.nodes, HotRow(pack, feat), root)
  {
    var idx := root;
    ghost var hot := HotRow(pack, feat);
    evals := 0;
    while !pack.nodes.isLeaf[idx]
      invariant idx < pack.nodes.NodeCount()
      invariant Walk(pack.nodes, hot, idx) == Walk(pack.nodes, hot, root)
      invariant evals + Depth(pack.nodes, hot, idx) == Depth(pack.nodes, hot, root)
      decreases pack.nodes.NodeCount() - idx
    {
      assert pack.nodes.SplitOk(idx);
      var x := feat[pack.hotGlobalFidx[pack.nodes.fidx[idx]]];
      evals := evals + 1;
      idx := match x
        case NaN => pack.nodes.missing[idx]
        case Num(v) => if v < pack.nodes.thr[idx] then pack.nodes.left[idx] else pack.nodes.right[idx];
    }
    leaf := pack.nodes.leaf[idx];
  }

  function PacketEval(pack: QsPack, ans: seq<Answer>, p: Packet, row: Row): Result<TreeEval>
    requires pack.Valid() && AnswersFit(pack, ans) && (p.compiled.Some? ==> p.compiled.value.Valid(|row|))
  {
    match p.compiled
    case Some(c) => Ok(TreeEval(Run(Tally(0.0, 0, 0), HotEvals(c, row), 0, |c.nodes.treeRoots|).score, p.blockProxy, 0))
    case None =>
      match ScoreIndices(pack, ans, p.treeIndices, |p.treeIndices|, Tally(0.0, 0, 0))
      case Err => Err
      case Ok(t) => Ok(TreeEval(t.score, t.work, t.resolved))
  }

  method EvalPacket(pack: QsPack, p: Packet, feat: Row, ranks: seq<nat>, missing: seq<nat>)
    returns (r: Result<TreeEval>)
    requires pack.Valid() && |ranks| == |missing| && AnswersFit(pack, FromBuffers(ranks, missing))
    requires p.compiled.Some? ==> p.compiled.value.Valid(|feat|)
    ensures r == PacketEval(pack, FromBuffers(ranks, missing), p, feat)
  {
    if p.compiled.Some? {
      var score, _ := HotScoreFull(p.compiled.value, feat);
      return Ok(TreeEval(score, p.blockProxy, 0));
    }
    var t := ScoreTreeIndices(pack, p.treeIndices, ranks, missing, Tally(0.0, 0, 0));
    r := if t.Err? then Err else Ok(TreeEval(t.value.score, t.value.work, t.value.resolved));
  }

  /** Evaluating packet `i` gives `evals[i]`. */
  ghost predicate PacketsGive(sched: Scheduler, pack: QsPack, row: Row, evals: seq<TreeEval>) {
    && pack.Valid() && |row| == pack.nFeatures && sched.Valid(|row|) && |evals| == |sched.packets|
    && forall i: nat | i < |evals| :: PacketEval(pack, Answers(pack, row), sched.packets[i], row) == Ok(evals[i])
  }

  // ---------------------------------------------------------------- a run

  function NoMarks(n: nat): (marks: seq<bool>)
    ensures |marks| == n && forall i | 0 <= i < n :: !marks[i]
  {
    seq(n, _ => false)
  }

  ghost predicate Within(ids: seq<nat>, n: nat) { forall k | 0 <= k < |ids| :: ids[k] < n }

  /** The tally after the first `n` packets of a run. */
  function TallyAfter(base: real, evals: seq<TreeEval>, ids: seq<nat>, n: nat): Tally
    requires n <= |ids| && forall k | 0 <= k < |ids| :: ids[k] < |evals|
  {
    if n == 0 then Tally(base, 0, 0) else TallyAfter(base, evals, ids, n - 1).Add(evals[ids[n - 1]])
  }

  function TreesAfter(sched: Scheduler, ids: seq<nat>, n: nat): nat
    requires n <= |ids| && forall k | 0 <= k < |ids| :: ids[k] < |sched.packets|
  {
    if n == 0 then 0 else TreesAfter(sched, ids, n - 1) + sched.packets[ids[n - 1]].treeCount
  }

  /** What the policy sees before step `k`, and the ranking it gives. */
  function RankingAt(sched: Scheduler, tau: real, score: real, delta: real, k: nat): seq<Word16>
    requires k < |sched.policy.gapEdgesByStep| == |sched.policy.deltaEdgesByStep|
  {
    var p := sched.policy;
    p.Ranking(k, if |p.tauEdges| < 2 then 0 else Bin(p.tauEdges, tau),
              Bin(p.gapEdgesByStep[k], tau - score), Bin(p.deltaEdgesByStep[k], delta))
  }

  function DeltaAt(evals: seq<TreeEval>, ids: seq<nat>, k: nat): real
    requires k <= |ids| && forall j | 0 <= j < |ids| :: ids[j] < |evals|
  {
    if k == 0 then 0.0 else evals[ids[k - 1]].value
  }

  /** Step `k` ran the packet the policy chose among those not run before. */
  ghost predicate Chosen(sched: Scheduler, evals: seq<TreeEval>, base: real, tau: real, ids: seq<nat>, k: nat)
    requires k < |ids| <= sched.maxSteps == |sched.policy.gapEdgesByStep| == |sched.policy.deltaEdgesByStep|
    requires Within(ids, |evals|)
  {
    Choose(RankingAt(sched, tau, TallyAfter(base, evals, ids, k).score, DeltaAt(evals, ids, k), k),
           MarkAll(NoMarks(|evals|), ids, k)) == Some(ids[k])
  }

  /** What the certifier sees after step `k`. */
  function SightAt(evals: seq<TreeEval>, base: real, ids: seq<nat>, checkpoints: seq<nat>, k: nat): Sight
    requires k < |ids| && k < |checkpoints| && forall j | 0 <= j < |ids| :: ids[j] < |evals|
  {
    var t := TallyAfter(base, evals, ids, k + 1);
    Sight(k, checkpoints[k], t.score, t.work, t.resolved, evals[ids[k]].value, 0.0)
  }

  /** The certifier sees the exact score so far and what the last packet added. */
  lemma SightIsExact(evals: seq<TreeEval>, base: real, v: seq<real>, ids: seq<nat>, checkpoints: seq<nat>, k: nat)
    requires k < |ids| && k < |checkpoints| && Within(ids, |evals|) && HaveValues(evals, v)
    ensures var s := SightAt(evals, base, ids, checkpoints, k);
            && s.cpIdx == k && s.checkpoint == checkpoints[k] && s.score == base + PositionsSum(v, ids, k + 1)
            && s.deltaPrev == v[ids[k]] && s.deltaFrom64 == 0.0
  {
    TallyIsSum(base, evals, v, ids, k + 1);
  }

  /** A run of the scheduler: every step took the policy's choice. */
  ghost predicate Follows(sched: Scheduler, evals: seq<TreeEval>, base: real, tau: real, ids: seq<nat>) {
    && |ids| <= sched.maxSteps == |sched.policy.gapEdgesByStep| == |sched.policy.deltaEdgesByStep|
    && Within(ids, |evals|)
    && forall k: nat | k < |ids| :: Chosen(sched, evals, base, tau, ids, k)
  }

  /** No packet runs twice. */
  lemma {:induction false} NoPacketTwice(sched: Scheduler, evals: seq<TreeEval>, base: real, tau: real, ids: seq<nat>,
                                         n: nat)
    requires Follows(sched, evals, base, tau, ids) && n <= |ids|
    ensures AllNew(NoMarks(|evals|), ids, n)
  {
    if n == 0 {
    } else {
      NoPacketTwice(sched, evals, base, tau, ids, n - 1);
      assert Chosen(sched, evals, base, tau, ids, n - 1);
      MarkAllMarks(NoMarks(|evals|), ids, n - 1, ids[n - 1]);
      forall j | 0 <= j < n - 1 ensures ids[j] != ids[n - 1] { assert ids[j] in ids[..n - 1]; }
    }
  }

  lemma {:induction false} TallyIsSum(base: real, evals: seq<TreeEval>, v: seq<real>, ids: seq<nat>, n: nat)
    requires n <= |ids| && Within(ids, |evals|) && HaveValues(evals, v)
    ensures TallyAfter(base, evals, ids, n).score == base + PositionsSum(v, ids, n)
  {
    if n > 0 { TallyIsSum(base, evals, v, ids, n - 1); }
  }

  // ---------------------------------------------------------------- what a step runs

  /** Position `j` of the list names a packet that has not run yet. */
  predicate NamesNew(list: seq<nat>, done: seq<nat>, n: nat, j: nat)
    requires j < |list|
  {
    list[j] < n && list[j] !in done
  }

  /** Among `n` packets `p` is the earliest of the list that has not run yet, or, when the list names none, the least
      packet that has not. */
  ghost predicate ListRight(list: seq<nat>, done: seq<nat>, n: nat, p: nat) {
    if exists j: nat :: j < |list| && NamesNew(list, done, n, j)
    then exists j: nat :: j < |list| && NamesNew(list, done, n, j) && list[j] == p
           && forall i: nat | i < j :: !NamesNew(list, done, n, i)
    else LeastNew(done, n, p)
  }

  ghost predicate LeastNew(done: seq<nat>, n: nat, p: nat) {
    p < n && p !in done && forall q: nat | q < p :: q in done
  }

  /** The list of the exact state decides, without one that of the step and threshold bin, without that the step's, and
      without any the packets' own order. */
  ghost predicate StepRight(policy: Policy, k: nat, tauBin: nat, gapBin: nat, deltaBin: nat, done: seq<nat>, n: nat,
                            p: nat)
  {
    if (k, tauBin, gapBin, deltaBin) in policy.stateRankings
    then ListRight(policy.stateRankings[(k, tauBin, gapBin, deltaBin)], done, n, p)
    else if (k, tauBin) in policy.stepTauDefaults then ListRight(policy.stepTauDefaults[(k, tauBin)], done, n, p)
    else if k in policy.stepDefaults then ListRight(policy.stepDefaults[k], done, n, p)
    else LeastNew(done, n, p)
  }

  /** The marks are those of the packets that have run. */
  ghost predicate Marked(used: seq<bool>, done: seq<nat>) {
    forall i: nat | i < |used| :: used[i] <==> i in done
  }

  lemma {:induction false} FirstRankedIsEarliest(list: seq<nat>, used: seq<bool>, done: seq<nat>) returns (j: nat)
    requires Marked(used, done)
    ensures FirstRanked(list, used).Some? ==>
              j < |list| && NamesNew(list, done, |used|, j) && FirstRanked(list, used) == Some(list[j])
    ensures forall i: nat | i < |list| && (i < j || FirstRanked(list, used).None?) :: !NamesNew(list, done, |used|, i)
  {
    j := 0;
    if |list| > 0 && !NamesNew(list, done, |used|, 0) {
      var rest := FirstRankedIsEarliest(list[1..], used, done);
      j := rest + 1;
      forall i: nat | i < |list| && (i < j || FirstRanked(list, used).None?)
        ensures !NamesNew(list, done, |used|, i)
      {
        if i > 0 { assert !NamesNew(list[1..], done, |used|, i - 1); }
      }
    }
  }

  lemma {:induction false} FirstUnusedIsLeast(used: seq<bool>, from: nat)
    requires from <= |used|
    ensures FirstUnused(used, from).Some? ==> forall i | from <= i < FirstUnused(used, from).value :: used[i]
    decreases |used| - from
  {
    if from < |used| && used[from] { FirstUnusedIsLeast(used, from + 1); }
  }

  lemma ChoiceIsRight(list: seq<nat>, used: seq<bool>, done: seq<nat>, p: nat)
    requires Marked(used, done) && Choose(list, used) == Some(p)
    ensures ListRight(list, done, |used|, p)
  {
    var j := FirstRankedIsEarliest(list, used, done);
    FirstUnusedIsLeast(used, 0);
  }

  lemma MarksAreRun(n: nat, ids: seq<nat>, k: nat)
    requires k <= |ids| && Within(ids, n)
    ensures Marked(MarkAll(NoMarks(n), ids, k), ids[..k])
  {
    forall i: nat | i < n ensures MarkAll(NoMarks(n), ids, k)[i] <==> i in ids[..k] {
      MarkAllMarks(NoMarks(n), ids, k, i);
    }
  }

  /** The value of the last of the first `k` packets, 0 before any has run. */
  function LastValue(v: seq<real>, ids: seq<nat>, k: nat): real
    requires k <= |ids| && Within(ids, |v|)
  {
    if k == 0 then 0.0 else v[ids[k - 1]]
  }

  /** Every step of a run runs the packet the policy's maps say for the bins of the threshold, of the threshold less the
      score so far, and of the last packet's value. */
  lemma StepFollowsPolicy(sched: Scheduler, evals: seq<TreeEval>, base: real, tau: real, v: seq<real>, ids: seq<nat>,
                          k: nat)
    returns (tauBin: nat, gapBin: nat, deltaBin: nat)
    requires Follows(sched, evals, base, tau, ids) && HaveValues(evals, v) && k < |ids|
    ensures InBin(sched.policy.tauEdges, tau, tauBin)
    ensures InBin(sched.policy.gapEdgesByStep[k], tau - (base + PositionsSum(v, ids, k)), gapBin)
    ensures InBin(sched.policy.deltaEdgesByStep[k], LastValue(v, ids, k), deltaBin)
    ensures StepRight(sched.policy, k, tauBin, gapBin, deltaBin, ids[..k], |evals|, ids[k])
  {
    var p := sched.policy;
    assert Chosen(sched, evals, base, tau, ids, k);
    TallyIsSum(base, evals, v, ids, k);
    tauBin := if |p.tauEdges| < 2 then 0 else Bin(p.tauEdges, tau);
    gapBin := Bin(p.gapEdgesByStep[k], tau - (base + PositionsSum(v, ids, k)));
    deltaBin := Bin(p.deltaEdgesByStep[k], LastValue(v, ids, k));
    BinIsIn(p.tauEdges, tau);
    BinIsIn(p.gapEdgesByStep[k], tau - (base + PositionsSum(v, ids, k)));
    BinIsIn(p.deltaEdgesByStep[k], LastValue(v, ids, k));
    MarksAreRun(|evals|, ids, k);
    ChoiceIsRight(RankingAt(sched, tau, TallyAfter(base, evals, ids, k).score, DeltaAt(evals, ids, k), k),
        MarkAll(NoMarks(|evals|), ids, k), ids[..k], ids[k]);
  }

  /** With sorted edges there is one bin for each, so the maps say which packet runs. */
  lemma SortedStepFollowsPolicy(sched: Scheduler, evals: seq<TreeEval>, base: real, tau: real, v: seq<real>,
                                ids: seq<nat>, k: nat, tauBin: nat, gapBin: nat, deltaBin: nat)
    requires Follows(sched, evals, base, tau, ids) && HaveValues(evals, v) && k < |ids|
    requires Sorted(sched.policy.tauEdges) && Sorted(sched.policy.gapEdgesByStep[k])
             && Sorted(sched.policy.deltaEdgesByStep[k])
    requires InBin(sched.policy.tauEdges, tau, tauBin)
    requires InBin(sched.policy.gapEdgesByStep[k], tau - (base + PositionsSum(v, ids, k)), gapBin)
    requires InBin(sched.policy.deltaEdgesByStep[k], LastValue(v, ids, k), deltaBin)
    ensures StepRight(sched.policy, k, tauBin, gapBin, deltaBin, ids[..k], |evals|, ids[k])
  {
    var t, g, d := StepFollowsPolicy(sched, evals, base, tau, v, ids, k);
    InOneBin(sched.policy.tauEdges, tau, tauBin, t);
    InOneBin(sched.policy.gapEdgesByStep[k], tau - (base + PositionsSum(v, ids, k)), gapBin, g);
    InOneBin(sched.policy.deltaEdgesByStep[k], LastValue(v, ids, k), deltaBin, d);
  }

  lemma {:induction false} NothingMarked(v: seq<real>, n: nat)
    requires n <= |v|
    ensures MarkedSum(v, NoMarks(|v|), n) == 0.0
  {
    if n > 0 { NothingMarked(v, n - 1); }
  }

  /** The score after a run is base plus the marked packets. */
  lemma RunIsMarked(sched: Scheduler, evals: seq<TreeEval>, base: real, tau: real, v: seq<real>, ids: seq<nat>)
    requires Follows(sched, evals, base, tau, ids) && HaveValues(evals, v)
    ensures TallyAfter(base, evals, ids, |ids|).score == base + MarkedSum(v, MarkAll(NoMarks(|v|), ids, |ids|), |v|)
  {
    NoPacketTwice(sched, evals, base, tau, ids, |ids|);
    TallyIsSum(base, evals, v, ids, |ids|);
    MarkAllSum(v, NoMarks(|v|), ids, |ids|);
    NewHasNoOverlap(v, NoMarks(|v|), ids, |ids|);
    NothingMarked(v, |v|);
  }

  // ---------------------------------------------------------------- the scheduler loop

  datatype PacketShadow = PacketShadow(
    prefixScore: real, treesUsed: nat, workEvals: nat, resolvedEarly: nat, reject: bool, routeScore: real,
    fallbackUsed: bool, directCheckpoint: nat, fallbackEntry: nat, selected: seq<nat>)

  /** Selected packets are kept in 16-bit words, larger numbers as the largest word. */
  function Clamp(id: nat): nat { if id < 0xFFFF then id else 0xFFFF }

  function Clamped(ids: seq<nat>): (r: seq<nat>)
    ensures |r| == |ids|
  {
    seq(|ids|, k requires 0 <= k < |ids| => Clamp(ids[k]))
  }

  /** The first `n` steps did not certify. */
  ghost predicate Undecided(cert: Certifier, evals: seq<TreeEval>, base: real, ids: seq<nat>, checkpoints: seq<nat>,
                            n: nat)
    requires n <= |ids| && n <= |checkpoints| && Within(ids, |evals|)
  {
    forall k: nat | k < n :: cert(SightAt(evals, base, ids, checkpoints, k)).None?
  }

  /** A shadow run that ran the packets `ids`: it stopped at the first step that certified, and is a
      fallback when none of the allowed steps did. */
  ghost predicate Reports(out: PacketShadow, sched: Scheduler, cert: Certifier, evals: seq<TreeEval>, base: real,
                          ids: seq<nat>, checkpoints: seq<nat>)
    requires |ids| <= |checkpoints| && Within(ids, |evals|) && |evals| == |sched.packets|
  {
    var t := TallyAfter(base, evals, ids, |ids|);
    && out.prefixScore == t.score && out.workEvals == t.work && out.resolvedEarly == t.resolved
    && out.treesUsed == TreesAfter(sched, ids, |ids|) && out.selected == Clamped(ids)
    && if out.fallbackUsed then
         && |ids| == |checkpoints| && Undecided(cert, evals, base, ids, checkpoints, |ids|)
         && !out.reject && out.routeScore == t.score && out.directCheckpoint == 0
         && out.fallbackEntry == if |checkpoints| == 0 then 0 else checkpoints[|checkpoints| - 1]
       else
         && |ids| > 0 && Undecided(cert, evals, base, ids, checkpoints, |ids| - 1)
         && cert(SightAt(evals, base, ids, checkpoints, |ids| - 1)) == Some(Verdict(out.reject, out.routeScore))
         && out.directCheckpoint == checkpoints[|ids| - 1] && out.fallbackEntry == 0
  }

  /** Adding a step keeps what held of the steps before. */
  lemma {:induction false} SameTally(base: real, evals: seq<TreeEval>, ids: seq<nat>, p: nat, n: nat)
    requires n <= |ids| && Within(ids, |evals|) && p < |evals|
    ensures TallyAfter(base, evals, ids + [p], n) == TallyAfter(base, evals, ids, n)
  {
    if n > 0 { SameTally(base, evals, ids, p, n - 1); }
  }

  lemma {:induction false} SameTrees(sched: Scheduler, ids: seq<nat>, p: nat, n: nat)
    requires n <= |ids| && Within(ids, |sched.packets|) && p < |sched.packets|
    ensures TreesAfter(sched, ids + [p], n) == TreesAfter(sched, ids, n)
  {
    if n > 0 { SameTrees(sched, ids, p, n - 1); }
  }

  /** A step of a run is chosen as before when the run is extended by the packet chosen next. */
  lemma ChosenOneMore(sched: Scheduler, evals: seq<TreeEval>, base: real, tau: real, ids: seq<nat>, p: nat, k: nat)
    requires Follows(sched, evals, base, tau, ids) && |ids| < sched.maxSteps && p < |evals| && k <= |ids|
    requires k == |ids| ==>
             Choose(RankingAt(sched, tau, TallyAfter(base, evals, ids, k).score, DeltaAt(evals, ids, k), k),
                    MarkAll(NoMarks(|evals|), ids, k)) == Some(p)
    ensures Chosen(sched, evals, base, tau, ids + [p], k)
  {
    SameTally(base, evals, ids, p, k);
    MarkAllPrefix(NoMarks(|evals|), ids, p, k);
    assert DeltaAt(evals, ids + [p], k) == DeltaAt(evals, ids, k);
    if k < |ids| { assert Chosen(sched, evals, base, tau, ids, k); }
  }

  lemma FollowsOneMore(sched: Scheduler, evals: seq<TreeEval>, base: real, tau: real, ids: seq<nat>, p: nat)
    requires Follows(sched, evals, base, tau, ids) && |ids| < sched.maxSteps && p < |evals|
    requires Choose(RankingAt(sched, tau, TallyAfter(base, evals, ids, |ids|).score, DeltaAt(evals, ids, |ids|), |ids|),
                    MarkAll(NoMarks(|evals|), ids, |ids|)) == Some(p)
    ensures Follows(sched, evals, base, tau, ids + [p])
  {
    var more := ids + [p];
    forall k: nat | k < |more| ensures Chosen(sched, evals, base, tau, more, k) {
      ChosenOneMore(sched, evals, base, tau, ids, p, k);
    }
  }

  lemma UndecidedOneMore(cert: Certifier, evals: seq<TreeEval>, base: real, ids: seq<nat>, checkpoints: seq<nat>,
                         p: nat)
    requires |ids| < |checkpoints| && Within(ids, |evals|) && p < |evals|
    requires Undecided(cert, evals, base, ids, checkpoints, |ids|)
    ensures Undecided(cert, evals, base, ids + [p], checkpoints, |ids|)
  {
    forall k: nat | k < |ids| ensures cert(SightAt(evals, base, ids + [p], checkpoints, k)).None? {
      SameTally(base, evals, ids, p, k + 1);
      assert SightAt(evals, base, ids + [p], checkpoints, k) == SightAt(evals, base, ids, checkpoints, k);
    }
  }

  /** The loop's variables are those of the run so far. */
  ghost predicate AtStep(sched: Scheduler, evals: seq<TreeEval>, base: real, tau: real, ids: seq<nat>, used: seq<bool>,
                         t: Tally, trees: nat, delta: real, selected: seq<nat>)
  {
    && Follows(sched, evals, base, tau, ids) && |evals| == |sched.packets|
    && used == MarkAll(NoMarks(|evals|), ids, |ids|) && t == TallyAfter(base, evals, ids, |ids|)
    && trees == TreesAfter(sched, ids, |ids|) && delta == DeltaAt(evals, ids, |ids|) && selected == Clamped(ids)
  }

  lemma StepTaken(sched: Scheduler, evals: seq<TreeEval>, base: real, tau: real, ids: seq<nat>, used: seq<bool>,
                  t: Tally, trees: nat, delta: real, selected: seq<nat>, p: nat)
    requires AtStep(sched, evals, base, tau, ids, used, t, trees, delta, selected) && |ids| < sched.maxSteps
             && p < |evals|
    requires Choose(RankingAt(sched, tau, t.score, delta, |ids|), used) == Some(p)
    ensures AtStep(sched, evals, base, tau, ids + [p], used[p := true], t.Add(evals[p]),
                   trees + sched.packets[p].treeCount,
                   evals[p].value, selected + [Clamp(p)])
  {
    FollowsOneMore(sched, evals, base, tau, ids, p);
    MarkOneMore(NoMarks(|evals|), ids, p);
    SameTally(base, evals, ids, p, |ids|);
    SameTrees(sched, ids, p, |ids|);
  }

  /** One step: choose, run, add. */
  method RunStep(sched: Scheduler, pack: QsPack, feat: Row, tau: real, ranks: seq<nat>, missing: seq<nat>,
                 used: seq<bool>, t: Tally, trees: nat, delta: real, selected: seq<nat>, step: nat, ghost ids: seq<nat>,
                 ghost evals: seq<TreeEval>)
    returns (r: Result<(seq<bool>, Tally, nat, real, seq<nat>)>, ghost p: nat)
    requires PacketsGive(sched, pack, feat, evals) && |ranks| == |missing|
             && FromBuffers(ranks, missing) == Answers(pack, feat)
    requires AtStep(sched, evals, pack.baseScore, tau, ids, used, t, trees, delta, selected)
             && step == |ids| < sched.maxSteps
    ensures r.Err? <==> forall i | 0 <= i < |used| :: used[i]
    ensures r.Ok? ==>
            && p < |evals|
            && AtStep(sched, evals, pack.baseScore, tau, ids + [p],
                      r.value.0, r.value.1, r.value.2, r.value.3, r.value.4)
  {
    var policy := sched.policy;
    var tauBin := if |policy.tauEdges| < 2 then 0 else Bin(policy.tauEdges, tau);
    var ranking :=
        policy.Ranking(step, tauBin, Bin(policy.gapEdgesByStep[step], tau - t.score),
            Bin(policy.deltaEdgesByStep[step], delta));
    var choice := ChoosePacket(ranking, used);
    p := 0;
    if choice.None? {
      return Err, p;
    }
    var packet := sched.packets[choice.value];
    p := packet.packetId;
    var e := EvalPacket(pack, packet, feat, ranks, missing);
    StepTaken(sched, evals, pack.baseScore, tau, ids, used, t, trees, delta, selected, p);
    r := Ok((used[packet.packetId := true], t.Add(e.value), trees + packet.treeCount, e.value.value,
             selected + [Clamp(packet.packetId)]));
  }

  /** The scheduler's run: it follows the policy, stops at the first step that certifies, and fails only
      when the calibration does not match or every packet has been run. */
  method RunPackets(sched: Scheduler, pack: QsPack, feat: Row, tau: real, cert: Certifier, checkpoints: seq<nat>,
                    ranks: array<nat>, missing: array<nat>, ghost evals: seq<TreeEval>)
    returns (r: Result<PacketShadow>, ghost ids: seq<nat>)
    requires PacketsGive(sched, pack, feat, evals)
    requires ranks.Length == missing.Length == pack.nFeatures && ranks != missing
    modifies ranks, missing
    ensures Within(ids, |evals|) && Follows(sched, evals, pack.baseScore, tau, ids)
    ensures r.Err? <==> |checkpoints| != sched.maxSteps ||
                        (|ids| < sched.maxSteps && (forall i: nat | i < |evals| :: i in ids)
                            && Undecided(cert, evals, pack.baseScore, ids, checkpoints, |ids|))
    ensures r.Ok? ==> Reports(r.value, sched, cert, evals, pack.baseScore, ids, checkpoints)
    ensures r.Ok? ==> FromBuffers(ranks[..], missing[..]) == Answers(pack, feat)
  {
    ids := [];
    if |checkpoints| != sched.maxSteps {
      return Err, ids;
    }
    QuantizeRow(pack, feat, ranks, missing);
    var used: seq<bool>, selected: seq<nat> := NoMarks(|sched.packets|), [];
    var t, trees: nat, delta := Tally(pack.baseScore, 0, 0), 0, 0.0;
    for step := 0 to sched.maxSteps
      invariant |ids| == step && AtStep(sched, evals, pack.baseScore, tau, ids, used, t, trees, delta, selected)
      invariant Undecided(cert, evals, pack.baseScore, ids, checkpoints, step)
      invariant FromBuffers(ranks[..], missing[..]) == Answers(pack, feat)
    {
      ghost var p;
      var next;
      next, p := RunStep(sched, pack, feat, tau, ranks[..], missing[..], used, t, trees, delta, selected, step, ids,
          evals);
      if next.Err? {
        AllUsed(ids, |evals|);
        return Err, ids;
      }
      UndecidedOneMore(cert, evals, pack.baseScore, ids, checkpoints, p);
      ids := ids + [p];
      used, t, trees, delta, selected := next.value.0, next.value.1, next.value.2, next.value.3, next.value.4;
      assert Sight(step, checkpoints[step], t.score, t.work, t.resolved, delta, 0.0) ==
             SightAt(evals, pack.baseScore, ids, checkpoints, step);
      var verdict := cert(Sight(step, checkpoints[step], t.score, t.work, t.resolved, delta, 0.0));
      if verdict.Some? {
        return Ok(PacketShadow(t.score, trees, t.work, t.resolved, verdict.value.reject, verdict.value.routeScore,
                               false, checkpoints[step], 0, selected)), ids;
      }
    }
    r := Ok(PacketShadow(t.score, trees, t.work, t.resolved, false, t.score, true, 0,
                         if |checkpoints| == 0 then 0 else checkpoints[|checkpoints| - 1], selected));
  }

  lemma AllUsed(ids: seq<nat>, n: nat)
    requires Within(ids, n)
    ensures (forall i | 0 <= i < n :: MarkAll(NoMarks(n), ids, |ids|)[i]) <==> forall i: nat | i < n :: i in ids
  {
    forall i: nat | i < n ensures MarkAll(NoMarks(n), ids, |ids|)[i] <==> i in ids {
      MarkAllMarks(NoMarks(n), ids, |ids|, i);
      assert ids[..|ids|] == ids;
    }
  }

  // ---------------------------------------------------------------- the continuation

  /** The words list the packets run without loss. */
  ghost predicate Lossless(ids: seq<nat>) { Clamped(ids) == ids }

  lemma SmallIsLossless(ids: seq<nat>)
    requires Within(ids, WORDS)
    ensures Lossless(ids)
  {
    forall k | 0 <= k < |ids| ensures Clamped(ids)[k] == ids[k] { assert ids[k] < WORDS; }
  }

  method MarkSelected(selected: seq<nat>, n: nat) returns (r: Result<seq<bool>>)
    ensures r.Ok? <==> Within(selected, n)
    ensures r.Ok? ==> r.value == MarkAll(NoMarks(n), selected, |selected|)
  {
    var used := NoMarks(n);
    for k := 0 to |selected|
      invariant forall j | 0 <= j < k :: selected[j] < n
      invariant used == MarkAll(NoMarks(n), selected, k)
    {
      if selected[k] >= n {
        return Err;
      }
      used := used[selected[k] := true];
    }
    r := Ok(used);
  }

  method EvalListed(sched: Scheduler, pack: QsPack, feat: Row, i: nat, ranks: seq<nat>, missing: seq<nat>,
                    ghost evals: seq<TreeEval>)
    returns (e: Result<TreeEval>)
    requires PacketsGive(sched, pack, feat, evals) && i < |evals|
    requires |ranks| == |missing| && FromBuffers(ranks, missing) == Answers(pack, feat)
    ensures e == Ok(evals[i])
  {
    e := EvalPacket(pack, sched.packets[i], feat, ranks, missing);
  }

  /** How many trees the unused packets below `n` have. */
  function UnusedTrees(sched: Scheduler, used: seq<bool>, n: nat): nat
    requires n <= |used| == |sched.packets|
  {
    if n == 0 then 0 else UnusedTrees(sched, used, n - 1) + if used[n - 1] then 0 else sched.packets[n - 1].treeCount
  }

  /** Adds every packet that was not selected. */
  method ContinuePackets(sched: Scheduler, pack: QsPack, feat: Row, tau: real, shadow: PacketShadow, ranks: seq<nat>,
                         missing: seq<nat>, ghost evals: seq<TreeEval>, ghost v: seq<real>)
    returns (r: Result<(real, bool, nat)>)
    requires PacketsGive(sched, pack, feat, evals) && HaveValues(evals, v)
    requires |ranks| == |missing| && FromBuffers(ranks, missing) == Answers(pack, feat)
    ensures r.Ok? <==> Within(shadow.selected, |evals|)
    ensures r.Ok? ==>
              && r.value.0 == shadow.prefixScore + Total(v)
                  - MarkedSum(v, MarkAll(NoMarks(|v|), shadow.selected, |shadow.selected|), |v|)
              && (r.value.1 <==> r.value.0 >= tau)
              && r.value.2 == UnusedTrees(sched, MarkAll(NoMarks(|v|), shadow.selected, |shadow.selected|), |v|)
  {
    var used := MarkSelected(shadow.selected, |sched.packets|);
    if used.Err? {
      return Err;
    }
    r := AddUnused(sched, pack, feat, tau, shadow.prefixScore, used.value, ranks, missing, evals, v);
  }

  method AddUnused(sched: Scheduler, pack: QsPack, feat: Row, tau: real, prefixScore: real, used: seq<bool>,
                   ranks: seq<nat>, missing: seq<nat>, ghost evals: seq<TreeEval>, ghost v: seq<real>)
    returns (r: Result<(real, bool, nat)>)
    requires PacketsGive(sched, pack, feat, evals) && HaveValues(evals, v) && |used| == |v|
    requires |ranks| == |missing| && FromBuffers(ranks, missing) == Answers(pack, feat)
    ensures r.Ok? && r.value.0 == prefixScore + Total(v) - MarkedSum(v, used, |v|)
    ensures (r.value.1 <==> r.value.0 >= tau) && r.value.2 == UnusedTrees(sched, used, |v|)
  {
    var score, visited: nat := prefixScore, 0;
    for i := 0 to |sched.packets|
      invariant score == prefixScore + Sum(v, i) - MarkedSum(v, used, i) && visited == UnusedTrees(sched, used, i)
    {
      var value, trees := IfUnused(sched, pack, feat, i, used, ranks, missing, evals);
      score, visited := score + value, visited + trees;
    }
    r := Ok((score, score >= tau, visited));
  }

  /** What a packet adds to the continuation: nothing if it was selected. */
  method IfUnused(sched: Scheduler, pack: QsPack, feat: Row, i: nat, used: seq<bool>, ranks: seq<nat>,
                  missing: seq<nat>, ghost evals: seq<TreeEval>)
    returns (value: real, trees: nat)
    requires PacketsGive(sched, pack, feat, evals) && i < |evals| == |used|
    requires |ranks| == |missing| && FromBuffers(ranks, missing) == Answers(pack, feat)
    ensures value == if used[i] then 0.0 else evals[i].value
    ensures trees == if used[i] then 0 else sched.packets[i].treeCount
  {
    value, trees := 0.0, 0;
    var packet := sched.packets[i];
    if !used[packet.packetId] {
      var e := EvalListed(sched, pack, feat, i, ranks, missing, evals);
      value, trees := e.value.value, packet.treeCount;
    }
  }

  // ---------------------------------------------------------------- every packet, every tree, once

  ghost function Elements(ids: seq<nat>): set<nat> { set i | i in ids }

  lemma {:induction false} FewElements(ids: seq<nat>)
    ensures |Elements(ids)| <= |ids|
  {
    if |ids| == 0 {
      assert Elements(ids) == {};
    } else {
      var last := |ids| - 1;
      FewElements(ids[..last]);
      assert Elements(ids) == Elements(ids[..last]) + {ids[last]};
    }
  }

  lemma {:induction false} DistinctElements(ids: seq<nat>)
    requires forall j, k | 0 <= j < k < |ids| :: ids[j] != ids[k]
    ensures |Elements(ids)| == |ids|
  {
    if |ids| == 0 {
      assert Elements(ids) == {};
    } else {
      var last := |ids| - 1;
      DistinctElements(ids[..last]);
      assert Elements(ids) == Elements(ids[..last]) + {ids[last]};
    }
  }

  ghost function Below(n: nat): set<nat> { Elements(Positions(n)) }

  lemma CountBelow(n: nat)
    ensures |Below(n)| == n && forall i: nat :: i in Below(n) <==> i < n
  {
    DistinctElements(Positions(n));
    forall i: nat ensures i in Below(n) <==> i < n { if i < n { assert Positions(n)[i] == i; } }
  }

  /** A run has no more steps than there are packets. */
  lemma RunIsShort(sched: Scheduler, evals: seq<TreeEval>, base: real, tau: real, ids: seq<nat>)
    requires Follows(sched, evals, base, tau, ids)
    ensures |ids| <= |evals| && |ids| <= sched.maxSteps
  {
    RunIsDistinct(sched, evals, base, tau, ids);
    DistinctElements(ids);
    CountBelow(|evals|);
    FewOf(Elements(ids), Below(|evals|));
  }

  lemma RunIsDistinct(sched: Scheduler, evals: seq<TreeEval>, base: real, tau: real, ids: seq<nat>)
    requires Follows(sched, evals, base, tau, ids)
    ensures forall j, k | 0 <= j < k < |ids| :: ids[j] != ids[k]
  {
    forall j, k | 0 <= j < k < |ids| ensures ids[j] != ids[k] {
      assert Chosen(sched, evals, base, tau, ids, k);
      MarkAllMarks(NoMarks(|evals|), ids, k, ids[k]);
      assert ids[j] in ids[..k];
    }
  }

  lemma FewOf(some: set<nat>, all: set<nat>)
    requires some <= all
    ensures |some| <= |all|
  {
    assert all == some + (all - some);
  }

  /** A packet that no ranking can name is run only when all that one can name have been. */
  lemma LateAfterAll(sched: Scheduler, evals: seq<TreeEval>, base: real, tau: real, ids: seq<nat>, k: nat)
    requires Follows(sched, evals, base, tau, ids) && k < |ids| && ids[k] >= WORDS
    ensures k >= WORDS
  {
    var ranking := RankingAt(sched, tau, TallyAfter(base, evals, ids, k).score, DeltaAt(evals, ids, k), k);
    var used := MarkAll(NoMarks(|evals|), ids, k);
    assert Chosen(sched, evals, base, tau, ids, k);
    FirstUnusedIsLeast(used, 0);
    CountBelow(WORDS);
    forall i: nat | i in Below(WORDS) ensures i in Elements(ids[..k]) { MarkAllMarks(NoMarks(|evals|), ids, k, i); }
    FewElements(ids[..k]);
    FewOf(Below(WORDS), Elements(ids[..k]));
  }

  /** The continued score of a run, when the packets are worth `v`. */
  function ContinuedScore(base: real, v: seq<real>, ids: seq<nat>): real
    requires Within(ids, |v|)
  {
    assert forall k | 0 <= k < |ids| :: Clamped(ids)[k] <= ids[k];
    base + PositionsSum(v, ids, |ids|) + Total(v) - MarkedSum(v, MarkAll(NoMarks(|v|), Clamped(ids), |ids|), |v|)
  }

  /** Base and every packet exactly once, whatever the packets are worth. */
  ghost predicate Conserves(base: real, ids: seq<nat>, n: nat)
    requires Within(ids, n)
  {
    forall v: seq<real> | |v| == n :: ContinuedScore(base, v, ids) == base + Total(v)
  }

  lemma ShortRunConserves(sched: Scheduler, evals: seq<TreeEval>, base: real, tau: real, v: seq<real>, ids: seq<nat>)
    requires Follows(sched, evals, base, tau, ids) && |v| == |evals| && |ids| <= WORDS
    ensures ContinuedScore(base, v, ids) == base + Total(v)
  {
    forall k | 0 <= k < |ids| ensures ids[k] < WORDS {
      if ids[k] >= WORDS {
        LateAfterAll(sched, evals, base, tau, ids, k);
      }
    }
    SmallIsLossless(ids);
    NoPacketTwice(sched, evals, base, tau, ids, |ids|);
    MarkAllSum(v, NoMarks(|v|), ids, |ids|);
    NewHasNoOverlap(v, NoMarks(|v|), ids, |ids|);
    NothingMarked(v, |v|);
  }

  /** A long run ran a packet that no word can name. */
  lemma LongRunIsLate(sched: Scheduler, evals: seq<TreeEval>, base: real, tau: real, ids: seq<nat>) returns (k: nat)
    requires Follows(sched, evals, base, tau, ids) && |ids| > WORDS
    ensures k < |ids| && ids[k] >= WORDS
  {
    RunIsDistinct(sched, evals, base, tau, ids);
    DistinctElements(ids);
    CountBelow(WORDS);
    if forall j | 0 <= j < |ids| :: ids[j] < WORDS { FewOf(Elements(ids), Below(WORDS)); }
    k :| k < |ids| && ids[k] >= WORDS;
  }

  /** Worth one, if this packet. */
  function Only(n: nat, p: nat): (v: seq<real>)
    ensures |v| == n
  {
    seq(n, i => if i == p then 1.0 else 0.0)
  }

  lemma {:induction false} OnlyInSum(n: nat, p: nat, ids: seq<nat>, m: nat)
    requires m <= |ids| && Within(ids, n) && forall j, k | 0 <= j < k < |ids| :: ids[j] != ids[k]
    ensures PositionsSum(Only(n, p), ids, m) == if p in ids[..m] then 1.0 else 0.0
  {
    if m == 0 {
    } else {
      OnlyInSum(n, p, ids, m - 1);
      assert ids[..m] == ids[..m - 1] + [ids[m - 1]];
    }
  }

  lemma {:induction false} OnlyMarked(n: nat, p: nat, marks: seq<bool>, m: nat)
    requires m <= n == |marks| && p < n && !marks[p]
    ensures MarkedSum(Only(n, p), marks, m) == 0.0
  {
    if m == 0 {
    } else {
      OnlyMarked(n, p, marks, m - 1);
    }
  }

  /** A late packet is counted twice: by the run, and by the continuation that cannot see it in the words. */
  lemma LateCountsTwice(base: real, ids: seq<nat>, n: nat, k: nat)
    requires Within(ids, n) && (forall i, j | 0 <= i < j < |ids| :: ids[i] != ids[j]) && k < |ids| && ids[k] >= WORDS
    ensures ContinuedScore(base, Only(n, ids[k]), ids) == base + Total(Only(n, ids[k])) + 1.0
  {
    var p, v := ids[k], Only(n, ids[k]);
    var marks := MarkAll(NoMarks(n), Clamped(ids), |ids|);
    OnlyInSum(n, p, ids, |ids|);
    assert ids[..|ids|] == ids;
    MarkAllMarks(NoMarks(n), Clamped(ids), |ids|, p);
    OnlyMarked(n, p, marks, n);
  }

  /** Shadow run plus continuation make base and every packet exactly once, whatever the packets are worth,
      if and only if the run had at most 65536 steps. */
  lemma PacketsConserveIff(sched: Scheduler, evals: seq<TreeEval>, base: real, tau: real, ids: seq<nat>)
    requires Follows(sched, evals, base, tau, ids)
    ensures Conserves(base, ids, |evals|) <==> |ids| <= WORDS
  {
    if |ids| <= WORDS {
      forall v: seq<real> | |v| == |evals| ensures ContinuedScore(base, v, ids) == base + Total(v) {
        ShortRunConserves(sched, evals, base, tau, v, ids);
      }
    } else {
      var k := LongRunIsLate(sched, evals, base, tau, ids);
      RunIsDistinct(sched, evals, base, tau, ids);
      LateCountsTwice(base, ids, |evals|, k);
    }
  }

  /** Shadow run plus continuation: base and every packet exactly once, for every policy, when there are at
      most 65536 packets, or at most 65536 steps. */
  lemma PacketsConserve(sched: Scheduler, evals: seq<TreeEval>, base: real, tau: real, v: seq<real>, ids: seq<nat>)
    requires Follows(sched, evals, base, tau, ids) && HaveValues(evals, v)
    requires |evals| <= WORDS || sched.maxSteps <= WORDS
    ensures TallyAfter(base, evals, ids, |ids|).score + Total(v)
            - MarkedSum(v, MarkAll(NoMarks(|v|), Clamped(ids), |ids|), |v|) == base + Total(v)
  {
    RunIsShort(sched, evals, base, tau, ids);
    ContinuedRun(sched, evals, base, tau, v, ids);
    ShortRunConserves(sched, evals, base, tau, v, ids);
  }

  lemma ContinuedRun(sched: Scheduler, evals: seq<TreeEval>, base: real, tau: real, v: seq<real>, ids: seq<nat>)
    requires Follows(sched, evals, base, tau, ids) && HaveValues(evals, v)
    ensures ContinuedScore(base, v, ids) ==
            TallyAfter(base, evals, ids, |ids|).score + Total(v)
                - MarkedSum(v, MarkAll(NoMarks(|v|), Clamped(ids), |ids|), |v|)
  {
    TallyIsSum(base, evals, v, ids, |ids|);
  }

  lemma {:induction false} MarkedInOrder(n: nat, m: nat, k: nat)
    requires k <= m <= n
    ensures MarkAll(NoMarks(n), Positions(m), k) == seq(n, i => i < k)
  {
    if k == 0 {
    } else {
      MarkedInOrder(n, m, k - 1);
    }
  }

  lemma {:induction false} FirstUnusedAt(n: nat, k: nat, from: nat)
    requires from <= k < n
    ensures FirstUnused(seq(n, i => i < k), from) == Some(k)
    decreases k - from
  {
    if from == k {
    } else {
      FirstUnusedAt(n, k, from + 1);
    }
  }

  /** Without a policy the packets run in order. */
  lemma RunsInOrder(sched: Scheduler, evals: seq<TreeEval>, base: real, tau: real, m: nat)
    requires m <= sched.maxSteps == |sched.policy.gapEdgesByStep| == |sched.policy.deltaEdgesByStep| && m <= |evals|
    requires sched.policy.stateRankings == map[] && sched.policy.stepTauDefaults == map[]
             && sched.policy.stepDefaults == map[]
    ensures Follows(sched, evals, base, tau, Positions(m))
  {
    var ids := Positions(m);
    forall k: nat | k < m ensures Chosen(sched, evals, base, tau, ids, k) {
      MarkedInOrder(|evals|, m, k);
      FirstUnusedAt(|evals|, k, 0);
      assert RankingAt(sched, tau, TallyAfter(base, evals, ids, k).score, DeltaAt(evals, ids, k), k) == [];
    }
  }

  /** With more packets and steps than words, some run counts a packet twice. */
  lemma LongRunFails(sched: Scheduler, evals: seq<TreeEval>, base: real, tau: real)
    requires WORDS < sched.maxSteps == |sched.policy.gapEdgesByStep| == |sched.policy.deltaEdgesByStep|
             && WORDS < |evals|
    requires sched.policy.stateRankings == map[] && sched.policy.stepTauDefaults == map[]
             && sched.policy.stepDefaults == map[]
    ensures Follows(sched, evals, base, tau, Positions(WORDS + 1))
    ensures !Conserves(base, Positions(WORDS + 1), |evals|)
  {
    RunsInOrder(sched, evals, base, tau, WORDS + 1);
    PacketsConserveIff(sched, evals, base, tau, Positions(WORDS + 1));
  }

  /** All the trees of the packets, packet after packet. */
  function AllTrees(packets: seq<Packet>, n: nat): (all: seq<nat>)
    requires n <= |packets|
  {
    if n == 0 then [] else AllTrees(packets, n - 1) + packets[n - 1].treeIndices
  }

  lemma {:induction false} SumsJoin(v: seq<real>, idx: seq<nat>, jdx: seq<nat>, n: nat)
    requires n <= |jdx| && (forall k | 0 <= k < |idx| :: idx[k] < |v|) && forall k | 0 <= k < |jdx| :: jdx[k] < |v|
    ensures PositionsSum(v, idx + jdx, |idx| + n) == PositionsSum(v, idx, |idx|) + PositionsSum(v, jdx, n)
  {
    if n == 0 {
      assert (idx + jdx)[..|idx|] == idx;
      PositionsPrefix(v, idx + jdx, idx, |idx|);
    } else {
      SumsJoin(v, idx, jdx, n - 1);
    }
  }

  /** Each packet is worth its trees. */
  ghost predicate PacketsSum(packets: seq<Packet>, w: seq<real>, v: seq<real>) {
    && |v| == |packets|
    && forall i: nat | i < |packets| :: PacketSums(packets[i], w, v[i])
  }

  ghost predicate PacketSums(p: Packet, w: seq<real>, value: real) {
    && (forall k | 0 <= k < |p.treeIndices| :: p.treeIndices[k] < |w|)
    && value == PositionsSum(w, p.treeIndices, |p.treeIndices|)
  }

  lemma {:induction false} PacketTotals(packets: seq<Packet>, w: seq<real>, v: seq<real>, n: nat)
    requires PacketsSum(packets, w, v) && n <= |packets|
    ensures var all := AllTrees(packets, n);
            (forall k | 0 <= k < |all| :: all[k] < |w|) && PositionsSum(w, all, |all|) == Sum(v, n)
  {
    if n == 0 {
    } else {
      PacketTotals(packets, w, v, n - 1);
      assert PacketSums(packets[n - 1], w, v[n - 1]);
      SumsJoin(w, AllTrees(packets, n - 1), packets[n - 1].treeIndices, |packets[n - 1].treeIndices|);
    }
  }

  /** When the packets partition the trees, all packets together are the ensemble. */
  lemma PartitionTotals(packets: seq<Packet>, w: seq<real>, v: seq<real>)
    requires PacketsSum(packets, w, v) && multiset(AllTrees(packets, |packets|)) == multiset(Positions(|w|))
    ensures Total(v) == Total(w)
  {
    var all := AllTrees(packets, |packets|);
    PacketTotals(packets, w, v, |packets|);
    SameMembers(all, Positions(|w|), |w|);
    PositionsPermute(w, all, Positions(|w|));
    AllPositions(w, |w|);
  }

  /** An uncompiled packet is worth its trees when the pack encodes the model. */
  lemma PlainPacketSums(pack: QsPack, m: SoaModel, plan: TreeOrder, row: Row, p: Packet)
    requires PackEncodes(pack, m, plan) && |row| == m.nFeatures && p.compiled.None?
    requires forall k | 0 <= k < |p.treeIndices| :: p.treeIndices[k] < |plan.order|
    ensures var e := PacketEval(pack, Answers(pack, row), p, row);
            e.Ok? && PacketSums(p, PlanScores(m, plan, row), e.value.value)
  {
    PackYieldsPlan(pack, m, plan, row);
    ScoreIndicesIsSum(pack, Answers(pack, row), PlanScores(m, plan, row), p.treeIndices, |p.treeIndices|,
        Tally(0.0, 0, 0));
  }

  /** Verdicts at the states a run passes through are right. */
  ghost predicate PacketSound(cert: Certifier, sched: Scheduler, evals: seq<TreeEval>, base: real,
                              checkpoints: seq<nat>, full: real, tau: real)
  {
    forall ids: seq<nat>, k: nat | Follows(sched, evals, base, tau, ids) && k < |ids| && k < |checkpoints| ::
      VerdictRight(cert, SightAt(evals, base, ids, checkpoints, k), full, tau)
  }

  predicate VerdictRight(cert: Certifier, s: Sight, full: real, tau: real) {
    cert(s).Some? ==> (cert(s).value.reject <==> full >= tau)
  }

  lemma CertifyRightAt(look: real -> (real, real), tau: real, s: Sight, full: real)
    requires Encloses(look, s.score, full, tau)
    ensures var c := Certify(look, tau, s, Never); c.Some? ==> (c.value.reject <==> full >= tau)
  {
    DecideIsRight(look(tau - s.score), tau, s.score, None, full);
  }

  lemma BandsRightAt(tables: seq<LoadedTable>, foldId: int, tau: real, s: Sight, full: real)
    requires s.cpIdx < |tables| && Usable(tables[s.cpIdx], foldId)
    requires forall bin: nat | InBin(TauEdges(tables), tau, bin) ::
               Encloses(LookupFor(tables[s.cpIdx], foldId, bin), s.score, full, tau)
    ensures VerdictRight(BandCertifier(tables, foldId, tau, Never), s, full, tau)
  {
    TauBinIsIn(tables, tau);
    assert BandCertifier(tables, foldId, tau, Never)(s) ==
           CertifyAt(tables, foldId, tau, CalibrationTauBin(tables, tau), Never, s);
    CertifyRightAt(LookupFor(tables[s.cpIdx], foldId, CalibrationTauBin(tables, tau)), tau, s, full);
  }

  /** Band tables that enclose what is still to come after each step, in each bin the threshold is in, make such a
      certifier. */
  lemma PacketBandsSound(tables: seq<LoadedTable>, sched: Scheduler, evals: seq<TreeEval>, base: real,
                         checkpoints: seq<nat>, foldId: int, full: real, tau: real)
    requires |tables| == |checkpoints| && forall i: nat | i < |tables| :: Usable(tables[i], foldId)
    requires forall ids: seq<nat>, k: nat, bin: nat
               | Follows(sched, evals, base, tau, ids) && k < |ids| && k < |checkpoints|
                 && InBin(TauEdges(tables), tau, bin) ::
               Encloses(LookupFor(tables[k], foldId, bin), SightAt(evals, base, ids, checkpoints, k).score, full, tau)
    ensures PacketSound(BandCertifier(tables, foldId, tau, Never), sched, evals, base, checkpoints, full, tau)
  {
    forall ids: seq<nat>, k: nat | Follows(sched, evals, base, tau, ids) && k < |ids| && k < |checkpoints|
      ensures VerdictRight(BandCertifier(tables, foldId, tau, Never), SightAt(evals, base, ids, checkpoints, k), full,
              tau)
    {
      var s := SightAt(evals, base, ids, checkpoints, k);
      assert s.cpIdx == k;
      BandsRightAt(tables, foldId, tau, s, full);
    }
  }

  ghost predicate Encloses(look: real -> (real, real), score: real, full: real, tau: real) {
    look(tau - score).1 <= full - score <= look(tau - score).0
  }

  /** All the steps allowed were taken, and none certified. */
  ghost predicate NeverDecided(cert: Certifier, evals: seq<TreeEval>, base: real, ids: seq<nat>, checkpoints: seq<nat>)
    requires Within(ids, |evals|)
  {
    |ids| == |checkpoints| && Undecided(cert, evals, base, ids, checkpoints, |ids|)
  }

  /** A row through scheduler and continuation: base plus the whole ensemble decides, unless a run of more
      than 65536 steps fell back. */
  method PredictPackets(sched: Scheduler, pack: QsPack, feat: Row, tau: real, cert: Certifier, checkpoints: seq<nat>,
                        ranks: array<nat>, missing: array<nat>, ghost evals: seq<TreeEval>, ghost w: seq<real>,
                        ghost v: seq<real>)
    returns (r: Result<(real, bool)>, ghost ids: seq<nat>)
    requires PacketsGive(sched, pack, feat, evals) && HaveValues(evals, v)
    requires PacketsSum(sched.packets, w, v)
             && multiset(AllTrees(sched.packets, |sched.packets|)) == multiset(Positions(|w|))
    requires ranks.Length == missing.Length == pack.nFeatures && ranks != missing
    requires PacketSound(cert, sched, evals, pack.baseScore, checkpoints, pack.baseScore + Total(w), tau)
    modifies ranks, missing
    ensures Within(ids, |evals|) && Follows(sched, evals, pack.baseScore, tau, ids)
    ensures r.Ok? ==> |ids| <= |checkpoints| && |ids| <= |evals|
    ensures r.Ok? && (|ids| <= WORDS || !NeverDecided(cert, evals, pack.baseScore, ids, checkpoints)) ==>
              (r.value.1 <==> pack.baseScore + Total(w) >= tau)
    ensures r.Ok? && NeverDecided(cert, evals, pack.baseScore, ids, checkpoints) ==>
              && r.value.0 == ContinuedScore(pack.baseScore, v, ids)
              && (|ids| <= WORDS ==> r.value.0 == pack.baseScore + Total(w))
    ensures r.Ok? && !NeverDecided(cert, evals, pack.baseScore, ids, checkpoints) ==>
              && |ids| > 0
              && cert(SightAt(evals, pack.baseScore, ids, checkpoints, |ids| - 1)) ==
                 Some(Verdict(r.value.1, r.value.0))
    ensures r.Err? <==> |checkpoints| != sched.maxSteps ||
                        (|ids| < sched.maxSteps && (forall i: nat | i < |evals| :: i in ids)
                            && Undecided(cert, evals, pack.baseScore, ids, checkpoints, |ids|))
  {
    var shadow;
    shadow, ids := RunPackets(sched, pack, feat, tau, cert, checkpoints, ranks, missing, evals);
    RunIsShort(sched, evals, pack.baseScore, tau, ids);
    if shadow.Err? {
      return Err, ids;
    }
    var out := shadow.value;
    if !out.fallbackUsed {
      ghost var last := SightAt(evals, pack.baseScore, ids, checkpoints, |ids| - 1);
      assert VerdictRight(cert, last, pack.baseScore + Total(w), tau) && cert(last).Some?;
      return Ok((out.routeScore, out.reject)), ids;
    }
    PartitionTotals(sched.packets, w, v);
    ContinuedRun(sched, evals, pack.baseScore, tau, v, ids);
    if |ids| <= WORDS { ShortRunConserves(sched, evals, pack.baseScore, tau, v, ids); }
    ghost var clamped := Clamped(ids);
    assert forall k | 0 <= k < |ids| :: clamped[k] <= ids[k];
    var done := ContinuePackets(sched, pack, feat, tau, out, ranks[..], missing[..], evals, v);
    r := Ok((done.value.0, done.value.1));
  }
}
