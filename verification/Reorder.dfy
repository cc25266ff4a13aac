/** Greedy selection: repeatedly take the first remaining position that gains most in the current
    state.  `gain` and `step` say what a position is worth and how taking it changes the state. */
module GreedySelection {
  import opened Forest

  predicate InRange(remaining: seq<nat>, n: nat) {
    forall k | 0 <= k < |remaining| :: remaining[k] < n
  }

  /** The first of the leading `n` positions that gains most. */
  function FirstBest<S>(gain: (nat, S) -> int, remaining: seq<nat>, st: S, n: nat): (k: nat)
    requires 1 <= n <= |remaining|
    ensures k < n
  {
    if n == 1 then 0 else
      var k := FirstBest(gain, remaining, st, n - 1);
      if gain(remaining[n - 1], st) > gain(remaining[k], st) then n - 1 else k
  }

  lemma {:induction false} FirstBestIsBest<S>(gain: (nat, S) -> int, remaining: seq<nat>, st: S, n: nat)
    requires 1 <= n <= |remaining|
    ensures var best := FirstBest(gain, remaining, st, n);
            (forall j | 0 <= j < n :: gain(remaining[j], st) <= gain(remaining[best], st)) &&
            (forall j | 0 <= j < best :: gain(remaining[j], st) < gain(remaining[best], st))
  {
    if n > 1 {
      FirstBestIsBest(gain, remaining, st, n - 1);
    }
  }

  function Without(s: seq<nat>, k: nat): seq<nat>
    requires k < |s|
  {
    s[..k] + s[k + 1..]
  }

  /** The order `choose` greedy picks put the remaining positions in: the picks, then the rest. */
  function Greedy<S>(gain: (nat, S) -> int, step: (nat, S) -> S, remaining: seq<nat>, st: S,
                     choose: nat): (order: seq<nat>)
    requires choose <= |remaining|
    ensures |order| == |remaining|
    decreases choose
  {
    if choose == 0 then remaining else
      var k := FirstBest(gain, remaining, st, |remaining|);
      [remaining[k]] + Greedy(gain, step, Without(remaining, k), step(remaining[k], st), choose - 1)
  }

  lemma WithoutMember(s: seq<nat>, k: nat)
    requires k < |s|
    ensures multiset(s) == multiset{s[k]} + multiset(Without(s, k))
  {
    assert s == s[..k] + [s[k]] + s[k + 1..];
  }

  lemma PickedFirst(s: seq<nat>, k: nat, rest: seq<nat>)
    requires k < |s| && multiset(rest) == multiset(Without(s, k))
    ensures multiset([s[k]] + rest) == multiset(s)
  {
    WithoutMember(s, k);
  }

  lemma {:induction false} GreedyPermutes<S>(gain: (nat, S) -> int, step: (nat, S) -> S, remaining: seq<nat>, st: S,
                                             choose: nat)
    requires choose <= |remaining|
    ensures multiset(Greedy(gain, step, remaining, st, choose)) == multiset(remaining)
    decreases choose
  {
    if choose == 0 {
    } else {
      var k := FirstBest(gain, remaining, st, |remaining|);
      var left, next := Without(remaining, k), step(remaining[k], st);
      GreedyPermutes(gain, step, left, next, choose - 1);
      PickedFirst(remaining, k, Greedy(gain, step, left, next, choose - 1));
    }
  }

  ghost predicate Increasing(s: seq<nat>) { forall i, j | 0 <= i < j < |s| :: s[i] < s[j] }

  /** The state after the first `n` picks. */
  function StateAfter<S>(step: (nat, S) -> S, order: seq<nat>, st: S, n: nat): S
    requires n <= |order|
  {
    if n == 0 then st else StateAfter(step, order[1..], step(order[0], st), n - 1)
  }

  lemma {:induction false} PickIsBest<S>(gain: (nat, S) -> int, remaining: seq<nat>, st: S, x: nat)
    requires Increasing(remaining) && |remaining| > 0
    requires x in Without(remaining, FirstBest(gain, remaining, st, |remaining|))
    ensures Behind(gain, st, x, remaining[FirstBest(gain, remaining, st, |remaining|)])
  {
    FirstBestIsBest(gain, remaining, st, |remaining|);
    var k := FirstBest(gain, remaining, st, |remaining|);
    var p :| 0 <= p < |remaining| && p != k && remaining[p] == x;
  }

  lemma WithoutIncreases(s: seq<nat>, k: nat)
    requires k < |s| && Increasing(s)
    ensures Increasing(Without(s, k))
  {
    var left := Without(s, k);
    forall i, j | 0 <= i < j < |left| ensures left[i] < left[j] {
      assert left[i] == s[if i < k then i else i + 1] && left[j] == s[if j < k then j else j + 1];
    }
  }

  /** The position gains less in this state, or as much and comes later. */
  predicate Behind<S>(gain: (nat, S) -> int, now: S, x: nat, best: nat) {
    gain(x, now) < gain(best, now) || (gain(x, now) == gain(best, now) && best < x)
  }

  /** The order starts with the first best position, and what is left follows in some order. */
  ghost predicate StartsBest<S>(gain: (nat, S) -> int, remaining: seq<nat>, st: S, order: seq<nat>)
    requires |remaining| > 0
  {
    var k := FirstBest(gain, remaining, st, |remaining|);
    |order| == |remaining| && order[0] == remaining[k] && multiset(order[1..]) == multiset(Without(remaining, k))
  }

  lemma GreedyStartsBest<S>(gain: (nat, S) -> int, step: (nat, S) -> S, remaining: seq<nat>, st: S, choose: nat)
    requires 0 < choose <= |remaining|
    ensures StartsBest(gain, remaining, st, Greedy(gain, step, remaining, st, choose))
  {
    var k := FirstBest(gain, remaining, st, |remaining|);
    OrderTail(gain, step, remaining, st, choose);
    GreedyPermutes(gain, step, Without(remaining, k), step(remaining[k], st), choose - 1);
  }

  lemma FirstPickIsBest<S>(gain: (nat, S) -> int, remaining: seq<nat>, st: S, order: seq<nat>, i: nat)
    requires 0 < i < |remaining| && Increasing(remaining) && StartsBest(gain, remaining, st, order)
    ensures Behind(gain, st, order[i], order[0])
  {
    RestIsBehind(gain, remaining, st, order[1..], i - 1);
  }

  lemma RestIsBehind<S>(gain: (nat, S) -> int, remaining: seq<nat>, st: S, rest: seq<nat>, i: nat)
    requires Increasing(remaining) && |remaining| > 0 && i < |rest|
    requires multiset(rest) == multiset(Without(remaining, FirstBest(gain, remaining, st, |remaining|)))
    ensures Behind(gain, st, rest[i], remaining[FirstBest(gain, remaining, st, |remaining|)])
  {
    assert rest[i] in multiset(rest);
    PickIsBest(gain, remaining, st, rest[i]);
  }

  /** Each pick gains most, in the state the picks before it lead to, of all positions left, and is the least of those
      that gain as much. */
  lemma {:induction false} GreedyPicksBest<S>(gain: (nat, S) -> int, step: (nat, S) -> S, remaining: seq<nat>, st: S,
                                              choose: nat, j: nat, i: nat)
    requires choose <= |remaining| && j < choose && j < i < |remaining| && Increasing(remaining)
    ensures var order := Greedy(gain, step, remaining, st, choose);
            Behind(gain, StateAfter(step, order, st, j), order[i], order[j])
    decreases choose
  {
    if j == 0 {
      GreedyStartsBest(gain, step, remaining, st, choose);
      FirstPickIsBest(gain, remaining, st, Greedy(gain, step, remaining, st, choose), i);
    } else {
      var k := FirstBest(gain, remaining, st, |remaining|);
      var left, next := Without(remaining, k), step(remaining[k], st);
      WithoutIncreases(remaining, k);
      GreedyPicksBest(gain, step, left, next, choose - 1, j - 1, i - 1);
      OrderTail(gain, step, remaining, st, choose);
    }
  }

  lemma OrderTail<S>(gain: (nat, S) -> int, step: (nat, S) -> S, remaining: seq<nat>, st: S, choose: nat)
    requires 0 < choose <= |remaining|
    ensures var k := FirstBest(gain, remaining, st, |remaining|);
            var order := Greedy(gain, step, remaining, st, choose);
            && order[0] == remaining[k]
            && order[1..] == Greedy(gain, step, Without(remaining, k), step(remaining[k], st), choose - 1)
  {}

  /** What is not picked stays in order. */
  lemma {:induction false} RestInOrder<S>(gain: (nat, S) -> int, step: (nat, S) -> S, remaining: seq<nat>, st: S,
                                          choose: nat)
    requires choose <= |remaining| && Increasing(remaining)
    ensures Increasing(Greedy(gain, step, remaining, st, choose)[choose..])
    decreases choose
  {
    if choose == 0 {
    } else {
      var k := FirstBest(gain, remaining, st, |remaining|);
      var left, next := Without(remaining, k), step(remaining[k], st);
      WithoutIncreases(remaining, k);
      RestInOrder(gain, step, left, next, choose - 1);
      OrderTail(gain, step, remaining, st, choose);
      assert Greedy(gain, step, remaining, st, choose)[choose..] ==
             Greedy(gain, step, remaining, st, choose)[1..][choose - 1..];
    }
  }

  lemma PermutedInRange(order: seq<nat>, remaining: seq<nat>, n: nat)
    requires multiset(order) == multiset(remaining) && InRange(remaining, n)
    ensures InRange(order, n)
  {
    forall k | 0 <= k < |order| ensures order[k] < n {
      assert order[k] in multiset(order);
      assert order[k] in remaining;
    }
  }

  /** The scan for the first best position. */
  method BestPosition<S>(gain: (nat, S) -> int, remaining: seq<nat>, st: S) returns (bestPos: nat)
    requires |remaining| > 0
    ensures bestPos == FirstBest(gain, remaining, st, |remaining|)
  {
    bestPos := 0;
    for pos := 1 to |remaining|
      invariant bestPos == FirstBest(gain, remaining, st, pos)
    {
      if gain(remaining[pos], st) > gain(remaining[bestPos], st) {
        bestPos := pos;
      }
    }
  }

  lemma OnePick<S>(gain: (nat, S) -> int, step: (nat, S) -> S, chosen: seq<nat>, remaining: seq<nat>, st: S,
                   choose: nat)
    requires 0 < choose <= |remaining|
    ensures var k := FirstBest(gain, remaining, st, |remaining|);
            chosen + Greedy(gain, step, remaining, st, choose) ==
            (chosen + [remaining[k]]) + Greedy(gain, step, Without(remaining, k), step(remaining[k], st), choose - 1)
  {
    var k := FirstBest(gain, remaining, st, |remaining|);
    var rest := Greedy(gain, step, Without(remaining, k), step(remaining[k], st), choose - 1);
    assert chosen + ([remaining[k]] + rest) == (chosen + [remaining[k]]) + rest;
  }

  /** One pick: the best remaining position moves to the end of the chosen ones. */
  method PickBest<S>(gain: (nat, S) -> int, step: (nat, S) -> S, chosen: seq<nat>, remaining: seq<nat>, st: S,
                     ghost choose: nat)
    returns (picked: seq<nat>, left: seq<nat>, next: S)
    requires 0 < choose <= |remaining|
    ensures |left| == |remaining| - 1
    ensures picked + Greedy(gain, step, left, next, choose - 1) == chosen + Greedy(gain, step, remaining, st, choose)
  {
    var bestPos := BestPosition(gain, remaining, st);
    OnePick(gain, step, chosen, remaining, st, choose);
    picked, left, next := chosen + [remaining[bestPos]], Without(remaining, bestPos), step(remaining[bestPos], st);
  }

  /** The picking loop, with its shrinking list of remaining positions. */
  method GreedyOrder<S>(gain: (nat, S) -> int, step: (nat, S) -> S, n: nat, init: S, choose: nat)
    returns (order: seq<nat>)
    requires choose <= n
    ensures order == Greedy(gain, step, Positions(n), init, choose)
  {
    var remaining, st := Positions(n), init;
    var chosen: seq<nat> := [];
    ghost var goal := Greedy(gain, step, remaining, init, choose);
    for i := choose downto 0
      invariant |remaining| == n - choose + i && goal == chosen + Greedy(gain, step, remaining, st, i)
    {
      chosen, remaining, st := PickBest(gain, step, chosen, remaining, st, i + 1);
    }
    order := chosen + remaining;
  }
}

/** Greedy reordering of a tree's blocks so that sampled rows resolve early.  Whatever the samples
    are, it only permutes the blocks of each tree it visits, so no row's score changes. */
module BlockReorder {
  import opened Bits
  import opened Forest
  import opened LeafMasks
  import opened Tallies
  import opened QuickScorer
  import opened QuickScorerExact
  import opened GreedySelection

  /** A sampled row's ranks, as quantisation produces them for rows without missing values. */
  ghost predicate SampleFits(pack: QsPack, s: seq<nat>)
    requires pack.Valid()
  {
    |s| == pack.nFeatures && forall f: nat | f < |s| :: AnswerFits(pack, f, Rank(s[f]))
  }

  ghost predicate SamplesFit(pack: QsPack, samples: seq<seq<nat>>)
    requires pack.Valid()
  {
    forall s | s in samples :: SampleFits(pack, s)
  }

  /** The masks one block selects for the samples. */
  function SampleMasks(pack: QsPack, b: QsBlock, samples: seq<seq<nat>>): (row: seq<Mask128>)
    requires pack.Valid() && b in pack.blocks && SamplesFit(pack, samples)
    ensures |row| == |samples|
  {
    assert pack.BlockOk(b);
    seq(|samples|, i requires 0 <= i < |samples| =>
      assert SampleFits(pack, samples[i]);
      assert AnswerFits(pack, b.fid, Rank(samples[i][b.fid]));
      BlockMask(pack, b, Rank(samples[i][b.fid])))
  }

  ghost predicate BlocksKnown(pack: QsPack, blocks: seq<QsBlock>) {
    forall b | b in blocks :: b in pack.blocks
  }

  /** The masks every block of a list selects for the samples. */
  function Selections(pack: QsPack, blocks: seq<QsBlock>, samples: seq<seq<nat>>): (sel: seq<seq<Mask128>>)
    requires pack.Valid() && BlocksKnown(pack, blocks) && SamplesFit(pack, samples)
    ensures |sel| == |blocks| && Shaped(sel, |samples|)
  {
    seq(|blocks|, p requires 0 <= p < |blocks| => SampleMasks(pack, blocks[p], samples))
  }

  predicate Shaped(sel: seq<seq<Mask128>>, n: nat) {
    forall p | 0 <= p < |sel| :: |sel[p]| == n
  }

  function Population(m: Mask128): int { CountOnes(m.lo) + CountOnes(m.hi) }

  predicate HalfEmpty(m: Mask128) { (m.lo == 0) != (m.hi == 0) }

  /** What narrowing a sample from `cur` to `next` is worth. */
  function StepGain(cur: Mask128, next: Mask128): int {
    (if Resolved(next) then 1_000_000 else if !HalfEmpty(cur) && HalfEmpty(next) then 10_000 else 0)
    + Population(cur) - Population(next)
  }

  /** What a block gains over the first `n` samples; resolved samples no longer count. */
  function Gain(row: seq<Mask128>, states: seq<Mask128>, n: nat): int
    requires n <= |row| == |states|
  {
    if n == 0 then 0 else
      Gain(row, states, n - 1) +
      if Resolved(states[n - 1]) then 0 else StepGain(states[n - 1], Meet(states[n - 1], row[n - 1]))
  }

  function Advance(row: seq<Mask128>, states: seq<Mask128>): (next: seq<Mask128>)
    requires |row| == |states|
    ensures |next| == |states|
  {
    seq(|states|, i requires 0 <= i < |states| => if Resolved(states[i]) then states[i] else Meet(states[i], row[i]))
  }

  /** What position `p` is worth, and what taking it does to the samples' states. */
  function GainOf(sel: seq<seq<Mask128>>): (nat, seq<Mask128>) -> int {
    (p: nat, states: seq<Mask128>) => if p < |sel| && |sel[p]| == |states| then Gain(sel[p], states, |states|) else 0
  }

  function StepOf(sel: seq<seq<Mask128>>): (nat, seq<Mask128>) -> seq<Mask128> {
    (p: nat, states: seq<Mask128>) => if p < |sel| && |sel[p]| == |states| then Advance(sel[p], states) else states
  }

  /** Every sample starts from the tree's initial mask. */
  function Fresh(n: nat, init: Mask128): (states: seq<Mask128>)
    ensures |states| == n
  {
    seq(n, _ => init)
  }

  /** The order the greedy picks leave the blocks in. */
  function BlockOrder(sel: seq<seq<Mask128>>, init: seq<Mask128>, choose: nat): (order: seq<nat>)
    requires choose <= |sel|
    ensures multiset(order) == multiset(Positions(|sel|)) && InRange(order, |sel|)
  {
    GreedyPermutes(GainOf(sel), StepOf(sel), Positions(|sel|), init, choose);
    var order := Greedy(GainOf(sel), StepOf(sel), Positions(|sel|), init, choose);
    PermutedInRange(order, Positions(|sel|), |sel|);
    order
  }

  function Pick(original: seq<QsBlock>, order: seq<nat>): (s: seq<QsBlock>)
    requires InRange(order, |original|)
    ensures |s| == |order|
  {
    seq(|order|, k requires 0 <= k < |order| => original[order[k]])
  }

  lemma PickSplit(original: seq<QsBlock>, jdx: seq<nat>, k: nat)
    requires InRange(jdx, |original|) && k < |jdx|
    ensures multiset(Pick(original, jdx)) ==
            multiset(Pick(original, jdx[..k] + jdx[k + 1..])) + multiset{original[jdx[k]]}
  {
    var left, right := Pick(original, jdx[..k]), Pick(original, jdx[k + 1..]);
    assert Pick(original, jdx[..k] + jdx[k + 1..]) == left + right;
    assert Pick(original, jdx) == left + [original[jdx[k]]] + right;
  }

  lemma {:induction false} PickPermutes(original: seq<QsBlock>, idx: seq<nat>, jdx: seq<nat>)
    requires InRange(idx, |original|) && InRange(jdx, |original|) && multiset(idx) == multiset(jdx)
    ensures multiset(Pick(original, idx)) == multiset(Pick(original, jdx))
    decreases |idx|
  {
    SameMembers(idx, jdx, |original|);
    if |idx| > 0 {
      var k := DropFromBoth(idx, jdx);
      var last := |idx| - 1;
      PickPermutes(original, idx[..last], jdx[..k] + jdx[k + 1..]);
      PickSplit(original, idx, last);
      assert idx[..last] + idx[last + 1..] == idx[..last];
      PickSplit(original, jdx, k);
    }
  }

  /** A tree's blocks after reordering. */
  function Segment(pack: QsPack, init: Mask128, original: seq<QsBlock>, samples: seq<seq<nat>>,
                   front: nat): (s: seq<QsBlock>)
    requires pack.Valid() && BlocksKnown(pack, original) && SamplesFit(pack, samples)
    ensures |s| == |original|
  {
    if |original| <= 1 then original else
      var choose := if front < |original| then front else |original|;
      Pick(original, BlockOrder(Selections(pack, original, samples), Fresh(|samples|, init), choose))
  }

  lemma SegmentPermutes(pack: QsPack, init: Mask128, original: seq<QsBlock>, samples: seq<seq<nat>>, front: nat)
    requires pack.Valid() && BlocksKnown(pack, original) && SamplesFit(pack, samples)
    ensures multiset(Segment(pack, init, original, samples, front)) == multiset(original)
  {
    if |original| > 1 {
      var choose := if front < |original| then front else |original|;
      PickPermutes(original, BlockOrder(Selections(pack, original, samples), Fresh(|samples|, init), choose),
          Positions(|original|));
      assert Pick(original, Positions(|original|)) == original;
    }
  }

  /** As many picks are made as asked for, or as there are blocks: each is the block that then gains most of those left,
      the first of these; the rest stays in order. */
  ghost predicate GreedilyOrdered(sel: seq<seq<Mask128>>, init: seq<Mask128>, front: nat, order: seq<nat>) {
    && |order| == |sel|
    && (forall j, i | 0 <= j < i < |order| && j < front ::
          Behind(GainOf(sel), StateAfter(StepOf(sel), order, init, j), order[i], order[j]))
    && (forall j, i | front <= j < i < |order| :: order[j] < order[i])
  }

  lemma BlockOrderIsGreedy(sel: seq<seq<Mask128>>, init: seq<Mask128>, front: nat)
    ensures GreedilyOrdered(sel, init, front, BlockOrder(sel, init, if front < |sel| then front else |sel|))
  {
    var choose, all := if front < |sel| then front else |sel|, Positions(|sel|);
    var order := BlockOrder(sel, init, choose);
    assert Increasing(all);
    forall j, i | 0 <= j < i < |order| && j < front
      ensures Behind(GainOf(sel), StateAfter(StepOf(sel), order, init, j), order[i], order[j])
    {
      GreedyPicksBest(GainOf(sel), StepOf(sel), all, init, choose, j, i);
    }
    RestInOrder(GainOf(sel), StepOf(sel), all, init, choose);
    TailIncreases(order, choose);
  }

  lemma TailIncreases(order: seq<nat>, choose: nat)
    requires choose <= |order| && Increasing(order[choose..])
    ensures forall j, i | choose <= j < i < |order| :: order[j] < order[i]
  {
    forall j, i | choose <= j < i < |order| ensures order[j] < order[i] {
      assert order[choose..][j - choose] == order[j] && order[choose..][i - choose] == order[i];
    }
  }

  lemma SegmentIsGreedy(pack: QsPack, init: Mask128, original: seq<QsBlock>, samples: seq<seq<nat>>, front: nat)
    returns (order: seq<nat>)
    requires pack.Valid() && BlocksKnown(pack, original) && SamplesFit(pack, samples)
    ensures InRange(order, |original|) && Segment(pack, init, original, samples, front) == Pick(original, order)
    ensures GreedilyOrdered(Selections(pack, original, samples), Fresh(|samples|, init), front, order)
  {
    var sel, states := Selections(pack, original, samples), Fresh(|samples|, init);
    if |original| <= 1 {
      order := Positions(|original|);
      assert Pick(original, order) == original;
    } else {
      order := BlockOrder(sel, states, if front < |original| then front else |original|);
      BlockOrderIsGreedy(sel, states, front);
    }
  }

  function SegmentOf(blocks: seq<QsBlock>, t: QsTree): seq<QsBlock>
    requires t.blockOff + t.blockCnt <= |blocks|
  {
    blocks[t.blockOff..t.blockOff + t.blockCnt]
  }

  /** The block list with one tree's segment replaced. */
  function Splice(blocks: seq<QsBlock>, t: QsTree, segment: seq<QsBlock>): (r: seq<QsBlock>)
    requires t.blockOff + t.blockCnt <= |blocks| && |segment| == t.blockCnt
    ensures |r| == |blocks|
  {
    blocks[..t.blockOff] + segment + blocks[t.blockOff + t.blockCnt..]
  }

  ghost predicate Apart(t: QsTree, u: QsTree) {
    t.blockOff + t.blockCnt <= u.blockOff || u.blockOff + u.blockCnt <= t.blockOff
  }

  lemma SpliceHere(blocks: seq<QsBlock>, t: QsTree, segment: seq<QsBlock>)
    requires t.blockOff + t.blockCnt <= |blocks| && |segment| == t.blockCnt
    ensures SegmentOf(Splice(blocks, t, segment), t) == segment
  {}

  lemma SpliceElsewhere(blocks: seq<QsBlock>, t: QsTree, segment: seq<QsBlock>, u: QsTree)
    requires t.blockOff + t.blockCnt <= |blocks| && |segment| == t.blockCnt
    requires u.blockOff + u.blockCnt <= |blocks| && Apart(t, u)
    ensures SegmentOf(Splice(blocks, t, segment), u) == SegmentOf(blocks, u)
  {}

  lemma SpliceKnown(pack: QsPack, blocks: seq<QsBlock>, t: QsTree, segment: seq<QsBlock>)
    requires t.blockOff + t.blockCnt <= |blocks| && |segment| == t.blockCnt && BlocksKnown(pack, blocks)
    requires multiset(segment) == multiset(SegmentOf(blocks, t))
    ensures BlocksKnown(pack, Splice(blocks, t, segment))
  {
    forall b | b in Splice(blocks, t, segment) ensures b in pack.blocks {
      if b in segment {
        assert b in multiset(segment);
        assert b in SegmentOf(blocks, t);
      }
    }
  }

  /** No two trees share a block slot. */
  ghost predicate SegmentsApart(pack: QsPack) {
    forall p: nat, q: nat | p < |pack.trees| && q < |pack.trees| && p != q :: Apart(pack.trees[p], pack.trees[q])
  }

  /** The blocks of `t` are the same ones, in any order. */
  ghost predicate SamePool(before: seq<QsBlock>, after: seq<QsBlock>, t: QsTree) {
    && t.blockOff + t.blockCnt <= |before| == |after|
    && multiset(SegmentOf(after, t)) == multiset(SegmentOf(before, t))
  }

  ghost predicate Untouched(before: seq<QsBlock>, after: seq<QsBlock>, t: QsTree) {
    && t.blockOff + t.blockCnt <= |before| == |after|
    && SegmentOf(after, t) == SegmentOf(before, t)
  }

  lemma SplicePermutes(blocks: seq<QsBlock>, before: seq<QsBlock>, t: QsTree, segment: seq<QsBlock>, u: QsTree)
    requires |before| == |blocks| && t.blockOff + t.blockCnt <= |blocks| && |segment| == t.blockCnt
    requires multiset(segment) == multiset(SegmentOf(before, t))
    requires SamePool(blocks, before, u) && (t == u || Apart(t, u))
    ensures SamePool(blocks, Splice(before, t, segment), u)
    ensures t != u && Untouched(blocks, before, u) ==> Untouched(blocks, Splice(before, t, segment), u)
  {
    if t == u { SpliceHere(before, t, segment); } else { SpliceElsewhere(before, t, segment, u); }
  }

  /** Each tree in `start..k` has its blocks permuted; no other tree's blocks change at all. */
  ghost predicate VisitedPermuted(pack: QsPack, after: seq<QsBlock>, start: nat, k: nat) {
    && (forall p: nat | p < |pack.trees| :: SamePool(pack.blocks, after, pack.trees[p]))
    && (forall p: nat | p < |pack.trees| && (p < start || k <= p) :: Untouched(pack.blocks, after, pack.trees[p]))
  }

  lemma VisitNext(pack: QsPack, before: seq<QsBlock>, start: nat, k: nat, segment: seq<QsBlock>)
    requires pack.Valid() && SegmentsApart(pack) && start <= k < |pack.trees|
    requires |before| == |pack.blocks| && VisitedPermuted(pack, before, start, k)
    requires pack.TreeOk(pack.trees[k]) && |segment| == pack.trees[k].blockCnt
    requires multiset(segment) == multiset(SegmentOf(before, pack.trees[k]))
    ensures VisitedPermuted(pack, Splice(before, pack.trees[k], segment), start, k + 1)
  {
    forall p: nat | p < |pack.trees|
      ensures SamePool(pack.blocks, Splice(before, pack.trees[k], segment), pack.trees[p])
    {
      SplicePermutes(pack.blocks, before, pack.trees[k], segment, pack.trees[p]);
    }
    forall p: nat | p < |pack.trees| && (p < start || k + 1 <= p)
      ensures Untouched(pack.blocks, Splice(before, pack.trees[k], segment), pack.trees[p])
    {
      assert Untouched(pack.blocks, before, pack.trees[p]);
      SpliceElsewhere(before, pack.trees[k], segment, pack.trees[p]);
    }
  }

  lemma NoneVisited(pack: QsPack, start: nat)
    requires pack.Valid()
    ensures VisitedPermuted(pack, pack.blocks, start, start)
  {
    forall p: nat | p < |pack.trees| ensures SamePool(pack.blocks, pack.blocks, pack.trees[p]) {
      assert pack.TreeOk(pack.trees[p]);
    }
  }

  /** The block list with the blocks of tree `k` reordered. */
  function ReorderOne(pack: QsPack, before: seq<QsBlock>, samples: seq<seq<nat>>, k: nat, front: nat): (r: seq<QsBlock>)
    requires pack.Valid() && SamplesFit(pack, samples) && k < |pack.trees|
    requires |before| == |pack.blocks| && BlocksKnown(pack, before)
    ensures |r| == |pack.blocks| && BlocksKnown(pack, r)
  {
    var t := pack.trees[k];
    assert pack.TreeOk(t);
    var segment := Segment(pack, t.init, SegmentOf(before, t), samples, front);
    SegmentPermutes(pack, t.init, SegmentOf(before, t), samples, front);
    SpliceKnown(pack, before, t, segment);
    Splice(before, t, segment)
  }

  /** A block list that visiting the trees `start..k` may leave. */
  ghost predicate Visited(pack: QsPack, blocks: seq<QsBlock>, start: nat, k: nat) {
    && |blocks| == |pack.blocks| && BlocksKnown(pack, blocks)
    && (SegmentsApart(pack) ==> VisitedPermuted(pack, blocks, start, k))
  }

  lemma ReorderOneVisits(pack: QsPack, before: seq<QsBlock>, samples: seq<seq<nat>>, start: nat, k: nat, front: nat)
    requires pack.Valid() && SamplesFit(pack, samples) && start <= k < |pack.trees| && Visited(pack, before, start, k)
    ensures Visited(pack, ReorderOne(pack, before, samples, k, front), start, k + 1)
  {
    var t := pack.trees[k];
    assert pack.TreeOk(t);
    SegmentPermutes(pack, t.init, SegmentOf(before, t), samples, front);
    if SegmentsApart(pack) {
      VisitNext(pack, before, start, k, Segment(pack, t.init, SegmentOf(before, t), samples, front));
    }
  }

  /** Reordering tree `k` of a list, as a step on block lists. */
  ghost function Step(pack: QsPack, samples: seq<seq<nat>>, front: nat): (seq<QsBlock>, nat) -> seq<QsBlock> {
    (before: seq<QsBlock>, k: nat) =>
      if pack.Valid() && SamplesFit(pack, samples) && k < |pack.trees| && |before| == |pack.blocks|
          && BlocksKnown(pack, before)
      then ReorderOne(pack, before, samples, k, front) else before
  }

  ghost function Iterate(step: (seq<QsBlock>, nat) -> seq<QsBlock>, blocks: seq<QsBlock>, start: nat,
                         k: nat): seq<QsBlock>
    requires start <= k
    decreases k
  {
    if k == start then blocks else step(Iterate(step, blocks, start, k - 1), k - 1)
  }

  lemma {:induction false} IterateVisits(pack: QsPack, step: (seq<QsBlock>, nat) -> seq<QsBlock>, start: nat, k: nat)
    requires pack.Valid() && start <= k <= |pack.trees|
    requires forall b: seq<QsBlock>, j: nat {:trigger step(b, j)} | start <= j < |pack.trees|
             && Visited(pack, b, start, j) ::
               Visited(pack, step(b, j), start, j + 1)
    ensures Visited(pack, Iterate(step, pack.blocks, start, k), start, k)
    decreases k
  {
    if k == start {
      NoneVisited(pack, start);
    } else {
      IterateVisits(pack, step, start, k - 1);
      assert Visited(pack, step(Iterate(step, pack.blocks, start, k - 1), k - 1), start, k - 1 + 1);
    }
  }

  /** The block list after the trees `start..k` have been reordered in turn: each visited tree's
      blocks are permuted, and no other tree's blocks change at all. */
  ghost function Reordered(pack: QsPack, samples: seq<seq<nat>>, start: nat, k: nat, front: nat): (r: seq<QsBlock>)
    requires pack.Valid() && SamplesFit(pack, samples) && start <= k <= |pack.trees|
    ensures Visited(pack, r, start, k)
  {
    var step := Step(pack, samples, front);
    forall b: seq<QsBlock>, j: nat | start <= j < |pack.trees| && Visited(pack, b, start, j)
      ensures Visited(pack, step(b, j), start, j + 1)
    {
      ReorderOneVisits(pack, b, samples, start, j, front);
    }
    IterateVisits(pack, step, start, k);
    Iterate(step, pack.blocks, start, k)
  }

  /** The pack with another block list. */
  function WithBlocks(pack: QsPack, blocks: seq<QsBlock>): QsPack { pack.(blocks := blocks) }

  lemma SameShape(pack: QsPack, blocks: seq<QsBlock>)
    requires pack.Valid() && BlocksKnown(pack, blocks) && |blocks| == |pack.blocks|
    ensures WithBlocks(pack, blocks).Valid()
    ensures forall f: nat | f < pack.nFeatures :: WithBlocks(pack, blocks).Cuts(f) == pack.Cuts(f)
  {
    var other := WithBlocks(pack, blocks);
    forall f: nat | f < other.nFeatures ensures other.CutsOk(f) { assert pack.CutsOk(f); }
    forall t | t in other.trees ensures other.TreeOk(t) { assert pack.TreeOk(t); }
    forall b | b in other.blocks ensures other.BlockOk(b) {
      assert pack.BlockOk(b) && pack.CutsOk(b.fid);
      forall r: nat | r < 256 && r <= other.cutOffsets[b.fid + 1] - other.cutOffsets[b.fid]
          ensures other.BucketOk(b, r) {
        assert pack.BucketOk(b, r);
      }
    }
  }

  // ---------------------------------------------------------------- scores are unchanged

  /** Two packs that differ in their block list only. */
  ghost predicate Alike(pack: QsPack, other: QsPack, m: SoaModel) {
    && Matches(pack, m) && Matches(other, m)
    && other == WithBlocks(pack, other.blocks)
    && forall f: nat | f < pack.nFeatures :: other.Cuts(f) == pack.Cuts(f)
  }

  lemma {:induction false} SurvivesAlike(pack: QsPack, other: QsPack, m: SoaModel, i: nat, f: nat, a: Answer, l: nat)
    requires Alike(pack, other, m) && i < m.NodeCount()
    ensures Survives(m, other, i, f, a, l) <==> Survives(m, pack, i, f, a, l)
    decreases m.NodeCount() - i
  {
    if m.isLeaf[i] {
    } else {
      assert m.SplitOk(i);
      if m.fidx[i] == f {
        SurvivesAlike(pack, other, m, Goes(m, pack, i, a), f, a, l);
      } else {
        SurvivesAlike(pack, other, m, m.left[i], f, a, l);
        SurvivesAlike(pack, other, m, m.right[i], f, a, l);
      }
    }
  }

  lemma BlockEncodesAlike(pack: QsPack, other: QsPack, b: QsBlock, m: SoaModel, root: nat, num: map<nat, nat>)
    requires Alike(pack, other, m) && b in pack.blocks && b in other.blocks && root < m.NodeCount()
    requires (forall l: nat | Reaches(m, root, l) :: l in num) && BlockEncodes(pack, b, m, root, num)
    ensures BlockEncodes(other, b, m, root, num)
  {
    assert pack.BlockOk(b) && other.BlockOk(b);
    forall a: Answer, l: nat | AnswerFits(other, b.fid, a) && Reaches(m, root, l)
      ensures Keeps(BlockMask(other, b, a), num[l]) <==> Survives(m, other, root, b.fid, a, l)
    {
      assert AnswerFits(pack, b.fid, a);
      SurvivesAlike(pack, other, m, root, b.fid, a, l);
    }
  }

  lemma EncodesAfterPermutation(pack: QsPack, blocks: seq<QsBlock>, t: QsTree, m: SoaModel, root: nat,
                                num: map<nat, nat>)
    requires Matches(pack, m) && t in pack.trees && root < m.NodeCount() && Encodes(pack, t, m, root, num)
    requires BlocksKnown(pack, blocks) && |blocks| == |pack.blocks| && pack.TreeOk(t)
    requires multiset(SegmentOf(blocks, t)) == multiset(SegmentOf(pack.blocks, t))
    ensures Matches(WithBlocks(pack, blocks), m) && Encodes(WithBlocks(pack, blocks), t, m, root, num)
  {
    SameShape(pack, blocks);
    var other := WithBlocks(pack, blocks);
    forall b ensures b in TreeBlocks(other, t) <==> b in TreeBlocks(pack, t) {
      assert b in multiset(TreeBlocks(other, t)) <==> b in multiset(TreeBlocks(pack, t));
    }
    forall b | b in TreeBlocks(other, t) ensures BlockEncodes(other, b, m, root, num) {
      BlockEncodesAlike(pack, other, b, m, root, num);
    }
  }

  /** Reordering keeps an encoding pack an encoding pack, whatever rows were sampled. */
  lemma ReorderKeepsEncoding(pack: QsPack, m: SoaModel, plan: TreeOrder, samples: seq<seq<nat>>, start: nat, k: nat,
                             front: nat)
    requires PackEncodes(pack, m, plan) && SamplesFit(pack, samples) && start <= k <= |pack.trees|
             && SegmentsApart(pack)
    ensures PackEncodes(WithBlocks(pack, Reordered(pack, samples, start, k, front)), m, plan)
  {
    var blocks := Reordered(pack, samples, start, k, front);
    var other := WithBlocks(pack, blocks);
    SameShape(pack, blocks);
    forall p: nat | p < |other.trees| ensures TreeEncoded(other, p, m, m.treeRoots[plan.order[p]]) {
      var root := m.treeRoots[plan.order[p]];
      assert TreeEncoded(pack, p, m, root) && pack.TreeOk(pack.trees[p]);
      var num: map<nat, nat> :| Encodes(pack, pack.trees[p], m, root, num);
      assert SamePool(pack.blocks, blocks, pack.trees[p]);
      EncodesAfterPermutation(pack, blocks, pack.trees[p], m, root, num);
    }
  }

  /** For every row, sampled or not, every tree's value is what it was before reordering. */
  lemma ReorderKeepsScores(pack: QsPack, m: SoaModel, plan: TreeOrder, samples: seq<seq<nat>>, start: nat, k: nat,
                           front: nat, row: Row, p: nat)
    requires PackEncodes(pack, m, plan) && SamplesFit(pack, samples) && start <= k <= |pack.trees|
             && SegmentsApart(pack)
    requires |row| == m.nFeatures && p < |pack.trees|
    ensures var other := WithBlocks(pack, Reordered(pack, samples, start, k, front));
            && other.Valid() && other.nFeatures == pack.nFeatures
            && var before := EvalTree(pack, pack.trees[p], Answers(pack, row));
               var after := EvalTree(other, pack.trees[p], Answers(other, row));
               before.Ok? && after.Ok? && before.value.value == after.value.value
               && before.value.resolved == after.value.resolved
  {
    ReorderKeepsEncoding(pack, m, plan, samples, start, k, front);
    EncodedTreeEval(pack, m, plan, row, p);
    EncodedTreeEval(WithBlocks(pack, Reordered(pack, samples, start, k, front)), m, plan, row, p);
  }

  // ---------------------------------------------------------------- in place

  /** The loader's reordering pass over the trees `start..end`, rewriting the block headers in place. */
  method ReorderFrontBlocks(pack: QsPack, hdrs: array<QsBlock>, samples: seq<seq<nat>>, start: nat, end: nat,
                            front: nat)
    requires pack.Valid() && hdrs[..] == pack.blocks && SamplesFit(pack, samples)
    modifies hdrs
    ensures hdrs[..] == if |samples| == 0 || front == 0 || start >= end || start >= |pack.trees| then pack.blocks
                        else Reordered(pack, samples, start, if end < |pack.trees| then end else |pack.trees|, front)
  {
    if |samples| == 0 || front == 0 || start >= end || start >= |pack.trees| {
      return;
    }
    var treeEnd := if end < |pack.trees| then end else |pack.trees|;
    for k := start to treeEnd
      invariant hdrs[..] == Reordered(pack, samples, start, k, front)
    {
      ReorderInPlace(pack, hdrs, k, samples, front);
    }
  }

  method ReorderInPlace(pack: QsPack, hdrs: array<QsBlock>, k: nat, samples: seq<seq<nat>>, front: nat)
    requires pack.Valid() && SamplesFit(pack, samples) && k < |pack.trees|
    requires |hdrs[..]| == |pack.blocks| && BlocksKnown(pack, hdrs[..])
    modifies hdrs
    ensures hdrs[..] == ReorderOne(pack, old(hdrs[..]), samples, k, front)
  {
    var t := pack.trees[k];
    assert pack.TreeOk(t);
    ghost var before := hdrs[..];
    var original := hdrs[t.blockOff..t.blockOff + t.blockCnt];
    assert original == SegmentOf(before, t);
    var segment := original;
    if t.blockCnt > 1 {
      segment := ReorderSegment(pack, t, original, samples, front);
      CopyBack(hdrs, t.blockOff, segment);
    } else {
      assert before == Splice(before, t, original);
    }
  }

  method ReorderSegment(pack: QsPack, t: QsTree, original: seq<QsBlock>, samples: seq<seq<nat>>, front: nat)
    returns (out: seq<QsBlock>)
    requires pack.Valid() && BlocksKnown(pack, original) && SamplesFit(pack, samples) && |original| > 1
    ensures out == Segment(pack, t.init, original, samples, front)
  {
    var sel := Selections(pack, original, samples);
    var choose := if front < |original| then front else |original|;
    var order := GreedyOrder(GainOf(sel), StepOf(sel), |original|, Fresh(|samples|, t.init), choose);
    assert order == BlockOrder(sel, Fresh(|samples|, t.init), choose);
    out := Pick(original, order);
  }

  method CopyBack(hdrs: array<QsBlock>, off: nat, out: seq<QsBlock>)
    requires off + |out| <= hdrs.Length
    modifies hdrs
    ensures hdrs[..] == old(hdrs[..off]) + out + old(hdrs[off + |out|..])
  {
    for i := 0 to |out|
      invariant hdrs[..off] == old(hdrs[..off]) && hdrs[off..off + i] == out[..i]
      invariant hdrs[off + i..] == old(hdrs[off + i..])
    {
      hdrs[off + i] := out[i];
    }
    assert hdrs[..] == hdrs[..off] + hdrs[off..off + |out|] + hdrs[off + |out|..];
  }
}

/** What a block is worth, in terms of the leaves it rules out. */
module BlockGains {
  import opened Bits
  import opened LeafMasks
  import opened BlockReorder

  ghost function Held(x: u64): set<nat> { set k: nat | k < 64 && At(x, k) }

  ghost function Leaves(m: Mask128): set<nat> { set k: nat | k < 128 && Keeps(m, k) }

  ghost function Moved(s: set<nat>, d: nat): set<nat> { set k | k in s :: k + d }

  lemma {:induction false} MovedSize(s: set<nat>, d: nat)
    ensures |Moved(s, d)| == |s|
    decreases |s|
  {
    if s == {} {
      assert Moved(s, d) == {};
    } else {
      var k :| k in s;
      var rest, all := Moved(s - {k}, d), Moved(s, d);
      MovedSize(s - {k}, d);
      forall j: nat ensures j in all <==> j in rest + {k + d} {
        if j in all {
          var i :| i in s && i + d == j;
          assert i != k ==> i in s - {k};
        }
      }
      assert all == rest + {k + d};
    }
  }

  lemma HeldByHalf(x: u64)
    ensures Held(x) == (if Odd(x) then {0} else {}) + Moved(Held(Half(x)), 1)
  {
    forall k: nat ensures k in Held(x) <==> k in (if Odd(x) then {0} else {}) + Moved(Held(Half(x)), 1) {
      if k in Moved(Held(Half(x)), 1) { PositionsBelow64(x, k); }
      if k > 0 && At(x, k) { assert k < 64 ==> k - 1 in Held(Half(x)); }
    }
  }

  /** The count of ones is the number of positions held. */
  lemma {:induction false} CountIsSize(x: u64)
    ensures CountOnes(x) == |Held(x)|
    decreases x
  {
    if x == 0 {
      forall k: nat ensures !At(x, k) { ZeroIsEmpty(k); }
      assert Held(x) == {};
    } else {
      HalfIsLess(x);
      CountIsSize(Half(x));
      HeldByHalf(x);
      MovedSize(Held(Half(x)), 1);
    }
  }

  lemma EmptyIffZero(x: u64)
    ensures x == 0 <==> Held(x) == {}
  {
    if x == 0 {
      forall k: nat ensures !At(x, k) { ZeroIsEmpty(k); }
    } else {
      PositionsBelow64(x, TrailingZeros(x));
      assert TrailingZeros(x) in Held(x);
    }
  }

  lemma LeavesOfHalves(m: Mask128)
    ensures Leaves(m) == Held(m.lo) + Moved(Held(m.hi), 64)
    ensures |Leaves(m)| == |Held(m.lo)| + |Held(m.hi)|
  {
    forall k: nat ensures k in Leaves(m) <==> k in Held(m.lo) + Moved(Held(m.hi), 64) {
      if 64 <= k < 128 && Keeps(m, k) { assert k - 64 in Held(m.hi); }
    }
    MovedSize(Held(m.hi), 64);
    assert Held(m.lo) !! Moved(Held(m.hi), 64);
  }

  /** The leaves are all in one half, and there are some. */
  ghost predicate OneSided(leaves: set<nat>) {
    leaves != {} && ((forall k | k in leaves :: k < 64) || (forall k | k in leaves :: k >= 64))
  }

  lemma HalfEmptyIsOneSided(m: Mask128)
    ensures HalfEmpty(m) <==> OneSided(Leaves(m))
  {
    LeavesOfHalves(m);
    EmptyIffZero(m.lo);
    EmptyIffZero(m.hi);
    forall k | k in Held(m.lo) ensures k in Leaves(m) && k < 64 {}
    forall k | k in Held(m.hi) ensures k + 64 in Leaves(m) { assert k + 64 in Moved(Held(m.hi), 64); }
  }

  lemma OneMember(s: set<nat>, j: nat, k: nat)
    requires |s| == 1 && j in s && k in s
    ensures j == k
  {
    assert |s - {k}| == 0;
  }

  lemma ResolvedIsOneLeaf(m: Mask128)
    ensures Resolved(m) <==> |Leaves(m)| == 1
  {
    ResolvedIffOne(m);
    forall k: nat | Keeps(m, k) ensures k in Leaves(m) { LeafBelow128(m, k); }
    if Resolved(m) {
      var k: nat :| Only(m, k);
      assert Leaves(m) == {k};
    } else if |Leaves(m)| == 1 {
      var k :| k in Leaves(m);
      forall j: nat | Keeps(m, j) ensures j == k {
        OneMember(Leaves(m), j, k);
      }
      assert Only(m, k);
    }
  }

  lemma LeafBelow128(m: Mask128, k: nat)
    requires Keeps(m, k)
    ensures k < 128
  {
    if k >= 64 { PositionsBelow64(m.hi, k - 64); }
  }

  /** Ruling leaves out is worth a point for each, besides ten thousand for getting them to one side, or a million for
      getting them down to one. */
  ghost function Worth(before: set<nat>, after: set<nat>): int {
    |before - after|
    + if |after| == 1 then 1_000_000 else if !OneSided(before) && OneSided(after) then 10_000 else 0
  }

  lemma PopulationIsLeaves(m: Mask128)
    ensures Population(m) == |Leaves(m)|
  {
    LeavesOfHalves(m);
    CountIsSize(m.lo);
    CountIsSize(m.hi);
  }

  lemma MeetLeaves(cur: Mask128, mask: Mask128)
    ensures Leaves(Meet(cur, mask)) == Leaves(cur) * Leaves(mask)
    ensures |Leaves(cur) - Leaves(cur) * Leaves(mask)| == |Leaves(cur)| - |Leaves(Meet(cur, mask))|
  {
    var before, after := Leaves(cur), Leaves(cur) * Leaves(mask);
    assert before == after + (before - after);
  }

  lemma StepGainIsWorth(cur: Mask128, mask: Mask128)
    ensures StepGain(cur, Meet(cur, mask)) == Worth(Leaves(cur), Leaves(cur) * Leaves(mask))
  {
    var next := Meet(cur, mask);
    MeetLeaves(cur, mask);
    PopulationIsLeaves(cur);
    PopulationIsLeaves(next);
    HalfEmptyIsOneSided(cur);
    HalfEmptyIsOneSided(next);
    ResolvedIsOneLeaf(next);
  }

  /** A sample with one leaf left counts for nothing. */
  ghost function SampleWorth(cur: Mask128, mask: Mask128): int {
    if |Leaves(cur)| == 1 then 0 else Worth(Leaves(cur), Leaves(cur) * Leaves(mask))
  }

  lemma SampleGainIsWorth(cur: Mask128, mask: Mask128)
    ensures (if Resolved(cur) then 0 else StepGain(cur, Meet(cur, mask))) == SampleWorth(cur, mask)
  {
    ResolvedIsOneLeaf(cur);
    StepGainIsWorth(cur, mask);
  }

  ghost function WorthOf(row: seq<Mask128>, states: seq<Mask128>, n: nat): int
    requires n <= |row| == |states|
  {
    if n == 0 then 0 else WorthOf(row, states, n - 1) + SampleWorth(states[n - 1], row[n - 1])
  }

  /** A block gains what the leaves it rules out are worth. */
  lemma {:induction false} GainIsWorth(row: seq<Mask128>, states: seq<Mask128>, n: nat)
    requires n <= |row| == |states|
    ensures Gain(row, states, n) == WorthOf(row, states, n)
  {
    if n == 0 {
    } else {
      GainIsWorth(row, states, n - 1);
      SampleGainIsWorth(states[n - 1], row[n - 1]);
    }
  }

  /** Taking it leaves each sample the leaves it does not rule out, unless one was left already. */
  lemma AdvanceLeaves(row: seq<Mask128>, states: seq<Mask128>, i: nat)
    requires |row| == |states| && i < |states|
    ensures Leaves(Advance(row, states)[i]) ==
            if |Leaves(states[i])| == 1 then Leaves(states[i]) else Leaves(states[i]) * Leaves(row[i])
  {
    ResolvedIsOneLeaf(states[i]);
    MeetLeaves(states[i], row[i]);
  }
}
