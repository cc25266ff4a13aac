/** Candidate-leaf masks: two 64-bit words holding up to 128 leaf positions. */
module LeafMasks {
  import opened Bits
  import opened Forest

  datatype Mask128 = Mask128(lo: u64, hi: u64)

  /** Leaf `k` is still a candidate. */
  predicate Keeps(m: Mask128, k: nat) {
    if k < 64 then At(m.lo, k) else At(m.hi, k - 64)
  }

  function Meet(m: Mask128, n: Mask128): (r: Mask128)
    ensures forall k: nat :: Keeps(r, k) <==> Keeps(m, k) && Keeps(n, k)
  {
    MeetKeeps(m, n);
    Mask128(And(m.lo, n.lo), And(m.hi, n.hi))
  }

  lemma MeetKeeps(m: Mask128, n: Mask128)
    ensures forall k: nat :: Keeps(Mask128(And(m.lo, n.lo), And(m.hi, n.hi)), k) <==> Keeps(m, k) && Keeps(n, k)
  {
    forall k: nat
      ensures Keeps(Mask128(And(m.lo, n.lo), And(m.hi, n.hi)), k) <==> Keeps(m, k) && Keeps(n, k)
    {
      if k < 64 { AtAnd(m.lo, n.lo, k); } else { AtAnd(m.hi, n.hi, k - 64); }
    }
  }

  predicate Resolved(m: Mask128) {
    || (m.hi == 0 && m.lo != 0 && IsPowerOfTwo(m.lo))
    || (m.lo == 0 && m.hi != 0 && IsPowerOfTwo(m.hi))
  }

  function DecodeLeaf(m: Mask128): Result<nat> {
    if m.hi == 0 && m.lo != 0 && IsPowerOfTwo(m.lo) then Ok(TrailingZeros(m.lo))
    else if m.lo == 0 && m.hi != 0 && IsPowerOfTwo(m.hi) then Ok(64 + TrailingZeros(m.hi))
    else Err
  }

  /** Exactly leaf `k` is left. */
  ghost predicate Only(m: Mask128, k: nat) {
    Keeps(m, k) && forall j: nat | Keeps(m, j) :: j == k
  }

  lemma ResolvedKeepsOne(m: Mask128, j: nat, k: nat)
    requires Resolved(m) && Keeps(m, j) && Keeps(m, k)
    ensures j == k
  {
    if m.hi == 0 {
      if j >= 64 { ZeroIsEmpty(j - 64); }
      if k >= 64 { ZeroIsEmpty(k - 64); }
      PowerOfTwoHoldsOne(m.lo, j, k);
    } else {
      if j < 64 { ZeroIsEmpty(j); }
      if k < 64 { ZeroIsEmpty(k); }
      PowerOfTwoHoldsOne(m.hi, j - 64, k - 64);
    }
  }

  /** The word test recognises exactly the one-leaf masks, and decoding names that leaf. */
  lemma ResolvedIffOne(m: Mask128)
    ensures Resolved(m) <==> exists k: nat :: Only(m, k)
    ensures forall k: nat :: DecodeLeaf(m) == Ok(k) <==> Only(m, k)
  {
    if Resolved(m) {
      var k := DecodeLeaf(m).value;
      if m.hi == 0 {
        PositionsBelow64(m.lo, k);
      }
      forall j: nat | Keeps(m, j) ensures j == k { ResolvedKeepsOne(m, j, k); }
      assert Only(m, k);
    }
    forall k: nat | Only(m, k) ensures Resolved(m) { OneIsResolved(m, k); }
  }

  lemma OneIsResolved(m: Mask128, k: nat)
    requires Only(m, k)
    ensures Resolved(m)
  {
    if k < 64 {
      if m.hi != 0 { assert Keeps(m, 64 + TrailingZeros(m.hi)); }
      forall j: nat | At(m.lo, j) ensures j == k {
        PositionsBelow64(m.lo, j);
        assert Keeps(m, j);
      }
      OneHeldIsPowerOfTwo(m.lo, k);
    } else {
      if m.lo != 0 {
        PositionsBelow64(m.lo, TrailingZeros(m.lo));
        assert Keeps(m, TrailingZeros(m.lo));
      }
      forall j: nat | At(m.hi, j) ensures j == k - 64 { assert Keeps(m, j + 64); }
      OneHeldIsPowerOfTwo(m.hi, k - 64);
    }
  }
}

/** The QuickScorer pack and its evaluators. */
module QuickScorer {
  import opened Bits
  import opened Forest
  import opened LeafMasks
  import opened Search
  import opened Tallies

  datatype QsTree = QsTree(blockOff: nat, blockCnt: nat, leafCnt: nat, leafValOff: nat, init: Mask128)

  datatype QsBlock = QsBlock(fid: nat, bucketCnt: nat, missBucket: nat, lutOff: nat, maskOff: nat)

  datatype QsPack = QsPack(
    nFeatures: nat,
    baseScore: real,
    cutOffsets: seq<nat>,
    cuts: seq<real>,
    trees: seq<QsTree>,
    blocks: seq<QsBlock>,
    luts: seq<nat>,
    masks: seq<Mask128>,
    leafValues: seq<real>)
  {
    ghost predicate Valid() {
      && |cutOffsets| == nFeatures + 1
      && (forall f: nat | f < nFeatures :: CutsOk(f))
      && (forall t | t in trees :: TreeOk(t))
      && (forall b | b in blocks :: BlockOk(b))
    }

    ghost predicate CutsOk(f: nat)
      requires |cutOffsets| == nFeatures + 1 && f < nFeatures
    {
      && cutOffsets[f] <= cutOffsets[f + 1] <= |cuts|
      && Sorted(cuts[cutOffsets[f]..cutOffsets[f + 1]])
    }

    predicate TreeOk(t: QsTree) {
      && t.blockOff + t.blockCnt <= |blocks|
      && t.leafValOff + t.leafCnt <= |leafValues|
    }

    /** Every bucket a rank or a missing value can select has a mask. */
    ghost predicate BlockOk(b: QsBlock)
      requires |cutOffsets| == nFeatures + 1
      requires forall f: nat | f < nFeatures :: CutsOk(f)
    {
      && b.fid < nFeatures
      && b.missBucket < b.bucketCnt
      && b.maskOff + b.bucketCnt <= |masks|
      && assert CutsOk(b.fid);
         forall r: nat | r < 256 && r <= cutOffsets[b.fid + 1] - cutOffsets[b.fid] :: BucketOk(b, r)
    }

    predicate BucketOk(b: QsBlock, r: nat) {
      b.lutOff + r < |luts| && luts[b.lutOff + r] < b.bucketCnt
    }

    function Cuts(f: nat): (c: seq<real>)
      requires Valid() && f < nFeatures
      ensures Sorted(c)
    {
      assert CutsOk(f);
      cuts[cutOffsets[f]..cutOffsets[f + 1]]
    }
  }

  /** What a block knows of its feature's value: that it is missing, or its rank among the cuts. */
  datatype Answer = Missing | Rank(r: nat)

  /** Ranks are stored in a byte. */
  function RankByte(vals: seq<real>, x: real): nat { CountAtMost(vals, x) % 256 }

  function AnswerOf(pack: QsPack, f: nat, x: Feature): Answer
    requires pack.Valid() && f < pack.nFeatures
  {
    match x
    case NaN => Missing
    case Num(v) => Rank(RankByte(pack.Cuts(f), v))
  }

  ghost predicate AnswerFits(pack: QsPack, f: nat, a: Answer)
    requires pack.Valid() && f < pack.nFeatures
  {
    a.Rank? ==> a.r < 256 && a.r <= |pack.Cuts(f)|
  }

  ghost predicate AnswersFit(pack: QsPack, ans: seq<Answer>)
    requires pack.Valid()
  {
    |ans| == pack.nFeatures && forall f | 0 <= f < |ans| :: AnswerFits(pack, f, ans[f])
  }

  function Answers(pack: QsPack, row: Row): (ans: seq<Answer>)
    requires pack.Valid() && |row| == pack.nFeatures
    ensures AnswersFit(pack, ans)
  {
    seq(|row|, f requires 0 <= f < |row| => AnswerOf(pack, f, row[f]))
  }

  /** The two byte buffers the evaluators read, as answers. */
  function FromBuffers(ranks: seq<nat>, missing: seq<nat>): seq<Answer>
    requires |ranks| == |missing|
  {
    seq(|ranks|, f requires 0 <= f < |ranks| => if missing[f] != 0 then Missing else Rank(ranks[f]))
  }

  method QuantizeRow(pack: QsPack, feat: Row, ranks: array<nat>, missing: array<nat>)
    requires pack.Valid() && |feat| == pack.nFeatures
    requires ranks.Length == missing.Length == pack.nFeatures && ranks != missing
    modifies ranks, missing
    ensures FromBuffers(ranks[..], missing[..]) == Answers(pack, feat)
    ensures forall f | 0 <= f < pack.nFeatures ::
              missing[f] == (if feat[f].NaN? then 1 else 0) && (feat[f].NaN? ==> ranks[f] == 0)
  {
    var fid := 0;
    while fid < pack.nFeatures
      invariant fid <= pack.nFeatures
      invariant forall f | 0 <= f < fid ::
                  && missing[f] == (if feat[f].NaN? then 1 else 0)
                  && ranks[f] == if feat[f].NaN? then 0 else RankByte(pack.Cuts(f), feat[f].v)
    {
      match feat[fid] {
        case NaN =>
          ranks[fid] := 0;
          missing[fid] := 1;
        case Num(x) =>
          var rank := UpperBound(pack.Cuts(fid), x);
          ranks[fid] := rank % 256;
          missing[fid] := 0;
      }
      fid := fid + 1;
    }
  }

  // ---------------------------------------------------------------- one tree

  function BlockMask(pack: QsPack, b: QsBlock, a: Answer): Mask128
    requires pack.Valid() && b in pack.blocks && AnswerFits(pack, b.fid, a)
  {
    assert pack.BlockOk(b) && pack.CutsOk(b.fid);
    match a
    case Missing => pack.masks[b.maskOff + b.missBucket]
    case Rank(r) => assert pack.BucketOk(b, r); pack.masks[b.maskOff + pack.luts[b.lutOff + r]]
  }

  /** The mask the `j`-th block of a tree selects. */
  function TreeBlockMask(pack: QsPack, t: QsTree, ans: seq<Answer>, j: nat): Mask128
    requires pack.Valid() && t in pack.trees && AnswersFit(pack, ans) && j < t.blockCnt
  {
    assert pack.TreeOk(t);
    var b := pack.blocks[t.blockOff + j];
    assert pack.BlockOk(b) && AnswerFits(pack, b.fid, ans[b.fid]);
    BlockMask(pack, b, ans[b.fid])
  }

  /** The candidate mask after the first `k` blocks of a tree. */
  function Candidates(pack: QsPack, t: QsTree, ans: seq<Answer>, k: nat): Mask128
    requires pack.Valid() && t in pack.trees && AnswersFit(pack, ans) && k <= t.blockCnt
  {
    if k == 0 then t.init else Meet(Candidates(pack, t, ans, k - 1), TreeBlockMask(pack, t, ans, k - 1))
  }

  /** How many blocks are evaluated when `k` have been and the tree was not yet resolved. */
  function BlocksEvaluated(pack: QsPack, t: QsTree, ans: seq<Answer>, k: nat): (n: nat)
    requires pack.Valid() && t in pack.trees && AnswersFit(pack, ans) && k <= t.blockCnt
    ensures k <= n <= t.blockCnt
    ensures n < t.blockCnt ==> k < n && Resolved(Candidates(pack, t, ans, n))
    ensures forall j | k < j < n :: !Resolved(Candidates(pack, t, ans, j))
    decreases t.blockCnt - k
  {
    if k == t.blockCnt then k
    else if Resolved(Candidates(pack, t, ans, k + 1)) then k + 1
    else BlocksEvaluated(pack, t, ans, k + 1)
  }

  function EvalTree(pack: QsPack, t: QsTree, ans: seq<Answer>): Result<TreeEval>
    requires pack.Valid() && t in pack.trees && AnswersFit(pack, ans)
  {
    var n := BlocksEvaluated(pack, t, ans, 0);
    var m := Candidates(pack, t, ans, n);
    match DecodeLeaf(m)
    case Err => Err
    case Ok(l) =>
      if l >= t.leafCnt then Err
      else Ok(TreeEval(pack.leafValues[t.leafValOff + l], n, if n > 0 && Resolved(m) then 1 else 0))
  }

  /** Picks the bucket of the tree's `j`-th block from the two byte buffers. */
  method SelectMask(pack: QsPack, t: QsTree, ranks: seq<nat>, missing: seq<nat>, j: nat) returns (mask: Mask128)
    requires pack.Valid() && t in pack.trees && j < t.blockCnt
    requires |ranks| == |missing| && AnswersFit(pack, FromBuffers(ranks, missing))
    ensures mask == TreeBlockMask(pack, t, FromBuffers(ranks, missing), j)
  {
    assert pack.TreeOk(t);
    var block := pack.blocks[t.blockOff + j];
    assert pack.BlockOk(block) && pack.CutsOk(block.fid);
    assert AnswerFits(pack, block.fid, FromBuffers(ranks, missing)[block.fid]);
    var bucket := block.missBucket;
    if missing[block.fid] == 0 {
      assert pack.BucketOk(block, ranks[block.fid]);
      bucket := pack.luts[block.lutOff + ranks[block.fid]];
    }
    mask := pack.masks[block.maskOff + bucket];
  }

  /** The mask loop every evaluator runs, with its early break. */
  method NarrowTree(pack: QsPack, t: QsTree, ranks: seq<nat>, missing: seq<nat>)
    returns (m: Mask128, blockEvals: nat, resolvedEarly: nat)
    requires pack.Valid() && t in pack.trees
    requires |ranks| == |missing| && AnswersFit(pack, FromBuffers(ranks, missing))
    ensures var ans := FromBuffers(ranks, missing);
            && blockEvals == BlocksEvaluated(pack, t, ans, 0)
            && m == Candidates(pack, t, ans, blockEvals)
            && resolvedEarly == if blockEvals > 0 && Resolved(m) then 1 else 0
  {
    ghost var ans := FromBuffers(ranks, missing);
    m, blockEvals, resolvedEarly := t.init, 0, 0;
    while blockEvals < t.blockCnt
      invariant blockEvals <= t.blockCnt && resolvedEarly == 0
      invariant m == Candidates(pack, t, ans, blockEvals)
      invariant blockEvals > 0 ==> !Resolved(m)
      invariant BlocksEvaluated(pack, t, ans, 0) == BlocksEvaluated(pack, t, ans, blockEvals)
    {
      var mask := SelectMask(pack, t, ranks, missing, blockEvals);
      m := Meet(m, mask);
      blockEvals := blockEvals + 1;
      if Resolved(m) {
        resolvedEarly := 1;
        break;
      }
    }
  }

  method ScoreTreeQuantized(pack: QsPack, t: QsTree, ranks: seq<nat>, missing: seq<nat>) returns (r: Result<TreeEval>)
    requires pack.Valid() && t in pack.trees
    requires |ranks| == |missing| && AnswersFit(pack, FromBuffers(ranks, missing))
    ensures r == EvalTree(pack, t, FromBuffers(ranks, missing))
  {
    var m, blockEvals, resolvedEarly := NarrowTree(pack, t, ranks, missing);
    var leaf := DecodeLeaf(m);
    if leaf.Err? || leaf.value >= t.leafCnt {
      return Err;
    }
    return Ok(TreeEval(pack.leafValues[t.leafValOff + leaf.value], blockEvals, resolvedEarly));
  }

  // ---------------------------------------------------------------- many trees

  /** Adds tree `i` to a tally that may already have failed. */
  function ScoreIndex(pack: QsPack, ans: seq<Answer>, i: nat, sum: Result<Tally>): Result<Tally>
    requires pack.Valid() && AnswersFit(pack, ans)
  {
    if sum.Err? || i >= |pack.trees| then Err else
      match EvalTree(pack, pack.trees[i], ans)
      case Err => Err
      case Ok(e) => Ok(sum.value.Add(e))
  }

  /** The tally over the trees `idx[..n]` of the pack; fails where a tree does. */
  function ScoreIndices(pack: QsPack, ans: seq<Answer>, idx: seq<nat>, n: nat, init: Tally): Result<Tally>
    requires pack.Valid() && AnswersFit(pack, ans) && n <= |idx|
  {
    if n == 0 then Ok(init) else ScoreIndex(pack, ans, idx[n - 1], ScoreIndices(pack, ans, idx, n - 1, init))
  }

  lemma {:induction false} FailureStays(pack: QsPack, ans: seq<Answer>, idx: seq<nat>, k: nat, n: nat, init: Tally)
    requires pack.Valid() && AnswersFit(pack, ans) && k <= n <= |idx|
    requires ScoreIndices(pack, ans, idx, k, init).Err?
    ensures ScoreIndices(pack, ans, idx, n, init).Err?
  {
    if k < n { FailureStays(pack, ans, idx, k, n - 1, init); }
  }

  method AddTree(pack: QsPack, i: nat, ranks: seq<nat>, missing: seq<nat>, sum: Tally) returns (r: Result<Tally>)
    requires pack.Valid()
    requires |ranks| == |missing| && AnswersFit(pack, FromBuffers(ranks, missing))
    ensures r == ScoreIndex(pack, FromBuffers(ranks, missing), i, Ok(sum))
  {
    if i >= |pack.trees| {
      return Err;
    }
    var e := ScoreTreeQuantized(pack, pack.trees[i], ranks, missing);
    r := if e.Err? then Err else Ok(sum.Add(e.value));
  }

  method ScoreTreeIndices(pack: QsPack, idx: seq<nat>, ranks: seq<nat>, missing: seq<nat>, init: Tally)
    returns (r: Result<Tally>)
    requires pack.Valid()
    requires |ranks| == |missing| && AnswersFit(pack, FromBuffers(ranks, missing))
    ensures r == ScoreIndices(pack, FromBuffers(ranks, missing), idx, |idx|, init)
  {
    ghost var ans := FromBuffers(ranks, missing);
    r := Ok(init);
    for k := 0 to |idx|
      invariant r.Ok? && ScoreIndices(pack, ans, idx, k, init) == r
    {
      r := AddTree(pack, idx[k], ranks, missing, r.value);
      if r.Err? {
        FailureStays(pack, ans, idx, k + 1, |idx|, init);
        return;
      }
    }
  }

  method ScoreRow(pack: QsPack, feat: Row, ranks: array<nat>, missing: array<nat>) returns (r: Result<Tally>)
    requires pack.Valid() && |feat| == pack.nFeatures
    requires ranks.Length == missing.Length == pack.nFeatures && ranks != missing
    modifies ranks, missing
    ensures r ==
            ScoreIndices(pack, Answers(pack, feat), Positions(|pack.trees|), |pack.trees|, Tally(pack.baseScore, 0, 0))
  {
    QuantizeRow(pack, feat, ranks, missing);
    r := ScoreTreeIndices(pack, Positions(|pack.trees|), ranks[..], missing[..], Tally(pack.baseScore, 0, 0));
  }
}
