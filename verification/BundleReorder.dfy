/** The load-time reordering of a bundle's late trees on sampled rows of a batch: the bundle still fits
    its model, so everything proved of predictions holds of the reordered bundle. */
module BundleReorder {
  import opened Forest
  import opened QuickScorer
  import opened QuickScorerExact
  import opened Ladders
  import opened HotPacks
  import opened LatePrograms
  import opened BlockReorder
  import opened Prediction

  const SAMPLE_CAP: nat := 256
  const FRONT_BLOCKS: nat := 16

  /** The rows below `n` that are active, in order. */
  function ActiveBelow(active: seq<bool>, n: nat): (rows: seq<nat>)
    requires n <= |active|
    ensures forall k | 0 <= k < |rows| :: rows[k] < n && active[rows[k]]
    ensures forall i | 0 <= i < n && active[i] :: i in rows
  {
    if n == 0 then [] else ActiveBelow(active, n - 1) + if active[n - 1] then [n - 1] else []
  }

  lemma Scaled(a: nat, b: nat, n: nat)
    requires a <= b
    ensures a * n <= b * n
  {}

  lemma QuotientBelow(a: nat, n: nat, count: nat)
    requires count > 0 && a < n * count
    ensures a / count < n
  {
    var q := a / count;
    assert a >= q * count;
    if q >= n { Scaled(n, q, count); }
  }

  /** Which of `n` active rows is sample `k` of `count`. */
  function SampleAt(k: nat, n: nat, count: nat): (i: nat)
    requires k < count && n > 0
    ensures i < n
  {
    Scaled(k, count - 1, n);
    assert k * n < n * count;
    QuotientBelow(k * n, n, count);
    k * n / count
  }

  /** These are the ranks of a row without missing values. */
  ghost predicate AreRanks(pack: QsPack, row: Row, s: seq<nat>)
    requires pack.Valid() && |row| == pack.nFeatures
  {
    |s| == |row| && forall f: nat | f < |s| :: Answers(pack, row)[f] == Rank(s[f])
  }

  /** The ranks of a row without missing values, in fresh buffers. */
  method RanksOf(pack: QsPack, row: Row) returns (s: seq<nat>)
    requires pack.Valid() && |row| == pack.nFeatures && NanFree(row)
    ensures SampleFits(pack, s) && AreRanks(pack, row, s)
  {
    var ranks := new nat[pack.nFeatures](_ => 0);
    var missing := new nat[pack.nFeatures](_ => 0);
    QuantizeRow(pack, row, ranks, missing);
    s := ranks[..];
    forall f: nat | f < |s| ensures Answers(pack, row)[f] == Rank(s[f]) && AnswerFits(pack, f, Rank(s[f])) {
      assert FromBuffers(ranks[..], missing[..])[f] == Answers(pack, row)[f];
    }
  }

  function SampleCount(activeRows: seq<nat>): nat { if SAMPLE_CAP < |activeRows| then SAMPLE_CAP else |activeRows| }

  /** At most 256 of the active rows, evenly spread, as ranks. */
  method SampleRows(pack: QsPack, rows: seq<Row>, activeRows: seq<nat>) returns (samples: seq<seq<nat>>)
    requires pack.Valid() && forall row | row in rows :: |row| == pack.nFeatures && NanFree(row)
    requires forall k | 0 <= k < |activeRows| :: activeRows[k] < |rows|
    ensures SamplesFit(pack, samples) && |samples| == SampleCount(activeRows)
    ensures forall k: nat | k < |samples| ::
              AreRanks(pack, rows[activeRows[SampleAt(k, |activeRows|, |samples|)]], samples[k])
  {
    var sampleN := SampleCount(activeRows);
    samples := [];
    for k := 0 to sampleN
      invariant |samples| == k && SamplesFit(pack, samples)
      invariant forall j: nat | j < k ::
                AreRanks(pack, rows[activeRows[SampleAt(j, |activeRows|, sampleN)]], samples[j])
    {
      var s := RanksOf(pack, rows[activeRows[SampleAt(k, |activeRows|, sampleN)]]);
      samples := samples + [s];
    }
  }

  /** A bundle that fits its model still does when its pack's blocks are replaced by others that encode
      the same trees. */
  lemma StillFits(rt: Runtime, m: SoaModel, blocks: seq<QsBlock>)
    requires Fits(rt, m) && PackEncodes(WithBlocks(rt.pack, blocks), m, rt.plan)
    ensures Fits(rt.(pack := WithBlocks(rt.pack, blocks)), m)
  {
    var rt' := rt.(pack := WithBlocks(rt.pack, blocks));
    assert rt'.HotLimit() == rt.HotLimit();
    if rt.late.Some? { assert LateFits(rt, m, rt.late.value); }
  }

  /** Whether a batch is reordered for, and which trees are visited. */
  predicate Reorders(rt: Runtime, nanFree: bool, nActive: nat) {
    && nanFree && rt.compiled.Some? && rt.layout.Some? && |rt.layout.value.lateValues| > 0 && nActive > 0
    && Limit(rt) < LateEnd(rt)
  }

  function Limit(rt: Runtime): nat {
    if rt.compiled.None? then 0
    else if |rt.compiled.value.treeRoots| < |rt.pack.trees| then |rt.compiled.value.treeRoots| else |rt.pack.trees|
  }

  function LateEnd(rt: Runtime): nat {
    if rt.layout.None? || |rt.layout.value.lateValues| == 0 then Limit(rt)
    else rt.layout.value.lateValues[|rt.layout.value.lateValues| - 1]
  }

  /** The blocks of the late trees are permuted tree by tree, those of other trees stay as they are, and
      the bundle fits its model as before. */
  method ReorderSampledLate(rt: Runtime, rows: seq<Row>, active: seq<bool>, n: nat, nanFree: bool, ghost m: SoaModel)
    returns (rt': Runtime)
    requires Fits(rt, m) && SegmentsApart(rt.pack)
    requires forall row | row in rows :: |row| == m.nFeatures && (nanFree ==> NanFree(row))
    ensures rt' == rt.(pack := WithBlocks(rt.pack, rt'.pack.blocks)) && Fits(rt', m)
    ensures var nRows := Least(n, Least(|rows|, |active|));
            if Reorders(rt, nanFree, |ActiveBelow(active, nRows)|)
            then VisitedPermuted(rt.pack, rt'.pack.blocks, Limit(rt), Least(LateEnd(rt), |rt.pack.trees|))
            else rt' == rt
  {
    var nRows := Least(n, Least(|rows|, |active|));
    var activeRows := ActiveBelow(active, nRows);
    rt' := rt;
    if !Reorders(rt, nanFree, |activeRows|) {
      return;
    }
    var samples := SampleRows(rt.pack, rows, activeRows);
    var hdrs := new QsBlock[|rt.pack.blocks|](i requires 0 <= i < |rt.pack.blocks| => rt.pack.blocks[i]);
    assert hdrs[..] == rt.pack.blocks;
    ReorderFrontBlocks(rt.pack, hdrs, samples, Limit(rt), LateEnd(rt), FRONT_BLOCKS);
    rt' := rt.(pack := WithBlocks(rt.pack, hdrs[..]));
    ReorderedFits(rt, m, samples, hdrs[..]);
  }

  function Least(a: nat, b: nat): nat { if a < b then a else b }

  lemma ReorderedFits(rt: Runtime, m: SoaModel, samples: seq<seq<nat>>, blocks: seq<QsBlock>)
    requires Fits(rt, m) && SegmentsApart(rt.pack) && SamplesFit(rt.pack, samples) && Limit(rt) < LateEnd(rt)
    requires blocks ==
             if || |samples| == 0
                || FRONT_BLOCKS == 0
                || Limit(rt) >= LateEnd(rt)
                || Limit(rt) >= |rt.pack.trees|
             then rt.pack.blocks
                       else Reordered(rt.pack, samples, Limit(rt), Least(LateEnd(rt), |rt.pack.trees|), FRONT_BLOCKS)
    ensures Fits(rt.(pack := WithBlocks(rt.pack, blocks)), m)
    ensures VisitedPermuted(rt.pack, blocks, Limit(rt), Least(LateEnd(rt), |rt.pack.trees|))
  {
    var start, end := Limit(rt), Least(LateEnd(rt), |rt.pack.trees|);
    if |samples| == 0 || start >= |rt.pack.trees| {
      forall p: nat | p < |rt.pack.trees| ensures Untouched(rt.pack.blocks, blocks, rt.pack.trees[p]) {
        assert rt.pack.TreeOk(rt.pack.trees[p]);
      }
      assert WithBlocks(rt.pack, blocks) == rt.pack;
    } else {
      ReorderKeepsEncoding(rt.pack, m, rt.plan, samples, start, end, FRONT_BLOCKS);
      StillFits(rt, m, blocks);
    }
  }
}
