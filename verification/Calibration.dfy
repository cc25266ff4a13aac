/** Calibrated bands: the nested tables of a calibration file, the flattened form the loader builds,
    and the lookups that certify a prefix score. */
module Calibration {
  import opened Forest
  import opened Search
  import opened Ladders

  const BINS: nat := 256

  /** Upper and lower bounds per gap bin on what the remaining trees add. */
  datatype Bands = Bands(refHi: seq<real>, rejLo: seq<real>) {
    predicate Full() { |refHi| == |rejLo| == BINS }
  }

  datatype FoldTable = FoldTable(foldId: int, bands: Bands)

  datatype TauFoldTable = TauFoldTable(foldId: int, tauBin: nat, bands: Bands)

  datatype CheckpointTable = CheckpointTable(
    gapEdges: seq<real>, global: Bands, tauEdges: seq<real>, folds: seq<FoldTable>, tauFolds: seq<TauFoldTable>)

  datatype LoadedTable = LoadedTable(
    gapEdges: seq<real>, global: Bands, tauEdges: seq<real>,
    foldIds: seq<int>, lutBase: int, slotLut: seq<int>, fold: Bands,
    tauBinCount: nat, tauMask: seq<bool>, tau: Bands)
  {
    /** Every lookup stays inside the flattened arrays. */
    predicate Valid() {
      && |gapEdges| == BINS + 1 && global.Full()
      && |fold.refHi| == |fold.rejLo| == |foldIds| * BINS
      && |tauMask| == |foldIds| * tauBinCount
      && |tau.refHi| == |tau.rejLo| == |tauMask| * BINS
      && (forall k | 0 <= k < |slotLut| :: slotLut[k] < |foldIds|)
    }
  }

  // ---------------------------------------------------------------- bins

  function Bin(edges: seq<real>, x: real): (bin: nat)
    ensures |edges| >= 2 ==> bin <= |edges| - 2
  {
    var n := Bisect(edges, x, 0, |edges|);
    var below := if n == 0 then 0 else n - 1;
    var top := if |edges| < 2 then 0 else |edges| - 2;
    if below < top then below else top
  }

  method GapBin(edges: seq<real>, x: real) returns (bin: nat)
    ensures bin == Bin(edges, x)
  {
    var lo := BinaryUpperBound(edges, x);
    bin := if lo == 0 then 0 else lo - 1;
    var top := if |edges| < 2 then 0 else |edges| - 2;
    if top < bin { bin := top; }
  }

  /** The bin's edges enclose any value between the ends, whether or not the edges are sorted. */
  lemma BinEncloses(edges: seq<real>, x: real)
    requires |edges| >= 2 && edges[0] <= x < edges[|edges| - 1]
    ensures edges[Bin(edges, x)] <= x < edges[Bin(edges, x) + 1]
  {
    var n := Bisect(edges, x, 0, |edges|);
    assert 0 < n < |edges|;
  }

  /** With sorted edges the bin is that of the count of edges at most the value, and values beyond the ends
      fall in the end bins. */
  lemma SortedBin(edges: seq<real>, x: real)
    requires |edges| >= 2 && Sorted(edges)
    ensures x < edges[0] ==> Bin(edges, x) == 0
    ensures edges[|edges| - 1] <= x ==> Bin(edges, x) == |edges| - 2
    ensures 0 < CountAtMost(edges, x) < |edges| ==> Bin(edges, x) == CountAtMost(edges, x) - 1
  {
    BisectCounts(edges, x);
    if x < edges[0] {
      RankDecides(edges, x, 0);
    } else if edges[|edges| - 1] <= x {
      RankDecides(edges, x, |edges| - 1);
    }
  }

  /** The value lies between the bin's edges, or beyond the first or the last edge and the bin is at that end; without
      two edges there is one bin. */
  predicate InBin(edges: seq<real>, x: real, bin: nat) {
    if |edges| < 2 then bin == 0
    else
      && bin <= |edges| - 2
      && (|| edges[bin] <= x < edges[bin + 1]
          || (x < edges[0] && bin == 0)
          || (edges[|edges| - 1] <= x && bin == |edges| - 2))
  }

  /** The bin of a value is such a bin, whether or not the edges are sorted ... */
  lemma BinIsIn(edges: seq<real>, x: real)
    ensures InBin(edges, x, Bin(edges, x))
  {
    var n := Bisect(edges, x, 0, |edges|);
    assert |edges| >= 2 && 0 < n < |edges| ==> Bin(edges, x) == n - 1;
  }

  lemma BinsApart(edges: seq<real>, x: real, a: nat, b: nat)
    requires Sorted(edges) && a < b && InBin(edges, x, a)
    ensures !InBin(edges, x, b)
  {
    if b <= |edges| - 2 {
      assert edges[0] <= edges[a + 1] <= edges[b] <= edges[|edges| - 1];
    }
  }

  /** ... and with sorted edges it is the only one. */
  lemma InOneBin(edges: seq<real>, x: real, a: nat, b: nat)
    requires Sorted(edges) && InBin(edges, x, a) && InBin(edges, x, b)
    ensures a == b
  {
    if a < b {
      BinsApart(edges, x, a, b);
    } else if b < a {
      BinsApart(edges, x, b, a);
    }
  }

  const EPSILON32: real := 1.0 / 8388608.0

  function Abs(x: real): real { if x < 0.0 then -x else x }

  function Tolerance(gap: real): real {
    var scaled := 8.0 * EPSILON32 * if Abs(gap) > 1.0 then Abs(gap) else 1.0;
    if scaled > 0.000001 then scaled else 0.000001
  }

  /** The tolerance is a millionth or eight rounding steps of a gap of at least one, whichever is more. */
  lemma ToleranceIs(gap: real)
    ensures Tolerance(gap) >= 0.000001 && Tolerance(gap) * 1048576.0 >= 1.0
    ensures Tolerance(gap) * 1048576.0 >= gap && Tolerance(gap) * 1048576.0 >= -gap
    ensures Tolerance(gap) == 0.000001 || Tolerance(gap) * 1048576.0 in {1.0, gap, -gap}
  {}

  /** The range of bins to consult: a neighbour is added when the gap is within tolerance of its edge. */
  function Guard(edges: seq<real>, gap: real, bin: nat): (r: (nat, nat))
    requires |edges| >= 2 && bin <= |edges| - 2
    ensures r.0 <= bin <= r.1 <= |edges| - 2 && bin - 1 <= r.0 && r.1 <= bin + 1
    ensures r.0 < bin <==> bin > 0 && Abs(gap - edges[bin]) <= Tolerance(gap)
    ensures r.1 > bin <==> bin + 1 <= |edges| - 2 && Abs(edges[bin + 1] - gap) <= Tolerance(gap)
  {
    (if bin > 0 && Abs(gap - edges[bin]) <= Tolerance(gap) then bin - 1 else bin,
     if bin + 1 < |edges| - 1 && Abs(edges[bin + 1] - gap) <= Tolerance(gap) then bin + 1 else bin)
  }

  /** The loosest bounds over a range of bins: they bound whatever any bin of the range bounds. */
  function Loosest(b: Bands, lo: nat, hi: nat): (r: (real, real))
    requires lo <= hi < |b.refHi| && hi < |b.rejLo|
    ensures forall k | lo <= k <= hi :: b.refHi[k] <= r.0 && r.1 <= b.rejLo[k]
    ensures exists k :: lo <= k <= hi && r.0 == b.refHi[k]
    ensures exists k :: lo <= k <= hi && r.1 == b.rejLo[k]
    decreases hi - lo
  {
    if lo == hi then
      assert b.refHi[lo] == b.refHi[lo] && b.rejLo[lo] == b.rejLo[lo];
      (b.refHi[lo], b.rejLo[lo])
    else
      var (ref, rej) := Loosest(b, lo, hi - 1);
      var kr :| lo <= kr <= hi - 1 && ref == b.refHi[kr];
      var kj :| lo <= kj <= hi - 1 && rej == b.rejLo[kj];
      (if b.refHi[hi] > ref then b.refHi[hi] else ref, if b.rejLo[hi] < rej then b.rejLo[hi] else rej)
  }

  // ---------------------------------------------------------------- slots

  ghost predicate Distinct(ids: seq<int>) {
    forall i, j | 0 <= i < j < |ids| :: ids[i] != ids[j]
  }

  function FirstIndex(ids: seq<int>, id: int): (r: Option<nat>)
    ensures r.Some? ==> r.value < |ids| && ids[r.value] == id && forall j | 0 <= j < r.value :: ids[j] != id
    ensures r.None? ==> id !in ids
  {
    if |ids| == 0 then None
    else if ids[0] == id then Some(0)
    else match FirstIndex(ids[1..], id) case None => None case Some(k) => Some(k + 1)
  }

  /** The slot of a fold: through the table when there is one, by comparing identifiers when not. */
  function FoldSlot(t: LoadedTable, foldId: int): Option<nat> {
    if |t.slotLut| > 0 then
      var offset := foldId - t.lutBase;
      if 0 <= offset < |t.slotLut| && t.slotLut[offset] >= 0 then Some(t.slotLut[offset]) else None
    else if |t.foldIds| == 0 then None
    else if |t.foldIds| <= 4 then
      if t.foldIds[0] == foldId then Some(0)
      else if |t.foldIds| > 1 && t.foldIds[1] == foldId then Some(1)
      else if |t.foldIds| > 2 && t.foldIds[2] == foldId then Some(2)
      else if |t.foldIds| > 3 && t.foldIds[3] == foldId then Some(3)
      else None
    else FirstIndex(t.foldIds, foldId)
  }

  function LastIndex(ids: seq<int>, id: int): (r: Option<nat>)
    ensures r.Some? ==> r.value < |ids| && ids[r.value] == id && forall j | r.value < j < |ids| :: ids[j] != id
    ensures r.None? ==> id !in ids
  {
    if |ids| == 0 then None
    else if ids[|ids| - 1] == id then Some(|ids| - 1)
    else LastIndex(ids[..|ids| - 1], id)
  }

  function I16(x: int): int { (x + 0x8000) % 0x1_0000 - 0x8000 }

  /** The entry of an identifier: its last position, as a 16-bit word, or none. */
  function Entry(ids: seq<int>, id: int): int {
    match LastIndex(ids, id) case None => -1 case Some(k) => I16(k)
  }

  /** Identifiers are close enough for a table. */
  predicate Near(ids: seq<int>) {
    |ids| > 0 && forall j, k | 0 <= j < |ids| && 0 <= k < |ids| :: ids[j] - ids[k] < 4096
  }

  /** The table has the entries of all identifiers, or there is none. */
  ghost predicate IsLut(ids: seq<int>, base: int, lut: seq<int>) {
    && (|lut| > 0 <==> Near(ids))
    && (|lut| > 0 ==> |lut| <= 4096 && forall k | 0 <= k < |ids| :: 0 <= ids[k] - base < |lut|)
    && forall o | 0 <= o < |lut| :: lut[o] == Entry(ids, base + o)
  }

  ghost predicate LutRight(t: LoadedTable) { IsLut(t.foldIds, t.lutBase, t.slotLut) }

  /** The slot found: by the table the last position with the identifier, if its word is not negative; by
      comparing identifiers the first. */
  lemma FoldSlotFound(t: LoadedTable, foldId: int)
    requires LutRight(t)
    ensures FoldSlot(t, foldId) ==
            if !Near(t.foldIds) then FirstIndex(t.foldIds, foldId)
            else if Entry(t.foldIds, foldId) < 0 then None else Some(Entry(t.foldIds, foldId))
    ensures FoldSlot(t, foldId).Some? ==> FoldSlot(t, foldId).value < |t.foldIds|
  {
    if Near(t.foldIds) {
      var offset := foldId - t.lutBase;
      if 0 <= offset < |t.slotLut| {
        assert t.slotLut[offset] == Entry(t.foldIds, foldId);
      } else {
        assert foldId !in t.foldIds;
      }
    } else {
      ScannedSlot(t, foldId);
    }
  }

  lemma ScannedSlot(t: LoadedTable, foldId: int)
    requires |t.slotLut| == 0
    ensures FoldSlot(t, foldId) == FirstIndex(t.foldIds, foldId)
  {
    FirstIndexIsLeast(t.foldIds, foldId);
  }

  lemma FirstIndexIsLeast(ids: seq<int>, id: int)
    ensures forall k: nat :: FirstIndex(ids, id) == Some(k) <==> IsFirst(ids, k) && ids[k] == id
  {
    forall k: nat ensures FirstIndex(ids, id) == Some(k) <==> IsFirst(ids, k) && ids[k] == id {}
  }

  /** No earlier position has the identifier of this one. */
  ghost predicate IsFirst(ids: seq<int>, k: nat) { k < |ids| && forall j | 0 <= j < k :: ids[j] != ids[k] }

  /** Slots tell folds apart: no identifier is repeated, or there is no table. */
  ghost predicate SlotsTell(ids: seq<int>) { Distinct(ids) || !Near(ids) }

  lemma {:induction false} DistinctFit(ids: seq<int>, lo: int, hi: int)
    requires Distinct(ids) && lo <= hi && forall k | 0 <= k < |ids| :: lo <= ids[k] < hi
    ensures |ids| <= hi - lo
    decreases hi - lo
  {
    if |ids| == 0 {
    } else {
      assert lo <= ids[0] < hi;
      if k :| 0 <= k < |ids| && ids[k] == hi - 1 {
        var rest := ids[..k] + ids[k + 1..];
        DistinctFit(rest, lo, hi - 1);
      } else {
        DistinctFit(ids, lo, hi - 1);
      }
    }
  }

  lemma OnlyIndex(ids: seq<int>, id: int)
    requires Distinct(ids)
    ensures FirstIndex(ids, id) == LastIndex(ids, id)
  {
    assert FirstIndex(ids, id).Some? <==> LastIndex(ids, id).Some?;
  }

  /** When slots tell folds apart the slot is the first position with the identifier. */
  lemma FoldSlotIsFirst(t: LoadedTable, foldId: int)
    requires LutRight(t) && SlotsTell(t.foldIds)
    ensures FoldSlot(t, foldId) == FirstIndex(t.foldIds, foldId)
  {
    FoldSlotFound(t, foldId);
    if Near(t.foldIds) {
      OnlyIndex(t.foldIds, foldId);
      DistinctFit(t.foldIds, t.lutBase, t.lutBase + |t.slotLut|);
    }
  }

  /** Table or scan, the slot found is the first position of the fold identifier, for every identifier, if
      and only if no identifier is repeated or there is no table. */
  lemma FoldSlotIsPositionIff(t: LoadedTable)
    requires LutRight(t) && |t.foldIds| <= 0x1_0000
    ensures (forall foldId: int :: FoldSlot(t, foldId) == FirstIndex(t.foldIds, foldId)) <==> SlotsTell(t.foldIds)
  {
    if SlotsTell(t.foldIds) {
      forall foldId: int ensures FoldSlot(t, foldId) == FirstIndex(t.foldIds, foldId) { FoldSlotIsFirst(t, foldId); }
    } else {
      var i, j :| 0 <= i < j < |t.foldIds| && t.foldIds[i] == t.foldIds[j];
      FoldSlotFound(t, t.foldIds[i]);
      assert FoldSlot(t, t.foldIds[i]) != FirstIndex(t.foldIds, t.foldIds[i]);
    }
  }

  // ---------------------------------------------------------------- lookups

  function Slice(b: Bands, slot: nat): (r: Bands)
    requires |b.refHi| == |b.rejLo| && (slot + 1) * BINS <= |b.refHi|
    ensures r.Full()
  {
    Bands(b.refHi[slot * BINS..(slot + 1) * BINS], b.rejLo[slot * BINS..(slot + 1) * BINS])
  }

  lemma SlotFits(slot: nat, n: nat)
    requires slot < n
    ensures (slot + 1) * BINS <= n * BINS
  {}

  lemma TauSlotFits(slot: nat, n: nat, tb: nat, count: nat)
    requires slot < n && tb < count
    ensures slot * count + tb < n * count
  {
    assert (slot + 1) * count <= n * count;
  }

  /** The bands of a flattened table: specific threshold bin and fold, else fold, else global. */
  function DenseBands(t: LoadedTable, slot: Option<nat>, tauBin: Option<nat>): (b: Bands)
    requires t.Valid() && (slot.Some? ==> slot.value < |t.foldIds|)
    ensures b.Full()
  {
    if slot.None? then t.global else
      SlotFits(slot.value, |t.foldIds|);
      if tauBin.Some? && t.tauBinCount != 0 && |t.tau.refHi| != 0 then
        var tb := if tauBin.value < t.tauBinCount - 1 then tauBin.value else t.tauBinCount - 1;
        TauSlotFits(slot.value, |t.foldIds|, tb, t.tauBinCount);
        var tauSlot := slot.value * t.tauBinCount + tb;
        SlotFits(tauSlot, |t.tauMask|);
        if t.tauMask[tauSlot] then Slice(t.tau, tauSlot) else Slice(t.fold, slot.value)
      else if |t.fold.refHi| != 0 then Slice(t.fold, slot.value) else t.global
  }

  /** Which nested table applies: of several for the same fold and threshold bin, the last. */
  function LastTau(taus: seq<TauFoldTable>, foldId: int, tb: nat): Option<Bands> {
    if |taus| == 0 then None else
      var last := taus[|taus| - 1];
      if last.foldId == foldId && last.tauBin == tb then Some(last.bands) else LastTau(taus[..|taus| - 1], foldId, tb)
  }

  function NestedBands(raw: CheckpointTable, foldId: int, tauBin: nat): Bands {
    match FirstFold(raw.folds, foldId)
    case None => raw.global
    case Some(f) =>
      var count := if |raw.tauEdges| == 0 then 0 else |raw.tauEdges| - 1;
      if count == 0 then f else
        match LastTau(raw.tauFolds, foldId, if tauBin < count - 1 then tauBin else count - 1)
        case None => f
        case Some(b) => b
  }

  function FirstFold(folds: seq<FoldTable>, foldId: int): Option<Bands> {
    if |folds| == 0 then None
    else if folds[0].foldId == foldId then Some(folds[0].bands)
    else FirstFold(folds[1..], foldId)
  }

  lemma {:induction false} FirstFoldAt(folds: seq<FoldTable>, foldId: int, k: nat)
    requires k < |folds| && folds[k].foldId == foldId && forall j | 0 <= j < k :: folds[j].foldId != foldId
    ensures FirstFold(folds, foldId) == Some(folds[k].bands)
  {
    if k > 0 { FirstFoldAt(folds[1..], foldId, k - 1); }
  }

  lemma {:induction false} NoFold(folds: seq<FoldTable>, foldId: int)
    requires forall j | 0 <= j < |folds| :: folds[j].foldId != foldId
    ensures FirstFold(folds, foldId) == None
  {
    if |folds| > 0 { NoFold(folds[1..], foldId); }
  }

  // ---------------------------------------------------------------- the loader

  predicate TauOk(raw: CheckpointTable, k: nat)
    requires k < |raw.tauFolds|
  {
    && raw.tauFolds[k].bands.Full()
    && FirstFold(raw.folds, raw.tauFolds[k].foldId).Some?
    && raw.tauFolds[k].tauBin + 1 < |raw.tauEdges|
  }

  /** What the loader's checks admit. */
  predicate WellFormed(raw: CheckpointTable) {
    && |raw.gapEdges| == BINS + 1 && raw.global.Full()
    && (forall k | 0 <= k < |raw.folds| :: raw.folds[k].bands.Full())
    && (forall k: nat | k < |raw.tauFolds| :: TauOk(raw, k))
  }

  function Ids(folds: seq<FoldTable>): seq<int> { seq(|folds|, k requires 0 <= k < |folds| => folds[k].foldId) }

  /** The folds' bands, one after the other. */
  ghost predicate FoldsFlat(folds: seq<FoldTable>, flat: Bands) {
    && |flat.refHi| == |flat.rejLo| == |folds| * BINS
    && forall k: nat | k < |folds| :: (k + 1) * BINS <= |folds| * BINS && Slice(flat, k) == folds[k].bands
  }

  lemma FoldPushed(folds: seq<FoldTable>, flat: Bands, next: FoldTable)
    requires FoldsFlat(folds, flat) && next.bands.Full()
    ensures FoldsFlat(folds + [next], Bands(flat.refHi + next.bands.refHi, flat.rejLo + next.bands.rejLo))
  {
    var more := Bands(flat.refHi + next.bands.refHi, flat.rejLo + next.bands.rejLo);
    forall k: nat | k < |folds| + 1
        ensures (k + 1) * BINS <= (|folds| + 1) * BINS && Slice(more, k) == (folds + [next])[k].bands {
      SlotFits(k, |folds| + 1);
      if k < |folds| {
        assert Slice(more, k).refHi == Slice(flat, k).refHi && Slice(more, k).rejLo == Slice(flat, k).rejLo;
      } else {
        assert Slice(more, k).refHi == next.bands.refHi && Slice(more, k).rejLo == next.bands.rejLo;
      }
    }
  }

  method FlattenFolds(folds: seq<FoldTable>) returns (r: Result<Bands>)
    ensures r.Ok? <==> forall k | 0 <= k < |folds| :: folds[k].bands.Full()
    ensures r.Ok? ==> FoldsFlat(folds, r.value)
  {
    var flat := Bands([], []);
    for k := 0 to |folds|
      invariant FoldsFlat(folds[..k], flat)
      invariant forall j | 0 <= j < k :: folds[j].bands.Full()
    {
      if !folds[k].bands.Full() {
        return Err;
      }
      FoldPushed(folds[..k], flat, folds[k]);
      assert folds[..k + 1] == folds[..k] + [folds[k]];
      flat := Bands(flat.refHi + folds[k].bands.refHi, flat.rejLo + folds[k].bands.rejLo);
    }
    assert folds[..|folds|] == folds;
    r := Ok(flat);
  }

  /** The slot table: one entry per identifier between the least and the greatest, unless they are
      too far apart. */
  method BuildLut(ids: seq<int>) returns (base: int, lut: seq<int>)
    ensures IsLut(ids, base, lut)
    ensures forall o | 0 <= o < |lut| :: lut[o] < |ids|
  {
    if |ids| == 0 {
      return 0, [];
    }
    var min, max := ids[0], ids[0];
    for k := 1 to |ids|
      invariant forall j | 0 <= j < k :: min <= ids[j] <= max
      invariant min in ids && max in ids
    {
      if ids[k] < min { min := ids[k]; }
      if ids[k] > max { max := ids[k]; }
    }
    var span := max - min + 1;
    if span > 4096 {
      return 0, [];
    }
    lut := FillLut(ids, min, span);
    return min, lut;
  }

  method FillLut(ids: seq<int>, base: int, span: nat) returns (lut: seq<int>)
    requires forall k | 0 <= k < |ids| :: 0 <= ids[k] - base < span
    ensures |lut| == span && forall o | 0 <= o < span :: lut[o] == Entry(ids, base + o)
  {
    lut := seq(span, _ => -1);
    for k := 0 to |ids|
      invariant |lut| == span && forall o | 0 <= o < span :: lut[o] == Entry(ids[..k], base + o)
    {
      assert ids[..k + 1][..k] == ids[..k];
      lut := lut[ids[k] - base := I16(k)];
    }
    assert ids[..|ids|] == ids;
  }

  /** Writes one band set over the given slot. */
  function Overwrite(flat: Bands, slot: nat, b: Bands): (r: Bands)
    requires |flat.refHi| == |flat.rejLo| && (slot + 1) * BINS <= |flat.refHi| && b.Full()
    ensures |r.refHi| == |r.rejLo| == |flat.refHi|
  {
    Bands(flat.refHi[..slot * BINS] + b.refHi + flat.refHi[(slot + 1) * BINS..],
          flat.rejLo[..slot * BINS] + b.rejLo + flat.rejLo[(slot + 1) * BINS..])
  }

  lemma OverwritePart(flat: seq<real>, slot: nat, b: seq<real>, other: nat)
    requires (slot + 1) * BINS <= |flat| && (other + 1) * BINS <= |flat| && |b| == BINS
    ensures var r := flat[..slot * BINS] + b + flat[(slot + 1) * BINS..];
            |r| == |flat| && r[other * BINS..(other + 1) * BINS] ==
                             if other == slot then b else flat[other * BINS..(other + 1) * BINS]
  {
    var r := flat[..slot * BINS] + b + flat[(slot + 1) * BINS..];
    if other < slot {
      assert (other + 1) * BINS <= slot * BINS;
      assert r[..slot * BINS] == flat[..slot * BINS];
    } else if other > slot {
      assert (slot + 1) * BINS <= other * BINS;
      assert r[(slot + 1) * BINS..] == flat[(slot + 1) * BINS..];
    }
  }

  lemma OverwriteSlices(flat: Bands, slot: nat, b: Bands, other: nat)
    requires |flat.refHi| == |flat.rejLo| && (slot + 1) * BINS <= |flat.refHi| && b.Full()
    requires (other + 1) * BINS <= |flat.refHi|
    ensures Slice(Overwrite(flat, slot, b), other) == if other == slot then b else Slice(flat, other)
  {
    OverwritePart(flat.refHi, slot, b.refHi, other);
    OverwritePart(flat.rejLo, slot, b.rejLo, other);
  }

  /** Slot `s` holds this table, or is marked as holding none. */
  ghost predicate SlotHolds(mask: seq<bool>, flat: Bands, s: nat, want: Option<Bands>) {
    && s < |mask| && |flat.refHi| == |flat.rejLo| && (s + 1) * BINS <= |flat.refHi|
    && match want
       case None => !mask[s]
       case Some(b) => mask[s] && Slice(flat, s) == b
  }

  lemma OverwriteHolds(mask: seq<bool>, flat: Bands, slot: nat, b: Bands, s: nat, want: Option<Bands>)
    requires SlotHolds(mask, flat, s, want) && b.Full() && slot < |mask| && (slot + 1) * BINS <= |flat.refHi|
    ensures SlotHolds(mask[slot := true], Overwrite(flat, slot, b), s, if s == slot then Some(b) else want)
  {
    OverwriteSlices(flat, slot, b, s);
  }

  /** Slot `k * count + tb` of the flattened threshold-bin tables holds the table that applies, where `k` is
      the first position of its identifier. */
  ghost predicate TauFlat(ids: seq<int>, count: nat, taus: seq<TauFoldTable>, mask: seq<bool>, flat: Bands) {
    && |mask| == |ids| * count && |flat.refHi| == |flat.rejLo| == |mask| * BINS
    && forall k: nat, tb: nat | IsFirst(ids, k) && tb < count :: TauSlotRight(ids, count, taus, mask, flat, k, tb)
  }

  ghost predicate TauSlotRight(ids: seq<int>, count: nat, taus: seq<TauFoldTable>, mask: seq<bool>, flat: Bands, k: nat,
                               tb: nat)
    requires k < |ids|
  {
    SlotHolds(mask, flat, k * count + tb, LastTau(taus, ids[k], tb))
  }

  lemma {:induction false} RowsApart(k: nat, k': nat, count: nat)
    ensures k < k' ==> k * count + count <= k' * count
    decreases k'
  {
    if k >= k' {
    } else {
      assert k' * count == (k' - 1) * count + count;
      RowsApart(k, k' - 1, count);
    }
  }

  lemma SlotsDiffer(k: nat, tb: nat, k': nat, tb': nat, count: nat)
    requires tb < count && tb' < count && k * count + tb == k' * count + tb'
    ensures k == k' && tb == tb'
  {
    RowsApart(k, k', count);
    RowsApart(k', k, count);
  }

  lemma LastTauPushed(taus: seq<TauFoldTable>, next: TauFoldTable, foldId: int, tb: nat)
    ensures LastTau(taus + [next], foldId, tb) ==
            if next.foldId == foldId && next.tauBin == tb then Some(next.bands) else LastTau(taus, foldId, tb)
  {
    assert (taus + [next])[..|taus|] == taus;
  }

  lemma TauSlotWritten(foldId: int, tb: nat, taus: seq<TauFoldTable>, mask: seq<bool>, flat: Bands, next: TauFoldTable,
                       here: nat, there: nat)
    requires here == there <==> foldId == next.foldId && tb == next.tauBin
    requires SlotHolds(mask, flat, there, LastTau(taus, foldId, tb)) && next.bands.Full()
    requires here < |mask| && (here + 1) * BINS <= |flat.refHi|
    ensures SlotHolds(mask[here := true], Overwrite(flat, here, next.bands), there, LastTau(taus + [next], foldId, tb))
  {
    LastTauPushed(taus, next, foldId, tb);
    OverwriteHolds(mask, flat, here, next.bands, there, LastTau(taus, foldId, tb));
  }

  lemma SameSlotSamePair(ids: seq<int>, k: nat, tb: nat, j: nat, ub: nat, count: nat)
    requires IsFirst(ids, k) && IsFirst(ids, j) && tb < count && ub < count
    ensures k * count + tb == j * count + ub <==> ids[k] == ids[j] && tb == ub
  {
    if k * count + tb == j * count + ub { SlotsDiffer(k, tb, j, ub, count); }
  }

  lemma TauWritten(ids: seq<int>, count: nat, taus: seq<TauFoldTable>, mask: seq<bool>, flat: Bands, next: TauFoldTable,
                   k: nat)
    requires TauFlat(ids, count, taus, mask, flat) && next.bands.Full()
    requires IsFirst(ids, k) && ids[k] == next.foldId && next.tauBin < count
    ensures k * count + next.tauBin < |mask| && (k * count + next.tauBin + 1) * BINS <= |flat.refHi|
    ensures TauFlat(ids, count, taus + [next], mask[k * count + next.tauBin := true],
                    Overwrite(flat, k * count + next.tauBin, next.bands))
  {
    TauSlotFits(k, |ids|, next.tauBin, count);
    SlotFits(k * count + next.tauBin, |mask|);
    var slot := k * count + next.tauBin;
    var taus', mask', flat' := taus + [next], mask[slot := true], Overwrite(flat, slot, next.bands);
    forall j: nat, tb: nat | IsFirst(ids, j) && tb < count
        ensures TauSlotRight(ids, count, taus', mask', flat', j, tb) {
      assert TauSlotRight(ids, count, taus, mask, flat, j, tb);
      SameSlotSamePair(ids, k, next.tauBin, j, tb, count);
      TauSlotWritten(ids[j], tb, taus, mask, flat, next, slot, j * count + tb);
    }
  }

  lemma NothingWritten(ids: seq<int>, count: nat, mask: seq<bool>, flat: Bands)
    requires |mask| == |ids| * count && |flat.refHi| == |flat.rejLo| == |mask| * BINS
    requires forall s | 0 <= s < |mask| :: !mask[s]
    ensures TauFlat(ids, count, [], mask, flat)
  {
    forall k: nat, tb: nat | IsFirst(ids, k) && tb < count ensures TauSlotRight(ids, count, [], mask, flat, k, tb) {
      TauSlotFits(k, |ids|, tb, count);
      SlotFits(k * count + tb, |mask|);
    }
  }

  lemma {:induction false} FoldKnown(folds: seq<FoldTable>, foldId: int)
    ensures FirstFold(folds, foldId).Some? <==> foldId in Ids(folds)
  {
    if |folds| == 0 {
    } else {
      FoldKnown(folds[1..], foldId);
      assert Ids(folds) == [folds[0].foldId] + Ids(folds[1..]);
    }
  }

  /** One threshold-bin table, copied into its slot. */
  method FlattenTau(raw: CheckpointTable, ids: seq<int>, count: nat, k: nat, mask: seq<bool>, flat: Bands)
    returns (r: Result<(seq<bool>, Bands)>)
    requires ids == Ids(raw.folds) && count == (if |raw.tauEdges| == 0 then 0 else |raw.tauEdges| - 1)
    requires k < |raw.tauFolds| && TauFlat(ids, count, raw.tauFolds[..k], mask, flat)
    ensures r.Ok? <==> TauOk(raw, k)
    ensures r.Ok? ==> TauFlat(ids, count, raw.tauFolds[..k + 1], r.value.0, r.value.1)
  {
    var next := raw.tauFolds[k];
    if !next.bands.Full() {
      return Err;
    }
    var slot := FirstIndex(ids, next.foldId);
    FoldKnown(raw.folds, next.foldId);
    if slot.None? || next.tauBin >= count {
      return Err;
    }
    TauWritten(ids, count, raw.tauFolds[..k], mask, flat, next, slot.value);
    assert raw.tauFolds[..k + 1] == raw.tauFolds[..k] + [next];
    r := Ok((mask[slot.value * count + next.tauBin := true],
        Overwrite(flat, slot.value * count + next.tauBin, next.bands)));
  }

  /** The loop over the threshold-bin tables: each is copied into its slot, later ones winning. */
  method FlattenTaus(raw: CheckpointTable) returns (r: Result<(seq<bool>, Bands)>)
    ensures r.Ok? <==> forall k: nat | k < |raw.tauFolds| :: TauOk(raw, k)
    ensures r.Ok? ==>
            TauFlat(Ids(raw.folds), if |raw.tauEdges| == 0 then 0 else |raw.tauEdges| - 1, raw.tauFolds,
                    r.value.0, r.value.1)
  {
    var ids := Ids(raw.folds);
    var count := if |raw.tauEdges| == 0 then 0 else |raw.tauEdges| - 1;
    var mask := seq(|ids| * count, _ => false);
    var flat := Bands(seq(|mask| * BINS, _ => 0.0), seq(|mask| * BINS, _ => 0.0));
    NothingWritten(ids, count, mask, flat);
    for k := 0 to |raw.tauFolds|
      invariant forall j: nat | j < k :: TauOk(raw, j)
      invariant TauFlat(ids, count, raw.tauFolds[..k], mask, flat)
    {
      var next := FlattenTau(raw, ids, count, k, mask, flat);
      if next.Err? {
        return Err;
      }
      mask, flat := next.value.0, next.value.1;
    }
    assert raw.tauFolds[..|raw.tauFolds|] == raw.tauFolds;
    r := Ok((mask, flat));
  }

  /** The flattened table holds what the nested one holds. */
  ghost predicate Flattens(raw: CheckpointTable, t: LoadedTable) {
    && t.Valid() && LutRight(t)
    && t.gapEdges == raw.gapEdges && t.global == raw.global && t.tauEdges == raw.tauEdges && t.foldIds == Ids(raw.folds)
    && t.tauBinCount == (if |raw.tauEdges| == 0 then 0 else |raw.tauEdges| - 1)
    && FoldsFlat(raw.folds, t.fold)
    && TauFlat(t.foldIds, t.tauBinCount, raw.tauFolds, t.tauMask, t.tau)
  }

  method LoadTable(raw: CheckpointTable) returns (r: Result<LoadedTable>)
    ensures r.Ok? <==> WellFormed(raw)
    ensures r.Ok? ==> Flattens(raw, r.value)
  {
    if |raw.gapEdges| != BINS + 1 || !raw.global.Full() {
      return Err;
    }
    var fold := FlattenFolds(raw.folds);
    if fold.Err? {
      return Err;
    }
    var ids := Ids(raw.folds);
    var base, lut := BuildLut(ids);
    var taus := FlattenTaus(raw);
    if taus.Err? {
      return Err;
    }
    r := Ok(LoadedTable(raw.gapEdges, raw.global, raw.tauEdges, ids, base, lut, fold.value,
                        if |raw.tauEdges| == 0 then 0 else |raw.tauEdges| - 1, taus.value.0, taus.value.1));
  }

  // ---------------------------------------------------------------- agreement

  /** The flattened lookup selects the band set the nested tables say: the fold's table for the
      threshold bin, else the fold's, else the global one. */
  lemma DenseIsNested(raw: CheckpointTable, t: LoadedTable, foldId: int, tauBin: nat)
    requires SlotsTell(Ids(raw.folds)) && Flattens(raw, t)
    ensures var slot := FoldSlot(t, foldId);
            && (slot.Some? ==> slot.value < |t.foldIds|)
            && DenseBands(t, slot, if t.tauBinCount == 0 then None else Some(tauBin)) ==
                NestedBands(raw, foldId, tauBin)
  {
    FoldSlotIsFirst(t, foldId);
    var slot := FoldSlot(t, foldId);
    if slot.None? {
      forall j | 0 <= j < |raw.folds| ensures raw.folds[j].foldId != foldId {
        assert t.foldIds[j] == raw.folds[j].foldId;
      }
      NoFold(raw.folds, foldId);
    } else {
      KnownFoldIsNested(raw, t, foldId, slot.value, tauBin);
    }
  }

  lemma KnownFoldIsNested(raw: CheckpointTable, t: LoadedTable, foldId: int, k: nat, tauBin: nat)
    requires Flattens(raw, t) && IsFirst(t.foldIds, k) && t.foldIds[k] == foldId
    ensures DenseBands(t, Some(k), if t.tauBinCount == 0 then None else Some(tauBin)) ==
            NestedBands(raw, foldId, tauBin)
  {
    forall j | 0 <= j < k ensures raw.folds[j].foldId != foldId { assert t.foldIds[j] != t.foldIds[k]; }
    FirstFoldAt(raw.folds, foldId, k);
    SlotFits(k, |t.foldIds|);
    if t.tauBinCount > 0 {
      var tb := if tauBin < t.tauBinCount - 1 then tauBin else t.tauBinCount - 1;
      assert TauSlotRight(t.foldIds, t.tauBinCount, raw.tauFolds, t.tauMask, t.tau, k, tb);
    }
  }

  lemma SlotHasFold(raw: CheckpointTable, t: LoadedTable, k: nat)
    requires Flattens(raw, t) && k < |t.foldIds|
    ensures DenseBands(t, Some(k), None) == raw.folds[k].bands
  {
    SlotFits(k, |t.foldIds|);
  }

  lemma FirstIsNested(raw: CheckpointTable, t: LoadedTable, i: nat, tauBin: nat)
    requires Flattens(raw, t) && IsFirst(t.foldIds, i) && t.tauBinCount == 0
    ensures NestedBands(raw, t.foldIds[i], tauBin) == raw.folds[i].bands
  {
    forall j | 0 <= j < i ensures raw.folds[j].foldId != t.foldIds[i] { assert t.foldIds[j] != t.foldIds[i]; }
    FirstFoldAt(raw.folds, t.foldIds[i], i);
  }

  lemma LastSlotFound(t: LoadedTable, k: nat)
    requires LutRight(t) && Near(t.foldIds) && k < |t.foldIds| && k < 0x8000
    requires LastIndex(t.foldIds, t.foldIds[k]) == Some(k)
    ensures FoldSlot(t, t.foldIds[k]) == Some(k)
  {
    FoldSlotFound(t, t.foldIds[k]);
  }

  /** When a table is built over a repeated identifier whose bands differ, the lookup does not select what
      the nested tables say. */
  lemma RepeatedFoldMisleads(raw: CheckpointTable, t: LoadedTable, i: nat, k: nat, tauBin: nat)
    requires Flattens(raw, t) && Near(t.foldIds) && t.tauBinCount == 0
    requires i < k < |t.foldIds| && k < 0x8000 && t.foldIds[i] == t.foldIds[k]
    requires IsFirst(t.foldIds, i) && LastIndex(t.foldIds, t.foldIds[k]) == Some(k)
             && raw.folds[i].bands != raw.folds[k].bands
    ensures FoldSlot(t, t.foldIds[k]) == Some(k)
    ensures DenseBands(t, Some(k), None) != NestedBands(raw, t.foldIds[k], tauBin)
  {
    LastSlotFound(t, k);
    SlotHasFold(raw, t, k);
    FirstIsNested(raw, t, i, tauBin);
  }

  // ---------------------------------------------------------------- certifying

  /** What a checkpoint's table says about a gap. */
  function TableBounds(t: LoadedTable, slot: Option<nat>, tauBin: nat, gap: real): (real, real)
    requires t.Valid() && (slot.Some? ==> slot.value < |t.foldIds|)
  {
    var bin := Bin(t.gapEdges, gap);
    var (lo, hi) := Guard(t.gapEdges, gap, bin);
    Loosest(DenseBands(t, slot, if t.tauBinCount == 0 then None else Some(tauBin)), lo, hi)
  }

  /** A bin is consulted if the gap is in it, or within tolerance of the edge it shares with that bin. */
  predicate Consulted(edges: seq<real>, gap: real, bin: nat, k: nat)
    requires |edges| >= 2 && bin <= |edges| - 2 && k <= |edges| - 2
  {
    || k == bin
    || (k + 1 == bin && Abs(gap - edges[bin]) <= Tolerance(gap))
    || (k == bin + 1 && Abs(edges[bin + 1] - gap) <= Tolerance(gap))
  }

  /** The bounds are the loosest ones of the bins consulted: no consulted bin has looser ones, and some has these. */
  lemma LoosestConsulted(t: LoadedTable, slot: Option<nat>, tauBin: nat, gap: real)
    requires t.Valid() && (slot.Some? ==> slot.value < |t.foldIds|)
    ensures var b := DenseBands(t, slot, if t.tauBinCount == 0 then None else Some(tauBin));
            var bounds, bin := TableBounds(t, slot, tauBin, gap), Bin(t.gapEdges, gap);
            && (forall k: nat | k < BINS && Consulted(t.gapEdges, gap, bin, k) ::
                  b.refHi[k] <= bounds.0 && bounds.1 <= b.rejLo[k])
            && (exists k: nat :: k < BINS && Consulted(t.gapEdges, gap, bin, k) && bounds.0 == b.refHi[k])
            && (exists k: nat :: k < BINS && Consulted(t.gapEdges, gap, bin, k) && bounds.1 == b.rejLo[k])
  {
    var b := DenseBands(t, slot, if t.tauBinCount == 0 then None else Some(tauBin));
    var bounds, bin := TableBounds(t, slot, tauBin, gap), Bin(t.gapEdges, gap);
    var (lo, hi) := Guard(t.gapEdges, gap, bin);
    var ref: nat :| lo <= ref <= hi && bounds.0 == b.refHi[ref];
    var rej: nat :| lo <= rej <= hi && bounds.1 == b.rejLo[rej];
    assert Consulted(t.gapEdges, gap, bin, ref) && Consulted(t.gapEdges, gap, bin, rej);
  }

  /** The same as a function of the gap. */
  function Lookup(t: LoadedTable, slot: Option<nat>, tauBin: nat): real -> (real, real)
    requires t.Valid() && (slot.Some? ==> slot.value < |t.foldIds|)
  {
    (gap: real) => TableBounds(t, slot, tauBin, gap)
  }

  /** Certify on the bands; ask the other certifier when they straddle the threshold. */
  function Certify(look: real -> (real, real), tau: real, s: Sight, extra: Certifier): Option<Verdict> {
    Decide(look(tau - s.score), tau - s.score, s.score, extra(s))
  }

  function Decide(bounds: (real, real), gap: real, score: real, other: Option<Verdict>): Option<Verdict> {
    if bounds.0 < gap then Some(Verdict(false, score + bounds.0))
    else if bounds.1 >= gap then Some(Verdict(true, score + bounds.1))
    else other
  }

  lemma DecideIsRight(bounds: (real, real), tau: real, score: real, other: Option<Verdict>, full: real)
    requires bounds.1 <= full - score <= bounds.0
    requires other.Some? ==> (other.value.reject <==> full >= tau)
    ensures var c := Decide(bounds, tau - score, score, other); c.Some? ==> (c.value.reject <==> full >= tau)
  {}

  /** With this much to come the total stays below the threshold. */
  predicate Short(score: real, rest: real, tau: real) { score + rest < tau }

  /** Bounds decide exactly when whatever is at most the upper one stays below the threshold, or else whatever is at
      least the lower one reaches it; the score is then the total at that bound. Otherwise the other certifier is
      asked. */
  ghost predicate DecidedBy(bounds: (real, real), tau: real, score: real, other: Option<Verdict>, c: Option<Verdict>) {
    if forall rest: real | rest <= bounds.0 :: Short(score, rest, tau)
    then c == Some(Verdict(false, score + bounds.0))
    else if forall rest: real | bounds.1 <= rest :: !Short(score, rest, tau)
    then c == Some(Verdict(true, score + bounds.1))
    else c == other
  }

  lemma BandsDecideIff(look: real -> (real, real), tau: real, s: Sight, extra: Certifier)
    ensures DecidedBy(look(tau - s.score), tau, s.score, extra(s), Certify(look, tau, s, extra))
  {
    var bounds := look(tau - s.score);
    assert (forall rest: real | rest <= bounds.0 :: Short(s.score, rest, tau)) ==> Short(s.score, bounds.0, tau);
    assert (forall rest: real | bounds.1 <= rest :: !Short(s.score, rest, tau)) ==> !Short(s.score, bounds.1, tau);
  }

  /** The edges of the threshold bins: the first table's, for every table. */
  function TauEdges(tables: seq<LoadedTable>): seq<real> { if |tables| > 0 then tables[0].tauEdges else [] }

  /** The threshold is in the threshold bin, by the first table's edges. */
  lemma TauBinIsIn(tables: seq<LoadedTable>, tau: real)
    ensures InBin(TauEdges(tables), tau, CalibrationTauBin(tables, tau))
  {
    BinIsIn(TauEdges(tables), tau);
  }

  /** The threshold bin is taken from the first table's edges, for every table. */
  function CalibrationTauBin(tables: seq<LoadedTable>, tau: real): nat {
    if |tables| > 0 && |tables[0].tauEdges| >= 2 then Bin(tables[0].tauEdges, tau) else 0
  }

  function CertifyAt(tables: seq<LoadedTable>, foldId: int, tau: real, tauBin: nat, extra: Certifier,
                     s: Sight): Option<Verdict>
  {
    if s.cpIdx < |tables| && Usable(tables[s.cpIdx], foldId)
    then Certify(LookupFor(tables[s.cpIdx], foldId, tauBin), tau, s, extra) else None
  }

  function BandCertifier(tables: seq<LoadedTable>, foldId: int, tau: real, extra: Certifier): Certifier {
    var tauBin := CalibrationTauBin(tables, tau);
    (s: Sight) => CertifyAt(tables, foldId, tau, tauBin, extra, s)
  }

  /** The bands bound what the trees after the checkpoint add, in each bin the row's gap is in. */
  ghost predicate BandsHold(raw: CheckpointTable, foldId: int, tauBin: nat, gap: real, rest: real) {
    var b := NestedBands(raw, foldId, tauBin);
    && |raw.gapEdges| == BINS + 1 && b.Full()
    && forall bin: nat | bin < BINS && InBin(raw.gapEdges, gap, bin) :: BinHolds(b, bin, rest)
  }

  predicate BinHolds(b: Bands, bin: nat, rest: real)
    requires b.Full() && bin < BINS
  {
    b.rejLo[bin] <= rest <= b.refHi[bin]
  }

  /** Lookups in this table stay in range. */
  predicate Usable(t: LoadedTable, foldId: int) {
    t.Valid() && (FoldSlot(t, foldId).Some? ==> FoldSlot(t, foldId).value < |t.foldIds|)
  }

  function LookupFor(t: LoadedTable, foldId: int, tauBin: nat): real -> (real, real)
    requires Usable(t, foldId)
  {
    Lookup(t, FoldSlot(t, foldId), tauBin)
  }

  /** Consulting neighbouring bins only loosens the bounds. */
  lemma BoundsHold(raw: CheckpointTable, t: LoadedTable, foldId: int, tauBin: nat, gap: real, rest: real)
    requires SlotsTell(Ids(raw.folds)) && Flattens(raw, t) && BandsHold(raw, foldId, tauBin, gap, rest)
    ensures Usable(t, foldId)
    ensures LookupFor(t, foldId, tauBin)(gap).1 <= rest <= LookupFor(t, foldId, tauBin)(gap).0
  {
    DenseIsNested(raw, t, foldId, tauBin);
    BinIsIn(raw.gapEdges, gap);
  }

  /** The looked-up bounds enclose, at the row's gap at this checkpoint, what is still to come. */
  ghost predicate Bounded(look: real -> (real, real), checkpoint: nat, tau: real, base: real, v: seq<real>) {
    checkpoint <= |v| ==>
      var bounds := look(tau - (base + Sum(v, checkpoint)));
      bounds.1 <= Total(v) - Sum(v, checkpoint) <= bounds.0
  }

  lemma FlattenedUsable(raw: CheckpointTable, t: LoadedTable, foldId: int, tauBin: nat)
    requires SlotsTell(Ids(raw.folds)) && Flattens(raw, t)
    ensures Usable(t, foldId)
  {
    DenseIsNested(raw, t, foldId, tauBin);
  }

  /** In a flattened table that is so when the bands of the nested table hold of the row. */
  lemma FlattenedTableBounds(raw: CheckpointTable, t: LoadedTable, checkpoint: nat, foldId: int, tau: real, tauBin: nat,
                             base: real, v: seq<real>)
    requires SlotsTell(Ids(raw.folds)) && Flattens(raw, t)
    requires checkpoint <= |v| ==>
             BandsHold(raw, foldId, tauBin, tau - (base + Sum(v, checkpoint)), Total(v) - Sum(v, checkpoint))
    ensures Usable(t, foldId)
    ensures Bounded(LookupFor(t, foldId, tauBin), checkpoint, tau, base, v)
  {
    FlattenedUsable(raw, t, foldId, tauBin);
    if checkpoint <= |v| {
      BoundsHold(raw, t, foldId, tauBin, tau - (base + Sum(v, checkpoint)), Total(v) - Sum(v, checkpoint));
    }
  }

  lemma CertifyIsRight(look: real -> (real, real), tau: real, s: Sight, extra: Certifier, base: real, v: seq<real>)
    requires Bounded(look, s.checkpoint, tau, base, v)
    requires s.checkpoint <= |v| && s.score == base + Sum(v, s.checkpoint)
    requires extra(s).Some? ==> (extra(s).value.reject <==> base + Total(v) >= tau)
    ensures var c := Certify(look, tau, s, extra); c.Some? ==> (c.value.reject <==> base + Total(v) >= tau)
  {
    DecideIsRight(look(tau - s.score), tau, s.score, extra(s), base + Total(v));
  }

  /** At a checkpoint the certifier decides by the bounds of the one bin the threshold is in, and by the second
      certifier where they leave the matter open. */
  lemma BandCertifierDecides(tables: seq<LoadedTable>, foldId: int, tau: real, extra: Certifier, s: Sight, bin: nat)
    requires s.cpIdx < |tables| && Usable(tables[s.cpIdx], foldId)
    requires Sorted(TauEdges(tables)) && InBin(TauEdges(tables), tau, bin)
    ensures DecidedBy(LookupFor(tables[s.cpIdx], foldId, bin)(tau - s.score), tau, s.score, extra(s),
                BandCertifier(tables, foldId, tau, extra)(s))
  {
    TauBinIsIn(tables, tau);
    InOneBin(TauEdges(tables), tau, bin, CalibrationTauBin(tables, tau));
    BandsDecideIff(LookupFor(tables[s.cpIdx], foldId, bin), tau, s, extra);
  }

  /** What a certifier needs of a table. */
  ghost predicate BoundsRow(t: LoadedTable, foldId: int, bin: nat, checkpoint: nat, tau: real, base: real,
                            v: seq<real>)
  {
    Usable(t, foldId) && Bounded(LookupFor(t, foldId, bin), checkpoint, tau, base, v)
  }

  /** Lookups whose bounds hold of a row at every checkpoint, in each bin the threshold is in, and a sound second
      certifier, make a sound certifier. */
  lemma BandCertifierSound(tables: seq<LoadedTable>, checkpoints: seq<nat>, foldId: int, tau: real, extra: Certifier,
                           base: real, v: seq<real>)
    requires |tables| == |checkpoints|
    requires forall i: nat, bin: nat | i < |tables| && InBin(TauEdges(tables), tau, bin) ::
               BoundsRow(tables[i], foldId, bin, checkpoints[i], tau, base, v)
    requires CertifierSound(extra, checkpoints, base, v, tau)
    ensures CertifierSound(BandCertifier(tables, foldId, tau, extra), checkpoints, base, v, tau)
  {
    var cert := BandCertifier(tables, foldId, tau, extra);
    TauBinIsIn(tables, tau);
    forall s: Sight | ExactSight(s, checkpoints, base, v) && cert(s).Some?
      ensures cert(s).value.reject <==> base + Total(v) >= tau
    {
      assert cert(s) == CertifyAt(tables, foldId, tau, CalibrationTauBin(tables, tau), extra, s);
      CertifyIsRight(LookupFor(tables[s.cpIdx], foldId, CalibrationTauBin(tables, tau)), tau, s, extra, base, v);
    }
  }

  /** Loaded from this nested table, whose folds the lookup tells apart. */
  ghost predicate LoadedFrom(raw: CheckpointTable, t: LoadedTable) { Flattens(raw, t) && SlotsTell(Ids(raw.folds)) }

  lemma SameTauEdges(raws: seq<CheckpointTable>, tables: seq<LoadedTable>)
    requires |raws| == |tables| > 0 && LoadedFrom(raws[0], tables[0])
    ensures TauEdges(tables) == raws[0].tauEdges
  {}

  /** The nested bands hold of the row at the table's checkpoint. */
  ghost predicate HoldsOf(raw: CheckpointTable, foldId: int, bin: nat, checkpoint: nat, tau: real, base: real,
                          v: seq<real>)
  {
    checkpoint <= |v| ==> BandsHold(raw, foldId, bin, tau - (base + Sum(v, checkpoint)), Total(v) - Sum(v, checkpoint))
  }

  lemma NestedBounds(raw: CheckpointTable, t: LoadedTable, foldId: int, bin: nat, checkpoint: nat, tau: real,
                     base: real, v: seq<real>)
    requires LoadedFrom(raw, t) && HoldsOf(raw, foldId, bin, checkpoint, tau, base, v)
    ensures BoundsRow(t, foldId, bin, checkpoint, tau, base, v)
  {
    FlattenedTableBounds(raw, t, checkpoint, foldId, tau, bin, base, v);
  }

  /** So do nested tables, loaded, whose bands hold of the row, in each bin the threshold is in. */
  lemma NestedCertifierSound(raws: seq<CheckpointTable>, tables: seq<LoadedTable>, checkpoints: seq<nat>, foldId: int,
                             tau: real, extra: Certifier, base: real, v: seq<real>)
    requires |raws| == |tables| == |checkpoints|
    requires forall i | 0 <= i < |raws| :: LoadedFrom(raws[i], tables[i])
    requires forall i: nat, bin: nat | i < |raws| && InBin(raws[0].tauEdges, tau, bin) ::
               HoldsOf(raws[i], foldId, bin, checkpoints[i], tau, base, v)
    requires CertifierSound(extra, checkpoints, base, v, tau)
    ensures CertifierSound(BandCertifier(tables, foldId, tau, extra), checkpoints, base, v, tau)
  {
    forall i: nat, bin: nat | i < |tables| && InBin(TauEdges(tables), tau, bin)
      ensures BoundsRow(tables[i], foldId, bin, checkpoints[i], tau, base, v)
    {
      SameTauEdges(raws, tables);
      NestedBounds(raws[i], tables[i], foldId, bin, checkpoints[i], tau, base, v);
    }
    BandCertifierSound(tables, checkpoints, foldId, tau, extra, base, v);
  }
}
