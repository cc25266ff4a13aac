/** Score intervals from candidate masks, and the fast command that decides on them. */
module Intervals {
  import opened Bits
  import opened Forest
  import opened LeafMasks
  import opened Tallies
  import opened QuickScorer
  import opened QuickScorerExact
  import opened Traversal

  datatype Range = Range(lo: real, hi: real) {
    function Widen(x: real): Range {
      Range(if x < lo then x else lo, if x > hi then x else hi)
    }
  }

  function LeafValue(pack: QsPack, t: QsTree, k: nat): real
    requires pack.TreeOk(t) && k < t.leafCnt
  {
    pack.leafValues[t.leafValOff + k]
  }

  /** A mask can be bounded: it keeps some leaf, and only leaves the tree has. */
  ghost predicate Boundable(t: QsTree, m: Mask128) {
    (exists k: nat :: Keeps(m, k)) && forall k: nat | Keeps(m, k) :: k < t.leafCnt
  }

  /** The range is the exact minimum and maximum over these leaves. */
  ghost predicate IsRange(pack: QsPack, t: QsTree, leaves: set<nat>, r: Range)
    requires pack.TreeOk(t) && forall k | k in leaves :: k < t.leafCnt
  {
    && (forall k | k in leaves :: r.lo <= LeafValue(pack, t, k) <= r.hi)
    && (exists k :: k in leaves && LeafValue(pack, t, k) == r.lo)
    && (exists k :: k in leaves && LeafValue(pack, t, k) == r.hi)
  }

  /** `range` is the exact range of the leaves seen, if any were. */
  ghost predicate Covers(pack: QsPack, t: QsTree, leaves: set<nat>, range: Option<Range>)
    requires pack.TreeOk(t)
  {
    && (forall k | k in leaves :: k < t.leafCnt)
    && (range.None? <==> leaves == {})
    && (range.Some? ==> IsRange(pack, t, leaves, range.value))
  }

  function Grow(range: Option<Range>, x: real): Option<Range> {
    Some(if range.None? then Range(x, x) else range.value.Widen(x))
  }

  lemma CoversGrows(pack: QsPack, t: QsTree, leaves: set<nat>, range: Option<Range>, k: nat)
    requires pack.TreeOk(t) && k < t.leafCnt && Covers(pack, t, leaves, range)
    ensures Covers(pack, t, leaves + {k}, Grow(range, LeafValue(pack, t, k)))
  {
    var x := LeafValue(pack, t, k);
    if range.Some? {
      var r := range.value;
      var lo :| lo in leaves && LeafValue(pack, t, lo) == r.lo;
      var hi :| hi in leaves && LeafValue(pack, t, hi) == r.hi;
      var lo', hi' := if x < r.lo then k else lo, if x > r.hi then k else hi;
      assert lo' in leaves + {k} && LeafValue(pack, t, lo') == r.Widen(x).lo;
      assert hi' in leaves + {k} && LeafValue(pack, t, hi') == r.Widen(x).hi;
    } else {
      assert k in leaves + {k};
    }
  }

  /** The leaves of `word` that are no longer in `bits`; position 0 of the word is leaf `base`. */
  ghost function Taken(word: u64, bits: u64, base: nat): (s: set<nat>)
    ensures forall k: nat :: base + k in s <==> At(word, k) && !At(bits, k)
    ensures forall j | j in s :: j >= base
  {
    forall k: nat | At(word, k) ensures k < 64 { PositionsBelow64(word, k); }
    set k: nat | k < 64 && At(word, k) && !At(bits, k) :: base + k
  }

  ghost predicate Within(bits: u64, word: u64) {
    forall k: nat :: At(bits, k) ==> At(word, k)
  }

  lemma TakenMember(word: u64, bits: u64, base: nat, j: nat)
    ensures j in Taken(word, bits, base) <==> j >= base && At(word, j - base) && !At(bits, j - base)
  {
    if j >= base { assert j == base + (j - base); }
  }

  lemma TakenJoins(word: u64, bits: u64, base: nat, j: nat)
    requires bits != 0 && Within(bits, word)
    ensures j in Taken(word, ClearLowest(bits), base) <==>
            j in Taken(word, bits, base) || j == base + TrailingZeros(bits)
  {
    TakenMember(word, bits, base, j);
    TakenMember(word, ClearLowest(bits), base, j);
    if j >= base { LowestCleared(bits, j - base); }
  }

  lemma TakenStep(word: u64, bits: u64, base: nat)
    requires bits != 0 && Within(bits, word)
    ensures Taken(word, ClearLowest(bits), base) == Taken(word, bits, base) + {base + TrailingZeros(bits)}
    ensures Within(ClearLowest(bits), word) && ClearLowest(bits) < bits
  {
    ClearedIsLess(bits);
    forall k: nat ensures At(ClearLowest(bits), k) ==> At(word, k) { LowestCleared(bits, k); }
    var s, s' := Taken(word, bits, base) + {base + TrailingZeros(bits)}, Taken(word, ClearLowest(bits), base);
    forall j: nat ensures j in s <==> j in s' { TakenJoins(word, bits, base, j); }
  }

  lemma OneMoreCovered(pack: QsPack, t: QsTree, before: set<nat>, taken: set<nat>, more: set<nat>, range: Option<Range>,
                       k: nat)
    requires pack.TreeOk(t) && k < t.leafCnt && more == taken + {k} && Covers(pack, t, before + taken, range)
    ensures Covers(pack, t, before + more, Grow(range, LeafValue(pack, t, k)))
  {
    CoversGrows(pack, t, before + taken, range, k);
    assert before + more == before + taken + {k};
  }

  /** One turn of the bit loop: the lowest position of `bits` is taken. */
  method TakeLeaf(pack: QsPack, t: QsTree, word: u64, bits: u64, base: nat, range: Option<Range>,
                  ghost before: set<nat>)
    returns (rest: u64, r: Result<Option<Range>>)
    requires pack.TreeOk(t) && bits != 0 && Within(bits, word)
    requires Covers(pack, t, before + Taken(word, bits, base), range)
    ensures rest < bits && Within(rest, word)
    ensures r.Err? ==> exists k: nat :: At(word, k) && base + k >= t.leafCnt
    ensures r.Ok? ==> Covers(pack, t, before + Taken(word, rest, base), r.value)
  {
    var k := TrailingZeros(bits);
    rest := ClearLowest(bits);
    TakenStep(word, bits, base);
    if base + k >= t.leafCnt {
      return rest, Err;
    }
    OneMoreCovered(pack, t, before, Taken(word, bits, base), Taken(word, rest, base), range, base + k);
    r := Ok(Grow(range, LeafValue(pack, t, base + k)));
  }

  /** The bit loop over one word; `seen` is the range of the leaves taken before. */
  method WordBounds(pack: QsPack, t: QsTree, word: u64, base: nat, seen: Option<Range>, ghost before: set<nat>)
    returns (r: Result<Option<Range>>)
    requires pack.TreeOk(t) && Covers(pack, t, before, seen)
    ensures r.Err? ==> exists k: nat :: At(word, k) && base + k >= t.leafCnt
    ensures r.Ok? ==> Covers(pack, t, before + Taken(word, 0, base), r.value)
  {
    var bits := word;
    r := Ok(seen);
    assert before + Taken(word, word, base) == before;
    while bits != 0
      invariant r.Ok? && Covers(pack, t, before + Taken(word, bits, base), r.value)
      invariant Within(bits, word)
      decreases bits
    {
      bits, r := TakeLeaf(pack, t, word, bits, base, r.value, before);
      if r.Err? {
        return;
      }
    }
  }

  /** The leaves a mask keeps, as a set. */
  ghost function Kept(m: Mask128): (s: set<nat>)
    ensures forall k: nat :: k in s <==> Keeps(m, k)
  {
    forall k: nat | Keeps(m, k) ensures k < 128 {
      if k < 64 { } else { PositionsBelow64(m.hi, k - 64); }
    }
    set k: nat | k < 128 && Keeps(m, k)
  }

  /** The source indexes the leaf slice by the low word unchecked, and checks the high word. */
  method MaskBounds(pack: QsPack, t: QsTree, m: Mask128) returns (r: Result<Range>)
    requires pack.TreeOk(t)
    requires forall k: nat | At(m.lo, k) :: k < t.leafCnt
    ensures r.Ok? <==> Boundable(t, m)
    ensures r.Ok? ==> IsRange(pack, t, Kept(m), r.value)
  {
    var low := WordBounds(pack, t, m.lo, 0, None, {});
    var high := WordBounds(pack, t, m.hi, 64, low.value, {} + Taken(m.lo, 0, 0));
    if high.Err? {
      var k: nat :| At(m.hi, k) && 64 + k >= t.leafCnt;
      assert Keeps(m, 64 + k);
      return Err;
    }
    WordsAreKept(m);
    r := if high.value.None? then Err else Ok(high.value.value);
  }

  lemma WordsAreKept(m: Mask128)
    ensures {} + Taken(m.lo, 0, 0) + Taken(m.hi, 0, 64) == Kept(m)
  {
    forall k: nat ensures k in Taken(m.lo, 0, 0) + Taken(m.hi, 0, 64) <==> Keeps(m, k) {
      ZeroIsEmpty(k);
      assert k == 0 + k;
      if At(m.lo, k) { PositionsBelow64(m.lo, k); }
      if k >= 64 { assert k == 64 + (k - 64); ZeroIsEmpty(k - 64); }
    }
  }

  // ---------------------------------------------------------------- rows

  /** The masks of a tree never drop the exit leaf `e`, and never keep a leaf the tree lacks. */
  ghost predicate TreeSound(pack: QsPack, t: QsTree, ans: seq<Answer>, e: nat, x: real)
    requires pack.Valid() && t in pack.trees && AnswersFit(pack, ans)
  {
    && pack.TreeOk(t) && e < t.leafCnt && LeafValue(pack, t, e) == x
    && ExitKept(pack, t, ans, e)
    && forall k: nat | Keeps(t.init, k) :: k < t.leafCnt
  }

  /** Tree `p` has the exact value `v[p]` and sound masks, which need not isolate the exit leaf. */
  ghost predicate MasksSound(pack: QsPack, ans: seq<Answer>, v: seq<real>)
    requires pack.Valid() && AnswersFit(pack, ans)
  {
    |v| == |pack.trees| &&
    forall p: nat | p < |v| :: TreeBracketed(pack, pack.trees[p], ans, v[p])
  }

  ghost predicate TreeBracketed(pack: QsPack, t: QsTree, ans: seq<Answer>, x: real)
    requires pack.Valid() && t in pack.trees && AnswersFit(pack, ans)
  {
    exists e: nat :: TreeSound(pack, t, ans, e, x)
  }

  lemma CandidatesSound(pack: QsPack, t: QsTree, ans: seq<Answer>, n: nat, e: nat, x: real)
    requires pack.Valid() && t in pack.trees && AnswersFit(pack, ans) && n <= t.blockCnt
    requires TreeSound(pack, t, ans, e, x)
    ensures var c := Candidates(pack, t, ans, n); Keeps(c, e) && Boundable(t, c)
  {
    var c := Candidates(pack, t, ans, n);
    CandidatesKeep(pack, t, ans, n, e);
    forall k: nat | Keeps(c, k) ensures k < t.leafCnt { CandidatesKeep(pack, t, ans, n, k); }
  }

  /** A tree's range: exact over the leaves its final mask keeps, hence around the exact value. */
  ghost predicate TreeRange(pack: QsPack, t: QsTree, ans: seq<Answer>, r: Range)
    requires pack.Valid() && t in pack.trees && AnswersFit(pack, ans)
  {
    var c := Candidates(pack, t, ans, BlocksEvaluated(pack, t, ans, 0));
    pack.TreeOk(t) && Boundable(t, c) && IsRange(pack, t, Kept(c), r)
  }

  /** Blocks evaluated, and whether one of them resolved the tree. */
  function TreeEffort(pack: QsPack, t: QsTree, ans: seq<Answer>): (nat, nat)
    requires pack.Valid() && t in pack.trees && AnswersFit(pack, ans)
  {
    var n := BlocksEvaluated(pack, t, ans, 0);
    (n, if n > 0 && Resolved(Candidates(pack, t, ans, n)) then 1 else 0)
  }

  /** What the trees of a pack take. */
  function Efforts(pack: QsPack, ans: seq<Answer>): nat -> (nat, nat)
    requires pack.Valid() && AnswersFit(pack, ans)
  {
    (p: nat) => if p < |pack.trees| then TreeEffort(pack, pack.trees[p], ans) else (0, 0)
  }

  /** The sum over the first `n` trees. */
  function Effort(own: nat -> (nat, nat), n: nat): (nat, nat) {
    if n == 0 then (0, 0) else (Effort(own, n - 1).0 + own(n - 1).0, Effort(own, n - 1).1 + own(n - 1).1)
  }

  /** `own` is what the trees take.  It is looked into only where a tree is evaluated. */
  ghost predicate AreEfforts(own: nat -> (nat, nat), pack: QsPack, ans: seq<Answer>)
    requires pack.Valid() && AnswersFit(pack, ans)
  {
    forall p: nat {:trigger TreeEffort(pack, pack.trees[p], ans)} | p < |pack.trees| ::
        own(p) == TreeEffort(pack, pack.trees[p], ans)
  }

  method BoundTree(pack: QsPack, t: QsTree, ranks: seq<nat>, missing: seq<nat>, ghost x: real)
    returns (r: Result<Range>, work: nat, resolved: nat)
    requires pack.Valid() && t in pack.trees
    requires |ranks| == |missing| && AnswersFit(pack, FromBuffers(ranks, missing))
    requires TreeBracketed(pack, t, FromBuffers(ranks, missing), x)
    ensures r.Ok? && TreeRange(pack, t, FromBuffers(ranks, missing), r.value) && r.value.lo <= x <= r.value.hi
    ensures (work, resolved) == TreeEffort(pack, t, FromBuffers(ranks, missing))
  {
    ghost var ans := FromBuffers(ranks, missing);
    ghost var e: nat :| TreeSound(pack, t, ans, e, x);
    var m;
    m, work, resolved := NarrowTree(pack, t, ranks, missing);
    CandidatesSound(pack, t, ans, work, e, x);
    forall k: nat | At(m.lo, k) ensures k < t.leafCnt {
      PositionsBelow64(m.lo, k);
      assert Keeps(m, k);
    }
    r := MaskBounds(pack, t, m);
    assert e in Kept(m);
  }

  datatype IntervalRow = IntervalRow(lower: real, upper: real, blockEvals: nat, resolvedEarly: nat)

  function LowSum(base: real, ranges: seq<Range>, n: nat): real
    requires n <= |ranges|
  {
    if n == 0 then base else LowSum(base, ranges, n - 1) + ranges[n - 1].lo
  }

  function HighSum(base: real, ranges: seq<Range>, n: nat): real
    requires n <= |ranges|
  {
    if n == 0 then base else HighSum(base, ranges, n - 1) + ranges[n - 1].hi
  }

  /** The ranges of the pack's first trees. */
  ghost predicate AreRanges(pack: QsPack, ans: seq<Answer>, ranges: seq<Range>)
    requires pack.Valid() && AnswersFit(pack, ans)
  {
    |ranges| <= |pack.trees| && forall p: nat | p < |ranges| :: TreeRange(pack, pack.trees[p], ans, ranges[p])
  }

  lemma {:induction false} LowHighPrefix(base: real, r: seq<Range>, s: seq<Range>, n: nat)
    requires n <= |r| && n <= |s| && r[..n] == s[..n]
    ensures LowSum(base, r, n) == LowSum(base, s, n) && HighSum(base, r, n) == HighSum(base, s, n)
  {
    if n == 0 {
    } else {
      assert r[..n - 1] == r[..n][..n - 1] == s[..n][..n - 1] == s[..n - 1];
      assert r[n - 1] == r[..n][n - 1] == s[n - 1];
      LowHighPrefix(base, r, s, n - 1);
    }
  }

  /** `ok` accepts the ranges of the pack's trees.  It is looked into only where a tree is evaluated. */
  ghost predicate Accepts(ok: (nat, Range) -> bool, pack: QsPack, ans: seq<Answer>)
    requires pack.Valid() && AnswersFit(pack, ans)
  {
    forall p: nat, r: Range {:trigger TreeRange(pack, pack.trees[p], ans, r)} | p < |pack.trees| ::
      TreeRange(pack, pack.trees[p], ans, r) ==> ok(p, r)
  }

  ghost predicate AllAccepted(ok: (nat, Range) -> bool, ranges: seq<Range>) {
    forall p: nat | p < |ranges| :: ok(p, ranges[p])
  }

  lemma OneMoreBound(base: real, ranges: seq<Range>, r: Range)
    ensures LowSum(base, ranges + [r], |ranges| + 1) == LowSum(base, ranges, |ranges|) + r.lo
    ensures HighSum(base, ranges + [r], |ranges| + 1) == HighSum(base, ranges, |ranges|) + r.hi
  {
    LowHighPrefix(base, ranges, ranges + [r], |ranges|);
  }

  /** A tree's range and work join the row. */
  function Joined(row: IntervalRow, r: Range, own: (nat, nat)): IntervalRow {
    IntervalRow(row.lower + r.lo, row.upper + r.hi, row.blockEvals + own.0, row.resolvedEarly + own.1)
  }

  method AddInterval(pack: QsPack, t: QsTree, ranks: seq<nat>, missing: seq<nat>, row: IntervalRow, ghost x: real)
    returns (r: Result<IntervalRow>, ghost range: Range)
    requires pack.Valid() && t in pack.trees && |ranks| == |missing| && AnswersFit(pack, FromBuffers(ranks, missing))
    requires TreeBracketed(pack, t, FromBuffers(ranks, missing), x)
    ensures r == Ok(Joined(row, range, TreeEffort(pack, t, FromBuffers(ranks, missing))))
    ensures TreeRange(pack, t, FromBuffers(ranks, missing), range) && range.lo <= x <= range.hi
  {
    var bounds, work, resolved := BoundTree(pack, t, ranks, missing, x);
    range := bounds.value;
    r := Ok(IntervalRow(row.lower + bounds.value.lo, row.upper + bounds.value.hi,
                        row.blockEvals + work, row.resolvedEarly + resolved));
  }

  /** The row after tree `p`. */
  method AddTree(pack: QsPack, p: nat, ranks: seq<nat>, missing: seq<nat>, row: IntervalRow, ghost x: real,
                 ghost own: nat -> (nat, nat), ghost ok: (nat, Range) -> bool)
    returns (r: Result<IntervalRow>, ghost range: Range)
    requires pack.Valid() && p < |pack.trees| && |ranks| == |missing| && AnswersFit(pack, FromBuffers(ranks, missing))
    requires TreeBracketed(pack, pack.trees[p], FromBuffers(ranks, missing), x)
    requires AreEfforts(own, pack, FromBuffers(ranks, missing)) && Accepts(ok, pack, FromBuffers(ranks, missing))
    ensures r == Ok(Joined(row, range, own(p))) && ok(p, range) && range.lo <= x <= range.hi
  {
    r, range := AddInterval(pack, pack.trees[p], ranks, missing, row, x);
  }

  /** Each range is around its tree's value. */
  ghost predicate Around(ranges: seq<Range>, v: seq<real>) {
    |ranges| <= |v| && forall p | 0 <= p < |ranges| :: ranges[p].lo <= v[p] <= ranges[p].hi
  }

  lemma {:induction false} AroundSums(base: real, ranges: seq<Range>, v: seq<real>, n: nat)
    requires Around(ranges, v) && n <= |ranges|
    ensures LowSum(base, ranges, n) <= base + Sum(v, n) <= HighSum(base, ranges, n)
  {
    if n > 0 { AroundSums(base, ranges, v, n - 1); }
  }

  /** The row after the trees with these ranges. */
  ghost predicate SumsTo(row: IntervalRow, base: real, ranges: seq<Range>, own: nat -> (nat, nat)) {
    && row.lower == LowSum(base, ranges, |ranges|) && row.upper == HighSum(base, ranges, |ranges|)
    && (row.blockEvals, row.resolvedEarly) == Effort(own, |ranges|)
  }

  lemma SumsToNext(row: IntervalRow, base: real, ranges: seq<Range>, own: nat -> (nat, nat), r: Range)
    requires SumsTo(row, base, ranges, own)
    ensures SumsTo(Joined(row, r, own(|ranges|)), base, ranges + [r], own)
  {
    OneMoreBound(base, ranges, r);
  }

  method SumIntervals(pack: QsPack, ranks: seq<nat>, missing: seq<nat>, ghost v: seq<real>,
                      ghost own: nat -> (nat, nat), ghost ok: (nat, Range) -> bool)
    returns (r: Result<IntervalRow>, ghost ranges: seq<Range>)
    requires pack.Valid() && |ranks| == |missing| && AnswersFit(pack, FromBuffers(ranks, missing))
    requires MasksSound(pack, FromBuffers(ranks, missing), v)
    requires AreEfforts(own, pack, FromBuffers(ranks, missing)) && Accepts(ok, pack, FromBuffers(ranks, missing))
    ensures |ranges| == |pack.trees| && AllAccepted(ok, ranges) && Around(ranges, v)
    ensures r.Ok? && SumsTo(r.value, pack.baseScore, ranges, own)
  {
    var row := IntervalRow(pack.baseScore, pack.baseScore, 0, 0);
    ranges := [];
    for p := 0 to |pack.trees|
      invariant |ranges| == p && AllAccepted(ok, ranges) && Around(ranges, v)
      invariant SumsTo(row, pack.baseScore, ranges, own)
    {
      ghost var range;
      var next;
      next, range := AddTree(pack, p, ranks, missing, row, v[p], own, ok);
      if next.Err? {
        return Err, ranges;
      }
      SumsToNext(row, pack.baseScore, ranges, own, range);
      ranges := ranges + [range];
      row := next.value;
    }
    r := Ok(row);
  }

  /** Sound masks give an interval around the exact score, for rows of any kind. */
  method ScoreInterval(pack: QsPack, feat: Row, ranks: array<nat>, missing: array<nat>, ghost v: seq<real>)
    returns (r: Result<IntervalRow>, ghost ranges: seq<Range>)
    requires pack.Valid() && |feat| == pack.nFeatures && MasksSound(pack, Answers(pack, feat), v)
    requires ranks.Length == missing.Length == pack.nFeatures && ranks != missing
    modifies ranks, missing
    ensures |ranges| == |pack.trees| && AreRanges(pack, Answers(pack, feat), ranges)
    ensures r.Ok?
    ensures r.value.lower == LowSum(pack.baseScore, ranges, |ranges|)
    ensures r.value.upper == HighSum(pack.baseScore, ranges, |ranges|)
    ensures r.value.lower <= pack.baseScore + Total(v) <= r.value.upper
    ensures (r.value.blockEvals, r.value.resolvedEarly) == Effort(Efforts(pack, Answers(pack, feat)), |pack.trees|)
  {
    QuantizeRow(pack, feat, ranks, missing);
    ghost var ans := Answers(pack, feat);
    ghost var ok := (p: nat, r: Range) => p < |pack.trees| && TreeRange(pack, pack.trees[p], ans, r);
    r, ranges := SumIntervals(pack, ranks[..], missing[..], v, Efforts(pack, ans), ok);
    AroundSums(pack.baseScore, ranges, v, |v|);
  }

  lemma EncodedTreeSound(pack: QsPack, t: QsTree, m: SoaModel, root: nat, num: map<nat, nat>, row: Row)
    requires Matches(pack, m) && t in pack.trees && root < m.NodeCount() && |row| == m.nFeatures
    requires CutsCover(pack, m) && Encodes(pack, t, m, root, num)
    ensures Walk(m, row, root) in num
    ensures TreeSound(pack, t, Answers(pack, row), num[Walk(m, row, root)], m.leaf[Walk(m, row, root)])
  {
    FollowIsWalk(m, pack, row, root);
    EncodingKeepsExit(pack, t, m, root, num, Answers(pack, row));
  }

  /** Masks that encode the trees are sound. */
  lemma EncodingIsSound(pack: QsPack, m: SoaModel, plan: TreeOrder, row: Row)
    requires PackEncodes(pack, m, plan) && |row| == m.nFeatures
    ensures MasksSound(pack, Answers(pack, row), PlanScores(m, plan, row))
  {
    forall p: nat | p < |pack.trees|
      ensures TreeBracketed(pack, pack.trees[p], Answers(pack, row), PlanScores(m, plan, row)[p])
    {
      var root := m.treeRoots[plan.order[p]];
      assert TreeEncoded(pack, p, m, root);
      var num: map<nat, nat> :| Encodes(pack, pack.trees[p], m, root, num);
      EncodedTreeSound(pack, pack.trees[p], m, root, num, row);
    }
  }

  // ---------------------------------------------------------------- the fast command's row

  datatype FastRow = FastRow(shadowReject: bool, finalReject: bool, fallbackUsed: bool, routeScore: real, visits: nat)

  /** The exact traversal a row falls back to. */
  method ExactRow(m: SoaModel, plan: TreeOrder, feat: Row, tau: real, base: real, nanFree: bool) returns (exit: Exit)
    requires m.Valid() && |feat| == m.nFeatures && plan.Fits(m) && (nanFree ==> GoesRight(m, feat))
    requires BoundsCover(plan, PlanScores(m, plan, feat))
    ensures exit.pass <==> base + Total(PlanScores(m, plan, feat)) >= tau
    ensures exit.visited <= |plan.order| && exit.score == base + Sum(PlanScores(m, plan, feat), exit.visited)
  {
    var s := Settings(tau, L2RouteExactReordered, None, 0.0, 0.0, 1);
    if nanFree {
      RightScores(m, plan, feat);
      exit := TraverseFloatNomissFrom(m, feat, s, base, plan, 0);
    } else {
      exit := TraverseGenericFrom(m, None, null, feat, s, base, plan, 0);
    }
    EarlyExitKeepsDecision(s, plan, PlanScores(m, plan, feat), 0, base, 0);
  }

  /** Decide on the interval, and fall back to the exact traversal when it straddles the threshold.
      The plan may evaluate the trees in any order: `v` holds the pack's tree values, and only its
      total has to be the plan's. */
  method DecideFast(pack: QsPack, m: SoaModel, plan: TreeOrder, feat: Row, tau: real, base: real, nanFree: bool,
                    shadowOnly: bool, ranks: array<nat>, missing: array<nat>, ghost v: seq<real>)
    returns (r: Result<FastRow>, interval: Result<IntervalRow>)
    requires Matches(pack, m) && |feat| == m.nFeatures && plan.Fits(m)
    requires nanFree ==> GoesRight(m, feat)
    requires MasksSound(pack, Answers(pack, feat), v) && base == pack.baseScore
    requires BoundsCover(plan, PlanScores(m, plan, feat)) && Total(PlanScores(m, plan, feat)) == Total(v)
    requires ranks.Length == missing.Length == pack.nFeatures && ranks != missing
    modifies ranks, missing
    ensures r.Ok? && interval.Ok? && interval.value.lower <= base + Total(v) <= interval.value.upper
    ensures r.value.shadowReject <==> interval.value.lower >= tau
    ensures r.value.fallbackUsed <==> interval.value.lower < tau <= interval.value.upper
    ensures r.value.shadowReject ==> base + Total(v) >= tau
    ensures r.value.finalReject <==> base + Total(v) >= tau && !(r.value.fallbackUsed && shadowOnly)
    ensures r.value.visits <= |plan.order| && (!r.value.fallbackUsed || shadowOnly ==> r.value.visits == 0)
    ensures r.value.routeScore == if r.value.shadowReject then interval.value.lower
                                  else if !r.value.fallbackUsed || shadowOnly then interval.value.upper
                                  else base + Sum(PlanScores(m, plan, feat), r.value.visits)
  {
    ghost var ranges;
    interval, ranges := ScoreInterval(pack, feat, ranks, missing, v);
    var shadow := interval.value.lower >= tau;
    if shadow {
      return Ok(FastRow(shadow, true, false, interval.value.lower, 0)), interval;
    }
    if interval.value.upper < tau {
      return Ok(FastRow(shadow, false, false, interval.value.upper, 0)), interval;
    }
    if shadowOnly {
      return Ok(FastRow(shadow, false, true, interval.value.upper, 0)), interval;
    }
    var exit := ExactRow(m, plan, feat, tau, base, nanFree);
    r := Ok(FastRow(shadow, exit.pass, true, exit.score, exit.visited));
  }
}
