/** QuickScorer evaluation finds the leaf the tree walk reaches.
    A pack encodes a tree when, for every block of a feature and every answer the feature can give,
    the selected mask keeps exactly the leaves whose path agrees with that answer on all of that
    feature's tests. */
module QuickScorerExact {
  import opened Bits
  import opened Forest
  import opened LeafMasks
  import opened Search
  import opened Tallies
  import opened QuickScorer

  ghost predicate Matches(pack: QsPack, m: SoaModel) {
    pack.Valid() && m.Valid() && pack.nFeatures == m.nFeatures
  }

  /** The child an answer selects: left of a threshold are the ranks up to the cuts below it. */
  function Goes(m: SoaModel, pack: QsPack, i: nat, a: Answer): (next: nat)
    requires Matches(pack, m) && i < m.NodeCount() && !m.isLeaf[i]
    ensures i < next < m.NodeCount()
    ensures next in {m.left[i], m.right[i], m.missing[i]}
  {
    assert m.SplitOk(i);
    match a
    case Missing => m.missing[i]
    case Rank(r) => if r <= CountBelow(pack.Cuts(m.fidx[i]), m.thr[i]) then m.left[i] else m.right[i]
  }

  /** The leaf reached by following the answers. */
  function Follow(m: SoaModel, pack: QsPack, ans: seq<Answer>, i: nat): (l: nat)
    requires Matches(pack, m) && |ans| == m.nFeatures && i < m.NodeCount()
    ensures i <= l < m.NodeCount() && m.isLeaf[l]
    decreases m.NodeCount() - i
  {
    if m.isLeaf[i] then i else
      assert m.SplitOk(i);
      Follow(m, pack, ans, Goes(m, pack, i, ans[m.fidx[i]]))
  }

  /** Leaf `l` hangs below node `i`. */
  ghost predicate Reaches(m: SoaModel, i: nat, l: nat)
    requires m.Valid() && i < m.NodeCount()
    decreases m.NodeCount() - i
  {
    if m.isLeaf[i] then i == l else
      assert m.SplitOk(i);
      Reaches(m, m.left[i], l) || Reaches(m, m.right[i], l)
  }

  /** Feature `f` is tested at or below node `i`. */
  ghost predicate Tests(m: SoaModel, i: nat, f: nat)
    requires m.Valid() && i < m.NodeCount()
    decreases m.NodeCount() - i
  {
    !m.isLeaf[i] &&
    (assert m.SplitOk(i); m.fidx[i] == f || Tests(m, m.left[i], f) || Tests(m, m.right[i], f))
  }

  /** Leaf `l` hangs below `i` on a path whose tests of `f` all agree with the answer. */
  ghost predicate Survives(m: SoaModel, pack: QsPack, i: nat, f: nat, a: Answer, l: nat)
    requires Matches(pack, m) && i < m.NodeCount()
    decreases m.NodeCount() - i
  {
    if m.isLeaf[i] then i == l else
      assert m.SplitOk(i);
      if m.fidx[i] == f then Survives(m, pack, Goes(m, pack, i, a), f, a, l)
      else Survives(m, pack, m.left[i], f, a, l) || Survives(m, pack, m.right[i], f, a, l)
  }

  /** Below `i` missing values follow one of the two branches, and the branches share no leaf. */
  ghost predicate IsTree(m: SoaModel, i: nat)
    requires m.Valid() && i < m.NodeCount()
    decreases m.NodeCount() - i
  {
    m.isLeaf[i] ||
    (assert m.SplitOk(i);
     && (m.missing[i] == m.left[i] || m.missing[i] == m.right[i])
     && (m.left[i] == m.right[i] || forall l: nat :: !(Reaches(m, m.left[i], l) && Reaches(m, m.right[i], l)))
     && IsTree(m, m.left[i]) && IsTree(m, m.right[i]))
  }

  /** The thresholds of the tests are cuts of the pack, and ranks fit in their byte. */
  ghost predicate CutsCover(pack: QsPack, m: SoaModel)
    requires Matches(pack, m)
  {
    && (forall f: nat | f < pack.nFeatures :: |pack.Cuts(f)| < 256)
    && (forall i: nat | i < m.NodeCount() && !m.isLeaf[i] :: assert m.SplitOk(i); m.thr[i] in pack.Cuts(m.fidx[i]))
  }

  /** Where the pack keeps the leaves of a tree: `num` names the mask position of each leaf. */
  ghost predicate LeavesPlaced(pack: QsPack, t: QsTree, m: SoaModel, root: nat, num: map<nat, nat>)
    requires Matches(pack, m) && t in pack.trees && root < m.NodeCount()
  {
    && pack.TreeOk(t)
    && forall l: nat | Reaches(m, root, l) ::
         l in num && num[l] < t.leafCnt && l < m.NodeCount() && pack.leafValues[t.leafValOff + num[l]] == m.leaf[l]
  }

  ghost predicate BlockEncodes(pack: QsPack, b: QsBlock, m: SoaModel, root: nat, num: map<nat, nat>)
    requires Matches(pack, m) && b in pack.blocks && root < m.NodeCount()
    requires forall l: nat | Reaches(m, root, l) :: l in num
  {
    assert pack.BlockOk(b);
    forall a: Answer, l: nat | AnswerFits(pack, b.fid, a) && Reaches(m, root, l) ::
      Keeps(BlockMask(pack, b, a), num[l]) <==> Survives(m, pack, root, b.fid, a, l)
  }

  /** The blocks of the tree, in their stored order. */
  function TreeBlocks(pack: QsPack, t: QsTree): seq<QsBlock>
    requires t.blockOff + t.blockCnt <= |pack.blocks|
  {
    pack.blocks[t.blockOff..t.blockOff + t.blockCnt]
  }

  ghost predicate Encodes(pack: QsPack, t: QsTree, m: SoaModel, root: nat, num: map<nat, nat>)
    requires Matches(pack, m) && t in pack.trees && root < m.NodeCount()
  {
    && IsTree(m, root)
    && LeavesPlaced(pack, t, m, root, num)
    && (forall k, l: nat | Reaches(m, root, k) && Reaches(m, root, l) && num[k] == num[l] :: k == l)
    && (forall k: nat | Keeps(t.init, k) :: exists l: nat :: Reaches(m, root, l) && num[l] == k)
    && (forall l: nat | Reaches(m, root, l) :: Keeps(t.init, num[l]))
    && (forall b | b in TreeBlocks(pack, t) :: BlockEncodes(pack, b, m, root, num))
    && (forall f: nat | Tests(m, root, f) :: exists b :: b in TreeBlocks(pack, t) && b.fid == f)
  }

  // ---------------------------------------------------------------- answers and walks

  lemma {:induction false} FollowIsWalk(m: SoaModel, pack: QsPack, row: Row, i: nat)
    requires Matches(pack, m) && CutsCover(pack, m) && |row| == m.nFeatures && i < m.NodeCount()
    ensures Follow(m, pack, Answers(pack, row), i) == Walk(m, row, i)
    decreases m.NodeCount() - i
  {
    if m.isLeaf[i] {
    } else {
      assert m.SplitOk(i);
      var f: nat := m.fidx[i];
      if row[f].Num? {
        CountDecides(pack.Cuts(f), row[f].v, m.thr[i]);
      }
      FollowIsWalk(m, pack, row, Next(m, i, row[f]));
    }
  }

  lemma {:induction false} FollowReached(m: SoaModel, pack: QsPack, ans: seq<Answer>, i: nat)
    requires Matches(pack, m) && |ans| == m.nFeatures && i < m.NodeCount() && IsTree(m, i)
    ensures Reaches(m, i, Follow(m, pack, ans, i))
    decreases m.NodeCount() - i
  {
    if m.isLeaf[i] {
    } else {
      assert m.SplitOk(i);
      FollowReached(m, pack, ans, Goes(m, pack, i, ans[m.fidx[i]]));
    }
  }

  lemma {:induction false} FollowSurvives(m: SoaModel, pack: QsPack, ans: seq<Answer>, i: nat, f: nat)
    requires Matches(pack, m) && |ans| == m.nFeatures && i < m.NodeCount() && IsTree(m, i) && f < |ans|
    ensures Survives(m, pack, i, f, ans[f], Follow(m, pack, ans, i))
    decreases m.NodeCount() - i
  {
    if m.isLeaf[i] {
    } else {
      assert m.SplitOk(i);
      FollowSurvives(m, pack, ans, Goes(m, pack, i, ans[m.fidx[i]]), f);
    }
  }

  lemma {:induction false} SurvivorsAreReached(m: SoaModel, pack: QsPack, i: nat, f: nat, a: Answer, l: nat)
    requires Matches(pack, m) && i < m.NodeCount() && IsTree(m, i) && Survives(m, pack, i, f, a, l)
    ensures Reaches(m, i, l)
    decreases m.NodeCount() - i
  {
    if m.isLeaf[i] {
    } else {
      assert m.SplitOk(i);
      if m.fidx[i] == f {
        SurvivorsAreReached(m, pack, Goes(m, pack, i, a), f, a, l);
      } else if Survives(m, pack, m.left[i], f, a, l) {
        SurvivorsAreReached(m, pack, m.left[i], f, a, l);
      } else {
        SurvivorsAreReached(m, pack, m.right[i], f, a, l);
      }
    }
  }

  /** A leaf that survives every tested feature is the leaf the answers lead to. */
  lemma {:induction false} SurvivorIsFollowed(m: SoaModel, pack: QsPack, ans: seq<Answer>, i: nat, l: nat)
    requires Matches(pack, m) && |ans| == m.nFeatures && i < m.NodeCount() && IsTree(m, i)
    requires Reaches(m, i, l)
    requires forall f: nat | f < |ans| && Tests(m, i, f) :: Survives(m, pack, i, f, ans[f], l)
    ensures l == Follow(m, pack, ans, i)
    decreases m.NodeCount() - i
  {
    if m.isLeaf[i] {
    } else {
      assert m.SplitOk(i);
      var own: nat := m.fidx[i];
      var next := Goes(m, pack, i, ans[own]);
      assert Tests(m, i, own);
      SurvivorsAreReached(m, pack, next, own, ans[own], l);
      forall f: nat | f < |ans| && Tests(m, next, f) ensures Survives(m, pack, next, f, ans[f], l) {
        assert Tests(m, i, f);
        if f != own && !Survives(m, pack, next, f, ans[f], l) {
          var other := if Survives(m, pack, m.left[i], f, ans[f], l) then m.left[i] else m.right[i];
          SurvivorsAreReached(m, pack, other, f, ans[f], l);
        }
      }
      SurvivorIsFollowed(m, pack, ans, next, l);
    }
  }

  // ---------------------------------------------------------------- masks and walks

  lemma {:induction false} CandidatesKeep(pack: QsPack, t: QsTree, ans: seq<Answer>, k: nat, l: nat)
    requires pack.Valid() && t in pack.trees && AnswersFit(pack, ans) && k <= t.blockCnt
    ensures Keeps(Candidates(pack, t, ans, k), l) <==>
            Keeps(t.init, l) && forall j | 0 <= j < k :: Keeps(TreeBlockMask(pack, t, ans, j), l)
  {
    if k > 0 { CandidatesKeep(pack, t, ans, k - 1, l); }
  }

  /** Every mask of the tree keeps the leaf the answers lead to. */
  ghost predicate ExitKept(pack: QsPack, t: QsTree, ans: seq<Answer>, e: nat)
    requires pack.Valid() && t in pack.trees && AnswersFit(pack, ans)
  {
    Keeps(t.init, e) && forall j | 0 <= j < t.blockCnt :: Keeps(TreeBlockMask(pack, t, ans, j), e)
  }

  lemma EncodingKeepsExit(pack: QsPack, t: QsTree, m: SoaModel, root: nat, num: map<nat, nat>, ans: seq<Answer>)
    requires Matches(pack, m) && t in pack.trees && root < m.NodeCount() && AnswersFit(pack, ans)
    requires Encodes(pack, t, m, root, num)
    ensures var e := Follow(m, pack, ans, root); Reaches(m, root, e) && ExitKept(pack, t, ans, num[e])
  {
    FollowReached(m, pack, ans, root);
    var e := Follow(m, pack, ans, root);
    forall j | 0 <= j < t.blockCnt ensures Keeps(TreeBlockMask(pack, t, ans, j), num[e]) {
      var b := pack.blocks[t.blockOff + j];
      assert b == TreeBlocks(pack, t)[j];
      assert BlockEncodes(pack, b, m, root, num) && pack.BlockOk(b);
      assert AnswerFits(pack, b.fid, ans[b.fid]);
      FollowSurvives(m, pack, ans, root, b.fid);
    }
  }

  /** A leaf that some block of each tested feature keeps agrees with the answers everywhere. */
  lemma KeptByAllIsExit(pack: QsPack, t: QsTree, m: SoaModel, root: nat, num: map<nat, nat>, ans: seq<Answer>, l: nat)
    requires Matches(pack, m) && t in pack.trees && root < m.NodeCount() && AnswersFit(pack, ans)
    requires Encodes(pack, t, m, root, num) && Reaches(m, root, l)
    requires forall j | 0 <= j < t.blockCnt :: Keeps(TreeBlockMask(pack, t, ans, j), num[l])
    ensures l == Follow(m, pack, ans, root)
  {
    forall f: nat | f < |ans| && Tests(m, root, f) ensures Survives(m, pack, root, f, ans[f], l) {
      var b :| b in TreeBlocks(pack, t) && b.fid == f;
      BlockKeeps(pack, t, m, root, num, ans, l, b);
    }
    SurvivorIsFollowed(m, pack, ans, root, l);
  }

  lemma BlockKeeps(pack: QsPack, t: QsTree, m: SoaModel, root: nat, num: map<nat, nat>, ans: seq<Answer>, l: nat,
                   b: QsBlock)
    requires Matches(pack, m) && t in pack.trees && root < m.NodeCount() && AnswersFit(pack, ans)
    requires LeavesPlaced(pack, t, m, root, num) && Reaches(m, root, l) && b in TreeBlocks(pack, t) && b in pack.blocks
    requires BlockEncodes(pack, b, m, root, num)
    requires forall j | 0 <= j < t.blockCnt :: Keeps(TreeBlockMask(pack, t, ans, j), num[l])
    ensures b.fid < |ans| && Survives(m, pack, root, b.fid, ans[b.fid], l)
  {
    assert pack.BlockOk(b);
    var j :| 0 <= j < t.blockCnt && TreeBlocks(pack, t)[j] == b;
    assert Keeps(TreeBlockMask(pack, t, ans, j), num[l]);
    assert AnswerFits(pack, b.fid, ans[b.fid]);
  }

  /** All the masks of a tree together isolate that leaf. */
  lemma AllBlocksIsolate(pack: QsPack, t: QsTree, m: SoaModel, root: nat, num: map<nat, nat>, ans: seq<Answer>)
    requires Matches(pack, m) && t in pack.trees && root < m.NodeCount() && AnswersFit(pack, ans)
    requires Encodes(pack, t, m, root, num)
    ensures var e := Follow(m, pack, ans, root);
            Reaches(m, root, e) && Only(Candidates(pack, t, ans, t.blockCnt), num[e])
  {
    EncodingKeepsExit(pack, t, m, root, num, ans);
    var e := Follow(m, pack, ans, root);
    var all := Candidates(pack, t, ans, t.blockCnt);
    CandidatesKeep(pack, t, ans, t.blockCnt, num[e]);
    forall k: nat | Keeps(all, k) ensures k == num[e] {
      CandidatesKeep(pack, t, ans, t.blockCnt, k);
      var l: nat :| Reaches(m, root, l) && num[l] == k;
      KeptByAllIsExit(pack, t, m, root, num, ans, l);
    }
  }

  /** Stopping at the first resolved mask loses nothing. */
  lemma EarlyBreakIsolates(pack: QsPack, t: QsTree, ans: seq<Answer>, e: nat)
    requires pack.Valid() && t in pack.trees && AnswersFit(pack, ans)
    requires ExitKept(pack, t, ans, e) && Only(Candidates(pack, t, ans, t.blockCnt), e)
    ensures Only(Candidates(pack, t, ans, BlocksEvaluated(pack, t, ans, 0)), e)
  {
    var n := BlocksEvaluated(pack, t, ans, 0);
    var c := Candidates(pack, t, ans, n);
    CandidatesKeep(pack, t, ans, n, e);
    if n < t.blockCnt {
      forall k: nat | Keeps(c, k) ensures k == e { ResolvedKeepsOne(c, k, e); }
    }
  }

  /** A tree whose mask is left with one of its leaves evaluates to that leaf's value. */
  lemma OneLeftIsValue(pack: QsPack, t: QsTree, ans: seq<Answer>, e: nat)
    requires pack.Valid() && t in pack.trees && AnswersFit(pack, ans) && e < t.leafCnt
    requires Only(Candidates(pack, t, ans, BlocksEvaluated(pack, t, ans, 0)), e)
    ensures pack.TreeOk(t)
    ensures EvalTree(pack, t, ans) ==
            Ok(TreeEval(pack.leafValues[t.leafValOff + e], BlocksEvaluated(pack, t, ans, 0),
                        if t.blockCnt > 0 then 1 else 0))
  {
    assert pack.TreeOk(t);
    ResolvedIffOne(Candidates(pack, t, ans, BlocksEvaluated(pack, t, ans, 0)));
  }

  /** The blocks evaluated before the break leave exactly that leaf's number. */
  lemma EvaluatedBlocksIsolate(pack: QsPack, t: QsTree, m: SoaModel, root: nat, num: map<nat, nat>, ans: seq<Answer>)
    requires Matches(pack, m) && t in pack.trees && root < m.NodeCount() && AnswersFit(pack, ans)
    requires Encodes(pack, t, m, root, num)
    ensures var e := Follow(m, pack, ans, root);
            Reaches(m, root, e) && Only(Candidates(pack, t, ans, BlocksEvaluated(pack, t, ans, 0)), num[e])
  {
    EncodingKeepsExit(pack, t, m, root, num, ans);
    AllBlocksIsolate(pack, t, m, root, num, ans);
    EarlyBreakIsolates(pack, t, ans, num[Follow(m, pack, ans, root)]);
  }

  /** ANDing with an early break decodes exactly the leaf the walk reaches. */
  lemma QuickScorerIsWalk(pack: QsPack, t: QsTree, m: SoaModel, root: nat, num: map<nat, nat>, row: Row)
    requires Matches(pack, m) && t in pack.trees && root < m.NodeCount() && |row| == m.nFeatures
    requires CutsCover(pack, m) && Encodes(pack, t, m, root, num)
    ensures EvalTree(pack, t, Answers(pack, row)) ==
            Ok(TreeEval(m.leaf[Walk(m, row, root)],
                        BlocksEvaluated(pack, t, Answers(pack, row), 0),
                        if t.blockCnt > 0 then 1 else 0))
  {
    var ans := Answers(pack, row);
    FollowIsWalk(m, pack, row, root);
    EvaluatedBlocksIsolate(pack, t, m, root, num, ans);
    OneLeftIsValue(pack, t, ans, num[Walk(m, row, root)]);
  }

  // ---------------------------------------------------------------- whole packs

  /** Tree `p` of the pack encodes the model tree the plan evaluates at position `p`. */
  ghost predicate PackEncodes(pack: QsPack, m: SoaModel, plan: TreeOrder) {
    && Matches(pack, m) && plan.Fits(m) && CutsCover(pack, m)
    && |pack.trees| == |plan.order|
    && forall p: nat | p < |pack.trees| :: TreeEncoded(pack, p, m, m.treeRoots[plan.order[p]])
  }

  ghost predicate TreeEncoded(pack: QsPack, p: nat, m: SoaModel, root: nat)
    requires Matches(pack, m) && p < |pack.trees| && root < m.NodeCount()
  {
    exists num: map<nat, nat> :: Encodes(pack, pack.trees[p], m, root, num)
  }

  /** What QuickScorer contributes per tree, in plan order. */
  function QsEvals(pack: QsPack, m: SoaModel, plan: TreeOrder, row: Row): (evals: seq<TreeEval>)
    requires Matches(pack, m) && plan.Fits(m) && |pack.trees| == |plan.order| && |row| == m.nFeatures
    ensures HaveValues(evals, PlanScores(m, plan, row))
  {
    seq(|pack.trees|, p requires 0 <= p < |pack.trees| =>
      TreeEval(TreeScore(m, row, plan.order[p]),
               BlocksEvaluated(pack, pack.trees[p], Answers(pack, row), 0),
               if pack.trees[p].blockCnt > 0 then 1 else 0))
  }

  lemma EncodedTreeEval(pack: QsPack, m: SoaModel, plan: TreeOrder, row: Row, p: nat)
    requires PackEncodes(pack, m, plan) && |row| == m.nFeatures && p < |pack.trees|
    ensures EvalTree(pack, pack.trees[p], Answers(pack, row)) == Ok(QsEvals(pack, m, plan, row)[p])
  {
    var root := m.treeRoots[plan.order[p]];
    assert TreeEncoded(pack, p, m, root);
    var num: map<nat, nat> :| Encodes(pack, pack.trees[p], m, root, num);
    QuickScorerIsWalk(pack, pack.trees[p], m, root, num, row);
  }

  /** Evaluating tree `p` never fails and gives `v[p]`. */
  ghost predicate Yields(pack: QsPack, ans: seq<Answer>, v: seq<real>)
    requires pack.Valid() && AnswersFit(pack, ans)
  {
    |pack.trees| == |v| &&
    forall p: nat | p < |v| :: var e := EvalTree(pack, pack.trees[p], ans); e.Ok? && e.value.value == v[p]
  }

  lemma PackYieldsPlan(pack: QsPack, m: SoaModel, plan: TreeOrder, row: Row)
    requires PackEncodes(pack, m, plan) && |row| == m.nFeatures
    ensures Yields(pack, Answers(pack, row), PlanScores(m, plan, row))
  {
    forall p: nat | p < |pack.trees|
      ensures EvalTree(pack, pack.trees[p], Answers(pack, row)) == Ok(QsEvals(pack, m, plan, row)[p])
    {
      EncodedTreeEval(pack, m, plan, row, p);
    }
  }

  /** Scoring any run of tree positions never fails and adds up their values. */
  lemma {:induction false} ScoreIndicesIsSum(pack: QsPack, ans: seq<Answer>, v: seq<real>, idx: seq<nat>, n: nat,
                                             init: Tally)
    requires pack.Valid() && AnswersFit(pack, ans) && Yields(pack, ans, v) && n <= |idx|
    requires forall k | 0 <= k < n :: idx[k] < |v|
    ensures var r := ScoreIndices(pack, ans, idx, n, init);
            r.Ok? && r.value.score == init.score + PositionsSum(v, idx, n)
  {
    if n == 0 {
    } else {
      ScoreIndicesIsSum(pack, ans, v, idx, n - 1, init);
    }
  }

  /** A whole row scores base plus the leaf of every tree, and the evaluator never bails. */
  lemma QuickScorerRowIsExact(pack: QsPack, m: SoaModel, plan: TreeOrder, row: Row)
    requires PackEncodes(pack, m, plan) && |row| == m.nFeatures
    ensures var r :=
            ScoreIndices(pack, Answers(pack, row), Positions(|pack.trees|), |pack.trees|, Tally(pack.baseScore, 0, 0));
            r.Ok? && r.value.score == pack.baseScore + Total(PlanScores(m, plan, row))
  {
    var v := PlanScores(m, plan, row);
    PackYieldsPlan(pack, m, plan, row);
    ScoreIndicesIsSum(pack, Answers(pack, row), v, Positions(|pack.trees|), |pack.trees|, Tally(pack.baseScore, 0, 0));
    AllPositions(v, |pack.trees|);
  }

  // ---------------------------------------------------------------- ranks kept in a byte

  ghost predicate StrictlySorted(vals: seq<real>) {
    forall i, j | 0 <= i < j < |vals| :: vals[i] < vals[j]
  }

  /** The byte rank decides every comparison with every cut. */
  ghost predicate ByteRankDecides(vals: seq<real>) {
    forall x: real, t: real | t in vals :: RankByte(vals, x) <= CountBelow(vals, t) <==> x < t
  }

  /** With 256 cuts or more the byte wraps and the first cut is misjudged; with fewer it never is. */
  lemma ByteRankExactIff(vals: seq<real>)
    requires StrictlySorted(vals)
    ensures ByteRankDecides(vals) <==> |vals| < 256
  {
    if |vals| < 256 {
      forall x: real, t: real | t in vals ensures RankByte(vals, x) <= CountBelow(vals, t) <==> x < t {
        CountDecides(vals, x, t);
      }
    } else {
      SplitIsCount(vals, vals[255], 256);
      assert !(RankByte(vals, vals[255]) > CountBelow(vals, vals[0]));
      assert vals[0] in vals && !(vals[255] < vals[0]);
    }
  }
}
