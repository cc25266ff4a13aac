/** Compact hot packs: the first trees of a plan, renumbered by depth-first passes over an explicit
    stack into nodes with 16-bit links relative to the tree's first node. */
module CompactPacks {
  import opened Forest

  /** The mark of a node without a number: the largest 16-bit word. */
  const FREE: nat := 0xFFFF

  /** Links are 16-bit words; bit 15 of the flag word marks leaves, the rest is the feature. */
  datatype CompactNode = CompactNode(thr: real, leaf: real, left: nat, right: nat, flags: nat) {
    predicate IsLeaf() { flags / 0x8000 % 2 == 1 }
    function Fidx(): nat { flags % 0x8000 }
  }

  datatype CompactPack = CompactPack(nTrees: nat, offs: seq<nat>, nodes: seq<CompactNode>)

  function U16(x: int): nat { x % 0x1_0000 }
  function U32(x: int): nat { x % 0x1_0000_0000 }

  // ---------------------------------------------------------------- the nodes below a root

  /** The nodes a row without missing values can reach. */
  ghost function Below(m: SoaModel, i: nat): (s: set<nat>)
    requires m.Valid() && i < m.NodeCount()
    ensures i in s && forall j | j in s :: j < m.NodeCount()
    decreases m.NodeCount() - i
  {
    if m.isLeaf[i] then {i} else assert m.SplitOk(i); {i} + Below(m, m.left[i]) + Below(m, m.right[i])
  }

  lemma {:induction false} BelowClosed(m: SoaModel, i: nat, j: nat)
    requires m.Valid() && i < m.NodeCount() && j in Below(m, i) && !m.isLeaf[j]
    ensures m.left[j] in Below(m, i) && m.right[j] in Below(m, i)
    decreases m.NodeCount() - i
  {
    assert m.SplitOk(j);
    if j != i {
      assert m.SplitOk(i);
      if j in Below(m, m.left[i]) { BelowClosed(m, m.left[i], j); } else { BelowClosed(m, m.right[i], j); }
    }
  }

  /** The work of walking every path below a node. */
  ghost function Paths(m: SoaModel, i: nat): nat
    requires m.Valid() && i < m.NodeCount()
    decreases m.NodeCount() - i
  {
    if m.isLeaf[i] then 1 else assert m.SplitOk(i); 1 + Paths(m, m.left[i]) + Paths(m, m.right[i])
  }

  ghost predicate InModel(m: SoaModel, stack: seq<nat>) { forall k | 0 <= k < |stack| :: stack[k] < m.NodeCount() }

  ghost function StackPaths(m: SoaModel, stack: seq<nat>): nat
    requires m.Valid() && InModel(m, stack)
  {
    if |stack| == 0 then 0 else StackPaths(m, stack[..|stack| - 1]) + Paths(m, stack[|stack| - 1])
  }

  lemma PushTwo(m: SoaModel, rest: seq<nat>, a: nat, b: nat)
    requires m.Valid() && InModel(m, rest) && a < m.NodeCount() && b < m.NodeCount()
    ensures InModel(m, rest + [a, b])
    ensures StackPaths(m, rest + [a, b]) == StackPaths(m, rest) + Paths(m, a) + Paths(m, b)
  {
    assert (rest + [a, b])[..|rest| + 1] == rest + [a];
    assert (rest + [a])[..|rest|] == rest;
  }

  // ---------------------------------------------------------------- what a stack still owes

  predicate Child(m: SoaModel, p: nat, i: nat)
    requires m.Valid()
  {
    p < m.NodeCount() && !m.isLeaf[p] && (m.left[p] == i || m.right[p] == i)
  }

  ghost predicate Owed(m: SoaModel, s: set<nat>, stack: seq<nat>, i: nat)
    requires m.Valid()
  {
    i in s ==> i in stack || exists p | p in s :: Child(m, p, i)
  }

  /** Every node of `s` is on the stack or below another node of `s`: the passes will come to it. */
  ghost predicate Pending(m: SoaModel, s: set<nat>, stack: seq<nat>)
    requires m.Valid()
  {
    forall i: nat :: Owed(m, s, stack, i)
  }

  lemma {:induction false} NothingOwed(m: SoaModel, s: set<nat>, i: nat)
    requires m.Valid() && Pending(m, s, [])
    ensures i !in s
    decreases i
  {
    if i in s {
      assert Owed(m, s, [], i);
      var p :| p in s && Child(m, p, i);
      assert m.SplitOk(p);
      NothingOwed(m, s, p);
    }
  }

  /** An empty stack owes nothing. */
  lemma DrainedIsEmpty(m: SoaModel, s: set<nat>)
    requires m.Valid() && Pending(m, s, [])
    ensures s == {}
  {
    forall i | i in s ensures false { NothingOwed(m, s, i); }
  }

  lemma PopSplit(m: SoaModel, s: set<nat>, stack: seq<nat>, rest: seq<nat>, idx: nat)
    requires m.Valid() && Pending(m, s, stack) && stack == rest + [idx] && idx < m.NodeCount() && !m.isLeaf[idx]
    ensures Pending(m, s - {idx}, rest + [m.right[idx], m.left[idx]])
  {
    var s', stack' := s - {idx}, rest + [m.right[idx], m.left[idx]];
    assert stack'[|rest|] == m.right[idx] && stack'[|rest| + 1] == m.left[idx];
    forall i: nat ensures Owed(m, s', stack', i) {
      assert Owed(m, s, stack, i);
      if i in s' && i !in stack {
        var p :| p in s && Child(m, p, i);
        if p != idx { assert p in s' && Child(m, p, i); }
      }
    }
  }

  lemma PopOther(m: SoaModel, s: set<nat>, stack: seq<nat>, rest: seq<nat>, idx: nat)
    requires m.Valid() && Pending(m, s, stack) && stack == rest + [idx]
             && (idx !in s || (idx < m.NodeCount() && m.isLeaf[idx]))
    ensures Pending(m, s - {idx}, rest)
  {
    var s' := s - {idx};
    forall i: nat ensures Owed(m, s', rest, i) {
      assert Owed(m, s, stack, i);
      if i in s' && i !in stack {
        var p :| p in s && Child(m, p, i);
        assert p in s' && Child(m, p, i);
      }
    }
  }

  // ---------------------------------------------------------------- numbering

  /** The buffer numbers exactly the visited nodes, in the order of the visit. */
  ghost predicate Numbering(b: seq<nat>, visit: seq<nat>) {
    && |visit| <= FREE
    && (forall k: nat :: NumberedAt(b, visit, k))
    && (forall i: nat :: FreeOrVisited(b, visit, i))
  }

  ghost predicate NumberedAt(b: seq<nat>, visit: seq<nat>, k: nat) {
    k < |visit| ==> visit[k] < |b| && b[visit[k]] == k
  }

  ghost predicate FreeOrVisited(b: seq<nat>, visit: seq<nat>, i: nat) {
    i < |b| && b[i] != FREE ==> b[i] < |visit| && visit[b[i]] == i
  }

  ghost predicate Seen(b: seq<nat>, i: nat) { i < |b| && b[i] != FREE }

  ghost function SeenSet(b: seq<nat>): set<nat> { set i | 0 <= i < |b| && b[i] != FREE }

  /** Both children of a visited split are visited, or on the stack. */
  ghost predicate Open(m: SoaModel, b: seq<nat>, stack: seq<nat>)
    requires m.Valid() && |b| == m.NodeCount()
  {
    forall i: nat :: HasChildren(m, b, stack, i)
  }

  ghost predicate HasChildren(m: SoaModel, b: seq<nat>, stack: seq<nat>, i: nat)
    requires m.Valid() && |b| == m.NodeCount()
  {
    Seen(b, i) && !m.isLeaf[i] ==>
      && (Seen(b, m.left[i]) || m.left[i] in stack)
      && (Seen(b, m.right[i]) || m.right[i] in stack)
  }

  /** A node comes from the root or a visited parent. */
  ghost predicate FromAbove(m: SoaModel, root: nat, b: seq<nat>, i: nat)
    requires m.Valid()
  {
    i == root || exists p: nat :: Seen(b, p) && Child(m, p, i)
  }

  ghost predicate SeenFromAbove(m: SoaModel, root: nat, b: seq<nat>, i: nat)
    requires m.Valid()
  {
    Seen(b, i) ==> FromAbove(m, root, b, i)
  }

  ghost predicate Grounded(m: SoaModel, root: nat, b: seq<nat>, stack: seq<nat>)
    requires m.Valid()
  {
    && (forall i: nat :: SeenFromAbove(m, root, b, i))
    && (forall k | 0 <= k < |stack| :: FromAbove(m, root, b, stack[k]))
  }

  /** A node as the first pass writes it, before its links are known. */
  function Unlinked(m: SoaModel, i: nat): CompactNode
    requires m.Valid() && i < m.NodeCount()
  {
    if m.isLeaf[i] then CompactNode(0.0, m.leaf[i], 0, 0, 0x8000) else CompactNode(m.thr[i], 0.0, 0, 0, U16(m.fidx[i]))
  }

  ghost predicate OwnUnlinked(m: SoaModel, visit: seq<nat>, own: seq<CompactNode>)
    requires m.Valid()
  {
    |own| == |visit| && forall k: nat | k < |own| :: visit[k] < m.NodeCount() && own[k] == Unlinked(m, visit[k])
  }

  /** `left` are the nodes below the root still to be numbered; the stack stays below the root. */
  ghost predicate Supply(below: set<nat>, b: seq<nat>, n: nat, stack: seq<nat>, left: set<nat>) {
    && (forall k | 0 <= k < |stack| :: stack[k] in below)
    && left <= below
    && (forall i: nat | i in below && i < |b| :: i in left <==> b[i] == FREE)
    && n + |left| == |below|
  }

  lemma SupplyNew(below: set<nat>, b: seq<nat>, n: nat, stack: seq<nat>, left: set<nat>, rest: seq<nat>, idx: nat,
                  more: seq<nat>)
    requires Supply(below, b, n, stack, left) && stack == rest + [idx] && idx < |b| && b[idx] == FREE && n != FREE
    requires forall k | 0 <= k < |more| :: more[k] in below
    ensures idx in left && n < |below| && Supply(below, b[idx := n], n + 1, rest + more, left - {idx})
  {
    assert stack[|rest|] == idx;
    forall k | 0 <= k < |rest| ensures rest[k] in below { assert stack[k] in below; }
  }

  /** The state of the first pass. */
  ghost predicate Visiting(m: SoaModel, root: nat, b: seq<nat>, visit: seq<nat>, stack: seq<nat>, left: set<nat>)
    requires m.Valid() && root < m.NodeCount()
  {
    && |b| == m.NodeCount() && Numbering(b, visit) && Open(m, b, stack) && Grounded(m, root, b, stack)
    && (if |visit| == 0 then stack == [root] else visit[0] == root)
    && Supply(Below(m, root), b, |visit|, stack, left)
  }

  lemma SkipVisited(m: SoaModel, root: nat, b: seq<nat>, visit: seq<nat>, stack: seq<nat>, left: set<nat>)
    requires m.Valid() && root < m.NodeCount() && Visiting(m, root, b, visit, stack, left) && |stack| > 0
    requires Seen(b, stack[|stack| - 1])
    ensures Visiting(m, root, b, visit, stack[..|stack| - 1], left)
  {
    var rest, idx := stack[..|stack| - 1], stack[|stack| - 1];
    assert stack == rest + [idx] && FreeOrVisited(b, visit, idx);
    forall i: nat ensures HasChildren(m, b, rest, i) { assert HasChildren(m, b, stack, i); }
  }

  /** Visiting a new node gives it the next number and pushes its children. */
  lemma VisitNew(m: SoaModel, root: nat, b: seq<nat>, visit: seq<nat>, stack: seq<nat>, left: set<nat>, more: seq<nat>)
    requires m.Valid() && root < m.NodeCount() && Visiting(m, root, b, visit, stack, left) && |stack| > 0
    requires |Below(m, root)| <= FREE && !Seen(b, stack[|stack| - 1])
    requires var idx := stack[|stack| - 1];
             idx < m.NodeCount() && more == Children(m, idx)
    ensures var idx := stack[|stack| - 1];
            && |visit| < FREE && idx in left
            && Visiting(m, root, b[idx := |visit|], visit + [idx], stack[..|stack| - 1] + more, left - {idx})
  {
    var rest, idx := stack[..|stack| - 1], stack[|stack| - 1];
    assert stack == rest + [idx];
    assert |visit| < FREE by { assert idx in left && |left| > 0; }
    if !m.isLeaf[idx] { BelowClosed(m, root, idx); }
    SupplyNew(Below(m, root), b, |visit|, stack, left, rest, idx, more);
    NumberNew(b, visit, idx);
    OpenNew(m, b, stack, rest, idx, more, |visit|);
    GroundedNew(m, root, b, stack, rest, idx, more, |visit|);
  }

  /** What is pushed for a node: its children, the left one on top. */
  function Children(m: SoaModel, idx: nat): seq<nat>
    requires m.Valid() && idx < m.NodeCount()
  {
    if m.isLeaf[idx] then [] else assert m.SplitOk(idx); [m.right[idx], m.left[idx]]
  }

  lemma NumberNew(b: seq<nat>, visit: seq<nat>, idx: nat)
    requires Numbering(b, visit) && idx < |b| && b[idx] == FREE && |visit| < FREE
    ensures Numbering(b[idx := |visit|], visit + [idx])
  {
    var b', visit' := b[idx := |visit|], visit + [idx];
    forall k: nat ensures NumberedAt(b', visit', k) { assert NumberedAt(b, visit, k); }
    forall i: nat ensures FreeOrVisited(b', visit', i) { assert FreeOrVisited(b, visit, i); }
  }

  lemma OpenNew(m: SoaModel, b: seq<nat>, stack: seq<nat>, rest: seq<nat>, idx: nat, more: seq<nat>, n: nat)
    requires m.Valid() && |b| == m.NodeCount() && Open(m, b, stack) && stack == rest + [idx] && idx < |b| && n != FREE
    requires more == Children(m, idx)
    ensures Open(m, b[idx := n], rest + more)
  {
    var b', stack' := b[idx := n], rest + more;
    if !m.isLeaf[idx] { assert stack'[|rest|] == m.right[idx] && stack'[|rest| + 1] == m.left[idx]; }
    forall i: nat ensures HasChildren(m, b', stack', i) { assert HasChildren(m, b, stack, i); }
  }

  lemma GroundedNew(m: SoaModel, root: nat, b: seq<nat>, stack: seq<nat>, rest: seq<nat>, idx: nat, more: seq<nat>,
                    n: nat)
    requires m.Valid() && |b| == m.NodeCount() && Grounded(m, root, b, stack) && stack == rest + [idx] && idx < |b|
             && n != FREE
    requires more == Children(m, idx)
    ensures Grounded(m, root, b[idx := n], rest + more)
  {
    var b', stack' := b[idx := n], rest + more;
    forall i: nat | FromAbove(m, root, b, i) ensures FromAbove(m, root, b', i) {
      if i != root {
        var p: nat :| Seen(b, p) && Child(m, p, i);
        assert Seen(b', p);
      }
    }
    assert FromAbove(m, root, b, stack[|rest|]);
    forall i: nat ensures SeenFromAbove(m, root, b', i) { assert SeenFromAbove(m, root, b, i); }
    forall k | 0 <= k < |stack'| ensures FromAbove(m, root, b', stack'[k]) {
      if k < |rest| {
        assert FromAbove(m, root, b, stack[k]);
      } else {
        assert Seen(b', idx) && Child(m, idx, stack'[k]);
      }
    }
  }

  /** What the first pass leaves: the root is number 0, and the numbered nodes are closed below it. */
  ghost predicate Numbered(m: SoaModel, root: nat, b: seq<nat>, visit: seq<nat>)
    requires m.Valid()
  {
    && |b| == m.NodeCount() && Numbering(b, visit) && |visit| > 0 && visit[0] == root
    && Open(m, b, []) && Grounded(m, root, b, [])
  }

  method SetNumber(buf: array<nat>, idx: nat, n: nat)
    requires idx < buf.Length && n < FREE
    modifies buf
    ensures buf[..] == old(buf[..])[idx := n]
  {
    buf[idx] := U16(n);
  }

  /** First pass: numbers the nodes below the root and writes them without links. */
  method NumberTree(m: SoaModel, root: nat, buf: array<nat>) returns (own: seq<CompactNode>, ghost visit: seq<nat>)
    requires m.Valid() && root < m.NodeCount() && buf.Length == m.NodeCount() && |Below(m, root)| <= FREE
    requires forall i | 0 <= i < buf.Length :: buf[i] == FREE
    modifies buf
    ensures Numbered(m, root, buf[..], visit) && OwnUnlinked(m, visit, own) && |visit| <= |Below(m, root)|
  {
    own, visit := [], [];
    ghost var left := Below(m, root);
    var stack: seq<nat> := [root];
    while |stack| > 0
      invariant buf.Length == m.NodeCount() && Visiting(m, root, buf[..], visit, stack, left)
      invariant OwnUnlinked(m, visit, own)
      decreases |left|, |stack|
    {
      var idx := stack[|stack| - 1];
      assert idx in Below(m, root);
      if buf[idx] != FREE {
        SkipVisited(m, root, buf[..], visit, stack, left);
        stack := stack[..|stack| - 1];
        continue;
      }
      var more := Children(m, idx);
      VisitNew(m, root, buf[..], visit, stack, left, more);
      SetNumber(buf, idx, |own|);
      own := own + [Unlinked(m, idx)];
      stack := stack[..|stack| - 1] + more;
      visit, left := visit + [idx], left - {idx};
    }
  }

  // ---------------------------------------------------------------- linking

  ghost predicate LinkedAt(m: SoaModel, b: seq<nat>, own: seq<CompactNode>, i: nat)
    requires m.Valid() && |b| == m.NodeCount() && i < |b| && !m.isLeaf[i]
  {
    b[i] < |own| && m.SplitOk(i) && own[b[i]].left == b[m.left[i]] && own[b[i]].right == b[m.right[i]]
  }

  /** The state of the second pass: what is not linked yet will be come to. */
  ghost predicate Linking(m: SoaModel, b: seq<nat>, visit: seq<nat>, own: seq<CompactNode>, stack: seq<nat>,
                          todo: set<nat>)
    requires m.Valid() && |b| == m.NodeCount()
  {
    && Pending(m, todo, stack)
    && (forall k | 0 <= k < |stack| :: Seen(b, stack[k]))
    && (forall i: nat | Seen(b, i) && !m.isLeaf[i] && i !in todo :: LinkedAt(m, b, own, i))
    && |own| == |visit|
    && (forall k: nat | k < |own| ::
        visit[k] < m.NodeCount() && own[k].(left := 0, right := 0) == Unlinked(m, visit[k]))
  }

  lemma LinkOne(m: SoaModel, b: seq<nat>, visit: seq<nat>, own: seq<CompactNode>, stack: seq<nat>, rest: seq<nat>,
                todo: set<nat>, idx: nat)
    requires m.Valid() && |b| == m.NodeCount() && Numbering(b, visit) && Open(m, b, [])
    requires Linking(m, b, visit, own, stack, todo) && stack == rest + [idx] && Seen(b, idx) && !m.isLeaf[idx]
    requires m.SplitOk(idx)
    ensures b[idx] < |own|
    ensures Linking(m, b, visit, own[b[idx] := own[b[idx]].(left := b[m.left[idx]], right := b[m.right[idx]])],
                    rest + [m.right[idx], m.left[idx]], todo - {idx})
  {
    PopSplit(m, todo, stack, rest, idx);
    assert HasChildren(m, b, [], idx) && FreeOrVisited(b, visit, idx);
    var own' := own[b[idx] := own[b[idx]].(left := b[m.left[idx]], right := b[m.right[idx]])];
    forall i: nat | Seen(b, i) && !m.isLeaf[i] && i !in todo - {idx} ensures LinkedAt(m, b, own', i) {
      if i != idx { assert FreeOrVisited(b, visit, i) && LinkedAt(m, b, own, i) && b[i] != b[idx]; }
    }
    forall k | 0 <= k < |rest| ensures Seen(b, rest[k]) { assert stack[k] == rest[k]; }
  }

  lemma SkipLeaf(m: SoaModel, b: seq<nat>, visit: seq<nat>, own: seq<CompactNode>, stack: seq<nat>, rest: seq<nat>,
                 todo: set<nat>, idx: nat)
    requires m.Valid() && |b| == m.NodeCount() && Linking(m, b, visit, own, stack, todo) && stack == rest + [idx]
    requires idx < |b| && m.isLeaf[idx] && idx !in todo
    ensures Linking(m, b, visit, own, rest, todo)
  {
    PopOther(m, todo, stack, rest, idx);
    assert todo - {idx} == todo;
    forall k | 0 <= k < |rest| ensures Seen(b, rest[k]) { assert stack[k] == rest[k]; }
  }

  /** The visited splits are all below the root, so the pass starts owing nothing else. */
  lemma StartsPending(m: SoaModel, root: nat, b: seq<nat>, s: set<nat>)
    requires m.Valid() && Grounded(m, root, b, [])
    requires (forall i | i in s :: Seen(b, i)) && forall p: nat, i | i in s && Seen(b, p) && Child(m, p, i) :: p in s
    ensures Pending(m, s, [root])
  {
    forall i: nat ensures Owed(m, s, [root], i) {
      assert SeenFromAbove(m, root, b, i);
      if i in s && i != root {
        var p: nat :| Seen(b, p) && Child(m, p, i);
        assert p in s;
      }
    }
  }

  /** Second pass: writes the links, walking every path; it ends because what the stack owes shrinks. */
  method LinkTree(m: SoaModel, root: nat, b: seq<nat>, raw: seq<CompactNode>, ghost visit: seq<nat>)
    returns (own: seq<CompactNode>)
    requires m.Valid() && |b| == m.NodeCount() && Numbered(m, root, b, visit) && OwnUnlinked(m, visit, raw)
    ensures Linking(m, b, visit, own, [], {})
  {
    ghost var todo: set<nat> := set i: nat | i < |b| && Seen(b, i) && !m.isLeaf[i];
    StartsPending(m, root, b, todo);
    assert NumberedAt(b, visit, 0);
    own := raw;
    var stack: seq<nat> := [root];
    while |stack| > 0
      invariant Linking(m, b, visit, own, stack, todo) && InModel(m, stack)
      invariant forall i | i in todo :: i < m.NodeCount() && !m.isLeaf[i]
      decreases StackPaths(m, stack)
    {
      var idx := stack[|stack| - 1];
      var rest := stack[..|stack| - 1];
      assert Seen(b, stack[|stack| - 1]);
      if m.isLeaf[idx] {
        SkipLeaf(m, b, visit, own, stack, rest, todo, idx);
        stack := rest;
      } else {
        own, stack := LinkNode(m, b, own, stack, visit, todo);
        todo := todo - {idx};
      }
    }
    DrainedIsEmpty(m, todo);
  }

  method LinkNode(m: SoaModel, b: seq<nat>, raw: seq<CompactNode>, stack: seq<nat>, ghost visit: seq<nat>,
                  ghost todo: set<nat>)
    returns (own: seq<CompactNode>, stack': seq<nat>)
    requires m.Valid() && |b| == m.NodeCount() && Numbering(b, visit) && Open(m, b, [])
    requires Linking(m, b, visit, raw, stack, todo) && InModel(m, stack) && |stack| > 0
    requires Seen(b, stack[|stack| - 1]) && !m.isLeaf[stack[|stack| - 1]]
    ensures Linking(m, b, visit, own, stack', todo - {stack[|stack| - 1]})
    ensures InModel(m, stack') && StackPaths(m, stack') < StackPaths(m, stack)
  {
    var idx := stack[|stack| - 1];
    var rest := stack[..|stack| - 1];
    assert stack == rest + [idx] && m.SplitOk(idx);
    LinkOne(m, b, visit, raw, stack, rest, todo, idx);
    PushTwo(m, rest, m.right[idx], m.left[idx]);
    own := raw[b[idx] := raw[b[idx]].(left := b[m.left[idx]], right := b[m.right[idx]])];
    stack' := rest + [m.right[idx], m.left[idx]];
  }

  // ---------------------------------------------------------------- clearing

  /** Third pass: frees every number again. */
  method ClearTree(m: SoaModel, root: nat, buf: array<nat>, ghost visit: seq<nat>)
    requires m.Valid() && buf.Length == m.NodeCount() && Numbered(m, root, buf[..], visit)
    modifies buf
    ensures forall i | 0 <= i < buf.Length :: buf[i] == FREE
  {
    ghost var live := SeenSet(buf[..]);
    StartsPending(m, root, buf[..], live);
    assert NumberedAt(buf[..], visit, 0);
    var stack: seq<nat> := [root];
    while |stack| > 0
      invariant Pending(m, live, stack) && InModel(m, stack)
      invariant forall i: nat | i < buf.Length :: i in live <==> buf[i] != FREE
      decreases |live|, |stack|
    {
      var idx := stack[|stack| - 1];
      var rest := stack[..|stack| - 1];
      assert stack == rest + [idx];
      var local := buf[idx];
      buf[idx] := FREE;
      if local == FREE || m.isLeaf[idx] {
        PopOther(m, live, stack, rest, idx);
        stack := rest;
      } else {
        assert m.SplitOk(idx);
        PopSplit(m, live, stack, rest, idx);
        PushTwo(m, rest, m.right[idx], m.left[idx]);
        stack := rest + [m.right[idx], m.left[idx]];
      }
      live := live - {idx};
    }
    DrainedIsEmpty(m, live);
  }

  // ---------------------------------------------------------------- the compiled tree

  /** Local node `k` means what model node `visit[k]` means. */
  ghost predicate NodeKept(m: SoaModel, visit: seq<nat>, own: seq<CompactNode>, k: nat)
    requires m.Valid()
  {
    k < |visit| && k < |own| ==>
      var i, n := visit[k], own[k];
      && i < m.NodeCount() && n.IsLeaf() == m.isLeaf[i]
      && if m.isLeaf[i] then n.leaf == m.leaf[i]
         else
           && n.thr == m.thr[i] && n.Fidx() == m.fidx[i]
           && n.left < |visit| && visit[n.left] == m.left[i] && n.right < |visit| && visit[n.right] == m.right[i]
  }

  /** These nodes are the nodes below the root, in the order of the visit. */
  ghost predicate BlockKept(m: SoaModel, root: nat, visit: seq<nat>, own: seq<CompactNode>)
    requires m.Valid()
  {
    && 0 < |visit| <= |own| && visit[0] == root
    && forall k: nat :: NodeKept(m, visit, own, k)
  }

  lemma LinkedIsKept(m: SoaModel, root: nat, b: seq<nat>, visit: seq<nat>, own: seq<CompactNode>, k: nat)
    requires m.Valid() && Numbered(m, root, b, visit) && Linking(m, b, visit, own, [], {}) && m.nFeatures <= 0x7FFF
             && k < |own|
    ensures NodeKept(m, visit, own, k)
  {
    var i := visit[k];
    assert NumberedAt(b, visit, k);
    assert own[k].(left := 0, right := 0) == Unlinked(m, i);
    if !m.isLeaf[i] {
      assert m.SplitOk(i) && HasChildren(m, b, [], i) && LinkedAt(m, b, own, i);
      assert FreeOrVisited(b, visit, m.left[i]) && FreeOrVisited(b, visit, m.right[i]);
    }
  }

  /** The three passes over one tree: they end, keep its meaning, and give the buffer back all free. */
  method CompileTree(m: SoaModel, root: nat, buf: array<nat>) returns (own: seq<CompactNode>, ghost visit: seq<nat>)
    requires m.Valid() && root < m.NodeCount() && buf.Length == m.NodeCount() && |Below(m, root)| <= FREE
             && m.nFeatures <= 0x7FFF
    requires forall i | 0 <= i < buf.Length :: buf[i] == FREE
    modifies buf
    ensures forall i | 0 <= i < buf.Length :: buf[i] == FREE
    ensures |own| == |visit| <= |Below(m, root)| && BlockKept(m, root, visit, own)
  {
    own, visit := NumberTree(m, root, buf);
    own := LinkTree(m, root, buf[..], own, visit);
    forall k: nat ensures NodeKept(m, visit, own, k) {
      if k < |own| { LinkedIsKept(m, root, buf[..], visit, own, k); }
    }
    ClearTree(m, root, buf, visit);
  }

  ghost predicate TreeAt(m: SoaModel, root: nat, nodes: seq<CompactNode>, off: nat)
    requires m.Valid()
  {
    off <= |nodes| && exists visit: seq<nat> :: BlockKept(m, root, visit, nodes[off..])
  }

  ghost predicate IsCompact(m: SoaModel, plan: TreeOrder, pack: CompactPack)
    requires m.Valid() && plan.Fits(m)
  {
    && pack.nTrees == |pack.offs| <= |plan.order|
    && forall p | 0 <= p < pack.nTrees :: TreeAt(m, m.treeRoots[plan.order[p]], pack.nodes, pack.offs[p])
  }

  lemma StillAt(m: SoaModel, root: nat, nodes: seq<CompactNode>, more: seq<CompactNode>, off: nat)
    requires m.Valid() && TreeAt(m, root, nodes, off)
    ensures TreeAt(m, root, nodes + more, off)
  {
    var visit: seq<nat> :| BlockKept(m, root, visit, nodes[off..]);
    assert (nodes + more)[off..] == nodes[off..] + more;
    forall k: nat ensures NodeKept(m, visit, nodes[off..] + more, k) { assert NodeKept(m, visit, nodes[off..], k); }
    assert BlockKept(m, root, visit, (nodes + more)[off..]);
  }

  lemma PushedAt(m: SoaModel, root: nat, nodes: seq<CompactNode>, own: seq<CompactNode>, visit: seq<nat>)
    requires m.Valid() && BlockKept(m, root, visit, own)
    ensures TreeAt(m, root, nodes + own, |nodes|)
  {
    assert (nodes + own)[|nodes|..] == own;
  }

  function HotTrees(plan: TreeOrder, kHot: nat): nat { if kHot < |plan.order| then kHot else |plan.order| }

  /** How many nodes a walk can reach in the first `n` trees of the plan. */
  ghost function NodesBefore(m: SoaModel, plan: TreeOrder, n: nat): nat
    requires m.Valid() && plan.Fits(m) && n <= |plan.order|
  {
    if n == 0 then 0 else NodesBefore(m, plan, n - 1) + |Below(m, m.treeRoots[plan.order[n - 1]])|
  }

  lemma {:induction false} NodesGrow(m: SoaModel, plan: TreeOrder, k: nat, n: nat)
    requires m.Valid() && plan.Fits(m) && k < n <= |plan.order|
    ensures NodesBefore(m, plan, k) < NodesBefore(m, plan, n)
  {
    assert m.treeRoots[plan.order[n - 1]] in Below(m, m.treeRoots[plan.order[n - 1]]);
    if k < n - 1 { NodesGrow(m, plan, k, n - 1); }
  }

  /** The first trees of the plan are packed at these offsets. */
  ghost predicate PackedTo(m: SoaModel, plan: TreeOrder, offs: seq<nat>, nodes: seq<CompactNode>)
    requires m.Valid() && plan.Fits(m)
  {
    |offs| <= |plan.order| && forall k | 0 <= k < |offs| :: TreeAt(m, m.treeRoots[plan.order[k]], nodes, offs[k])
  }

  lemma OneMorePacked(m: SoaModel, plan: TreeOrder, offs: seq<nat>, nodes: seq<CompactNode>, own: seq<CompactNode>,
                      visit: seq<nat>)
    requires m.Valid() && plan.Fits(m) && PackedTo(m, plan, offs, nodes) && |offs| < |plan.order|
    requires BlockKept(m, m.treeRoots[plan.order[|offs|]], visit, own)
    ensures PackedTo(m, plan, offs + [|nodes|], nodes + own)
  {
    forall k | 0 <= k < |offs| ensures TreeAt(m, m.treeRoots[plan.order[k]], nodes + own, offs[k]) {
      StillAt(m, m.treeRoots[plan.order[k]], nodes, own, offs[k]);
    }
    PushedAt(m, m.treeRoots[plan.order[|offs|]], nodes, own, visit);
  }

  /** Compiles the next tree behind the nodes there are. */
  method CompileNext(m: SoaModel, plan: TreeOrder, buf: array<nat>, offs: seq<nat>, nodes: seq<CompactNode>)
    returns (offs': seq<nat>, nodes': seq<CompactNode>)
    requires m.Valid() && plan.Fits(m) && buf.Length == m.NodeCount() && m.nFeatures <= 0x7FFF
    requires PackedTo(m, plan, offs, nodes) && |offs| < |plan.order| && |nodes| < 0x1_0000_0000
    requires |Below(m, m.treeRoots[plan.order[|offs|]])| <= FREE
    requires forall i | 0 <= i < buf.Length :: buf[i] == FREE
    modifies buf
    ensures forall i | 0 <= i < buf.Length :: buf[i] == FREE
    ensures PackedTo(m, plan, offs', nodes') && offs' == offs + [|nodes|]
    ensures |nodes'| <= |nodes| + |Below(m, m.treeRoots[plan.order[|offs|]])|
  {
    var own, visit := CompileTree(m, m.treeRoots[plan.order[|offs|]], buf);
    OneMorePacked(m, plan, offs, nodes, own, visit);
    offs', nodes' := offs + [U32(|nodes|)], nodes + own;
  }

  /** Compiles the hot trees; there is no pack when there are none, or when features do not fit their bits. */
  method CompileCompact(m: SoaModel, plan: TreeOrder, kHot: nat) returns (r: Option<CompactPack>)
    requires m.Valid() && plan.Fits(m) && NodesBefore(m, plan, HotTrees(plan, kHot)) <= 0x1_0000_0000
    requires forall p: nat | p < HotTrees(plan, kHot) :: |Below(m, m.treeRoots[plan.order[p]])| <= FREE
    ensures r.None? <==> HotTrees(plan, kHot) == 0 || m.nFeatures > 0x7FFF
    ensures r.Some? ==> IsCompact(m, plan, r.value) && r.value.nTrees == HotTrees(plan, kHot)
  {
    var hot := HotTrees(plan, kHot);
    if hot == 0 || m.nFeatures > 0x7FFF {
      return None;
    }
    var offs: seq<nat>, nodes: seq<CompactNode> := [], [];
    var buf := new nat[|m.isLeaf|](_ => FREE);
    for pos := 0 to hot
      invariant forall i | 0 <= i < buf.Length :: buf[i] == FREE
      invariant |offs| == pos && |nodes| <= NodesBefore(m, plan, pos)
      invariant PackedTo(m, plan, offs, nodes)
    {
      NodesGrow(m, plan, pos, hot);
      offs, nodes := CompileNext(m, plan, buf, offs, nodes);
    }
    r := Some(CompactPack(hot, offs, nodes));
  }

  /** One compact tree: the leaf the model's walk reaches when missing values go right. */
  method WalkCompact(nodes: seq<CompactNode>, feat: Row, ghost m: SoaModel, ghost root: nat, ghost visit: seq<nat>)
    returns (leaf: real)
    requires m.Valid() && |feat| == m.nFeatures && root < m.NodeCount()
             && BlockKept(m, root, visit, nodes)
    ensures leaf == m.leaf[Walk(MissingRight(m), feat, root)]
  {
    ghost var right := MissingRight(m);
    var idx: nat := 0;
    assert NodeKept(m, visit, nodes, 0);
    while !nodes[idx].IsLeaf()
      invariant idx < |visit| && NodeKept(m, visit, nodes, idx)
      invariant visit[idx] < m.NodeCount() && Walk(right, feat, visit[idx]) == Walk(right, feat, root)
      decreases m.NodeCount() - visit[idx]
    {
      var node := nodes[idx];
      assert m.SplitOk(visit[idx]);
      idx := if IsBelow(feat[node.Fidx()], node.thr) then node.left else node.right;
      assert NodeKept(m, visit, nodes, idx);
    }
    leaf := nodes[idx].leaf;
  }
}

/** What a compact pack can hold: its links are 16-bit words. */
module CompactLimits {
  import opened Forest
  import opened CompactPacks

  ghost function Elements(nodes: seq<nat>): set<nat> { set i | i in nodes }

  lemma {:induction false} FewElements(nodes: seq<nat>)
    ensures |Elements(nodes)| <= |nodes|
  {
    if |nodes| == 0 {
      assert Elements(nodes) == {};
    } else {
      var last := |nodes| - 1;
      FewElements(nodes[..last]);
      assert Elements(nodes) == Elements(nodes[..last]) + {nodes[last]};
    }
  }

  /** Links are 16-bit words. */
  ghost predicate WordLinks(own: seq<CompactNode>) {
    forall k | 0 <= k < |own| :: own[k].left < 0x1_0000 && own[k].right < 0x1_0000
  }

  lemma {:induction false} LinkedBelow(m: SoaModel, root: nat, visit: seq<nat>, own: seq<CompactNode>, k: nat, n: nat)
    requires m.Valid() && BlockKept(m, root, visit, own) && WordLinks(own)
    requires k < n <= |visit| && (n == |visit| || n == 0x1_0000) && visit[k] < m.NodeCount()
    ensures Below(m, visit[k]) <= Elements(visit[..n])
    decreases m.NodeCount() - visit[k]
  {
    var i := visit[k];
    assert i == visit[..n][k] && NodeKept(m, visit, own, k);
    if !m.isLeaf[i] {
      assert m.SplitOk(i);
      LinkedBelow(m, root, visit, own, own[k].left, n);
      LinkedBelow(m, root, visit, own, own[k].right, n);
    }
  }

  /** No pack with 16-bit links holds a tree of more than 65536 reachable nodes. */
  lemma WordsHoldNoMore(m: SoaModel, root: nat, visit: seq<nat>, own: seq<CompactNode>)
    requires m.Valid() && root < m.NodeCount() && BlockKept(m, root, visit, own) && WordLinks(own)
    ensures |Below(m, root)| <= 0x1_0000
  {
    var n := if |visit| < 0x1_0000 then |visit| else 0x1_0000;
    LinkedBelow(m, root, visit, own, 0, n);
    FewElements(visit[..n]);
    assert Elements(visit[..n]) == Below(m, root) + (Elements(visit[..n]) - Below(m, root));
  }

  /** No two branches of a split share a node. */
  ghost predicate IsTree(m: SoaModel, i: nat)
    requires m.Valid() && i < m.NodeCount()
    decreases m.NodeCount() - i
  {
    !m.isLeaf[i] ==>
      && m.SplitOk(i)
      && Below(m, m.left[i]) !! Below(m, m.right[i])
      && IsTree(m, m.left[i])
      && IsTree(m, m.right[i])
  }

  lemma {:induction false} BelowIsAfter(m: SoaModel, i: nat)
    requires m.Valid() && i < m.NodeCount()
    ensures forall j | j in Below(m, i) :: i <= j
    decreases m.NodeCount() - i
  {
    if m.isLeaf[i] {
    } else {
      assert m.SplitOk(i);
      BelowIsAfter(m, m.left[i]);
      BelowIsAfter(m, m.right[i]);
    }
  }

  lemma DisjointSizes(i: nat, l: set<nat>, r: set<nat>)
    requires l !! r && i !in l && i !in r
    ensures |{i} + l + r| == 1 + |l| + |r|
  {
    assert {i} + l + r == {i} + (l + r);
  }

  lemma SplitSize(m: SoaModel, i: nat)
    requires m.Valid() && i < m.NodeCount() && IsTree(m, i) && !m.isLeaf[i]
    ensures m.SplitOk(i) && |Below(m, i)| == 1 + |Below(m, m.left[i])| + |Below(m, m.right[i])|
  {
    assert m.SplitOk(i);
    BelowIsAfter(m, m.left[i]);
    BelowIsAfter(m, m.right[i]);
    DisjointSizes(i, Below(m, m.left[i]), Below(m, m.right[i]));
  }

  lemma OddWithBoth(a: nat, b: nat)
    requires a % 2 == 1 && b % 2 == 1
    ensures (1 + a + b) % 2 == 1
  {}

  /** A tree has one leaf more than it has splits. */
  lemma {:induction false} TreesAreOdd(m: SoaModel, i: nat)
    requires m.Valid() && i < m.NodeCount() && IsTree(m, i)
    ensures |Below(m, i)| % 2 == 1
    decreases m.NodeCount() - i
  {
    if m.isLeaf[i] {
    } else {
      SplitSize(m, i);
      TreesAreOdd(m, m.left[i]);
      TreesAreOdd(m, m.right[i]);
      OddWithBoth(|Below(m, m.left[i])|, |Below(m, m.right[i])|);
    }
  }

  lemma {:induction false} Enumerated(s: set<nat>) returns (nodes: seq<nat>)
    ensures |nodes| == |s| && Elements(nodes) == s
  {
    nodes := [];
    if s != {} {
      var x :| x in s;
      var others := Enumerated(s - {x});
      nodes := others + [x];
      assert Elements(nodes) == Elements(others) + {x};
    }
  }

  ghost function Position(nodes: seq<nat>, i: nat): (k: nat)
    ensures i in nodes ==> k < |nodes| && nodes[k] == i
  {
    if i in nodes then
      var k: nat :| k < |nodes| && nodes[k] == i; k
    else 0
  }

  /** The node with these nodes' positions for links. */
  ghost function Placed(m: SoaModel, nodes: seq<nat>, i: nat): CompactNode
    requires m.Valid() && i < m.NodeCount()
  {
    if m.isLeaf[i] then Unlinked(m, i)
    else Unlinked(m, i).(left := Position(nodes, m.left[i]), right := Position(nodes, m.right[i]))
  }

  /** Some pack with 16-bit links keeps the tree at this root. */
  ghost predicate HasPack(m: SoaModel, root: nat)
    requires m.Valid()
  {
    exists visit: seq<nat>, own: seq<CompactNode> :: BlockKept(m, root, visit, own) && WordLinks(own)
  }

  ghost predicate ChildrenIn(m: SoaModel, visit: seq<nat>, i: nat)
    requires m.Valid()
  {
    i < m.NodeCount() && (!m.isLeaf[i] ==> m.left[i] in visit && m.right[i] in visit)
  }

  lemma PlacedIsKept(m: SoaModel, visit: seq<nat>, own: seq<CompactNode>, k: nat)
    requires m.Valid() && m.nFeatures <= 0x7FFF && k < |visit| == |own| && ChildrenIn(m, visit, visit[k])
    requires own[k] == Placed(m, visit, visit[k])
    ensures NodeKept(m, visit, own, k)
  {
    if !m.isLeaf[visit[k]] {
      assert m.SplitOk(visit[k]);
    }
  }

  lemma ChildrenListed(m: SoaModel, root: nat, visit: seq<nat>, i: nat)
    requires m.Valid() && root < m.NodeCount() && Elements(visit) == Below(m, root) && i in visit
    ensures ChildrenIn(m, visit, i)
  {
    assert i in Elements(visit);
    if !m.isLeaf[i] {
      BelowClosed(m, root, i);
      assert m.left[i] in Elements(visit) && m.right[i] in Elements(visit);
    }
  }

  /** The nodes below a root can be listed, the root first. */
  lemma Listed(m: SoaModel, root: nat) returns (visit: seq<nat>)
    requires m.Valid() && root < m.NodeCount()
    ensures |visit| == |Below(m, root)| && visit[0] == root
    ensures forall k | 0 <= k < |visit| :: ChildrenIn(m, visit, visit[k])
  {
    var others := Enumerated(Below(m, root) - {root});
    visit := [root] + others;
    assert Elements(visit) == {root} + Elements(others);
    forall k | 0 <= k < |visit| ensures ChildrenIn(m, visit, visit[k]) {
      ChildrenListed(m, root, visit, visit[k]);
    }
  }

  lemma SmallHasPack(m: SoaModel, root: nat)
    requires m.Valid() && root < m.NodeCount() && m.nFeatures <= 0x7FFF && |Below(m, root)| <= 0x1_0000
    ensures HasPack(m, root)
  {
    var visit := Listed(m, root);
    assert forall k | 0 <= k < |visit| :: ChildrenIn(m, visit, visit[k]) && visit[k] < m.NodeCount();
    var own := seq(|visit|, k requires 0 <= k < |visit| => Placed(m, visit, visit[k]));
    forall k: nat ensures NodeKept(m, visit, own, k) {
      if k < |visit| {
        PlacedIsKept(m, visit, own, k);
      }
    }
    assert BlockKept(m, root, visit, own) && WordLinks(own);
  }

  /** The bound of the compiler is the exact one: trees with more nodes have no pack with 16-bit links. */
  lemma TreeHasPackIff(m: SoaModel, root: nat)
    requires m.Valid() && root < m.NodeCount() && m.nFeatures <= 0x7FFF && IsTree(m, root)
    ensures HasPack(m, root) <==> |Below(m, root)| <= FREE
  {
    TreesAreOdd(m, root);
    if |Below(m, root)| <= FREE {
      SmallHasPack(m, root);
    } else if HasPack(m, root) {
      var visit, own :| BlockKept(m, root, visit, own) && WordLinks(own);
      WordsHoldNoMore(m, root, visit, own);
      assert false;
    }
  }
}

/** When the test for missing values can be left out. */
module MissingTests {
  import opened Forest
  import opened CompactPacks
  import opened CompactLimits

  lemma {:induction false} WalksBelow(m: SoaModel, row: Row, i: nat)
    requires m.Valid() && |row| == m.nFeatures && i < m.NodeCount() && ToldApart(m)
    ensures Walk(m, row, i) in Below(m, i) && Walk(MissingRight(m), row, i) in Below(m, i)
    decreases m.NodeCount() - i
  {
    if m.isLeaf[i] {
    } else {
      assert m.SplitOk(i) && MissingIsChild(m, i);
      WalksBelow(m, row, Next(m, i, row[m.fidx[i]]));
      WalksBelow(m, row, Next(MissingRight(m), i, row[m.fidx[i]]));
    }
  }

  predicate MissingIsChild(m: SoaModel, i: nat)
    requires m.Valid() && i < m.NodeCount()
  {
    !m.isLeaf[i] ==> m.SplitOk(i) && (m.missing[i] == m.left[i] || m.missing[i] == m.right[i])
  }

  /** Every split sends missing values to one of its children, and the branches below it share no node. */
  ghost predicate ToldApart(m: SoaModel)
    requires m.Valid()
  {
    forall i: nat | i < m.NodeCount() :: MissingIsChild(m, i) && IsTree(m, i)
  }

  /** Leaving the test out gives a row the same leaf from every node if and only if every missing value of the row
      goes right wherever it is tested. */
  lemma RightWalkIff(m: SoaModel, row: Row)
    requires m.Valid() && |row| == m.nFeatures && ToldApart(m)
    ensures (forall i: nat | i < m.NodeCount() :: Walk(MissingRight(m), row, i) == Walk(m, row, i)) <==>
            GoesRight(m, row)
  {
    if GoesRight(m, row) {
      forall i: nat | i < m.NodeCount() ensures Walk(MissingRight(m), row, i) == Walk(m, row, i) {
        RightWalk(m, row, i);
      }
    } else {
      var i: nat :| i < m.NodeCount() && !m.isLeaf[i] && m.SplitOk(i) && row[m.fidx[i]].NaN?
                    && m.missing[i] != m.right[i];
      assert MissingIsChild(m, i) && IsTree(m, i);
      WalksBelow(m, row, m.left[i]);
      WalksBelow(m, row, m.right[i]);
      assert Walk(m, row, i) == Walk(m, row, m.left[i]);
      assert Walk(MissingRight(m), row, i) == Walk(MissingRight(m), row, m.right[i]);
      assert Walk(MissingRight(m), row, i) != Walk(m, row, i);
    }
  }
}

/** The traversal with hot trees: approximate exits at checkpoints among the first trees, bound exits
    after them; in the score form, and in the margin form over a compact pack. */
module HotTraversal {
  import opened Forest
  import opened Traversal
  import opened CompactPacks

  /** After a hot tree only the checkpoint is asked, after a later one only the bounds. */
  function TraverseHot(s: Settings, plan: TreeOrder, v: seq<real>, hot: nat, pos: nat, score: real, cpIdx: nat): Exit
    requires s.Valid() && s.approx.Some? && |plan.suffixMin| == |plan.suffixMax| == |plan.order| + 1 == |v| + 1
             && pos <= |v|
    decreases |v| - pos
  {
    if pos == |v| then Exit(score, score >= s.threshold, pos, NO_META)
    else
      var score' := score + v[pos];
      if pos < hot then
        var (approx, next) := MaybeApproxExit(score', s.threshold, pos + 1, s.approx.value, cpIdx);
        if approx.Some? then Exit(score', approx.value.0, pos + 1, approx.value.1)
        else TraverseHot(s, plan, v, hot, pos + 1, score', next)
      else
        var exact := if (pos + 1) % s.every == 0 || pos + 1 == |v|
                     then MaybeExactExit(score', s.threshold, plan.suffixMin[pos + 1], plan.suffixMax[pos + 1],
                                         s.eps, s.guard)
                     else None;
        if exact.Some? then Exit(score', exact.value, pos + 1, NO_META)
        else TraverseHot(s, plan, v, hot, pos + 1, score', cpIdx)
  }

  /** An exit that no checkpoint among the hot trees took is exact. */
  lemma {:induction false} OnlyHotCheckpointsMayErr(s: Settings, plan: TreeOrder, v: seq<real>, hot: nat, pos: nat,
                                                    score: real, cpIdx: nat)
    requires s.Valid() && s.approx.Some? && s.eps >= 0.0 && s.guard >= 0.0
    requires |plan.order| == |v| && BoundsCover(plan, v) && pos <= |v|
    ensures var exit := TraverseHot(s, plan, v, hot, pos, score, cpIdx);
            && pos <= exit.visited <= |v| && exit.score == score + Sum(v, exit.visited) - Sum(v, pos)
            && (|| (exit.meta == NO_META && (exit.pass <==> score + Total(v) - Sum(v, pos) >= s.threshold))
                || (&& exit.visited <= hot
                    && 0 <= exit.meta.checkpointIdx < |s.approx.value.usedCheckpoints|
                    && s.approx.value.usedCheckpoints[exit.meta.checkpointIdx] == exit.visited
                    && exit.meta.approxPass == exit.pass && exit.meta.approxRefer == !exit.pass))
    decreases |v| - pos
  {
    if pos == |v| {
    } else {
      var score' := score + v[pos];
      var (approx, next) := MaybeApproxExit(score', s.threshold, pos + 1, s.approx.value, cpIdx);
      if pos >= hot {
        OnlyHotCheckpointsMayErr(s, plan, v, hot, pos + 1, score', cpIdx);
      } else if approx.None? {
        OnlyHotCheckpointsMayErr(s, plan, v, hot, pos + 1, score', next);
      }
    }
  }

  /** After the hot trees the run exits where the bounds first decide. */
  lemma {:induction false} TailExit(s: Settings, plan: TreeOrder, v: seq<real>, hot: nat, pos: nat, score: real, c: nat)
    requires s.Valid() && s.approx.Some? && hot <= pos <= |v|
    requires |plan.suffixMin| == |plan.suffixMax| == |plan.order| + 1 == |v| + 1
    ensures FirstDecided(s, plan, v, pos, score, TraverseHot(s, plan, v, hot, pos, score, c))
    decreases |v| - pos
  {
    if pos == |v| {
    } else {
      var score' := score + v[pos];
      assert forall m | 0 <= m <= |v| :: ScoreAfter(v, pos + 1, score', m) == ScoreAfter(v, pos, score, m);
      assert ScoreAfter(v, pos, score, pos + 1) == score';
      if !Decided(s, plan, score', pos + 1) {
        TailExit(s, plan, v, hot, pos + 1, score', c);
      }
    }
  }

  /** The exit is at the first checkpoint among the hot trees that refers or passes the row, as it does; or, if none
      does, where the bounds first decide after the hot trees. */
  ghost predicate HotStop(s: Settings, plan: TreeOrder, v: seq<real>, hot: nat, pos: nat, score: real, c: nat, n: nat,
                          e: Exit)
    requires s.Valid() && s.approx.Some? && pos <= hot <= |v| && |plan.suffixMin| == |plan.suffixMax| == |v| + 1
  {
    if e.meta != NO_META then e.visited <= hot && FirstMet(s, v, pos, score, c, n, e)
    else NothingMet(s, v, pos, score, c, n, hot) && FirstDecided(s, plan, v, hot, ScoreAfter(v, pos, score, hot), e)
  }

  lemma HotStopLater(s: Settings, plan: TreeOrder, v: seq<real>, hot: nat, pos: nat, score: real, c: nat, c': nat,
                     n: nat, e: Exit)
    requires s.Valid() && s.approx.Some? && pos < hot <= |v| && GoesOn(s, v, pos, score, c, c')
    requires |plan.suffixMin| == |plan.suffixMax| == |v| + 1
    requires HotStop(s, plan, v, hot, pos + 1, score + v[pos], c', n, e)
    ensures HotStop(s, plan, v, hot, pos, score, c, n, e)
  {
    assert ScoreAfter(v, pos + 1, score + v[pos], hot) == ScoreAfter(v, pos, score, hot);
    if e.meta != NO_META {
      FirstMetLater(s, v, pos, score, c, c', n, e);
    } else {
      NothingMetLater(s, v, pos, score, c, c', n, hot);
    }
  }

  lemma HotStopTail(s: Settings, plan: TreeOrder, v: seq<real>, hot: nat, score: real, c: nat)
    requires s.Valid() && s.approx.Some? && hot <= |v|
    requires |plan.suffixMin| == |plan.suffixMax| == |plan.order| + 1 == |v| + 1
    ensures HotStop(s, plan, v, hot, hot, score, c, c, TraverseHot(s, plan, v, hot, hot, score, c))
  {
    assert ScoreAfter(v, hot, score, hot) == score;
    TailExit(s, plan, v, hot, hot, score, c);
  }

  /** The traversal stops there. */
  lemma {:induction false} HotExit(s: Settings, plan: TreeOrder, v: seq<real>, hot: nat, pos: nat, score: real, c: nat)
    returns (n: nat)
    requires s.Valid() && s.approx.Some? && pos <= hot <= |v|
    requires |plan.suffixMin| == |plan.suffixMax| == |plan.order| + 1 == |v| + 1
    ensures HotStop(s, plan, v, hot, pos, score, c, n, TraverseHot(s, plan, v, hot, pos, score, c))
    decreases hot - pos
  {
    if pos == hot {
      HotStopTail(s, plan, v, hot, score, c);
      n := c;
    } else {
      ApproxStep(s, v, pos, score, c);
      var (approx, next) := MaybeApproxExit(score + v[pos], s.threshold, pos + 1, s.approx.value, c);
      if approx.Some? {
        n := c + 1;
      } else {
        n := HotExit(s, plan, v, hot, pos + 1, score + v[pos], next);
        var e := TraverseHot(s, plan, v, hot, pos + 1, score + v[pos], next);
        HotStopLater(s, plan, v, hot, pos, score, c, next, n, e);
      }
    }
  }

  // ---------------------------------------------------------------- the score form

  method TraverseScoreForm(m: SoaModel, feat: Row, s: Settings, base: real, plan: TreeOrder) returns (exit: Exit)
    requires m.Valid() && |feat| == m.nFeatures && plan.Fits(m) && s.Valid() && s.approx.Some?
    ensures exit ==
            TraverseHot(s, plan, PlanScores(MissingRight(m), plan, feat), HotTrees(plan, s.approx.value.kHot), 0, base,
                        0)
  {
    ghost var v := PlanScores(MissingRight(m), plan, feat);
    var hot := HotTrees(plan, s.approx.value.kHot);
    var score, cpIdx: nat := base, 0;
    for pos := 0 to hot
      invariant TraverseHot(s, plan, v, hot, 0, base, 0) == TraverseHot(s, plan, v, hot, pos, score, cpIdx)
    {
      var idx := WalkNomiss(m, feat, m.treeRoots[plan.order[pos]]);
      score := score + m.leaf[idx];
      var (approx, next) := MaybeApproxExit(score, s.threshold, pos + 1, s.approx.value, cpIdx);
      if approx.Some? {
        return Exit(score, approx.value.0, pos + 1, approx.value.1);
      }
      cpIdx := next;
    }
    exit := ScoreTail(m, feat, s, score, plan, hot, cpIdx);
  }

  method ScoreTail(m: SoaModel, feat: Row, s: Settings, init: real, plan: TreeOrder, hot: nat, ghost cpIdx: nat)
    returns (exit: Exit)
    requires m.Valid() && |feat| == m.nFeatures && plan.Fits(m) && s.Valid() && s.approx.Some?
             && hot <= |plan.order|
    ensures exit == TraverseHot(s, plan, PlanScores(MissingRight(m), plan, feat), hot, hot, init, cpIdx)
  {
    ghost var v := PlanScores(MissingRight(m), plan, feat);
    var score := init;
    for pos := hot to |plan.order|
      invariant TraverseHot(s, plan, v, hot, hot, init, cpIdx) == TraverseHot(s, plan, v, hot, pos, score, cpIdx)
    {
      var idx := WalkNomiss(m, feat, m.treeRoots[plan.order[pos]]);
      score := score + m.leaf[idx];
      if (pos + 1) % s.every == 0 || pos + 1 == |plan.order| {
        var exact :=
            MaybeExactExit(score, s.threshold, plan.suffixMin[pos + 1], plan.suffixMax[pos + 1], s.eps, s.guard);
        if exact.Some? {
          return Exit(score, exact.value, pos + 1, NO_META);
        }
      }
    }
    exit := Exit(score, score >= s.threshold, |plan.order|, NO_META);
  }

  // ---------------------------------------------------------------- the margin form

  /** Optional thresholds stored densely, NaN for none. */
  function Dense(taus: seq<Option<real>>): (r: seq<Feature>)
    ensures |r| == |taus|
  {
    seq(|taus|, k requires 0 <= k < |taus| => if taus[k].Some? then Num(taus[k].value) else NaN)
  }

  /** The loop's memory of the next checkpoint; past the last one it is a number no tree count reaches. */
  function NextCheckpoint(checkpoints: seq<nat>, cpIdx: nat): Option<nat> {
    if cpIdx < |checkpoints| then Some(checkpoints[cpIdx]) else None
  }

  method MarginCheckpoint(margin: real, threshold: real, mEnd: nat, policy: ApproxPolicy, tauRef: seq<Feature>,
                          tauPos: seq<Feature>, cpIdx: nat, nextCp: Option<nat>)
    returns (exit: Option<Exit>, cpIdx': nat, nextCp': Option<nat>)
    requires policy.Valid() && tauRef == Dense(policy.tauRef) && tauPos == Dense(policy.tauPositive)
    requires nextCp == NextCheckpoint(policy.usedCheckpoints, cpIdx)
    ensures var (approx, next) := MaybeApproxExit(margin + threshold, threshold, mEnd, policy, cpIdx);
            && cpIdx' == next && (exit.None? ==> nextCp' == NextCheckpoint(policy.usedCheckpoints, next))
            && exit ==
               if approx.Some? then Some(Exit(margin + threshold, approx.value.0, mEnd, approx.value.1)) else None
  {
    exit, cpIdx', nextCp' := None, cpIdx, nextCp;
    if nextCp == Some(mEnd) {
      cpIdx' := cpIdx + 1;
      if tauRef[cpIdx].Num? && margin <= tauRef[cpIdx].v {
        exit := Some(Exit(margin + threshold, false, mEnd, RowMeta(false, true, cpIdx)));
        return;
      }
      if tauPos[cpIdx].Num? && margin >= tauPos[cpIdx].v {
        exit := Some(Exit(margin + threshold, true, mEnd, RowMeta(true, false, cpIdx)));
        return;
      }
      nextCp' := NextCheckpoint(policy.usedCheckpoints, cpIdx');
    }
  }

  function MaybeExactExitMargin(margin: real, suffixMin: real, suffixMax: real, eps: real, guard: real): Option<bool> {
    if margin + suffixMin >= eps + guard then Some(true)
    else if margin + suffixMax < -(eps + guard) then Some(false)
    else None
  }

  /** On the score and on its margin over the threshold, the bound exit is the same. */
  lemma MarginExitIsExit(margin: real, threshold: real, suffixMin: real, suffixMax: real, eps: real, guard: real)
    ensures MaybeExactExitMargin(margin, suffixMin, suffixMax, eps, guard) ==
            MaybeExactExit(margin + threshold, threshold, suffixMin, suffixMax, eps, guard)
  {
    assert margin + suffixMin >= eps + guard <==> margin + threshold + suffixMin >= threshold + eps + guard;
    assert margin + suffixMax < -(eps + guard) <==> margin + threshold + suffixMax < threshold - eps - guard;
  }

  method HotLeaf(m: SoaModel, feat: Row, plan: TreeOrder, pack: Option<CompactPack>, pos: nat) returns (leaf: real)
    requires m.Valid() && |feat| == m.nFeatures && plan.Fits(m) && pos < |plan.order|
    requires pack.Some? ==> IsCompact(m, plan, pack.value) && pos < pack.value.nTrees
    ensures leaf == TreeScore(MissingRight(m), feat, plan.order[pos])
  {
    if pack.Some? {
      ghost var root := m.treeRoots[plan.order[pos]];
      assert TreeAt(m, root, pack.value.nodes, pack.value.offs[pos]);
      ghost var visit: seq<nat> :| BlockKept(m, root, visit, pack.value.nodes[pack.value.offs[pos]..]);
      leaf := WalkCompact(pack.value.nodes[pack.value.offs[pos]..], feat, m, root, visit);
    } else {
      var idx := WalkNomiss(m, feat, m.treeRoots[plan.order[pos]]);
      leaf := m.leaf[idx];
    }
  }

  /** The margin form, over a compact pack or without one, makes the score form's exit at the same tree. */
  method TraverseMarginForm(pack: Option<CompactPack>, m: SoaModel, feat: Row, s: Settings, base: real, plan: TreeOrder,
                            tauRef: seq<Feature>, tauPos: seq<Feature>)
    returns (exit: Exit)
    requires m.Valid() && |feat| == m.nFeatures && plan.Fits(m) && s.Valid() && s.approx.Some?
    requires tauRef == Dense(s.approx.value.tauRef) && tauPos == Dense(s.approx.value.tauPositive)
    requires pack.Some? ==> IsCompact(m, plan, pack.value) && pack.value.nTrees == HotTrees(plan, s.approx.value.kHot)
    ensures exit ==
            TraverseHot(s, plan, PlanScores(MissingRight(m), plan, feat), HotTrees(plan, s.approx.value.kHot), 0, base,
                        0)
  {
    ghost var v := PlanScores(MissingRight(m), plan, feat);
    var policy := s.approx.value;
    var hot := HotTrees(plan, policy.kHot);
    var margin, cpIdx: nat, nextCp := base - s.threshold, 0, NextCheckpoint(policy.usedCheckpoints, 0);
    ghost var goal := TraverseHot(s, plan, v, hot, 0, base, 0);
    for pos := 0 to hot
      invariant nextCp == NextCheckpoint(policy.usedCheckpoints, cpIdx)
      invariant goal == TraverseHot(s, plan, v, hot, pos, margin + s.threshold, cpIdx)
    {
      var leaf := HotLeaf(m, feat, plan, pack, pos);
      margin := margin + leaf;
      var done;
      done, cpIdx, nextCp := MarginCheckpoint(margin, s.threshold, pos + 1, policy, tauRef, tauPos, cpIdx, nextCp);
      if done.Some? {
        return done.value;
      }
    }
    exit := MarginTail(m, feat, s, margin, plan, hot, cpIdx);
  }

  method MarginTail(m: SoaModel, feat: Row, s: Settings, init: real, plan: TreeOrder, hot: nat, ghost cpIdx: nat)
    returns (exit: Exit)
    requires m.Valid() && |feat| == m.nFeatures && plan.Fits(m) && s.Valid() && s.approx.Some?
             && hot <= |plan.order|
    ensures exit == TraverseHot(s, plan, PlanScores(MissingRight(m), plan, feat), hot, hot, init + s.threshold, cpIdx)
  {
    ghost var v := PlanScores(MissingRight(m), plan, feat);
    var margin := init;
    for pos := hot to |plan.order|
      invariant TraverseHot(s, plan, v, hot, hot, init + s.threshold, cpIdx) ==
                TraverseHot(s, plan, v, hot, pos, margin + s.threshold, cpIdx)
    {
      var idx := WalkNomiss(m, feat, m.treeRoots[plan.order[pos]]);
      margin := margin + m.leaf[idx];
      MarginExitIsExit(margin, s.threshold, plan.suffixMin[pos + 1], plan.suffixMax[pos + 1], s.eps, s.guard);
      if s.every == 1 || (pos + 1) % s.every == 0 || pos + 1 == |plan.order| {
        var exact := MaybeExactExitMargin(margin, plan.suffixMin[pos + 1], plan.suffixMax[pos + 1], s.eps, s.guard);
        if exact.Some? {
          return Exit(margin + s.threshold, exact.value, pos + 1, NO_META);
        }
      }
    }
    exit := Exit(margin + s.threshold, margin >= 0.0, |plan.order|, NO_META);
  }
}
