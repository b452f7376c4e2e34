// The append-only depth-32 Merkle tree of note leaves: the incremental update of the contract,
// the full padded tree it must agree with, and the circuits' membership fold.
module NoteTree {
  type Hash = (nat, nat) -> nat

  const TREE_DEPTH := 32
  const CAPACITY := 0x1_0000_0000

  datatype TreeFields = Tree(filled: seq<nat>, next: nat, root: nat, roots: set<nat>)
  type Tree = t: TreeFields | |t.filled| == TREE_DEPTH witness Tree(seq(TREE_DEPTH, i => 0), 0, 0, {})

  // ----- Reference: the full tree over a leaf sequence, padded with zero leaves ----------------

  // The node at `level` whose children are nodes 2 * pos and 2 * pos + 1 of the level below.
  function Node(h: Hash, leaves: seq<nat>, level: nat, pos: nat): nat
    decreases level, leaves
  {
    if level == 0 then
      if pos < |leaves| then leaves[pos] else 0
    else
      h(Node(h, leaves, level - 1, 2 * pos), Node(h, leaves, level - 1, 2 * pos + 1))
  }

  function FullRoot(h: Hash, leaves: seq<nat>): nat {
    Node(h, leaves, TREE_DEPTH, 0)
  }

  // Root of an all-zero subtree of the given height.
  function ZeroAt(h: Hash, level: nat): nat
    decreases level, h
  {
    if level == 0 then 0 else h(ZeroAt(h, level - 1), ZeroAt(h, level - 1))
  }

  // idx >> level
  function Shift(idx: nat, level: nat): nat {
    if level == 0 then idx else Shift(idx, level - 1) / 2
  }

  // ----- The contract's incremental form -----------------------------------------------------

  function Empty(h: Hash): Tree {
    Tree(Zeros(h), 0, ZeroAt(h, TREE_DEPTH), {})
  }

  function Zeros(h: Hash): (zs: seq<nat>)
    ensures |zs| == TREE_DEPTH
    ensures forall i :: 0 <= i < TREE_DEPTH ==> zs[i] == ZeroAt(h, i)
  {
    seq(TREE_DEPTH, i requires 0 <= i => ZeroAt(h, i))
  }

  // The running node on the rightmost path after `level` compressions.
  function Climb(h: Hash, filled: seq<nat>, idx: nat, leaf: nat, level: nat): nat
    requires level <= |filled|
  {
    if level == 0 then leaf
    else if Shift(idx, level - 1) % 2 == 0 then
      h(Climb(h, filled, idx, leaf, level - 1), ZeroAt(h, level - 1))
    else
      h(filled[level - 1], Climb(h, filled, idx, leaf, level - 1))
  }

  function Refill(h: Hash, filled: seq<nat>, idx: nat, leaf: nat): (r: seq<nat>)
    ensures |r| == |filled|
  {
    seq(|filled|, i requires 0 <= i < |filled| => FilledAt(h, filled, idx, leaf, i))
  }

  function FilledAt(h: Hash, filled: seq<nat>, idx: nat, leaf: nat, i: nat): nat
    requires i < |filled|
  {
    if Shift(idx, i) % 2 == 0 then Climb(h, filled, idx, leaf, i) else filled[i]
  }

  function Insert(h: Hash, t: Tree, leaf: nat): Tree {
    var root := Climb(h, t.filled, t.next, leaf, TREE_DEPTH);
    Tree(Refill(h, t.filled, t.next, leaf), t.next + 1, root, t.roots + {root})
  }

  function InsertAll(h: Hash, t: Tree, leaves: seq<nat>): Tree {
    if leaves == [] then t
    else Insert(h, InsertAll(h, t, leaves[..|leaves| - 1]), leaves[|leaves| - 1])
  }

  // ----- Agreement -----------------------------------------------------------------------------

  // Wherever the leaf count has a set bit, that level holds the completed left subtree.
  ghost predicate FilledOk(h: Hash, filled: seq<nat>, leaves: seq<nat>) {
    |filled| == TREE_DEPTH &&
    forall i :: 0 <= i < TREE_DEPTH && Shift(|leaves|, i) % 2 == 1 ==>
      filled[i] == Node(h, leaves, i, Shift(|leaves|, i) - 1)
  }

  ghost predicate Agrees(h: Hash, t: Tree, leaves: seq<nat>) {
    && t.next == |leaves|
    && FilledOk(h, t.filled, leaves)
    && t.root == FullRoot(h, leaves)
    && (forall r :: r in t.roots <==> IsPrefixRoot(h, leaves, r))
  }

  // r was the root right after some insertion: the root of a non-empty leaf prefix.
  ghost predicate IsPrefixRoot(h: Hash, leaves: seq<nat>, r: nat) {
    exists k :: 0 < k <= |leaves| && r == FullRoot(h, leaves[..k])
  }

  function SiblingPos(pos: nat): nat {
    if pos % 2 == 0 then pos + 1 else pos - 1
  }

  function SiblingAt(h: Hash, leaves: seq<nat>, idx: nat, level: nat): nat {
    Node(h, leaves, level, SiblingPos(Shift(idx, level)))
  }

  // A parent's children are the running position and its sibling.
  lemma {:induction false} ParentOf(h: Hash, leaves: seq<nat>, idx: nat, level: nat)
    ensures
      var s := Shift(idx, level);
      Node(h, leaves, level + 1, Shift(idx, level + 1)) ==
      if s % 2 == 0 then h(Node(h, leaves, level, s), SiblingAt(h, leaves, idx, level))
      else h(SiblingAt(h, leaves, idx, level), Node(h, leaves, level, s))
  {
    var s := Shift(idx, level);
    assert 2 * (s / 2) + s % 2 == s;
  }

  // Nodes entirely to the right of the last leaf are zero subtrees.
  lemma {:induction false} RightOfLeaves(h: Hash, leaves: seq<nat>, level: nat, pos: nat)
    requires |leaves| == 0 || Shift(|leaves| - 1, level) < pos
    ensures Node(h, leaves, level, pos) == ZeroAt(h, level)
  {
    if level > 0 {
      RightOfLeaves(h, leaves, level - 1, 2 * pos);
      RightOfLeaves(h, leaves, level - 1, 2 * pos + 1);
    }
  }

  // Nodes entirely to the left of position |leaves| do not change when a leaf is appended.
  lemma {:induction false} LeftOfNewLeaf(h: Hash, leaves: seq<nat>, x: nat, level: nat, pos: nat)
    requires pos < Shift(|leaves|, level)
    ensures Node(h, leaves + [x], level, pos) == Node(h, leaves, level, pos)
  {
    if level > 0 {
      LeftOfNewLeaf(h, leaves, x, level - 1, 2 * pos);
      LeftOfNewLeaf(h, leaves, x, level - 1, 2 * pos + 1);
    }
  }

  // The running node is the full tree's node above the new leaf, at every level.
  lemma {:induction false} ClimbIsNode(h: Hash, filled: seq<nat>, leaves: seq<nat>, x: nat, level: nat)
    requires level <= TREE_DEPTH && FilledOk(h, filled, leaves)
    ensures Climb(h, filled, |leaves|, x, level) == Node(h, leaves + [x], level, Shift(|leaves|, level))
  {
    if level > 0 {
      var n, below := |leaves|, level - 1;
      ClimbIsNode(h, filled, leaves, x, below);
      ParentOf(h, leaves + [x], n, below);
      if Shift(n, below) % 2 == 0 {
        RightOfLeaves(h, leaves + [x], below, Shift(n, below) + 1);
      } else {
        LeftOfNewLeaf(h, leaves, x, below, Shift(n, below) - 1);
      }
    }
  }

  // Adding one carries into a level exactly past that level's trailing ones.
  lemma {:induction false} ShiftSuccessor(n: nat, level: nat)
    ensures Shift(n + 1, level) == Shift(n, level) || Shift(n + 1, level) == Shift(n, level) + 1
  {
    if level > 0 {
      ShiftSuccessor(n, level - 1);
    }
  }

  lemma {:induction false} RefillAt(h: Hash, filled: seq<nat>, leaves: seq<nat>, x: nat, i: nat)
    requires FilledOk(h, filled, leaves) && i < TREE_DEPTH && Shift(|leaves| + 1, i) % 2 == 1
    ensures FilledAt(h, filled, |leaves|, x, i) == Node(h, leaves + [x], i, Shift(|leaves| + 1, i) - 1)
  {
    var n := |leaves|;
    ShiftSuccessor(n, i);
    assert Shift(n + 1, i) == if Shift(n, i) % 2 == 0 then Shift(n, i) + 1 else Shift(n, i);
    if Shift(n, i) % 2 == 0 {
      ClimbIsNode(h, filled, leaves, x, i);
    } else {
      LeftOfNewLeaf(h, leaves, x, i, Shift(n, i) - 1);
    }
  }

  lemma {:induction false} RefillKeepsFilled(h: Hash, filled: seq<nat>, leaves: seq<nat>, x: nat)
    requires FilledOk(h, filled, leaves)
    ensures FilledOk(h, Refill(h, filled, |leaves|, x), leaves + [x])
  {
    forall i | 0 <= i < TREE_DEPTH && Shift(|leaves + [x]|, i) % 2 == 1
      ensures Refill(h, filled, |leaves|, x)[i] == Node(h, leaves + [x], i, Shift(|leaves + [x]|, i) - 1)
    {
      RefillAt(h, filled, leaves, x, i);
    }
  }

  function Pow2(k: nat): (p: nat)
    ensures 0 < p
  {
    if k == 0 then 1 else 2 * Pow2(k - 1)
  }

  lemma {:induction false} ShiftToZero(n: nat, k: nat, level: nat)
    requires level <= k && n < Pow2(k)
    ensures Shift(n, level) < Pow2(k - level)
  {
    if level > 0 {
      ShiftToZero(n, k, level - 1);
    }
  }

  lemma {:induction false} CapacityShiftsToZero(n: nat)
    requires n < CAPACITY
    ensures Shift(n, TREE_DEPTH) == 0
  {
    Pow2Sum(8, 8);
    Pow2Sum(16, 16);
    ShiftToZero(n, 32, 32);
  }

  lemma {:induction false} Pow2Sum(a: nat, b: nat)
    ensures Pow2(a + b) == Pow2(a) * Pow2(b)
  {
    if a > 0 {
      Pow2Sum(a - 1, b);
    }
  }

  lemma {:induction false} PrefixRootsGrow(h: Hash, leaves: seq<nat>, x: nat, r: nat)
    ensures IsPrefixRoot(h, leaves + [x], r) <==> IsPrefixRoot(h, leaves, r) || r == FullRoot(h, leaves + [x])
  {
    var all := leaves + [x];
    forall k | 0 < k <= |leaves|
      ensures all[..k] == leaves[..k]
    {
    }
    assert all[..|all|] == all;
    if IsPrefixRoot(h, all, r) {
      var k :| 0 < k <= |all| && r == FullRoot(h, all[..k]);
      if k <= |leaves| {
        assert r == FullRoot(h, leaves[..k]);
      }
    }
    if IsPrefixRoot(h, leaves, r) {
      var k :| 0 < k <= |leaves| && r == FullRoot(h, leaves[..k]);
      assert r == FullRoot(h, all[..k]);
    }
  }

  // One incremental insertion keeps the stored tree in agreement with the full padded tree.
  lemma {:induction false} InsertAgrees(h: Hash, t: Tree, leaves: seq<nat>, x: nat)
    requires Agrees(h, t, leaves) && |leaves| < CAPACITY
    ensures Agrees(h, Insert(h, t, x), leaves + [x])
  {
    var n := |leaves|;
    ClimbIsNode(h, t.filled, leaves, x, TREE_DEPTH);
    CapacityShiftsToZero(n);
    RefillKeepsFilled(h, t.filled, leaves, x);
    forall r
      ensures r in Insert(h, t, x).roots <==> IsPrefixRoot(h, leaves + [x], r)
    {
      PrefixRootsGrow(h, leaves, x, r);
    }
  }

  lemma {:induction false} ZeroShift(level: nat)
    ensures Shift(0, level) == 0
  {
    if level > 0 {
      ZeroShift(level - 1);
    }
  }

  lemma {:induction false} EmptyAgrees(h: Hash, leaves: seq<nat>)
    requires leaves == []
    ensures Agrees(h, Empty(h), leaves)
  {
    RightOfLeaves(h, leaves, TREE_DEPTH, 0);
    forall i | 0 <= i < TREE_DEPTH
      ensures Shift(|leaves|, i) == 0
    {
      ZeroShift(i);
    }
    assert FilledOk(h, Zeros(h), leaves);
    forall r
      ensures !IsPrefixRoot(h, leaves, r)
    {
    }
  }

  // The fast form refines the slow one: any number of insertions within the tree's capacity.
  lemma {:induction false} InsertAllAgrees(h: Hash, leaves: seq<nat>)
    requires |leaves| <= CAPACITY
    ensures Agrees(h, InsertAll(h, Empty(h), leaves), leaves)
  {
    if leaves == [] {
      EmptyAgrees(h, leaves);
    } else {
      var front, x := leaves[..|leaves| - 1], leaves[|leaves| - 1];
      InsertAllAgrees(h, front);
      InsertAgrees(h, InsertAll(h, Empty(h), front), front, x);
      assert front + [x] == leaves;
    }
  }

  // ----- The circuits' membership fold ---------------------------------------------------------

  // Fold a node up its sibling path; bit i of idx says whether the running node is a right child.
  function FoldPath(h: Hash, node: nat, path: seq<nat>, idx: nat, level: nat): nat
    requires level <= |path|
  {
    if level == 0 then node
    else if Shift(idx, level - 1) % 2 == 0 then
      h(FoldPath(h, node, path, idx, level - 1), path[level - 1])
    else
      h(path[level - 1], FoldPath(h, node, path, idx, level - 1))
  }

  // The authentication path of position idx in the full tree.
  function Siblings(h: Hash, leaves: seq<nat>, idx: nat): (p: seq<nat>)
    ensures |p| == TREE_DEPTH
  {
    seq(TREE_DEPTH, i requires 0 <= i => SiblingAt(h, leaves, idx, i))
  }

  ghost predicate CollisionFree(h: Hash) {
    forall a, b, c, d :: !Collides(h, a, b, c, d)
  }

  ghost predicate Collides(h: Hash, a: nat, b: nat, c: nat, d: nat) {
    h(a, b) == h(c, d) && (a != c || b != d)
  }

  // Completeness: the authentication path of a position folds its node up to the root.
  lemma {:induction false} PathReachesNode(h: Hash, leaves: seq<nat>, idx: nat, level: nat)
    requires level <= TREE_DEPTH
    ensures FoldPath(h, Node(h, leaves, 0, idx), Siblings(h, leaves, idx), idx, level)
         == Node(h, leaves, level, Shift(idx, level))
  {
    if level > 0 {
      PathReachesNode(h, leaves, idx, level - 1);
      ParentOf(h, leaves, idx, level - 1);
    }
  }

  // Soundness: with a collision-free hash only that node and that path fold to the tree's node.
  lemma {:induction false} OnlyThatPath(h: Hash, leaves: seq<nat>, node: nat, path: seq<nat>, idx: nat, level: nat)
    requires CollisionFree(h) && level <= |path| == TREE_DEPTH
    requires FoldPath(h, node, path, idx, level) == Node(h, leaves, level, Shift(idx, level))
    ensures node == Node(h, leaves, 0, idx)
    ensures forall i :: 0 <= i < level ==> path[i] == SiblingAt(h, leaves, idx, i)
  {
    if level > 0 {
      ParentOf(h, leaves, idx, level - 1);
      OnlyPair(h, FoldPath(h, node, path, idx, level - 1), path[level - 1],
        Node(h, leaves, level - 1, Shift(idx, level - 1)), SiblingAt(h, leaves, idx, level - 1),
        Shift(idx, level - 1) % 2 == 0);
      OnlyThatPath(h, leaves, node, path, idx, level - 1);
    }
  }

  lemma {:induction false} OnlyPair(h: Hash, a: nat, b: nat, c: nat, d: nat, left: bool)
    requires CollisionFree(h)
    requires if left then h(a, b) == h(c, d) else h(b, a) == h(d, c)
    ensures a == c && b == d
  {
    assert !Collides(h, a, b, c, d) && !Collides(h, b, a, d, c);
  }

  // What the circuits' membership check accepts against the root of a leaf sequence: at each
  // position exactly the stored leaf (zero beyond the last) with exactly its sibling path.
  lemma {:induction false} MembershipIsExact(h: Hash, leaves: seq<nat>, node: nat, path: seq<nat>, idx: nat)
    requires CollisionFree(h) && |path| == TREE_DEPTH && idx < CAPACITY
    ensures FoldPath(h, node, path, idx, TREE_DEPTH) == FullRoot(h, leaves)
       <==> node == (if idx < |leaves| then leaves[idx] else 0) && path == Siblings(h, leaves, idx)
  {
    CapacityShiftsToZero(idx);
    PathReachesNode(h, leaves, idx, TREE_DEPTH);
    if FoldPath(h, node, path, idx, TREE_DEPTH) == FullRoot(h, leaves) {
      OnlyThatPath(h, leaves, node, path, idx, TREE_DEPTH);
    }
  }
}
