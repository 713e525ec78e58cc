/** Walking a tree in order: its first and last node, and the successor of a node. */
module RedBlackTraversal {
  import opened RedBlackTheory
  import opened KeyOrder
  import opened RedBlackHeap
  import opened RedBlackTree

  // ------------------------------------------------------------ order of nodes

  function Inorder(t: Tree): seq<Ref> {
    if t.Leaf? then [] else Inorder(t.left) + [t.node] + Inorder(t.right)
  }

  function NodesBefore(p: Path): seq<Ref> {
    match p
    case Top => []
    case InLeft(up, _, _, _, _) => NodesBefore(up)
    case InRight(l, n, _, _, up) => NodesBefore(up) + Inorder(l) + [n]
  }

  function NodesAfter(p: Path): seq<Ref> {
    match p
    case Top => []
    case InLeft(up, n, _, _, r) => [n] + Inorder(r) + NodesAfter(up)
    case InRight(_, _, _, _, up) => NodesAfter(up)
  }

  function AllInorder(p: Path, t: Tree): seq<Ref> {
    NodesBefore(p) + Inorder(t) + NodesAfter(p)
  }

  lemma InorderUp(p: Path, t: Tree)
    requires !p.Top?
    ensures AllInorder(p, t) == AllInorder(p.up, Joined(p, t))
  {
    if p.InLeft? {
      Regroup4(NodesBefore(p.up), Inorder(t), [p.node] + Inorder(p.right), NodesAfter(p.up));
      assert Inorder(t) + [p.node] + Inorder(p.right) == Inorder(t) + ([p.node] + Inorder(p.right));
    } else {
      Regroup4(NodesBefore(p.up), Inorder(p.left) + [p.node], Inorder(t), NodesAfter(p.up));
      assert NodesBefore(p) == NodesBefore(p.up) + (Inorder(p.left) + [p.node]);
    }
  }

  /** The k-th node in order holds the k-th entry in order. */
  lemma {:induction false} InorderHolds(h: Heap, x: Ref, parent: Ref, t: Tree, k: nat)
    requires Rep(h, x, parent, t) && k < |Inorder(t)|
    ensures |Entries(t)| == |Inorder(t)| && Inorder(t)[k] in h && Inorder(t)[k] in Refs(t)
    ensures Entries(t)[k] == Entry(h[Inorder(t)[k]].key, h[Inorder(t)[k]].value)
    decreases t
  {
    InorderLength(t.left);
    InorderLength(t.right);
    var m := |Inorder(t.left)|;
    if k < m {
      InorderHolds(h, h[x].left, x, t.left, k);
    } else if k > m {
      InorderHolds(h, h[x].right, x, t.right, k - m - 1);
    }
  }

  lemma {:induction false} InorderLength(t: Tree)
    ensures |Entries(t)| == |Inorder(t)| && (t.Leaf? <==> Inorder(t) == [])
  {
    if t.Branch? {
      InorderLength(t.left);
      InorderLength(t.right);
    }
  }

  lemma {:induction false} InorderRefs(t: Tree, n: Ref)
    ensures n in Inorder(t) <==> n in Refs(t)
  {
    if t.Branch? {
      InorderRefs(t.left, n);
      InorderRefs(t.right, n);
    }
  }

  lemma {:induction false} InorderDistinct(t: Tree, i: nat, j: nat)
    requires Distinct(t) && i < j < |Inorder(t)|
    ensures Inorder(t)[i] != Inorder(t)[j]
  {
    var l, r := Inorder(t.left), Inorder(t.right);
    InorderRefs(t.left, Inorder(t)[i]);
    InorderRefs(t.left, Inorder(t)[j]);
    InorderRefs(t.right, Inorder(t)[j]);
    if j < |l| {
      InorderDistinct(t.left, i, j);
    } else if i > |l| {
      InorderDistinct(t.right, i - |l| - 1, j - |l| - 1);
      assert Inorder(t)[i] == r[i - |l| - 1] && Inorder(t)[j] == r[j - |l| - 1];
    } else if i == |l| {
      assert Inorder(t)[j] == r[j - |l| - 1];
    } else {
      assert Inorder(t)[i] == l[i];
      if j > |l| {
        assert Inorder(t)[j] == r[j - |l| - 1];
      }
    }
  }

  /** Every node of the tree is some point of view. */
  lemma {:induction false} Locate(h: Heap, root: Ref, p: Path, x: Ref, t: Tree, n: Ref) returns (q: Path, u: Tree)
    requires At(h, root, p, x, t) && n in Refs(t)
    ensures At(h, root, q, n, u) && u.Branch? && AllInorder(q, u) == AllInorder(p, t)
    decreases t
  {
    q, u := p, t;
    Parts(h, root, p, x, t);
    if n != t.node {
      if n in Refs(t.left) {
        var pl := DownLeft(h, root, p, x, t);
        InorderUp(pl, t.left);
        q, u := Locate(h, root, pl, h[x].left, t.left, n);
      } else {
        var pr := DownRight(h, root, p, x, t);
        InorderUp(pr, t.right);
        q, u := Locate(h, root, pr, h[x].right, t.right, n);
      }
    }
  }

  // ------------------------------------------------------ minimum and successor

  /** The first node of a subtree; on the empty tree, the sentinel. */
  method Minimum(tree: RbTree, x: Ref, ghost p: Path, ghost t: Tree) returns (y: Ref, ghost q: Path, ghost u: Tree)
    requires At(tree.heap, tree.root, p, x, t) && Sentinel(tree.heap)
    ensures t.Leaf? ==> y == NIL
    ensures t.Branch? ==> At(tree.heap, tree.root, q, y, u) && u.Branch? && u.left.Leaf?
    ensures t.Branch? ==> NodesBefore(q) == NodesBefore(p) && AllInorder(q, u) == AllInorder(p, t)
    ensures t.Branch? ==> First(p, t, y)
  {
    hide At, AllInorder;
    y, q, u := x, p, t;
    Parts(tree.heap, tree.root, q, y, u);
    ChildRefs(tree.heap, tree.root, q, y, u);
    while tree.heap[y].left != NIL
      invariant At(tree.heap, tree.root, q, y, u) && y in tree.heap && y == RootRef(u)
      invariant if t.Leaf? then y == NIL else u.Branch? && (tree.heap[y].left == NIL <==> u.left.Leaf?)
      invariant NodesBefore(q) == NodesBefore(p) && AllInorder(q, u) == AllInorder(p, t)
      decreases u
    {
      q := DownLeft(tree.heap, tree.root, q, y, u);
      InorderUp(q, u.left);
      y, u := tree.heap[y].left, u.left;
      Parts(tree.heap, tree.root, q, y, u);
      ChildRefs(tree.heap, tree.root, q, y, u);
    }
    if t.Branch? {
      Parts(tree.heap, tree.root, q, y, u);
      FirstHere(q, u);
      InorderLength(t);
    }
  }

  method Maximum(tree: RbTree, x: Ref, ghost p: Path, ghost t: Tree) returns (y: Ref)
    requires At(tree.heap, tree.root, p, x, t) && Sentinel(tree.heap)
    ensures t.Leaf? ==> y == NIL
    ensures t.Branch? ==> Last(p, t, y)
  {
    hide At, AllInorder;
    y := x;
    ghost var q, u := p, t;
    Parts(tree.heap, tree.root, q, y, u);
    ChildRefs(tree.heap, tree.root, q, y, u);
    while tree.heap[y].right != NIL
      invariant At(tree.heap, tree.root, q, y, u) && y in tree.heap && y == RootRef(u)
      invariant if t.Leaf? then y == NIL else u.Branch? && (tree.heap[y].right == NIL <==> u.right.Leaf?)
      invariant NodesAfter(q) == NodesAfter(p) && AllInorder(q, u) == AllInorder(p, t)
      decreases u
    {
      q := DownRight(tree.heap, tree.root, q, y, u);
      InorderUp(q, u.right);
      y, u := tree.heap[y].right, u.right;
      Parts(tree.heap, tree.root, q, y, u);
      ChildRefs(tree.heap, tree.root, q, y, u);
    }
    if t.Branch? {
      Parts(tree.heap, tree.root, q, y, u);
      LastHere(q, u);
    }
  }

  /** `y` comes right after everything before the hole of `p`. */
  predicate First(p: Path, t: Tree, y: Ref) {
    |NodesBefore(p)| < |AllInorder(p, t)| && AllInorder(p, t)[|NodesBefore(p)|] == y
  }

  /** `y` comes right before everything after the hole of `p`. */
  predicate Last(p: Path, t: Tree, y: Ref) {
    var k := |AllInorder(p, t)| - |NodesAfter(p)| - 1;
    0 <= k && AllInorder(p, t)[k] == y
  }

  lemma FirstHere(p: Path, t: Tree)
    requires t.Branch? && t.left.Leaf?
    ensures First(p, t, t.node)
  {
    assert Inorder(t)[0] == t.node;
    assert (NodesBefore(p) + Inorder(t))[|NodesBefore(p)|] == t.node;
  }

  lemma LastHere(p: Path, t: Tree)
    requires t.Branch? && t.right.Leaf?
    ensures Last(p, t, t.node)
  {
    assert Inorder(t) == Inorder(t.left) + [t.node];
    var k := |NodesBefore(p) + Inorder(t)| - 1;
    assert (NodesBefore(p) + Inorder(t))[k] == t.node;
  }

  /** Where the node in the hole itself stands. */
  lemma Position(p: Path, t: Tree) returns (k: nat)
    requires t.Branch?
    ensures k == |NodesBefore(p)| + |Inorder(t.left)| < |AllInorder(p, t)| && AllInorder(p, t)[k] == t.node
    ensures |AllInorder(p, t)| == k + 1 + |Inorder(t.right)| + |NodesAfter(p)|
    ensures forall j :: 0 <= j < |NodesAfter(p)| ==>
      AllInorder(p, t)[|AllInorder(p, t)| - |NodesAfter(p)| + j] == NodesAfter(p)[j]
  {
    k := |NodesBefore(p)| + |Inorder(t.left)|;
    var s := NodesBefore(p) + Inorder(t);
    assert Inorder(t)[|Inorder(t.left)|] == t.node;
    assert s[k] == t.node;
  }

  /** The next node in order, or null after the last one. On an empty tree the
      sentinel counts as the only node. */
  method Successor(tree: RbTree, x0: Ref, ghost i: nat) returns (y: Ref)
    requires tree.Valid()
    requires if tree.shape.Leaf? then x0 == NIL else i < |Inorder(tree.shape)| && Inorder(tree.shape)[i] == x0
    ensures y == if i + 1 < |Inorder(tree.shape)| then Inorder(tree.shape)[i + 1] else NULL
  {
    hide At, AllInorder, Inorder, RedBlack, Sorted, TotalOrder;
    ghost var h, s := tree.heap, tree.shape;
    var x := x0;
    InorderLength(s);
    AtTop(s);
    ghost var q, u, k := Top, s, 0;
    if s.Branch? {
      InorderRefs(s, x);
      q, u := Locate(h, tree.root, Top, tree.root, s, x);
      k := Position(q, u);
      Parts(h, tree.root, q, x, u);
      OnlyOnce(h, tree.root, s, i, k);
      ChildRefs(h, tree.root, q, x, u);
      InorderLength(u.right);
    }
    if tree.heap[x].right != NIL {
      ghost var r := DownRight(h, tree.root, q, x, u);
      InorderUp(r, u.right);
      ghost var q', u';
      y, q', u' := Minimum(tree, tree.heap[x].right, r, u.right);
      assert |NodesBefore(r)| == k + 1;
      return;
    }
    var last := Maximum(tree, tree.root, Top, s);
    if x == last {
      if s.Branch? {
        OnlyOnce(h, tree.root, s, i, |Inorder(s)| - 1);
      }
      return NULL;
    }
    y := tree.heap[x].parent;
    ghost var c, t := q, u;
    Side(h, tree.root, c, x, t);
    while y != NIL && x == tree.heap[y].right
      invariant At(h, tree.root, c, x, t) && t.Branch? && y == Holder(c)
      invariant NodesAfter(c) == NodesAfter(q) && NodesAfter(q) != []
      invariant !c.Top? && y in h && (h[y].right == x <==> c.InRight?)
      decreases Depth(c)
    {
      Parts(h, tree.root, c, x, t);
      Up(h, tree.root, c, x, t);
      x := y;
      t := Joined(c, t);
      c := c.up;
      Parts(h, tree.root, c, x, t);
      y := tree.heap[y].parent;
      Side(h, tree.root, c, x, t);
      Parts(h, tree.root, c, x, t);
    }
    Parts(h, tree.root, c, x, t);
    assert NodesAfter(c)[0] == c.node == y && NodesAfter(q)[0] == y;
  }

  lemma AtTop(t: Tree)
    ensures AllInorder(Top, t) == Inorder(t)
  {}

  lemma OnlyOnce(h: Heap, root: Ref, t: Tree, i: nat, j: nat)
    requires At(h, root, Top, root, t) && i < |Inorder(t)| && j < |Inorder(t)| && Inorder(t)[i] == Inorder(t)[j]
    ensures i == j
  {
    if i < j {
      InorderDistinct(t, i, j);
    } else if j < i {
      InorderDistinct(t, j, i);
    }
  }
}
