/** Taking a whole tree down with one loop and the parent links. */
module RedBlackTeardown {
  import opened RedBlackTheory
  import opened KeyOrder
  import opened RedBlackHeap
  import opened RedBlackTree

  /** Children before their parent, left before right. */
  function Postorder(t: Tree): seq<Ref> {
    if t.Leaf? then [] else Postorder(t.left) + Postorder(t.right) + [t.node]
  }

  /** What is still to come after the subtree in the hole is gone. */
  function Rest(p: Path): seq<Ref> {
    match p
    case Top => []
    case InLeft(up, n, _, _, r) => Postorder(r) + [n] + Rest(up)
    case InRight(_, n, _, _, up) => [n] + Rest(up)
  }

  /** The walk only goes right once the left subtree is gone. */
  predicate LeftSpent(p: Path) {
    !p.Top? ==> (p.InRight? ==> p.left.Leaf?) && LeftSpent(p.up)
  }

  function PathSize(p: Path): nat {
    if p.Top? then 0 else 1 + Size(Sibling(p)) + PathSize(p.up)
  }

  /** Each descent raises the depth, and each climb gives up one node. */
  function Work(p: Path, t: Tree): int {
    2 * (PathSize(p) + Size(t)) - Depth(p)
  }

  lemma {:induction false} DepthBelowSize(p: Path)
    ensures Depth(p) <= PathSize(p)
  {
    if !p.Top? {
      DepthBelowSize(p.up);
    }
  }

  lemma {:induction false} PostorderIs(t: Tree, n: Ref)
    ensures n in Postorder(t) <==> n in Refs(t)
  {
    if t.Branch? {
      PostorderIs(t.left, n);
      PostorderIs(t.right, n);
    }
  }

  /** The order lists every node of the tree exactly once. */
  lemma {:induction false} PostorderOnce(t: Tree, i: nat, j: nat)
    requires Distinct(t) && i < j < |Postorder(t)|
    ensures Postorder(t)[i] != Postorder(t)[j]
  {
    var l, r := Postorder(t.left), Postorder(t.right);
    var ni, nj := Postorder(t)[i], Postorder(t)[j];
    PostorderIs(t.left, ni);
    PostorderIs(t.left, nj);
    PostorderIs(t.right, ni);
    PostorderIs(t.right, nj);
    if j < |l| {
      PostorderOnce(t.left, i, j);
      assert ni == l[i] && nj == l[j];
    } else if |l| <= i && j < |l| + |r| {
      PostorderOnce(t.right, i - |l|, j - |l|);
      assert ni == r[i - |l|] && nj == r[j - |l|];
    } else if i < |l| {
      assert ni == l[i];
      if j < |l| + |r| {
        assert nj == r[j - |l|];
      }
    } else {
      assert ni == r[i - |l|];
    }
  }

  /** Freeing the childless node in the hole and clearing its parent's link. */
  lemma Pruned(h: Heap, h': Heap, root: Ref, p: Path, z: Ref, t: Tree)
    requires At(h, root, p, z, t) && !p.Top? && t.Branch? && t.left.Leaf? && t.right.Leaf?
    requires p.node in h - {z}
    requires h' == if p.InLeft? then SetLeft(h - {z}, p.node, NIL) else SetRight(h - {z}, p.node, NIL)
    ensures At(h', root, p.up, p.node, Joined(p, Leaf))
    ensures Nodes(p.up, Joined(p, Leaf)) == Nodes(p, t) - {z} && h'.Keys == h.Keys - {z}
  {
    var m := {z, p.node};
    Parts(h, root, p, z, t);
    assert Refs(Sibling(p)) <= PathRefs(p) && PathRefs(p.up) <= PathRefs(p);
    Refilled(h, h', m, root, root, z, NIL, p);
    Up(h', root, p, NIL, Leaf);
  }

  function Remaining(p: Path, t: Tree): seq<Ref> {
    Postorder(t) + Rest(p)
  }

  lemma RemainingLeft(p: Path, t: Tree)
    requires t.Branch? && LeftSpent(p)
    ensures var q := InLeft(p, t.node, t.color, t.entry, t.right);
      Remaining(q, t.left) == Remaining(p, t) && LeftSpent(q) && Work(q, t.left) < Work(p, t)
  {}

  lemma RemainingRight(p: Path, t: Tree)
    requires t.Branch? && t.left.Leaf? && LeftSpent(p)
    ensures var q := InRight(t.left, t.node, t.color, t.entry, p);
      Remaining(q, t.right) == Remaining(p, t) && LeftSpent(q) && Work(q, t.right) < Work(p, t)
  {
    assert Postorder(t) == Postorder(t.right) + [t.node];
  }

  lemma RemainingUp(p: Path, t: Tree)
    requires t.Branch? && t.left.Leaf? && t.right.Leaf? && LeftSpent(p)
    ensures p.Top? ==> Remaining(p, t) == [t.node]
    ensures !p.Top? ==>
      && Remaining(p, t) == [t.node] + Remaining(p.up, Joined(p, Leaf))
      && LeftSpent(p.up) && Work(p.up, Joined(p, Leaf)) < Work(p, t)
  {
    assert Postorder(t) == [t.node];
    if !p.Top? {
      var j := Joined(p, Leaf);
      if p.InLeft? {
        assert Postorder(j) == Postorder(p.right) + [p.node];
      } else {
        assert Postorder(j) == [p.node];
      }
    }
  }

  /** The walk stands at `z`; `done` has been destroyed and freed. */
  ghost predicate Walking(h: Heap, root: Ref, others: set<Ref>, s: Tree, p: Path, z: Ref, t: Tree, done: seq<Ref>) {
    var here := At(h, root, p, z, t) && t.Branch? && LeftSpent(p);
    var order := done + Remaining(p, t) == Postorder(s);
    var memory := h.Keys == others + Nodes(p, t) && others !! Nodes(p, t);
    here && order && memory
  }

  /** What the loop sees at `z`, and that going down loses nothing. */
  lemma Step(h: Heap, root: Ref, others: set<Ref>, s: Tree, p: Path, z: Ref, t: Tree, done: seq<Ref>)
    returns (q: Path, u: Tree)
    requires Walking(h, root, others, s, p, z, t, done)
    ensures z > NIL && z in h && t.Branch? && z == t.node
    ensures (h[z].left == NIL <==> t.left.Leaf?) && (h[z].right == NIL <==> t.right.Leaf?)
    ensures h[z].left != NIL ==> Walking(h, root, others, s, q, h[z].left, u, done)
    ensures h[z].left == NIL && h[z].right != NIL ==> Walking(h, root, others, s, q, h[z].right, u, done)
    ensures t.left.Branch? || t.right.Branch? ==> Work(q, u) < Work(p, t)
    ensures 0 <= Work(p, t)
  {
    q, u := p, t;
    Parts(h, root, p, z, t);
    ChildRefs(h, root, p, z, t);
    DepthBelowSize(p);
    if t.left.Branch? {
      RemainingLeft(p, t);
      q := DownLeft(h, root, p, z, t);
      u := t.left;
    } else if t.right.Branch? {
      RemainingRight(p, t);
      q := DownRight(h, root, p, z, t);
      u := t.right;
    }
  }

  /** Destroying and freeing a childless node, and climbing to its parent. */
  lemma Climb(h: Heap, h': Heap, root: Ref, others: set<Ref>, s: Tree, p: Path, z: Ref, t: Tree, done: seq<Ref>)
    requires Walking(h, root, others, s, p, z, t, done) && !p.Top? && t.left.Leaf? && t.right.Leaf?
    requires p.node in h - {z}
    requires h' == if p.InLeft? then SetLeft(h - {z}, p.node, NIL) else SetRight(h - {z}, p.node, NIL)
    ensures Walking(h', root, others, s, p.up, p.node, Joined(p, Leaf), done + [z])
    ensures Work(p.up, Joined(p, Leaf)) < Work(p, t)
  {
    Parts(h, root, p, z, t);
    Pruned(h, h', root, p, z, t);
    RemainingUp(p, t);
    assert z in Refs(t);
    assert done + ([z] + Remaining(p.up, Joined(p, Leaf))) == done + [z] + Remaining(p.up, Joined(p, Leaf));
  }

  lemma Finish(h: Heap, root: Ref, others: set<Ref>, s: Tree, p: Path, z: Ref, t: Tree, done: seq<Ref>)
    requires Walking(h, root, others, s, p, z, t, done) && p.Top? && t.left.Leaf? && t.right.Leaf?
    ensures done + [z] == Postorder(s) && (h - {z}).Keys == others
  {
    Parts(h, root, p, z, t);
    RemainingUp(p, t);
    assert Nodes(p, t) == {z};
  }

  /** Destroys the contents of every node and frees every node, each exactly once
      and in postorder. Every access goes through the heap, so none of them can
      touch a node already freed. */
  method Delete(tree: RbTree) returns (destroyed: seq<Ref>, freed: seq<Ref>)
    requires tree.Valid()
    modifies tree
    ensures destroyed == freed == Postorder(old(tree.shape))
    ensures tree.heap.Keys == old(tree.heap.Keys) - Refs(old(tree.shape))
  {
    hide At, TotalOrder, Sorted, RedBlack, Walking, Nodes, Work, LeftSpent;
    destroyed, freed := [], [];
    var z := tree.root;
    ghost var s, root := tree.shape, tree.root;
    ghost var others := tree.heap.Keys - Refs(s);
    ghost var p, t := Top, s;
    Start(tree.heap, root, s);
    while z != NIL
      invariant tree.root == root && destroyed == freed
      invariant z != NIL ==> Walking(tree.heap, root, others, s, p, z, t, destroyed)
      invariant z == NIL ==> destroyed == Postorder(s) && tree.heap.Keys == others
      decreases z != NIL, Work(p, t)
    {
      ghost var q, u := Step(tree.heap, root, others, s, p, z, t, destroyed);
      if tree.heap[z].left != NIL {
        z := tree.heap[z].left;
        p, t := q, u;
      } else if tree.heap[z].right != NIL {
        z := tree.heap[z].right;
        p, t := q, u;
      } else {
        Above(tree.heap, root, others, s, p, z, t, destroyed);
        destroyed := destroyed + [z];
        if tree.heap[z].parent != NULL {
          ghost var h, leaf := tree.heap, z;
          z := tree.heap[z].parent;
          if tree.heap[z].left != NIL {
            freed := freed + [tree.heap[z].left];
            tree.heap := SetLeft(tree.heap - {tree.heap[z].left}, z, NIL);
          } else if tree.heap[z].right != NIL {
            freed := freed + [tree.heap[z].right];
            tree.heap := SetRight(tree.heap - {tree.heap[z].right}, z, NIL);
          }
          Climb(h, tree.heap, root, others, s, p, leaf, t, freed[..|freed| - 1]);
          p, t := p.up, Joined(p, Leaf);
        } else {
          Finish(tree.heap, root, others, s, p, z, t, freed);
          freed := freed + [z];
          tree.heap := tree.heap - {z};
          z := NIL;
        }
      }
    }
  }

  lemma Start(h: Heap, root: Ref, s: Tree)
    requires At(h, root, Top, root, s)
    ensures s.Leaf? ==> root == NIL && [] == Postorder(s) && h.Keys - Refs(s) == h.Keys
    ensures s.Branch? ==> root > NIL && Walking(h, root, h.Keys - Refs(s), s, Top, root, s, [])
  {
    Parts(h, root, Top, root, s);
    AllNodes(h, root, Top, root, s);
    WholeTree(s);
    forall n: Ref | n in Refs(s)
      ensures n in h.Keys
    {}
    assert Refs(s) <= h.Keys;
    assert [] + Remaining(Top, s) == Postorder(s);
  }

  /** The parent of a childless `z`, and which of its links leads to `z`. */
  lemma Above(h: Heap, root: Ref, others: set<Ref>, s: Tree, p: Path, z: Ref, t: Tree, done: seq<Ref>)
    requires Walking(h, root, others, s, p, z, t, done)
    ensures z in h && (h[z].parent == NULL <==> p.Top?)
    ensures !p.Top? ==>
      && h[z].parent == p.node && p.node in h && p.node != z && p.node > NIL
      && (p.InLeft? ==> h[p.node].left == z) && (p.InRight? ==> h[p.node].left == NIL && h[p.node].right == z)
  {
    Parts(h, root, p, z, t);
    Links(h, root, p, z, t);
    if p.InRight? {
      assert Rep(h, h[p.node].left, p.node, p.left);
    }
  }
}
