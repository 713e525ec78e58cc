/** The mutable red-black tree: nodes with parent pointers, one shared sentinel,
    rotations and the two fixup loops. */
module RedBlackTree {
  import opened Basics
  import opened RedBlackTheory
  import opened KeyOrder
  import opened RedBlackHeap

  /** Answers of `insert_c_rb`. */
  const SUCCESS: int := 0
  const KEY_DUPLICATE: int := 401

  class RbTree {
    const compare: Comparator
    var root: Ref
    var heap: Heap
    ghost var shape: Tree

    ghost predicate Valid()
      reads this
    {
      var sentinel := Sentinel(heap);
      var linked := At(heap, root, Top, root, shape) && RedBlack(shape);
      var ordered := TotalOrder(compare) && Sorted(compare, Entries(shape));
      sentinel && linked && ordered
    }

    /** The mathematical map the tree stands for. */
    ghost function Contents(): map<Key, Value>
      reads this
    {
      MapOf(Entries(shape))
    }

    constructor (cmp: Comparator)
      requires TotalOrder(cmp)
      ensures Valid() && Contents() == map[] && Strays() == {} && compare == cmp
    {
      compare := cmp;
      root := NIL;
      var k: Key, v: Value := *, *;
      heap := map[NIL := Cell(NIL, NIL, NULL, Black, k, v)];
      shape := Leaf;
    }

    /** Answers true exactly when the tree is NOT empty. */
    method Empty() returns (r: bool)
      requires Valid()
      ensures r <==> Contents() != map[]
    {
      SizeBound();
      SizeIsEntries(shape);
      Parts(heap, root, Top, root, shape);
      return root != NIL;
    }

    lemma SizeBound()
      requires Valid()
      ensures |Contents()| == Size(shape)
      ensures Pow2(Height(shape)) <= (|Contents()| + 1) * (|Contents()| + 1)
    {
      SizeIsEntries(shape);
      MapOfSize(compare, Entries(shape));
      HeightBound(shape);
    }

    // ------------------------------------------------------------------ searching

    /** `x` is null exactly when the key is absent; otherwise it is the node that
        holds it. The loop makes at most 2 log2(n + 1) turns. */
    method Find(key: Key) returns (x: Ref, ghost turns: nat)
      requires Valid()
      ensures x == NULL <==> key !in Contents()
      ensures x != NULL ==>
        x in Refs(shape) && x in heap && heap[x].key == key && heap[x].value == Contents()[key]
      ensures Pow2(turns) <= (|Contents()| + 1) * (|Contents()| + 1)
    {
      hide At, TotalOrder, Sorted, Searching, MapOf;
      x, turns := root, 0;
      ghost var p, t := Top, shape;
      Begin(heap, root, shape, compare, key);
      while x != NIL
        invariant Searching(heap, root, shape, compare, p, x, t, key)
        invariant turns + Height(t) <= Height(shape)
        decreases t
      {
        ghost var q, t' := Turn(heap, root, shape, compare, p, x, t, key);
        var c := compare(key, heap[x].key);
        turns := turns + 1;
        if c == 0 {
          break;
        } else {
          x := if c < 0 then heap[x].left else heap[x].right;
          p, t := q, t';
        }
      }
      SizeBound();
      Pow2Monotone(turns, Height(shape));
      if x == NIL {
        Exhausted(heap, root, shape, compare, p, t, key);
        x := NULL;
      }
    }

    method LeftRotate(x: Ref)
      requires x in heap && x != NIL && heap[x].right in heap
      requires var y := heap[x].right; var b := heap[y].left; var q := heap[x].parent;
        && y != NIL && y != x && b in heap && b !in {x, y}
        && (q != NULL ==> q in heap && q !in {NIL, x, y, b})
      modifies this`heap, this`root
      ensures LeftSurgery(old(heap), heap, old(root), root, x)
    {
      var y := heap[x].right;
      heap := SetRight(heap, x, heap[y].left);
      if heap[y].left != NIL {
        heap := SetParent(heap, heap[y].left, x);
      }
      if y != NIL {
        heap := SetParent(heap, y, heap[x].parent);
      }
      if heap[x].parent != NULL {
        if x == heap[heap[x].parent].left {
          heap := SetLeft(heap, heap[x].parent, y);
        } else {
          heap := SetRight(heap, heap[x].parent, y);
        }
      } else {
        root := y;
      }
      heap := SetLeft(heap, y, x);
      if x != NIL {
        heap := SetParent(heap, x, y);
      }
    }

    method RightRotate(x: Ref)
      requires x in heap && x != NIL && heap[x].left in heap
      requires var y := heap[x].left; var b := heap[y].right; var q := heap[x].parent;
        && y != NIL && y != x && b in heap && b !in {x, y}
        && (q != NULL ==> q in heap && q !in {NIL, x, y, b})
      modifies this`heap, this`root
      ensures RightSurgery(old(heap), heap, old(root), root, x)
    {
      var y := heap[x].left;
      heap := SetLeft(heap, x, heap[y].right);
      if heap[y].right != NIL {
        heap := SetParent(heap, heap[y].right, x);
      }
      if y != NIL {
        heap := SetParent(heap, y, heap[x].parent);
      }
      if heap[x].parent != NULL {
        if x == heap[heap[x].parent].right {
          heap := SetRight(heap, heap[x].parent, y);
        } else {
          heap := SetLeft(heap, heap[x].parent, y);
        }
      } else {
        root := y;
      }
      heap := SetRight(heap, y, x);
      if x != NIL {
        heap := SetParent(heap, x, y);
      }
    }

    /** A left rotation anywhere in the tree turns the subtree at `x` into its
        rotation and changes nothing else. */
    method LeftRotateAt(x: Ref, ghost p: Path, ghost t: Tree)
      requires At(heap, root, p, x, t) && t.Branch? && t.right.Branch?
      modifies this`heap, this`root
      ensures At(heap, root, p, t.right.node, RotatedLeft(t))
      ensures All(p, RotatedLeft(t)) == All(p, t) && Nodes(p, RotatedLeft(t)) == Nodes(p, t)
      ensures SameLabels(old(heap), heap)
    {
      LeftReady(heap, root, p, x, t);
      ghost var h, root0 := heap, root;
      LeftRotate(x);
      LeftRotated(h, heap, root0, root, p, x, t);
      RotatedLeftKeeps(t);
    }

    method RightRotateAt(x: Ref, ghost p: Path, ghost t: Tree)
      requires At(heap, root, p, x, t) && t.Branch? && t.left.Branch?
      modifies this`heap, this`root
      ensures At(heap, root, p, t.left.node, RotatedRight(t))
      ensures All(p, RotatedRight(t)) == All(p, t) && Nodes(p, RotatedRight(t)) == Nodes(p, t)
      ensures SameLabels(old(heap), heap)
    {
      RightReady(heap, root, p, x, t);
      ghost var h, root0 := heap, root;
      RightRotate(x);
      RightRotated(h, heap, root0, root, p, x, t);
      RotatedRightKeeps(t);
    }

    method Paint(x: Ref, c: Color, ghost p: Path, ghost t: Tree)
      requires At(heap, root, p, x, t) && t.Branch?
      modifies this`heap
      ensures At(heap, root, p, x, Painted(t, c))
      ensures All(p, Painted(t, c)) == All(p, t) && Nodes(p, Painted(t, c)) == Nodes(p, t)
      ensures x in old(heap) && x != NIL && heap == SetColor(old(heap), x, c) && SameLinks(old(heap), heap)
    {
      Repainted(heap, SetColor(heap, x, c), root, p, x, t, c);
      Recoloured(heap, x, c);
      heap := SetColor(heap, x, c);
    }

    // ---------------------------------------------------------------- insertion

    method BlackenSibling(x: Ref, y: Ref, ghost p: Path, ghost t: Tree) returns (ghost t': Tree)
      requires At(heap, root, p, x, t) && !p.Top? && Sibling(p).Branch? && p.node in heap
      requires y == if p.InLeft? then heap[p.node].right else heap[p.node].left
      modifies this`heap
      ensures t' == Joined(Opposite(p, t), Painted(Sibling(p), Black)) && At(heap, root, p.up, p.node, t')
      ensures All(p.up, t') == All(p, t) && Nodes(p.up, t') == Nodes(p, t)
      ensures SameLinks(old(heap), heap)
    {
      hide At, All, Nodes, SameLinks, SetColor;
      Across(heap, root, p, x, t);
      Paint(y, Black, Opposite(p, t), Sibling(p));
      ghost var u := Painted(Sibling(p), Black);
      Up(heap, root, Opposite(p, t), y, u);
      t' := Joined(Opposite(p, t), u);
    }

    /** Red uncle `y`: parent and uncle turn black, the grandparent red. */
    method PushRedUp(x: Ref, y: Ref, ghost p: Path, ghost t: Tree) returns (g: Ref, ghost t': Tree)
      requires At(heap, root, p, x, t) && t.Branch? && !p.Top? && !p.up.Top?
      requires Sibling(p.up).Branch? && p.up.node in heap
      requires y == if p.up.InLeft? then heap[p.up.node].right else heap[p.up.node].left
      modifies this`heap
      ensures t' == PushedRedUp(p, t)
      ensures At(heap, root, p.up.up, g, t') && SameLabels(old(heap), heap)
      ensures All(p.up.up, t') == All(p, t) && Nodes(p.up.up, t') == Nodes(p, t)
    {
      hide At, All, Nodes, SameLinks, SameLabels, SetColor;
      Parts(heap, root, p, x, t);
      Up(heap, root, p, x, t);
      ghost var q := Joined(p, t);
      Parts(heap, root, p.up, p.node, q);
      Up(heap, root, p.up, p.node, q);
      g := heap[heap[x].parent].parent;
      ghost var h0 := heap;
      Paint(heap[x].parent, Black, p.up, q);
      q := Painted(q, Black);
      ghost var h1 := heap;
      LinkOf(h0, h1, x);
      LinkOf(h0, h1, p.up.node);
      t' := BlackenSibling(heap[x].parent, y, p.up, q);
      LinksJoin(h0, h1, heap);
      h1 := heap;
      Paint(g, Red, p.up.up, t');
      LinksJoin(h0, h1, heap);
      LabelsKept(h0, heap);
      t' := Painted(t', Red);
    }

    /** Black uncle, `x` a left child of a left child: parent black, grandparent
        red, rotate the grandparent right. */
    method RaiseFromLeft(x: Ref, ghost p: Path, ghost t: Tree) returns (ghost p': Path)
      requires At(heap, root, p, x, t) && t.Branch? && p.InLeft? && p.up.InLeft?
      modifies this`heap, this`root
      ensures var g := Branch(p.right, p.up.node, Red, p.up.entry, p.up.right);
        p' == InLeft(p.up.up, p.node, Black, p.entry, g)
      ensures At(heap, root, p', x, t) && SameLabels(old(heap), heap)
      ensures All(p', t) == All(p, t) && Nodes(p', t) == Nodes(p, t)
    {
      Up(heap, root, p, x, t);
      ghost var q := Joined(p, t);
      Paint(heap[x].parent, Black, p.up, q);
      q := Painted(q, Black);
      Up(heap, root, p.up, p.node, q);
      ghost var g := Joined(p.up, q);
      Paint(heap[heap[x].parent].parent, Red, p.up.up, g);
      g := Painted(g, Red);
      RightRotateAt(heap[heap[x].parent].parent, p.up.up, g);
      p' := DownLeft(heap, root, p.up.up, p.node, RotatedRight(g));
    }

    method RaiseFromRight(x: Ref, ghost p: Path, ghost t: Tree) returns (ghost p': Path)
      requires At(heap, root, p, x, t) && t.Branch? && p.InRight? && p.up.InRight?
      modifies this`heap, this`root
      ensures var g := Branch(p.up.left, p.up.node, Red, p.up.entry, p.left);
        p' == InRight(g, p.node, Black, p.entry, p.up.up)
      ensures At(heap, root, p', x, t) && SameLabels(old(heap), heap)
      ensures All(p', t) == All(p, t) && Nodes(p', t) == Nodes(p, t)
    {
      Up(heap, root, p, x, t);
      ghost var q := Joined(p, t);
      Paint(heap[x].parent, Black, p.up, q);
      q := Painted(q, Black);
      Up(heap, root, p.up, p.node, q);
      ghost var g := Joined(p.up, q);
      Paint(heap[heap[x].parent].parent, Red, p.up.up, g);
      g := Painted(g, Red);
      LeftRotateAt(heap[heap[x].parent].parent, p.up.up, g);
      p' := DownRight(heap, root, p.up.up, p.node, RotatedLeft(g));
    }

    /** A red right child of a red left child becomes the parent of its parent. */
    method SwingLeft(x: Ref, ghost p: Path, ghost t: Tree) returns (x': Ref, ghost p': Path, ghost t': Tree)
      requires At(heap, root, p, x, t) && t.Branch? && p.InRight?
      modifies this`heap, this`root
      ensures x' == p.node && p' == InLeft(p.up, t.node, t.color, t.entry, t.right)
      ensures t' == Branch(p.left, p.node, p.color, p.entry, t.left)
      ensures At(heap, root, p', x', t') && SameLabels(old(heap), heap)
      ensures All(p', t') == All(p, t) && Nodes(p', t') == Nodes(p, t)
    {
      Up(heap, root, p, x, t);
      x' := heap[x].parent;
      LeftRotateAt(x', p.up, Joined(p, t));
      p' := DownLeft(heap, root, p.up, x, RotatedLeft(Joined(p, t)));
      t' := RotatedLeft(Joined(p, t)).left;
    }

    method SwingRight(x: Ref, ghost p: Path, ghost t: Tree) returns (x': Ref, ghost p': Path, ghost t': Tree)
      requires At(heap, root, p, x, t) && t.Branch? && p.InLeft?
      modifies this`heap, this`root
      ensures x' == p.node && p' == InRight(t.left, t.node, t.color, t.entry, p.up)
      ensures t' == Branch(t.right, p.node, p.color, p.entry, p.right)
      ensures At(heap, root, p', x', t') && SameLabels(old(heap), heap)
      ensures All(p', t') == All(p, t) && Nodes(p', t') == Nodes(p, t)
    {
      Up(heap, root, p, x, t);
      x' := heap[x].parent;
      RightRotateAt(x', p.up, Joined(p, t));
      p' := DownRight(heap, root, p.up, x, RotatedRight(Joined(p, t)));
      t' := RotatedRight(Joined(p, t)).right;
    }

    /** One turn of the insertion loop when the parent of `x` is a left child. */
    method InsertStepLeft(x: Ref, ghost p: Path, ghost t: Tree) returns (x': Ref, ghost p': Path, ghost t': Tree)
      requires At(heap, root, p, x, t) && Sentinel(heap)
      requires InsertInv(p, t) && !p.Top? && p.color == Red && p.up.InLeft?
      modifies this`heap, this`root
      ensures At(heap, root, p', x', t') && SameLabels(old(heap), heap)
      ensures InsertInv(p', t') && Depth(p') < Depth(p)
      ensures All(p', t') == All(p, t) && Nodes(p', t') == Nodes(p, t)
    {
      Up(heap, root, p, x, t);
      Up(heap, root, p.up, p.node, Joined(p, t));
      Across(heap, root, p.up, p.node, Joined(p, t));
      var y := heap[heap[heap[x].parent].parent].right;
      ColorOf(heap, root, Opposite(p.up, Joined(p, t)), y, p.up.right);
      Side(heap, root, p, x, t);
      x', p', t' := x, p, t;
      if heap[y].color == Red {
        PushedRedUpKeeps(p, t);
        x', t' := PushRedUp(x', y, p, t);
        p' := p.up.up;
      } else {
        if x' == heap[heap[x'].parent].right {
          SwungLeftKeeps(p, t);
          x', p', t' := SwingLeft(x', p, t);
        }
        RaisedFromLeftKeeps(p', t');
        p' := RaiseFromLeft(x', p', t');
      }
    }

    method InsertStepRight(x: Ref, ghost p: Path, ghost t: Tree) returns (x': Ref, ghost p': Path, ghost t': Tree)
      requires At(heap, root, p, x, t) && Sentinel(heap)
      requires InsertInv(p, t) && !p.Top? && p.color == Red && p.up.InRight?
      modifies this`heap, this`root
      ensures At(heap, root, p', x', t') && SameLabels(old(heap), heap)
      ensures InsertInv(p', t') && Depth(p') < Depth(p)
      ensures All(p', t') == All(p, t) && Nodes(p', t') == Nodes(p, t)
    {
      Up(heap, root, p, x, t);
      Up(heap, root, p.up, p.node, Joined(p, t));
      Across(heap, root, p.up, p.node, Joined(p, t));
      var y := heap[heap[heap[x].parent].parent].left;
      ColorOf(heap, root, Opposite(p.up, Joined(p, t)), y, p.up.left);
      Side(heap, root, p, x, t);
      x', p', t' := x, p, t;
      if heap[y].color == Red {
        PushedRedUpKeeps(p, t);
        x', t' := PushRedUp(x', y, p, t);
        p' := p.up.up;
      } else {
        if x' == heap[heap[x'].parent].left {
          SwungRightKeeps(p, t);
          x', p', t' := SwingRight(x', p, t);
        }
        RaisedFromRightKeeps(p', t');
        p' := RaiseFromRight(x', p', t');
      }
    }

    /** Restores the red-black rules after a red node has been hung at `x0`. */
    method InsertFixup(x0: Ref, ghost p0: Path, ghost t0: Tree)
      requires At(heap, root, p0, x0, t0) && Sentinel(heap)
      requires InsertInv(p0, t0)
      modifies this
      ensures At(heap, root, Top, root, shape) && RedBlack(shape) && shape.Branch?
      ensures Entries(shape) == All(p0, t0) && Refs(shape) == Nodes(p0, t0)
      ensures SameLabels(old(heap), heap)
    {
      hide All, Nodes, At, InsertInv, Fits, RedBlack;
      var x := x0;
      ghost var p, t := p0, t0;
      InsertLoop(p, t);
      Surroundings(heap, root, p, x, t);
      while x != root && heap[heap[x].parent].color == Red
        invariant At(heap, root, p, x, t) && SameLabels(old(heap), heap)
        invariant InsertInv(p, t)
        invariant All(p, t) == All(p0, t0) && Nodes(p, t) == Nodes(p0, t0)
        invariant x in heap && (x == root <==> p.Top?)
        invariant !p.Top? ==> heap[x].parent == p.node && p.node in heap && heap[p.node].color == p.color
        decreases Depth(p)
      {
        InsertLoop(p, t);
        Up(heap, root, p, x, t);
        Parts(heap, root, p.up, p.node, Joined(p, t));
        Side(heap, root, p.up, p.node, Joined(p, t));
        if heap[x].parent == heap[heap[heap[x].parent].parent].left {
          x, p, t := InsertStepLeft(x, p, t);
        } else {
          x, p, t := InsertStepRight(x, p, t);
        }
        InsertLoop(p, t);
        Surroundings(heap, root, p, x, t);
      }
      InsertLoop(p, t);
      if !p.Top? {
        PlugRedBlack(p, t);
        AlreadyBlack(Plug(p, t));
      }
      ToTop(heap, root, p, x, t);
      shape := Plug(p, t);
      Paint(root, Black, Top, shape);
      WholeTree(shape);
      shape := Painted(shape, Black);
      WholeTree(shape);
    }

    /** Nodes that are allocated but no longer (or not) part of the tree. */
    ghost function Strays(): set<Ref>
      reads this
    {
      heap.Keys - {NIL} - Refs(shape)
    }

    /** Inserts a new key; an existing key keeps its value, and the node allocated
        for the attempt is then never linked nor freed. */
    method Insert(k: Key, v: Value) returns (rc: int)
      requires Valid()
      modifies this
      ensures Valid()
      ensures rc == if k in old(Contents()) then KEY_DUPLICATE else SUCCESS
      ensures Contents() == if k in old(Contents()) then old(Contents()) else old(Contents())[k := v]
      ensures k in old(Contents()) ==>
        && shape == old(shape) && root == old(root)
        && exists x :: x !in old(heap) && Strays() == old(Strays()) + {x}
      ensures k !in old(Contents()) ==> Strays() == old(Strays())
    {
      hide At, TotalOrder, Sorted, Searching, MapOf, RedBlack;
      var x := NewNode(k, v);
      var y, z := root, NULL;
      ghost var p, t := Top, shape;
      Begin(heap, root, shape, compare, k);
      while y != NIL
        modifies {}
        invariant Searching(heap, root, shape, compare, p, y, t, k) && z == Holder(p)
        decreases t
      {
        ghost var q, t' := Turn(heap, root, shape, compare, p, y, t, k);
        var c := compare(k, heap[y].key);
        if c == 0 {
          return KEY_DUPLICATE;
        }
        z := y;
        y := if c < 0 then heap[y].left else heap[y].right;
        p, t := q, t';
      }
      Exhausted(heap, root, shape, compare, p, t, k);
      LinkAndFix(x, z, p, Entry(k, v));
      return SUCCESS;
    }

    /** `malloc`: an address not in use, here filled with a fresh red node. */
    method NewNode(k: Key, v: Value) returns (x: Ref)
      requires Valid()
      modifies this`heap
      ensures Valid() && x > NIL && x !in old(heap) && x !in Refs(shape)
      ensures x in heap && heap[x] == Cell(NIL, NIL, heap[x].parent, Red, k, v)
      ensures heap == old(heap)[x := heap[x]] && Strays() == old(Strays()) + {x}
    {
      SomeUnused(heap);
      ghost var h := heap;
      RepNodes(heap, root, NULL, shape);
      x :| x > NIL && x !in heap;
      var junk: Ref := *;
      heap := heap[x := Cell(NIL, NIL, junk, Red, k, v)];
      RepKept(h, heap, {}, root, NULL, shape);
    }

    /** The end of an insertion, once the descent has found the hole. */
    method LinkAndFix(x: Ref, z: Ref, ghost p: Path, ghost e: Entry)
      requires Valid() && Searching(heap, root, shape, compare, p, NIL, Leaf, e.key)
      requires x > NIL && x in heap && x !in Refs(shape) && z == Holder(p)
      requires heap[x] == Cell(NIL, NIL, heap[x].parent, Red, e.key, e.value)
      modifies this
      ensures Valid() && Contents() == old(Contents())[e.key := e.value]
      ensures heap.Keys == old(heap.Keys) && Refs(shape) == old(Refs(shape)) + {x}
    {
      hide At, TotalOrder, Sorted, MapOf, RedBlack, Around;
      ghost var t := Branch(Leaf, x, Red, e, Leaf);
      Link(x, z, p, e);
      Filled(compare, p, t, e);
      InsertFixup(x, p, t);
      var ok := DebugVerify();
      assert ok;
    }

    /** Hangs the fresh node `x` below `z`, on the side its key belongs to. */
    method Link(x: Ref, z: Ref, ghost p: Path, ghost e: Entry)
      requires At(heap, root, p, NIL, Leaf) && NIL in heap && TotalOrder(compare) && Around(compare, p, e.key)
      requires x > NIL && x in heap && x !in PathRefs(p) && z == Holder(p)
      requires heap[x] == Cell(NIL, NIL, heap[x].parent, Red, e.key, e.value)
      modifies this`heap, this`root
      ensures At(heap, root, p, x, Branch(Leaf, x, Red, e, Leaf))
      ensures SameLabels(old(heap), heap)
    {
      ghost var h, root0 := heap, root;
      PathNodes(h, root, NIL, p);
      heap := SetParent(heap, x, z);
      if z != NULL {
        SideOfKey(compare, p, e.key);
        var c := compare(heap[x].key, heap[z].key);
        if c < 0 {
          heap := SetLeft(heap, z, x);
        } else {
          heap := SetRight(heap, z, x);
        }
      } else {
        root := x;
      }
      Hung(h, heap, root0, root, p, x, e);
    }

    /** After the last case the loop jumps to the root. */
    method Restart(ghost p: Path, ghost w: Ref, ghost t: Tree) returns (x: Ref, ghost p': Path, ghost t': Tree)
      requires At(heap, root, p, w, t) && Fits(p, t)
      ensures x == root && p' == Top && At(heap, root, p', x, t') && RemoveInv(p', t')
      ensures All(p', t') == All(p, t) && Nodes(p', t') == Nodes(p, t)
      ensures x in heap && (t.Branch? ==> heap[x].parent == NULL)
    {
      ToTop(heap, root, p, w, t);
      PlugRedBlack(p, t);
      x, p', t' := root, Top, Plug(p, t);
      Parts(heap, root, p', x, t');
      RestKeeps(t');
      assert All(Top, t') == Entries(t');
    }

    // ------------------------------------------------------------------ removal

    /** Case 1, red sibling: recolour, rotate the parent left, and the hole sinks. */
    method LowerLeft(x: Ref, w: Ref, ghost p: Path, ghost t: Tree) returns (ghost p': Path)
      requires At(heap, root, p, x, t) && p.InLeft? && Sibling(p).Branch?
      requires x in heap && heap[x].parent == p.node && w == Sibling(p).node && Near(p).Branch?
      modifies this`heap, this`root
      ensures p' == Lowered(p) && At(heap, root, p', x, t)
      ensures All(p', t) == All(p, t) && Nodes(p', t) == Nodes(p, t)
      ensures SameLabels(old(heap), heap)
    {
      hide At, All, Nodes;
      Parts(heap, root, p, x, t);
      Across(heap, root, p, x, t);
      Parts(heap, root, Opposite(p, t), w, Sibling(p));
      Paint(w, Black, Opposite(p, t), Sibling(p));
      ghost var s := Painted(Sibling(p), Black);
      Up(heap, root, Opposite(p, t), w, s);
      ghost var q := Joined(Opposite(p, t), s);
      Paint(heap[x].parent, Red, p.up, q);
      q := Painted(q, Red);
      LeftRotateAt(heap[x].parent, p.up, q);
      ghost var r := RotatedLeft(q);
      p' := DownLeft(heap, root, p.up, w, r);
      Parts(heap, root, p', heap[w].left, r.left);
      p' := DownLeft(heap, root, p', heap[w].left, r.left);
      Parts(heap, root, p', heap[heap[w].left].left, t);
    }

    /** Case 2, the sibling and both its children black: the sibling turns red. */
    method AbsorbLeft(x: Ref, w: Ref, ghost p: Path, ghost t: Tree)
      requires At(heap, root, p, x, t) && p.InLeft? && Sibling(p).Branch? && w == Sibling(p).node
      modifies this`heap
      ensures At(heap, root, p.up, p.node, Absorbed(p, t))
      ensures All(p.up, Absorbed(p, t)) == All(p, t) && Nodes(p.up, Absorbed(p, t)) == Nodes(p, t)
      ensures w in old(heap) && w != NIL && heap == SetColor(old(heap), w, Red)
    {
      hide At, All, Nodes;
      Across(heap, root, p, x, t);
      Parts(heap, root, Opposite(p, t), heap[p.node].right, Sibling(p));
      Paint(w, Red, Opposite(p, t), Sibling(p));
      Up(heap, root, Opposite(p, t), w, Painted(Sibling(p), Red));
    }

    /** Case 3, only the near child of the sibling red: it takes the sibling's place. */
    method StraightenLeft(x: Ref, w: Ref, ghost p: Path, ghost t: Tree) returns (ghost p': Path)
      requires At(heap, root, p, x, t) && p.InLeft? && Sibling(p).Branch? && w == Sibling(p).node && Near(p).Branch?
      modifies this`heap, this`root
      ensures p' == WithSibling(p, Straightened(p)) && At(heap, root, p', x, t)
      ensures All(p', t) == All(p, t) && Nodes(p', t) == Nodes(p, t)
      ensures SameLabels(old(heap), heap)
    {
      hide At, All, Nodes;
      Parts(heap, root, p, x, t);
      Across(heap, root, p, x, t);
      ghost var o, s := Opposite(p, t), Sibling(p);
      Parts(heap, root, o, heap[p.node].right, s);
      ghost var q := DownLeft(heap, root, o, w, s);
      Parts(heap, root, q, heap[w].left, s.left);
      Paint(heap[w].left, Black, q, s.left);
      Up(heap, root, q, heap[w].left, Painted(s.left, Black));
      s := Joined(q, Painted(s.left, Black));
      Paint(w, Red, o, s);
      s := Painted(s, Red);
      RightRotateAt(w, o, s);
      Across(heap, root, o, s.left.node, RotatedRight(s));
      p' := Opposite(o, RotatedRight(s));
      Parts(heap, root, p', heap[p.node].left, t);
    }

    method BlackenRight(w: Ref, ghost p: Path, ghost t: Tree)
      requires At(heap, root, p, w, t) && t.Branch? && t.right.Branch? && w in heap
      modifies this`heap
      ensures var t' := t.(right := Painted(t.right, Black));
        At(heap, root, p, w, t') && All(p, t') == All(p, t) && Nodes(p, t') == Nodes(p, t)
      ensures SameLinks(old(heap), heap)
    {
      hide At, All, Nodes, SameLinks, SetColor;
      Parts(heap, root, p, w, t);
      ghost var f := DownRight(heap, root, p, w, t);
      Parts(heap, root, f, heap[w].right, t.right);
      Paint(heap[w].right, Black, f, t.right);
      Up(heap, root, f, heap[w].right, Painted(t.right, Black));
    }

    /** Case 4, the far child of the sibling red: a rotation supplies the missing black. */
    method SettleLeft(x: Ref, w: Ref, ghost p: Path, ghost t: Tree)
      requires At(heap, root, p, x, t) && p.InLeft? && Sibling(p).Branch? && w == Sibling(p).node && Far(p).Branch?
      requires x in heap && heap[x].parent == p.node && p.node in heap && heap[p.node].color == p.color
      modifies this`heap, this`root
      ensures At(heap, root, p.up, w, Settled(p, t))
      ensures All(p.up, Settled(p, t)) == All(p, t) && Nodes(p.up, Settled(p, t)) == Nodes(p, t)
      ensures SameLabels(old(heap), heap)
    {
      hide At, All, Nodes, SameLinks, SameLabels, SetColor;
      Parts(heap, root, p, x, t);
      Across(heap, root, p, x, t);
      ghost var o, s, h0 := Opposite(p, t), Sibling(p), heap;
      Parts(heap, root, o, heap[p.node].right, s);
      Paint(w, heap[heap[x].parent].color, o, s);
      s := Painted(s, p.color);
      ghost var h1 := heap;
      LinkOf(h0, h1, x);
      Up(heap, root, o, w, s);
      Paint(heap[x].parent, Black, p.up, Joined(o, s));
      LinksJoin(h0, h1, heap);
      ghost var n := Painted(Joined(o, s), Black);
      o := DownRight(heap, root, p.up, p.node, n);
      Parts(heap, root, o, heap[p.node].right, s);
      h1 := heap;
      BlackenRight(w, o, s);
      LinksJoin(h0, h1, heap);
      h1 := heap;
      LinkOf(h0, h1, x);
      s := s.(right := Painted(s.right, Black));
      Up(heap, root, o, w, s);
      LeftRotateAt(heap[x].parent, p.up, Joined(o, s));
      LabelsKept(h0, h1);
      LabelsJoin(h0, h1, heap);
    }

    /** The sibling `w` is black: cases 2, 3 and 4. */
    method RemoveStepBlackLeft(x: Ref, w0: Ref, ghost p: Path, ghost t: Tree)
      returns (x': Ref, ghost p': Path, ghost t': Tree)
      requires At(heap, root, p, x, t) && Sentinel(heap)
      requires RemoveInv(p, t) && RootColor(t) == Black && p.InLeft?
      requires Sibling(p).Branch? && w0 == Sibling(p).node && Sibling(p).color == Black
      requires x in heap && heap[x].parent == p.node
      modifies this`heap, this`root
      ensures At(heap, root, p', x', t') && SameLabels(old(heap), heap)
      ensures RemoveInv(p', t') && x' in heap && heap[x'].parent == Holder(p')
      ensures p' == Top || (p' == p.up && (p.color == Red ==> RootColor(t') == Red))
      ensures All(p', t') == All(p, t) && Nodes(p', t') == Nodes(p, t)
    {
      hide At, All, Nodes, RemoveInv, RedBlack, Fits;
      var w, q := w0, p;
      Parts(heap, root, p, x, t);
      Glance(heap, root, p, x, t);
      if heap[heap[w].left].color == Black && heap[heap[w].right].color == Black {
        AbsorbedKeeps(p, t);
        AbsorbLeft(x, w, p, t);
        x', p', t' := heap[x].parent, p.up, Absorbed(p, t);
        Parts(heap, root, p', x', t');
      } else {
        if heap[heap[w].right].color == Black {
          StraightenedKeeps(p, t);
          q := StraightenLeft(x, w, p, t);
          Parts(heap, root, q, x, t);
          w := heap[heap[x].parent].right;
        }
        SettledFits(q, t);
        SettleLeft(x, w, q, t);
        x', p', t' := Restart(q.up, w, Settled(q, t));
      }
    }

    /** One turn of the removal loop when `x`, which carries one extra black, is a
        left child. */
    method RemoveStepLeft(x: Ref, ghost p: Path, ghost t: Tree) returns (x': Ref, ghost p': Path, ghost t': Tree)
      requires At(heap, root, p, x, t) && Sentinel(heap)
      requires RemoveInv(p, t) && RootColor(t) == Black && p.InLeft?
      requires x in heap && heap[x].parent == p.node
      modifies this`heap, this`root
      ensures At(heap, root, p', x', t') && SameLabels(old(heap), heap)
      ensures RemoveInv(p', t') && Burden(p', t') < Burden(p, t)
      ensures x' in heap && heap[x'].parent == Holder(p')
      ensures All(p', t') == All(p, t) && Nodes(p', t') == Nodes(p, t)
    {
      hide At, All, Nodes, RemoveInv;
      ghost var q := p;
      Parts(heap, root, p, x, t);
      SiblingExists(p, t);
      Glance(heap, root, p, x, t);
      var w := heap[heap[x].parent].right;
      if heap[w].color == Red {
        LoweredKeeps(p, t);
        q := LowerLeft(x, w, p, t);
        Parts(heap, root, q, x, t);
        SiblingExists(q, t);
        w := heap[heap[x].parent].right;
      }
      x', p', t' := RemoveStepBlackLeft(x, w, q, t);
    }

    /** Case 1, red sibling: recolour, rotate the parent right, and the hole sinks. */
    method LowerRight(x: Ref, w: Ref, ghost p: Path, ghost t: Tree) returns (ghost p': Path)
      requires At(heap, root, p, x, t) && p.InRight? && Sibling(p).Branch?
      requires x in heap && heap[x].parent == p.node && w == Sibling(p).node && Near(p).Branch?
      modifies this`heap, this`root
      ensures p' == Lowered(p) && At(heap, root, p', x, t)
      ensures All(p', t) == All(p, t) && Nodes(p', t) == Nodes(p, t)
      ensures SameLabels(old(heap), heap)
    {
      hide At, All, Nodes;
      Parts(heap, root, p, x, t);
      Across(heap, root, p, x, t);
      Parts(heap, root, Opposite(p, t), w, Sibling(p));
      Paint(w, Black, Opposite(p, t), Sibling(p));
      ghost var s := Painted(Sibling(p), Black);
      Up(heap, root, Opposite(p, t), w, s);
      ghost var q := Joined(Opposite(p, t), s);
      Paint(heap[x].parent, Red, p.up, q);
      q := Painted(q, Red);
      RightRotateAt(heap[x].parent, p.up, q);
      ghost var r := RotatedRight(q);
      p' := DownRight(heap, root, p.up, w, r);
      Parts(heap, root, p', heap[w].right, r.right);
      p' := DownRight(heap, root, p', heap[w].right, r.right);
      Parts(heap, root, p', heap[heap[w].right].right, t);
    }

    /** Case 2, the sibling and both its children black: the sibling turns red. */
    method AbsorbRight(x: Ref, w: Ref, ghost p: Path, ghost t: Tree)
      requires At(heap, root, p, x, t) && p.InRight? && Sibling(p).Branch? && w == Sibling(p).node
      modifies this`heap
      ensures At(heap, root, p.up, p.node, Absorbed(p, t))
      ensures All(p.up, Absorbed(p, t)) == All(p, t) && Nodes(p.up, Absorbed(p, t)) == Nodes(p, t)
      ensures w in old(heap) && w != NIL && heap == SetColor(old(heap), w, Red)
    {
      hide At, All, Nodes;
      Across(heap, root, p, x, t);
      Parts(heap, root, Opposite(p, t), heap[p.node].left, Sibling(p));
      Paint(w, Red, Opposite(p, t), Sibling(p));
      Up(heap, root, Opposite(p, t), w, Painted(Sibling(p), Red));
    }

    /** Case 3, only the near child of the sibling red: it takes the sibling's place. */
    method StraightenRight(x: Ref, w: Ref, ghost p: Path, ghost t: Tree) returns (ghost p': Path)
      requires At(heap, root, p, x, t) && p.InRight? && Sibling(p).Branch? && w == Sibling(p).node && Near(p).Branch?
      modifies this`heap, this`root
      ensures p' == WithSibling(p, Straightened(p)) && At(heap, root, p', x, t)
      ensures All(p', t) == All(p, t) && Nodes(p', t) == Nodes(p, t)
      ensures SameLabels(old(heap), heap)
    {
      hide At, All, Nodes;
      Parts(heap, root, p, x, t);
      Across(heap, root, p, x, t);
      ghost var o, s := Opposite(p, t), Sibling(p);
      Parts(heap, root, o, heap[p.node].left, s);
      ghost var q := DownRight(heap, root, o, w, s);
      Parts(heap, root, q, heap[w].right, s.right);
      Paint(heap[w].right, Black, q, s.right);
      Up(heap, root, q, heap[w].right, Painted(s.right, Black));
      s := Joined(q, Painted(s.right, Black));
      Paint(w, Red, o, s);
      s := Painted(s, Red);
      LeftRotateAt(w, o, s);
      Across(heap, root, o, s.right.node, RotatedLeft(s));
      p' := Opposite(o, RotatedLeft(s));
      Parts(heap, root, p', heap[p.node].right, t);
    }

    method BlackenLeft(w: Ref, ghost p: Path, ghost t: Tree)
      requires At(heap, root, p, w, t) && t.Branch? && t.left.Branch? && w in heap
      modifies this`heap
      ensures var t' := t.(left := Painted(t.left, Black));
        At(heap, root, p, w, t') && All(p, t') == All(p, t) && Nodes(p, t') == Nodes(p, t)
      ensures SameLinks(old(heap), heap)
    {
      hide At, All, Nodes, SameLinks, SetColor;
      Parts(heap, root, p, w, t);
      ghost var f := DownLeft(heap, root, p, w, t);
      Parts(heap, root, f, heap[w].left, t.left);
      Paint(heap[w].left, Black, f, t.left);
      Up(heap, root, f, heap[w].left, Painted(t.left, Black));
    }

    /** Case 4, the far child of the sibling red: a rotation supplies the missing black. */
    method SettleRight(x: Ref, w: Ref, ghost p: Path, ghost t: Tree)
      requires At(heap, root, p, x, t) && p.InRight? && Sibling(p).Branch? && w == Sibling(p).node && Far(p).Branch?
      requires x in heap && heap[x].parent == p.node && p.node in heap && heap[p.node].color == p.color
      modifies this`heap, this`root
      ensures At(heap, root, p.up, w, Settled(p, t))
      ensures All(p.up, Settled(p, t)) == All(p, t) && Nodes(p.up, Settled(p, t)) == Nodes(p, t)
      ensures SameLabels(old(heap), heap)
    {
      hide At, All, Nodes, SameLinks, SameLabels, SetColor;
      Parts(heap, root, p, x, t);
      Across(heap, root, p, x, t);
      ghost var o, s, h0 := Opposite(p, t), Sibling(p), heap;
      Parts(heap, root, o, heap[p.node].left, s);
      Paint(w, heap[heap[x].parent].color, o, s);
      s := Painted(s, p.color);
      ghost var h1 := heap;
      LinkOf(h0, h1, x);
      Up(heap, root, o, w, s);
      Paint(heap[x].parent, Black, p.up, Joined(o, s));
      LinksJoin(h0, h1, heap);
      ghost var n := Painted(Joined(o, s), Black);
      o := DownLeft(heap, root, p.up, p.node, n);
      Parts(heap, root, o, heap[p.node].left, s);
      h1 := heap;
      BlackenLeft(w, o, s);
      LinksJoin(h0, h1, heap);
      h1 := heap;
      LinkOf(h0, h1, x);
      s := s.(left := Painted(s.left, Black));
      Up(heap, root, o, w, s);
      RightRotateAt(heap[x].parent, p.up, Joined(o, s));
      LabelsKept(h0, h1);
      LabelsJoin(h0, h1, heap);
    }

    /** The sibling `w` is black: cases 2, 3 and 4. */
    method RemoveStepBlackRight(x: Ref, w0: Ref, ghost p: Path, ghost t: Tree)
      returns (x': Ref, ghost p': Path, ghost t': Tree)
      requires At(heap, root, p, x, t) && Sentinel(heap)
      requires RemoveInv(p, t) && RootColor(t) == Black && p.InRight?
      requires Sibling(p).Branch? && w0 == Sibling(p).node && Sibling(p).color == Black
      requires x in heap && heap[x].parent == p.node
      modifies this`heap, this`root
      ensures At(heap, root, p', x', t') && SameLabels(old(heap), heap)
      ensures RemoveInv(p', t') && x' in heap && heap[x'].parent == Holder(p')
      ensures p' == Top || (p' == p.up && (p.color == Red ==> RootColor(t') == Red))
      ensures All(p', t') == All(p, t) && Nodes(p', t') == Nodes(p, t)
    {
      hide At, All, Nodes, RemoveInv, RedBlack, Fits;
      var w, q := w0, p;
      Parts(heap, root, p, x, t);
      Glance(heap, root, p, x, t);
      if heap[heap[w].right].color == Black && heap[heap[w].left].color == Black {
        AbsorbedKeeps(p, t);
        AbsorbRight(x, w, p, t);
        x', p', t' := heap[x].parent, p.up, Absorbed(p, t);
        Parts(heap, root, p', x', t');
      } else {
        if heap[heap[w].left].color == Black {
          StraightenedKeeps(p, t);
          q := StraightenRight(x, w, p, t);
          Parts(heap, root, q, x, t);
          w := heap[heap[x].parent].left;
        }
        SettledFits(q, t);
        SettleRight(x, w, q, t);
        x', p', t' := Restart(q.up, w, Settled(q, t));
      }
    }

    /** One turn of the removal loop when `x`, which carries one extra black, is a
        right child. */
    method RemoveStepRight(x: Ref, ghost p: Path, ghost t: Tree) returns (x': Ref, ghost p': Path, ghost t': Tree)
      requires At(heap, root, p, x, t) && Sentinel(heap)
      requires RemoveInv(p, t) && RootColor(t) == Black && p.InRight?
      requires x in heap && heap[x].parent == p.node
      modifies this`heap, this`root
      ensures At(heap, root, p', x', t') && SameLabels(old(heap), heap)
      ensures RemoveInv(p', t') && Burden(p', t') < Burden(p, t)
      ensures x' in heap && heap[x'].parent == Holder(p')
      ensures All(p', t') == All(p, t) && Nodes(p', t') == Nodes(p, t)
    {
      hide At, All, Nodes, RemoveInv;
      ghost var q := p;
      Parts(heap, root, p, x, t);
      SiblingExists(p, t);
      Glance(heap, root, p, x, t);
      var w := heap[heap[x].parent].left;
      if heap[w].color == Red {
        LoweredKeeps(p, t);
        q := LowerRight(x, w, p, t);
        Parts(heap, root, q, x, t);
        SiblingExists(q, t);
        w := heap[heap[x].parent].left;
      }
      x', p', t' := RemoveStepBlackRight(x, w, q, t);
    }

    /** Pays back the extra black that `x0` carries. */
    method RemoveFixup(x0: Ref, ghost p0: Path, ghost t0: Tree)
      requires At(heap, root, p0, x0, t0) && Sentinel(heap)
      requires RemoveInv(p0, t0) && x0 in heap && heap[x0].parent == Holder(p0)
      modifies this
      ensures At(heap, root, Top, root, shape) && RedBlack(shape)
      ensures Entries(shape) == All(p0, t0) && Refs(shape) == Nodes(p0, t0)
      ensures SameLabels(old(heap), heap)
    {
      hide All, Nodes, At, RemoveInv, RedBlack;
      var x := x0;
      ghost var p, t := p0, t0;
      ColorOf(heap, root, p, x, t);
      Rooted(heap, root, p, x, t);
      while x != root && heap[x].color == Black
        invariant At(heap, root, p, x, t) && SameLabels(old(heap), heap)
        invariant RemoveInv(p, t) && x in heap && heap[x].parent == Holder(p)
        invariant All(p, t) == All(p0, t0) && Nodes(p, t) == Nodes(p0, t0)
        invariant (x == root <==> p.Top?) && heap[x].color == RootColor(t)
        decreases Burden(p, t)
      {
        SiblingExists(p, t);
        Side(heap, root, p, x, t);
        if x == heap[heap[x].parent].left {
          x, p, t := RemoveStepLeft(x, p, t);
        } else {
          x, p, t := RemoveStepRight(x, p, t);
        }
        ColorOf(heap, root, p, x, t);
        Rooted(heap, root, p, x, t);
      }
      RemoveDone(p, t);
      PlugRedBlack(p, Painted(t, Black));
      Parts(heap, root, p, x, t);
      Blacken(x, p, t);
      ToTop(heap, root, p, x, Painted(t, Black));
      shape := Plug(p, Painted(t, Black));
    }

    /** The last assignment of the removal loop; `x` may be the sentinel. */
    method Blacken(x: Ref, ghost p: Path, ghost t: Tree)
      requires At(heap, root, p, x, t) && Sentinel(heap)
      modifies this`heap
      ensures At(heap, root, p, x, Painted(t, Black)) && SameLabels(old(heap), heap)
      ensures All(p, Painted(t, Black)) == All(p, t) && Nodes(p, Painted(t, Black)) == Nodes(p, t)
    {
      Parts(heap, root, p, x, t);
      if t.Branch? {
        Repainted(heap, SetColor(heap, x, Black), root, p, x, t, Black);
      } else {
        assert SetColor(heap, x, Black) == heap;
      }
      heap := SetColor(heap, x, Black);
    }

    /** The node to unlink: `z` itself, or the first node to its right when it has
        two children. */
    method FindSplice(z: Ref, ghost p: Path, ghost t: Tree) returns (y: Ref, ghost q: Path, ghost u: Tree)
      requires At(heap, root, p, z, t) && t.Branch? && Fits(p, t)
      ensures At(heap, root, q, y, u) && u.Branch? && (u.left.Leaf? || u.right.Leaf?) && Fits(q, u)
      ensures All(q, u) == All(p, t) && Nodes(q, u) == Nodes(p, t)
      ensures z in heap && y in heap && (heap[y].left == NIL || heap[y].right == NIL)
      ensures y == z <==> heap[z].left == NIL || heap[z].right == NIL
      ensures y == z ==> q == p && u == t
      ensures y != z ==> u.left.Leaf? && t.right.Branch? && LeftTurns(q, InRight(t.left, z, t.color, t.entry, p))
    {
      hide At, All, Nodes, Fits;
      Parts(heap, root, p, z, t);
      ChildRefs(heap, root, p, z, t);
      if heap[z].left == NIL || heap[z].right == NIL {
        y, q, u := z, p, t;
      } else {
        FitsBelow(p, t);
        y, u := heap[z].right, t.right;
        q := DownRight(heap, root, p, z, t);
        ghost var base := q;
        Parts(heap, root, q, y, u);
        ChildRefs(heap, root, q, y, u);
        while heap[y].left != NIL
          modifies {}
          invariant At(heap, root, q, y, u) && u.Branch? && Fits(q, u)
          invariant y in heap && (heap[y].left == NIL <==> u.left.Leaf?)
          invariant All(q, u) == All(p, t) && Nodes(q, u) == Nodes(p, t) && LeftTurns(q, base)
          decreases u
        {
          FitsBelow(q, u);
          Parts(heap, root, q, y, u);
          q := DownLeft(heap, root, q, y, u);
          y, u := heap[y].left, u.left;
          Parts(heap, root, q, y, u);
          ChildRefs(heap, root, q, y, u);
        }
        BelowDiffers(heap, root, q, y, u, base);
      }
    }

    /** Bypasses `y` in favour of its only child `x`, writing the parent link even
        when that child is the sentinel. */
    method Splice(y: Ref, ghost p: Path, ghost t: Tree) returns (x: Ref)
      requires At(heap, root, p, y, t) && t.Branch? && (t.left.Leaf? || t.right.Leaf?)
      requires Sentinel(heap)
      modifies this`heap, this`root
      ensures At(heap, root, p, x, OnlyChild(t)) && x in heap && heap[x].parent == Holder(p)
      ensures y in old(heap) && y in heap && heap[y] == old(heap[y]) && y > NIL
      ensures y in Nodes(p, t) && Nodes(p, OnlyChild(t)) == Nodes(p, t) - {y}
      ensures heap.Keys == old(heap.Keys) && Sentinel(heap)
      ensures forall n :: n in heap ==> heap[n].key == old(heap)[n].key && heap[n].value == old(heap)[n].value
    {
      ghost var h, root0 := heap, root;
      Parts(h, root, p, y, t);
      ChildRefs(h, root, p, y, t);
      Links(h, root, p, y, t);
      if heap[y].left != NIL {
        x := heap[y].left;
      } else {
        x := heap[y].right;
      }
      heap := SetParent(heap, x, heap[y].parent);
      if heap[y].parent != NULL {
        if y == heap[heap[y].parent].left {
          heap := SetLeft(heap, heap[y].parent, x);
        } else {
          heap := SetRight(heap, heap[y].parent, x);
        }
      } else {
        root := x;
      }
      Spliced(h, heap, root0, root, p, y, t, x);
    }

    /** Exchanges the contents of the unlinked node `y` with those of `z`, which
        is still on the path. */
    method Trade(z: Ref, y: Ref, ghost p: Path, ghost x: Ref, ghost t: Tree, ghost e: Entry)
      requires At(heap, root, p, x, t) && OnPath(p, z) && z in PathRefs(p)
      requires y > NIL && y in heap && y !in Nodes(p, t) && e == Entry(heap[y].key, heap[y].value)
      modifies this`heap
      ensures At(heap, root, Relabelled(p, z, e), x, t) && Nodes(Relabelled(p, z, e), t) == Nodes(p, t)
      ensures y != z && y in heap && z in old(heap)
      ensures heap[y].key == old(heap[z]).key && heap[y].value == old(heap[z]).value
      ensures heap[y].color == old(heap[y]).color
      ensures heap.Keys == old(heap.Keys) && NIL in heap && heap[NIL] == old(heap[NIL])
      ensures x in heap && heap[x].parent == old(heap[x].parent)
    {
      ghost var h := heap;
      PathNodes(h, root, x, p);
      Parts(h, root, p, x, t);
      var k, v := heap[z].key, heap[z].value;
      heap := heap[z := heap[z].(key := heap[y].key, value := heap[y].value)];
      heap := heap[y := heap[y].(key := k, value := v)];
      EntryMoved(h, heap, root, p, x, t, z, y, e);
    }

    /** Unlinks one node so that the entry at `z` disappears; the returned node
        holds that entry and is out of the tree, but still allocated. */
    method RemoveNode(z: Ref, ghost p: Path, ghost t: Tree) returns (y: Ref)
      requires Valid() && t.Branch? && Searching(heap, root, shape, compare, p, z, t, t.entry.key)
      modifies this
      ensures Valid() && Contents() == old(Contents()) - {t.entry.key}
      ensures y in old(Refs(shape)) && Refs(shape) == old(Refs(shape)) - {y}
      ensures heap.Keys == old(heap.Keys) && y in heap
      ensures heap[y].key == t.entry.key && heap[y].value == t.entry.value
    {
      hide At, RemoveInv, RedBlack, Fits, TotalOrder, Sorted, MapOf, Around, All, Nodes;
      ghost var q, u;
      Parts(heap, root, p, z, t);
      y, q, u := FindSplice(z, p, t);
      ghost var c, e := OnlyChild(u), u.entry;
      SplicedOut(q, u);
      Parts(heap, root, q, y, u);
      var x := Splice(y, q, u);
      if y != z {
        RelabelledAll(q, InRight(t.left, z, t.color, t.entry, p), z, e);
        DroppedBelow(compare, p, t, q, u);
        RelabelledFits(q, z, e, c);
        Trade(z, y, q, x, c, e);
        q := Relabelled(q, z, e);
      } else {
        DroppedHere(compare, p, t);
      }
      if heap[y].color == Black {
        RemoveFixup(x, q, c);
      } else {
        ToTop(heap, root, q, x, c);
        PlugRedBlack(q, c);
        shape := Plug(q, c);
        WholeTree(shape);
      }
      var ok := DebugVerify();
      assert ok;
    }

    /** Removes the key, if present, and hands back the node that holds the removed
        pair; it stays allocated until the caller frees it. */
    method Remove(key: Key) returns (y: Ref)
      requires Valid()
      modifies this
      ensures Valid() && Contents() == old(Contents()) - {key}
      ensures y == NULL <==> key !in old(Contents())
      ensures y == NULL ==> shape == old(shape) && root == old(root) && heap == old(heap)
      ensures y != NULL ==>
        && y in heap && heap[y].key == key && heap[y].value == old(Contents())[key]
        && y !in old(Strays()) && Strays() == old(Strays()) + {y}
    {
      hide At, TotalOrder, Sorted, MapOf, RedBlack;
      var z := root;
      ghost var p, t := Top, shape;
      Begin(heap, root, shape, compare, key);
      while z != NIL
        modifies {}
        invariant Searching(heap, root, shape, compare, p, z, t, key)
        decreases t
      {
        ghost var q, t' := Turn(heap, root, shape, compare, p, z, t, key);
        var c := compare(key, heap[z].key);
        if c == 0 {
          break;
        } else {
          z := if c < 0 then heap[z].left else heap[z].right;
          p, t := q, t';
        }
      }
      if z == NIL {
        Exhausted(heap, root, shape, compare, p, t, key);
        return NULL;
      }
      ghost var q, t' := Turn(heap, root, shape, compare, p, z, t, key);
      AllNodes(heap, root, Top, root, shape);
      y := RemoveNode(z, p, t);
    }

    /** `free`, of a node that is not linked in the tree. */
    method Free(x: Ref)
      requires Valid() && x in Strays()
      modifies this`heap
      ensures Valid() && Strays() == old(Strays()) - {x}
    {
      ghost var h := heap;
      heap := heap - {x};
      RepKept(h, heap, {x}, root, NULL, shape);
    }

    // ------------------------------------------------- the tree's own self-check

    function NodeColor(n: Ref): Color
      requires n == NIL || n in heap
      reads this
    {
      if n == NIL then Black else heap[n].color
    }

    /** Every red node has black children and a black parent. */
    method VerifyProperty4(n: Ref, ghost p: Path, ghost t: Tree) returns (ok: bool)
      requires At(heap, root, p, n, t) && (RootColor(t) == Red ==> !p.Top?)
      ensures ok <==> NoRedRed(t) && (RootColor(t) == Red ==> p.color == Black)
      decreases t
    {
      hide At;
      ok := true;
      Parts(heap, root, p, n, t);
      ChildRefs(heap, root, p, n, t);
      if n == NIL {
        return;
      }
      ghost var pl := DownLeft(heap, root, p, n, t);
      ghost var pr := DownRight(heap, root, p, n, t);
      Parts(heap, root, pl, heap[n].left, t.left);
      Parts(heap, root, pr, heap[n].right, t.right);
      if NodeColor(n) == Red {
        ok := NodeColor(heap[n].left) == Black && NodeColor(heap[n].right) == Black
          && NodeColor(heap[n].parent) == Black;
      }
      var okLeft := VerifyProperty4(heap[n].left, pl, t.left);
      var okRight := VerifyProperty4(heap[n].right, pr, t.right);
      ok := ok && okLeft && okRight;
    }

    /** All paths to the sentinel below `n` have one black count; `path` is that of
        the paths seen so far, or -1. */
    method VerifyProperty5(n: Ref, blackCount: int, path: int, ghost p: Path, ghost t: Tree)
      returns (ok: bool, path': int)
      requires At(heap, root, p, n, t) && blackCount >= 0
      ensures ok <==> Balanced(t) && (path == -1 || path == blackCount + BlackHeight(t) + 1)
      ensures ok ==> path' == blackCount + BlackHeight(t) + 1
      decreases t
    {
      hide At;
      Parts(heap, root, p, n, t);
      ChildRefs(heap, root, p, n, t);
      var count := if NodeColor(n) == Black then blackCount + 1 else blackCount;
      if n == NIL {
        if path == -1 {
          return true, count;
        }
        return count == path, path;
      }
      ghost var pl := DownLeft(heap, root, p, n, t);
      ghost var pr := DownRight(heap, root, p, n, t);
      ok, path' := VerifyProperty5(heap[n].left, count, path, pl, t.left);
      if ok {
        ok, path' := VerifyProperty5(heap[n].right, count, path', pr, t.right);
      }
    }

    /** The checks that run after every insertion and removal pass exactly on
        red-black trees; here a failed assertion is the answer false. */
    method DebugVerify() returns (ok: bool)
      requires At(heap, root, Top, root, shape) && Sentinel(heap)
      ensures ok <==> RedBlack(shape)
    {
      ColorOf(heap, root, Top, root, shape);
      if NodeColor(root) != Black {
        return false;
      }
      ok := VerifyProperty4(root, Top, shape);
      if ok {
        var count;
        ok, count := VerifyProperty5(root, 0, -1, Top, shape);
      }
    }
  }
}
