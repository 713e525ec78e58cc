/** When a heap of nodes with parent pointers spells out a picture, and what each
    local change of links, colours or contents does to the picture. */
module RedBlackHeap {
  import opened RedBlackTheory
  import opened KeyOrder
  import opened Addresses

  /** The heap below `x` spells out the picture `t`, hanging from `parent`. */
  ghost predicate Rep(h: Heap, x: Ref, parent: Ref, t: Tree)
    decreases t
  {
    match t
    case Leaf => x == NIL
    case Branch(l, n, c, e, r) =>
      var here := x == n && n > NIL && n in h && h[n] == Cell(h[n].left, h[n].right, parent, c, e.key, e.value);
      here && Rep(h, h[n].left, n, l) && Rep(h, h[n].right, n, r)
  }

  function Holder(p: Path): Ref {
    if p.Top? then NULL else p.node
  }

  /** The heap around the hole, in which `x` sits, spells out the path `p`. */
  ghost predicate PathRep(h: Heap, root: Ref, x: Ref, p: Path)
    decreases p
  {
    match p
    case Top => x == root
    case InLeft(up, n, c, e, r) =>
      var here := n > NIL && n in h && h[n] == Cell(x, h[n].right, Holder(up), c, e.key, e.value);
      here && Rep(h, h[n].right, n, r) && PathRep(h, root, n, up)
    case InRight(l, n, c, e, up) =>
      var here := n > NIL && n in h && h[n] == Cell(h[n].left, x, Holder(up), c, e.key, e.value);
      here && Rep(h, h[n].left, n, l) && PathRep(h, root, n, up)
  }

  /** The shared sentinel is black and its own child; its parent link is scratch. */
  predicate Sentinel(h: Heap) {
    var present := NIL in h;
    present && h[NIL] == Cell(NIL, NIL, h[NIL].parent, Black, h[NIL].key, h[NIL].value)
  }

  /** `x` is the root of subtree `t`, and `p` is the rest of the tree. */
  ghost predicate At(h: Heap, root: Ref, p: Path, x: Ref, t: Tree) {
    var apart := NIL in h && PathDistinct(p) && Distinct(t) && PathRefs(p) !! Refs(t);
    var drawn := Rep(h, x, Holder(p), t) && PathRep(h, root, x, p);
    apart && drawn
  }

  // ------------------------------------------------ moving the point of view

  lemma Up(h: Heap, root: Ref, p: Path, x: Ref, t: Tree)
    requires At(h, root, p, x, t) && !p.Top?
    ensures At(h, root, p.up, p.node, Joined(p, t))
    ensures All(p.up, Joined(p, t)) == All(p, t) && Nodes(p.up, Joined(p, t)) == Nodes(p, t)
    ensures p.node in h && (t.Branch? ==> h[x].parent == p.node)
    ensures if p.InLeft? then h[p.node].left == x else h[p.node].right == x
  {
    AllUp(p, t);
    NodesUp(p, t);
  }

  lemma Across(h: Heap, root: Ref, p: Path, x: Ref, t: Tree)
    requires At(h, root, p, x, t) && !p.Top?
    ensures p.node in h
    ensures At(h, root, Opposite(p, t), if p.InLeft? then h[p.node].right else h[p.node].left, Sibling(p))
    ensures All(Opposite(p, t), Sibling(p)) == All(p, t)
    ensures Nodes(Opposite(p, t), Sibling(p)) == Nodes(p, t)
  {
    AllUp(p, t);
    AllUp(Opposite(p, t), Sibling(p));
  }

  lemma DownLeft(h: Heap, root: Ref, p: Path, x: Ref, t: Tree) returns (q: Path)
    requires At(h, root, p, x, t) && t.Branch?
    ensures q == InLeft(p, x, t.color, t.entry, t.right) && At(h, root, q, h[x].left, t.left)
    ensures All(q, t.left) == All(p, t) && Nodes(q, t.left) == Nodes(p, t)
  {
    q := InLeft(p, x, t.color, t.entry, t.right);
    AllUp(q, t.left);
    NodesUp(q, t.left);
  }

  lemma DownRight(h: Heap, root: Ref, p: Path, x: Ref, t: Tree) returns (q: Path)
    requires At(h, root, p, x, t) && t.Branch?
    ensures q == InRight(t.left, x, t.color, t.entry, p) && At(h, root, q, h[x].right, t.right)
    ensures All(q, t.right) == All(p, t) && Nodes(q, t.right) == Nodes(p, t)
  {
    q := InRight(t.left, x, t.color, t.entry, p);
    AllUp(q, t.right);
    NodesUp(q, t.right);
  }

  function RootRef(t: Tree): Ref {
    if t.Leaf? then NIL else t.node
  }

  /** What a point of view says about the cells nearby. */
  lemma Parts(h: Heap, root: Ref, p: Path, x: Ref, t: Tree)
    requires At(h, root, p, x, t)
    ensures NIL in h && x == RootRef(t) && x in h
    ensures t.Branch? ==>
      && x > NIL && h[x].parent == Holder(p) && h[x].color == t.color
      && h[x].key == t.entry.key && h[x].value == t.entry.value
      && h[x].left == RootRef(t.left) && h[x].right == RootRef(t.right)
    ensures !p.Top? ==>
      && p.node > NIL && p.node in h && h[p.node].color == p.color && h[p.node].parent == Holder(p.up)
      && h[p.node].key == p.entry.key && h[p.node].value == p.entry.value
      && h[p.node].left == (if p.InLeft? then x else RootRef(p.left))
      && h[p.node].right == (if p.InLeft? then RootRef(p.right) else x)
  {
    if t.Branch? {
      assert Rep(h, h[x].left, x, t.left) && Rep(h, h[x].right, x, t.right);
    }
  }

  /** The colours that the removal loop looks at: the sibling and its children. */
  lemma Glance(h: Heap, root: Ref, p: Path, x: Ref, t: Tree)
    requires At(h, root, p, x, t) && NIL in h && h[NIL].color == Black
    requires !p.Top? && Sibling(p).Branch?
    ensures var w := Sibling(p).node;
      && w in h && h[w].color == Sibling(p).color
      && h[w].left in h && h[h[w].left].color == RootColor(Sibling(p).left)
      && h[w].right in h && h[h[w].right].color == RootColor(Sibling(p).right)
  {
    var w := Sibling(p).node;
    Across(h, root, p, x, t);
    ghost var q := DownLeft(h, root, Opposite(p, t), w, Sibling(p));
    ColorOf(h, root, q, h[w].left, Sibling(p).left);
    q := DownRight(h, root, Opposite(p, t), w, Sibling(p));
    ColorOf(h, root, q, h[w].right, Sibling(p).right);
  }

  lemma AllNodes(h: Heap, root: Ref, p: Path, x: Ref, t: Tree)
    requires At(h, root, p, x, t)
    ensures forall n :: n in PathRefs(p) || n in Refs(t) ==> n > NIL && n in h
  {
    RepNodes(h, x, Holder(p), t);
    PathNodes(h, root, x, p);
  }

  lemma ChildRefs(h: Heap, root: Ref, p: Path, x: Ref, t: Tree)
    requires At(h, root, p, x, t)
    ensures NIL in h && x in h
    ensures t.Branch? ==>
      && (h[x].left == NIL <==> t.left.Leaf?) && (h[x].right == NIL <==> t.right.Leaf?)
      && h[x].left in h && h[x].right in h
  {
    if t.Branch? {
      RepNodes(h, h[x].left, x, t.left);
      RepNodes(h, h[x].right, x, t.right);
    }
  }

  /** The node in the hole, its children and its parent are different nodes. */
  lemma Links(h: Heap, root: Ref, p: Path, x: Ref, t: Tree)
    requires At(h, root, p, x, t) && t.Branch?
    ensures x > NIL && x in h && h[x].left != x && h[x].right != x
    ensures p.Top? <==> h[x].parent == NULL
    ensures !p.Top? ==>
      && p.node in h && p.node > NIL && p.node != x && p.node != h[x].left && p.node != h[x].right
      && (p.InLeft? <==> h[p.node].left == x)
  {
    RepNodes(h, h[x].left, x, t.left);
    RepNodes(h, h[x].right, x, t.right);
    PathNodes(h, root, x, p);
    if !p.Top? {
      Side(h, root, p, x, t);
    }
  }

  /** `x` is the root exactly when there is nothing around it, sentinel or not. */
  lemma Rooted(h: Heap, root: Ref, p: Path, x: Ref, t: Tree)
    requires At(h, root, p, x, t)
    ensures x == root <==> p.Top?
  {
    RepNodes(h, x, Holder(p), t);
    PathNodes(h, root, x, p);
  }

  /** Below a node one never meets that node again. */
  lemma BelowDiffers(h: Heap, root: Ref, q: Path, y: Ref, u: Tree, base: Path)
    requires At(h, root, q, y, u) && u.Branch? && LeftTurns(q, base) && !base.Top?
    ensures y != base.node
  {
    LeftTurnsRefs(q, base);
  }

  /** The colour field agrees with the picture, at the sentinel too. */
  lemma ColorOf(h: Heap, root: Ref, p: Path, x: Ref, t: Tree)
    requires At(h, root, p, x, t) && h[NIL].color == Black
    ensures x in h && h[x].color == RootColor(t)
  {}

  lemma AtRoot(h: Heap, root: Ref, p: Path, x: Ref, t: Tree)
    requires At(h, root, p, x, t) && p.Top?
    ensures x == root && Entries(t) == All(p, t) && Refs(t) == Nodes(p, t)
  {}

  lemma {:induction false} ToTop(h: Heap, root: Ref, p: Path, x: Ref, t: Tree)
    requires At(h, root, p, x, t)
    ensures At(h, root, Top, root, Plug(p, t))
    ensures Entries(Plug(p, t)) == All(p, t) && Refs(Plug(p, t)) == Nodes(p, t)
    ensures t.Branch? ==> Plug(p, t).Branch?
  {
    hide At, All, Nodes;
    if p.Top? {
      AtRoot(h, root, p, x, t);
    } else {
      Up(h, root, p, x, t);
      ToTop(h, root, p.up, p.node, Joined(p, t));
    }
  }

  /** `x` is the root exactly when there is nothing around it. */
  lemma Surroundings(h: Heap, root: Ref, p: Path, x: Ref, t: Tree)
    requires At(h, root, p, x, t) && t.Branch?
    ensures x in h && (x == root <==> p.Top?)
    ensures !p.Top? ==> p.node in h && h[x].parent == p.node && h[p.node].color == p.color
  {
    RepNodes(h, x, Holder(p), t);
    PathNodes(h, root, x, p);
  }

  /** A node finds out on which side of its parent it hangs by comparing links. */
  lemma Side(h: Heap, root: Ref, p: Path, x: Ref, t: Tree)
    requires At(h, root, p, x, t) && !p.Top?
    requires t.Branch? || Sibling(p).Branch?
    ensures x in h && p.node in h
    ensures p.InLeft? <==> h[p.node].left == x
    ensures p.InRight? <==> h[p.node].right == x
  {
    var s := if p.InLeft? then h[p.node].right else h[p.node].left;
    RepNodes(h, x, p.node, t);
    RepNodes(h, s, p.node, Sibling(p));
    assert Refs(Sibling(p)) <= PathRefs(p);
  }

  // ------------------------------------------------------------ local changes

  /** Only the nodes in `m` may have changed or gone; others may be new. */
  ghost predicate SameExcept(h: Heap, h': Heap, m: set<Ref>) {
    forall n :: n in h && n !in m ==> n in h' && h'[n] == h[n]
  }

  /** A part of the heap that did not change still spells out the same picture. */
  lemma {:induction false} RepKept(h: Heap, h': Heap, m: set<Ref>, x: Ref, parent: Ref, t: Tree)
    requires Rep(h, x, parent, t)
    requires SameExcept(h, h', m) && m !! Refs(t)
    ensures Rep(h', x, parent, t)
    decreases t
  {
    if t.Branch? {
      RepKept(h, h', m, h[x].left, x, t.left);
      RepKept(h, h', m, h[x].right, x, t.right);
    }
  }

  lemma {:induction false} PathKept(h: Heap, h': Heap, m: set<Ref>, root: Ref, x: Ref, p: Path)
    requires PathRep(h, root, x, p)
    requires SameExcept(h, h', m) && m !! PathRefs(p)
    ensures PathRep(h', root, x, p)
    decreases p
  {
    if !p.Top? {
      var n := p.node;
      RepKept(h, h', m, if p.InLeft? then h[n].right else h[n].left, n, Sibling(p));
      PathKept(h, h', m, root, n, p.up);
    }
  }

  /** Every node of the picture is allocated and is neither null nor the sentinel. */
  lemma {:induction false} RepNodes(h: Heap, x: Ref, parent: Ref, t: Tree)
    requires Rep(h, x, parent, t)
    ensures if t.Leaf? then x == NIL else x in Refs(t)
    ensures forall n :: n in Refs(t) ==> n > NIL && n in h
    decreases t
  {
    if t.Branch? {
      RepNodes(h, h[x].left, x, t.left);
      RepNodes(h, h[x].right, x, t.right);
    }
  }

  lemma {:induction false} PathNodes(h: Heap, root: Ref, x: Ref, p: Path)
    requires PathRep(h, root, x, p)
    ensures if p.Top? then root == x else Holder(p) in PathRefs(p) && root in PathRefs(p)
    ensures forall n :: n in PathRefs(p) ==> n > NIL && n in h
    decreases p
  {
    if !p.Top? {
      var n := p.node;
      RepNodes(h, if p.InLeft? then h[n].right else h[n].left, n, Sibling(p));
      PathNodes(h, root, n, p.up);
    }
  }

  /** Hanging a subtree from a new parent touches only its root. */
  lemma Rehung(h: Heap, h': Heap, m: set<Ref>, x: Ref, was: Ref, now: Ref, t: Tree)
    requires Rep(h, x, was, t) && Distinct(t)
    requires SameExcept(h, h', m)
    requires t.Branch? ==> x in h' && h'[x] == h[x].(parent := now)
    requires t.Branch? ==> m !! Refs(t.left) && m !! Refs(t.right)
    ensures Rep(h', x, now, t)
  {
    if t.Branch? {
      RepKept(h, h', m, h[x].left, x, t.left);
      RepKept(h, h', m, h[x].right, x, t.right);
    }
  }

  /** The parent's link to the hole, or the root pointer, redirected to `y`. */
  predicate Relinked(h: Heap, h': Heap, root: Ref, root': Ref, y: Ref, p: Path) {
    if p.Top? then root' == y
    else
      && root' == root && p.node in h && p.node in h'
      && h'[p.node] == if p.InLeft? then h[p.node].(left := y) else h[p.node].(right := y)
  }

  /** Putting another node in the hole touches only that link. */
  lemma Refilled(h: Heap, h': Heap, m: set<Ref>, root: Ref, root': Ref, x: Ref, y: Ref, p: Path)
    requires PathRep(h, root, x, p)
    requires SameExcept(h, h', m) && Relinked(h, h', root, root', y, p)
    requires !p.Top? ==> m !! Refs(Sibling(p)) && m !! PathRefs(p.up)
    ensures PathRep(h', root', y, p)
  {
    if !p.Top? {
      var n := p.node;
      RepKept(h, h', m, if p.InLeft? then h[n].right else h[n].left, n, Sibling(p));
      PathKept(h, h', m, root, n, p.up);
    }
  }

  /** The nodes that a left rotation at `t` touches: `t`, its right child, that
      child's left child and the parent. */
  function Touched(p: Path, t: Tree, y: Tree, b: Tree): set<Ref>
    requires t.Branch? && y.Branch?
  {
    {t.node, y.node} + (if b.Leaf? then {} else {b.node}) + if p.Top? then {} else {p.node}
  }

  lemma LeftRotationApart(p: Path, t: Tree)
    requires t.Branch? && t.right.Branch?
    requires PathDistinct(p) && Distinct(t) && PathRefs(p) !! Refs(t)
    ensures var b := t.right.left; var m := Touched(p, t, t.right, b);
      && m !! Refs(t.left) && m !! Refs(t.right.right)
      && (b.Branch? ==> Distinct(b) && m !! Refs(b.left) && m !! Refs(b.right))
      && (!p.Top? ==> m !! Refs(Sibling(p)) && m !! PathRefs(p.up))
  {
    var b := t.right.left;
    assert Distinct(t.right) && t.right.node in Refs(t.right) && Refs(b) <= Refs(t.right);
    assert b.Branch? ==> b.node in Refs(b) && Distinct(b) && Refs(b.left) <= Refs(b) && Refs(b.right) <= Refs(b);
    assert !p.Top? ==> p.node in PathRefs(p) && Refs(Sibling(p)) <= PathRefs(p) && PathRefs(p.up) <= PathRefs(p);
  }

  lemma RightRotationApart(p: Path, t: Tree)
    requires t.Branch? && t.left.Branch?
    requires PathDistinct(p) && Distinct(t) && PathRefs(p) !! Refs(t)
    ensures var b := t.left.right; var m := Touched(p, t, t.left, b);
      && m !! Refs(t.right) && m !! Refs(t.left.left)
      && (b.Branch? ==> Distinct(b) && m !! Refs(b.left) && m !! Refs(b.right))
      && (!p.Top? ==> m !! Refs(Sibling(p)) && m !! PathRefs(p.up))
  {
    var b := t.left.right;
    assert Distinct(t.left) && t.left.node in Refs(t.left) && Refs(b) <= Refs(t.left);
    assert b.Branch? ==> b.node in Refs(b) && Distinct(b) && Refs(b.left) <= Refs(b) && Refs(b.right) <= Refs(b);
    assert !p.Top? ==> p.node in PathRefs(p) && Refs(Sibling(p)) <= PathRefs(p) && PathRefs(p.up) <= PathRefs(p);
  }

  /** Left rotation on the heap: `y`, the right child of `x`, takes its place and
      hands over its left subtree `b`. */
  ghost predicate LeftSurgery(h: Heap, h': Heap, root: Ref, root': Ref, x: Ref)
    requires x in h && h[x].right in h
  {
    var y := h[x].right; var b := h[y].left; var q := h[x].parent;
    && h'.Keys == h.Keys && SameExcept(h, h', {x, y} + (if b == NIL then {} else {b}) + if q == NULL then {} else {q})
    && x in h' && h'[x] == h[x].(right := b, parent := y)
    && y in h' && h'[y] == h[y].(left := x, parent := q)
    && (b != NIL ==> b in h && b in h' && h'[b] == h[b].(parent := x))
    && (q != NULL ==> q in h && q in h' && h'[q] == if h[q].left == x then h[q].(left := y) else h[q].(right := y))
    && root' == if q == NULL then y else root
  }

  ghost predicate RightSurgery(h: Heap, h': Heap, root: Ref, root': Ref, x: Ref)
    requires x in h && h[x].left in h
  {
    var y := h[x].left; var b := h[y].right; var q := h[x].parent;
    && h'.Keys == h.Keys && SameExcept(h, h', {x, y} + (if b == NIL then {} else {b}) + if q == NULL then {} else {q})
    && x in h' && h'[x] == h[x].(left := b, parent := y)
    && y in h' && h'[y] == h[y].(right := x, parent := q)
    && (b != NIL ==> b in h && b in h' && h'[b] == h[b].(parent := x))
    && (q != NULL ==> q in h && q in h' && h'[q] == if h[q].right == x then h[q].(right := y) else h[q].(left := y))
    && root' == if q == NULL then y else root
  }

  lemma LeftReady(h: Heap, root: Ref, p: Path, x: Ref, t: Tree)
    requires At(h, root, p, x, t) && t.Branch? && t.right.Branch?
    ensures x in h && h[x].right in h && x > NIL && h[x].right > NIL
    ensures var y := h[x].right; var b := h[y].left; var q := h[x].parent;
      && y == t.right.node && y != x && b in h && b !in {x, y} && q == Holder(p)
      && (b == NIL <==> t.right.left.Leaf?) && (b != NIL ==> b == t.right.left.node)
      && (q != NULL ==> q > NIL && q in h && q !in {x, y, b})
  {
    var y := h[x].right;
    assert Rep(h, y, x, t.right) && Distinct(t.right);
    RepNodes(h, y, x, t.right);
    RepNodes(h, h[y].left, y, t.right.left);
    PathNodes(h, root, x, p);
  }

  lemma RightReady(h: Heap, root: Ref, p: Path, x: Ref, t: Tree)
    requires At(h, root, p, x, t) && t.Branch? && t.left.Branch?
    ensures x in h && h[x].left in h && x > NIL && h[x].left > NIL
    ensures var y := h[x].left; var b := h[y].right; var q := h[x].parent;
      && y == t.left.node && y != x && b in h && b !in {x, y} && q == Holder(p)
      && (b == NIL <==> t.left.right.Leaf?) && (b != NIL ==> b == t.left.right.node)
      && (q != NULL ==> q > NIL && q in h && q !in {x, y, b})
  {
    var y := h[x].left;
    assert Rep(h, y, x, t.left) && Distinct(t.left);
    RepNodes(h, y, x, t.left);
    RepNodes(h, h[y].right, y, t.left.right);
    PathNodes(h, root, x, p);
  }

  lemma LeftRotated(h: Heap, h': Heap, root: Ref, root': Ref, p: Path, x: Ref, t: Tree)
    requires At(h, root, p, x, t) && t.Branch? && t.right.Branch? && x in h && h[x].right in h
    requires LeftSurgery(h, h', root, root', x)
    ensures Rep(h', t.right.node, Holder(p), RotatedLeft(t)) && PathRep(h', root', t.right.node, p)
  {
    LeftReady(h, root, p, x, t);
    var y, b := t.right.node, t.right.left;
    var m := Touched(p, t, t.right, b);
    LeftRotationApart(p, t);
    assert Rep(h, y, x, t.right);
    RepKept(h, h', m, h[x].left, x, t.left);
    Rehung(h, h', m, h[y].left, y, x, b);
    RepKept(h, h', m, h[y].right, y, t.right.right);
    Refilled(h, h', m, root, root', x, y, p);
  }

  lemma RightRotated(h: Heap, h': Heap, root: Ref, root': Ref, p: Path, x: Ref, t: Tree)
    requires At(h, root, p, x, t) && t.Branch? && t.left.Branch? && x in h && h[x].left in h
    requires RightSurgery(h, h', root, root', x)
    ensures Rep(h', t.left.node, Holder(p), RotatedRight(t)) && PathRep(h', root', t.left.node, p)
  {
    RightReady(h, root, p, x, t);
    var y, b := t.left.node, t.left.right;
    var m := Touched(p, t, t.left, b);
    RightRotationApart(p, t);
    assert Rep(h, y, x, t.left);
    RepKept(h, h', m, h[x].right, x, t.right);
    Rehung(h, h', m, h[y].right, y, x, b);
    RepKept(h, h', m, h[y].left, y, t.left.left);
    Refilled(h, h', m, root, root', x, y, p);
  }

  lemma Repainted(h: Heap, h': Heap, root: Ref, p: Path, x: Ref, t: Tree, c: Color)
    requires At(h, root, p, x, t) && t.Branch? && x in h && h' == SetColor(h, x, c)
    ensures At(h', root, p, x, Painted(t, c))
    ensures All(p, Painted(t, c)) == All(p, t) && Nodes(p, Painted(t, c)) == Nodes(p, t)
  {
    RepKept(h, h', {x}, h[x].left, x, t.left);
    RepKept(h, h', {x}, h[x].right, x, t.right);
    PathKept(h, h', {x}, root, x, p);
  }

  /** Linking a fresh red node `x` into the empty hole of `p`. */
  lemma Hung(h: Heap, h': Heap, root: Ref, root': Ref, p: Path, x: Ref, e: Entry)
    requires At(h, root, p, NIL, Leaf) && x > NIL && x !in PathRefs(p)
    requires x in h' && h'[x] == Cell(NIL, NIL, Holder(p), Red, e.key, e.value)
    requires Relinked(h, h', root, root', x, p)
    requires SameExcept(h, h', {x} + if p.Top? then {} else {p.node})
    ensures At(h', root', p, x, Branch(Leaf, x, Red, e, Leaf))
  {
    var m := {x} + if p.Top? then {} else {p.node};
    assert !p.Top? ==> Refs(Sibling(p)) <= PathRefs(p) && PathRefs(p.up) <= PathRefs(p);
    PathNodes(h, root, NIL, p);
    Refilled(h, h', m, root, root', NIL, x, p);
  }

  lemma SomeUnused(h: Heap)
    ensures exists x: Ref :: x > NIL && x !in h
  {
    var x := Unused(h.Keys, NIL);
    assert x > NIL && x !in h;
  }

  /** Links and colours may have changed, but no node came, went or changed its
      contents, and the sentinel is untouched. */
  ghost predicate SameLabels(h: Heap, h': Heap) {
    && h'.Keys == h.Keys && NIL in h && h'[NIL] == h[NIL]
    && forall n :: n in h ==> h'[n].key == h[n].key && h'[n].value == h[n].value
  }

  /** Only colours may have changed. */
  ghost predicate SameLinks(h: Heap, h': Heap) {
    && h'.Keys == h.Keys && NIL in h && h'[NIL] == h[NIL]
    && forall n :: n in h ==> h'[n] == h[n].(color := h'[n].color)
  }

  lemma Recoloured(h: Heap, x: Ref, c: Color)
    requires x in h && x != NIL && NIL in h
    ensures SameLinks(h, SetColor(h, x, c))
  {}

  lemma LinkOf(h: Heap, h': Heap, x: Ref)
    requires SameLinks(h, h') && x in h
    ensures x in h' && h'[x].parent == h[x].parent && h'[x].left == h[x].left && h'[x].right == h[x].right
  {}

  lemma LabelsKept(h: Heap, h': Heap)
    requires SameLinks(h, h')
    ensures SameLabels(h, h')
  {}

  lemma LabelsJoin(h: Heap, h': Heap, h'': Heap)
    requires SameLabels(h, h') && SameLabels(h', h'')
    ensures SameLabels(h, h'')
  {}

  lemma LinksJoin(h: Heap, h': Heap, h'': Heap)
    requires SameLinks(h, h') && SameLinks(h', h'')
    ensures SameLinks(h, h'')
  {}

  // ------------------------------------------------------------ splicing out a node

  /** On the heap: `y`, which has at most one child, is bypassed by that child `x`. */
  ghost predicate Bypassed(h: Heap, h': Heap, root: Ref, root': Ref, p: Path, y: Ref, x: Ref)
    requires y in h && x in h
  {
    && x in h' && h'[x] == h[x].(parent := h[y].parent)
    && h'.Keys == h.Keys && SameExcept(h, h', {x} + if p.Top? then {} else {p.node})
    && Relinked(h, h', root, root', x, p)
  }

  lemma Spliced(h: Heap, h': Heap, root: Ref, root': Ref, p: Path, y: Ref, t: Tree, x: Ref)
    requires At(h, root, p, y, t) && t.Branch? && (t.left.Leaf? || t.right.Leaf?)
    requires y in h && x in h && x == RootRef(OnlyChild(t)) && Bypassed(h, h', root, root', p, y, x)
    ensures At(h', root', p, x, OnlyChild(t))
    ensures y in Nodes(p, t) && Nodes(p, OnlyChild(t)) == Nodes(p, t) - {y}
    ensures y in h' && h'[y] == h[y]
  {
    var m := {x} + if p.Top? then {} else {p.node};
    var c := OnlyChild(t);
    Parts(h, root, p, y, t);
    assert Rep(h, if t.left.Branch? then h[y].left else h[y].right, y, c);
    assert Distinct(c) && Refs(c) <= Refs(t);
    RepNodes(h, x, y, c);
    PathNodes(h, root, y, p);
    assert c.Branch? ==> c.node in Refs(c);
    assert !p.Top? ==> p.node in PathRefs(p) && Refs(Sibling(p)) <= PathRefs(p) && PathRefs(p.up) <= PathRefs(p);
    Rehung(h, h', m, x, y, Holder(p), c);
    Refilled(h, h', m, root, root', y, x, p);
    assert Refs(t) == Refs(c) + {y};
  }

  lemma {:induction false} PathRelabelled(h: Heap, h': Heap, root: Ref, x: Ref, p: Path, z: Ref, y: Ref, e: Entry)
    requires PathRep(h, root, x, p) && PathDistinct(p) && y !in PathRefs(p)
    requires SameExcept(h, h', {y, z}) && z in h && z in h' && h'[z] == h[z].(key := e.key, value := e.value)
    requires OnPath(p, z)
    ensures PathRep(h', root, x, Relabelled(p, z, e))
    ensures Holder(Relabelled(p, z, e)) == Holder(p) && z in PathRefs(p)
    decreases p
  {
    var n := p.node;
    if n == z {
      RepKept(h, h', {y, z}, if p.InLeft? then h[n].right else h[n].left, n, Sibling(p));
      PathKept(h, h', {y, z}, root, n, p.up);
    } else {
      PathRelabelled(h, h', root, n, p.up, z, y, e);
      RepKept(h, h', {y, z}, if p.InLeft? then h[n].right else h[n].left, n, Sibling(p));
    }
  }

  lemma EntryMoved(h: Heap, h': Heap, root: Ref, p: Path, x: Ref, t: Tree, z: Ref, y: Ref, e: Entry)
    requires At(h, root, p, x, t) && OnPath(p, z) && y !in Nodes(p, t) && y != NIL
    requires z in h && z in h' && h'[z] == h[z].(key := e.key, value := e.value)
    requires SameExcept(h, h', {y, z}) && z != NIL
    ensures At(h', root, Relabelled(p, z, e), x, t)
    ensures Nodes(Relabelled(p, z, e), t) == Nodes(p, t)
  {
    PathRelabelled(h, h', root, x, p, z, y, e);
    RelabelledKeeps(p, z, e, 0);
    RepKept(h, h', {y, z}, x, Holder(p), t);
  }

  // ------------------------------------------------------------ searching by key

  /** A search for `k` has reached `y`: the key can only be in the subtree `t` there. */
  ghost predicate Searching(h: Heap, root: Ref, shape: Tree, cmp: Comparator, p: Path, y: Ref, t: Tree, k: Key) {
    var here := At(h, root, p, y, t) && All(p, t) == Entries(shape) && Nodes(p, t) == Refs(shape);
    var fits := Fits(p, t) && Around(cmp, p, k);
    here && fits
  }

  lemma Begin(h: Heap, root: Ref, shape: Tree, cmp: Comparator, k: Key)
    requires At(h, root, Top, root, shape) && RedBlack(shape)
    ensures Searching(h, root, shape, cmp, Top, root, shape, k)
  {
    assert All(Top, shape) == Entries(shape);
  }

  /** One comparison: either the key is found, or it can only be on one side. */
  lemma Turn(h: Heap, root: Ref, shape: Tree, cmp: Comparator, p: Path, y: Ref, t: Tree, k: Key)
    returns (q: Path, t': Tree)
    requires TotalOrder(cmp) && Sorted(cmp, Entries(shape))
    requires Searching(h, root, shape, cmp, p, y, t, k) && y != NIL
    ensures y > NIL && y in h && t.Branch? && t.node == y && y in Refs(shape)
    ensures h[y].key == t.entry.key && h[y].value == t.entry.value
    ensures cmp(k, h[y].key) == 0 ==>
      k == h[y].key && k in MapOf(Entries(shape)) && MapOf(Entries(shape))[k] == h[y].value
    ensures cmp(k, h[y].key) < 0 ==> t' == t.left && q.InLeft? && Searching(h, root, shape, cmp, q, h[y].left, t', k)
    ensures cmp(k, h[y].key) > 0 ==> t' == t.right && q.InRight? && Searching(h, root, shape, cmp, q, h[y].right, t', k)
    ensures cmp(k, h[y].key) != 0 ==> q.up == p && q.node == y
  {
    q, t' := p, t;
    RepNodes(h, y, Holder(p), t);
    FitsBelow(p, t);
    if cmp(k, h[y].key) == 0 {
      Hit(cmp, p, t, k);
    } else if cmp(k, h[y].key) < 0 {
      GoLeft(cmp, p, t, k);
      q := DownLeft(h, root, p, y, t);
      t' := t.left;
    } else {
      GoRight(cmp, p, t, k);
      q := DownRight(h, root, p, y, t);
      t' := t.right;
    }
  }

  lemma Exhausted(h: Heap, root: Ref, shape: Tree, cmp: Comparator, p: Path, t: Tree, k: Key)
    requires TotalOrder(cmp) && Sorted(cmp, Entries(shape))
    requires Searching(h, root, shape, cmp, p, NIL, t, k)
    ensures t.Leaf? && k !in MapOf(Entries(shape))
  {
    RepNodes(h, NIL, Holder(p), t);
    Miss(cmp, p, k);
  }
}
