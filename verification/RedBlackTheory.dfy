/** The heap nodes of the red-black tree and the inductive pictures the proofs
    draw of them: a `Tree` is a subtree, a `Path` is everything around it. */
module RedBlackTheory {
  import opened Basics

  /** Keys and values are immutable copies; a comparator is supplied per tree. */
  type Key(==, 0, !new)
  type Value(0)

  datatype Color = Red | Black
  datatype Entry = Entry(key: Key, value: Value)

  /** Addresses. `NULL` is the null pointer and `NIL` the embedded sentinel. */
  type Ref = int
  const NULL: Ref := 0
  const NIL: Ref := 1

  /** One `struct clib_rb_node`. */
  datatype Cell = Cell(left: Ref, right: Ref, parent: Ref, color: Color, key: Key, value: Value)

  /** The nodes that are allocated right now. Reading or writing any other
      address is an error the verifier rejects. */
  type Heap = map<Ref, Cell>

  function SetLeft(h: Heap, x: Ref, v: Ref): Heap
    requires x in h
  {
    h[x := h[x].(left := v)]
  }

  function SetRight(h: Heap, x: Ref, v: Ref): Heap
    requires x in h
  {
    h[x := h[x].(right := v)]
  }

  function SetParent(h: Heap, x: Ref, v: Ref): Heap
    requires x in h
  {
    h[x := h[x].(parent := v)]
  }

  function SetColor(h: Heap, x: Ref, c: Color): Heap
    requires x in h
  {
    h[x := h[x].(color := c)]
  }

  datatype Tree =
    | Leaf
    | Branch(left: Tree, node: Ref, color: Color, entry: Entry, right: Tree)

  /** The rest of the tree seen from a subtree, innermost parent first. */
  datatype Path =
    | Top
    | InLeft(up: Path, node: Ref, color: Color, entry: Entry, right: Tree)
    | InRight(left: Tree, node: Ref, color: Color, entry: Entry, up: Path)

  ghost function Refs(t: Tree): set<Ref> {
    match t
    case Leaf => {}
    case Branch(l, n, _, _, r) => Refs(l) + {n} + Refs(r)
  }

  ghost function PathRefs(p: Path): set<Ref> {
    match p
    case Top => {}
    case InLeft(up, n, _, _, r) => PathRefs(up) + {n} + Refs(r)
    case InRight(l, n, _, _, up) => PathRefs(up) + {n} + Refs(l)
  }

  ghost predicate Distinct(t: Tree) {
    match t
    case Leaf => true
    case Branch(l, n, _, _, r) =>
      && Distinct(l) && Distinct(r)
      && n !in Refs(l) && n !in Refs(r) && Refs(l) !! Refs(r)
  }

  ghost predicate PathDistinct(p: Path) {
    match p
    case Top => true
    case InLeft(up, n, _, _, s) =>
      && PathDistinct(up) && Distinct(s)
      && n !in PathRefs(up) && n !in Refs(s) && PathRefs(up) !! Refs(s)
    case InRight(s, n, _, _, up) =>
      && PathDistinct(up) && Distinct(s)
      && n !in PathRefs(up) && n !in Refs(s) && PathRefs(up) !! Refs(s)
  }

  function Plug(p: Path, t: Tree): Tree {
    if p.Top? then t else Plug(p.up, Joined(p, t))
  }

  /** The subtree one level up: the parent of the hole with `t` put in it. */
  function Joined(p: Path, t: Tree): Tree
    requires !p.Top?
  {
    if p.InLeft? then Branch(t, p.node, p.color, p.entry, p.right)
    else Branch(p.left, p.node, p.color, p.entry, t)
  }

  function Depth(p: Path): nat {
    if p.Top? then 0 else 1 + Depth(p.up)
  }

  function Size(t: Tree): nat {
    if t.Leaf? then 0 else Size(t.left) + 1 + Size(t.right)
  }

  // ---------------------------------------------------------------- contents

  function Entries(t: Tree): seq<Entry> {
    match t
    case Leaf => []
    case Branch(l, _, _, e, r) => Entries(l) + [e] + Entries(r)
  }

  /** The entries left of the hole, in order. */
  function Before(p: Path): seq<Entry> {
    match p
    case Top => []
    case InLeft(up, _, _, _, _) => Before(up)
    case InRight(l, _, _, e, up) => Before(up) + Entries(l) + [e]
  }

  /** The entries right of the hole, in order. */
  function After(p: Path): seq<Entry> {
    match p
    case Top => []
    case InLeft(up, _, _, e, r) => [e] + Entries(r) + After(up)
    case InRight(_, _, _, _, up) => After(up)
  }

  function All(p: Path, t: Tree): seq<Entry> {
    Before(p) + Entries(t) + After(p)
  }

  lemma AllUp(p: Path, t: Tree)
    requires !p.Top?
    ensures All(p, t) == All(p.up, Joined(p, t))
  {
    if p.InLeft? {
      Regroup4(Before(p.up), Entries(t), [p.entry] + Entries(p.right), After(p.up));
      assert Entries(Joined(p, t)) == Entries(t) + [p.entry] + Entries(p.right);
      assert Entries(t) + [p.entry] + Entries(p.right) == Entries(t) + ([p.entry] + Entries(p.right));
    } else {
      Regroup4(Before(p.up), Entries(p.left) + [p.entry], Entries(t), After(p.up));
      assert Before(p) == Before(p.up) + (Entries(p.left) + [p.entry]);
    }
  }

  lemma Regroup4<T>(a: seq<T>, b: seq<T>, c: seq<T>, d: seq<T>)
    ensures (a + b) + c + d == a + (b + c) + d == a + b + (c + d)
  {}

  ghost function Nodes(p: Path, t: Tree): set<Ref> {
    PathRefs(p) + Refs(t)
  }

  lemma NodesUp(p: Path, t: Tree)
    requires !p.Top?
    ensures Nodes(p, t) == Nodes(p.up, Joined(p, t))
  {}

  // --------------------------------------------------------- red-black colours

  function RootColor(t: Tree): Color {
    if t.Leaf? then Black else t.color
  }

  function BlackHeight(t: Tree): nat {
    if t.Leaf? then 0 else BlackHeight(t.left) + if t.color == Black then 1 else 0
  }

  predicate Balanced(t: Tree) {
    t.Branch? ==>
      Balanced(t.left) && Balanced(t.right) && BlackHeight(t.left) == BlackHeight(t.right)
  }

  predicate NoRedRed(t: Tree) {
    t.Branch? ==>
      && NoRedRed(t.left) && NoRedRed(t.right)
      && (t.color == Red ==> RootColor(t.left) == Black && RootColor(t.right) == Black)
  }

  /** The whole invariant of a tree at rest. */
  predicate RedBlack(t: Tree) {
    Balanced(t) && NoRedRed(t) && RootColor(t) == Black
  }

  function Sibling(p: Path): Tree
    requires !p.Top?
  {
    if p.InLeft? then p.right else p.left
  }

  /** The sibling's own surroundings, when `t` sits in the hole of `p`. */
  function Opposite(p: Path, t: Tree): Path
    requires !p.Top?
  {
    if p.InLeft? then InRight(t, p.node, p.color, p.entry, p.up)
    else InLeft(p.up, p.node, p.color, p.entry, t)
  }

  /** Putting a balanced tree of black height `h` in the hole keeps all counts equal. */
  predicate PathBalanced(p: Path, h: nat) {
    !p.Top? ==>
      && Balanced(Sibling(p)) && BlackHeight(Sibling(p)) == h
      && PathBalanced(p.up, h + if p.color == Black then 1 else 0)
  }

  /** No red node on the path has a red parent or a red sibling subtree below it,
      and the outermost node is black. */
  predicate PathNoRedRed(p: Path) {
    !p.Top? ==>
      && NoRedRed(Sibling(p)) && PathNoRedRed(p.up)
      && (p.color == Red ==> RootColor(Sibling(p)) == Black && !p.up.Top? && p.up.color == Black)
  }

  /** A red root may sit in the hole only below a black parent. */
  predicate MayBeRed(p: Path) {
    !p.Top? && p.color == Black
  }

  /** `t` in the hole of `p` makes a red-black tree. */
  predicate Fits(p: Path, t: Tree) {
    && Balanced(t) && PathBalanced(p, BlackHeight(t))
    && NoRedRed(t) && PathNoRedRed(p)
    && (RootColor(t) == Red ==> MayBeRed(p))
  }

  lemma FitsBelow(p: Path, t: Tree)
    requires Fits(p, t) && t.Branch?
    ensures Fits(InLeft(p, t.node, t.color, t.entry, t.right), t.left)
    ensures Fits(InRight(t.left, t.node, t.color, t.entry, p), t.right)
  {}

  lemma {:induction false} PlugRedBlack(p: Path, t: Tree)
    requires Fits(p, t)
    ensures RedBlack(Plug(p, t))
  {
    if !p.Top? {
      PlugRedBlack(p.up, Joined(p, t));
    }
  }

  function Painted(t: Tree, c: Color): Tree {
    if t.Leaf? then t else t.(color := c)
  }

  /** What the insertion fixup keeps: `t` is a red node, and the only possible
      violations are a red parent just above it or `t` being the root. */
  predicate InsertInv(p: Path, t: Tree) {
    && t.Branch? && t.color == Red && NoRedRed(t) && Balanced(t)
    && PathNoRedRed(p) && PathBalanced(p, BlackHeight(t))
  }

  /** What the removal fixup keeps: every count is right if `t` counts one extra
      black, and the only possible red-red violation is at the root of `t`. */
  predicate RemoveInv(p: Path, t: Tree) {
    && Balanced(t) && NoRedRed(Painted(t, Black))
    && PathNoRedRed(p) && PathBalanced(p, BlackHeight(t) + 1)
  }

  // -------------------------------------------------------------------- height

  function Height(t: Tree): nat {
    if t.Leaf? then 0 else 1 + if Height(t.left) > Height(t.right) then Height(t.left) else Height(t.right)
  }

  lemma {:induction false} Pow2Double(n: nat)
    ensures Pow2(2 * n) == Pow2(n) * Pow2(n)
  {
    if n > 0 {
      Pow2Double(n - 1);
      assert Pow2(2 * n) == 2 * Pow2(2 * n - 1) == 4 * Pow2(2 * (n - 1));
    }
  }

  lemma {:induction false} Pow2Monotone(m: nat, n: nat)
    requires m <= n
    ensures 1 <= Pow2(m) <= Pow2(n)
    decreases n
  {
    if m < n {
      Pow2Monotone(m, n - 1);
    } else if n > 0 {
      Pow2Monotone(m - 1, n - 1);
    }
  }

  /** A tree of black height `b` has at least 2^b - 1 nodes. */
  lemma {:induction false} ManyNodes(t: Tree)
    requires Balanced(t)
    ensures Size(t) + 1 >= Pow2(BlackHeight(t))
  {
    if t.Branch? {
      ManyNodes(t.left);
      ManyNodes(t.right);
    }
  }

  /** No path is more than twice as long as its black nodes, plus a red root. */
  lemma {:induction false} ShortPaths(t: Tree)
    requires Balanced(t) && NoRedRed(t)
    ensures Height(t) <= 2 * BlackHeight(t) + if RootColor(t) == Red then 1 else 0
  {
    if t.Branch? {
      ShortPaths(t.left);
      ShortPaths(t.right);
    }
  }

  /** Height at most 2 log2(n + 1), without logarithms. */
  lemma HeightBound(t: Tree)
    requires RedBlack(t)
    ensures Pow2(Height(t)) <= (Size(t) + 1) * (Size(t) + 1)
  {
    var b := Pow2(BlackHeight(t));
    ManyNodes(t);
    ShortPaths(t);
    Pow2Monotone(Height(t), 2 * BlackHeight(t));
    Pow2Double(BlackHeight(t));
    Pow2Monotone(0, BlackHeight(t));
    SquareMonotone(b, Size(t) + 1);
  }

  lemma SquareMonotone(a: nat, b: nat)
    requires a <= b
    ensures a * a <= b * b
  {
    assert a * a <= a * b <= b * b;
  }

  lemma {:induction false} SizeIsEntries(t: Tree)
    ensures |Entries(t)| == Size(t)
  {
    if t.Branch? {
      SizeIsEntries(t.left);
      SizeIsEntries(t.right);
    }
  }

  // ------------------------------------------------- the insertion fixup's cases

  lemma WholeTree(t: Tree)
    ensures All(Top, t) == Entries(t) && Nodes(Top, t) == Refs(t)
  {}

  lemma AlreadyBlack(t: Tree)
    requires RedBlack(t)
    ensures Painted(t, Black) == t
  {}

  /** What the insertion loop may rely on while it runs and when it stops. */
  lemma InsertLoop(p: Path, t: Tree)
    requires InsertInv(p, t)
    ensures t.Branch?
    ensures p.Top? ==> RedBlack(Painted(t, Black))
    ensures !p.Top? && p.color == Red ==> !p.up.Top?
    ensures !p.Top? && p.color == Black ==> Fits(p, t)
  {}

  /** Red uncle: parent and uncle black, grandparent red. */
  function PushedRedUp(p: Path, t: Tree): Tree
    requires !p.Top? && !p.up.Top?
  {
    var u := Painted(Sibling(p.up), Black);
    var q := Painted(Joined(p, t), Black);
    Painted(if p.up.InLeft? then Joined(p.up.(right := u), q) else Joined(p.up.(left := u), q), Red)
  }

  lemma PushedRedUpKeeps(p: Path, t: Tree)
    requires InsertInv(p, t) && !p.Top? && p.color == Red
    requires !p.up.Top? && RootColor(Sibling(p.up)) == Red
    ensures InsertInv(p.up.up, PushedRedUp(p, t))
  {
    var s := Sibling(p.up);
    assert PathBalanced(p.up, BlackHeight(t)) && PathNoRedRed(p.up);
    assert Balanced(s) && NoRedRed(s) && BlackHeight(s) == BlackHeight(t);
    assert Balanced(s.left) && Balanced(s.right) && NoRedRed(s.left) && NoRedRed(s.right);
    var q, u := Painted(Joined(p, t), Black), Painted(s, Black);
    assert Balanced(q) && NoRedRed(q) && Balanced(u) && NoRedRed(u);
    assert BlackHeight(q) == BlackHeight(t) + 1 == BlackHeight(u);
  }

  /** Black uncle: the raised parent is black over two red nodes. */
  lemma RaisedFromLeftKeeps(p: Path, t: Tree)
    requires InsertInv(p, t) && p.InLeft? && p.color == Red && p.up.InLeft?
    requires RootColor(p.up.right) == Black
    ensures InsertInv(InLeft(p.up.up, p.node, Black, p.entry,
      Branch(p.right, p.up.node, Red, p.up.entry, p.up.right)), t)
  {
    assert PathBalanced(p.up, BlackHeight(t)) && PathNoRedRed(p.up);
    assert p.up.color == Black;
  }

  lemma RaisedFromRightKeeps(p: Path, t: Tree)
    requires InsertInv(p, t) && p.InRight? && p.color == Red && p.up.InRight?
    requires RootColor(p.up.left) == Black
    ensures InsertInv(InRight(Branch(p.up.left, p.up.node, Red, p.up.entry, p.left),
      p.node, Black, p.entry, p.up.up), t)
  {
    assert PathBalanced(p.up, BlackHeight(t)) && PathNoRedRed(p.up);
    assert p.up.color == Black;
  }

  /** A rotation at a red parent exchanges two red nodes. */
  lemma SwungLeftKeeps(p: Path, t: Tree)
    requires InsertInv(p, t) && p.InRight? && p.color == Red
    ensures InsertInv(InLeft(p.up, t.node, Red, t.entry, t.right), Branch(p.left, p.node, Red, p.entry, t.left))
  {}

  lemma SwungRightKeeps(p: Path, t: Tree)
    requires InsertInv(p, t) && p.InLeft? && p.color == Red
    ensures InsertInv(InRight(t.left, t.node, Red, t.entry, p.up), Branch(t.right, p.node, Red, p.entry, p.right))
  {}

  // --------------------------------------------------- the removal fixup's cases

  function WithSibling(p: Path, s: Tree): Path
    requires !p.Top?
  {
    if p.InLeft? then p.(right := s) else p.(left := s)
  }

  /** The child of the sibling that is near to, or far from, the hole. */
  function Near(p: Path): Tree
    requires !p.Top? && Sibling(p).Branch?
  {
    if p.InLeft? then p.right.left else p.left.right
  }

  function Far(p: Path): Tree
    requires !p.Top? && Sibling(p).Branch?
  {
    if p.InLeft? then p.right.right else p.left.left
  }

  /** The sibling of a subtree that lacks one black is never the sentinel. */
  lemma SiblingExists(p: Path, t: Tree)
    requires RemoveInv(p, t) && !p.Top?
    ensures Sibling(p).Branch?
    ensures RootColor(Sibling(p)) == Red ==> Near(p).Branch?
  {
    var s := Sibling(p);
    assert BlackHeight(s) == BlackHeight(t) + 1;
    if s.color == Red {
      assert BlackHeight(s.left) == BlackHeight(s) && BlackHeight(s.right) == BlackHeight(s);
    }
  }

  /** Red sibling `w`: it takes the parent's place, turning black, and the parent
      turns red, so that the hole sinks by one. */
  function Lowered(p: Path): Path
    requires !p.Top? && Sibling(p).Branch?
  {
    var w := Sibling(p);
    if p.InLeft? then
      InLeft(InLeft(p.up, w.node, Black, w.entry, w.right), p.node, Red, p.entry, w.left)
    else
      InRight(w.right, p.node, Red, p.entry, InRight(w.left, w.node, Black, w.entry, p.up))
  }

  lemma LoweredKeeps(p: Path, t: Tree)
    requires RemoveInv(p, t) && RootColor(t) == Black && !p.Top?
    requires RootColor(Sibling(p)) == Red
    ensures RemoveInv(Lowered(p), t) && RootColor(Sibling(Lowered(p))) == Black
  {
    SiblingExists(p, t);
    var s := Sibling(p);
    assert PathBalanced(p.up, BlackHeight(t) + 2) && PathNoRedRed(p.up) && p.color == Black;
    assert Balanced(s) && NoRedRed(s) && BlackHeight(s) == BlackHeight(t) + 1;
    assert BlackHeight(s.left) == BlackHeight(t) + 1 && BlackHeight(s.right) == BlackHeight(t) + 1;
    assert PathBalanced(Lowered(p).up, BlackHeight(t) + 1);
  }

  /** Black sibling with two black children: it turns red, and the extra black
      moves to the parent. */
  function Absorbed(p: Path, t: Tree): Tree
    requires !p.Top? && Sibling(p).Branch?
  {
    Joined(WithSibling(p, Painted(Sibling(p), Red)), t)
  }

  lemma AbsorbedKeeps(p: Path, t: Tree)
    requires RemoveInv(p, t) && RootColor(t) == Black && !p.Top?
    requires Sibling(p).Branch? && Sibling(p).color == Black
    requires RootColor(Near(p)) == Black && RootColor(Far(p)) == Black
    ensures RemoveInv(p.up, Absorbed(p, t))
    ensures p.color == Red ==> RootColor(Absorbed(p, t)) == Red
  {
    var s := Sibling(p);
    assert Balanced(s) && NoRedRed(s) && BlackHeight(s) == BlackHeight(t) + 1;
    assert Balanced(Painted(s, Red)) && NoRedRed(Painted(s, Red)) && NoRedRed(t);
  }

  /** Black sibling whose far child is black and near child red: the near child
      takes the sibling's place. */
  function Straightened(p: Path): Tree
    requires !p.Top? && Sibling(p).Branch? && Near(p).Branch?
  {
    var w, c := Sibling(p), Near(p);
    if p.InLeft? then
      Branch(c.left, c.node, Black, c.entry, Branch(c.right, w.node, Red, w.entry, w.right))
    else
      Branch(Branch(w.left, w.node, Red, w.entry, c.left), c.node, Black, c.entry, c.right)
  }

  lemma StraightenedKeeps(p: Path, t: Tree)
    requires RemoveInv(p, t) && !p.Top?
    requires Sibling(p).Branch? && Sibling(p).color == Black
    requires RootColor(Near(p)) == Red && RootColor(Far(p)) == Black
    ensures var p' := WithSibling(p, Straightened(p));
      RemoveInv(p', t) && Sibling(p').color == Black && RootColor(Far(p')) == Red
  {
    var s, c, p' := Sibling(p), Near(p), WithSibling(p, Straightened(p));
    assert Balanced(s) && NoRedRed(s) && BlackHeight(s) == BlackHeight(t) + 1;
    assert Balanced(c) && NoRedRed(c) && Balanced(Far(p)) && NoRedRed(Far(p));
    assert BlackHeight(c) == BlackHeight(t) == BlackHeight(Far(p));
    assert Balanced(c.left) && Balanced(c.right) && NoRedRed(c.left) && NoRedRed(c.right);
    assert Balanced(Far(p')) && NoRedRed(Far(p')) && BlackHeight(Far(p')) == BlackHeight(t);
  }

  /** Black sibling with a red far child: one rotation supplies the missing black. */
  function Settled(p: Path, t: Tree): Tree
    requires !p.Top? && Sibling(p).Branch?
  {
    var w := Sibling(p);
    if p.InLeft? then
      Branch(Branch(t, p.node, Black, p.entry, w.left), w.node, p.color, w.entry, Painted(w.right, Black))
    else
      Branch(Painted(w.left, Black), w.node, p.color, w.entry, Branch(w.right, p.node, Black, p.entry, t))
  }

  lemma SettledFits(p: Path, t: Tree)
    requires RemoveInv(p, t) && RootColor(t) == Black && !p.Top?
    requires Sibling(p).Branch? && Sibling(p).color == Black && RootColor(Far(p)) == Red
    ensures Fits(p.up, Settled(p, t))
  {
    var s, f := Sibling(p), Painted(Far(p), Black);
    assert Balanced(s) && NoRedRed(s) && BlackHeight(s) == BlackHeight(t) + 1;
    assert Balanced(Far(p)) && NoRedRed(Far(p)) && BlackHeight(Far(p)) == BlackHeight(t);
    assert Balanced(f) && NoRedRed(f) && BlackHeight(f) == BlackHeight(t) + 1;
    var n := if p.InLeft? then Settled(p, t).left else Settled(p, t).right;
    assert Balanced(n) && NoRedRed(n) && BlackHeight(n) == BlackHeight(t) + 1;
  }

  /** What each turn of the removal loop decreases. A red root counts as half a
      level: the red-sibling case sinks the hole, but the next case then leaves
      the extra black on a red parent, which ends the loop. */
  function Burden(p: Path, t: Tree): nat {
    2 * Depth(p) + if RootColor(t) == Black then 1 else 0
  }

  lemma RestKeeps(t: Tree)
    requires RedBlack(t)
    ensures RemoveInv(Top, t)
  {}

  /** Once the subtree with the extra black is red, or is the whole tree,
      painting it black restores the rules. */
  lemma RemoveDone(p: Path, t: Tree)
    requires RemoveInv(p, t) && (p.Top? || RootColor(t) == Red)
    ensures Fits(p, Painted(t, Black))
  {}

  // ------------------------------------------------------ splicing out a node

  /** The only child of a node that has at most one. */
  function OnlyChild(t: Tree): Tree
    requires t.Branch? && (t.left.Leaf? || t.right.Leaf?)
  {
    if t.left.Branch? then t.left else t.right
  }

  /** Splicing out a black node leaves one extra black on its child; splicing out
      a red one leaves the tree red-black. */
  lemma SplicedOut(p: Path, t: Tree)
    requires Fits(p, t) && t.Branch? && (t.left.Leaf? || t.right.Leaf?)
    ensures t.color == Black ==> RemoveInv(p, OnlyChild(t))
    ensures t.color == Red ==> Fits(p, OnlyChild(t))
  {
    var c := OnlyChild(t);
    assert Balanced(c) && NoRedRed(c) && BlackHeight(c) == BlackHeight(t.left) == BlackHeight(t.right) == 0;
    if c.Branch? {
      assert c.color == Red && NoRedRed(c.left) && NoRedRed(c.right);
    }
  }

  /** `p` goes on from `base` by left turns only. */
  predicate LeftTurns(p: Path, base: Path) {
    p == base || (p.InLeft? && LeftTurns(p.up, base))
  }

  lemma {:induction false} LeftTurnsBefore(p: Path, base: Path)
    requires LeftTurns(p, base)
    ensures Before(p) == Before(base)
  {
    if p != base {
      LeftTurnsBefore(p.up, base);
    }
  }

  lemma {:induction false} LeftTurnsRefs(p: Path, base: Path)
    requires LeftTurns(p, base)
    ensures PathRefs(base) <= PathRefs(p)
  {
    if p != base {
      LeftTurnsRefs(p.up, base);
    }
  }

  /** The path with another entry in node `z`. */
  function Relabelled(p: Path, z: Ref, e: Entry): Path {
    if p.Top? then p
    else if p.node == z then p.(entry := e)
    else p.(up := Relabelled(p.up, z, e))
  }

  predicate OnPath(p: Path, z: Ref) {
    !p.Top? && (p.node == z || OnPath(p.up, z))
  }

  lemma {:induction false} RelabelledKeeps(p: Path, z: Ref, e: Entry, h: nat)
    ensures PathRefs(Relabelled(p, z, e)) == PathRefs(p)
    ensures PathDistinct(Relabelled(p, z, e)) <==> PathDistinct(p)
    ensures PathNoRedRed(Relabelled(p, z, e)) <==> PathNoRedRed(p)
    ensures PathBalanced(Relabelled(p, z, e), h) <==> PathBalanced(p, h)
    ensures MayBeRed(Relabelled(p, z, e)) <==> MayBeRed(p)
  {
    if !p.Top? {
      RelabelledKeeps(p.up, z, e, h + if p.color == Black then 1 else 0);
    }
  }

  lemma RelabelledFits(p: Path, z: Ref, e: Entry, t: Tree)
    ensures Fits(Relabelled(p, z, e), t) <==> Fits(p, t)
    ensures RemoveInv(Relabelled(p, z, e), t) <==> RemoveInv(p, t)
  {
    RelabelledKeeps(p, z, e, BlackHeight(t));
    RelabelledKeeps(p, z, e, BlackHeight(t) + 1);
  }

  lemma {:induction false} RelabelledAll(p: Path, base: Path, z: Ref, e: Entry)
    requires LeftTurns(p, base) && base.InRight? && base.node == z && PathDistinct(p)
    ensures OnPath(p, z) && z in PathRefs(p)
    ensures Before(Relabelled(p, z, e)) == Before(base.up) + Entries(base.left) + [e]
    ensures After(Relabelled(p, z, e)) == After(p)
  {
    if p != base {
      RelabelledAll(p.up, base, z, e);
    }
  }

  // ------------------------------------------------------------------ rotations

  function RotatedLeft(t: Tree): Tree
    requires t.Branch? && t.right.Branch?
  {
    var y := t.right;
    Branch(Branch(t.left, t.node, t.color, t.entry, y.left), y.node, y.color, y.entry, y.right)
  }

  function RotatedRight(t: Tree): Tree
    requires t.Branch? && t.left.Branch?
  {
    var y := t.left;
    Branch(y.left, y.node, y.color, y.entry, Branch(y.right, t.node, t.color, t.entry, t.right))
  }

  lemma Regroup<T>(a: seq<T>, x: T, b: seq<T>, y: T, c: seq<T>)
    ensures a + [x] + (b + [y] + c) == (a + [x] + b) + [y] + c
  {}

  /** A rotation moves no entry, loses no node, keeps nodes distinct, and is
      undone by the opposite rotation. */
  lemma RotatedLeftKeeps(t: Tree)
    requires t.Branch? && t.right.Branch?
    ensures Entries(RotatedLeft(t)) == Entries(t)
    ensures Refs(RotatedLeft(t)) == Refs(t)
    ensures Distinct(t) ==> Distinct(RotatedLeft(t))
    ensures RotatedRight(RotatedLeft(t)) == t
  {
    var y := t.right;
    var x' := RotatedLeft(t).left;
    Regroup(Entries(t.left), t.entry, Entries(y.left), y.entry, Entries(y.right));
    assert Entries(y) == Entries(y.left) + [y.entry] + Entries(y.right);
    assert Entries(x') == Entries(t.left) + [t.entry] + Entries(y.left);
    assert Refs(x') == Refs(t.left) + {t.node} + Refs(y.left);
    assert Refs(y) == Refs(y.left) + {y.node} + Refs(y.right);
    if Distinct(t) {
      assert Distinct(y);
      assert Distinct(x');
    }
  }

  lemma RotatedRightKeeps(t: Tree)
    requires t.Branch? && t.left.Branch?
    ensures Entries(RotatedRight(t)) == Entries(t)
    ensures Refs(RotatedRight(t)) == Refs(t)
    ensures Distinct(t) ==> Distinct(RotatedRight(t))
    ensures RotatedLeft(RotatedRight(t)) == t
  {
    RotatedLeftKeeps(RotatedRight(t));
    var y := t.left;
    var x' := RotatedRight(t).right;
    assert Refs(x') == Refs(y.right) + {t.node} + Refs(t.right);
    assert Refs(y) == Refs(y.left) + {y.node} + Refs(y.right);
    if Distinct(t) {
      assert Distinct(y);
      assert Distinct(x');
    }
  }
}
