/** Ordered entry sequences: what a comparator must satisfy, and the
    mathematical map that a sorted sequence of entries denotes. */
module KeyOrder {
  import opened RedBlackTheory

  type Comparator = (Key, Key) -> int

  ghost predicate TotalOrder(cmp: Comparator) {
    && (forall a, b :: cmp(a, b) == 0 <==> a == b)
    && (forall a, b :: cmp(a, b) < 0 <==> cmp(b, a) > 0)
    && (forall a, b, c :: cmp(a, b) < 0 && cmp(b, c) < 0 ==> cmp(a, c) < 0)
  }

  /** Strictly increasing keys. */
  ghost predicate Sorted(cmp: Comparator, s: seq<Entry>) {
    forall i, j :: 0 <= i < j < |s| ==> cmp(s[i].key, s[j].key) < 0
  }

  ghost predicate AllBelow(cmp: Comparator, s: seq<Entry>, k: Key) {
    forall i :: 0 <= i < |s| ==> cmp(k, s[i].key) > 0
  }

  ghost predicate AllAbove(cmp: Comparator, s: seq<Entry>, k: Key) {
    forall i :: 0 <= i < |s| ==> cmp(k, s[i].key) < 0
  }

  function MapOf(s: seq<Entry>): map<Key, Value> {
    if s == [] then map[] else MapOf(s[..|s| - 1])[s[|s| - 1].key := s[|s| - 1].value]
  }

  lemma {:induction false} MapOfKeys(s: seq<Entry>, k: Key)
    ensures k in MapOf(s) <==> exists i :: 0 <= i < |s| && s[i].key == k
  {
    if s != [] {
      var init := s[..|s| - 1];
      MapOfKeys(init, k);
      if i :| 0 <= i < |s| && s[i].key == k && i < |s| - 1 {
        assert init[i].key == k;
      }
    }
  }

  lemma {:induction false} MapOfValue(cmp: Comparator, s: seq<Entry>, i: nat)
    requires TotalOrder(cmp) && Sorted(cmp, s) && i < |s|
    ensures s[i].key in MapOf(s) && MapOf(s)[s[i].key] == s[i].value
  {
    if i < |s| - 1 {
      MapOfValue(cmp, s[..|s| - 1], i);
      assert cmp(s[i].key, s[|s| - 1].key) < 0;
    }
  }

  lemma {:induction false} MapOfSize(cmp: Comparator, s: seq<Entry>)
    requires TotalOrder(cmp) && Sorted(cmp, s)
    ensures |MapOf(s)| == |s|
  {
    if s != [] {
      var init, l := s[..|s| - 1], s[|s| - 1];
      MapOfSize(cmp, init);
      MapOfKeys(init, l.key);
      forall i | 0 <= i < |init|
        ensures init[i].key != l.key
      {
        assert cmp(s[i].key, s[|s| - 1].key) < 0;
      }
      assert MapOf(s).Keys == MapOf(init).Keys + {l.key};
      assert |MapOf(s).Keys| == |MapOf(init).Keys| + 1;
    }
  }

  lemma Absent(cmp: Comparator, a: seq<Entry>, k: Key, b: seq<Entry>)
    requires TotalOrder(cmp) && AllBelow(cmp, a, k) && AllAbove(cmp, b, k)
    ensures k !in MapOf(a + b)
  {
    MapOfKeys(a + b, k);
    forall i | 0 <= i < |a + b|
      ensures (a + b)[i].key != k
    {
      assert cmp(k, k) == 0;
      if i < |a| {
        assert (a + b)[i] == a[i];
      } else {
        assert (a + b)[i] == b[i - |a|];
      }
    }
  }

  lemma SortedInsert(cmp: Comparator, a: seq<Entry>, e: Entry, b: seq<Entry>)
    requires TotalOrder(cmp) && Sorted(cmp, a + b)
    requires AllBelow(cmp, a, e.key) && AllAbove(cmp, b, e.key)
    ensures Sorted(cmp, a + [e] + b)
    ensures e.key !in MapOf(a + b)
  {
    var s := a + [e] + b;
    forall i, j | 0 <= i < j < |s|
      ensures cmp(s[i].key, s[j].key) < 0
    {
      var i' := if i > |a| then i - 1 else i;
      var j' := if j > |a| then j - 1 else j;
      if i != |a| && j != |a| {
        assert (a + b)[i'] == s[i] && (a + b)[j'] == s[j];
      } else if i == |a| {
        assert s[j] == b[j - |a| - 1];
      } else {
        assert s[i] == a[i];
      }
    }
    Absent(cmp, a, e.key, b);
  }

  lemma SortedRemove(cmp: Comparator, a: seq<Entry>, e: Entry, b: seq<Entry>)
    requires TotalOrder(cmp) && Sorted(cmp, a + [e] + b)
    ensures Sorted(cmp, a + b)
    ensures AllBelow(cmp, a, e.key) && AllAbove(cmp, b, e.key)
  {
    var s := a + [e] + b;
    assert s[|a|] == e;
    forall i | 0 <= i < |a|
      ensures cmp(e.key, a[i].key) > 0
    {
      assert s[i] == a[i] && cmp(s[i].key, s[|a|].key) < 0;
    }
    forall i | 0 <= i < |b|
      ensures cmp(e.key, b[i].key) < 0
    {
      assert s[|a| + 1 + i] == b[i] && cmp(s[|a|].key, s[|a| + 1 + i].key) < 0;
    }
    forall i, j | 0 <= i < j < |a + b|
      ensures cmp((a + b)[i].key, (a + b)[j].key) < 0
    {
      var i' := if i >= |a| then i + 1 else i;
      var j' := if j >= |a| then j + 1 else j;
      assert (a + b)[i] == s[i'] && (a + b)[j] == s[j'];
    }
  }

  lemma MapOfSnoc(s: seq<Entry>, e: Entry)
    ensures MapOf(s + [e]) == MapOf(s)[e.key := e.value]
  {
    assert (s + [e])[..|s|] == s;
  }

  lemma {:induction false} MapOfAround(a: seq<Entry>, e: Entry, b: seq<Entry>)
    requires forall i :: 0 <= i < |b| ==> b[i].key != e.key
    ensures MapOf(a + [e] + b) == MapOf(a + b)[e.key := e.value]
  {
    hide MapOf;
    if b == [] {
      MapOfSnoc(a, e);
      assert a + [e] + b == a + [e] && a + b == a;
    } else {
      var init, l := b[..|b| - 1], b[|b| - 1];
      assert b == init + [l];
      MapOfAround(a, e, init);
      assert a + [e] + b == (a + [e] + init) + [l] && a + b == (a + init) + [l];
      MapOfSnoc(a + [e] + init, l);
      MapOfSnoc(a + init, l);
      assert l.key != e.key;
    }
  }

  /** One more entry in the sequence is one more pair in the map. */
  lemma MapOfInsert(cmp: Comparator, a: seq<Entry>, e: Entry, b: seq<Entry>)
    requires TotalOrder(cmp) && Sorted(cmp, a + [e] + b)
    ensures MapOf(a + [e] + b) == MapOf(a + b)[e.key := e.value]
    ensures e.key !in MapOf(a + b)
    ensures MapOf(a + b) == MapOf(a + [e] + b) - {e.key}
  {
    SortedRemove(cmp, a, e, b);
    SortedInsert(cmp, a, e, b);
    forall i | 0 <= i < |b|
      ensures b[i].key != e.key
    {
      assert cmp(e.key, b[i].key) < 0;
    }
    MapOfAround(a, e, b);
  }

  // ------------------------------------------------------- descending by key

  /** Every entry outside the subtree in the hole is on the right side of `k`. */
  ghost predicate Around(cmp: Comparator, p: Path, k: Key) {
    AllBelow(cmp, Before(p), k) && AllAbove(cmp, After(p), k)
  }

  lemma Spread<T>(a: seq<T>, l: seq<T>, e: T, r: seq<T>, b: seq<T>)
    ensures a + (l + [e] + r) + b == (a + l) + [e] + (r + b)
    ensures [e] + r + b == [e] + (r + b)
  {}

  /** The keys of a node's left and right surroundings are below and above its own. */
  lemma Middle(cmp: Comparator, p: Path, t: Tree)
    requires TotalOrder(cmp) && Sorted(cmp, All(p, t)) && t.Branch?
    ensures AllBelow(cmp, Before(p) + Entries(t.left), t.entry.key)
    ensures AllAbove(cmp, Entries(t.right) + After(p), t.entry.key)
    ensures All(p, t) == (Before(p) + Entries(t.left)) + [t.entry] + (Entries(t.right) + After(p))
  {
    var a, b := Before(p) + Entries(t.left), Entries(t.right) + After(p);
    Spread(Before(p), Entries(t.left), t.entry, Entries(t.right), After(p));
    SortedRemove(cmp, a, t.entry, b);
  }

  lemma AboveToo(cmp: Comparator, e: Entry, b: seq<Entry>, k: Key)
    requires TotalOrder(cmp) && AllAbove(cmp, b, e.key) && cmp(k, e.key) < 0
    ensures AllAbove(cmp, [e] + b, k)
  {
    forall i | 0 <= i < |b|
      ensures cmp(k, b[i].key) < 0
    {
      assert cmp(e.key, b[i].key) < 0;
    }
  }

  lemma BelowToo(cmp: Comparator, a: seq<Entry>, e: Entry, k: Key)
    requires TotalOrder(cmp) && AllBelow(cmp, a, e.key) && cmp(k, e.key) > 0
    ensures AllBelow(cmp, a + [e], k)
  {
    forall i | 0 <= i < |a|
      ensures cmp(k, a[i].key) > 0
    {
      assert cmp(a[i].key, e.key) < 0 && cmp(e.key, k) < 0;
    }
  }

  /** Equal keys at `t`: the map has the key, with the value stored there. */
  lemma Hit(cmp: Comparator, p: Path, t: Tree, k: Key)
    requires TotalOrder(cmp) && Sorted(cmp, All(p, t)) && t.Branch? && cmp(k, t.entry.key) == 0
    ensures k == t.entry.key && k in MapOf(All(p, t)) && MapOf(All(p, t))[k] == t.entry.value
  {
    var a := Before(p) + Entries(t.left);
    Middle(cmp, p, t);
    assert All(p, t)[|a|] == t.entry;
    MapOfValue(cmp, All(p, t), |a|);
  }

  /** An empty hole with every key on its own side: the map lacks the key. */
  lemma Miss(cmp: Comparator, p: Path, k: Key)
    requires TotalOrder(cmp) && Sorted(cmp, All(p, Leaf)) && Around(cmp, p, k)
    ensures All(p, Leaf) == Before(p) + After(p) && k !in MapOf(All(p, Leaf))
  {
    assert All(p, Leaf) == Before(p) + After(p);
    Absent(cmp, Before(p), k, After(p));
  }

  /** Comparing again with the parent tells on which side the hole is. */
  lemma SideOfKey(cmp: Comparator, p: Path, k: Key)
    requires Around(cmp, p, k) && !p.Top?
    ensures p.InLeft? ==> cmp(k, p.entry.key) < 0
    ensures p.InRight? ==> cmp(k, p.entry.key) > 0
  {
    if p.InLeft? {
      assert After(p)[0] == p.entry;
    } else {
      assert Before(p)[|Before(p)| - 1] == p.entry;
    }
  }

  /** Filling the hole where the descent for `e.key` ended adds exactly that pair. */
  lemma Filled(cmp: Comparator, p: Path, t: Tree, e: Entry)
    requires TotalOrder(cmp) && Sorted(cmp, All(p, Leaf)) && Around(cmp, p, e.key)
    requires Entries(t) == [e]
    ensures Sorted(cmp, All(p, t)) && MapOf(All(p, t)) == MapOf(All(p, Leaf))[e.key := e.value]
  {
    Miss(cmp, p, e.key);
    SortedInsert(cmp, Before(p), e, After(p));
    MapOfInsert(cmp, Before(p), e, After(p));
  }

  /** Replacing a node by its only child drops exactly its own entry. */
  lemma DroppedHere(cmp: Comparator, p: Path, t: Tree)
    requires TotalOrder(cmp) && Sorted(cmp, All(p, t)) && t.Branch? && (t.left.Leaf? || t.right.Leaf?)
    ensures Sorted(cmp, All(p, OnlyChild(t)))
    ensures MapOf(All(p, OnlyChild(t))) == MapOf(All(p, t)) - {t.entry.key}
  {
    var a, b := Before(p) + Entries(t.left), Entries(t.right) + After(p);
    Middle(cmp, p, t);
    assert All(p, OnlyChild(t)) == a + b by {
      Regroup4(Before(p), Entries(t.left), Entries(t.right), After(p));
      assert Entries(OnlyChild(t)) == Entries(t.left) + Entries(t.right);
    }
    SortedRemove(cmp, a, t.entry, b);
    MapOfInsert(cmp, a, t.entry, b);
  }

  /** Moving the next entry up into `t` and bypassing its old node `u` drops
      exactly the entry of `t`. */
  lemma DroppedBelow(cmp: Comparator, p: Path, t: Tree, q: Path, u: Tree)
    requires TotalOrder(cmp) && Sorted(cmp, All(p, t)) && t.Branch? && All(q, u) == All(p, t)
    requires u.Branch? && u.left.Leaf? && PathDistinct(q)
    requires LeftTurns(q, InRight(t.left, t.node, t.color, t.entry, p))
    ensures var q' := Relabelled(q, t.node, u.entry);
      && Sorted(cmp, All(q', u.right)) && MapOf(All(q', u.right)) == MapOf(All(p, t)) - {t.entry.key}
  {
    var a, b := Before(p) + Entries(t.left), Entries(u.right) + After(q);
    var base := InRight(t.left, t.node, t.color, t.entry, p);
    LeftTurnsBefore(q, base);
    RelabelledAll(q, base, t.node, u.entry);
    Shift(a, t.entry, u.entry, Entries(u.right), After(q));
    assert Entries(u) == [u.entry] + Entries(u.right);
    SortedRemove(cmp, a, t.entry, [u.entry] + b);
    MapOfInsert(cmp, a, t.entry, [u.entry] + b);
  }

  lemma Shift<T>(a: seq<T>, x: T, y: T, r: seq<T>, b: seq<T>)
    ensures (a + [x]) + ([y] + r) + b == a + [x] + ([y] + (r + b))
    ensures (a + [y]) + r + b == a + ([y] + (r + b))
  {}

  lemma GoLeft(cmp: Comparator, p: Path, t: Tree, k: Key)
    requires TotalOrder(cmp) && Sorted(cmp, All(p, t)) && Around(cmp, p, k)
    requires t.Branch? && cmp(k, t.entry.key) < 0
    ensures Around(cmp, InLeft(p, t.node, t.color, t.entry, t.right), k)
  {
    Middle(cmp, p, t);
    Spread(Before(p), Entries(t.left), t.entry, Entries(t.right), After(p));
    AboveToo(cmp, t.entry, Entries(t.right) + After(p), k);
  }

  lemma GoRight(cmp: Comparator, p: Path, t: Tree, k: Key)
    requires TotalOrder(cmp) && Sorted(cmp, All(p, t)) && Around(cmp, p, k)
    requires t.Branch? && cmp(k, t.entry.key) > 0
    ensures Around(cmp, InRight(t.left, t.node, t.color, t.entry, p), k)
  {
    Middle(cmp, p, t);
    BelowToo(cmp, Before(p) + Entries(t.left), t.entry, k);
  }
}
