/** The map interface on top of the tree, refined to a mathematical map in which
    inserting never overwrites, and its iterator. */
module CMap {
  import opened RedBlackTheory
  import opened KeyOrder
  import opened RedBlackHeap
  import opened RedBlackTree
  import opened RedBlackTraversal

  const MAP_NOT_INITIALIZED: int := 501

  class ClibMap {
    const tree: RbTree

    constructor (cmp: Comparator)
      requires TotalOrder(cmp)
      ensures fresh(tree) && tree.Valid() && tree.Contents() == map[] && tree.Strays() == {}
    {
      tree := new RbTree(cmp);
    }
  }

  method InsertMap(m: ClibMap?, key: Key, value: Value) returns (rc: int)
    requires m != null ==> m.tree.Valid()
    modifies if m == null then {} else {m.tree}
    ensures m == null ==> rc == MAP_NOT_INITIALIZED
    ensures m != null ==> m.tree.Valid()
    ensures m != null && key in old(m.tree.Contents()) ==>
      rc == KEY_DUPLICATE && m.tree.Contents() == old(m.tree.Contents())
    ensures m != null && key !in old(m.tree.Contents()) ==>
      rc == SUCCESS && m.tree.Contents() == old(m.tree.Contents())[key := value]
  {
    if m == null {
      return MAP_NOT_INITIALIZED;
    }
    rc := m.tree.Insert(key, value);
  }

  method ExistsMap(m: ClibMap?, key: Key) returns (found: bool)
    requires m != null ==> m.tree.Valid()
    ensures found <==> m != null && key in m.tree.Contents()
  {
    if m == null {
      return false;
    }
    ghost var turns;
    var node;
    node, turns := m.tree.Find(key);
    found := node != NULL;
  }

  /** Unlinks the node of the key, if any, and frees it. */
  method RemoveMap(m: ClibMap?, key: Key) returns (rc: int)
    requires m != null ==> m.tree.Valid()
    modifies if m == null then {} else {m.tree}
    ensures m == null ==> rc == MAP_NOT_INITIALIZED
    ensures m != null ==>
      && rc == SUCCESS && m.tree.Valid()
      && m.tree.Contents() == old(m.tree.Contents()) - {key}
      && m.tree.Strays() == old(m.tree.Strays())
  {
    if m == null {
      return MAP_NOT_INITIALIZED;
    }
    var node := m.tree.Remove(key);
    if node != NULL {
      m.tree.Free(node);
    }
    rc := SUCCESS;
  }

  method FindMap(m: ClibMap?, key: Key) returns (found: bool, value: Value)
    requires m != null ==> m.tree.Valid()
    ensures found <==> m != null && key in m.tree.Contents()
    ensures found ==> value == m.tree.Contents()[key]
  {
    value := *;
    if m == null {
      return false, value;
    }
    ghost var turns;
    var node;
    node, turns := m.tree.Find(key);
    if node == NULL {
      return false, value;
    }
    return true, m.tree.heap[node].value;
  }

  // -------------------------------------------------------------- whole runs

  datatype Op = Insert(k: Key, v: Value) | Remove(k: Key) | Find(k: Key) | Exists(k: Key)

  datatype Answer = Code(rc: int) | Absent | Present(v: Value) | Truth(b: bool)

  /** What a mathematical map answers, and becomes. */
  function Reply(s: map<Key, Value>, op: Op): Answer {
    match op
    case Insert(k, v) => Code(if k in s then KEY_DUPLICATE else SUCCESS)
    case Remove(k) => Code(SUCCESS)
    case Find(k) => if k in s then Present(s[k]) else Absent
    case Exists(k) => Truth(k in s)
  }

  function Next(s: map<Key, Value>, op: Op): map<Key, Value> {
    match op
    case Insert(k, v) => if k in s then s else s[k := v]
    case Remove(k) => s - {k}
    case _ => s
  }

  function MapAfter(s: map<Key, Value>, ops: seq<Op>): map<Key, Value> {
    if ops == [] then s else Next(MapAfter(s, ops[..|ops| - 1]), ops[|ops| - 1])
  }

  method Perform(m: ClibMap, op: Op) returns (a: Answer)
    requires m.tree.Valid()
    modifies m.tree
    ensures m.tree.Valid() && m.tree.Contents() == Next(old(m.tree.Contents()), op)
    ensures a == Reply(old(m.tree.Contents()), op)
  {
    match op
    case Insert(k, v) =>
      var rc := InsertMap(m, k, v);
      a := Code(rc);
    case Remove(k) =>
      var rc := RemoveMap(m, k);
      a := Code(rc);
    case Find(k) =>
      var found, v := FindMap(m, k);
      a := if found then Present(v) else Absent;
    case Exists(k) =>
      var found := ExistsMap(m, k);
      a := Truth(found);
  }

  /** Any sequence of operations on a new map answers as the mathematical map
      does, and the tree's self-check passes after every one of them. */
  method Run(cmp: Comparator, ops: seq<Op>) returns (answers: seq<Answer>)
    requires TotalOrder(cmp)
    ensures |answers| == |ops|
    ensures forall i :: 0 <= i < |ops| ==> answers[i] == Reply(MapAfter(map[], ops[..i]), ops[i])
  {
    hide TotalOrder, Reply, Next, MapAfter, RbTree.Valid, RbTree.Contents;
    var m := new ClibMap(cmp);
    answers := [];
    AfterNone(ops);
    for i := 0 to |ops|
      invariant m.tree.Valid() && m.tree.Contents() == MapAfter(map[], ops[..i]) && fresh(m.tree)
      invariant |answers| == i
      invariant forall j :: 0 <= j < i ==> answers[j] == Reply(MapAfter(map[], ops[..j]), ops[j])
    {
      var a := Perform(m, ops[i]);
      var ok := m.tree.DebugVerify();
      assert ok;
      answers := answers + [a];
      AfterOne(ops, i);
    }
  }

  lemma AfterNone(ops: seq<Op>)
    ensures MapAfter(map[], ops[..0]) == map[]
  {}

  lemma AfterOne(ops: seq<Op>, i: nat)
    requires i < |ops|
    ensures MapAfter(map[], ops[..i + 1]) == Next(MapAfter(map[], ops[..i]), ops[i])
  {
    assert ops[..i + 1][..i] == ops[..i];
  }

  /** Operation `j` is the first insertion of `k` since `k` was last removed. */
  ghost predicate Binds(ops: seq<Op>, k: Key, j: nat) {
    && j < |ops| && ops[j].Insert? && ops[j].k == k
    && (forall i :: j < i < |ops| ==> ops[i] != Remove(k))
    && (forall h :: 0 <= h < j && ops[h].Insert? && ops[h].k == k ==> RemovedBetween(ops, k, h, j))
  }

  ghost predicate RemovedBetween(ops: seq<Op>, k: Key, h: nat, j: nat) {
    exists i :: h < i < j < |ops| && ops[i] == Remove(k)
  }

  lemma BindsOn(ops: seq<Op>, op: Op, k: Key, j: nat)
    requires j < |ops|
    ensures Binds(ops + [op], k, j) <==> Binds(ops, k, j) && op != Remove(k)
  {
    var all := ops + [op];
    forall h: nat | h < j
      ensures RemovedBetween(all, k, h, j) <==> RemovedBetween(ops, k, h, j)
    {
      if i :| h < i < j < |ops| && ops[i] == Remove(k) {
        assert all[i] == Remove(k);
      }
    }
    assert all[|ops|] == op;
    assert forall i :: 0 <= i < |ops| ==> all[i] == ops[i];
  }

  /** What is in the map after some operations, by the operations alone: a key with the
      value of its first insertion since it was last removed. */
  lemma {:induction false} LookupIs(ops: seq<Op>, k: Key)
    ensures k in MapAfter(map[], ops) <==> exists j: nat :: Binds(ops, k, j)
    ensures forall j: nat :: Binds(ops, k, j) ==> k in MapAfter(map[], ops) && MapAfter(map[], ops)[k] == ops[j].v
  {
    hide Binds;
    if ops == [] {
      NothingBinds(k);
    } else {
      var init, last := ops[..|ops| - 1], ops[|ops| - 1];
      LookupIs(init, k);
      assert ops == init + [last];
      forall j: nat | j < |init|
        ensures Binds(ops, k, j) <==> Binds(init, k, j) && last != Remove(k)
      {
        BindsOn(init, last, k, j);
      }
      LastBinds(init, last, k);
    }
  }

  lemma NothingBinds(k: Key)
    ensures forall j: nat :: !Binds([], k, j)
  {}

  lemma BindsBelow(ops: seq<Op>, k: Key, j: nat)
    requires Binds(ops, k, j)
    ensures j < |ops| && ops[j].Insert?
  {}

  /** An operation binds its key exactly if it inserts a key that is not bound. */
  lemma LastBinds(init: seq<Op>, last: Op, k: Key)
    ensures Binds(init + [last], k, |init|) <==> last.Insert? && last.k == k && forall j: nat :: !Binds(init, k, j)
    ensures forall j: nat :: Binds(init, k, j) ==> j < |init|
    ensures forall j: nat :: Binds(init + [last], k, j) ==> j <= |init| && (init + [last])[j].Insert?
  {
    var all, n := init + [last], |init|;
    assert all[n] == last;
    assert forall i :: 0 <= i < n ==> all[i] == init[i];
    if last.Insert? && last.k == k {
      if j: nat :| Binds(init, k, j) {
        assert all[j].Insert? && all[j].k == k;
        assert !RemovedBetween(all, k, j, n);
      } else {
        forall h | 0 <= h < n && all[h].Insert? && all[h].k == k
          ensures RemovedBetween(all, k, h, n)
        {
          LaterRemoved(init, k, h);
          var i :| h < i < n && init[i] == Remove(k);
          assert all[i] == Remove(k);
        }
      }
    }
  }

  /** If nothing is bound, every insertion was followed by a removal. */
  lemma {:induction false} LaterRemoved(ops: seq<Op>, k: Key, h: nat)
    requires h < |ops| && ops[h].Insert? && ops[h].k == k && forall j: nat :: !Binds(ops, k, j)
    ensures exists i :: h < i < |ops| && ops[i] == Remove(k)
    decreases h
  {
    if g: nat :| g < h && ops[g].Insert? && ops[g].k == k && !RemovedBetween(ops, k, g, h) {
      LaterRemoved(ops, k, g);
      var i :| g < i < |ops| && ops[i] == Remove(k);
      assert i > h;
    } else {
      assert !Binds(ops, k, h);
    }
  }

  /** The answers of a run, by the operations before: insertions never overwrite. */
  lemma AnswersAre(ops: seq<Op>, k: Key, v: Value)
    ensures Reply(MapAfter(map[], ops), Remove(k)) == Code(0)
    ensures forall j: nat :: Binds(ops, k, j) ==>
      && Reply(MapAfter(map[], ops), Find(k)) == Present(ops[j].v)
      && Reply(MapAfter(map[], ops), Exists(k)) == Truth(true)
      && Reply(MapAfter(map[], ops), Insert(k, v)) == Code(401)
    ensures (forall j: nat :: !Binds(ops, k, j)) ==>
      && Reply(MapAfter(map[], ops), Find(k)) == Absent
      && Reply(MapAfter(map[], ops), Exists(k)) == Truth(false)
      && Reply(MapAfter(map[], ops), Insert(k, v)) == Code(0)
  {
    hide Binds, MapAfter;
    LookupIs(ops, k);
    forall j: nat | Binds(ops, k, j)
      ensures j < |ops| && ops[j].Insert?
    {
      BindsBelow(ops, k, j);
    }
  }

  // ---------------------------------------------------------------- iteration

  class MapIterator {
    const container: ClibMap
    var current: Ref

    constructor (m: ClibMap)
      ensures container == m && current == NULL
    {
      container, current := m, NULL;
    }

    /** The first call, and any call after the end, starts at the minimum. */
    method GetNext(ghost i: nat) returns (e: Ref)
      requires container.tree.Valid()
      requires current != NULL ==>
        if container.tree.shape.Leaf? then current == NIL
        else i < |Inorder(container.tree.shape)| && Inorder(container.tree.shape)[i] == current
      modifies this
      ensures e == current
      ensures var s := Inorder(container.tree.shape);
        if old(current) == NULL then e == if s == [] then NIL else s[0]
        else e == if i + 1 < |s| then s[i + 1] else NULL
    {
      ghost var t := container.tree;
      InorderLength(t.shape);
      if current == NULL {
        ghost var q, u;
        AtTop(t.shape);
        current, q, u := Minimum(container.tree, container.tree.root, Top, t.shape);
      } else {
        current := Successor(container.tree, current, i);
      }
      e := current;
    }
  }

  predicate Holds(h: Heap, x: Ref, e: Entry) {
    x in h && x > NIL && e == Entry(h[x].key, h[x].value)
  }

  lemma InOrderFacts(tree: RbTree)
    requires tree.Valid()
    ensures var s, e := Inorder(tree.shape), Entries(tree.shape);
      && |s| == |e| == |tree.Contents()| && MapOf(e) == tree.Contents() && Sorted(tree.compare, e)
      && (tree.shape.Leaf? <==> s == []) && (s == [] <==> tree.Contents() == map[])
      && forall k :: 0 <= k < |s| ==> Holds(tree.heap, s[k], e[k])
  {
    InorderLength(tree.shape);
    tree.SizeBound();
    SizeIsEntries(tree.shape);
    AllNodes(tree.heap, tree.root, Top, tree.root, tree.shape);
    forall k | 0 <= k < |Inorder(tree.shape)|
      ensures Holds(tree.heap, Inorder(tree.shape)[k], Entries(tree.shape)[k])
    {
      InorderHolds(tree.heap, tree.root, NULL, tree.shape, k);
    }
  }

  /** Iterating a non-empty map visits every pair exactly once, in increasing key
      order. Iterating an empty map visits the sentinel, which is no pair. */
  method Iterate(m: ClibMap) returns (visited: seq<Ref>)
    requires m.tree.Valid()
    ensures m.tree.Contents() == map[] <==> visited == [NIL]
    ensures m.tree.Contents() != map[] ==>
      && |visited| == |Entries(m.tree.shape)| == |m.tree.Contents()|
      && Sorted(m.tree.compare, Entries(m.tree.shape)) && MapOf(Entries(m.tree.shape)) == m.tree.Contents()
      && (forall k :: 0 <= k < |visited| ==> Holds(m.tree.heap, visited[k], Entries(m.tree.shape)[k]))
  {
    hide At, TotalOrder, Sorted, RedBlack;
    ghost var s := Inorder(m.tree.shape);
    InOrderFacts(m.tree);
    var it := new MapIterator(m);
    visited := [];
    var e := it.GetNext(0);
    ghost var i := 0;
    while e != NULL
      invariant it.container == m && it.current == e && fresh(it) && m.tree.Valid()
      invariant s == [] ==> (e == NIL && visited == []) || (e == NULL && visited == [NIL])
      invariant s != [] ==> i <= |s| && visited == s[..i] && e == if i < |s| then s[i] else NULL
      decreases if s == [] then (if e == NULL then 0 else 1) else |s| - i
    {
      visited := visited + [e];
      e := it.GetNext(i);
      i := i + 1;
    }
  }
}
