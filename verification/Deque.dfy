/** The growable double-ended queue: a window `head + 1 .. tail` on an array that
    doubles when the window reaches an end, and is centred again at the front. */
module Deque {
  import opened Basics

  const SMALLEST: nat := 8

  class ClibDeque<T(0)> {
    var elements: array<T>
    var head: int
    var tail: int
    var count: int

    ghost predicate Valid()
      reads this
    {
      elements.Length >= SMALLEST && 0 <= head < tail <= elements.Length && tail - head - 1 == count
    }

    ghost function Contents(): seq<T>
      requires Valid()
      reads this, elements
    {
      elements[head + 1..tail]
    }

    constructor (size: int)
      ensures Valid() && Contents() == [] && fresh(elements)
      ensures elements.Length == if size < SMALLEST then SMALLEST else size
    {
      var max := if size < SMALLEST then SMALLEST else size;
      elements := new T[max];
      head := max / 2;
      tail := max / 2 + 1;
      count := 0;
    }

    /** `realloc` to twice the capacity: the old slots keep their values. */
    method Grow()
      requires elements.Length >= SMALLEST
      modifies this`elements
      ensures fresh(elements) && elements.Length == 2 * old(elements.Length)
      ensures elements[..old(elements.Length)] == old(elements[..])
    {
      var larger := new T[2 * elements.Length];
      forall i | 0 <= i < elements.Length {
        larger[i] := elements[i];
      }
      elements := larger;
    }

    method PushBack(x: T)
      requires Valid()
      modifies this, elements
      ensures Valid() && Contents() == old(Contents()) + [x]
      ensures elements == old(elements) || fresh(elements)
      ensures elements.Length
        == if old(tail) == old(elements.Length) then 2 * old(elements.Length) else old(elements.Length)
    {
      ghost var s, a := Contents(), elements[..];
      if tail == elements.Length {
        Grow();
        SamePrefix(a, elements[..], head + 1, tail);
      }
      elements[tail] := x;
      count := count + 1;
      tail := tail + 1;
      assert elements[head + 1..tail - 1] == s;
    }

    /** Copies `n` slots as if through a buffer; source and target may overlap. */
    static method MemMove(a: array<T>, to: nat, from: nat, n: nat)
      requires to + n <= a.Length && from + n <= a.Length
      modifies a
      ensures a[to..to + n] == old(a[from..from + n])
      ensures a[..to] == old(a[..to]) && a[to + n..] == old(a[to + n..])
    {
      forall i | 0 <= i < n {
        a[to + i] := a[from + i];
      }
    }

    /** Moves the window to the middle of the doubled array. One slot more than the
        window is copied, the one at `tail`. */
    method Recentre()
      requires Valid() && head == 0
      modifies this, elements
      ensures Valid() && Contents() == old(Contents()) && fresh(elements)
      ensures head > 0 && elements.Length == 2 * old(elements.Length)
    {
      ghost var a := elements[..];
      Grow();
      SamePrefix(a, elements[..], 1, tail);
      var to := (elements.Length - count) / 2;
      var from := head + 1;
      var moved := tail - from + 1;
      MemMove(elements, to, from, moved);
      head := to - 1;
      tail := head + moved;
      assert elements[to..tail] == elements[to..to + moved][..count];
    }

    method PushFront(x: T)
      requires Valid()
      modifies this, elements
      ensures Valid() && Contents() == [x] + old(Contents())
      ensures elements == old(elements) || fresh(elements)
      ensures elements.Length == if old(head) == 0 then 2 * old(elements.Length) else old(elements.Length)
    {
      ghost var s := Contents();
      if head == 0 {
        Recentre();
      }
      elements[head] := x;
      count := count + 1;
      head := head - 1;
      assert elements[head + 2..tail] == s;
    }

    /** Removes the last element and hands it to the destructor. */
    method PopBack() returns (destroyed: T)
      requires Valid() && count > 0
      modifies this`tail, this`count
      ensures Valid() && old(Contents()) == Contents() + [destroyed]
    {
      destroyed := elements[tail - 1];
      tail := tail - 1;
      count := count - 1;
    }

    method PopFront() returns (destroyed: T)
      requires Valid() && count > 0
      modifies this`head, this`count
      ensures Valid() && old(Contents()) == [destroyed] + Contents()
    {
      destroyed := elements[head + 1];
      head := head + 1;
      count := count - 1;
    }

    method Front() returns (x: T)
      requires Valid() && count > 0
      ensures x == Contents()[0]
    {
      x := elements[head + 1];
    }

    method Back() returns (x: T)
      requires Valid() && count > 0
      ensures x == Contents()[|Contents()| - 1]
    {
      x := elements[tail - 1];
    }

    method Empty() returns (b: bool)
      requires Valid()
      ensures b <==> Contents() == []
    {
      b := count == 0;
    }

    /** The answer of `size_c_deque` is one too small. */
    method Size() returns (n: int)
      requires Valid()
      ensures n == |Contents()| - 1
    {
      n := count - 1;
    }

    /** Hands every element to the destructor, first to last. */
    method Delete() returns (destroyed: seq<T>)
      requires Valid()
      ensures destroyed == Contents()
    {
      destroyed := [];
      for i := head + 1 to tail
        invariant destroyed == elements[head + 1..i]
      {
        destroyed := destroyed + [elements[i]];
      }
    }

    /** Performs a whole run of operations. */
    method Run(ops: seq<Op<T>>)
      requires Valid() && Playable(Contents(), ops)
      modifies this, elements
      ensures Valid() && Contents() == Played(old(Contents()), ops)
    {
      ghost var s := Contents();
      for i := 0 to |ops|
        invariant Valid() && (elements == old(elements) || fresh(elements))
        invariant Playable(Contents(), ops[i..]) && Played(Contents(), ops[i..]) == Played(s, ops)
      {
        assert ops[i..][0] == ops[i] && ops[i..][1..] == ops[i + 1..];
        match ops[i] {
          case PushBack(x) => PushBack(x);
          case PushFront(x) => PushFront(x);
          case PopBack => var _ := PopBack();
          case PopFront => var _ := PopFront();
        }
      }
    }
  }

  lemma SamePrefix<T>(a: seq<T>, b: seq<T>, lo: nat, hi: nat)
    requires lo <= hi <= |a| <= |b| && b[..|a|] == a
    ensures b[lo..hi] == a[lo..hi]
  {
    assert forall i :: lo <= i < hi ==> b[i] == b[..|a|][i];
  }

  datatype Op<T> = PushBack(x: T) | PushFront(x: T) | PopBack | PopFront

  function Apply<T>(s: seq<T>, op: Op<T>): seq<T>
    requires op.PopBack? || op.PopFront? ==> s != []
  {
    match op
    case PushBack(x) => s + [x]
    case PushFront(x) => [x] + s
    case PopBack => s[..|s| - 1]
    case PopFront => s[1..]
  }

  /** Nothing is popped from an empty deque; the source does not check. */
  predicate Playable<T>(s: seq<T>, ops: seq<Op<T>>)
    decreases |ops|
  {
    ops == [] || ((ops[0].PopBack? || ops[0].PopFront? ==> s != []) && Playable(Apply(s, ops[0]), ops[1..]))
  }

  function Played<T>(s: seq<T>, ops: seq<Op<T>>): seq<T>
    requires Playable(s, ops)
    decreases |ops|
  {
    if ops == [] then s else Played(Apply(s, ops[0]), ops[1..])
  }

  function PushesBack<T>(xs: seq<T>): (ops: seq<Op<T>>)
    ensures |ops| == |xs|
  {
    seq(|xs|, i requires 0 <= i < |xs| => PushBack(xs[i]))
  }

  function PushesFront<T>(xs: seq<T>): (ops: seq<Op<T>>)
    ensures |ops| == |xs|
  {
    seq(|xs|, i requires 0 <= i < |xs| => PushFront(xs[i]))
  }

  lemma {:induction false} PushedBack<T>(s: seq<T>, xs: seq<T>)
    ensures Playable(s, PushesBack(xs)) && Played(s, PushesBack(xs)) == s + xs
    decreases |xs|
  {
    if xs != [] {
      PushedBack(s + [xs[0]], xs[1..]);
      assert PushesBack(xs)[1..] == PushesBack(xs[1..]);
      assert s + [xs[0]] + xs[1..] == s + xs;
    } else {
      assert s + xs == s;
    }
  }

  function Reversed<T>(xs: seq<T>): (r: seq<T>)
    ensures |r| == |xs| && forall i :: 0 <= i < |xs| ==> r[i] == xs[|xs| - 1 - i]
  {
    seq(|xs|, i requires 0 <= i < |xs| => xs[|xs| - 1 - i])
  }

  lemma ReversedOne<T>(xs: seq<T>, s: seq<T>)
    requires xs != []
    ensures Reversed(xs) + s == Reversed(xs[1..]) + ([xs[0]] + s)
  {
    assert Reversed(xs) == Reversed(xs[1..]) + [xs[0]];
  }

  /** Pushed at the front they stand in reverse. */
  lemma {:induction false} PushedFront<T>(s: seq<T>, xs: seq<T>)
    ensures Playable(s, PushesFront(xs)) && Played(s, PushesFront(xs)) == Reversed(xs) + s
    decreases |xs|
  {
    hide Reversed;
    if xs != [] {
      PushedFront([xs[0]] + s, xs[1..]);
      assert PushesFront(xs)[1..] == PushesFront(xs[1..]);
      ReversedOne(xs, s);
    } else {
      assert Reversed(xs) + s == s;
    }
  }

  function Pops<T>(n: nat, front: bool): (ops: seq<Op<T>>)
    ensures |ops| == n && forall i :: 0 <= i < n ==> ops[i] == if front then PopFront else PopBack
  {
    seq(n, _ => if front then PopFront else PopBack)
  }

  lemma PopsOne<T>(n: nat, front: bool)
    requires n > 0
    ensures Pops<T>(n, front)[1..] == Pops<T>(n - 1, front)
  {}

  /** A deque is a queue: what is pushed at the back comes out at the front in that order. */
  lemma {:induction false} PoppedFront<T>(s: seq<T>, n: nat)
    requires n <= |s|
    ensures Playable(s, Pops(n, true)) && Played(s, Pops(n, true)) == s[n..]
    decreases n
  {
    if n > 0 {
      PopsOne<T>(n, true);
      PoppedFront(s[1..], n - 1);
      assert s[1..][n - 1..] == s[n..];
    }
  }

  /** And a stack: what was pushed at the back goes in reverse. */
  lemma {:induction false} PoppedBack<T>(s: seq<T>, n: nat)
    requires n <= |s|
    ensures Playable(s, Pops(n, false)) && Played(s, Pops(n, false)) == s[..|s| - n]
    decreases n
  {
    if n > 0 {
      PopsOne<T>(n, false);
      PoppedBack(s[..|s| - 1], n - 1);
      assert s[..|s| - 1][..|s| - 1 - (n - 1)] == s[..|s| - n];
    }
  }

  /** An iterator holds an index into the array. */
  class DequeIterator<T(0)> {
    const deque: ClibDeque<T>
    var current: int

    /** The elements it has still to give. */
    ghost function Rest(): seq<T>
      requires deque.Valid() && deque.head < current <= deque.tail
      reads this, deque, deque.elements
    {
      deque.elements[current..deque.tail]
    }

    constructor (deque: ClibDeque<T>)
      requires deque.Valid()
      ensures this.deque == deque && deque.head < current <= deque.tail && Rest() == deque.Contents()
    {
      this.deque := deque;
      current := deque.head + 1;
    }

    method GetNext() returns (r: Option<T>)
      requires deque.Valid() && deque.head < current <= deque.tail
      modifies this
      ensures deque.head < current <= deque.tail
      ensures old(Rest()) == [] ==> r == None && Rest() == []
      ensures old(Rest()) != [] ==> r == Some(old(Rest())[0]) && Rest() == old(Rest())[1..]
    {
      if current < 0 || current >= deque.tail {
        return None;
      }
      r := Some(deque.elements[current]);
      current := current + 1;
    }

    /** Overwrites the element given last. */
    method ReplaceValue(x: T)
      requires deque.Valid() && deque.head + 1 < current <= deque.tail
      modifies deque.elements
      ensures deque.Valid() && Rest() == old(Rest())
      ensures deque.Contents() == old(deque.Contents())[|old(deque.Contents())| - |Rest()| - 1 := x]
    {
      deque.elements[current - 1] := x;
    }
  }

  ghost predicate Position<T>(all: seq<T>, visited: seq<T>, next: Option<T>, rest: seq<T>) {
    match next
    case None => all == visited && rest == []
    case Some(x) => all == visited + [x] + rest
  }

  lemma Advances<T>(all: seq<T>, visited: seq<T>, x: T, rest: seq<T>, next: Option<T>, rest': seq<T>)
    requires Position(all, visited, Some(x), rest)
    requires rest == [] ==> next == None && rest' == []
    requires rest != [] ==> next == Some(rest[0]) && rest' == rest[1..]
    ensures Position(all, visited + [x], next, rest')
  {
    assert rest != [] ==> visited + [x] + rest == visited + [x] + [rest[0]] + rest[1..];
  }

  /** A full iteration gives the contents, first to last, and then ends. */
  method Iterate<T(0)>(deque: ClibDeque<T>) returns (visited: seq<T>)
    requires deque.Valid()
    ensures visited == deque.Contents()
  {
    hide Position;
    var it := new DequeIterator(deque);
    ghost var all := it.Rest();
    visited := [];
    var next := it.GetNext();
    Begins(all, next, it.Rest());
    while next.Some?
      invariant it.deque == deque && deque.head < it.current <= deque.tail
      invariant Position(all, visited, next, it.Rest())
      modifies it
      decreases next.Some?, |it.Rest()|
    {
      ghost var rest := it.Rest();
      var x := next.value;
      next := it.GetNext();
      Advances(all, visited, x, rest, next, it.Rest());
      visited := visited + [x];
    }
    Ends(all, visited, it.Rest());
  }

  lemma Begins<T>(all: seq<T>, next: Option<T>, rest: seq<T>)
    requires all == [] ==> next == None && rest == []
    requires all != [] ==> next == Some(all[0]) && rest == all[1..]
    ensures Position(all, [], next, rest)
  {}

  lemma Ends<T>(all: seq<T>, visited: seq<T>, rest: seq<T>)
    requires Position(all, visited, None, rest)
    ensures visited == all
  {}
}
