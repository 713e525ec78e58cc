/** What a peer that is gone before its reply leaves behind: the bulk is given back as a
    whole, and with it buffers that were given away before. */
module Resets {
  import opened Basics
  import opened Messages
  import opened StreamTheory
  import opened Sums
  import opened Bulks
  import opened BulkLimits

  /** `w` is `whole` up to the reply number `k`, if there is one, with its request in the
      slot. */
  predicate Cuts(whole: Trace, w: Trace, k: nat) {
    && whole.end != Reset && (k >= |whole.sent| ==> w == whole)
    && (k < |whole.sent| ==>
          && w.end == Reset && w.sent == whole.sent[..k] && InSlot(w.slot) == whole.sent[k]
          && w.put <= whole.put && w.lost <= whole.lost)
  }

  /** Up to the reply that fails, a bulk goes as it would if the peer stayed. */
  lemma {:induction false} WalkCut(g: Config, next: int, s: Slot, fs: seq<Frag>, k: nat)
    requires ConfigOk(g) && SlotOk(g, s) && FragsOk(g, fs) && NO_BUFFER < next
    ensures Cuts(Walk(g, next, s, fs, None), Walk(g, next, s, fs, Some(k)), k)
    decreases Total(Contents(fs))
  {
    hide Turn, SlotOk, FragsOk, Walk, Total, Stuck, Cleared, Contents, Step, Fails, Continued, Cuts, Did, Settled;
    WalkUnfolds(g, next, s, fs, None);
    WalkUnfolds(g, next, s, fs, Some(k));
    if fs != [] && !Stuck(s.pending) && Turn(g, next, s, fs[0]).Turned? {
      var t := Turn(g, next, s, fs[0]);
      var next', rest := Onward(t, next), t.left + fs[1..];
      var k' := if t.ready && k > 0 then k - 1 else k;
      WalkCut(g, next', Cleared(t), rest, k');
      FailsOnly(t, k);
      CutMore(t, fs[0], rest, next', k, Walk(g, next', Cleared(t), rest, None),
              Walk(g, next', Cleared(t), rest, Some(k')));
    } else {
      CutNowhere(Walk(g, next, s, fs, None), k);
    }
  }

  lemma CutNowhere(w: Trace, k: nat)
    requires w.end != Reset && w.sent == []
    ensures Cuts(w, w, k)
  {}

  lemma FailsOnly(t: Turned, k: nat)
    requires t.Turned?
    ensures !Fails(t, None) && Later(None, t.ready) == None
    ensures Fails(t, Some(k)) <==> t.ready && k == 0
    ensures Later(Some(k), t.ready) == Some(if t.ready && k > 0 then k - 1 else k)
  {}

  lemma CutMore(t: Turned, f: Frag, rest: seq<Frag>, next: int, k: nat, whole: Trace, w: Trace)
    requires t.Turned? && Cuts(whole, w, if t.ready && k > 0 then k - 1 else k)
    ensures Cuts(Continued(Did(t, f), whole),
                 if t.ready && k == 0 then Continued(Settled(t, f), Trace(Reset, t.slot, rest, next, [], [], []))
                 else Continued(Did(t, f), w), k)
  {
    if t.ready && k > 0 {
      CutFirst(InSlot(t.slot), whole.sent, k);
    } else if !t.ready {
      assert [] + whole.sent == whole.sent && [] + w.sent == w.sent;
    }
  }

  lemma CutFirst<T>(x: T, s: seq<T>, k: nat)
    requires k > 0
    ensures k <= |s| ==> ([x] + s)[..k] == [x] + s[..k - 1]
    ensures k < |[x] + s| ==> ([x] + s)[k] == s[k - 1]
  {}

  // ------------------------------------------------------- what was read by then

  /** How many fragments end within the first `e` bytes of a bulk. */
  function Used(fs: seq<Frag>, e: int): nat {
    if fs == [] || |fs[0].bytes| > e then 0 else 1 + Used(fs[1..], e - |fs[0].bytes|)
  }

  /** How many bytes of the bulk there are up to the end of message `k`; `b` are the bytes
      pending before it. */
  function EndOf(b: Bytes, fs: seq<Frag>, k: nat): int {
    var ms := Parse(b + Concat(Contents(fs))).messages;
    if k < |ms| then |Concat(ms[..k + 1])| - |b| else 0
  }

  lemma {:induction false} ConcatJoin(a: seq<Bytes>, b: seq<Bytes>)
    ensures Concat(a + b) == Concat(a) + Concat(b)
  {
    if a == [] {
      assert a + b == b;
    } else {
      assert (a + b)[1..] == a[1..] + b;
      ConcatJoin(a[1..], b);
    }
  }

  /** How many bytes of the bulk the requests answered and the one in the slot took. */
  function Taken(s: Slot, w: Trace): int {
    |Concat(Contents(w.sent))| + |w.slot.pending.bytes| - |s.pending.bytes|
  }

  lemma TakenContinued(s: Slot, s': Slot, t: Turned, f: Frag, w: Trace, taken: int)
    requires t.Turned? && s' == Cleared(t) && |s.pending.bytes| + taken == |t.slot.pending.bytes|
    ensures Taken(s, Continued(Did(t, f), w)) == taken + Taken(s', w)
  {
    var sent := Contents(Replied(t));
    assert Contents(Replied(t) + w.sent) == sent + Contents(w.sent);
    ConcatJoin(sent, Contents(w.sent));
    if t.ready {
      assert sent == [t.slot.pending.bytes] && sent[1..] == [];
      assert Concat(sent) == t.slot.pending.bytes + [] == t.slot.pending.bytes;
    }
  }

  lemma TurnTakes(g: Config, next: int, s: Slot, f: Frag)
    requires ConfigOk(g) && SlotOk(g, s) && FragOk(g, f) && Turn(g, next, s, f).Turned?
    ensures var t := Turn(g, next, s, f); var taken := |t.slot.pending.bytes| - |s.pending.bytes|;
      && 0 <= taken <= |f.bytes| && |t.left| <= 1 && (t.left == [] <==> taken == |f.bytes|)
      && (t.left != [] ==> t.left[0].buf == f.buf && |t.left[0].bytes| == |f.bytes| - taken)
  {
    hide Step, Turn, Partial;
    SlotPartial(g, s);
    TurnSteps(g, next, s, f);
    TurnLeaves(g, next, s, f);
    StepKeeps(s.pending, f.bytes, g.test);
  }

  /** The fragments read to their end when the peer is found gone are those that end with
      its request or before. */
  lemma {:induction false} ReadByThen(g: Config, next: int, s: Slot, fs: seq<Frag>, gone: Option<nat>)
    requires ConfigOk(g) && SlotOk(g, s) && FragsOk(g, fs) && NO_BUFFER < next
    requires Walk(g, next, s, fs, gone).end == Reset
    ensures var w := Walk(g, next, s, fs, gone);
      0 <= Taken(s, w) && |fs| == |w.left| + Used(fs, Taken(s, w))
    decreases Total(Contents(fs))
  {
    hide Turn, SlotOk, FragsOk, Walk, Total, Stuck, Cleared, Contents, Step, Taken, Did;
    WalkUnfolds(g, next, s, fs, gone);
    var t, f := Turn(g, next, s, fs[0]), fs[0];
    var next', rest := Onward(t, next), t.left + fs[1..];
    FirstOk(g, fs);
    TurnTakes(g, next, s, f);
    var taken := |t.slot.pending.bytes| - |s.pending.bytes|;
    var w := Walk(g, next, s, fs, gone);
    if Fails(t, gone) {
      NothingSent(s, w);
      UsedShifts(fs, rest, f, t.left, taken, taken);
      UsedNone(g, rest);
    } else {
      var w' := Walk(g, next', Cleared(t), rest, Later(gone, t.ready));
      ReadByThen(g, next', Cleared(t), rest, Later(gone, t.ready));
      TakenContinued(s, Cleared(t), t, f, w', taken);
      UsedShifts(fs, rest, f, t.left, taken, taken + Taken(Cleared(t), w'));
    }
  }

  lemma NothingSent(s: Slot, w: Trace)
    requires w.sent == []
    ensures Taken(s, w) == |w.slot.pending.bytes| - |s.pending.bytes|
  {
    assert Contents(w.sent) == [];
  }

  lemma UsedNone(g: Config, fs: seq<Frag>)
    requires FragsOk(g, fs)
    ensures Used(fs, 0) == 0
  {
    if fs != [] {
      FirstOk(g, fs);
    }
  }

  lemma UsedShifts(fs: seq<Frag>, rest: seq<Frag>, f: Frag, left: seq<Frag>, taken: int, e: int)
    requires fs != [] && f == fs[0] && rest == left + fs[1..] && |left| <= 1
    requires 0 <= taken <= |f.bytes| && (left == [] <==> taken == |f.bytes|) && taken <= e
    requires left != [] ==> |left[0].bytes| == |f.bytes| - taken
    ensures |fs| - Used(fs, e) == |rest| - Used(rest, e - taken)
  {
    if left == [] {
      assert rest == fs[1..];
    } else {
      assert rest[0] == left[0] && rest[1..] == fs[1..];
    }
  }

  /** The same in lengths alone. */
  lemma TakenIsEnd(g: Config, next: int, s: Slot, fs: seq<Frag>, k: nat)
    requires ConfigOk(g) && SlotOk(g, s) && FragsOk(g, fs) && NO_BUFFER < next
    requires k < |Walk(g, next, s, fs, None).sent|
    ensures Taken(s, Walk(g, next, s, fs, Some(k))) == EndOf(s.pending.bytes, fs, k)
  {
    hide Walk, Drive, SlotOk, FragsOk;
    var w := Walk(g, next, s, fs, Some(k));
    WalkCut(g, next, s, fs, k);
    WalkIsDrive(g, next, s, fs, Some(k));
    FragsNonEmpty(g, fs);
    DriveIsParse(s.pending, Contents(fs), g.test);
    var ms := Parse(s.pending.bytes + Concat(Contents(fs))).messages;
    var sent := Contents(w.sent) + [w.slot.pending.bytes];
    assert ms[..k + 1] == sent;
    ConcatJoin(Contents(w.sent), [w.slot.pending.bytes]);
    assert Concat([w.slot.pending.bytes]) == w.slot.pending.bytes + [] == w.slot.pending.bytes;
  }

  lemma FragsNonEmpty(g: Config, fs: seq<Frag>)
    requires FragsOk(g, fs)
    ensures NonEmpty(Contents(fs))
  {
    forall i | 0 <= i < |fs|
      ensures Contents(fs)[i] != []
    {
      assert FragOk(g, fs[i]);
    }
  }

  /** `left` are the last fragments of `fs`, by their buffers. */
  predicate Last(left: seq<Frag>, fs: seq<Frag>) {
    |left| <= |fs| && Bufs(left) == Bufs(fs)[|fs| - |left|..]
  }

  lemma LastOfAll(fs: seq<Frag>)
    ensures Last(fs, fs) && Last([], fs)
  {
    assert Bufs([]) == [];
  }

  lemma LastOfRest(left: seq<Frag>, fs: seq<Frag>, rest: seq<Frag>, more: seq<Frag>)
    requires fs != [] && |more| <= 1 && (more != [] ==> more[0].buf == fs[0].buf) && rest == more + fs[1..]
    requires Last(left, rest)
    ensures Last(left, fs)
  {
    assert Bufs(rest) == if more == [] then Bufs(fs)[1..] else Bufs(fs);
  }

  /** What is unread are the last descriptors. */
  lemma {:induction false} UnreadAreLast(g: Config, next: int, s: Slot, fs: seq<Frag>, gone: Option<nat>)
    requires ConfigOk(g) && SlotOk(g, s) && FragsOk(g, fs) && NO_BUFFER < next
    ensures Last(Walk(g, next, s, fs, gone).left, fs)
    decreases Total(Contents(fs))
  {
    hide Turn, SlotOk, FragsOk, Walk, Total, Stuck, Cleared, Contents, Step, Did, Settled, Fails, Last, Bufs;
    WalkUnfolds(g, next, s, fs, gone);
    LastOfAll(fs);
    if fs != [] && !Stuck(s.pending) && Turn(g, next, s, fs[0]).Turned? {
      var t := Turn(g, next, s, fs[0]);
      var rest := t.left + fs[1..];
      FirstOk(g, fs);
      TurnTakes(g, next, s, fs[0]);
      if Fails(t, gone) {
        LastOfAll(rest);
        LastOfRest(rest, fs, rest, t.left);
      } else {
        UnreadAreLast(g, Onward(t, next), Cleared(t), rest, Later(gone, t.ready));
        LastOfRest(Walk(g, Onward(t, next), Cleared(t), rest, Later(gone, t.ready)).left, fs, rest, t.left);
      }
    }
  }

  // ---------------------------------------------------------- given back twice

  /** The buffers of a bulk and the pending one are all different, and none is new. */
  ghost predicate Separate(next: int, s: Slot, fs: seq<Frag>) {
    && (forall i, j :: 0 <= i < j < |fs| ==> fs[i].buf != fs[j].buf)
    && forall i :: 0 <= i < |fs| ==> fs[i].buf < next && fs[i].buf != s.buf
  }

  /** A buffer of the bulk that was given away before the whole bulk is given back. */
  predicate Twice(fs: seq<Frag>, w: Trace, x: int) {
    x in Bufs(fs) && (x in w.put || x in Bufs(w.sent))
  }

  lemma {:induction false} CountIn(s: seq<int>, x: int)
    ensures Count(s, x) > 0 <==> x in s
  {
    if s != [] {
      CountIn(s[1..], x);
    }
  }

  lemma {:induction false} CountDistinct(s: seq<int>, i: nat)
    requires i < |s| && forall j :: 0 <= j < |s| && j != i ==> s[j] != s[i]
    ensures Count(s, s[i]) == 1
  {
    hide Sum;
    SumAround(Is(s[i]), s, i);
    SumZero(Is(s[i]), s[..i] + s[i + 1..]);
  }

  lemma InLast(left: seq<Frag>, fs: seq<Frag>, i: nat)
    requires Last(left, fs) && i < |fs| && forall j :: 0 <= j < |fs| && j != i ==> fs[j].buf != fs[i].buf
    ensures fs[i].buf in Bufs(left) <==> i >= |fs| - |left|
  {
    var n := |fs| - |left|;
    if i >= n {
      assert Bufs(left)[i - n] == fs[i].buf;
    }
    if fs[i].buf in Bufs(left) {
      var j :| 0 <= j < |left| && Bufs(left)[j] == fs[i].buf;
      assert Bufs(fs)[n + j] == fs[i].buf;
    }
  }

  /** Where the buffer of descriptor `i` is when the peer is found gone. */
  lemma OneOfFive(g: Config, next: int, s: Slot, fs: seq<Frag>, gone: Option<nat>, i: nat)
    requires ConfigOk(g) && SlotOk(g, s) && FragsOk(g, fs) && NO_BUFFER < next && Separate(next, s, fs) && i < |fs|
    ensures var w := Walk(g, next, s, fs, gone);
      Twice(fs, w, fs[i].buf)
      <==> i < |fs| - |w.left| && fs[i].buf !in w.lost && fs[i].buf !in Held(w.slot)
  {
    hide Walk, Sum, SlotOk, FragsOk, Count;
    var w, x := Walk(g, next, s, fs, gone), fs[i].buf;
    WalkBalances(g, next, s, fs, gone, x);
    UnreadAreLast(g, next, s, fs, gone);
    CountDistinct(Bufs(fs), i);
    CountIn(Held(s), x);
    CountIn(w.put, x);
    CountIn(Bufs(w.sent), x);
    CountIn(w.lost, x);
    CountIn(Held(w.slot), x);
    CountIn(Bufs(w.left), x);
    InLast(w.left, fs, i);
    assert Bufs(fs)[i] == x;
  }

  /** A descriptor that ends by the end of request `k`, in buffer `x`, neither holds that
      request, which is in buffer `held`, nor has a message that is too tight. */
  predicate Again(g: Config, b: Bytes, fs: seq<Frag>, k: nat, held: int, x: int) {
    x != held
    && exists i :: 0 <= i < Used(fs, EndOf(b, fs, k)) && i < |fs| && fs[i].buf == x && !TooTight(g, b, fs, i)
  }

  /** The buffers of such descriptors are exactly those given back twice. */
  lemma TwiceIff(g: Config, next: int, s: Slot, fs: seq<Frag>, k: nat, x: int)
    requires ConfigOk(g) && SlotOk(g, s) && FragsOk(g, fs) && NO_BUFFER < next && Separate(next, s, fs)
    requires k < |Walk(g, next, s, fs, None).sent|
    ensures Twice(fs, Walk(g, next, s, fs, Some(k)), x)
      <==> Again(g, s.pending.bytes, fs, k, Walk(g, next, s, fs, None).sent[k].buf, x)
  {
    hide Walk, SlotOk, FragsOk, TooTight, EndOf, Used, Taken;
    var w, b := Walk(g, next, s, fs, Some(k)), s.pending.bytes;
    WalkCut(g, next, s, fs, k);
    ReadByThen(g, next, s, fs, Some(k));
    TakenIsEnd(g, next, s, fs, k);
    if x in Bufs(fs) {
      var i :| 0 <= i < |fs| && Bufs(fs)[i] == x;
      OneOfFive(g, next, s, fs, Some(k), i);
      LostIff(g, next, s, fs, Some(k), x);
      BufferNamed(g, fs, i);
    }
  }

  lemma BufferNamed(g: Config, fs: seq<Frag>, i: nat)
    requires FragsOk(g, fs) && i < |fs|
    ensures fs[i].buf != NO_BUFFER
  {
    assert FragOk(g, fs[i]);
  }

  /** Each descriptor that ends by the end of request `k` holds that request, which is in
      buffer `held`, or has a message that is too tight. */
  predicate Clean(g: Config, b: Bytes, fs: seq<Frag>, k: nat, held: int) {
    forall i :: 0 <= i < Used(fs, EndOf(b, fs, k)) && i < |fs| ==> TooTight(g, b, fs, i) || fs[i].buf == held
  }

  lemma NoneAgain(g: Config, b: Bytes, fs: seq<Frag>, k: nat, held: int, again: set<int>)
    requires forall x :: x in again <==> Again(g, b, fs, k, held, x)
    ensures again == {} <==> Clean(g, b, fs, k, held)
  {
    hide TooTight, EndOf, Used;
    if forall x :: x !in again {
      assert again == {};
      forall i | 0 <= i < Used(fs, EndOf(b, fs, k)) && i < |fs|
        ensures TooTight(g, b, fs, i) || fs[i].buf == held
      {
        assert !Again(g, b, fs, k, held, fs[i].buf);
      }
    }
  }

  /** A request to add nothing to a cart: all zeroes. */
  const NOTE: Bytes := seq(76, _ => Z)

  /** A request that is alone in its descriptor stays in its buffer. */
  lemma NoteTurns(g: Config, next: int, buf: int)
    requires ConfigOk(g) && buf != NO_BUFFER
    ensures SlotOk(g, FREE) && FragOk(g, Frag(buf, 0, NOTE))
    ensures Turn(g, next, FREE, Frag(buf, 0, NOTE))
      == Turned(Slot(buf, 0, Pending(true, NOTE, 76)), [], true, false, false, false)
  {
    assert MessageSize(NOTE) == Some(76);
  }

  lemma NoteWalks(g: Config, next: int, f: Frag, fs: seq<Frag>, gone: Option<nat>)
    requires ConfigOk(g) && NO_BUFFER < next && FragsOk(g, fs) && f == Frag(f.buf, 0, NOTE) && f.buf != NO_BUFFER
    ensures SlotOk(g, FREE) && FragsOk(g, [f] + fs)
    ensures Walk(g, next, FREE, [f] + fs, gone)
      == if gone == Some(0) then Trace(Reset, Slot(f.buf, 0, Pending(true, NOTE, 76)), fs, next, [], [], [])
         else Continued(Log([f], [], []), Walk(g, next, FREE, fs, Later(gone, true)))
  {
    hide Turn, Walk, SlotOk, FragOk, ConfigOk;
    NoteTurns(g, next, f.buf);
    WalkUnfolds(g, next, FREE, [f] + fs, gone);
    assert ([f] + fs)[1..] == fs && [] + fs == fs;
  }

  /** Two requests, each in a descriptor of its own, and the peer gone at the second
      reply: the buffer of the first, which went out with its reply, is given back. */
  lemma SentIsGivenBack(g: Config)
    requires ConfigOk(g)
    ensures var fs := [Frag(0, 0, NOTE), Frag(1, 0, NOTE)];
      && SlotOk(g, FREE) && FragsOk(g, fs) && Separate(2, FREE, fs)
      && var w := Walk(g, 2, FREE, fs, Some(1));
         w.end == Reset && w.sent == [fs[0]] && InSlot(w.slot) == fs[1] && Twice(fs, w, 0) && !Twice(fs, w, 1)
  {
    hide Turn, Walk, SlotOk, FragOk, ConfigOk;
    var f0, f1 := Frag(0, 0, NOTE), Frag(1, 0, NOTE);
    assert [f0] + [f1] == [f0, f1] && [f1] + [] == [f1];
    NoteWalks(g, 2, f1, [], Some(0));
    NoteWalks(g, 2, f0, [f1], Some(1));
    assert Bufs([f0, f1])[0] == 0 && Bufs([f0])[0] == 0;
  }

  /** One request in one descriptor, and the peer gone at its reply: nothing is given back
      twice, though the slot still points to the buffer. */
  lemma OneRequestIsClean(g: Config)
    requires ConfigOk(g)
    ensures var fs := [Frag(0, 0, NOTE)];
      && SlotOk(g, FREE) && FragsOk(g, fs)
      && var w := Walk(g, 1, FREE, fs, Some(0));
         w.end == Reset && w.slot.buf == 0 && forall x :: !Twice(fs, w, x)
  {
    hide Turn, Walk, SlotOk, FragOk, ConfigOk;
    NoteWalks(g, 1, Frag(0, 0, NOTE), [], Some(0));
    assert [Frag(0, 0, NOTE)] + [] == [Frag(0, 0, NOTE)];
  }
}
