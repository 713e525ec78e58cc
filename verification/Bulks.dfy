/** One bulk of descriptors as values: reassembly with the buffers the bytes sit in,
    and where each buffer ends up. */
module Bulks {
  import opened Basics
  import opened Messages
  import opened StreamTheory
  import opened Sums

  /** Stands for a null `addr`. */
  const NO_BUFFER: int := -1

  /** A descriptor with the bytes it shows. */
  datatype Frag = Frag(buf: int, off: nat, bytes: Bytes)

  /** A pending buffer with the bytes gathered in it. */
  datatype Slot = Slot(buf: int, off: nat, pending: Pending)

  const FREE: Slot := Slot(NO_BUFFER, 0, EMPTY)

  /** Buffers hold `limit` bytes, and fresh ones are filled from `headroom` on. */
  datatype Config = Config(limit: nat, headroom: nat, test: HeaderTest)

  predicate ConfigOk(g: Config) {
    g.headroom + LONGEST <= g.limit
  }

  predicate SlotOk(g: Config, s: Slot) {
    && Partial(s.pending, g.test) && s.off + |s.pending.bytes| <= g.limit
    && (s.pending.active ==> s.buf != NO_BUFFER) && (!s.pending.active ==> s == FREE)
  }

  predicate FragOk(g: Config, f: Frag) {
    f.buf != NO_BUFFER && f.bytes != [] && f.off + |f.bytes| <= g.limit
  }

  predicate FragsOk(g: Config, fs: seq<Frag>) {
    forall i :: 0 <= i < |fs| ==> FragOk(g, fs[i])
  }

  function Contents(fs: seq<Frag>): (bs: seq<Bytes>)
    ensures |bs| == |fs| && forall i :: 0 <= i < |fs| ==> bs[i] == fs[i].bytes
  {
    seq(|fs|, i requires 0 <= i < |fs| => fs[i].bytes)
  }

  /** A received descriptor: where it points in its buffer, and the bytes there. */
  datatype Arrival = Arrival(off: nat, bytes: Bytes)

  predicate ArrivalOk(g: Config, a: Arrival) {
    a.bytes != [] && a.off + |a.bytes| <= g.limit
  }

  predicate BulkOk(g: Config, bulk: seq<Arrival>) {
    forall i :: 0 <= i < |bulk| ==> ArrivalOk(g, bulk[i])
  }

  /** Received buffers get the next numbers, like those obtained. */
  function Numbered(bulk: seq<Arrival>, next: int): (fs: seq<Frag>)
    ensures |fs| == |bulk|
    ensures forall i :: 0 <= i < |bulk| ==> fs[i] == Frag(next + i, bulk[i].off, bulk[i].bytes)
  {
    seq(|bulk|, i requires 0 <= i < |bulk| => Frag(next + i, bulk[i].off, bulk[i].bytes))
  }

  lemma NumberedOk(g: Config, bulk: seq<Arrival>, next: int)
    requires BulkOk(g, bulk) && NO_BUFFER < next
    ensures FragsOk(g, Numbered(bulk, next))
  {
    forall i | 0 <= i < |bulk|
      ensures FragOk(g, Numbered(bulk, next)[i])
    {
      assert ArrivalOk(g, bulk[i]);
    }
  }

  /** What one step does with the fragment and its buffer: the rest of the fragment,
      if any; whether its buffer is given back or forgotten; whether a fresh buffer
      is obtained. */
  datatype Turned =
    | Unknown
    | Over
    | Turned(slot: Slot, left: seq<Frag>, ready: bool, put: bool, lost: bool, gathered: bool)

  /** One step of `process_desc`; `next` is the number of the next fresh buffer. */
  function Turn(g: Config, next: int, s: Slot, f: Frag): Turned
    requires Partial(s.pending, g.test) && f.bytes != []
  {
    if s.pending.active && s.off + |s.pending.bytes| + Min(Needed(s.pending), |f.bytes|) > g.limit then Over
    else
      match Step(s.pending, f.bytes, g.test)
      case UnknownCommand => Unknown
      case Stepped(q, left, ready) =>
        StepKeeps(s.pending, f.bytes, g.test);
        var rest := if left == [] then [] else [Frag(f.buf, f.off + (|f.bytes| - |left|), left)];
        if s.pending.active then
          Turned(Slot(s.buf, s.off, q), rest, ready, left == [], false, false)
        else if left == [] && (|f.bytes| < HEADER || ready || g.limit - f.off >= q.expected) then
          Turned(Slot(f.buf, f.off, q), [], ready, false, false, false)
        else
          Turned(Slot(next, g.headroom, q), rest, ready, false, left == [], true)
  }

  // ----------------------------------------------------------------- whole bulks

  /** `Reset` tells that the peer was gone when a reply was sent. */
  datatype End = Finished | Exit | Spins | Overruns | Reset

  /** How a bulk ends: what is pending then and what is still unread, the number of
      the next fresh buffer, and in order the requests answered, the buffers given
      back, and those forgotten. */
  datatype Trace =
    Trace(end: End, slot: Slot, left: seq<Frag>, next: int, sent: seq<Frag>, put: seq<int>, lost: seq<int>)

  /** What some turns did: the requests answered, the buffers given back, and those
      forgotten. */
  datatype Log = Log(sent: seq<Frag>, put: seq<int>, lost: seq<int>)

  const QUIET: Log := Log([], [], [])

  function Join(a: Log, b: Log): Log {
    Log(a.sent + b.sent, a.put + b.put, a.lost + b.lost)
  }

  function Continued(log: Log, w: Trace): Trace {
    w.(sent := log.sent + w.sent, put := log.put + w.put, lost := log.lost + w.lost)
  }

  /** The slot after a step: a ready message is sent and the slot cleared. */
  function Cleared(t: Turned): Slot
    requires t.Turned?
  {
    if t.ready then FREE else t.slot
  }

  /** The ready message, in its buffer. */
  function Replied(t: Turned): seq<Frag>
    requires t.Turned?
  {
    if t.ready then [InSlot(t.slot)] else []
  }

  function InSlot(s: Slot): Frag {
    Frag(s.buf, s.off, s.pending.bytes)
  }

  function One(b: bool, x: int): seq<int> {
    if b then [x] else []
  }

  /** What a turn on fragment `f` gives back and forgets. */
  function Settled(t: Turned, f: Frag): Log
    requires t.Turned?
  {
    Log([], One(t.put, f.buf), One(t.lost, f.buf))
  }

  function Did(t: Turned, f: Frag): Log
    requires t.Turned?
  {
    Settled(t, f).(sent := Replied(t))
  }

  /** The peer is gone when reply number `gone` is sent; this is that number after a turn. */
  function Later(gone: Option<nat>, ready: bool): Option<nat> {
    if ready && gone.Some? && gone.value > 0 then Some(gone.value - 1) else gone
  }

  /** The ready message of a turn finds its peer gone. */
  predicate Fails(t: Turned, gone: Option<nat>) {
    t.Turned? && t.ready && gone == Some(0)
  }

  function Onward(t: Turned, next: int): int {
    if t.Turned? && t.gathered then next + 1 else next
  }

  function Walk(g: Config, next: int, s: Slot, fs: seq<Frag>, gone: Option<nat>): Trace
    requires ConfigOk(g) && SlotOk(g, s) && FragsOk(g, fs) && NO_BUFFER < next
    decreases Total(Contents(fs))
  {
    if fs == [] then Trace(Finished, s, [], next, [], [], [])
    else if Stuck(s.pending) then Trace(Spins, s, fs, next, [], [], [])
    else
      match Turn(g, next, s, fs[0])
      case Unknown => Trace(Exit, s, fs, next, [], [], [])
      case Over => Trace(Overruns, s, fs, next, [], [], [])
      case Turned(_, left, ready, _, _, _) =>
        TurnKeeps(g, next, s, fs);
        var t := Turn(g, next, s, fs[0]);
        if Fails(t, gone) then
          Continued(Settled(t, fs[0]), Trace(Reset, t.slot, left + fs[1..], Onward(t, next), [], [], []))
        else
          Continued(Did(t, fs[0]), Walk(g, Onward(t, next), Cleared(t), left + fs[1..], Later(gone, ready)))
  }

  lemma TurnKeepsSlot(g: Config, next: int, s: Slot, f: Frag)
    requires ConfigOk(g) && SlotOk(g, s) && FragOk(g, f) && NO_BUFFER < next
    requires Turn(g, next, s, f).Turned?
    ensures SlotOk(g, Cleared(Turn(g, next, s, f)))
  {
    hide MessageSize;
    StepKeeps(s.pending, f.bytes, g.test);
  }

  /** A turn leaves everything well formed, and takes at least one byte. */
  lemma TurnKeeps(g: Config, next: int, s: Slot, fs: seq<Frag>)
    requires ConfigOk(g) && SlotOk(g, s) && FragsOk(g, fs) && fs != [] && !Stuck(s.pending) && NO_BUFFER < next
    requires Turn(g, next, s, fs[0]).Turned?
    ensures var t := Turn(g, next, s, fs[0]); var rest := t.left + fs[1..];
      && SlotOk(g, Cleared(t)) && FragsOk(g, rest)
      && Contents(rest) == Left(Step(s.pending, fs[0].bytes, g.test).left, Contents(fs)[1..])
      && Total(Contents(rest)) < Total(Contents(fs))
  {
    hide Step, Total, Left;
    var f, t := fs[0], Turn(g, next, s, fs[0]);
    var left := Step(s.pending, f.bytes, g.test).left;
    StepKeeps(s.pending, f.bytes, g.test);
    NoProgress(s.pending, f.bytes, g.test);
    TurnKeepsSlot(g, next, s, f);
    ContentsLeft(f, t.left, left, fs[1..]);
    assert Contents(fs)[0] == f.bytes && Contents(fs)[1..] == Contents(fs[1..]);
    TotalIs(Contents(fs));
  }

  lemma ContentsLeft(f: Frag, rest: seq<Frag>, left: Bytes, fs: seq<Frag>)
    requires |left| <= |f.bytes|
    requires rest == if left == [] then [] else [Frag(f.buf, f.off + (|f.bytes| - |left|), left)]
    ensures Contents(rest + fs) == Left(left, Contents(fs))
  {
    if left == [] {
      assert rest + fs == fs;
    }
  }

  lemma TotalIs(bs: seq<Bytes>)
    requires bs != []
    ensures Total(bs) == |bs[0]| + Total(bs[1..])
  {}

  /** The cases of `Walk`, one level deep. */
  lemma WalkUnfolds(g: Config, next: int, s: Slot, fs: seq<Frag>, gone: Option<nat>)
    requires ConfigOk(g) && SlotOk(g, s) && FragsOk(g, fs) && NO_BUFFER < next
    ensures fs == [] ==> Walk(g, next, s, fs, gone) == Trace(Finished, s, [], next, [], [], [])
    ensures fs != [] ==> fs[0].bytes != [] && Partial(s.pending, g.test)
    ensures fs != [] && Stuck(s.pending) ==> Walk(g, next, s, fs, gone) == Trace(Spins, s, fs, next, [], [], [])
    ensures fs != [] && !Stuck(s.pending) && Turn(g, next, s, fs[0]).Unknown? ==>
      Walk(g, next, s, fs, gone) == Trace(Exit, s, fs, next, [], [], [])
    ensures fs != [] && !Stuck(s.pending) && Turn(g, next, s, fs[0]).Over? ==>
      Walk(g, next, s, fs, gone) == Trace(Overruns, s, fs, next, [], [], [])
    ensures fs != [] && !Stuck(s.pending) && Turn(g, next, s, fs[0]).Turned? ==>
      var t := Turn(g, next, s, fs[0]); var rest := t.left + fs[1..];
      && SlotOk(g, Cleared(t)) && FragsOk(g, rest)
      && Contents(rest) == Left(Step(s.pending, fs[0].bytes, g.test).left, Contents(fs)[1..])
      && Total(Contents(rest)) < Total(Contents(fs))
      && Walk(g, next, s, fs, gone)
         == if Fails(t, gone) then
              Continued(Settled(t, fs[0]), Trace(Reset, t.slot, rest, Onward(t, next), [], [], []))
            else Continued(Did(t, fs[0]), Walk(g, Onward(t, next), Cleared(t), rest, Later(gone, t.ready)))
  {
    hide Step, Turn;
    if fs != [] && !Stuck(s.pending) && Turn(g, next, s, fs[0]).Turned? {
      TurnKeeps(g, next, s, fs);
    }
  }

  ghost predicate Agrees(w: Trace, o: Outcome) {
    match w.end
    case Finished => o == Done(Contents(w.sent), w.slot.pending) && w.left == []
    case Exit => o == Exited(Contents(w.sent))
    case Spins => o == Spinning(Contents(w.sent))
    case Overruns => Contents(w.sent) <= o.messages
    case Reset => Contents(w.sent) + [w.slot.pending.bytes] <= o.messages
  }

  lemma AgreesContinued(log: Log, w: Trace, o: Outcome)
    requires Agrees(w, o)
    ensures Agrees(Continued(log, w), Prepend(Contents(log.sent), o))
  {
    assert Contents(log.sent + w.sent) == Contents(log.sent) + Contents(w.sent);
  }

  /** One turn is one turn of the run on the bytes alone. */
  lemma TurnDrives(g: Config, next: int, s: Slot, fs: seq<Frag>)
    requires ConfigOk(g) && SlotOk(g, s) && FragsOk(g, fs) && NO_BUFFER < next && fs != [] && !Stuck(s.pending)
    requires Turn(g, next, s, fs[0]).Turned?
    ensures var t := Turn(g, next, s, fs[0]); var rest := Contents(t.left + fs[1..]);
      && Partial(Cleared(t).pending, g.test) && NonEmpty(rest)
      && Drive(s.pending, Contents(fs), g.test)
         == Prepend(Contents(Replied(t)), Drive(Cleared(t).pending, rest, g.test))
  {
    hide Step, Drive, Total, Left;
    var t := Turn(g, next, s, fs[0]);
    TurnSteps(g, next, s, fs[0]);
    TurnKeeps(g, next, s, fs);
    assert Contents(fs)[0] == fs[0].bytes;
    DriveStep(s.pending, Contents(fs), g.test);
    assert Contents(Replied(t)) == if t.ready then [t.slot.pending.bytes] else [];
  }

  lemma WalkStops(g: Config, next: int, s: Slot, fs: seq<Frag>, gone: Option<nat>)
    requires ConfigOk(g) && SlotOk(g, s) && FragsOk(g, fs) && NO_BUFFER < next
    requires fs == [] || Stuck(s.pending) || !Turn(g, next, s, fs[0]).Turned?
    ensures Agrees(Walk(g, next, s, fs, gone), Drive(s.pending, Contents(fs), g.test))
  {
    hide Step;
    if fs != [] {
      TurnSteps(g, next, s, fs[0]);
      assert Contents(fs)[0] == fs[0].bytes;
    }
  }

  /** A turn whose reply finds the peer gone. */
  lemma WalkFails(g: Config, next: int, s: Slot, fs: seq<Frag>)
    requires ConfigOk(g) && SlotOk(g, s) && FragsOk(g, fs) && NO_BUFFER < next && fs != [] && !Stuck(s.pending)
    requires Turn(g, next, s, fs[0]).Turned? && Turn(g, next, s, fs[0]).ready
    ensures Agrees(Walk(g, next, s, fs, Some(0)), Drive(s.pending, Contents(fs), g.test))
  {
    hide Turn, Drive, Walk, Total;
    var t := Turn(g, next, s, fs[0]);
    WalkUnfolds(g, next, s, fs, Some(0));
    TurnDrives(g, next, s, fs);
    assert Contents(Replied(t)) == [t.slot.pending.bytes];
  }

  /** Whatever the buffers, what is sent is what the run on the bytes alone emits; an
      overrun or a peer that is gone cuts that run short, the latter with the next of its
      messages still in the slot. */
  lemma {:induction false} WalkIsDrive(g: Config, next: int, s: Slot, fs: seq<Frag>, gone: Option<nat>)
    requires ConfigOk(g) && SlotOk(g, s) && FragsOk(g, fs) && NO_BUFFER < next
    ensures Partial(s.pending, g.test)
    ensures Walk(g, next, s, fs, gone).end != Reset ==> SlotOk(g, Walk(g, next, s, fs, gone).slot)
    ensures Agrees(Walk(g, next, s, fs, gone), Drive(s.pending, Contents(fs), g.test))
    decreases Total(Contents(fs))
  {
    hide Turn, SlotOk, Walk, FragsOk, Total, Stuck, Left, Drive, Agrees, Fails;
    SlotPartial(g, s);
    WalkUnfolds(g, next, s, fs, gone);
    if fs != [] && !Stuck(s.pending) && Turn(g, next, s, fs[0]).Turned? {
      var t := Turn(g, next, s, fs[0]);
      var next', rest := Onward(t, next), t.left + fs[1..];
      if Fails(t, gone) {
        GoneNow(t, gone);
        WalkFails(g, next, s, fs);
      } else {
        WalkIsDrive(g, next', Cleared(t), rest, Later(gone, t.ready));
        TurnDrives(g, next, s, fs);
        AgreesContinued(Did(t, fs[0]), Walk(g, next', Cleared(t), rest, Later(gone, t.ready)),
                        Drive(Cleared(t).pending, Contents(rest), g.test));
      }
    } else {
      WalkStops(g, next, s, fs, gone);
    }
  }

  lemma GoneNow(t: Turned, gone: Option<nat>)
    requires Fails(t, gone)
    ensures t.Turned? && t.ready && gone == Some(0)
  {}

  lemma SlotPartial(g: Config, s: Slot)
    requires SlotOk(g, s)
    ensures Partial(s.pending, g.test)
  {}

  lemma TurnSteps(g: Config, next: int, s: Slot, f: Frag)
    requires Partial(s.pending, g.test) && f.bytes != []
    ensures match Turn(g, next, s, f)
      case Over => true
      case Unknown => Step(s.pending, f.bytes, g.test).UnknownCommand?
      case Turned(slot, left, ready, _, _, _) =>
        && Step(s.pending, f.bytes, g.test).Stepped?
        && Step(s.pending, f.bytes, g.test).pending == slot.pending
        && Step(s.pending, f.bytes, g.test).ready == ready
  {}

  lemma TurnLeaves(g: Config, next: int, s: Slot, f: Frag)
    requires Partial(s.pending, g.test) && f.bytes != [] && Turn(g, next, s, f).Turned?
    ensures Step(s.pending, f.bytes, g.test).Stepped?
    ensures var t := Turn(g, next, s, f); var left := Step(s.pending, f.bytes, g.test).left;
      && |left| <= |f.bytes| && (left != [] && !s.pending.active ==> t.ready)
      && t.left == if left == [] then [] else [Frag(f.buf, f.off + (|f.bytes| - |left|), left)]
  {
    StepKeeps(s.pending, f.bytes, g.test);
  }

  // ------------------------------------------------------------- every buffer

  function Bufs(fs: seq<Frag>): (bs: seq<int>)
    ensures |bs| == |fs| && forall i :: 0 <= i < |fs| ==> bs[i] == fs[i].buf
  {
    seq(|fs|, i requires 0 <= i < |fs| => fs[i].buf)
  }

  function Is(x: int): int -> nat { (y: int) => if y == x then 1 else 0 }

  /** How often buffer `x` occurs. */
  function Count(bufs: seq<int>, x: int): nat { Sum(Is(x), bufs) }

  lemma CountJoin(a: seq<int>, b: seq<int>, x: int)
    ensures Count(a + b, x) == Count(a, x) + Count(b, x)
  {
    SumConcat(Is(x), a, b);
  }

  lemma CountOne(x: int, y: int)
    ensures Count([y], x) == (if x == y then 1 else 0) && Count([], x) == 0
  {
    SumOne(Is(x), y);
  }

  function Held(s: Slot): seq<int> {
    if s.buf == NO_BUFFER then [] else [s.buf]
  }

  /** In how many places buffer `x` is when a bulk ends: given back, sent as a reply,
      forgotten, pending, or in a descriptor not read to its end. */
  function Places(w: Trace, x: int): nat {
    Count(w.put, x) + Count(Bufs(w.sent), x) + Count(w.lost, x) + Count(Held(w.slot), x) + Count(Bufs(w.left), x)
  }

  /** One if `x` is a number from `a` up to but not including `b`. */
  function Among(a: int, b: int, x: int): nat { if a <= x < b then 1 else 0 }

  function Logged(log: Log, x: int): nat {
    Count(log.put, x) + Count(Bufs(log.sent), x) + Count(log.lost, x)
  }

  lemma PlacesContinued(log: Log, w: Trace, x: int)
    ensures Places(Continued(log, w), x) == Logged(log, x) + Places(w, x)
  {
    BufsJoin(log.sent, w.sent, x);
    CountJoin(log.put, w.put, x);
    CountJoin(log.lost, w.lost, x);
  }

  lemma BufsJoin(a: seq<Frag>, b: seq<Frag>, x: int)
    ensures Count(Bufs(a + b), x) == Count(Bufs(a), x) + Count(Bufs(b), x)
  {
    assert Bufs(a + b) == Bufs(a) + Bufs(b);
    CountJoin(Bufs(a), Bufs(b), x);
  }

  /** A turn moves the buffer of the fragment, and perhaps a fresh one, to one place. */
  lemma TurnBalances(g: Config, next: int, s: Slot, f: Frag, x: int)
    requires ConfigOk(g) && SlotOk(g, s) && FragOk(g, f) && NO_BUFFER < next && Turn(g, next, s, f).Turned?
    ensures var t := Turn(g, next, s, f);
      && Count(Held(s), x) + Count([f.buf], x) + Among(next, Onward(t, next), x)
         == Logged(Did(t, f), x) + Count(Held(Cleared(t)), x) + Count(Bufs(t.left), x)
      && (t.ready ==> Logged(Did(t, f), x) + Count(Held(Cleared(t)), x)
                      == Logged(Settled(t, f), x) + Count(Held(t.slot), x))
  {
    hide Step, Sum;
    var t := Turn(g, next, s, f);
    CountOne(x, f.buf);
    CountOne(x, next);
    CountOne(x, s.buf);
    assert t.left != [] ==> Bufs(t.left) == [f.buf];
    assert t.left == [] ==> Bufs(t.left) == [];
    assert Bufs(Replied(t)) == if t.ready then [t.slot.buf] else [];
    assert Bufs([]) == [];
    TurnSettles(g, next, s, f);
  }

  lemma TurnSettles(g: Config, next: int, s: Slot, f: Frag)
    requires Partial(s.pending, g.test) && f.bytes != [] && Turn(g, next, s, f).Turned?
    ensures var t := Turn(g, next, s, f);
      && (|t.left| <= 1 && (t.left != [] ==> t.left[0].buf == f.buf && !t.put && !t.lost))
      && (s.pending.active ==> t.slot.buf == s.buf && !t.gathered && !t.lost && (t.left == [] ==> t.put))
      && (!s.pending.active && !t.gathered ==> t.slot.buf == f.buf && t.left == [] && !t.put && !t.lost)
      && (!s.pending.active && t.gathered ==> t.slot.buf == next && !t.put && (t.left == [] ==> t.lost))
  {
    hide Step;
  }

  /** However a bulk ends, every buffer that was pending, received with it or obtained
      for it is in as many places as it came from: each of them in exactly one. */
  lemma {:induction false} WalkBalances(g: Config, next: int, s: Slot, fs: seq<Frag>, gone: Option<nat>, x: int)
    requires ConfigOk(g) && SlotOk(g, s) && FragsOk(g, fs) && NO_BUFFER < next
    ensures var w := Walk(g, next, s, fs, gone);
      next <= w.next && Places(w, x) == Count(Held(s), x) + Count(Bufs(fs), x) + Among(next, w.next, x)
    decreases Total(Contents(fs))
  {
    hide Turn, SlotOk, FragsOk, Walk, Total, Stuck, Places, Held, Cleared, Count, Contents, Step, Logged, Did, Settled,
      Fails;
    WalkUnfolds(g, next, s, fs, gone);
    var w := Walk(g, next, s, fs, gone);
    if fs != [] && !Stuck(s.pending) && Turn(g, next, s, fs[0]).Turned? {
      var t, f := Turn(g, next, s, fs[0]), fs[0];
      var next', rest := Onward(t, next), t.left + fs[1..];
      FirstOk(g, fs);
      TurnBalances(g, next, s, f, x);
      BufsJoin(t.left, fs[1..], x);
      BufsJoin([f], fs[1..], x);
      assert Bufs([f]) == [f.buf] && [f] + fs[1..] == fs;
      if Fails(t, gone) {
        var w' := Trace(Reset, t.slot, rest, next', [], [], []);
        GoneNow(t, gone);
        PlacesContinued(Settled(t, f), w', x);
        NothingMoved(w', x);
      } else {
        WalkBalances(g, next', Cleared(t), rest, Later(gone, t.ready), x);
        PlacesContinued(Did(t, f), Walk(g, next', Cleared(t), rest, Later(gone, t.ready)), x);
      }
    } else {
      NothingMoved(w, x);
    }
  }

  lemma WalkKeeps(g: Config, next: int, s: Slot, fs: seq<Frag>, gone: Option<nat>)
    requires ConfigOk(g) && SlotOk(g, s) && FragsOk(g, fs) && NO_BUFFER < next
    ensures var w := Walk(g, next, s, fs, gone); next <= w.next && (w.end != Reset ==> SlotOk(g, w.slot))
  {
    hide Walk, SlotOk, FragsOk, Agrees, Places, Drive;
    WalkIsDrive(g, next, s, fs, gone);
    WalkBalances(g, next, s, fs, gone, 0);
  }

  lemma FirstOk(g: Config, fs: seq<Frag>)
    requires FragsOk(g, fs) && fs != []
    ensures FragOk(g, fs[0])
  {}

  lemma NothingMoved(w: Trace, x: int)
    requires w.sent == [] && w.put == w.lost == []
    ensures Places(w, x) == Count(Held(w.slot), x) + Count(Bufs(w.left), x)
  {
    assert Bufs(w.sent) == [];
  }
}
