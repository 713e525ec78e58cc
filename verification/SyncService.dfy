/** The receive loop of a synchronous service: one bulk of descriptors in, one reply
    per reassembled request out, in the buffer the request was gathered in. */
module SyncService {
  import opened Basics
  import opened Messages
  import opened StreamTheory
  import opened Sums
  import opened Bulks
  import opened Reassembly
  import opened Resets

  // ------------------------------------------------------------- the handler

  /** What a handler writes after the header of a request: a body of the same size. */
  type Handler = Bytes -> Bytes

  ghost predicate KeepsSize(serve: Handler) {
    forall m: Bytes :: |m| >= HEADER ==> |serve(m)| == |m| - HEADER
  }

  function Reply(serve: Handler, request: Bytes): Bytes
    requires |request| >= HEADER
  {
    request[..HEADER] + serve(request)
  }

  /** A reply carries the id and the command of its request, and has its length, so
      the caller's size check passes; after the header it is what the handler wrote. */
  lemma ReplyEchoes(serve: Handler, request: Bytes)
    requires KeepsSize(serve) && Whole(request)
    ensures var r := Reply(serve, request);
      && Whole(r) && |r| == |request| && r[..HEADER] == request[..HEADER] && r[HEADER..] == serve(request)
      && Id(r) == Id(request) && Command(r) == Command(request)
  {
    var r := Reply(serve, request);
    assert forall i :: 0 <= i < HEADER ==> r[i] == request[i];
  }

  /** Checks the size of a whole request, hands it to the handler, sends the reply in
      the same buffer, and clears the slot. The check never fails. If the sending
      `fails`, the buffer stays, with the reply in it, and so does the slot. */
  method Answer(pool: Pool, slots: array<PendingBuffer>, c: nat, serve: Handler, fails: bool)
    returns (valid: bool, reply: Bytes)
    requires pool.Valid() && c < slots.Length && Inside(pool.g.limit, pool.mem, slots[c].desc)
    requires Whole(Payload(pool.mem, slots[c].desc)) && KeepsSize(serve)
    modifies pool`mem, slots
    ensures pool.Valid() && valid && reply == Reply(serve, Payload(old(pool.mem), old(slots[c]).desc))
    ensures |reply| == old(slots[c]).desc.size >= HEADER
    ensures reply[..HEADER] == Payload(old(pool.mem), old(slots[c]).desc)[..HEADER]
    ensures reply[HEADER..] == serve(Payload(old(pool.mem), old(slots[c]).desc))
    ensures !fails ==> pool.mem == old(pool.mem) - {old(slots[c]).desc.buf} && slots[..] == old(slots[..])[c := NOTHING]
    ensures fails ==> slots[..] == old(slots[..]) && pool.mem.Keys == old(pool.mem).Keys
    ensures fails ==> forall b :: b in pool.mem && b != slots[c].desc.buf ==> pool.mem[b] == old(pool.mem)[b]
    ensures fails ==> Payload(pool.mem, slots[c].desc) == reply
  {
    var desc := slots[c].desc;
    var request := Payload(pool.mem, desc);
    if MessageSize(request) != Some(desc.size) {
      return false, [];
    }
    var body := serve(request);
    var at := desc.off + HEADER;
    pool.mem := pool.mem[desc.buf := pool.mem[desc.buf][..at] + body + pool.mem[desc.buf][desc.off + desc.size..]];
    valid, reply := true, Payload(pool.mem, desc);
    assert reply == request[..HEADER] + body;
    if !fails {
      pool.mem := pool.mem - {desc.buf};
      slots[c] := NOTHING;
    }
  }

  function Replies(serve: Handler, requests: seq<Bytes>): seq<Bytes>
    requires forall i :: 0 <= i < |requests| ==> |requests[i]| >= HEADER
  {
    seq(|requests|, i requires 0 <= i < |requests| => Reply(serve, requests[i]))
  }

  /** Every request answered is whole, and has been answered, in order. */
  ghost predicate Answered(serve: Handler, sent: seq<Frag>, replies: seq<Bytes>) {
    AllWhole(Contents(sent)) && replies == Replies(serve, Contents(sent))
  }

  /** Each reply is its own request's header followed by what the handler wrote for it. */
  lemma AnsweredServes(serve: Handler, sent: seq<Frag>, replies: seq<Bytes>)
    requires Answered(serve, sent, replies)
    ensures |replies| == |sent|
    ensures forall i :: 0 <= i < |sent| ==> |sent[i].bytes| >= HEADER && |replies[i]| >= HEADER
    ensures forall i :: 0 <= i < |sent| ==>
      replies[i][..HEADER] == sent[i].bytes[..HEADER] && replies[i][HEADER..] == serve(sent[i].bytes)
  {
    forall i | 0 <= i < |sent|
      ensures |sent[i].bytes| >= HEADER && |replies[i]| >= HEADER
      ensures replies[i][..HEADER] == sent[i].bytes[..HEADER] && replies[i][HEADER..] == serve(sent[i].bytes)
    {
      assert Whole(Contents(sent)[i]);
    }
  }

  lemma NothingAnswered(serve: Handler)
    ensures Answered(serve, [], [])
  {}

  lemma AnsweredMore(serve: Handler, sent: seq<Frag>, replies: seq<Bytes>, more: Frag)
    requires Answered(serve, sent, replies) && Whole(more.bytes)
    ensures Answered(serve, sent + [more], replies + [Reply(serve, more.bytes)])
  {
    assert Contents(sent + [more]) == Contents(sent) + [more.bytes];
  }

  // ------------------------------------------------------- descriptors in memory

  /** Descriptors yet to be read: not empty, inside their own buffers, which are all
      different and differ from the pending one. */
  predicate Waiting(limit: nat, mem: Memory, pending: int, ds: seq<Desc>) {
    && (forall i :: 0 <= i < |ds| ==> Inside(limit, mem, ds[i]) && ds[i].size > 0 && ds[i].buf != pending)
    && (forall i, j :: 0 <= i < j < |ds| ==> ds[i].buf != ds[j].buf)
  }

  function Frags(limit: nat, mem: Memory, pending: int, ds: seq<Desc>): (fs: seq<Frag>)
    requires Sized(limit, mem) && Waiting(limit, mem, pending, ds)
    ensures |fs| == |ds| && forall i :: 0 <= i < |ds| ==> fs[i] == FragIn(mem, ds[i])
  {
    seq(|ds|, i requires 0 <= i < |ds| => FragIn(mem, ds[i]))
  }

  lemma FragsAreOk(g: Config, mem: Memory, pending: int, ds: seq<Desc>)
    requires Sized(g.limit, mem) && Waiting(g.limit, mem, pending, ds)
    ensures FragsOk(g, Frags(g.limit, mem, pending, ds))
  {}

  /** What the loop is looking at: the memory, the slot of the connection, and the
      descriptors yet to be read. */
  datatype Scene = Scene(g: Config, mem: Memory, next: int, p: PendingBuffer, ds: seq<Desc>)

  /** What a turn of the loop starts from. */
  ghost predicate Going(a: Scene) {
    && ConfigOk(a.g) && PendingOk(a.g, a.mem, a.p) && Waiting(a.g.limit, a.mem, a.p.desc.buf, a.ds)
    && NO_BUFFER < a.next && forall b :: b in a.mem ==> b < a.next
  }

  ghost function SlotOf(a: Scene): Slot
    requires Going(a)
  {
    SlotIn(a.mem, a.p)
  }

  ghost function FragsOf(a: Scene): seq<Frag>
    requires Going(a)
  {
    Frags(a.g.limit, a.mem, a.p.desc.buf, a.ds)
  }

  lemma SceneOk(a: Scene)
    requires Going(a)
    ensures ConfigOk(a.g) && SlotOk(a.g, SlotOf(a)) && FragsOk(a.g, FragsOf(a)) && NO_BUFFER < a.next
    ensures |FragsOf(a)| == |a.ds| && Separate(a.next, SlotOf(a), FragsOf(a))
    ensures forall x :: x in Bufs(FragsOf(a)) <==> x in Buffers(a.ds)
  {
    hide SlotOk;
    FragsAreOk(a.g, a.mem, a.p.desc.buf, a.ds);
  }

  ghost function WalkIn(a: Scene, gone: Option<nat>): Trace
    requires Going(a)
  {
    SceneOk(a);
    Walk(a.g, a.next, SlotOf(a), FragsOf(a), gone)
  }

  ghost predicate StepIn(a: Scene) {
    a.ds != [] && StepOk(a.g, a.mem, a.next, a.p, a.ds[0])
  }

  ghost function FirstTurn(a: Scene): Turned
    requires StepIn(a)
  {
    TurnIn(a.g, a.mem, a.next, a.p, a.ds[0])
  }

  ghost function FirstFrag(a: Scene): Frag
    requires StepIn(a)
  {
    FragIn(a.mem, a.ds[0])
  }

  /** `b` is `a` after a step that goes on, with the first descriptor as it comes back. */
  ghost predicate Leads(a: Scene, b: Scene) {
    && StepIn(a) && FirstTurn(a).Turned? && b.g == a.g && b.ds != [] && b.ds[1..] == a.ds[1..]
    && Carried(a.g, a.mem, a.next, a.ds[0], FirstTurn(a), b.mem, b.next, b.p, b.ds[0])
  }

  /** And after the reply, if there is one, and with a descriptor that is used up left behind. */
  function Onto(b: Scene, ready: bool): Scene
    requires b.ds != []
  {
    var ds := if b.ds[0].size == 0 then b.ds[1..] else b.ds;
    if ready then b.(mem := b.mem - {b.p.desc.buf}, p := NOTHING, ds := ds) else b.(ds := ds)
  }

  /** A turn leaves the buffers of the other descriptors alone. */
  lemma OthersStay(a: Scene, b: Scene, x: int)
    requires Going(a) && Leads(a, b) && x in a.mem && x != a.ds[0].buf && x != a.p.desc.buf
    ensures x != b.p.desc.buf && x in b.mem && b.mem[x] == a.mem[x]
  {
    hide Turn, Partial, Waiting;
    SlotPartial(a.g, SlotOf(a));
    TurnSettles(a.g, a.next, SlotOf(a), FirstFrag(a));
  }

  /** The pending buffer and the descriptor, after the turn. */
  lemma TurnLeavesSlot(a: Scene, b: Scene)
    requires Going(a) && Leads(a, b)
    ensures var t := FirstTurn(a); var c := Onto(b, t.ready); var d := b.ds[0];
      && PendingOk(a.g, c.mem, c.p) && SlotIn(c.mem, c.p) == Cleared(t) && NO_BUFFER < c.next
      && (forall x :: x in c.mem ==> x < c.next)
      && (if d.size == 0 then t.left == []
          else d.buf == a.ds[0].buf != c.p.desc.buf && Inside(a.g.limit, c.mem, d) && t.left == [FragIn(c.mem, d)])
  {
    hide Turn, Partial, Waiting;
    var s, f := SlotOf(a), FirstFrag(a);
    SlotPartial(a.g, s);
    TurnSettles(a.g, a.next, s, f);
    TurnKeepsSlot(a.g, a.next, s, f);
  }

  /** What is left of the descriptors once the first one comes back as `d`. */
  predicate IsRest(ds: seq<Desc>, d: Desc, rest: seq<Desc>)
    requires ds != []
  {
    rest == if d.size == 0 then ds[1..] else [d] + ds[1..]
  }

  lemma RestAt(ds: seq<Desc>, d: Desc, rest: seq<Desc>, i: nat)
    requires ds != [] && IsRest(ds, d, rest) && i < |rest|
    ensures var k := if d.size == 0 then i + 1 else i;
      k < |ds| && rest[i] == if k == 0 then d else ds[k]
  {}

  lemma RestWaits(limit: nat, mem: Memory, pending: int, ds: seq<Desc>, d: Desc,
                  end: Memory, last: int, rest: seq<Desc>)
    requires Waiting(limit, mem, pending, ds) && ds != [] && IsRest(ds, d, rest)
    requires forall i :: 1 <= i < |ds| ==> ds[i].buf in end && ds[i].buf != last
    requires d.size > 0 ==> d.buf == ds[0].buf != last && Inside(limit, end, d)
    ensures Waiting(limit, end, last, rest)
  {
    hide IsRest;
    forall i: nat | i < |rest|
      ensures Inside(limit, end, rest[i]) && rest[i].size > 0 && rest[i].buf != last
    {
      RestAt(ds, d, rest, i);
    }
    forall i: nat, j: nat | i < j < |rest|
      ensures rest[i].buf != rest[j].buf
    {
      RestAt(ds, d, rest, i);
      RestAt(ds, d, rest, j);
    }
  }

  lemma FragStays(mem: Memory, end: Memory, d: Desc)
    requires d.buf in mem && d.buf in end && mem[d.buf] == end[d.buf] && d.off + d.size <= |mem[d.buf]|
    ensures FragIn(end, d) == FragIn(mem, d)
  {}

  lemma RestFrags(limit: nat, mem: Memory, pending: int, ds: seq<Desc>, d: Desc, end: Memory, last: int,
                  rest: seq<Desc>, left: seq<Frag>)
    requires Sized(limit, mem) && Waiting(limit, mem, pending, ds) && ds != [] && IsRest(ds, d, rest)
    requires Sized(limit, end) && Waiting(limit, end, last, rest)
    requires forall i :: 1 <= i < |ds| ==> ds[i].buf in end && end[ds[i].buf] == mem[ds[i].buf]
    requires if d.size == 0 then left == [] else Inside(limit, end, d) && left == [FragIn(end, d)]
    ensures Frags(limit, end, last, rest) == left + Frags(limit, mem, pending, ds)[1..]
  {
    hide IsRest, FragIn;
    var fs, gs := Frags(limit, mem, pending, ds), Frags(limit, end, last, rest);
    assert |rest| == |left| + |ds| - 1 by {
      RestSize(ds, d, rest);
    }
    forall i: nat | i < |rest|
      ensures gs[i] == (left + fs[1..])[i]
    {
      RestAt(ds, d, rest, i);
      var k := if d.size == 0 then i + 1 else i;
      if k > 0 {
        FragStays(mem, end, ds[k]);
        assert (left + fs[1..])[i] == fs[k];
      }
    }
  }

  lemma RestSize(ds: seq<Desc>, d: Desc, rest: seq<Desc>)
    requires ds != [] && IsRest(ds, d, rest)
    ensures |rest| == |ds| - if d.size == 0 then 1 else 0
  {}

  /** A step in memory is a turn on values, and the loop can go on after it. */
  lemma TurnGoesOn(a: Scene, b: Scene)
    requires Going(a) && Leads(a, b)
    ensures var t := FirstTurn(a); var c := Onto(b, t.ready);
      Going(c) && SlotOf(c) == Cleared(t) && FragsOf(c) == t.left + FragsOf(a)[1..]
  {
    var t := FirstTurn(a);
    var c := Onto(b, t.ready);
    forall i | 1 <= i < |a.ds|
      ensures a.ds[i].buf in c.mem && c.mem[a.ds[i].buf] == a.mem[a.ds[i].buf] && a.ds[i].buf != c.p.desc.buf
    {
      OtherDiffers(a.g.limit, a.mem, a.p.desc.buf, a.ds, i);
      OthersStay(a, b, a.ds[i].buf);
    }
    hide Carried, Turn, Partial, TurnIn, SlotOk, Waiting;
    TurnLeavesSlot(a, b);
    assert b.ds == [b.ds[0]] + b.ds[1..];
    RestWaits(a.g.limit, a.mem, a.p.desc.buf, a.ds, b.ds[0], c.mem, c.p.desc.buf, c.ds);
    RestFrags(a.g.limit, a.mem, a.p.desc.buf, a.ds, b.ds[0], c.mem, c.p.desc.buf, c.ds, t.left);
  }

  lemma OtherDiffers(limit: nat, mem: Memory, pending: int, ds: seq<Desc>, i: nat)
    requires Waiting(limit, mem, pending, ds) && 1 <= i < |ds|
    ensures ds[i].buf in mem && ds[i].buf != ds[0].buf && ds[i].buf != pending
  {}

  // ------------------------------------------------------------------- the loop

  /** Which buffers are owned: those at the start, and those obtained since, unless
      given back or sent. */
  ghost predicate Owned(keys0: set<int>, next0: int, keys: set<int>, next: int, put: seq<int>, sent: seq<int>) {
    && next0 <= next && (forall x :: x in put || x in sent ==> x < next)
    && forall x :: x in keys <==> (x in keys0 || next0 <= x < next) && x !in put && x !in sent
  }

  /** Buffers outside `mine` are as they were. */
  ghost predicate Framed(mem0: Memory, mem: Memory, mine: set<int>) {
    forall b :: b in mem0 && b !in mine ==> b in mem && mem[b] == mem0[b]
  }

  function Buffers(ds: seq<Desc>): set<int> {
    set i | 0 <= i < |ds| :: ds[i].buf
  }

  /** The buffers at hand when a bulk comes in. */
  function Mine(start: Scene): set<int> {
    Buffers(start.ds) + {start.p.desc.buf}
  }

  /** The buffers at hand are of the bulk, or new. */
  ghost predicate AtHand(p: PendingBuffer, ds: seq<Desc>, mine: set<int>, next0: int) {
    && (p.desc.buf != NO_BUFFER ==> p.desc.buf in mine || p.desc.buf >= next0)
    && forall i :: 0 <= i < |ds| ==> ds[i].buf in mine
  }

  lemma OwnedTurn(keys0: set<int>, next0: int, keys: set<int>, next: int, put: seq<int>, sent: seq<int>,
                  gathered: bool, gave: bool, d: int, ready: bool, b: int)
    requires Owned(keys0, next0, keys, next, put, sent) && d in keys && d < next
    requires b in keys || (gathered && b == next)
    requires forall x :: x in keys ==> x < next
    ensures Owned(keys0, next0,
                  keys + (if gathered then {next} else {}) - (if gave then {d} else {}) - (if ready then {b} else {}),
                  if gathered then next + 1 else next, put + One(gave, d), sent + One(ready, b))
  {}

  ghost predicate OwnedBy(start: Scene, a: Scene, log: Log) {
    Owned(start.mem.Keys, start.next, a.mem.Keys, a.next, log.put, Bufs(log.sent))
  }

  ghost predicate FramedBy(start: Scene, a: Scene) {
    && Framed(start.mem, a.mem, Mine(start)) && AtHand(a.p, a.ds, Mine(start), start.next)
    && start.next <= a.next && forall b :: b in start.mem ==> b < start.next
  }

  /** The loop's own state: what is done, and what there is to do, is the whole walk. */
  ghost predicate Course(whole: Trace, start: Scene, a: Scene, log: Log, gone: Option<nat>) {
    var rest := a.g == start.g && Going(a) && whole == Continued(log, WalkIn(a, gone));
    rest && OwnedBy(start, a, log) && FramedBy(start, a)
  }

  lemma ContinuedTwice(x: Log, y: Log, w: Trace)
    ensures Continued(x, Continued(y, w)) == Continued(Join(x, y), w)
  {
    assert x.sent + (y.sent + w.sent) == x.sent + y.sent + w.sent;
    assert x.put + (y.put + w.put) == x.put + y.put + w.put;
    assert x.lost + (y.lost + w.lost) == x.lost + y.lost + w.lost;
  }

  lemma ContinuedEnds(log: Log, end: End, s: Slot, left: seq<Frag>, next: int)
    ensures Continued(log, Trace(end, s, left, next, [], [], []))
      == Trace(end, s, left, next, log.sent, log.put, log.lost)
  {
    assert log.sent + [] == log.sent && log.put + [] == log.put && log.lost + [] == log.lost;
  }

  /** What the loop knows before a turn. */
  lemma TurnBegins(whole: Trace, start: Scene, a: Scene, log: Log, gone: Option<nat>)
    requires Course(whole, start, a, log, gone)
    ensures Going(a) && (a.ds != [] ==> StepIn(a))
    ensures a.ds == [] ==> whole == Trace(Finished, SlotOf(a), [], a.next, log.sent, log.put, log.lost)
    ensures a.ds != [] && Stuck(SlotOf(a).pending) ==>
      whole == Trace(Spins, SlotOf(a), FragsOf(a), a.next, log.sent, log.put, log.lost)
    ensures a.ds != [] && !Stuck(SlotOf(a).pending) && FirstTurn(a).Unknown? ==>
      whole == Trace(Exit, SlotOf(a), FragsOf(a), a.next, log.sent, log.put, log.lost)
    ensures a.ds != [] && !Stuck(SlotOf(a).pending) && FirstTurn(a).Over? ==>
      whole == Trace(Overruns, SlotOf(a), FragsOf(a), a.next, log.sent, log.put, log.lost)
  {
    hide Turn, Partial, Walk, OwnedBy, FramedBy, Stuck, SlotOk, Continued;
    SceneOk(a);
    WalkUnfolds(a.g, a.next, SlotOf(a), FragsOf(a), gone);
    forall end {
      ContinuedEnds(log, end, SlotOf(a), FragsOf(a), a.next);
    }
    ContinuedEnds(log, Finished, SlotOf(a), [], a.next);
  }

  /** The walk after one turn in memory. */
  lemma WalkTurns(a: Scene, b: Scene, gone: Option<nat>)
    requires Going(a) && Leads(a, b) && !Stuck(SlotOf(a).pending)
    ensures var t := FirstTurn(a); var c := Onto(b, t.ready); var f := FirstFrag(a);
      && Going(c)
      && WalkIn(a, gone)
         == if Fails(t, gone) then
              Continued(Settled(t, f), Trace(Reset, t.slot, t.left + FragsOf(a)[1..], b.next, [], [], []))
            else Continued(Did(t, f), WalkIn(c, Later(gone, t.ready)))
  {
    hide Turn, Partial, Walk, SlotOk, Waiting, Fails, Continued;
    TurnGoesOn(a, b);
    SceneOk(a);
    WalkUnfolds(a.g, a.next, SlotOf(a), FragsOf(a), gone);
  }

  /** What is owned after a turn, and after its reply if it is `answered`. */
  lemma OwnedTurns(start: Scene, a: Scene, b: Scene, log: Log, answered: bool)
    requires Leads(a, b) && OwnedBy(start, a, log) && (answered ==> FirstTurn(a).ready)
    ensures var t := FirstTurn(a); var more := Settled(t, FirstFrag(a));
      OwnedBy(start, Onto(b, answered), Join(log, if answered then more.(sent := Replied(t)) else more))
  {
    hide Turn, Partial, Owned, TurnIn;
    var t, f, x := FirstTurn(a), a.ds[0].buf, b.p.desc.buf;
    assert Onto(b, answered).mem.Keys
        == a.mem.Keys + (if t.gathered then {a.next} else {}) - (if t.put then {f} else {})
           - (if answered then {x} else {});
    OwnedTurn(start.mem.Keys, start.next, a.mem.Keys, a.next, log.put, Bufs(log.sent), t.gathered, t.put, f,
              answered, x);
    assert Bufs(log.sent + []) == Bufs(log.sent) + [];
    assert answered ==> Bufs(log.sent + Replied(t)) == Bufs(log.sent) + [x];
  }

  lemma FrameTurns(start: Scene, a: Scene, b: Scene)
    requires Leads(a, b) && FramedBy(start, a)
    ensures FramedBy(start, Onto(b, FirstTurn(a).ready))
  {
    hide Turn, Partial, AtHand, Framed, Mine;
    var t := FirstTurn(a);
    SlotPartial(a.g, SlotIn(a.mem, a.p));
    TurnSettles(a.g, a.next, SlotIn(a.mem, a.p), FirstFrag(a));
    FrameStays(start.mem, a.mem, Onto(b, t.ready).mem, Mine(start), start.next, a.p, a.ds, t.slot.buf, a.next);
    HandStays(a.p, a.ds, b.p, b.ds, Mine(start), start.next, a.next, t.ready);
  }

  lemma FrameStays(mem0: Memory, mem: Memory, mem': Memory, mine: set<int>, next0: int, p: PendingBuffer, ds: seq<Desc>,
                   x: int, next: int)
    requires Framed(mem0, mem, mine) && AtHand(p, ds, mine, next0) && ds != [] && next0 <= next
    requires (forall b :: b in mem0 ==> b < next0) && x in {p.desc.buf, ds[0].buf, next} && x != NO_BUFFER
    requires forall b :: b in mem && b != x && b != ds[0].buf ==> b in mem' && mem'[b] == mem[b]
    ensures Framed(mem0, mem', mine)
  {}

  lemma HandStays(p: PendingBuffer, ds: seq<Desc>, p': PendingBuffer, ds': seq<Desc>, mine: set<int>, next0: int,
                  next: int, ready: bool)
    requires AtHand(p, ds, mine, next0) && ds != [] && ds' != [] && next0 <= next
    requires p'.desc.buf in {p.desc.buf, ds[0].buf, next} && ds'[0].buf == ds[0].buf && ds'[1..] == ds[1..]
    ensures AtHand(if ready then NOTHING else p', if ds'[0].size == 0 then ds'[1..] else ds', mine, next0)
  {
    assert forall i :: 1 <= i < |ds'| ==> ds'[i] == ds'[1..][i - 1] == ds[1..][i - 1] == ds[i];
  }

  function Sizes(ds: seq<Desc>): nat {
    if ds == [] then 0 else ds[0].size + Sizes(ds[1..])
  }

  lemma TurnShrinks(a: Scene, b: Scene)
    requires Going(a) && Leads(a, b) && !Stuck(SlotOf(a).pending)
    ensures b.ds[0].buf == a.ds[0].buf && Sizes(Onto(b, FirstTurn(a).ready).ds) < Sizes(a.ds)
  {
    hide Turn, Step, Partial, Waiting;
    var s, f := SlotOf(a), FirstFrag(a);
    SlotPartial(a.g, s);
    TurnLeaves(a.g, a.next, s, f);
    NoProgress(s.pending, f.bytes, a.g.test);
    if b.ds[0].size > 0 {
      assert FragIn(b.mem, b.ds[0]).bytes == Step(s.pending, f.bytes, a.g.test).left;
    }
  }

  /** One turn of the loop. */
  lemma {:induction false} TurnKeeps(whole: Trace, start: Scene, a: Scene, b: Scene, log: Log, gone: Option<nat>)
    requires Course(whole, start, a, log, gone) && Leads(a, b) && !Stuck(SlotOf(a).pending)
    requires !Fails(FirstTurn(a), gone)
    ensures var t := FirstTurn(a);
      && b.ds[0].buf == a.ds[0].buf && Sizes(Onto(b, t.ready).ds) < Sizes(a.ds)
      && Course(whole, start, Onto(b, t.ready), Join(log, Did(t, FirstFrag(a))), Later(gone, t.ready))
  {
    hide FirstTurn, Carried, Going, StepIn, WalkIn, OwnedBy, FramedBy, Replied, One, Fails, Continued, Join, Stuck,
      SlotOf, Sizes;
    var t, f := FirstTurn(a), FirstFrag(a);
    WalkTurns(a, b, gone);
    OwnedTurns(start, a, b, log, t.ready);
    assert Did(t, f) == if t.ready then Settled(t, f).(sent := Replied(t)) else Settled(t, f) by {
      NotReady(t);
    }
    FrameTurns(start, a, b);
    TurnShrinks(a, b);
    ContinuedTwice(log, Did(t, f), WalkIn(Onto(b, t.ready), Later(gone, t.ready)));
  }

  lemma NotReady(t: Turned)
    requires t.Turned?
    ensures !t.ready ==> Replied(t) == []
  {}

  lemma ReadyIsWhole(a: Scene, b: Scene)
    requires Going(a) && Leads(a, b) && FirstTurn(a).ready
    ensures Inside(a.g.limit, b.mem, b.p.desc) && |b.mem[b.p.desc.buf]| == a.g.limit && Whole(Payload(b.mem, b.p.desc))
    ensures InSlot(FirstTurn(a).slot) == FragIn(b.mem, b.p.desc) && FirstTurn(a).slot.pending.expected == b.p.expected
  {
    hide Turn, Step, Partial, Whole, Waiting;
    var s, f := SlotOf(a), FirstFrag(a);
    SlotPartial(a.g, s);
    TurnSteps(a.g, a.next, s, f);
    StepKeeps(s.pending, f.bytes, a.g.test);
  }

  lemma Opening(start: Scene, gone: Option<nat>)
    requires Going(start)
    ensures Course(WalkIn(start, gone), start, start, QUIET, gone)
  {
    hide Walk, PendingOk, Waiting;
    var w := WalkIn(start, gone);
    assert [] + w.sent == w.sent && [] + w.put == w.put && [] + w.lost == w.lost;
    assert Bufs([]) == [];
    assert forall i :: 0 <= i < |start.ds| ==> start.ds[i].buf in Mine(start);
  }

  // ------------------------------------------------------------- the peer is gone

  lemma BuffersMore(ds: seq<Desc>, i: nat)
    requires i < |ds|
    ensures Buffers(ds[..i + 1]) == Buffers(ds[..i]) + {ds[i].buf}
  {}

  /** Gives back every descriptor of a bulk, whatever became of it before; `again` are
      those that this process does not own any more. */
  method PutAll(pool: Pool, descs: array<Desc>) returns (again: set<int>)
    requires pool.Valid() && forall i, j :: 0 <= i < j < descs.Length ==> descs[i].buf != descs[j].buf
    modifies pool`mem
    ensures pool.Valid() && pool.mem == old(pool.mem) - Buffers(descs[..])
    ensures again == Buffers(descs[..]) - old(pool.mem).Keys
  {
    again := {};
    for i := 0 to descs.Length
      invariant pool.Valid() && pool.mem == old(pool.mem) - Buffers(descs[..i])
      invariant again == Buffers(descs[..i]) - old(pool.mem).Keys
    {
      BuffersMore(descs[..], i);
      if descs[i].buf in pool.mem {
        pool.BufferPut(descs[i]);
      } else {
        again := again + {descs[i].buf};
      }
    }
    assert descs[..descs.Length] == descs[..];
  }

  /** What a reset leaves: the request stays in the slot, and the buffers of the bulk are
      given back, those in `again` for the second time. If the request was gathered in one
      of them, the slot points to a buffer that is not owned; if not, to its reply. */
  ghost predicate LeftBehind(w: Trace, start: Scene, serve: Handler, mem: Memory, p: PendingBuffer, again: set<int>)
    requires Going(start)
  {
    && |w.slot.pending.bytes| >= HEADER && (forall x :: x in again <==> Twice(FragsOf(start), w, x))
    && p == PendingBuffer(Desc(w.slot.buf, w.slot.off, |w.slot.pending.bytes|), w.slot.pending.expected)
    && (p.desc.buf in mem <==> p.desc.buf !in Buffers(start.ds))
    && (p.desc.buf in mem ==>
          Inside(start.g.limit, mem, p.desc) && |mem[p.desc.buf]| == start.g.limit
          && Payload(mem, p.desc) == Reply(serve, w.slot.pending.bytes))
  }

  /** What is left in memory of a bulk: the walk on values, each message answered once, and
      exactly the buffers given back or sent are given up; after a reset that is the bulk. */
  ghost predicate Ended(w: Trace, start: Scene, serve: Handler, replies: seq<Bytes>,
                        mem: Memory, next: int, p: PendingBuffer, again: set<int>)
    requires Going(start)
  {
    && next == w.next && Answered(serve, w.sent, replies)
    && Owned(start.mem.Keys, start.next, mem.Keys, next,
             w.put + (if w.end == Reset then Bufs(FragsOf(start)) else []), Bufs(w.sent))
    && Framed(start.mem, mem, Mine(start))
    && (w.end in {Finished, Spins} ==>
          PendingOk(start.g, mem, p) && SlotIn(mem, p) == w.slot && AtHand(p, [], Mine(start), start.next))
    && if w.end == Reset then LeftBehind(w, start, serve, mem, p, again) else again == {}
  }

  /** A turn whose reply finds the peer gone. */
  lemma TurnFails(whole: Trace, start: Scene, a: Scene, b: Scene, log: Log, gone: Option<nat>)
    requires Course(whole, start, a, log, gone) && Leads(a, b) && !Stuck(SlotOf(a).pending)
    requires Fails(FirstTurn(a), gone)
    ensures whole.end == Reset && whole.next == b.next && whole.sent == log.sent
    ensures InSlot(whole.slot) == FragIn(b.mem, b.p.desc) && whole.slot.pending.expected == b.p.expected
    ensures Owned(start.mem.Keys, start.next, b.mem.Keys, b.next, whole.put, Bufs(whole.sent))
    ensures Framed(start.mem, b.mem - {b.p.desc.buf}, Mine(start))
  {
    hide FirstTurn, Carried, Going, StepOk, WalkIn, Owned, Framed, Replied, One, Continued, Stuck, SlotOf;
    var t, f := FirstTurn(a), FirstFrag(a);
    WalkTurns(a, b, gone);
    OwnedTurns(start, a, b, log, false);
    FrameTurns(start, a, b);
    ReadyIsWhole(a, b);
    SceneOk(a);
    ContinuedTwice(log, Settled(t, f), Trace(Reset, t.slot, t.left + FragsOf(a)[1..], b.next, [], [], []));
    ContinuedEnds(Join(log, Settled(t, f)), Reset, t.slot, t.left + FragsOf(a)[1..], b.next);
    assert log.sent + [] == log.sent;
  }

  /** Giving back a whole bulk: what is owned then, and what was given back before. */
  lemma OwnedNoMore(keys0: set<int>, next0: int, keys: set<int>, next: int, put: seq<int>, sent: seq<int>,
                    bulk: set<int>, bs: seq<int>)
    requires Owned(keys0, next0, keys, next, put, sent) && (forall x :: x in bs <==> x in bulk)
    requires forall x :: x in bulk ==> x in keys0 && x < next0
    ensures Owned(keys0, next0, keys - bulk, next, put + bs, sent)
    ensures forall x :: x in bulk - keys <==> x in bs && (x in put || x in sent)
  {}

  lemma FrameOfReset(mem0: Memory, mem1: Memory, mem2: Memory, mem3: Memory, mine: set<int>, bulk: set<int>, b: int)
    requires Framed(mem0, mem1 - {b}, mine) && bulk <= mine
    requires mem2.Keys == mem1.Keys && forall x :: x in mem2 && x != b ==> mem2[x] == mem1[x]
    requires mem3 == mem2 - bulk
    ensures Framed(mem0, mem3, mine)
  {
    forall x | x in mem0 && x !in mine
      ensures x in mem3 && mem3[x] == mem0[x]
    {
      assert x in mem1 - {b} && x != b;
    }
  }

  predicate SameBuffers(ds: seq<Desc>, ds': seq<Desc>) {
    |ds| == |ds'| && forall i :: 0 <= i < |ds| ==> ds'[i].buf == ds[i].buf
  }

  lemma Distinctly(start: Scene, ds: seq<Desc>)
    requires Going(start) && SameBuffers(start.ds, ds)
    ensures forall i, j :: 0 <= i < j < |ds| ==> ds[i].buf != ds[j].buf
    ensures Buffers(ds) == Buffers(start.ds)
    ensures Buffers(start.ds) <= Mine(start) && forall x :: x in Buffers(start.ds) ==> x in start.mem && x < start.next
  {}

  /** The request is answered, the peer is gone: every descriptor of the bulk is given
      back, the connection closed, and the slot left as it is. */
  method CloseSocket(pool: Pool, slots: array<PendingBuffer>, c: nat, descs: array<Desc>, serve: Handler,
                     ghost replies: seq<Bytes>, ghost w: Trace, ghost start: Scene)
    returns (again: set<int>)
    requires pool.Valid() && c < slots.Length && Inside(pool.g.limit, pool.mem, slots[c].desc) && pool.g == start.g
    requires Whole(Payload(pool.mem, slots[c].desc)) && KeepsSize(serve)
    requires Going(start) && SameBuffers(start.ds, descs[..])
    requires w.end == Reset && w.next == pool.next && Answered(serve, w.sent, replies)
    requires InSlot(w.slot) == FragIn(pool.mem, slots[c].desc) && w.slot.pending.expected == slots[c].expected
    requires Owned(start.mem.Keys, start.next, pool.mem.Keys, pool.next, w.put, Bufs(w.sent))
    requires Framed(start.mem, pool.mem - {slots[c].desc.buf}, Mine(start))
    modifies pool`mem, slots
    ensures pool.Valid() && slots[..] == old(slots[..])
    ensures Ended(w, start, serve, replies, pool.mem, pool.next, slots[c], again)
  {
    hide Owned, Framed, Buffers, Mine, Whole, Going, Answered, Bufs, FragsOf;
    ghost var mem1 := pool.mem;
    var valid, body := Answer(pool, slots, c, serve, true);
    ghost var mem2 := pool.mem;
    Distinctly(start, descs[..]);
    SceneOk(start);
    again := PutAll(pool, descs);
    OwnedNoMore(start.mem.Keys, start.next, mem1.Keys, pool.next, w.put, Bufs(w.sent), Buffers(start.ds),
                Bufs(FragsOf(start)));
    FrameOfReset(start.mem, mem1, mem2, pool.mem, Mine(start), Buffers(start.ds), slots[c].desc.buf);
    assert pool.mem.Keys == mem1.Keys - Buffers(start.ds);
    WholeHeader(w.slot.pending.bytes);
  }

  // ---------------------------------------------------------------- whole bulks

  ghost function Here(pool: Pool, slots: array<PendingBuffer>, c: nat, ds: seq<Desc>): Scene
    requires c < slots.Length
    reads pool, slots
  {
    Scene(pool.g, pool.mem, pool.next, slots[c], ds)
  }

  /** What the answer of a step says. */
  lemma StatusIs(a: Scene, b: Scene, status: Status)
    requires StepIn(a) && b.g == a.g && b.ds != [] && b.ds[1..] == a.ds[1..]
    requires StepResult(a.g, a.mem, a.next, a.p, a.ds[0], status, b.mem, b.next, b.p, b.ds[0])
    ensures status == Overrun ==> FirstTurn(a).Over? && b.mem == a.mem && b.next == a.next
    ensures status == ExitUnknown ==>
      FirstTurn(a).Unknown? && Kept(a.g, a.mem, a.next, a.p, b.mem, b.next) && b.next == a.next
    ensures status in {Incomplete, Ready} ==>
      Leads(a, b) && FirstTurn(a).ready == (status == Ready) && b.ds[0].buf == a.ds[0].buf
  {
    hide Turn, StepOk, SlotIn;
  }

  lemma SlotInside(a: Scene)
    requires Going(a)
    ensures PendingOk(a.g, a.mem, a.p)
    ensures a.p.desc.buf != NO_BUFFER ==> a.p.desc.buf in a.mem && a.p.desc.off + a.p.desc.size <= |a.mem[a.p.desc.buf]|
  {}

  /** The process ends in the middle of a step: nothing but the pending buffer changed. */
  lemma KeptFrame(start: Scene, a: Scene, log: Log, mem: Memory)
    requires OwnedBy(start, a, log) && FramedBy(start, a)
    requires mem == a.mem || Kept(a.g, a.mem, a.next, a.p, mem, a.next)
    ensures Owned(start.mem.Keys, start.next, mem.Keys, a.next, log.put, Bufs(log.sent))
    ensures Framed(start.mem, mem, Mine(start)) && AtHand(a.p, [], Mine(start), start.next)
  {
    hide Owned;
  }

  /** The loop leaves its invariant for good. */
  lemma Leaves(w: Trace, start: Scene, a: Scene, log: Log, gone: Option<nat>, serve: Handler, replies: seq<Bytes>,
               end: End, mem: Memory, p: PendingBuffer)
    requires Going(start) && Course(w, start, a, log, gone) && Answered(serve, log.sent, replies)
    requires match end
      case Finished => a.ds == [] && mem == a.mem && p == a.p
      case Spins => a.ds != [] && Stuck(SlotOf(a).pending) && mem == a.mem && p == a.p
      case Overruns => StepIn(a) && !Stuck(SlotOf(a).pending) && FirstTurn(a).Over? && mem == a.mem
      case Exit =>
        StepIn(a) && !Stuck(SlotOf(a).pending) && FirstTurn(a).Unknown? && Kept(a.g, a.mem, a.next, a.p, mem, a.next)
      case Reset => false
    ensures w.end == end && Ended(w, start, serve, replies, mem, a.next, p, {})
  {
    hide FirstTurn, StepOk, OwnedBy, FramedBy, Owned, Framed, AtHand, Answered, Kept, WalkIn, Continued, Mine, Stuck,
      PendingOk;
    TurnBegins(w, start, a, log, gone);
    KeptFrame(start, a, log, mem);
    SlotInside(a);
    assert log.put + [] == log.put;
  }

  lemma CourseBegins(w: Trace, start: Scene, a: Scene, log: Log, gone: Option<nat>)
    requires Course(w, start, a, log, gone)
    ensures a.g == start.g && Going(a) && (a.ds != [] ==> StepIn(a))
  {
    hide WalkIn, OwnedBy, FramedBy, Continued, PendingOk;
  }

  lemma RestOf<T>(s: seq<T>, i: nat)
    requires i < |s|
    ensures s[i..] != [] && s[i..][0] == s[i] && s[i..][1..] == s[i + 1..]
  {}

  lemma SentMore(log: Log, t: Turned, f: Frag)
    requires t.Turned?
    ensures Join(log, Did(t, f)).sent == if t.ready then log.sent + [InSlot(t.slot)] else log.sent
  {
    assert log.sent + [] == log.sent;
  }

  lemma FailsNow(t: Turned, gone: Option<nat>)
    ensures Fails(t, gone) <==> t.Turned? && t.ready && gone == Some(0)
  {}

  /** What a finished step comes to: the end of the bulk, a reply that fails, or the
      next turn. */
  lemma StepTells(w: Trace, start: Scene, a: Scene, b: Scene, log: Log, gone: Option<nat>, status: Status,
                  serve: Handler, replies: seq<Bytes>)
    returns (log': Log)
    requires Going(start) && Course(w, start, a, log, gone) && Answered(serve, log.sent, replies)
    requires StepIn(a) && !Stuck(SlotOf(a).pending) && b.g == a.g && b.ds != [] && b.ds[1..] == a.ds[1..]
    requires StepResult(a.g, a.mem, a.next, a.p, a.ds[0], status, b.mem, b.next, b.p, b.ds[0])
    ensures status in {Overrun, ExitUnknown} ==>
      w.end == (if status == Overrun then Overruns else Exit)
      && Ended(w, start, serve, replies, b.mem, b.next, b.p, {})
    ensures status in {Incomplete, Ready} ==> b.ds[0].buf == a.ds[0].buf
    ensures status == Ready ==>
      Inside(a.g.limit, b.mem, b.p.desc) && |b.mem[b.p.desc.buf]| == a.g.limit && Whole(Payload(b.mem, b.p.desc))
    ensures status == Ready && gone == Some(0) ==>
      && w.end == Reset && w.next == b.next && Answered(serve, w.sent, replies)
      && InSlot(w.slot) == FragIn(b.mem, b.p.desc) && w.slot.pending.expected == b.p.expected
      && Owned(start.mem.Keys, start.next, b.mem.Keys, b.next, w.put, Bufs(w.sent))
      && Framed(start.mem, b.mem - {b.p.desc.buf}, Mine(start))
    ensures status == Incomplete || (status == Ready && gone != Some(0)) ==>
      && Sizes(Onto(b, status == Ready).ds) < Sizes(a.ds)
      && Course(w, start, Onto(b, status == Ready), log', Later(gone, status == Ready))
      && (status == Incomplete ==> Answered(serve, log'.sent, replies))
      && (status == Ready && |Payload(b.mem, b.p.desc)| >= HEADER ==>
            Answered(serve, log'.sent, replies + [Reply(serve, Payload(b.mem, b.p.desc))]))
  {
    hide Going, StepOk, StepResult, Carried, Kept, FirstTurn, WalkIn, OwnedBy, FramedBy, Continued, Sizes, PendingOk,
      Stuck, Whole, Answered, SlotIn, SlotOf, Ended, Mine, Course, Join, Did, Owned, Framed, Fails, InSlot, Onto, Leads;
    StatusIs(a, b, status);
    log' := log;
    CourseBegins(w, start, a, log, gone);
    if status == Overrun || status == ExitUnknown {
      var how := if status == Overrun then Overruns else Exit;
      Leaves(w, start, a, log, gone, serve, replies, how, b.mem, b.p);
    } else {
      LeadsTurned(a, b);
      FailsNow(FirstTurn(a), gone);
      SentMore(log, FirstTurn(a), FirstFrag(a));
      log' := Join(log, Did(FirstTurn(a), FirstFrag(a)));
      if status == Ready {
        ReadyIsWhole(a, b);
        WholeHeader(Payload(b.mem, b.p.desc));
        AnsweredMore(serve, log.sent, replies, FragIn(b.mem, b.p.desc));
      }
      if status == Ready && gone == Some(0) {
        TurnFails(w, start, a, b, log, gone);
      } else {
        TurnKeeps(w, start, a, b, log, gone);
      }
    }
  }

  /** One turn of the loop of `handle_socket`, at descriptor `current`; the peer is gone by
      the time of reply number `gone` from here. Without an `end` the loop goes on. */
  method TakeTurn(pool: Pool, slots: array<PendingBuffer>, c: nat, descs: array<Desc>, current: nat, serve: Handler,
                  gone: Option<nat>, replies: seq<Bytes>, ghost w: Trace, ghost start: Scene, ghost log: Log)
    returns (end: Option<End>, current': nat, gone': Option<nat>, replies': seq<Bytes>, again: set<int>,
             ghost log': Log)
    requires pool.Valid() && c < slots.Length && KeepsSize(serve) && current < descs.Length
    requires Going(start) && SameBuffers(start.ds, descs[..])
    requires Course(w, start, Here(pool, slots, c, descs[current..]), log, gone) && Answered(serve, log.sent, replies)
    modifies pool, slots, descs
    ensures pool.Valid() && slots[..] == old(slots[..])[c := slots[c]]
    ensures end == None ==>
      && current <= current' <= descs.Length && Sizes(descs[current'..]) < Sizes(old(descs[current..]))
      && Course(w, start, Here(pool, slots, c, descs[current'..]), log', gone')
      && Answered(serve, log'.sent, replies') && SameBuffers(start.ds, descs[..])
    ensures end.Some? ==>
      end == Some(w.end) && Ended(w, start, serve, replies, pool.mem, pool.next, slots[c], again)
  {
    hide Going, StepOk, StepResult, WalkIn, Sizes, PendingOk, Stuck, Whole, Answered, SlotIn, Ended, Mine, Course,
      Owned, Framed, InSlot, StepIn;
    current', gone', replies', again, log' := current, gone, replies, {}, log;
    ghost var a := Here(pool, slots, c, descs[current..]);
    CourseBegins(w, start, a, log, gone);
    SlotInside(a);
    if Stuck(SlotIn(pool.mem, slots[c]).pending) {
      // the step below would change nothing, for ever
      Leaves(w, start, a, log, gone, serve, replies, Spins, a.mem, a.p);
      return Some(Spins), current', gone', replies', again, log';
    }
    StepCan(a);
    var status, d := ProcessDesc(pool, slots, c, descs[current]);
    descs[current] := d;
    ghost var b := Here(pool, slots, c, descs[current..]);
    assert b.ds == [d] + a.ds[1..];
    RestOf(descs[..], current);
    log' := StepTells(w, start, a, b, log, gone, status, serve, replies);
    if status == Overrun || status == ExitUnknown {
      return Some(if status == Overrun then Overruns else Exit), current', gone', replies', again, log';
    }
    if status == Ready {
      if gone == Some(0) {
        again := CloseSocket(pool, slots, c, descs, serve, replies, w, start);
        return Some(Reset), current', gone', replies', again, log';
      }
      var valid, reply := Answer(pool, slots, c, serve, false);
      replies' := replies + [reply];
      WholeHeader(Payload(b.mem, b.p.desc));
    }
    gone' := Later(gone, status == Ready);
    if descs[current].size == 0 {
      current' := current + 1;
    }
    end := None;
  }

  lemma LeadsTurned(a: Scene, b: Scene)
    requires Leads(a, b)
    ensures StepIn(a) && FirstTurn(a).Turned?
  {}

  lemma StepCan(a: Scene)
    requires StepIn(a)
    ensures StepOk(a.g, a.mem, a.next, a.p, a.ds[0])
  {}

  /** `handle_socket` on the bulk `descs` for the connection in slot `c`: the walk on values,
      each message answered once, in its own buffer and in order; and only buffers of this
      bulk or of this slot are touched, however it ends. If the peer is gone when reply
      number `gone` is sent, that is the walk up to there, and `again` are the buffers given
      back twice. */
  method HandleSocket(pool: Pool, slots: array<PendingBuffer>, c: nat, descs: array<Desc>, serve: Handler,
                      gone: Option<nat>)
    returns (end: End, replies: seq<Bytes>, again: set<int>, ghost w: Trace)
    requires pool.Valid() && c < slots.Length && KeepsSize(serve)
    requires Going(Here(pool, slots, c, descs[..]))
    modifies pool, slots, descs
    ensures pool.Valid() && slots[..] == old(slots[..])[c := slots[c]]
    ensures w == WalkIn(old(Here(pool, slots, c, descs[..])), gone) && end == w.end
    ensures Ended(w, old(Here(pool, slots, c, descs[..])), serve, replies, pool.mem, pool.next, slots[c], again)
    ensures gone.Some? ==> Cuts(WalkIn(old(Here(pool, slots, c, descs[..])), None), w, gone.value)
    ensures end == Reset ==> gone.Some? && IsAgain(old(Here(pool, slots, c, descs[..])), gone.value, again)
    ensures |replies| == |w.sent|
    ensures forall i :: 0 <= i < |replies| ==>
      && |replies[i]| == |w.sent[i].bytes| >= HEADER && replies[i][..HEADER] == w.sent[i].bytes[..HEADER]
      && replies[i][HEADER..] == serve(w.sent[i].bytes)
    ensures end == Reset && slots[c].desc.buf in pool.mem ==>
      && var d := slots[c].desc; var m := w.slot.pending.bytes;
      && d.off + d.size <= |pool.mem[d.buf]| && d.size == |m| >= HEADER
      && Payload(pool.mem, d)[..HEADER] == m[..HEADER] && Payload(pool.mem, d)[HEADER..] == serve(m)
  {
    hide Going, WalkIn, Course, Sizes, Answered, Ended, Cuts, IsAgain, LeftBehind;
    replies, again := [], {};
    ghost var start, slots0 := Here(pool, slots, c, descs[..]), slots[..];
    w := WalkIn(start, gone);
    GoneCuts(start, gone);
    Opening(start, gone);
    NothingAnswered(serve);
    assert descs[0..] == descs[..];
    var current, soon := 0, gone;
    ghost var log := QUIET;
    while current < descs.Length
      invariant 0 <= current <= descs.Length && pool.Valid() && slots[..] == slots0[c := slots[c]]
      invariant Course(w, start, Here(pool, slots, c, descs[current..]), log, soon)
      invariant Answered(serve, log.sent, replies) && SameBuffers(start.ds, descs[..]) && again == {}
      decreases Sizes(descs[current..])
    {
      var e, current', soon', replies';
      ghost var log';
      e, current', soon', replies', again, log' :=
        TakeTurn(pool, slots, c, descs, current, serve, soon, replies, w, start, log);
      if e.Some? {
        end := e.value;
        EndedServes(w, start, serve, replies, pool.mem, pool.next, slots[c], again);
        if end == Reset {
          EndsBehind(w, start, serve, replies, pool.mem, pool.next, slots[c], again);
          AgainIs(w, start, gone.value, serve, pool.mem, slots[c], again);
        }
        return;
      }
      current, soon, replies, log := current', soon', replies', log';
      again := {};
    }
    end := Finished;
    Leaves(w, start, Here(pool, slots, c, descs[current..]), log, soon, serve, replies, Finished, pool.mem, slots[c]);
    EndedServes(w, start, serve, replies, pool.mem, pool.next, slots[c], again);
  }

  /** What was sent, and what a reset leaves in the slot, is what the handler wrote. */
  lemma EndedServes(w: Trace, start: Scene, serve: Handler, replies: seq<Bytes>,
                    mem: Memory, next: int, p: PendingBuffer, again: set<int>)
    requires Going(start) && Ended(w, start, serve, replies, mem, next, p, again) && KeepsSize(serve)
    ensures |replies| == |w.sent|
    ensures forall i :: 0 <= i < |replies| ==>
      && |replies[i]| == |w.sent[i].bytes| >= HEADER && replies[i][..HEADER] == w.sent[i].bytes[..HEADER]
      && replies[i][HEADER..] == serve(w.sent[i].bytes)
    ensures w.end == Reset && p.desc.buf in mem ==>
      && var d := p.desc; var m := w.slot.pending.bytes;
      && d.off + d.size <= |mem[d.buf]| && d.size == |m| >= HEADER
      && Payload(mem, d)[..HEADER] == m[..HEADER] && Payload(mem, d)[HEADER..] == serve(m)
  {
    hide Owned, Framed, Answered, PendingOk, AtHand, Going, Twice, FragsOf, SlotIn;
    AnsweredServes(serve, w.sent, replies);
    forall i | 0 <= i < |replies|
      ensures |replies[i]| == |w.sent[i].bytes|
    {
      assert |replies[i][HEADER..]| == |w.sent[i].bytes| - HEADER;
    }
  }

  /** Message `k` is one that the bulk sends, and `again` are the buffers given back twice
      if the peer is gone by its reply. */
  ghost predicate IsAgain(start: Scene, k: nat, again: set<int>)
    requires Going(start)
  {
    var whole, b, fs := WalkIn(start, None), SlotOf(start).pending.bytes, FragsOf(start);
    && k < |whole.sent| && (forall x :: x in again <==> Again(start.g, b, fs, k, whole.sent[k].buf, x))
    && (again == {} <==> Clean(start.g, b, fs, k, whole.sent[k].buf))
  }

  lemma EndsBehind(w: Trace, start: Scene, serve: Handler, replies: seq<Bytes>,
                   mem: Memory, next: int, p: PendingBuffer, again: set<int>)
    requires Going(start) && w.end == Reset && Ended(w, start, serve, replies, mem, next, p, again)
    ensures LeftBehind(w, start, serve, mem, p, again)
  {}

  lemma GoneCuts(start: Scene, gone: Option<nat>)
    requires Going(start)
    ensures gone.Some? ==> Cuts(WalkIn(start, None), WalkIn(start, gone), gone.value)
    ensures WalkIn(start, gone).end == Reset ==> gone.Some? && gone.value < |WalkIn(start, None).sent|
  {
    hide Walk, SlotOk, FragsOk, Going, Separate;
    SceneOk(start);
    WalkCut(start.g, start.next, SlotOf(start), FragsOf(start), if gone.Some? then gone.value else 0);
  }

  lemma AgainIs(w: Trace, start: Scene, k: nat, serve: Handler, mem: Memory, p: PendingBuffer, again: set<int>)
    requires Going(start) && w == WalkIn(start, Some(k)) && k < |WalkIn(start, None).sent|
    requires LeftBehind(w, start, serve, mem, p, again)
    ensures IsAgain(start, k, again)
  {
    hide Walk, SlotOk, FragsOk, Clean, Twice, Again, Going, Separate;
    SceneOk(start);
    var whole, s, fs := WalkIn(start, None), SlotOf(start), FragsOf(start);
    forall x
      ensures x in again <==> Again(start.g, s.pending.bytes, fs, k, whole.sent[k].buf, x)
    {
      TwiceIff(start.g, start.next, s, fs, k, x);
    }
    NoneAgain(start.g, s.pending.bytes, fs, k, whole.sent[k].buf, again);
  }
}
