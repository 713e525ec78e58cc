/** A service over its whole life: bulks of several connections, one after another,
    on one pool of buffers, and an account of every buffer it ever had. */
module Stations {
  import opened Basics
  import opened Messages
  import opened StreamTheory
  import opened Sums
  import opened Bulks
  import opened BulkLimits
  import opened Reassembly
  import opened Resets
  import opened SyncService

  /** What is pending in each slot of the socket table, and where all other buffers went:
      given back, sent as a reply, forgotten, or unread when the process ended. A `stale`
      slot is one that a reset left with a request in it. */
  datatype Station = Station(slots: seq<Slot>, next: int, put: seq<int>, sent: seq<Frag>, lost: seq<int>,
                             unread: seq<int>, stale: set<nat>)

  predicate StationOk(g: Config, st: Station) {
    ConfigOk(g) && NO_BUFFER < st.next && forall c :: 0 <= c < |st.slots| && c !in st.stale ==> SlotOk(g, st.slots[c])
  }

  /** A bulk arrives on whatever connection is in slot `c`, and the peer is gone by the
      reply number `gone`. Closing and accepting connections moves sockets between slots,
      and no pending buffer. */
  datatype Event = Event(c: nat, bulk: seq<Arrival>, gone: Option<nat>)

  predicate EventOk(g: Config, n: nat, e: Event) {
    e.c < n && BulkOk(g, e.bulk)
  }

  predicate EventsOk(g: Config, n: nat, events: seq<Event>) {
    forall i :: 0 <= i < |events| ==> EventOk(g, n, events[i])
  }

  /** An event in a slot that is not stale. */
  predicate Happens(g: Config, st: Station, e: Event) {
    StationOk(g, st) && EventOk(g, |st.slots|, e) && e.c !in st.stale
  }

  function WalkOf(g: Config, st: Station, e: Event): Trace
    requires Happens(g, st, e)
  {
    assert FragsOk(g, Numbered(e.bulk, st.next)) by {
      NumberedOk(g, e.bulk, st.next);
    }
    Walk(g, st.next + |e.bulk|, st.slots[e.c], Numbered(e.bulk, st.next), e.gone)
  }

  /** After a reset the whole bulk is given back, forgotten and unread buffers included. */
  function Serve(g: Config, st: Station, e: Event): (End, Station)
    requires Happens(g, st, e)
  {
    var w := WalkOf(g, st, e);
    var slots, sent := st.slots[e.c := w.slot], st.sent + w.sent;
    if w.end == Reset then
      (Reset, Station(slots, w.next, st.put + (w.put + Bufs(Numbered(e.bulk, st.next))), sent, st.lost, st.unread,
                      st.stale + {e.c}))
    else
      (w.end, Station(slots, w.next, st.put + w.put, sent, st.lost + w.lost, st.unread + Bufs(w.left), st.stale))
  }

  lemma WalkOfKeeps(g: Config, st: Station, e: Event)
    requires Happens(g, st, e)
    ensures var w := WalkOf(g, st, e); st.next <= w.next && (w.end != Reset ==> SlotOk(g, w.slot))
  {
    hide Walk, SlotOk, FragsOk, BulkOk;
    NumberedOk(g, e.bulk, st.next);
    WalkKeeps(g, st.next + |e.bulk|, st.slots[e.c], Numbered(e.bulk, st.next), e.gone);
  }

  lemma ServeKeeps(g: Config, st: Station, e: Event)
    requires Happens(g, st, e)
    ensures var st' := Serve(g, st, e).1; StationOk(g, st') && st.next <= st'.next && |st'.slots| == |st.slots|
  {
    hide WalkOf, SlotOk, BulkOk;
    WalkOfKeeps(g, st, e);
  }

  /** How a life ends: as a bulk does, or with a bulk in a stale slot. */
  datatype Fate = Ends(end: End) | UsesStale

  /** Whether a service goes on after a bulk that ends so. */
  predicate GoesOn(end: End) {
    end in {Finished, Reset}
  }

  /** Bulks one after another, until the process ends or a stale slot is used. */
  function Life(g: Config, st: Station, events: seq<Event>): (Fate, Station)
    requires StationOk(g, st) && EventsOk(g, |st.slots|, events)
    decreases |events|
  {
    if events == [] then (Ends(Finished), st)
    else if events[0].c in st.stale then (UsesStale, st)
    else
      var (end, st') := Serve(g, st, events[0]);
      ServeKeeps(g, st, events[0]);
      if GoesOn(end) then Life(g, st', events[1..]) else (Ends(end), st')
  }

  // ------------------------------------------------------------- every buffer

  function HeldHere(x: int): Slot -> nat { (s: Slot) => Count(Held(s), x) }

  /** In how many places buffer `x` is. */
  function Everywhere(st: Station, x: int): nat {
    Count(st.put, x) + Count(Bufs(st.sent), x) + Count(st.lost, x) + Sum(HeldHere(x), st.slots) + Count(st.unread, x)
  }

  /** Every buffer received or obtained so far is in exactly one place, once. */
  ghost predicate Balanced(st: Station) {
    forall x :: Everywhere(st, x) == Among(0, st.next, x)
  }

  /** Every such buffer is somewhere, and no other is anywhere. */
  ghost predicate NoneMissing(st: Station) {
    forall x :: Everywhere(st, x) >= Among(0, st.next, x) && (Everywhere(st, x) > 0 ==> 0 <= x < st.next)
  }

  lemma {:induction false} NumberedCount(bulk: seq<Arrival>, next: int, x: int)
    ensures Count(Bufs(Numbered(bulk, next)), x) == Among(next, next + |bulk|, x)
  {
    var bs := Bufs(Numbered(bulk, next));
    if bulk != [] {
      var n := |bulk| - 1;
      NumberedCount(bulk[..n], next, x);
      assert bs == Bufs(Numbered(bulk[..n], next)) + [next + n];
      CountJoin(Bufs(Numbered(bulk[..n], next)), [next + n], x);
      CountOne(x, next + n);
    } else {
      assert bs == [];
    }
  }

  /** How often more than it should a reset puts buffer `x` somewhere. */
  function Surplus(g: Config, st: Station, e: Event, x: int): int
    requires Happens(g, st, e)
  {
    if WalkOf(g, st, e).end != Reset then 0
    else
      var w := WalkOf(g, st, e);
      Count(Bufs(Numbered(e.bulk, st.next)), x) - Count(w.lost, x) - Count(Bufs(w.left), x)
  }

  /** An event, however it ends, puts as many buffers somewhere as it brings, and more
      only if it is a reset. */
  lemma ServeBalances(g: Config, st: Station, e: Event, x: int)
    requires Happens(g, st, e)
    ensures var st' := Serve(g, st, e).1;
      Everywhere(st', x) == Everywhere(st, x) + Among(st.next, st'.next, x) + Surplus(g, st, e, x)
  {
    hide Walk, Count, Sum, SlotOk, FragsOk, BulkOk, Held;
    var fs, s := Numbered(e.bulk, st.next), st.slots[e.c];
    NumberedOk(g, e.bulk, st.next);
    var w := WalkOf(g, st, e);
    WalkBalances(g, st.next + |e.bulk|, s, fs, e.gone, x);
    NumberedCount(e.bulk, st.next, x);
    SumUpdate(HeldHere(x), st.slots, e.c, w.slot);
    BufsJoin(st.sent, w.sent, x);
    CountJoin(st.put, w.put + Bufs(fs), x);
    CountJoin(w.put, Bufs(fs), x);
    CountJoin(st.put, w.put, x);
    CountJoin(st.lost, w.lost, x);
    CountJoin(st.unread, Bufs(w.left), x);
  }

  /** The peer is gone by a reply that the bulk comes to. */
  predicate IsReset(g: Config, st: Station, e: Event)
    requires Happens(g, st, e)
  {
    e.gone.Some? && e.gone.value < |WalkOf(g, st, e.(gone := None)).sent|
  }

  /** Descriptor `i` ends by the end of the request of that reply, and none of its messages
      is too tight. */
  predicate Repeated(g: Config, st: Station, e: Event, i: nat)
    requires Happens(g, st, e) && IsReset(g, st, e) && i < |e.bulk|
  {
    var b, fs := st.slots[e.c].pending.bytes, Numbered(e.bulk, st.next);
    i < Used(fs, EndOf(b, fs, e.gone.value)) && !TooTight(g, b, fs, i)
  }

  /** The peer stays, or no descriptor is such. */
  predicate Harmless(g: Config, st: Station, e: Event)
    requires Happens(g, st, e)
  {
    IsReset(g, st, e) ==> forall i :: 0 <= i < |e.bulk| ==> !Repeated(g, st, e, i)
  }

  lemma ResetIs(g: Config, st: Station, e: Event)
    requires Happens(g, st, e)
    ensures var w, b, fs := WalkOf(g, st, e), st.slots[e.c].pending.bytes, Numbered(e.bulk, st.next);
      && (w.end == Reset <==> IsReset(g, st, e)) && Last(w.left, fs)
      && (IsReset(g, st, e) ==> |fs| - |w.left| == Used(fs, EndOf(b, fs, e.gone.value)))
  {
    hide Walk, SlotOk, FragsOk, BulkOk, Used, EndOf, Taken, Last;
    var s, fs := st.slots[e.c], Numbered(e.bulk, st.next);
    NumberedOk(g, e.bulk, st.next);
    WalkCut(g, st.next + |e.bulk|, s, fs, if e.gone.Some? then e.gone.value else 0);
    UnreadAreLast(g, st.next + |e.bulk|, s, fs, e.gone);
    if IsReset(g, st, e) {
      ReadByThen(g, st.next + |e.bulk|, s, fs, e.gone);
      TakenIsEnd(g, st.next + |e.bulk|, s, fs, e.gone.value);
    }
  }

  lemma NothingHeld(st: Station, c: nat, x: int)
    requires c < |st.slots| && Everywhere(st, x) == 0
    ensures Count(Held(st.slots[c]), x) == 0
  {
    hide Sum, Count, Held;
    SumAtLeast(HeldHere(x), st.slots, c);
  }

  /** A reset puts the buffers of exactly these descriptors somewhere twice. */
  lemma SurplusIs(g: Config, st: Station, e: Event, x: int)
    requires Happens(g, st, e) && NoneMissing(st) && 0 <= st.next
    ensures 0 <= Surplus(g, st, e, x) <= 1
    ensures Surplus(g, st, e, x) == 1 <==>
      IsReset(g, st, e) && 0 <= x - st.next < |e.bulk| && Repeated(g, st, e, x - st.next)
  {
    hide Walk, Count, Sum, SlotOk, FragsOk, BulkOk, Held, TooTight, Used, EndOf, Last, Everywhere;
    if WalkOf(g, st, e).end == Reset {
      var s, fs, w := st.slots[e.c], Numbered(e.bulk, st.next), WalkOf(g, st, e);
      var next := st.next + |e.bulk|;
      NumberedOk(g, e.bulk, st.next);
      ResetIs(g, st, e);
      WalkBalances(g, next, s, fs, e.gone, x);
      NumberedCount(e.bulk, st.next, x);
      LostIff(g, next, s, fs, e.gone, x);
      CountIn(w.lost, x);
      CountIn(Bufs(w.left), x);
      var i := x - st.next;
      if 0 <= i < |e.bulk| {
        NothingHeld(st, e.c, x);
        InLast(w.left, fs, i);
        assert fs[i].buf == x;
      } else {
        NotOfBulk(w.left, fs, st.next, x);
      }
    } else {
      ResetIs(g, st, e);
    }
  }

  lemma NotOfBulk(left: seq<Frag>, fs: seq<Frag>, next: int, x: int)
    requires Last(left, fs) && (forall i :: 0 <= i < |fs| ==> fs[i].buf == next + i) && !(next <= x < next + |fs|)
    ensures x !in Bufs(left)
  {
    forall j | 0 <= j < |left|
      ensures Bufs(left)[j] != x
    {
      assert Bufs(left)[j] == Bufs(fs)[|fs| - |left| + j];
    }
  }

  /** One event: nothing goes missing, and all is in one place exactly if it was and the
      event is harmless. */
  lemma ServeAccounts(g: Config, st: Station, e: Event)
    requires Happens(g, st, e) && NoneMissing(st) && 0 <= st.next
    ensures NoneMissing(Serve(g, st, e).1)
    ensures Balanced(Serve(g, st, e).1) <==> Balanced(st) && Harmless(g, st, e)
  {
    hide WalkOf, Everywhere, SlotOk, BulkOk, Surplus, Repeated, Serve;
    var st' := Serve(g, st, e).1;
    ServeKeeps(g, st, e);
    forall x
      ensures Everywhere(st', x) == Everywhere(st, x) + Among(st.next, st'.next, x) + Surplus(g, st, e, x)
      ensures 0 <= Surplus(g, st, e, x) <= 1
      ensures Surplus(g, st, e, x) == 1 <==>
        IsReset(g, st, e) && 0 <= x - st.next < |e.bulk| && Repeated(g, st, e, x - st.next)
      ensures Surplus(g, st, e, x) == 1 ==> x < st'.next
    {
      ServeBalances(g, st, e, x);
      SurplusIs(g, st, e, x);
      BulkBelow(g, st, e);
    }
    if Balanced(st') {
      forall x
        ensures Everywhere(st, x) == Among(0, st.next, x) && Surplus(g, st, e, x) == 0
      {
        assert Everywhere(st', x) == Among(0, st'.next, x);
      }
      if IsReset(g, st, e) {
        forall i | 0 <= i < |e.bulk|
          ensures !Repeated(g, st, e, i)
        {
          assert Surplus(g, st, e, st.next + i) == 0;
        }
      }
    }
  }

  lemma BulkBelow(g: Config, st: Station, e: Event)
    requires Happens(g, st, e)
    ensures IsReset(g, st, e) ==> st.next + |e.bulk| <= Serve(g, st, e).1.next
  {
    hide Walk, SlotOk, FragsOk, BulkOk;
    NumberedOk(g, e.bulk, st.next);
    WalkKeeps(g, st.next + |e.bulk|, st.slots[e.c], Numbered(e.bulk, st.next), e.gone);
  }

  /** Every event of a life that happens is harmless. */
  ghost predicate AlwaysHarmless(g: Config, st: Station, events: seq<Event>)
    requires StationOk(g, st) && EventsOk(g, |st.slots|, events)
    decreases |events|
  {
    events == [] || events[0].c in st.stale ||
    (ServeKeeps(g, st, events[0]);
     Harmless(g, st, events[0])
     && (GoesOn(Serve(g, st, events[0]).0) ==> AlwaysHarmless(g, Serve(g, st, events[0]).1, events[1..])))
  }

  /** Over every life, whatever arrives where and however it ends, no buffer ever received
      or obtained goes missing: each is given back, sent, forgotten, pending on one
      connection, or unread. And each is in exactly one of these places, once, exactly if
      every reset is harmless. */
  lemma {:induction false} LifeBalances(g: Config, st: Station, events: seq<Event>)
    requires StationOk(g, st) && EventsOk(g, |st.slots|, events) && NoneMissing(st) && 0 <= st.next
    ensures StationOk(g, Life(g, st, events).1) && NoneMissing(Life(g, st, events).1)
    ensures Balanced(Life(g, st, events).1) <==> Balanced(st) && AlwaysHarmless(g, st, events)
    decreases |events|
  {
    hide Balanced, NoneMissing, SlotOk, BulkOk, Harmless, Serve;
    if events != [] && events[0].c !in st.stale {
      ServeKeeps(g, st, events[0]);
      ServeAccounts(g, st, events[0]);
      if GoesOn(Serve(g, st, events[0]).0) {
        LifeBalances(g, Serve(g, st, events[0]).1, events[1..]);
      }
    }
  }

  /** Before the first bulk: no buffers, and nothing pending. */
  function Fresh(size: nat): Station {
    Station(seq(size, _ => FREE), 0, [], [], [], [], {})
  }

  lemma FreshBalanced(g: Config, size: nat)
    requires ConfigOk(g)
    ensures StationOk(g, Fresh(size)) && Balanced(Fresh(size)) && NoneMissing(Fresh(size))
  {
    forall x
      ensures Everywhere(Fresh(size), x) == 0
    {
      SumZero(HeldHere(x), Fresh(size).slots);
    }
  }

  /** From the start of a service, whatever it receives: every buffer it ever had is in
      exactly one place, exactly if every reset is harmless. */
  lemma EveryBufferIsInOnePlace(g: Config, size: nat, events: seq<Event>)
    requires ConfigOk(g) && EventsOk(g, size, events)
    ensures StationOk(g, Fresh(size))
    ensures Balanced(Life(g, Fresh(size), events).1) <==> AlwaysHarmless(g, Fresh(size), events)
  {
    hide Balanced, NoneMissing, Life, EventsOk, AlwaysHarmless;
    FreshBalanced(g, size);
    LifeBalances(g, Fresh(size), events);
  }

  /** In particular if no peer is ever gone before its reply. */
  lemma {:induction false} PatientPeers(g: Config, st: Station, events: seq<Event>)
    requires StationOk(g, st) && EventsOk(g, |st.slots|, events)
    requires forall i :: 0 <= i < |events| ==> events[i].gone == None
    ensures AlwaysHarmless(g, st, events)
    decreases |events|
  {
    hide SlotOk, BulkOk, Serve, WalkOf;
    if events != [] && events[0].c !in st.stale {
      ServeKeeps(g, st, events[0]);
      if GoesOn(Serve(g, st, events[0]).0) {
        PatientPeers(g, Serve(g, st, events[0]).1, events[1..]);
      }
    }
  }

  // ------------------------------------------------- one connection among others

  /** The fragments that arrived in slot `c`, in their order. */
  function Heard(events: seq<Event>, c: nat): seq<Bytes> {
    if events == [] then []
    else (if events[0].c == c then BytesOf(events[0].bulk) else []) + Heard(events[1..], c)
  }

  function BytesOf(bulk: seq<Arrival>): (bs: seq<Bytes>)
    ensures |bs| == |bulk| && forall i :: 0 <= i < |bulk| ==> bs[i] == bulk[i].bytes
  {
    seq(|bulk|, i requires 0 <= i < |bulk| => bulk[i].bytes)
  }

  /** The requests answered in slot `c`. */
  function SentOn(g: Config, st: Station, events: seq<Event>, c: nat): seq<Frag>
    requires StationOk(g, st) && EventsOk(g, |st.slots|, events)
    decreases |events|
  {
    if events == [] || events[0].c in st.stale then []
    else
      ServeKeeps(g, st, events[0]);
      (if events[0].c == c then WalkOf(g, st, events[0]).sent else [])
      + if GoesOn(Serve(g, st, events[0]).0) then SentOn(g, Serve(g, st, events[0]).1, events[1..], c) else []
  }

  lemma ServeApart(g: Config, st: Station, e: Event, c: nat)
    requires Happens(g, st, e) && c < |st.slots| && c !in st.stale && e.c != c
    ensures var st' := Serve(g, st, e).1; c < |st'.slots| && c !in st'.stale && st'.slots[c] == st.slots[c]
  {
    hide WalkOf, SlotOk, BulkOk;
  }

  lemma SlotIsPartial(g: Config, st: Station, c: nat)
    requires StationOk(g, st) && c < |st.slots| && c !in st.stale
    ensures Partial(st.slots[c].pending, g.test)
  {}

  lemma BulkNonEmpty(g: Config, bulk: seq<Arrival>)
    requires BulkOk(g, bulk)
    ensures NonEmpty(BytesOf(bulk))
  {
    forall i | 0 <= i < |bulk|
      ensures BytesOf(bulk)[i] != []
    {
      assert ArrivalOk(g, bulk[i]);
    }
  }

  /** A bulk in a slot whose peer stays is the run on its bytes. */
  lemma ServeDrives(g: Config, st: Station, e: Event)
    requires Happens(g, st, e) && e.gone == None && GoesOn(Serve(g, st, e).0)
    ensures var st' := Serve(g, st, e).1;
      && |st'.slots| == |st.slots| && st'.stale == st.stale
      && Partial(st.slots[e.c].pending, g.test) && NonEmpty(BytesOf(e.bulk))
      && Drive(st.slots[e.c].pending, BytesOf(e.bulk), g.test)
         == Done(Contents(WalkOf(g, st, e).sent), st'.slots[e.c].pending)
  {
    hide Walk, SlotOk, BulkOk, FragsOk, Drive;
    var fs := Numbered(e.bulk, st.next);
    NumberedOk(g, e.bulk, st.next);
    ResetIs(g, st, e);
    WalkIsDrive(g, st.next + |e.bulk|, st.slots[e.c], fs, None);
    BulkNonEmpty(g, e.bulk);
    assert Contents(fs) == BytesOf(e.bulk);
  }

  /** Whatever arrives on other connections, and even if their peers are gone: what is
      answered on one whose peer stays, and what is pending there, is what the run on the
      bytes that arrived there comes to. */
  lemma {:induction false} ConnectionsDoNotMix(g: Config, st: Station, events: seq<Event>, c: nat)
    requires StationOk(g, st) && EventsOk(g, |st.slots|, events) && c < |st.slots| && c !in st.stale
    requires forall i :: 0 <= i < |events| && events[i].c == c ==> events[i].gone == None
    requires Life(g, st, events).0 == Ends(Finished)
    ensures Partial(st.slots[c].pending, g.test) && NonEmpty(Heard(events, c))
    ensures var st' := Life(g, st, events).1;
      && c < |st'.slots|
      && Drive(st.slots[c].pending, Heard(events, c), g.test)
         == Done(Contents(SentOn(g, st, events, c)), st'.slots[c].pending)
    decreases |events|
  {
    hide SlotOk, BulkOk, Serve, WalkOf, Drive, Partial, NonEmpty, Happens, StationOk;
    LifeUnfolds(g, st, events);
    SlotIsPartial(g, st, c);
    if events == [] {
      DrivenNowhere(st.slots[c].pending, g.test);
    } else {
      var e := events[0];
      var st' := Serve(g, st, e).1;
      var later, sent := Heard(events[1..], c), SentOn(g, st', events[1..], c);
      assert forall i :: 0 <= i < |events[1..]| ==> events[1..][i] == events[i + 1];
      if e.c == c {
        ServeDrives(g, st, e);
        ConnectionsDoNotMix(g, st', events[1..], c);
        DriveResumes(st.slots[c].pending, BytesOf(e.bulk), later, g.test);
        ContentsJoin(WalkOf(g, st, e).sent, sent);
      } else {
        ServeApart(g, st, e, c);
        ConnectionsDoNotMix(g, st', events[1..], c);
        assert [] + later == later && [] + sent == sent;
      }
    }
  }

  lemma DrivenNowhere(p: Pending, test: HeaderTest)
    requires Partial(p, test)
    ensures NonEmpty([]) && Drive(p, [], test) == Done([], p) && Contents([]) == []
  {}

  lemma ContentsJoin(a: seq<Frag>, b: seq<Frag>)
    ensures Contents(a + b) == Contents(a) + Contents(b)
  {}

  // ------------------------------------------------------------- lost buffers

  /** If the peer stays, no message is too tight in a descriptor read to its end. */
  predicate Roomy(g: Config, st: Station, e: Event)
    requires Happens(g, st, e)
  {
    !IsReset(g, st, e) ==>
      forall k :: 0 <= k < |e.bulk| - |WalkOf(g, st, e).left| && k < |e.bulk| ==>
        !TooTight(g, st.slots[e.c].pending.bytes, Numbered(e.bulk, st.next), k)
  }

  ghost predicate AlwaysRoomy(g: Config, st: Station, events: seq<Event>)
    requires StationOk(g, st) && EventsOk(g, |st.slots|, events)
    decreases |events|
  {
    events == [] || events[0].c in st.stale ||
    (ServeKeeps(g, st, events[0]);
     Roomy(g, st, events[0])
     && (GoesOn(Serve(g, st, events[0]).0) ==> AlwaysRoomy(g, Serve(g, st, events[0]).1, events[1..])))
  }

  lemma ServeLoses(g: Config, st: Station, e: Event)
    requires Happens(g, st, e)
    ensures Serve(g, st, e).1.lost == st.lost <==> Roomy(g, st, e)
    ensures st.lost <= Serve(g, st, e).1.lost
  {
    hide Walk, TooTight, SlotOk, FragsOk, BulkOk, Loses;
    ResetIs(g, st, e);
    var w, b, fs := WalkOf(g, st, e), st.slots[e.c].pending.bytes, Numbered(e.bulk, st.next);
    NumberedOk(g, e.bulk, st.next);
    var n := |fs| - |w.left|;
    forall x
      ensures x in w.lost <==> Loses(g, b, fs, n, x)
    {
      LostIff(g, st.next + |e.bulk|, st.slots[e.c], fs, e.gone, x);
    }
    LosesSome(g, b, fs, n, w.lost);
  }

  lemma LosesSome(g: Config, b: Bytes, fs: seq<Frag>, n: int, lost: seq<int>)
    requires forall x :: x in lost <==> Loses(g, b, fs, n, x)
    ensures lost == [] <==> forall k :: 0 <= k < n && k < |fs| ==> !TooTight(g, b, fs, k)
  {
    hide TooTight;
    if lost != [] {
      assert Loses(g, b, fs, n, lost[0]);
    } else {
      forall k | 0 <= k < n && k < |fs|
        ensures !TooTight(g, b, fs, k)
      {
        assert !Loses(g, b, fs, n, fs[k].buf);
      }
    }
  }

  /** A life, however it ends, forgets no buffer for good exactly if no message that it
      reads and answers is ever too tight. */
  lemma {:induction false} LosesNothingIff(g: Config, st: Station, events: seq<Event>)
    requires StationOk(g, st) && EventsOk(g, |st.slots|, events)
    ensures st.lost <= Life(g, st, events).1.lost
    ensures Life(g, st, events).1.lost == st.lost <==> AlwaysRoomy(g, st, events)
    decreases |events|
  {
    hide Serve, Roomy, SlotOk, BulkOk, WalkOf;
    if events != [] && events[0].c !in st.stale {
      ServeKeeps(g, st, events[0]);
      ServeLoses(g, st, events[0]);
      if GoesOn(Serve(g, st, events[0]).0) {
        LosesNothingIff(g, Serve(g, st, events[0]).1, events[1..]);
      }
    }
  }

  // ---------------------------------------------------------------- in place

  /** What is pending in each slot, in stale ones by record. */
  function SlotsIn(limit: nat, mem: Memory, ps: seq<PendingBuffer>, stale: map<nat, Slot>): (ss: seq<Slot>)
    requires Sized(limit, mem)
    requires forall i :: 0 <= i < |ps| && i !in stale ==> Placed(limit, mem, ps[i])
    ensures |ss| == |ps|
    ensures forall i :: 0 <= i < |ps| && i !in stale ==> Placed(limit, mem, ps[i]) && ss[i] == SlotIn(mem, ps[i])
    ensures forall i :: 0 <= i < |ps| && i in stale ==> ss[i] == stale[i]
  {
    seq(|ps|, i requires 0 <= i < |ps| =>
      if i in stale then stale[i] else assert Placed(limit, mem, ps[i]); SlotIn(mem, ps[i]))
  }

  /** The partial message in every slot that is not stale is sound, in a buffer of its own. */
  ghost predicate Apart(g: Config, mem: Memory, ps: seq<PendingBuffer>, stale: set<nat>) {
    && Sized(g.limit, mem)
    && (forall i :: 0 <= i < |ps| && i !in stale ==> PendingOk(g, mem, ps[i]) && Placed(g.limit, mem, ps[i]))
    && (forall i, j | 0 <= i < |ps| && 0 <= j < |ps| && i != j && i !in stale && j !in stale ::
          ps[i].desc.buf != NO_BUFFER ==> ps[i].desc.buf != ps[j].desc.buf)
  }

  predicate Points(p: PendingBuffer, s: Slot) {
    p == PendingBuffer(Desc(s.buf, s.off, |s.pending.bytes|), s.pending.expected)
  }

  /** A stale slot keeps its pending buffer as it was. */
  predicate Frozen(ps: seq<PendingBuffer>, stale: map<nat, Slot>) {
    forall i :: i in stale ==> i < |ps| && Points(ps[i], stale[i])
  }

  /** Where the buffers that are not pending went, and what the stale slots hold. */
  datatype Book = Book(put: seq<int>, sent: seq<Frag>, lost: seq<int>, unread: seq<int>, stale: map<nat, Slot>)

  ghost predicate Sound(g: Config, mem: Memory, next: int, ps: seq<PendingBuffer>, book: Book) {
    && ConfigOk(g) && NO_BUFFER < next && (forall b :: b in mem ==> b < next)
    && Apart(g, mem, ps, book.stale.Keys) && Frozen(ps, book.stale)
    && Owned({}, 0, mem.Keys, next, book.put, Bufs(book.sent))
  }

  ghost function ViewOf(g: Config, mem: Memory, next: int, ps: seq<PendingBuffer>, book: Book): (st: Station)
    requires Sound(g, mem, next, ps, book)
    ensures StationOk(g, st) && |st.slots| == |ps| && st.stale == book.stale.Keys
  {
    Station(SlotsIn(g.limit, mem, ps, book.stale), next, book.put, book.sent, book.lost, book.unread, book.stale.Keys)
  }

  /** A service with its pool and its pending buffers. */
  class Service {
    const pool: Pool
    const slots: array<PendingBuffer>
    var stale: set<nat> // left with a request by a reset
    ghost var book: Book

    ghost predicate Valid()
      reads this, pool, slots
    {
      Sound(pool.g, pool.mem, pool.next, slots[..], book) && stale == book.stale.Keys
    }

    ghost function View(): Station
      requires Valid()
      reads this, pool, slots
    {
      ViewOf(pool.g, pool.mem, pool.next, slots[..], book)
    }

    constructor (g: Config, size: nat)
      requires ConfigOk(g)
      ensures fresh(pool) && fresh(slots) && pool.g == g
      ensures Valid() && View() == Fresh(size)
    {
      pool := new Pool(g);
      slots := new PendingBuffer[size](_ => NOTHING);
      stale, book := {}, Book([], [], [], [], map[]);
      assert Bufs([]) == [];
    }

    /** A bulk arrives on the connection in slot `c` and is handled; the peer is gone by the
        reply number `gone`. */
    method Handle(c: nat, bulk: seq<Arrival>, gone: Option<nat>, serve: Handler)
      returns (end: End, replies: seq<Bytes>)
      requires Valid() && c < slots.Length && c !in stale && BulkOk(pool.g, bulk) && KeepsSize(serve)
      modifies this, pool, slots
      ensures Happens(pool.g, old(View()), Event(c, bulk, gone)) && pool.Valid()
      ensures end == Serve(pool.g, old(View()), Event(c, bulk, gone)).0
      ensures end in {Finished, Spins, Reset} ==>
        Valid() && View() == Serve(pool.g, old(View()), Event(c, bulk, gone)).1
      ensures Answered(serve, WalkOf(pool.g, old(View()), Event(c, bulk, gone)).sent, replies)
    {
      hide Sound, ViewOf, StationOk, WalkIn, WalkOf, Going, Answered, IsAgain, Cuts, Ended, BulkOk, Brought;
      ghost var mem0, next0, ps, e := pool.mem, pool.next, slots[..], Event(c, bulk, gone);
      PoolValid(pool.g, mem0, next0, ps, book);
      var descs := pool.Receive(bulk);
      ghost var start := Here(pool, slots, c, descs[..]);
      Arrived(mem0, next0, ps, book, start, e);
      var again;
      ghost var w;
      end, replies, again, w := HandleSocket(pool, slots, c, descs, serve, gone);
      Served(mem0, next0, ps, book, start, e, w, serve, replies, pool.mem, pool.next, slots[c], again);
      if end in {Finished, Spins, Reset} {
        book := Booked(book, Numbered(e.bulk, next0), e, w);
        stale := if end == Reset then stale + {c} else stale;
      }
    }

    /** Bulks one after another, until the process ends or a stale slot is used. */
    method Live(events: seq<Event>, serve: Handler) returns (fate: Fate)
      requires Valid() && EventsOk(pool.g, slots.Length, events) && KeepsSize(serve)
      modifies this, pool, slots
      ensures StationOk(pool.g, old(View()))
      ensures fate == Life(pool.g, old(View()), events).0
      ensures fate in {Ends(Finished), Ends(Spins), UsesStale} ==>
        Valid() && View() == Life(pool.g, old(View()), events).1
    {
      hide Serve, StationOk, KeepsSize, Sound, ViewOf, EventOk, Happens, Life;
      var i := 0;
      ghost var st := View();
      while i < |events|
        invariant 0 <= i <= |events| && Valid() && EventsOk(pool.g, slots.Length, events[i..])
        invariant Life(pool.g, View(), events[i..]) == Life(pool.g, st, events)
      {
        LifeUnfolds(pool.g, View(), events[i..]);
        assert events[i..][0] == events[i] && events[i..][1..] == events[i + 1..];
        if events[i].c in stale {
          return UsesStale;
        }
        var end, replies := Handle(events[i].c, events[i].bulk, events[i].gone, serve);
        if !GoesOn(end) {
          return Ends(end);
        }
        i := i + 1;
      }
      fate := Ends(Finished);
      LifeUnfolds(pool.g, View(), events[i..]);
    }
  }

  lemma LifeUnfolds(g: Config, st: Station, events: seq<Event>)
    requires StationOk(g, st) && EventsOk(g, |st.slots|, events)
    ensures events == [] ==> Life(g, st, events) == (Ends(Finished), st)
    ensures events != [] ==>
      events[0].c < |st.slots| && BulkOk(g, events[0].bulk) && EventsOk(g, |st.slots|, events[1..])
    ensures events != [] && events[0].c in st.stale ==> Life(g, st, events) == (UsesStale, st)
    ensures events != [] && events[0].c !in st.stale ==>
      Happens(g, st, events[0])
      && var (end, st') := Serve(g, st, events[0]);
         && StationOk(g, st') && |st'.slots| == |st.slots|
         && Life(g, st, events) == if GoesOn(end) then Life(g, st', events[1..]) else (Ends(end), st')
  {
    hide Serve;
    if events != [] && events[0].c !in st.stale {
      ServeKeeps(g, st, events[0]);
    }
  }

  // -------------------------------------------------- one event, in memory

  lemma PoolValid(g: Config, mem: Memory, next: int, ps: seq<PendingBuffer>, book: Book)
    requires Sound(g, mem, next, ps, book)
    ensures ConfigOk(g) && Sized(g.limit, mem) && NO_BUFFER < next && forall b :: b in mem ==> b < next
    ensures forall c :: 0 <= c < |ps| && c !in book.stale ==> PendingOk(g, mem, ps[c])
  {}

  /** Slots other than `c`: as they were, in buffers that are not of `mine`. */
  ghost predicate Undisturbed(g: Config, mem: Memory, mem': Memory, ps: seq<PendingBuffer>, stale: set<nat>, c: nat,
                              mine: set<int>, next: int) {
    && Sized(g.limit, mem) && Sized(g.limit, mem')
    && forall i | 0 <= i < |ps| && i != c && i !in stale ::
         && PendingOk(g, mem', ps[i]) && Placed(g.limit, mem, ps[i]) && Placed(g.limit, mem', ps[i])
         && SlotIn(mem', ps[i]) == SlotIn(mem, ps[i])
         && (ps[i].desc.buf != NO_BUFFER ==> ps[i].desc.buf !in mine && ps[i].desc.buf < next)
  }

  /** Received buffers disturb nobody. */
  lemma ArrivedQuietly(g: Config, mem0: Memory, next0: int, ps: seq<PendingBuffer>, book: Book, mem: Memory,
                       bulk: seq<Arrival>, ds: seq<Desc>)
    requires Sound(g, mem0, next0, ps, book) && Brought(g, mem0, next0, mem, bulk, ds)
    ensures Undisturbed(g, mem0, mem, ps, book.stale.Keys, |ps|, {}, next0)
  {
    hide SlotOk, Owned;
    forall i | 0 <= i < |ps| && i !in book.stale
      ensures PendingOk(g, mem, ps[i]) && Placed(g.limit, mem0, ps[i]) && Placed(g.limit, mem, ps[i])
      ensures SlotIn(mem, ps[i]) == SlotIn(mem0, ps[i]) && (ps[i].desc.buf != NO_BUFFER ==> ps[i].desc.buf < next0)
    {
      assert PendingOk(g, mem0, ps[i]) && Placed(g.limit, mem0, ps[i]);
      assert ps[i].desc.buf != NO_BUFFER ==> ps[i].desc.buf in mem0;
    }
  }

  lemma ArrivedAt(g: Config, mem0: Memory, next0: int, mem: Memory, bulk: seq<Arrival>, ds: seq<Desc>, i: nat)
    requires Brought(g, mem0, next0, mem, bulk, ds) && i < |bulk| && BulkOk(g, bulk)
    ensures Inside(g.limit, mem, ds[i]) && ds[i].size > 0 && ds[i].buf == next0 + i
    ensures FragIn(mem, ds[i]) == Numbered(bulk, next0)[i]
  {
    assert ArrivalOk(g, bulk[i]);
  }

  /** The bulk of an event has been received. */
  ghost predicate Received(mem0: Memory, next0: int, ps: seq<PendingBuffer>, book: Book, start: Scene, e: Event) {
    && Sound(start.g, mem0, next0, ps, book) && e.c < |ps| && e.c !in book.stale
    && BulkOk(start.g, e.bulk) && Brought(start.g, mem0, next0, start.mem, e.bulk, start.ds)
    && start.p == ps[e.c] && start.next == next0 + |e.bulk| && forall b :: b in start.mem ==> b < start.next
  }

  /** The loop can start on a received bulk, and what it does is the walk on values. */
  lemma Arrived(mem0: Memory, next0: int, ps: seq<PendingBuffer>, book: Book, start: Scene, e: Event)
    requires Received(mem0, next0, ps, book, start, e)
    ensures var st := ViewOf(start.g, mem0, next0, ps, book);
      && Happens(start.g, st, e) && Going(start) && WalkIn(start, e.gone) == WalkOf(start.g, st, e)
      && FragsOf(start) == Numbered(e.bulk, next0)
    ensures forall i :: 0 <= i < |start.ds| ==> start.ds[i].buf == next0 + i
    ensures Undisturbed(start.g, mem0, start.mem, ps, book.stale.Keys, |ps|, {}, next0)
  {
    hide Brought, BulkOk, StationOk, Going, Undisturbed, Placed, SlotIn, PendingOk, Sound, ViewOf, WalkIn, WalkOf,
      Waiting, FragsOf, Buffers, Numbered, Bufs;
    var st := ViewOf(start.g, mem0, next0, ps, book);
    ViewNext(start.g, mem0, next0, ps, book);
    ArrivedQuietly(start.g, mem0, next0, ps, book, start.mem, e.bulk, start.ds);
    SlotArrives(mem0, next0, ps, book, start, e.c);
    CanStart(start.g, mem0, next0, start.mem, e.bulk, start.ds, start.p);
    GoingIs(start);
    FragsArrive(mem0, next0, e.bulk, start);
    WalksAlike(start, st, e);
  }

  lemma ViewNext(g: Config, mem: Memory, next: int, ps: seq<PendingBuffer>, book: Book)
    requires Sound(g, mem, next, ps, book)
    ensures ConfigOk(g) && NO_BUFFER < next && ViewOf(g, mem, next, ps, book).next == next
  {
    hide Apart, Owned, Frozen;
  }

  lemma WalksAlike(start: Scene, st: Station, e: Event)
    requires Happens(start.g, st, e) && Going(start) && start.next == st.next + |e.bulk|
    requires FragsOf(start) == Numbered(e.bulk, st.next) && SlotOf(start) == st.slots[e.c]
    ensures WalkIn(start, e.gone) == WalkOf(start.g, st, e)
  {
    hide Walk, StationOk, Going, FragsOf, SlotOf, BulkOk;
  }

  lemma SlotArrives(mem0: Memory, next0: int, ps: seq<PendingBuffer>, book: Book, start: Scene, c: nat)
    requires Undisturbed(start.g, mem0, start.mem, ps, book.stale.Keys, |ps|, {}, next0) && c < |ps| && c !in book.stale
    requires Sound(start.g, mem0, next0, ps, book) && start.p == ps[c]
    ensures PendingOk(start.g, start.mem, start.p) && Placed(start.g.limit, start.mem, start.p)
    ensures ViewOf(start.g, mem0, next0, ps, book).slots[c] == SlotIn(start.mem, start.p)
    ensures start.p.desc.buf != NO_BUFFER ==> start.p.desc.buf < next0
  {
    hide PendingOk, SlotIn, Owned, Apart, Frozen, StationOk;
    SoundMeans(start.g, mem0, next0, ps, book);
  }

  lemma CanStart(g: Config, mem0: Memory, next0: int, mem: Memory, bulk: seq<Arrival>, ds: seq<Desc>, p: PendingBuffer)
    requires Brought(g, mem0, next0, mem, bulk, ds) && BulkOk(g, bulk)
    requires (p.desc.buf != NO_BUFFER ==> p.desc.buf < next0) && NO_BUFFER < next0
    ensures Sized(g.limit, mem) && Waiting(g.limit, mem, p.desc.buf, ds)
    ensures forall i :: 0 <= i < |ds| ==> ds[i].buf == next0 + i
  {
    hide Brought, BulkOk;
    BroughtSize(g, mem0, next0, mem, bulk, ds);
    forall i: nat | i < |ds|
      ensures Inside(g.limit, mem, ds[i]) && ds[i].size > 0 && ds[i].buf == next0 + i
    {
      ArrivedAt(g, mem0, next0, mem, bulk, ds, i);
    }
  }

  lemma GoingIs(a: Scene)
    requires ConfigOk(a.g) && PendingOk(a.g, a.mem, a.p) && Waiting(a.g.limit, a.mem, a.p.desc.buf, a.ds)
    requires NO_BUFFER < a.next && forall b :: b in a.mem ==> b < a.next
    ensures Going(a)
  {}

  lemma FragsArrive(mem0: Memory, next0: int, bulk: seq<Arrival>, start: Scene)
    requires Going(start) && Brought(start.g, mem0, next0, start.mem, bulk, start.ds) && BulkOk(start.g, bulk)
    ensures FragsOf(start) == Numbered(bulk, next0)
  {
    hide Brought, BulkOk, SlotOk, Waiting;
    BroughtSize(start.g, mem0, next0, start.mem, bulk, start.ds);
    SceneOk(start);
    forall i: nat | i < |start.ds|
      ensures FragsOf(start)[i] == Numbered(bulk, next0)[i]
    {
      ArrivedAt(start.g, mem0, next0, start.mem, bulk, start.ds, i);
    }
  }

  lemma BroughtSize(g: Config, mem0: Memory, next0: int, mem: Memory, bulk: seq<Arrival>, ds: seq<Desc>)
    requires Brought(g, mem0, next0, mem, bulk, ds)
    ensures Sized(g.limit, mem) && |ds| == |bulk|
  {}

  /** What happens in one slot leaves the partial messages in the others alone. */
  lemma OtherSlotsStay(g: Config, mem0: Memory, next0: int, ps: seq<PendingBuffer>, book: Book, start: Scene, c: nat,
                   mem: Memory)
    requires Sound(g, mem0, next0, ps, book) && c < |ps| && c !in book.stale && start.p == ps[c]
    requires Undisturbed(g, mem0, start.mem, ps, book.stale.Keys, |ps|, {}, next0) && Sized(g.limit, mem)
    requires (forall k :: 0 <= k < |start.ds| ==> next0 <= start.ds[k].buf) && Framed(start.mem, mem, Mine(start))
    ensures Undisturbed(g, mem0, mem, ps, book.stale.Keys, c, Mine(start), next0)
  {
    hide SlotOk, Owned;
    forall i | 0 <= i < |ps| && i != c && i !in book.stale
      ensures PendingOk(g, mem, ps[i]) && Placed(g.limit, mem0, ps[i]) && Placed(g.limit, mem, ps[i])
      ensures SlotIn(mem, ps[i]) == SlotIn(mem0, ps[i])
      ensures ps[i].desc.buf != NO_BUFFER ==> ps[i].desc.buf !in Mine(start) && ps[i].desc.buf < next0
    {
      var b := ps[i].desc.buf;
      assert PendingOk(g, start.mem, ps[i]);
      if b != NO_BUFFER {
        assert b in start.mem && b != ps[c].desc.buf && b !in Buffers(start.ds);
      }
    }
  }

  /** The record after a bulk: after a reset the whole bulk is given back. */
  ghost function Booked(book: Book, fs: seq<Frag>, e: Event, w: Trace): Book {
    var sent := book.sent + w.sent;
    if w.end == Reset then
      Book(book.put + (w.put + Bufs(fs)), sent, book.lost, book.unread, book.stale[e.c := w.slot])
    else Book(book.put + w.put, sent, book.lost + w.lost, book.unread + Bufs(w.left), book.stale)
  }

  lemma StillApart(g: Config, mem0: Memory, mem: Memory, next0: int, ps: seq<PendingBuffer>, stale: set<nat>, c: nat,
                   p: PendingBuffer, mine: set<int>, closes: bool)
    requires Apart(g, mem0, ps, stale) && Sized(g.limit, mem) && c < |ps| && c !in stale
    requires Undisturbed(g, mem0, mem, ps, stale, c, mine, next0)
    requires !closes ==>
      PendingOk(g, mem, p) && (p.desc.buf != NO_BUFFER ==> p.desc.buf in mine || p.desc.buf >= next0)
    ensures Apart(g, mem, ps[c := p], if closes then stale + {c} else stale)
  {
    hide PendingOk;
    if !closes {
      PendingPlaced(g, mem, p);
    }
  }

  lemma PendingPlaced(g: Config, mem: Memory, p: PendingBuffer)
    requires PendingOk(g, mem, p)
    ensures Placed(g.limit, mem, p)
  {}

  predicate Placings(g: Config, mem: Memory, ps: seq<PendingBuffer>, stale: map<nat, Slot>) {
    Sized(g.limit, mem) && forall i :: 0 <= i < |ps| && i !in stale ==> Placed(g.limit, mem, ps[i])
  }

  lemma SlotsAfter(g: Config, mem0: Memory, mem: Memory, next0: int, ps: seq<PendingBuffer>, stale: map<nat, Slot>,
                   c: nat, p: PendingBuffer, mine: set<int>, closes: bool, slot: Slot)
    requires Apart(g, mem0, ps, stale.Keys) && Sized(g.limit, mem) && c < |ps| && c !in stale
    requires Undisturbed(g, mem0, mem, ps, stale.Keys, c, mine, next0)
    requires !closes ==> PendingOk(g, mem, p) && SlotIn(mem, p) == slot
    ensures var stale' := if closes then stale[c := slot] else stale;
      && Placings(g, mem0, ps, stale) && Placings(g, mem, ps[c := p], stale')
      && SlotsIn(g.limit, mem, ps[c := p], stale') == SlotsIn(g.limit, mem0, ps, stale)[c := slot]
  {
    hide PendingOk, SlotIn, Apart;
    SlotsPlaced(g, mem0, mem, next0, ps, stale, c, p, mine, closes, slot);
    var stale' := if closes then stale[c := slot] else stale;
    var now, was := SlotsIn(g.limit, mem, ps[c := p], stale'), SlotsIn(g.limit, mem0, ps, stale)[c := slot];
    forall i | 0 <= i < |ps|
      ensures now[i] == was[i]
    {
      if i != c && i !in stale {
        assert SlotIn(mem, ps[i]) == SlotIn(mem0, ps[i]);
      }
    }
  }

  lemma SlotsPlaced(g: Config, mem0: Memory, mem: Memory, next0: int, ps: seq<PendingBuffer>, stale: map<nat, Slot>,
                    c: nat, p: PendingBuffer, mine: set<int>, closes: bool, slot: Slot)
    requires Apart(g, mem0, ps, stale.Keys) && Sized(g.limit, mem) && c < |ps| && c !in stale
    requires Undisturbed(g, mem0, mem, ps, stale.Keys, c, mine, next0) && (!closes ==> PendingOk(g, mem, p))
    ensures Placings(g, mem0, ps, stale) && Placings(g, mem, ps[c := p], if closes then stale[c := slot] else stale)
  {
    hide PendingOk, SlotIn;
    if !closes {
      PendingPlaced(g, mem, p);
    }
  }

  /** The record of what was given back and sent stays exact. */
  lemma OwnedJoin(mem0: Memory, next0: int, start: Scene, keys: set<int>, next: int, put: seq<int>, sent: seq<Frag>,
                  given: seq<int>, more: seq<Frag>)
    requires Owned({}, 0, mem0.Keys, next0, put, Bufs(sent)) && next0 <= start.next
    requires forall b :: b in start.mem <==> b in mem0 || next0 <= b < start.next
    requires Owned(start.mem.Keys, start.next, keys, next, given, Bufs(more))
    ensures Owned({}, 0, keys, next, put + given, Bufs(sent + more))
  {
    assert Bufs(sent + more) == Bufs(sent) + Bufs(more);
  }

  lemma BroughtKeys(g: Config, mem0: Memory, next0: int, mem: Memory, bulk: seq<Arrival>, ds: seq<Desc>)
    requires Brought(g, mem0, next0, mem, bulk, ds) && BulkOk(g, bulk)
    ensures forall b :: b in mem <==> b in mem0 || next0 <= b < next0 + |bulk|
  {
    forall b | next0 <= b < next0 + |bulk|
      ensures b in mem
    {
      ArrivedAt(g, mem0, next0, mem, bulk, ds, b - next0);
    }
  }

  lemma EndedMeans(w: Trace, start: Scene, serve: Handler, replies: seq<Bytes>,
                   mem: Memory, next: int, p: PendingBuffer, again: set<int>)
    requires Going(start) && Ended(w, start, serve, replies, mem, next, p, again)
    ensures next == w.next && Answered(serve, w.sent, replies) && Framed(start.mem, mem, Mine(start))
    ensures Owned(start.mem.Keys, start.next, mem.Keys, next,
                  w.put + (if w.end == Reset then Bufs(FragsOf(start)) else []), Bufs(w.sent))
    ensures w.end in {Finished, Spins} ==>
      PendingOk(start.g, mem, p) && SlotIn(mem, p) == w.slot
      && (p.desc.buf != NO_BUFFER ==> p.desc.buf in Mine(start) || p.desc.buf >= start.next)
    ensures w.end == Reset ==> Points(p, w.slot)
  {
    hide Owned, Framed, Answered, PendingOk, Going;
  }

  lemma SoundMeans(g: Config, mem: Memory, next: int, ps: seq<PendingBuffer>, book: Book)
    requires Sound(g, mem, next, ps, book)
    ensures Sized(g.limit, mem) && Apart(g, mem, ps, book.stale.Keys) && Frozen(ps, book.stale)
    ensures Owned({}, 0, mem.Keys, next, book.put, Bufs(book.sent))
  {}

  /** The record and the slots after a bulk make the station after it. */
  lemma ViewServed(g: Config, mem0: Memory, next0: int, ps: seq<PendingBuffer>, book: Book, e: Event,
                   mem: Memory, next: int, ps': seq<PendingBuffer>, book': Book, w: Trace)
    requires Sound(g, mem0, next0, ps, book) && Sound(g, mem, next, ps', book')
    requires book' == Booked(book, Numbered(e.bulk, next0), e, w) && next == w.next
    requires Happens(g, ViewOf(g, mem0, next0, ps, book), e) && w == WalkOf(g, ViewOf(g, mem0, next0, ps, book), e)
    requires Placings(g, mem0, ps, book.stale) && Placings(g, mem, ps', book'.stale)
    requires SlotsIn(g.limit, mem, ps', book'.stale) == SlotsIn(g.limit, mem0, ps, book.stale)[e.c := w.slot]
    ensures Serve(g, ViewOf(g, mem0, next0, ps, book), e) == (w.end, ViewOf(g, mem, next, ps', book'))
  {
    hide Sound, StationOk, WalkOf, Bufs, EventOk, SlotsIn, Numbered;
    BookedIs(book, Numbered(e.bulk, next0), e, w);
  }

  /** After a bulk all is sound again, and only its own slot has changed. */
  lemma ServedSound(mem0: Memory, next0: int, ps: seq<PendingBuffer>, book: Book, start: Scene, e: Event, w: Trace,
                    serve: Handler, replies: seq<Bytes>, mem: Memory, next: int, p: PendingBuffer, again: set<int>)
    requires Received(mem0, next0, ps, book, start, e) && Sized(start.g.limit, mem) && forall b :: b in mem ==> b < next
    requires Going(start) && Ended(w, start, serve, replies, mem, next, p, again) && w.end in {Finished, Spins, Reset}
    ensures var book' := Booked(book, Numbered(e.bulk, next0), e, w);
      && Sound(start.g, mem, next, ps[e.c := p], book')
      && Placings(start.g, mem0, ps, book.stale) && Placings(start.g, mem, ps[e.c := p], book'.stale)
      && SlotsIn(start.g.limit, mem, ps[e.c := p], book'.stale)
         == SlotsIn(start.g.limit, mem0, ps, book.stale)[e.c := w.slot]
  {
    hide Owned, Brought, BulkOk, StationOk, Framed, Answered, Mine, Ended, Going, Apart, SlotIn, WalkIn, PendingOk,
      WalkOf, EventOk, Undisturbed, Buffers, Bufs, ViewOf, SlotsIn, Booked, Frozen, Placings, Points;
    var g, c, stale := start.g, e.c, book.stale;
    Arrived(mem0, next0, ps, book, start, e);
    EndedMeans(w, start, serve, replies, mem, next, p, again);
    OtherSlotsStay(g, mem0, next0, ps, book, start, c, mem);
    BroughtKeys(g, mem0, next0, start.mem, e.bulk, start.ds);
    SoundMeans(g, mem0, next0, ps, book);
    StillApart(g, mem0, mem, next0, ps, stale.Keys, c, p, Mine(start), w.end == Reset);
    SlotsAfter(g, mem0, mem, next0, ps, stale, c, p, Mine(start), w.end == Reset, w.slot);
    OwnedJoin(mem0, next0, start, mem.Keys, next, book.put, book.sent,
              w.put + (if w.end == Reset then Bufs(FragsOf(start)) else []), w.sent);
    BookedIs(book, Numbered(e.bulk, next0), e, w);
    StillFrozen(ps, stale, c, p, w.slot, w.end == Reset);
  }

  lemma BookedIs(book: Book, fs: seq<Frag>, e: Event, w: Trace)
    ensures var book' := Booked(book, fs, e, w); var resets := w.end == Reset;
      && book'.put == book.put + (w.put + if resets then Bufs(fs) else []) && book'.sent == book.sent + w.sent
      && book'.stale == (if resets then book.stale[e.c := w.slot] else book.stale)
      && book'.stale.Keys == (if resets then book.stale.Keys + {e.c} else book.stale.Keys)
  {
    assert w.put + [] == w.put;
  }

  lemma StillFrozen(ps: seq<PendingBuffer>, stale: map<nat, Slot>, c: nat, p: PendingBuffer, slot: Slot, closes: bool)
    requires Frozen(ps, stale) && c < |ps| && c !in stale && (closes ==> Points(p, slot))
    ensures Frozen(ps[c := p], if closes then stale[c := slot] else stale)
  {}

  /** One bulk in memory is one step of the life on values. */
  lemma Served(mem0: Memory, next0: int, ps: seq<PendingBuffer>, book: Book, start: Scene, e: Event, w: Trace,
               serve: Handler, replies: seq<Bytes>, mem: Memory, next: int, p: PendingBuffer, again: set<int>)
    requires Received(mem0, next0, ps, book, start, e) && Sized(start.g.limit, mem) && forall b :: b in mem ==> b < next
    requires Going(start) && w == WalkIn(start, e.gone) && Ended(w, start, serve, replies, mem, next, p, again)
    ensures Sound(start.g, mem0, next0, ps, book)
    ensures var st := ViewOf(start.g, mem0, next0, ps, book); var book' := Booked(book, Numbered(e.bulk, next0), e, w);
      && Happens(start.g, st, e) && w.end == Serve(start.g, st, e).0
      && Answered(serve, WalkOf(start.g, st, e).sent, replies)
      && (w.end in {Finished, Spins, Reset} ==>
            && Sound(start.g, mem, next, ps[e.c := p], book')
            && ViewOf(start.g, mem, next, ps[e.c := p], book') == Serve(start.g, st, e).1)
  {
    hide Owned, Brought, BulkOk, StationOk, Framed, Answered, Ended, Going, WalkIn, Happens, Booked, Placings, SlotsIn,
      WalkOf, Undisturbed, Buffers, Bufs, ViewOf, Serve, Sound;
    var g := start.g;
    Arrived(mem0, next0, ps, book, start, e);
    EndedMeans(w, start, serve, replies, mem, next, p, again);
    ServeEnds(g, ViewOf(g, mem0, next0, ps, book), e);
    if w.end in {Finished, Spins, Reset} {
      ServedSound(mem0, next0, ps, book, start, e, w, serve, replies, mem, next, p, again);
      ViewServed(g, mem0, next0, ps, book, e, mem, next, ps[e.c := p],
                 Booked(book, Numbered(e.bulk, next0), e, w), w);
    }
  }

  lemma ServeEnds(g: Config, st: Station, e: Event)
    requires Happens(g, st, e)
    ensures Serve(g, st, e).0 == WalkOf(g, st, e).end
  {
    hide WalkOf;
  }
}
