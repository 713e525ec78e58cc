/** The receive loops of an asynchronous service, on the bytes of one bulk: requests
    start coroutines, replies resume them. */
module AsyncService {
  import opened Basics
  import opened Messages
  import opened StreamTheory
  import opened Coroutines

  /** What a handler will do with a request, given its bytes. */
  type Planner = Bytes -> Plan

  function RequestOf(sock: nat, plan: Planner, m: Bytes): Request
    requires |m| >= HEADER
  {
    Request(Upstream(sock, Id(m)), plan(m))
  }

  function Requests(sock: nat, plan: Planner, ms: seq<Bytes>): (rs: seq<Request>)
    requires forall i :: 0 <= i < |ms| ==> |ms[i]| >= HEADER
    ensures |rs| == |ms|
  {
    seq(|ms|, i requires 0 <= i < |ms| => RequestOf(sock, plan, ms[i]))
  }

  lemma {:induction false} DrivenWhole(q: Pending, fs: seq<Bytes>, test: HeaderTest)
    requires Partial(q, test) && NonEmpty(fs)
    ensures AllWhole(Drive(q, fs, test).messages)
    decreases Total(fs)
  {
    hide Step, MessageSize, Whole;
    if fs != [] && !Stuck(q) && Step(q, fs[0], test).Stepped? {
      var s := Step(q, fs[0], test);
      DriveStep(q, fs, test);
      DrivenWhole(if s.ready then EMPTY else s.pending, Left(s.left, fs[1..]), test);
    }
  }

  // --------------------------------------------------------- upstream, by bytes

  /** How a bulk of requests ends: read to its end, or the process exits for lack of
      coroutines or on an unknown command, or the loop spins. */
  datatype Upward = Read(pool: Pool, effects: seq<Effect>, pending: Pending) | NoCoroutine | NoSuchCommand | Endless

  /** The loop of `handle_upstream_grpc`: every turn that has bytes to read first asks
      for a free coroutine. */
  function ReadUpstream(p: Pool, sock: nat, plan: Planner, q: Pending, fs: seq<Bytes>, test: HeaderTest): Upward
    requires PoolOk(p) && Partial(q, test) && NonEmpty(fs)
    decreases Total(fs)
  {
    if fs == [] then Read(p, [], q)
    else if p.available == [] then NoCoroutine
    else if Stuck(q) then Endless
    else
      match Step(q, fs[0], test)
      case UnknownCommand => NoSuchCommand
      case Stepped(q', left, ready) =>
        DriveStep(q, fs, test);
        if !ready then ReadUpstream(p, sock, plan, q', Left(left, fs[1..]), test)
        else
          var r := RequestOf(sock, plan, q'.bytes);
          StartOk(p, r.up, r.plan);
          Then(Start(p, r.up, r.plan).1,
               ReadUpstream(Start(p, r.up, r.plan).0, sock, plan, EMPTY, Left(left, fs[1..]), test))
  }

  function Then(e: Effect, u: Upward): Upward {
    if u.Read? then u.(effects := [e] + u.effects) else u
  }

  /** Whether bytes of the bulk follow its last message. */
  predicate Follows(o: StreamTheory.Outcome, fs: seq<Bytes>) {
    fs != [] && (o.Done? ==> o.pending.bytes != [])
  }

  /** What the run on the bytes and the pool together come to. */
  function Combined(o: StreamTheory.Outcome, b: Bulk): Upward {
    match b
    case OutOfCoroutines => NoCoroutine
    case Served(p, es) =>
      match o
      case Done(_, q) => Read(p, es, q)
      case Exited(_) => NoSuchCommand
      case Spinning(_) => Endless
  }

  lemma BytesRemain(q: Pending, fs: seq<Bytes>, test: HeaderTest)
    requires Partial(q, test) && NonEmpty(fs) && fs != [] && Drive(q, fs, test).messages == []
    ensures Follows(Drive(q, fs, test), fs)
  {
    hide Drive, Partial;
    DriveIsParse(q, fs, test);
    ParseConserves(q.bytes + Concat(fs));
    ConcatLength(fs);
    assert Concat([]) == [];
  }

  /** The pool's account of the messages that a run emits. */
  function Account(p: Pool, sock: nat, plan: Planner, o: StreamTheory.Outcome, follows: bool): Upward
    requires PoolOk(p) && forall i :: 0 <= i < |o.messages| ==> |o.messages[i]| >= HEADER
  {
    Combined(o, Receive(p, Requests(sock, plan, o.messages), follows))
  }

  /** One more message in front. */
  lemma AccountOne(p: Pool, sock: nat, plan: Planner, m: Bytes, o: StreamTheory.Outcome, follows: bool)
    requires PoolOk(p) && p.available != [] && Whole(m) && AllWhole(o.messages)
    ensures var r := RequestOf(sock, plan, m);
      && p.available[|p.available| - 1] < |p.slots| && PoolOk(Start(p, r.up, r.plan).0)
      && AllWhole(Prepend([m], o).messages)
      && Account(p, sock, plan, Prepend([m], o), follows)
         == Then(Start(p, r.up, r.plan).1, Account(Start(p, r.up, r.plan).0, sock, plan, o, follows))
  {
    hide PoolOk, Receive, Start, MessageSize;
    var r, rs := RequestOf(sock, plan, m), Requests(sock, plan, o.messages);
    assert Requests(sock, plan, [m] + o.messages) == [r] + rs;
    ReceiveOne(p, [r] + rs, follows);
    assert ([r] + rs)[1..] == rs;
  }

  /** Where nothing is left to read, only a lack of coroutines matters. */
  lemma AccountNone(p: Pool, sock: nat, plan: Planner, o: StreamTheory.Outcome, follows: bool)
    requires PoolOk(p) && o.messages == []
    ensures !follows || p.available != [] ==> Account(p, sock, plan, o, follows) == Combined(o, Served(p, []))
    ensures follows && p.available == [] ==> Account(p, sock, plan, o, follows) == NoCoroutine
  {}

  lemma AccountStops(p: Pool, sock: nat, plan: Planner, o: StreamTheory.Outcome, follows: bool)
    requires PoolOk(p) && AllWhole(o.messages) && o.messages != [] && p.available == []
    ensures Account(p, sock, plan, o, follows) == NoCoroutine
  {}

  /** The turns of the loop that do not go on. */
  lemma ReadStops(p: Pool, sock: nat, plan: Planner, q: Pending, fs: seq<Bytes>, test: HeaderTest)
    requires PoolOk(p) && Partial(q, test) && NonEmpty(fs) && AllWhole(Drive(q, fs, test).messages)
    requires fs == [] || p.available == [] || Stuck(q) || Step(q, fs[0], test).UnknownCommand?
    ensures var o := Drive(q, fs, test);
      ReadUpstream(p, sock, plan, q, fs, test) == Account(p, sock, plan, o, Follows(o, fs))
  {
    hide Step, MessageSize, PoolOk, Receive, Account;
    var o := Drive(q, fs, test);
    if o.messages == [] {
      if fs != [] {
        BytesRemain(q, fs, test);
      }
      AccountNone(p, sock, plan, o, Follows(o, fs));
    } else {
      AccountStops(p, sock, plan, o, Follows(o, fs));
    }
  }

  /** A turn after which the loop goes on. */
  lemma ReadGoesOn(p: Pool, sock: nat, plan: Planner, q: Pending, fs: seq<Bytes>, test: HeaderTest)
    requires PoolOk(p) && Partial(q, test) && NonEmpty(fs) && fs != [] && p.available != [] && !Stuck(q)
    requires Step(q, fs[0], test).Stepped?
    ensures var s := Step(q, fs[0], test); var rest := Left(s.left, fs[1..]);
      && Partial(if s.ready then EMPTY else s.pending, test) && NonEmpty(rest) && Total(rest) < Total(fs)
      && (!s.ready ==>
            ReadUpstream(p, sock, plan, q, fs, test) == ReadUpstream(p, sock, plan, s.pending, rest, test))
      && (s.ready ==>
            var r := RequestOf(sock, plan, s.pending.bytes);
            && Whole(s.pending.bytes)
            && p.available[|p.available| - 1] < |p.slots| && PoolOk(Start(p, r.up, r.plan).0)
            && ReadUpstream(p, sock, plan, q, fs, test)
               == Then(Start(p, r.up, r.plan).1, ReadUpstream(Start(p, r.up, r.plan).0, sock, plan, EMPTY, rest, test)))
  {
    hide Step, MessageSize, PoolOk, Start, Drive;
    DriveStep(q, fs, test);
    if Step(q, fs[0], test).ready {
      var r := RequestOf(sock, plan, Step(q, fs[0], test).pending.bytes);
      StartOk(p, r.up, r.plan);
    }
  }

  /** The loop on the bytes of a bulk is the pool's account of the requests that the
      reassembly finds in them. */
  lemma {:induction false} ReadsRequests(p: Pool, sock: nat, plan: Planner, q: Pending, fs: seq<Bytes>,
                                         test: HeaderTest)
    requires PoolOk(p) && Partial(q, test) && NonEmpty(fs)
    ensures AllWhole(Drive(q, fs, test).messages)
    ensures var o := Drive(q, fs, test);
      ReadUpstream(p, sock, plan, q, fs, test) == Account(p, sock, plan, o, Follows(o, fs))
    decreases Total(fs)
  {
    hide Step, MessageSize, PoolOk, Partial, Account, Start, Total, Left, NonEmpty, Stuck, Drive, ReadUpstream;
    DrivenWhole(q, fs, test);
    if fs == [] || p.available == [] || Stuck(q) || Step(q, fs[0], test).UnknownCommand? {
      ReadStops(p, sock, plan, q, fs, test);
    } else {
      var o, s := Drive(q, fs, test), Step(q, fs[0], test);
      var rest, q' := Left(s.left, fs[1..]), if s.ready then EMPTY else s.pending;
      ReadGoesOn(p, sock, plan, q, fs, test);
      DriveStep(q, fs, test);
      DrivenWhole(q', rest, test);
      var o' := Drive(q', rest, test);
      DriveNothing(q', test);
      if s.ready {
        var r := RequestOf(sock, plan, s.pending.bytes);
        ReadsRequests(Start(p, r.up, r.plan).0, sock, plan, q', rest, test);
        AccountOne(p, sock, plan, s.pending.bytes, o', Follows(o, fs));
      } else {
        assert [] + o'.messages == o'.messages;
        ReadsRequests(p, sock, plan, q', rest, test);
        if rest == [] {
          AccountNone(p, sock, plan, o', Follows(o', rest));
          AccountNone(p, sock, plan, o', Follows(o, fs));
        }
      }
    }
  }

  lemma DriveNothing(q: Pending, test: HeaderTest)
    requires Partial(q, test)
    ensures Drive(q, [], test) == Done([], q)
  {}

  // ------------------------------------------------------- downstream, by bytes

  /** A reply copied to the descriptor that coroutine `co` left. */
  datatype Given = Given(co: nat, message: Bytes)

  datatype Downward =
    | Delivered(pool: Pool, effects: seq<Effect>, given: seq<Given>, pending: Pending)
    | InvalidId | NobodyWaits | UnknownReply | Hangs

  /** The loop of `handle_downstream`. */
  function ReadDownstream(p: Pool, q: Pending, fs: seq<Bytes>, test: HeaderTest): Downward
    requires PoolOk(p) && Partial(q, test) && NonEmpty(fs)
    decreases Total(fs)
  {
    if fs == [] then Delivered(p, [], [], q)
    else if Stuck(q) then Hangs
    else
      match Step(q, fs[0], test)
      case UnknownCommand => UnknownReply
      case Stepped(q', left, ready) =>
        DriveStep(q, fs, test);
        if !ready then ReadDownstream(p, q', Left(left, fs[1..]), test)
        else
          var co := Id(q'.bytes);
          if co >= MAX_COROUTINES then InvalidId
          else if !p.slots[co].Waiting? then NobodyWaits
          else
            ResumeOk(p, co);
            WithReply(Resume(p, co).1, Given(co, q'.bytes),
                      ReadDownstream(Resume(p, co).0, EMPTY, Left(left, fs[1..]), test))
  }

  function WithReply(e: Effect, r: Given, d: Downward): Downward {
    if d.Delivered? then d.(effects := [e] + d.effects, given := [r] + d.given) else d
  }

  /** Resuming, for each reply in turn, the coroutine whose id it carries. */
  function ResumeAll(p: Pool, ms: seq<Bytes>, o: StreamTheory.Outcome): Downward
    requires PoolOk(p) && forall i :: 0 <= i < |ms| ==> |ms[i]| >= HEADER
    decreases ms
  {
    if ms == [] then
      match o
      case Done(_, q) => Delivered(p, [], [], q)
      case Exited(_) => UnknownReply
      case Spinning(_) => Hangs
    else
      var co := Id(ms[0]);
      if co >= MAX_COROUTINES then InvalidId
      else if !p.slots[co].Waiting? then NobodyWaits
      else
        ResumeOk(p, co);
        WithReply(Resume(p, co).1, Given(co, ms[0]), ResumeAll(Resume(p, co).0, ms[1..], o))
  }

  lemma {:induction false} ResumeAllEnds(p: Pool, ms: seq<Bytes>, a: Bytes, o: StreamTheory.Outcome)
    requires PoolOk(p) && forall i :: 0 <= i < |ms| ==> |ms[i]| >= HEADER
    ensures ResumeAll(p, ms, Prepend([a], o)) == ResumeAll(p, ms, o) == ResumeAll(p, ms, Prepend([], o))
    decreases ms
  {
    hide PoolOk, Resume;
    if ms != [] && Id(ms[0]) < MAX_COROUTINES {
      PoolSlots(p);
      if p.slots[Id(ms[0])].Waiting? {
        ResumeOk(p, Id(ms[0]));
        ResumeAllEnds(Resume(p, Id(ms[0])).0, ms[1..], a, o);
      }
    }
  }

  lemma PoolSlots(p: Pool)
    requires PoolOk(p)
    ensures |p.slots| == MAX_COROUTINES
  {}

  /** The loop on the bytes of a bulk resumes, in order, the coroutines that the
      replies found in them name, and gives each its reply. */
  lemma {:induction false} ReadsReplies(p: Pool, q: Pending, fs: seq<Bytes>, test: HeaderTest)
    requires PoolOk(p) && Partial(q, test) && NonEmpty(fs)
    ensures AllWhole(Drive(q, fs, test).messages)
    ensures var o := Drive(q, fs, test); ReadDownstream(p, q, fs, test) == ResumeAll(p, o.messages, o)
    decreases Total(fs)
  {
    hide Step, MessageSize, PoolOk, Partial, Resume, Total, Left, NonEmpty, Stuck;
    DrivenWhole(q, fs, test);
    if fs != [] && !Stuck(q) && Step(q, fs[0], test).Stepped? {
      var s := Step(q, fs[0], test);
      var rest, q' := Left(s.left, fs[1..]), if s.ready then EMPTY else s.pending;
      DriveStep(q, fs, test);
      DrivenWhole(q', rest, test);
      var o' := Drive(q', rest, test);
      if s.ready {
        var m := s.pending.bytes;
        var co := Id(m);
        PoolSlots(p);
        assert ([m] + o'.messages)[1..] == o'.messages;
        if co < MAX_COROUTINES && p.slots[co].Waiting? {
          ResumeOk(p, co);
          ReadsReplies(Resume(p, co).0, q', rest, test);
          ResumeAllEnds(Resume(p, co).0, o'.messages, m, o');
        }
      } else {
        assert [] + o'.messages == o'.messages;
        ReadsReplies(p, q', rest, test);
        ResumeAllEnds(p, o'.messages, [], o');
      }
    }
  }

  // ---------------------------------------------------- one message, by its bytes

  lemma WholeStep(m: Bytes, test: HeaderTest)
    requires Whole(m)
    ensures Partial(EMPTY, test) && !Stuck(EMPTY)
    ensures Step(EMPTY, m, test) == Stepped(Pending(true, m, |m|), [], true)
  {}

  /** A bulk of one whole reply whose first bytes are `c`, 0, 0, 0 resumes coroutine `c`
      and hands it that reply. */
  lemma OneReply(p: Pool, c: byte, m: Bytes, test: HeaderTest)
    requires PoolOk(p) && Whole(m) && m[..4] == [c, 0, 0, 0] && (c as nat) < MAX_COROUTINES
    requires |p.slots| == MAX_COROUTINES && p.slots[c as nat].Waiting?
    ensures Partial(EMPTY, test) && NonEmpty([m])
    ensures ReadDownstream(p, EMPTY, [m], test)
      == Delivered(Resume(p, c as nat).0, [Resume(p, c as nat).1], [Given(c as nat, m)], EMPTY)
  {
    hide PoolOk, Step, Resume, MessageSize, Stuck;
    WholeStep(m, test);
    assert m[0] == m[..4][0] && m[1] == m[..4][1] && m[2] == m[..4][2] && m[3] == m[..4][3];
    ResumeOk(p, c as nat);
    assert [m][1..] == [];
  }

  /** A bulk of one whole request whose first bytes are `b` starts the coroutine on top of
      the stack with it: what goes out is its plan's first call, or the reply to that very
      connection and id. */
  lemma OneRequest(p: Pool, sock: nat, plan: Planner, b: Bytes, m: Bytes, test: HeaderTest)
    requires PoolOk(p) && p.available != [] && Whole(m) && |b| == 4 && m[..4] == b
    ensures Partial(EMPTY, test) && NonEmpty([m]) && p.available[|p.available| - 1] < |p.slots|
    ensures var n := |p.available| - 1; var co := p.available[n];
      var up := Upstream(sock, b[0] as int + 256 * b[1] as int + 65536 * b[2] as int + 16777216 * b[3] as int);
      ReadUpstream(p, sock, plan, EMPTY, [m], test)
      == match plan(m)
         case Reply => Read(p, [Replies(up)], EMPTY)
         case Call(d, theirs, rest) =>
           Read(Pool(p.slots[co := Waiting(up, d, rest)], p.available[..n], p.disabled), [Calls(co, d, theirs)], EMPTY)
  {
    hide PoolOk, Step, MessageSize, Stuck, Start;
    WholeStep(m, test);
    assert m[0] == m[..4][0] && m[1] == m[..4][1] && m[2] == m[..4][2] && m[3] == m[..4][3];
    var r := RequestOf(sock, plan, m);
    StartOk(p, r.up, r.plan);
    if r.plan.Call? {
      StartLeaves(p, r.up, r.plan);
    }
    assert [m][1..] == [];
  }

  lemma StartLeaves(p: Pool, up: Upstream, plan: Plan)
    requires p.available != [] && p.available[|p.available| - 1] < |p.slots| && plan.Call?
    ensures var n := |p.available| - 1; var co := p.available[n];
      Start(p, up, plan).0 == Pool(p.slots[co := Waiting(up, plan.service, plan.rest)], p.available[..n], p.disabled)
  {}

  /** The replies of a bulk, one by one and in their order: each is handed to the coroutine
      it names, which goes on with its handler: with its next call, or its own reply. */
  lemma {:induction false} EachGetsItsReply(p: Pool, ms: seq<Bytes>, o: StreamTheory.Outcome, k: nat)
    requires PoolOk(p) && forall i :: 0 <= i < |ms| ==> |ms[i]| >= HEADER
    requires ResumeAll(p, ms, o).Delivered? && k < |ms| && forall j :: 0 <= j < k ==> Id(ms[j]) != Id(ms[k])
    ensures var d, co := ResumeAll(p, ms, o), Id(ms[k]);
      && |d.given| == |d.effects| == |ms| && d.given[k] == Given(co, ms[k])
      && co < MAX_COROUTINES == |p.slots| && p.slots[co].Waiting?
      && d.effects[k] == match p.slots[co].rest
                         case Reply => Replies(p.slots[co].up)
                         case Call(service, theirs, _) => Calls(co, service, theirs)
    decreases ms
  {
    hide PoolOk, Id, Resume;
    PoolSlots(p);
    var co := Id(ms[0]);
    ResumeOk(p, co);
    ResumeMoves(p, co);
    var q := Resume(p, co).0;
    if k > 0 {
      EachGetsItsReply(q, ms[1..], o, k - 1);
    } else if |ms| > 1 {
      AllGiven(q, ms[1..], o);
    }
  }

  lemma ResumeMoves(p: Pool, co: nat)
    requires co < |p.slots| && p.slots[co].Waiting?
    ensures var (q, e) := Resume(p, co);
      && |q.slots| == |p.slots| && (forall c :: 0 <= c < |p.slots| && c != co ==> q.slots[c] == p.slots[c])
      && e == match p.slots[co].rest
              case Reply => Replies(p.slots[co].up)
              case Call(service, theirs, _) => Calls(co, service, theirs)
  {}

  lemma {:induction false} AllGiven(p: Pool, ms: seq<Bytes>, o: StreamTheory.Outcome)
    requires PoolOk(p) && forall i :: 0 <= i < |ms| ==> |ms[i]| >= HEADER
    requires ResumeAll(p, ms, o).Delivered?
    ensures |ResumeAll(p, ms, o).given| == |ResumeAll(p, ms, o).effects| == |ms|
    decreases ms
  {
    hide PoolOk, Id, Resume;
    if ms != [] {
      PoolSlots(p);
      ResumeOk(p, Id(ms[0]));
      AllGiven(Resume(p, Id(ms[0])).0, ms[1..], o);
    }
  }

  // ---------------------------------------------------------------- in place

  datatype Reception = Taken | Refused | Closed | ExitOutOfCoroutines | ExitBadId | ExitUnknown | Spins | Misdelivered

  /** The globals of `service_async.h`, updated in place. `sent` logs what went out:
      requests to other services and replies to upstream connections; `given` logs the
      replies handed to the coroutines. */
  class Runtime {
    var available: array<nat>
    var nAvailable: nat
    var disableUpstream: bool
    var coroutines: array<Slot>
    var sent: seq<Effect>
    var given: seq<Given>

    ghost predicate Shaped()
      reads this, available, coroutines
    {
      available.Length == MAX_COROUTINES && coroutines.Length == MAX_COROUTINES && nAvailable <= MAX_COROUTINES
    }

    ghost function View(): Pool
      requires Shaped()
      reads this, available, coroutines
    {
      Pool(coroutines[..], available[..nAvailable], disableUpstream)
    }

    ghost predicate Valid()
      reads this, available, coroutines
    {
      Shaped() && PoolOk(View())
    }

    constructor ()
      ensures Valid() && View() == NewPool() && sent == [] && given == []
      ensures fresh(available) && fresh(coroutines)
    {
      available := new nat[MAX_COROUTINES];
      coroutines := new Slot[MAX_COROUTINES](_ => Free);
      nAvailable, disableUpstream, sent, given := 0, false, [], [];
      new;
      for i := 0 to MAX_COROUTINES
        invariant fresh(available) && fresh(coroutines) && Shaped() && sent == [] && given == [] && !disableUpstream
        invariant forall j :: 0 <= j < i ==> available[j] == j
        invariant forall j :: 0 <= j < MAX_COROUTINES ==> coroutines[j] == Free
      {
        available[i] := i;
      }
      nAvailable := MAX_COROUTINES;
      NewPoolOk();
      assert coroutines[..] == NewPool().slots && available[..nAvailable] == NewPool().available;
    }

    /** The coroutine runs until it yields: `do_rpc` records what it waits for; at
        the end of the handler the reply goes out and the coroutine is free again. */
    method RunCoroutine(co: nat, up: Upstream, plan: Plan)
      requires Shaped() && co < MAX_COROUTINES && (plan.Reply? ==> nAvailable < MAX_COROUTINES)
      modifies this`nAvailable, this`disableUpstream, this`sent, available, coroutines
      ensures Shaped() && View() == Continue(old(View()), co, up, plan).0
      ensures sent == old(sent) + [Continue(old(View()), co, up, plan).1]
      ensures match plan
        case Call(d, theirs, rest) =>
          && sent == old(sent) + [Calls(co, d, theirs)] && nAvailable == old(nAvailable)
          && coroutines[..] == old(coroutines[..])[co := Waiting(up, d, rest)]
        case Reply =>
          && sent == old(sent) + [Replies(up)] && coroutines[..] == old(coroutines[..])[co := Free]
          && available[..nAvailable] == old(available[..nAvailable]) + [co]
          && disableUpstream == (old(nAvailable) > 0 && old(disableUpstream))
    {
      if plan.Call? {
        sent := sent + [Calls(co, plan.service, plan.theirs)];
        coroutines[co] := Waiting(up, plan.service, plan.rest);
      } else {
        sent := sent + [Replies(up)];
        coroutines[co] := Free;
        if nAvailable == 0 {
          disableUpstream := false;
        }
        available[nAvailable] := co;
        nAvailable := nAvailable + 1;
      }
    }

    /** Gives the request to the coroutine on top of the free stack and runs it. */
    method AcceptRequest(r: Request)
      requires Valid() && nAvailable > 0
      modifies this`nAvailable, this`disableUpstream, this`sent, available, coroutines
      ensures Valid() && old(View()).available != []
      ensures old(View()).available[old(nAvailable) - 1] < MAX_COROUTINES
      ensures View() == Start(old(View()), r.up, r.plan).0
      ensures sent == old(sent) + [Start(old(View()), r.up, r.plan).1]
    {
      hide PoolOk;
      ghost var p := View();
      StartOk(p, r.up, r.plan);
      var co := available[nAvailable - 1];
      nAvailable := nAvailable - 1;
      assert View() == p.(available := p.available[..|p.available| - 1]);
      RunCoroutine(co, r.up, r.plan);
    }

    /** `handle_upstream_grpc` on one bulk from connection `sock`, whose partial message
        is `pending`; no bulk if the peer has closed the connection. */
    method HandleUpstream(sock: nat, plan: Planner, pending: Pending, bulk: Option<seq<Bytes>>, test: HeaderTest)
      returns (rc: Reception, pending': Pending)
      requires Valid() && Partial(pending, test) && (bulk.Some? ==> NonEmpty(bulk.value))
      modifies this`nAvailable, this`disableUpstream, this`sent, available, coroutines
      ensures rc == Refused <==> old(View()).available == []
      ensures rc == Closed <==> old(View()).available != [] && bulk == None
      ensures rc in {Refused, Closed} ==> Valid() && sent == old(sent) && pending' == pending
      ensures rc == Refused ==> View() == Refuse(old(View()))
      ensures rc == Closed ==> View() == old(View())
      ensures rc !in {Refused, Closed} ==>
        match ReadUpstream(old(View()), sock, plan, pending, bulk.value, test)
        case Read(p, es, q) => rc == Taken && Valid() && View() == p && sent == old(sent) + es && pending' == q
        case NoCoroutine => rc == ExitOutOfCoroutines
        case NoSuchCommand => rc == ExitUnknown
        case Endless => rc == Spins
    {
      hide PoolOk, Start, Step, Stuck, Partial, MessageSize, Drive, ReadUpstream, Whole, NonEmpty, Total, WithEffects;
      pending' := pending;
      if nAvailable == 0 {
        disableUpstream := true;
        RefuseOk(old(View()));
        return Refused, pending';
      }
      if bulk.None? {
        return Closed, pending';
      }
      var fs := bulk.value;
      ghost var p0, sent0 := View(), sent;
      NoEffects(ReadUpstream(p0, sock, plan, pending, fs, test));
      assert sent[|sent0|..] == [];
      while fs != []
        invariant Valid() && Partial(pending', test) && NonEmpty(fs) && sent0 <= sent
        invariant ReadUpstream(p0, sock, plan, pending, bulk.value, test)
          == WithEffects(sent[|sent0|..], ReadUpstream(View(), sock, plan, pending', fs, test))
        decreases Total(fs)
      {
        ghost var p, q, was := View(), pending', sent;
        ReadUnfolds(p, sock, plan, q, fs, test);
        EffectsEnd(sent[|sent0|..]);
        if nAvailable == 0 {
          return ExitOutOfCoroutines, pending';
        }
        if Stuck(pending') {
          return Spins, pending';
        }
        FirstFragment(fs);
        var s := Step(pending', fs[0], test);
        if s.UnknownCommand? {
          return ExitUnknown, pending';
        }
        ReadGoesOn(p, sock, plan, q, fs, test);
        fs := Left(s.left, fs[1..]);
        pending' := s.pending;
        if s.ready {
          WholeHeader(pending'.bytes);
          AcceptRequest(RequestOf(sock, plan, pending'.bytes));
          LogMore(sent0, was, sent[|sent| - 1]);
          OneMore(was[|sent0|..], sent[|sent| - 1], ReadUpstream(View(), sock, plan, EMPTY, fs, test));
          pending' := EMPTY;
        }
      }
      ReadUnfolds(View(), sock, plan, pending', [], test);
      EffectsLast(sent[|sent0|..], View(), pending');
      LogSplits(sent0, sent);
      return Taken, pending';
    }

    /** `handle_downstream` on one bulk from a service this one depends on. `Misdelivered`
        tells of a reply to a coroutine that waits for none; nothing is claimed then. */
    method HandleDownstream(pending: Pending, frags: seq<Bytes>, test: HeaderTest)
      returns (rc: Reception, pending': Pending)
      requires Valid() && Partial(pending, test) && NonEmpty(frags)
      modifies this`nAvailable, this`disableUpstream, this`sent, this`given, available, coroutines
      ensures
        match ReadDownstream(old(View()), pending, frags, test)
        case Delivered(p, es, rs, q) =>
          rc == Taken && Valid() && View() == p && sent == old(sent) + es && given == old(given) + rs && pending' == q
        case InvalidId => rc == ExitBadId
        case NobodyWaits => rc == Misdelivered
        case UnknownReply => rc == ExitUnknown
        case Hangs => rc == Spins
    {
      hide PoolOk, Resume, Step, Stuck, Partial, MessageSize, Drive, ReadDownstream, Whole, NonEmpty, Total, Id,
        AfterReplies;
      pending' := pending;
      var fs := frags;
      ghost var p0, sent0, given0 := View(), sent, given;
      AfterNone(ReadDownstream(p0, pending, frags, test));
      assert sent[|sent0|..] == [] && given[|given0|..] == [];
      while fs != []
        invariant Valid() && Partial(pending', test) && NonEmpty(fs) && sent0 <= sent && given0 <= given
        invariant ReadDownstream(p0, pending, frags, test)
          == AfterReplies(sent[|sent0|..], given[|given0|..], ReadDownstream(View(), pending', fs, test))
        decreases Total(fs)
      {
        ghost var p, q, was, had := View(), pending', sent, given;
        DownUnfolds(p, q, fs, test);
        AfterEnds(sent[|sent0|..], given[|given0|..]);
        if Stuck(pending') {
          return Spins, pending';
        }
        FirstFragment(fs);
        var s := Step(pending', fs[0], test);
        if s.UnknownCommand? {
          return ExitUnknown, pending';
        }
        fs := Left(s.left, fs[1..]);
        pending' := s.pending;
        if s.ready {
          var co := Id(pending'.bytes);
          if co >= MAX_COROUTINES {
            return ExitBadId, pending';
          }
          if !coroutines[co].Waiting? {
            return Misdelivered, pending';
          }
          PoolSlots(p);
          ResumeOk(p, co);
          SomeSuspended(p, co);
          given := given + [Given(co, pending'.bytes)];
          var slot := coroutines[co];
          RunCoroutine(co, slot.up, slot.rest);
          ResumeIs(p, co);
          LogMore(sent0, was, sent[|sent| - 1]);
          LogMore(given0, had, Given(co, pending'.bytes));
          AfterReply(was[|sent0|..], had[|given0|..], sent[|sent| - 1], Given(co, pending'.bytes),
                     ReadDownstream(View(), EMPTY, fs, test));
          pending' := EMPTY;
        }
      }
      DownUnfolds(View(), pending', [], test);
      AfterLast(sent[|sent0|..], given[|given0|..], View(), pending');
      LogSplits(sent0, sent);
      LogSplits(given0, given);
      return Taken, pending';
    }
  }

  lemma LogMore<T>(s0: seq<T>, s: seq<T>, x: T)
    requires s0 <= s
    ensures s0 <= s + [x] && (s + [x])[|s0|..] == s[|s0|..] + [x]
  {}

  lemma LogSplits<T>(s0: seq<T>, s: seq<T>)
    requires s0 <= s
    ensures s == s0 + s[|s0|..]
  {}

  function WithEffects(es: seq<Effect>, u: Upward): Upward {
    if u.Read? then u.(effects := es + u.effects) else u
  }

  lemma NoEffects(u: Upward)
    ensures WithEffects([], u) == u
  {
    assert u.Read? ==> [] + u.effects == u.effects;
  }

  lemma EffectsEnd(es: seq<Effect>)
    ensures WithEffects(es, NoCoroutine) == NoCoroutine && WithEffects(es, NoSuchCommand) == NoSuchCommand
    ensures WithEffects(es, Endless) == Endless
  {}

  lemma EffectsLast(es: seq<Effect>, p: Pool, q: Pending)
    ensures WithEffects(es, Read(p, [], q)) == Read(p, es, q)
  {
    assert es + [] == es;
  }

  lemma OneMore(es: seq<Effect>, e: Effect, u: Upward)
    ensures WithEffects(es, Then(e, u)) == WithEffects(es + [e], u)
  {
    assert u.Read? ==> es + ([e] + u.effects) == es + [e] + u.effects;
  }

  lemma FirstFragment(fs: seq<Bytes>)
    requires NonEmpty(fs) && fs != []
    ensures fs[0] != []
  {}

  lemma ReadUnfolds(p: Pool, sock: nat, plan: Planner, q: Pending, fs: seq<Bytes>, test: HeaderTest)
    requires PoolOk(p) && Partial(q, test) && NonEmpty(fs)
    ensures fs == [] ==> ReadUpstream(p, sock, plan, q, fs, test) == Read(p, [], q)
    ensures fs != [] && p.available == [] ==> ReadUpstream(p, sock, plan, q, fs, test) == NoCoroutine
    ensures fs != [] && p.available != [] && Stuck(q) ==> ReadUpstream(p, sock, plan, q, fs, test) == Endless
    ensures fs != [] && p.available != [] && !Stuck(q) && Step(q, fs[0], test).UnknownCommand? ==>
      ReadUpstream(p, sock, plan, q, fs, test) == NoSuchCommand
  {
    hide Step;
  }

  function AfterReplies(es: seq<Effect>, rs: seq<Given>, d: Downward): Downward {
    if d.Delivered? then d.(effects := es + d.effects, given := rs + d.given) else d
  }

  lemma AfterNone(d: Downward)
    ensures AfterReplies([], [], d) == d
  {
    assert d.Delivered? ==> [] + d.effects == d.effects && [] + d.given == d.given;
  }

  lemma AfterEnds(es: seq<Effect>, rs: seq<Given>)
    ensures AfterReplies(es, rs, InvalidId) == InvalidId && AfterReplies(es, rs, UnknownReply) == UnknownReply
    ensures AfterReplies(es, rs, Hangs) == Hangs && AfterReplies(es, rs, NobodyWaits) == NobodyWaits
  {}

  lemma AfterLast(es: seq<Effect>, rs: seq<Given>, p: Pool, q: Pending)
    ensures AfterReplies(es, rs, Delivered(p, [], [], q)) == Delivered(p, es, rs, q)
  {
    assert es + [] == es && rs + [] == rs;
  }

  lemma AfterReply(es: seq<Effect>, rs: seq<Given>, e: Effect, r: Given, d: Downward)
    ensures AfterReplies(es, rs, WithReply(e, r, d)) == AfterReplies(es + [e], rs + [r], d)
  {
    if d.Delivered? {
      assert es + ([e] + d.effects) == es + [e] + d.effects && rs + ([r] + d.given) == rs + [r] + d.given;
    }
  }

  lemma ResumeIs(p: Pool, co: nat)
    requires co < |p.slots| && p.slots[co].Waiting?
    ensures Resume(p, co) == Continue(p, co, p.slots[co].up, p.slots[co].rest)
  {}

  lemma DownUnfolds(p: Pool, q: Pending, fs: seq<Bytes>, test: HeaderTest)
    requires PoolOk(p) && Partial(q, test) && NonEmpty(fs)
    ensures fs == [] ==> ReadDownstream(p, q, fs, test) == Delivered(p, [], [], q)
    ensures fs != [] && Stuck(q) ==> ReadDownstream(p, q, fs, test) == Hangs
    ensures fs != [] && !Stuck(q) && Step(q, fs[0], test).UnknownCommand? ==>
      ReadDownstream(p, q, fs, test) == UnknownReply
    ensures fs != [] && !Stuck(q) && Step(q, fs[0], test).Stepped? ==>
      var s := Step(q, fs[0], test); var rest := Left(s.left, fs[1..]);
      && Partial(if s.ready then EMPTY else s.pending, test) && NonEmpty(rest) && Total(rest) < Total(fs)
      && (!s.ready ==> ReadDownstream(p, q, fs, test) == ReadDownstream(p, s.pending, rest, test))
      && (s.ready ==>
            var m := s.pending.bytes;
            && |m| >= HEADER && (Id(m) >= MAX_COROUTINES ==> ReadDownstream(p, q, fs, test) == InvalidId)
            && (Id(m) < MAX_COROUTINES ==>
                  var co := Id(m);
                  && |p.slots| == MAX_COROUTINES
                  && (!p.slots[co].Waiting? ==> ReadDownstream(p, q, fs, test) == NobodyWaits)
                  && (p.slots[co].Waiting? ==>
                        && PoolOk(Resume(p, co).0)
                        && ReadDownstream(p, q, fs, test)
                           == WithReply(Resume(p, co).1, Given(co, m),
                                        ReadDownstream(Resume(p, co).0, EMPTY, rest, test)))))
  {
    hide Step, Resume, MessageSize, Drive;
    if fs != [] && !Stuck(q) && Step(q, fs[0], test).Stepped? {
      DriveStep(q, fs, test);
      var s := Step(q, fs[0], test);
      if s.ready && Id(s.pending.bytes) < MAX_COROUTINES && p.slots[Id(s.pending.bytes)].Waiting? {
        ResumeOk(p, Id(s.pending.bytes));
      }
    }
  }
}
