/** Replies on their way to a service, and the coroutines they resume: every reply that a
    service reads names a coroutine that waits for it. */
module Deliveries {
  import opened Basics
  import opened Sums
  import opened Messages
  import opened StreamTheory
  import opened Coroutines
  import opened AsyncService
  import opened ServiceSystem
  import opened SystemRuns
  import SyncService

  /** The ids of the messages on the channel of `c`, oldest first. */
  function IdsOn(net: seq<Msg>, c: Msg): seq<nat> {
    if net == [] then [] else (if SameChannel(net[0], c) then [net[0].id] else []) + IdsOn(net[1..], c)
  }

  function OwnId(m: Msg, c: Msg): seq<nat> { if SameChannel(m, c) then [m.id] else [] }

  lemma IdsAhead(m: Msg, net: seq<Msg>, c: Msg)
    ensures IdsOn([m] + net, c) == OwnId(m, c) + IdsOn(net, c)
  {
    hide SameChannel;
    assert ([m] + net)[1..] == net;
  }

  lemma Associate<T>(a: seq<T>, b: seq<T>, c: seq<T>)
    ensures a + (b + c) == a + b + c
  {}

  lemma HeadFirst<T>(a: seq<T>, b: seq<T>)
    requires a != []
    ensures [a[0]] + a[1..] == a && [a[0]] + (a[1..] + b) == a + b
  {}

  lemma NoIds(net: seq<Msg>, c: Msg)
    ensures [] + net == net && IdsOn([], c) == [] && [] + IdsOn(net, c) == IdsOn(net, c)
  {}

  lemma {:induction false} IdsJoin(a: seq<Msg>, b: seq<Msg>, c: Msg)
    ensures IdsOn(a + b, c) == IdsOn(a, c) + IdsOn(b, c)
  {
    hide IdsOn, OwnId;
    if a == [] {
      NoIds(b, c);
    } else {
      IdsJoin(a[1..], b, c);
      IdsAhead(a[0], a[1..], c);
      IdsAhead(a[0], a[1..] + b, c);
      Associate(OwnId(a[0], c), IdsOn(a[1..], c), IdsOn(b, c));
      HeadFirst(a, b);
    }
  }

  lemma {:induction false} IdsNone(net: seq<Msg>, c: Msg)
    requires forall i :: 0 <= i < |net| ==> !SameChannel(net[i], c)
    ensures IdsOn(net, c) == []
  {
    if net != [] {
      IdsNone(net[1..], c);
    }
  }

  lemma IdsOne(m: Msg, c: Msg)
    ensures IdsOn([m], c) == if SameChannel(m, c) then [m.id] else []
  {
    assert [m][1..] == [];
  }

  lemma {:induction false} IdsCount(net: seq<Msg>, c: Msg)
    ensures |IdsOn(net, c)| == Sum(OnChannel(c), net)
  {
    if net != [] {
      IdsCount(net[1..], c);
    }
  }

  /** Reading the oldest message of a channel, and sending one on another, takes the first
      id off. */
  lemma IdsTaken(net: seq<Msg>, i: nat, c: Msg, out: Msg)
    requires i < |net| && SameChannel(net[i], c) && Oldest(net, i) && !SameChannel(out, c)
    ensures IdsOn(net, c) == [net[i].id] + IdsOn(Without(net, i) + [out], c)
  {
    hide IdsOn;
    assert net == net[..i] + ([net[i]] + net[i + 1..]);
    IdsJoin(net[..i], [net[i]] + net[i + 1..], c);
    IdsJoin([net[i]], net[i + 1..], c);
    IdsNone(net[..i], c);
    IdsOne(net[i], c);
    IdsJoin(net[..i] + net[i + 1..], [out], c);
    IdsJoin(net[..i], net[i + 1..], c);
    IdsOne(out, c);
  }

  /** The oldest reply on a channel is awaited by the coroutine whose id it carries, and
      resuming that one takes it off its channel. */
  lemma FirstReply(st: State, c: Msg)
    requires Inv(st) && c.Rep? && c.to < NUM_SERVICES && IdsOn(st.net, c) != []
    ensures Sum(OnChannel(c), st.net) > 0
    ensures var i := FirstOn(st.net, c); var id := IdsOn(st.net, c)[0]; var p := st.pools[c.to];
      && Enabled(st, i) && Inv(Handle(st, i)) && id < MAX_COROUTINES == |p.slots| && p.slots[id].Waiting?
      && Handle(st, i).pools[c.to] == Resume(p, id).0 && IdsOn(Handle(st, i).net, c) == IdsOn(st.net, c)[1..]
  {
    hide PlanOk, Sum, PoolOk, Conserved, ClientsOk, Resume, IdsOn, PlansOk;
    IdsCount(st.net, c);
    var i := FirstOn(st.net, c);
    var m := st.net[i];
    AwaitedHere(st, i);
    HandleKeeps(st, i);
    var out := Emitted(m.to, Resume(st.pools[m.to], m.id).1);
    IdsTaken(st.net, i, c, out);
    assert IdsOn(st.net, c)[1..] == IdsOn(Handle(st, i).net, c);
  }

  lemma AwaitedHere(st: State, i: nat)
    requires Inv(st) && i < |st.net| && st.net[i].Rep? && st.net[i].to < NUM_SERVICES && Oldest(st.net, i)
    ensures var m := st.net[i]; var p := st.pools[m.to];
      m.id < MAX_COROUTINES == |p.slots| && p.slots[m.id].Waiting? && Enabled(st, i) && m.from < m.to
  {
    hide PlanOk, PoolOk, Conserved, Oldest;
    var m := st.net[i];
    MessageIsAwaited(st, i);
    PoolShape(st.pools[m.to]);
    assert SlotOk(m.to, st.pools[m.to].slots[m.id]);
    DependenciesGoDown(m.to, m.from);
  }

  /** The state after service `c.to` has taken the first `k` replies on channel `c`. */
  ghost function Delivering(st: State, c: Msg, k: nat): (r: State)
    requires Inv(st) && c.Rep? && c.to < NUM_SERVICES && k <= |IdsOn(st.net, c)|
    ensures Inv(r)
    decreases k
  {
    if k == 0 then st else
      FirstReply(st, c);
      Delivering(Handle(st, FirstOn(st.net, c)), c, k - 1)
  }

  /** The replies `ms` carry the ids next in transit on channel `c`. */
  ghost predicate AreNext(net: seq<Msg>, c: Msg, ms: seq<Bytes>) {
    && |ms| <= |IdsOn(net, c)|
    && forall i :: 0 <= i < |ms| ==> |ms[i]| >= HEADER && Id(ms[i]) == IdsOn(net, c)[i]
  }

  function Givens(ms: seq<Bytes>): (r: seq<Given>)
    requires forall i :: 0 <= i < |ms| ==> |ms[i]| >= HEADER
    ensures |r| == |ms|
  {
    seq(|ms|, i requires 0 <= i < |ms| => Given(Id(ms[i]), ms[i]))
  }

  /** Each of the replies `o.messages` is handed to the coroutine it names, and the pool is
      `p` in the end, unless the process exits or the loop hangs on what follows them. */
  ghost predicate Resumes(d: Downward, o: StreamTheory.Outcome, p: Pool)
    requires forall i :: 0 <= i < |o.messages| ==> |o.messages[i]| >= HEADER
  {
    match o
    case Done(ms, q) => d.Delivered? && d.pool == p && d.pending == q && d.given == Givens(ms)
    case Exited(_) => d == UnknownReply
    case Spinning(_) => d == Hangs
  }

  lemma ResumesMore(d: Downward, m: Bytes, o: StreamTheory.Outcome, p: Pool, e: Effect)
    requires (forall i :: 0 <= i < |o.messages| ==> |o.messages[i]| >= HEADER) && |m| >= HEADER && Resumes(d, o, p)
    ensures forall i :: 0 <= i < |Prepend([m], o).messages| ==> |Prepend([m], o).messages[i]| >= HEADER
    ensures Resumes(WithReply(e, Given(Id(m), m), d), Prepend([m], o), p)
  {
    assert Givens([m] + o.messages) == [Given(Id(m), m)] + Givens(o.messages);
  }

  /** The next of such replies is awaited, and the others are next once it is handled. */
  lemma NextReply(st: State, c: Msg, ms: seq<Bytes>)
    requires Inv(st) && c.Rep? && c.to < |st.pools| == NUM_SERVICES && PoolOk(st.pools[c.to])
    requires AreNext(st.net, c, ms) && ms != []
    ensures Sum(OnChannel(c), st.net) > 0 && |ms[0]| >= HEADER
    ensures var i := FirstOn(st.net, c); var co := Id(ms[0]); var p := st.pools[c.to];
      && PoolsOk(st.pools) && Enabled(st, i) && co < MAX_COROUTINES == |p.slots| && p.slots[co].Waiting?
      && var st' := Handle(st, i);
         && Inv(st') && |st'.pools| == NUM_SERVICES && PoolOk(st'.pools[c.to])
         && st'.pools[c.to] == Resume(p, co).0 && AreNext(st'.net, c, ms[1..])
         && Delivering(st, c, |ms|) == Delivering(st', c, |ms| - 1)
  {
    hide Inv, PoolOk, Resume, IdsOn, Handle, Enabled, Sum, Id, Oldest, FirstOn;
    FirstReply(st, c);
    InvPools(st);
    InvPools(Handle(st, FirstOn(st.net, c)));
  }

  lemma Longer(st: State, c: Msg, ms: seq<Bytes>)
    requires Inv(st) && AreNext(st.net, c, ms)
    ensures |ms| <= |IdsOn(st.net, c)| && forall i :: 0 <= i < |ms| ==> |ms[i]| >= HEADER
  {}

  lemma ResumeFirst(p: Pool, ms: seq<Bytes>, o: StreamTheory.Outcome)
    requires PoolOk(p) && ms != [] && forall i :: 0 <= i < |ms| ==> |ms[i]| >= HEADER
    requires Id(ms[0]) < |p.slots| == MAX_COROUTINES && p.slots[Id(ms[0])].Waiting?
    ensures PoolOk(Resume(p, Id(ms[0])).0)
    ensures ResumeAll(p, ms, o)
      == WithReply(Resume(p, Id(ms[0])).1, Given(Id(ms[0]), ms[0]), ResumeAll(Resume(p, Id(ms[0])).0, ms[1..], o))
  {
    hide PoolOk, Resume, Id;
    ResumeOk(p, Id(ms[0]));
  }

  /** Such replies resume, one by one, coroutines that wait for them. */
  lemma {:induction false} RepliesResume(st: State, c: Msg, o: StreamTheory.Outcome)
    requires Inv(st) && c.Rep? && c.to < |st.pools| == NUM_SERVICES && PoolOk(st.pools[c.to])
    requires AreNext(st.net, c, o.messages)
    ensures |Delivering(st, c, |o.messages|).pools| == NUM_SERVICES
    ensures Resumes(ResumeAll(st.pools[c.to], o.messages, o), o, Delivering(st, c, |o.messages|).pools[c.to])
    decreases o.messages
  {
    hide Inv, PoolOk, Resume, Handle, Enabled, Sum, Id, AreNext;
    Longer(st, c, o.messages);
    InvPools(Delivering(st, c, |o.messages|));
    if o.messages != [] {
      hide Resumes, WithReply, FirstOn, Delivering, ResumeAll;
      NextReply(st, c, o.messages);
      var m, rest := o.messages[0], o.(messages := o.messages[1..]);
      var st' := Handle(st, FirstOn(st.net, c));
      ResumeFirst(st.pools[c.to], o.messages, o);
      RepliesResume(st', c, rest);
      ResumeAllEnds(st'.pools[c.to], rest.messages, m, rest);
      assert Prepend([m], rest) == o;
      ResumesMore(ResumeAll(st'.pools[c.to], rest.messages, rest), m, rest,
                  Delivering(st, c, |o.messages|).pools[c.to], Resume(st.pools[c.to], Id(m)).1);
    }
  }

  lemma {:induction false} ReadsAwaited(st: State, c: Msg, q: Pending, fs: seq<Bytes>, test: HeaderTest)
    requires Inv(st) && c.Rep? && c.to < |st.pools| == NUM_SERVICES && PoolOk(st.pools[c.to])
    requires Partial(q, test) && NonEmpty(fs) && AreNext(st.net, c, Drive(q, fs, test).messages)
    ensures var o := Drive(q, fs, test);
      && |Delivering(st, c, |o.messages|).pools| == NUM_SERVICES
      && Resumes(ReadDownstream(st.pools[c.to], q, fs, test), o, Delivering(st, c, |o.messages|).pools[c.to])
  {
    hide Inv, PoolOk, IdsOn, Drive, ReadDownstream, ResumeAll, Delivering, Resumes, Partial, AreNext;
    ReadsReplies(st.pools[c.to], q, fs, test);
    RepliesResume(st, c, Drive(q, fs, test));
  }

  /** In every run: a bulk whose replies carry the ids next in transit finds each of the
      coroutines they name waiting. The receive loop meets no invalid id and none that does
      not wait, and leaves the coroutines as handling those replies one by one does. */
  lemma EveryReplyIsAwaited(run: seq<Action>, st: State, c: Msg, q: Pending, fs: seq<Bytes>, test: HeaderTest)
    requires IsRun(Booted(), run) && st == StateAfter(Booted(), run) && c.Rep? && c.to < NUM_SERVICES
    requires Partial(q, test) && NonEmpty(fs) && AreNext(st.net, c, Drive(q, fs, test).messages)
    ensures Inv(st) && |st.pools| == NUM_SERVICES && PoolOk(st.pools[c.to])
    ensures ReadDownstream(st.pools[c.to], q, fs, test) != NobodyWaits
    ensures ReadDownstream(st.pools[c.to], q, fs, test) != InvalidId
    ensures var o := Drive(q, fs, test); var st' := Delivering(st, c, |o.messages|);
      |st'.pools| == NUM_SERVICES && Resumes(ReadDownstream(st.pools[c.to], q, fs, test), o, st'.pools[c.to])
  {
    hide Inv, PoolOk, IdsOn, Drive, ReadDownstream, Delivering, Partial, AreNext, IsRun, StateAfter, Givens;
    InvPools(st);
    assert PoolOk(st.pools[c.to]);
    ReadsAwaited(st, c, q, fs, test);
  }

  /** A call and its answer: coroutine `c` writes its id into the request, a synchronous
      service answers with whatever its handler writes, and the reply, read as a bulk of its
      own, resumes coroutine `c` with exactly that. */
  lemma CallComesBack(p: Pool, c: nat, command: nat, request: Bytes, serve: SyncService.Handler, test: HeaderTest)
    requires PoolOk(p) && c < MAX_COROUTINES == |p.slots| && p.slots[c].Waiting?
    requires command < 0x1_0000_0000 && RpcSize(command) == Some(|request|) && SyncService.KeepsSize(serve)
    ensures var m := WithHeader(c, command, request);
      && |m| >= HEADER
      && var r := SyncService.Reply(serve, m);
         && r[HEADER..] == serve(m) && Partial(EMPTY, test) && NonEmpty([r])
         && ReadDownstream(p, EMPTY, [r], test)
            == Delivered(Resume(p, c).0, [Resume(p, c).1], [Given(c, r)], EMPTY)
  {
    hide PoolOk, Id, Resume, ReadDownstream, RpcSize, Command, FourBytes;
    var m := WithHeader(c, command, request);
    HeaderReadsBack(c, command, request);
    SyncService.ReplyEchoes(serve, m);
    var r := SyncService.Reply(serve, m);
    LowByte(c);
    assert m[..4] == FourBytes(c);
    assert r[..HEADER][..4] == r[..4] && m[..HEADER][..4] == m[..4];
    OneReply(p, c as byte, r, test);
  }

  lemma LowByte(c: nat)
    requires c < 256
    ensures FourBytes(c) == [c as byte, 0, 0, 0]
  {}
}
