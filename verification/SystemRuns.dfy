/** Whole runs of the ten services as they are deployed, with requests read in bulks:
    no bulk ends a process, only the frontend is ever held back, and every request is
    answered. */
module SystemRuns {
  import opened Basics
  import opened Sums
  import opened Coroutines
  import opened ServiceSystem

  /** Asynchronous services that read their requests in bulks; only the frontend
      calls them. */
  predicate ReadsBulks(s: nat) { s == RECOMMENDATION || s == CHECKOUT }

  /** An obligation of such a service is owed to a waiting coroutine of the frontend,
      and there is only one of it. */
  lemma OwedToFrontend(st: State, t: Token)
    requires Inv(st) && ReadsBulks(t.at) && Open(st.net, st.pools, t) > 0
    ensures t.sock == FRONTEND && t.id < MAX_COROUTINES && Open(st.net, st.pools, t) == 1
  {
    hide PoolOk, PlanOk, Sum;
    assert t !in st.arrived;
    assert IsAwaited(st.pools, t);
    PoolShape(st.pools[t.sock]);
    assert SlotOk(t.sock, st.pools[t.sock].slots[t.id]);
  }

  lemma {:induction false} HoldsTwice(up: Upstream, slots: seq<Slot>, c: nat, d: nat)
    requires c < d < |slots| && Holds(up)(slots[c]) == 1 && Holds(up)(slots[d]) == 1
    ensures Sum(Holds(up), slots) >= 2
  {
    SumAround(Holds(up), slots, d);
    assert (slots[..d] + slots[d + 1..])[c] == slots[c];
    SumAtLeast(Holds(up), slots[..d] + slots[d + 1..], c);
  }

  /** What a coroutine of such a service holds, it holds for its own frontend coroutine. */
  lemma HeldForFrontend(st: State, s: nat, c: nat)
    requires Inv(st) && ReadsBulks(s) && c < MAX_COROUTINES && st.pools[s].slots[c].Waiting?
    ensures |st.pools[s].slots| == MAX_COROUTINES
    ensures var up := st.pools[s].slots[c].up;
      up.sock == FRONTEND && up.id < MAX_COROUTINES
      && (forall d :: 0 <= d < MAX_COROUTINES && d != c && st.pools[s].slots[d].Waiting? ==>
            st.pools[s].slots[d].up != up)
      && (forall k :: 0 <= k < |st.net| ==> TokenOf(st.net[k]) != Token(up.sock, up.id, s))
  {
    hide PoolOk, PlansOk, ClientsOk, Conserved, Sum;
    PoolShape(st.pools[s]);
    var slots := st.pools[s].slots;
    var up := slots[c].up;
    var t := Token(up.sock, up.id, s);
    SumAtLeast(Holds(up), slots, c);
    OwedToFrontend(st, t);
    forall d: nat | d < MAX_COROUTINES && d != c && slots[d].Waiting?
      ensures slots[d].up != up
    {
      if slots[d].up == up {
        HoldsTwice(up, slots, if c < d then c else d, if c < d then d else c);
      }
    }
    forall k: nat | k < |st.net|
      ensures TokenOf(st.net[k]) != t
    {
      if TokenOf(st.net[k]) == t {
        SumAtLeast(Carries(t), st.net, k);
      }
    }
  }

  /** A request on its way to recommendation or checkout always finds a free coroutine:
      the frontend has as many coroutines, with one call each. */
  lemma FreeCoroutine(st: State, k: nat)
    requires Inv(st) && k < |st.net| && st.net[k].Req? && ReadsBulks(st.net[k].to)
    ensures st.pools[st.net[k].to].available != []
  {
    hide PoolOk, PlansOk, ClientsOk, Conserved, Sum;
    var s, t := st.net[k].to, TokenOf(st.net[k]);
    var p := st.pools[s];
    SumAtLeast(Carries(t), st.net, k);
    OwedToFrontend(st, t);
    NoneFree(p);
    PoolShape(p);
    if p.available == [] {
      var ids := seq(MAX_COROUTINES, c requires 0 <= c < MAX_COROUTINES => p.slots[c].up.id);
      forall c: nat, d: nat | c < d < |ids|
        ensures ids[c] != ids[d]
      {
        HeldForFrontend(st, s, c);
        HeldForFrontend(st, s, d);
      }
      forall c: nat | c < |ids|
        ensures ids[c] < MAX_COROUTINES && ids[c] != t.id
      {
        HeldForFrontend(st, s, c);
      }
      RoomLeft(ids, MAX_COROUTINES, t.id);
    }
  }

  // --------------------------------------------------------------------- bulks

  function OnChannel(c: Msg): Msg -> nat { (m: Msg) => if SameChannel(m, c) then 1 else 0 }

  /** The oldest message of a channel. */
  function FirstOn(net: seq<Msg>, c: Msg): (i: nat)
    requires Sum(OnChannel(c), net) > 0
    ensures i < |net| && SameChannel(net[i], c) && Oldest(net, i)
  {
    if SameChannel(net[0], c) then 0 else 1 + FirstOn(net[1..], c)
  }

  /** Service `c.to` reads a bulk from channel `c`: its `k` oldest requests and, if
      `partial`, some bytes of the next. Nothing if the process exits because no
      coroutine is free while bytes are unread (service_async.h:196-200). */
  ghost function ReadBulk(st: State, c: Msg, k: nat, partial: bool): Option<State>
    requires Inv(st) && c.Req? && c.to < NUM_SERVICES && IsAsync(c.to)
    requires Sum(OnChannel(c), st.net) >= k + if partial then 1 else 0
    decreases k
  {
    if k == 0 then (if partial && st.pools[c.to].available == [] then None else Some(st))
    else if st.pools[c.to].available == [] then None
    else
      var i := FirstOn(st.net, c);
      ReadOne(st, c);
      ReadBulk(Handle(st, i), c, k - 1, partial)
  }

  /** Reading one request takes it off its channel and puts nothing else on it. */
  lemma ReadOne(st: State, c: Msg)
    requires Inv(st) && c.Req? && c.to < NUM_SERVICES && IsAsync(c.to) && Sum(OnChannel(c), st.net) > 0
    requires st.pools[c.to].available != []
    ensures var i := FirstOn(st.net, c);
      && Enabled(st, i) && Inv(Handle(st, i)) && st.net[i].Req? && st.net[i].to == c.to
      && Sum(OnChannel(c), Handle(st, i).net) == Sum(OnChannel(c), st.net) - 1
  {
    hide PlanOk, Sum, Conserved, ClientsOk;
    var i := FirstOn(st.net, c);
    var m := st.net[i];
    assert PoolOk(st.pools[c.to]);
    assert Enabled(st, i);
    HandleKeeps(st, i);
    StartOk(st.pools[c.to], Upstream(m.from, m.id), m.plan);
    var (q, e) := Start(st.pools[c.to], Upstream(m.from, m.id), m.plan);
    SumReplace(OnChannel(c), st.net, i, Emitted(c.to, e));
    assert MsgOk(m);
    if m.plan.Call? {
      CallsLower(c.to, m.plan);
    }
  }

  lemma CallsLower(s: nat, plan: Plan)
    requires PlanOk(s, plan) && plan.Call?
    ensures plan.service < s
  {
    DependenciesGoDown(s, plan.service);
  }

  /** No bulk of recommendation or checkout ends the process; what it leaves is what
      its requests leave when read one by one. */
  lemma {:induction false} BulksNeverExit(st: State, c: Msg, k: nat, partial: bool)
    requires Inv(st) && c.Req? && ReadsBulks(c.to)
    requires Sum(OnChannel(c), st.net) >= k + if partial then 1 else 0
    ensures var r := ReadBulk(st, c, k, partial);
      && r.Some? && Inv(r.value) && Measure(r.value) + k <= Measure(st)
      && r.value.arrived == st.arrived && (Unrefused(st) ==> Unrefused(r.value))
    decreases k
  {
    hide Inv, Sum, Measure, Handle, Enabled, Unrefused;
    if Sum(OnChannel(c), st.net) > 0 {
      ChannelFree(st, c);
    }
    if k > 0 {
      var i := FirstOn(st.net, c);
      ReadOne(st, c);
      InvPools(st);
      HandleDecreases(st, i);
      HandleUnrefused(st, i);
      BulksNeverExit(Handle(st, i), c, k - 1, partial);
    }
  }

  lemma InvPools(st: State)
    requires Inv(st)
    ensures PoolsOk(st.pools)
  {}

  lemma ChannelFree(st: State, c: Msg)
    requires Inv(st) && c.Req? && ReadsBulks(c.to) && Sum(OnChannel(c), st.net) > 0
    ensures st.pools[c.to].available != []
  {
    hide Sum, PoolOk;
    FreeCoroutine(st, FirstOn(st.net, c));
  }

  /** A bulk takes exactly its requests off what is due. */
  lemma {:induction false} BulkSpends(t: Tally, st: State, c: Msg, k: nat, partial: bool)
    requires Inv(st) && c.Req? && ReadsBulks(c.to)
    requires Sum(OnChannel(c), st.net) >= k + if partial then 1 else 0
    ensures ReadBulk(st, c, k, partial).Some?
    ensures Due(t, ReadBulk(st, c, k, partial).value) + k * RequestPrice(t, c.to) == Due(t, st)
    decreases k
  {
    hide Inv, Sum, Due, Handle, Enabled, RequestPrice;
    BulksNeverExit(st, c, k, partial);
    if k > 0 {
      var i := FirstOn(st.net, c);
      ChannelFree(st, c);
      ReadOne(st, c);
      InvPools(st);
      HandleSpends(t, st, i);
      BulkSpends(t, Handle(st, i), c, k - 1, partial);
    }
  }

  // ------------------------------------------------------------- held back, or not

  /** No service but the frontend has stopped reading requests. */
  ghost predicate Unrefused(st: State) {
    forall s :: 0 <= s < |st.pools| && s != FRONTEND ==> !st.pools[s].disabled
  }

  lemma HandleUnrefused(st: State, i: nat)
    requires Inv(st) && Enabled(st, i)
    ensures Unrefused(st) ==> Unrefused(Handle(st, i))
    ensures Handle(st, i).arrived == st.arrived
  {
    hide PoolOk, PlansOk, Conserved, ClientsOk, Oldest;
    var m := st.net[i];
    if m.Req? && IsAsync(m.to) {
      if st.pools[m.to].available == [] {
        if m.to != FRONTEND {
          FreeCoroutine(st, i);
        }
      } else {
        assert PoolOk(st.pools[m.to]);
        TopIsFree(st.pools[m.to]);
      }
    }
  }

  // ----------------------------------------------------------------------- runs

  datatype Action =
    | Arrives(conn: nat, id: nat, plan: Plan)
    | Handles(msg: nat)
    | HandlesBulk(channel: Msg, count: nat, partial: bool)

  ghost predicate CanAct(st: State, a: Action)
    requires Inv(st)
  {
    match a
    case Arrives(conn, _, plan) => IsClient(conn) && PlanOk(FRONTEND, plan)
    case Handles(i) => Enabled(st, i)
    case HandlesBulk(c, k, partial) =>
      c.Req? && ReadsBulks(c.to) && k > 0 && Sum(OnChannel(c), st.net) >= k + if partial then 1 else 0
  }

  /** The outcome of a bulk is always a state: that it is never an exit is proved. */
  ghost function Act(st: State, a: Action): (r: State)
    requires Inv(st) && CanAct(st, a)
    ensures Inv(r)
  {
    match a
    case Arrives(conn, id, plan) => ArriveKeeps(st, conn, id, plan); Arrive(st, conn, id, plan)
    case Handles(i) => HandleKeeps(st, i); Handle(st, i)
    case HandlesBulk(c, k, partial) => BulksNeverExit(st, c, k, partial); ReadBulk(st, c, k, partial).value
  }

  ghost predicate IsRun(st: State, run: seq<Action>)
    requires Inv(st)
    decreases run
  {
    run == [] || (CanAct(st, run[0]) && IsRun(Act(st, run[0]), run[1..]))
  }

  /** Every state of every run from a state with the invariant has it again. */
  ghost function StateAfter(st: State, run: seq<Action>): (r: State)
    requires Inv(st) && IsRun(st, run)
    ensures Inv(r)
    decreases run
  {
    if run == [] then st else StateAfter(Act(st, run[0]), run[1..])
  }

  /** Every action of a service uses up some of the measure. */
  lemma ActDecreases(st: State, a: Action)
    requires Inv(st) && CanAct(st, a) && !a.Arrives?
    ensures Measure(Act(st, a)) < Measure(st) && Act(st, a).arrived == st.arrived
  {
    hide PoolsOk, PlansOk, ClientsOk, Conserved, Measure, Handle;
    match a
    case Handles(i) =>
      HandleDecreases(st, i);
      HandleUnrefused(st, i);
    case HandlesBulk(c, k, partial) =>
      BulksNeverExit(st, c, k, partial);
  }

  /** Without new arrivals a run is no longer than the measure of its first state. */
  lemma {:induction false} RunsAreBounded(st: State, run: seq<Action>)
    requires Inv(st) && IsRun(st, run) && forall k :: 0 <= k < |run| ==> !run[k].Arrives?
    ensures |run| + Measure(StateAfter(st, run)) <= Measure(st)
    ensures StateAfter(st, run).arrived == st.arrived
    decreases run
  {
    hide Inv, Measure, CanAct, Act;
    if run != [] {
      ActDecreases(st, run[0]);
      RunsAreBounded(Act(st, run[0]), run[1..]);
    }
  }

  /** In every run only the frontend ever stops reading requests. */
  lemma {:induction false} OnlyFrontendRefuses(st: State, run: seq<Action>)
    requires Inv(st) && IsRun(st, run) && Unrefused(st)
    ensures Unrefused(StateAfter(st, run))
    decreases run
  {
    hide Inv, Unrefused, Handle, CanAct;
    if run != [] {
      ActUnrefused(st, run[0]);
      OnlyFrontendRefuses(Act(st, run[0]), run[1..]);
    }
  }

  lemma ActUnrefused(st: State, a: Action)
    requires Inv(st) && CanAct(st, a) && Unrefused(st)
    ensures Unrefused(Act(st, a))
  {
    hide PoolsOk, PlansOk, ClientsOk, Conserved, Handle;
    match a
    case Arrives(_, _, _) =>
    case Handles(i) =>
      HandleUnrefused(st, i);
    case HandlesBulk(c, k, partial) =>
      BulksNeverExit(st, c, k, partial);
  }

  /** How many of the messages counted an action handles. */
  ghost function Handled(t: Tally, st: State, a: Action): nat
    requires Inv(st) && CanAct(st, a)
  {
    match a
    case Arrives(_, _, _) => 0
    case Handles(i) => Spent(t, st, i)
    case HandlesBulk(c, k, _) => k * RequestPrice(t, c.to)
  }

  ghost function HandledIn(t: Tally, st: State, run: seq<Action>): nat
    requires Inv(st) && IsRun(st, run)
    decreases run
  {
    if run == [] then 0 else Handled(t, st, run[0]) + HandledIn(t, Act(st, run[0]), run[1..])
  }

  /** How many the requests that arrive in a run ask for: themselves, the calls of their
      plans, the calls made for those, and a reply to each. */
  function AskedFor(t: Tally, run: seq<Action>): nat {
    if run == [] then 0
    else (if run[0].Arrives? then RequestPrice(t, FRONTEND) + Weight(t, run[0].plan) else 0) + AskedFor(t, run[1..])
  }

  lemma ActSpends(t: Tally, st: State, a: Action)
    requires Inv(st) && CanAct(st, a)
    ensures Due(t, Act(st, a)) + Handled(t, st, a) == Due(t, st) + AskedFor(t, [a])
  {
    hide PoolsOk, PlansOk, ClientsOk, Conserved, Handle, Due, Spent;
    assert [a][1..] == [];
    match a
    case Arrives(conn, id, plan) => ArriveBrings(t, st, conn, id, plan);
    case Handles(i) => HandleSpends(t, st, i);
    case HandlesBulk(c, k, partial) => BulkSpends(t, st, c, k, partial);
  }

  /** Over every run: what is still due, and what was handled, is what was asked for. */
  lemma {:induction false} RunSpends(t: Tally, st: State, run: seq<Action>)
    requires Inv(st) && IsRun(st, run)
    ensures Due(t, StateAfter(st, run)) + HandledIn(t, st, run) == Due(t, st) + AskedFor(t, run)
    decreases run
  {
    hide Inv, Due, CanAct, Act, Handled;
    if run != [] {
      ActSpends(t, st, run[0]);
      RunSpends(t, Act(st, run[0]), run[1..]);
      assert [run[0]][1..] == [];
    }
  }

  ghost function Booted(): (st: State)
    ensures Inv(st) && Unrefused(st) && Idle(st)
  {
    InitialInv();
    Initial()
  }

  /** Whatever the services do in whatever order and in whatever bulks: no process
      exits, only the frontend is ever held back, and when no service can go on every
      request that ever arrived has been answered, and exactly once, and each service has
      handled exactly as many requests as the plans of those that arrived call for. */
  lemma EveryRequestIsAnswered(run: seq<Action>)
    requires IsRun(Booted(), run)
    ensures Unrefused(StateAfter(Booted(), run))
    ensures (forall i :: !Enabled(StateAfter(Booted(), run), i)) ==>
      Idle(StateAfter(Booted(), run)) && StateAfter(Booted(), run).answered == StateAfter(Booted(), run).arrived
    ensures (forall i :: !Enabled(StateAfter(Booted(), run), i)) ==>
      forall t: Tally :: HandledIn(t, Booted(), run) == AskedFor(t, run)
  {
    hide PlansOk, Conserved, ClientsOk, Unrefused, Enabled, Idle, Due, HandledIn, AskedFor;
    OnlyFrontendRefuses(Booted(), run);
    if forall i :: !Enabled(StateAfter(Booted(), run), i) {
      QuiescentIsDone(StateAfter(Booted(), run));
      forall t: Tally
        ensures HandledIn(t, Booted(), run) == AskedFor(t, run)
      {
        RunSpends(t, Booted(), run);
        IdleOwesNothing(t, Booted());
        IdleOwesNothing(t, StateAfter(Booted(), run));
      }
    }
  }
}
