/** The ten services together: every wait ends, and every request is answered once. */
module ServiceSystem {
  import opened Coroutines
  import opened Sums

  const AD: nat := 0
  const EMAIL: nat := 1
  const PAYMENT: nat := 2
  const CURRENCY: nat := 3
  const SHIPPING: nat := 4
  const PRODUCTCATALOG: nat := 5
  const CART: nat := 6
  const RECOMMENDATION: nat := 7
  const CHECKOUT: nat := 8
  const FRONTEND: nat := 9
  const NUM_SERVICES: nat := 10

  /** Connections from `NUM_SERVICES` on are browsers talking to the frontend. */
  predicate IsClient(sock: nat) { sock >= NUM_SERVICES }

  /** Services built on `service_async.h`; the others answer in place. */
  predicate IsAsync(s: nat) { RECOMMENDATION <= s <= FRONTEND }

  function Dependencies(s: nat): seq<nat> {
    if s == FRONTEND then [AD, CURRENCY, SHIPPING, PRODUCTCATALOG, CART, RECOMMENDATION, CHECKOUT]
    else if s == CHECKOUT then [PRODUCTCATALOG, CART, SHIPPING, CURRENCY, PAYMENT, EMAIL]
    else if s == RECOMMENDATION then [PRODUCTCATALOG]
    else []
  }

  /** Every service waits only for services with a smaller id. */
  lemma DependenciesGoDown(s: nat, d: nat)
    requires d in Dependencies(s)
    ensures d < s < NUM_SERVICES
  {}

  /** A handler of service `s` calls only the services `s` is connected to. */
  predicate PlanOk(s: nat, plan: Plan) {
    plan.Reply? || (plan.service in Dependencies(s) && PlanOk(plan.service, plan.theirs) && PlanOk(s, plan.rest))
  }

  datatype Msg =
    | Req(from: nat, to: nat, id: nat, plan: Plan)
    | Rep(from: nat, to: nat, id: nat)

  /** An obligation: service `at` owes connection `sock` the reply numbered `id`. */
  datatype Token = Token(sock: nat, id: nat, at: nat)

  function TokenOf(m: Msg): Token {
    match m
    case Req(from, to, id, _) => Token(from, id, to)
    case Rep(from, to, id) => Token(to, id, from)
  }

  /** `net` holds the messages in transit in sending order. */
  datatype State = State(net: seq<Msg>, pools: seq<Pool>, arrived: multiset<Token>, answered: multiset<Token>)

  ghost predicate PoolsOk(pools: seq<Pool>) {
    |pools| == NUM_SERVICES && forall s :: 0 <= s < NUM_SERVICES ==> PoolOk(pools[s])
  }

  function Initial(): State {
    State([], seq(NUM_SERVICES, _ => NewPool()), multiset{}, multiset{})
  }

  predicate SameChannel(a: Msg, b: Msg) {
    a.Req? == b.Req? && a.from == b.from && a.to == b.to
  }

  /** Channels are first-in first-out: only the oldest message of one can be read. */
  predicate Oldest(net: seq<Msg>, i: nat)
    requires i < |net|
  {
    forall j :: 0 <= j < i ==> !SameChannel(net[j], net[i])
  }

  /** Whether the addressee of message `i` can take it now. A service that has
      stopped upstream reception takes replies only. */
  ghost predicate Enabled(st: State, i: nat)
    requires PoolsOk(st.pools)
  {
    && i < |st.net| && Oldest(st.net, i)
    && match st.net[i]
       case Rep(_, to, id) => IsClient(to) || (id < MAX_COROUTINES && st.pools[to].slots[id].Waiting?)
       case Req(_, to, _, _) => to < NUM_SERVICES && (IsAsync(to) ==> !st.pools[to].disabled)
  }

  function Emitted(s: nat, e: Effect): Msg {
    match e
    case Calls(co, service, theirs) => Req(s, service, co, theirs)
    case Replies(up) => Rep(s, up.sock, up.id)
  }

  function Without<T>(s: seq<T>, i: nat): seq<T>
    requires i < |s|
  {
    s[..i] + s[i + 1..]
  }

  /** The addressee of message `i` handles it. */
  ghost function Handle(st: State, i: nat): State
    requires PoolsOk(st.pools) && Enabled(st, i)
  {
    var rest := Without(st.net, i);
    match st.net[i]
    case Rep(_, to, id) =>
      if IsClient(to) then
        st.(net := rest, answered := st.answered + multiset{TokenOf(st.net[i])})
      else
        var (q, e) := Resume(st.pools[to], id);
        st.(net := rest + [Emitted(to, e)], pools := st.pools[to := q])
    case Req(from, to, id, plan) =>
      if !IsAsync(to) then
        st.(net := rest + [Rep(to, from, id)])
      else if st.pools[to].available == [] then
        st.(pools := st.pools[to := Refuse(st.pools[to])])
      else
        assert PoolOk(st.pools[to]);
        StartOk(st.pools[to], Upstream(from, id), plan);
        var (q, e) := Start(st.pools[to], Upstream(from, id), plan);
        st.(net := rest + [Emitted(to, e)], pools := st.pools[to := q])
  }

  /** A browser sends a request to the frontend. */
  function Arrive(st: State, conn: nat, id: nat, plan: Plan): State {
    st.(net := st.net + [Req(conn, FRONTEND, id, plan)],
        arrived := st.arrived + multiset{Token(conn, id, FRONTEND)})
  }

  // ------------------------------------------------------------ conservation

  function Carries(t: Token): Msg -> nat { (m: Msg) => if TokenOf(m) == t then 1 else 0 }

  function Holds(up: Upstream): Slot -> nat { (v: Slot) => if v.Waiting? && v.up == up then 1 else 0 }

  /** How often obligation `t` is in transit or held by a coroutine of its service. */
  function Open(net: seq<Msg>, pools: seq<Pool>, t: Token): nat {
    Sum(Carries(t), net) + if t.at < |pools| then Sum(Holds(Upstream(t.sock, t.id)), pools[t.at].slots) else 0
  }

  /** One if coroutine `t.id` of service `t.sock` waits for service `t.at`. */
  predicate IsAwaited(pools: seq<Pool>, t: Token) {
    t.sock < |pools| && t.id < |pools[t.sock].slots|
    && pools[t.sock].slots[t.id].Waiting? && pools[t.sock].slots[t.id].dep == t.at
  }

  function Awaited(pools: seq<Pool>, t: Token): nat { if IsAwaited(pools, t) then 1 else 0 }

  ghost predicate Conserved(st: State) {
    forall t: Token :: Open(st.net, st.pools, t) + st.answered[t] == Awaited(st.pools, t) + st.arrived[t]
  }

  ghost predicate MsgOk(m: Msg) {
    m.Req? ==> m.to < NUM_SERVICES && PlanOk(m.to, m.plan)
  }

  ghost predicate NetOk(net: seq<Msg>) {
    forall i :: 0 <= i < |net| ==> MsgOk(net[i])
  }

  ghost predicate SlotOk(s: nat, v: Slot) {
    v.Waiting? ==> v.dep in Dependencies(s) && PlanOk(s, v.rest)
  }

  ghost predicate SlotsOk(s: nat, slots: seq<Slot>) {
    forall c :: 0 <= c < |slots| ==> SlotOk(s, slots[c])
  }

  ghost predicate PlansOk(st: State) {
    NetOk(st.net) && forall s :: 0 <= s < |st.pools| ==> SlotsOk(s, st.pools[s].slots)
  }

  ghost predicate ClientsOk(st: State) {
    && (forall t :: t in st.arrived ==> IsClient(t.sock) && t.at == FRONTEND)
    && (forall t :: t in st.answered ==> IsClient(t.sock))
  }

  ghost predicate Inv(st: State) {
    PoolsOk(st.pools) && PlansOk(st) && ClientsOk(st) && Conserved(st)
  }

  lemma InitialInv()
    ensures Inv(Initial())
  {
    hide PoolOk, Sum;
    NewPoolOk();
    forall t: Token
      ensures Open([], Initial().pools, t) == 0
    {
      SumZero(Carries(t), []);
      if t.at < NUM_SERVICES {
        SumZero(Holds(Upstream(t.sock, t.id)), NewPool().slots);
      }
    }
  }

  /** One message read, one sent, and slot `c` of service `s` changed. */
  lemma SlotBalance(net: seq<Msg>, pools: seq<Pool>, i: nat, out: Msg, s: nat, q: Pool, c: nat, v: Slot, t: Token)
    requires i < |net| && s < |pools| && c < |pools[s].slots| && q.slots == pools[s].slots[c := v]
    requires var slot := pools[s].slots[c];
      Carries(t)(net[i]) + (if t.at == s then Holds(Upstream(t.sock, t.id))(slot) else 0)
        + (if t.sock == s && t.id == c && v.Waiting? && v.dep == t.at then 1 else 0)
      == Carries(t)(out) + (if t.at == s then Holds(Upstream(t.sock, t.id))(v) else 0)
        + (if t.sock == s && t.id == c && slot.Waiting? && slot.dep == t.at then 1 else 0)
    ensures Open(Without(net, i) + [out], pools[s := q], t) - Awaited(pools[s := q], t)
      == Open(net, pools, t) - Awaited(pools, t)
  {
    SumReplace(Carries(t), net, i, out);
    if t.at == s {
      SumUpdate(Holds(Upstream(t.sock, t.id)), pools[s].slots, c, v);
    }
  }

  lemma ResumeConserves(st: State, i: nat)
    requires PoolsOk(st.pools) && Conserved(st) && ClientsOk(st) && Enabled(st, i)
    requires st.net[i].Rep? && !IsClient(st.net[i].to)
    ensures Conserved(Handle(st, i))
  {
    var m := st.net[i];
    MessageIsAwaited(st, i);
    var slot := st.pools[m.to].slots[m.id];
    var (q, e) := Resume(st.pools[m.to], m.id);
    var v := if slot.rest.Reply? then Free else Waiting(slot.up, slot.rest.service, slot.rest.rest);
    assert q.slots == st.pools[m.to].slots[m.id := v];
    forall t: Token
      ensures Open(Handle(st, i).net, Handle(st, i).pools, t) + st.answered[t]
        == Awaited(Handle(st, i).pools, t) + st.arrived[t]
    {
      SlotBalance(st.net, st.pools, i, Emitted(m.to, e), m.to, q, m.id, v, t);
    }
  }

  lemma AcceptConserves(st: State, i: nat)
    requires PoolsOk(st.pools) && Conserved(st) && Enabled(st, i)
    requires st.net[i].Req? && IsAsync(st.net[i].to) && st.pools[st.net[i].to].available != []
    ensures Conserved(Handle(st, i))
  {
    var m := st.net[i];
    var p := st.pools[m.to];
    assert PoolOk(p);
    StartOk(p, Upstream(m.from, m.id), m.plan);
    var (q, e) := Start(p, Upstream(m.from, m.id), m.plan);
    var co := p.available[|p.available| - 1];
    var v := if m.plan.Reply? then p.slots[co] else Waiting(Upstream(m.from, m.id), m.plan.service, m.plan.rest);
    assert q.slots == p.slots[co := v];
    forall t: Token
      ensures Open(Handle(st, i).net, Handle(st, i).pools, t) + st.answered[t]
        == Awaited(Handle(st, i).pools, t) + st.arrived[t]
    {
      SlotBalance(st.net, st.pools, i, Emitted(m.to, e), m.to, q, co, v, t);
    }
  }

  /** Every request from and every reply to a service belongs to a coroutine that
      waits for the very service at the other end, under the very id. */
  lemma MessageIsAwaited(st: State, i: nat)
    requires Conserved(st) && ClientsOk(st) && i < |st.net| && !IsClient(TokenOf(st.net[i]).sock)
    ensures IsAwaited(st.pools, TokenOf(st.net[i]))
  {
    var t := TokenOf(st.net[i]);
    assert t !in st.arrived;
    SumAtLeast(Carries(t), st.net, i);
  }

  lemma HandleConserves(st: State, i: nat)
    requires PoolsOk(st.pools) && Conserved(st) && ClientsOk(st) && Enabled(st, i)
    ensures Conserved(Handle(st, i))
  {
    hide PoolOk, Sum, Start, Resume;
    var m := st.net[i];
    var st' := Handle(st, i);
    if m.Rep? && !IsClient(m.to) {
      ResumeConserves(st, i);
    } else if m.Req? && IsAsync(m.to) && st.pools[m.to].available != [] {
      AcceptConserves(st, i);
    } else {
      forall t: Token
        ensures Open(st'.net, st'.pools, t) + st'.answered[t] == Awaited(st'.pools, t) + st'.arrived[t]
      {
        if m.Rep? {
          SumAround(Carries(t), st.net, i);
        } else if !IsAsync(m.to) {
          SumReplace(Carries(t), st.net, i, Rep(m.to, m.from, m.id));
        }
      }
    }
  }

  lemma HandleKeepsPools(st: State, i: nat)
    requires PoolsOk(st.pools) && Enabled(st, i)
    ensures PoolsOk(Handle(st, i).pools)
  {
    hide PoolOk, Start, Resume;
    var m := st.net[i];
    if m.to < NUM_SERVICES {
      var p := st.pools[m.to];
      assert PoolOk(p);
      if m.Rep? {
        ResumeOk(p, m.id);
      } else if IsAsync(m.to) {
        if p.available == [] {
          RefuseOk(p);
        } else {
          StartOk(p, Upstream(m.from, m.id), m.plan);
        }
      }
    }
  }

  /** Whatever a coroutine does next is allowed to its service. */
  lemma ContinueKeepsPlans(s: nat, p: Pool, co: nat, up: Upstream, plan: Plan)
    requires co < |p.slots| && SlotsOk(s, p.slots) && PlanOk(s, plan)
    ensures var (q, e) := Continue(p, co, up, plan); SlotsOk(s, q.slots) && MsgOk(Emitted(s, e))
  {
    if plan.Call? {
      DependenciesGoDown(s, plan.service);
    }
  }

  lemma NetKeeps(net: seq<Msg>, i: nat, out: Msg)
    requires i < |net| && NetOk(net)
    ensures MsgOk(net[i]) && NetOk(Without(net, i))
    ensures MsgOk(out) ==> NetOk(Without(net, i) + [out])
  {}

  lemma SlotsAt(s: nat, slots: seq<Slot>, c: nat)
    requires c < |slots| && SlotsOk(s, slots) && slots[c].Waiting?
    ensures PlanOk(s, slots[c].rest)
  {
    assert SlotOk(s, slots[c]);
  }

  lemma ReqPlan(m: Msg)
    requires m.Req? && MsgOk(m)
    ensures PlanOk(m.to, m.plan)
  {}

  lemma RepOk(s: nat, up: Upstream)
    ensures MsgOk(Rep(s, up.sock, up.id))
  {}

  lemma HandleKeepsPlans(st: State, i: nat)
    requires PoolsOk(st.pools) && PlansOk(st) && Enabled(st, i)
    ensures PlansOk(Handle(st, i))
  {
    hide PlanOk, MsgOk, SlotOk, Continue, NetOk, SlotsOk, Without, Oldest;
    var m := st.net[i];
    NetKeeps(st.net, i, m);
    if m.Rep? {
      if !IsClient(m.to) {
        var p := st.pools[m.to];
        var slot := p.slots[m.id];
        SlotsAt(m.to, p.slots, m.id);
        ContinueKeepsPlans(m.to, p, m.id, slot.up, slot.rest);
        NetKeeps(st.net, i, Emitted(m.to, Resume(p, m.id).1));
      }
    } else if !IsAsync(m.to) {
      RepOk(m.to, Upstream(m.from, m.id));
      NetKeeps(st.net, i, Rep(m.to, m.from, m.id));
    } else if st.pools[m.to].available != [] {
      var p, up := st.pools[m.to], Upstream(m.from, m.id);
      assert PoolOk(p);
      StartOk(p, up, m.plan);
      StartIs(p, up, m.plan);
      ReqPlan(m);
      var n := |p.available| - 1;
      ContinueKeepsPlans(m.to, p.(available := p.available[..n]), p.available[n], up, m.plan);
      NetKeeps(st.net, i, Emitted(m.to, Start(p, up, m.plan).1));
    }
  }

  lemma StartIs(p: Pool, up: Upstream, plan: Plan)
    requires p.available != [] && p.available[|p.available| - 1] < |p.slots|
    ensures var n := |p.available| - 1;
      Start(p, up, plan) == Continue(p.(available := p.available[..n]), p.available[n], up, plan)
  {}

  lemma HandleKeeps(st: State, i: nat)
    requires Inv(st) && Enabled(st, i)
    ensures Inv(Handle(st, i))
  {
    hide PoolsOk, PlansOk, Conserved;
    HandleKeepsPools(st, i);
    HandleKeepsPlans(st, i);
    HandleConserves(st, i);
  }

  lemma ArriveKeeps(st: State, conn: nat, id: nat, plan: Plan)
    requires Inv(st) && IsClient(conn) && PlanOk(FRONTEND, plan)
    ensures Inv(Arrive(st, conn, id, plan))
  {
    hide PoolOk, PlanOk, SlotsOk, Sum;
    var m := Req(conn, FRONTEND, id, plan);
    forall t: Token
      ensures Sum(Carries(t), st.net + [m]) == Sum(Carries(t), st.net) + if TokenOf(m) == t then 1 else 0
    {
      SumConcat(Carries(t), st.net, [m]);
      SumOne(Carries(t), m);
    }
  }

  // ----------------------------------------------------- what the invariant says

  /** A coroutine waits for exactly one thing, which is in transit or being served. */
  lemma WaitsForOneThing(st: State, s: nat, c: nat)
    requires Inv(st) && s < NUM_SERVICES && c < MAX_COROUTINES && st.pools[s].slots[c].Waiting?
    ensures st.pools[s].slots[c].dep < s
    ensures Open(st.net, st.pools, Token(s, c, st.pools[s].slots[c].dep)) == 1
    ensures forall d :: d != st.pools[s].slots[c].dep ==> Open(st.net, st.pools, Token(s, c, d)) == 0
  {
    hide PoolOk, PlanOk, Sum;
    assert PoolOk(st.pools[s]) && |st.pools[s].slots| == MAX_COROUTINES by { PoolShape(st.pools[s]); }
    assert SlotOk(s, st.pools[s].slots[c]);
    DependenciesGoDown(s, st.pools[s].slots[c].dep);
    forall d: nat
      ensures Open(st.net, st.pools, Token(s, c, d)) == Awaited(st.pools, Token(s, c, d))
    {
      assert Token(s, c, d) !in st.arrived && Token(s, c, d) !in st.answered;
    }
  }

  lemma PoolShape(p: Pool)
    requires PoolOk(p)
    ensures |p.slots| == MAX_COROUTINES
  {}

  /** No two messages in transit carry the same id for the same service. */
  lemma IdsAreDistinct(st: State, i: nat, j: nat)
    requires Inv(st) && i < j < |st.net|
    requires TokenOf(st.net[i]).sock == TokenOf(st.net[j]).sock < NUM_SERVICES
    ensures TokenOf(st.net[i]).id != TokenOf(st.net[j]).id
  {
    hide PoolOk, PlansOk, Sum;
    MessageIsAwaited(st, i);
    MessageIsAwaited(st, j);
    if TokenOf(st.net[i]).id == TokenOf(st.net[j]).id {
      var t := TokenOf(st.net[i]);
      assert t !in st.arrived && Open(st.net, st.pools, t) <= 1;
      SumAround(Carries(t), st.net, j);
      assert Without(st.net, j)[i] == st.net[i];
      SumAtLeast(Carries(t), Without(st.net, j), i);
    }
  }

  /** A browser never gets an answer it did not ask for, nor the same one twice. */
  lemma AnsweredAtMostOnce(st: State)
    requires Inv(st)
    ensures st.answered <= st.arrived
  {
    forall t: Token
      ensures st.answered[t] <= st.arrived[t]
    {
      if t in st.answered {
        assert IsClient(t.sock) && !IsAwaited(st.pools, t);
      }
    }
  }

  // ---------------------------------------------------------------- progress

  /** The oldest message on the channel of message `k`. */
  lemma {:induction false} OldestOf(net: seq<Msg>, k: nat) returns (i: nat)
    requires k < |net|
    ensures i <= k && SameChannel(net[i], net[k]) && Oldest(net, i)
    decreases k
  {
    if j: nat :| j < k && SameChannel(net[j], net[k]) {
      i := OldestOf(net, j);
    } else {
      i := k;
    }
  }

  /** A message is stuck only in front of a service that has stopped listening. */
  lemma TakenOrBlocked(st: State, k: nat) returns (i: nat)
    requires Inv(st) && k < |st.net|
    ensures Enabled(st, i) || (st.net[k].Req? && st.net[k].to < NUM_SERVICES && st.pools[st.net[k].to].disabled)
  {
    hide PoolOk, PlanOk, Conserved;
    i := OldestOf(st.net, k);
    var m := st.net[i];
    assert MsgOk(m);
    if m.Rep? && !IsClient(m.to) {
      MessageIsAwaited(st, i);
      PoolShape(st.pools[m.to]);
    }
  }

  lemma BlockedPoolWaits(p: Pool)
    requires PoolOk(p) && p.disabled
    ensures p.slots[0].Waiting?
  {
    NoneFree(p);
  }

  /** Follows an open obligation down to a message that can be taken. */
  lemma {:induction false} ObligationProgress(st: State, t: Token) returns (i: nat)
    requires Inv(st) && t.at < NUM_SERVICES && Open(st.net, st.pools, t) > 0
    ensures Enabled(st, i)
    decreases t.at
  {
    hide PoolOk, PlansOk, Conserved, ClientsOk, Oldest;
    var d, c := t.at, 0;
    if Sum(Carries(t), st.net) > 0 {
      var k := SumPositive(Carries(t), st.net);
      i := TakenOrBlocked(st, k);
      if Enabled(st, i) {
        return;
      }
      BlockedPoolWaits(st.pools[d]);
    } else {
      c := SumPositive(Holds(Upstream(t.sock, t.id)), st.pools[d].slots);
    }
    PoolShape(st.pools[d]);
    WaitsForOneThing(st, d, c);
    i := ObligationProgress(st, Token(d, c, st.pools[d].slots[c].dep));
  }

  predicate Idle(st: State) {
    st.net == [] && forall s, c :: 0 <= s < |st.pools| && 0 <= c < |st.pools[s].slots| ==> st.pools[s].slots[c].Free?
  }

  /** With nothing in transit and no coroutine suspended, all requests are answered. */
  lemma IdleIsDone(st: State)
    requires Inv(st) && Idle(st)
    ensures st.answered == st.arrived
  {
    hide PoolOk, PlansOk, ClientsOk;
    forall t: Token
      ensures st.answered[t] == st.arrived[t]
    {
      SumZero(Carries(t), st.net);
      if t.at < NUM_SERVICES {
        SumZero(Holds(Upstream(t.sock, t.id)), st.pools[t.at].slots);
      }
    }
  }

  /** No deadlock: while a request is unanswered some service can take a message. */
  lemma Progress(st: State) returns (i: nat)
    requires Inv(st) && (st.answered != st.arrived || !Idle(st))
    ensures Enabled(st, i)
  {
    hide PoolOk, PlansOk, Conserved, ClientsOk, Sum, Oldest;
    if st.net != [] {
      i := TakenOrBlocked(st, 0);
      if Enabled(st, i) {
        return;
      }
      var s := st.net[0].to;
      BlockedPoolWaits(st.pools[s]);
      PoolShape(st.pools[s]);
      WaitsForOneThing(st, s, 0);
      i := ObligationProgress(st, Token(s, 0, st.pools[s].slots[0].dep));
    } else if Idle(st) {
      IdleIsDone(st);
    } else {
      var s: nat, c: nat :| s < |st.pools| && c < |st.pools[s].slots| && st.pools[s].slots[c].Waiting?;
      PoolShape(st.pools[s]);
      WaitsForOneThing(st, s, c);
      i := ObligationProgress(st, Token(s, c, st.pools[s].slots[c].dep));
    }
  }

  // ------------------------------------------------------------------ runs end

  /** What is counted: all messages, or the requests to one service. */
  datatype Tally = Messages | RequestsTo(service: nat)

  function RequestPrice(t: Tally, to: nat): nat {
    if t.Messages? || t.service == to then 1 else 0
  }

  function ReplyPrice(t: Tally): nat { if t.Messages? then 1 else 0 }

  /** How many of these are still to be handled on behalf of a plan: its calls, those made
      for them, and at the end the reply. */
  function Weight(t: Tally, plan: Plan): nat {
    match plan
    case Reply => ReplyPrice(t)
    case Call(service, theirs, rest) => RequestPrice(t, service) + Weight(t, theirs) + Weight(t, rest)
  }

  function MsgWeight(t: Tally): Msg -> nat {
    (m: Msg) => if m.Req? then RequestPrice(t, m.to) + Weight(t, m.plan) else ReplyPrice(t)
  }

  function SlotWeight(t: Tally): Slot -> nat { (v: Slot) => if v.Waiting? then Weight(t, v.rest) else 0 }

  function PoolWeight(t: Tally): Pool -> nat { (p: Pool) => Sum(SlotWeight(t), p.slots) }

  /** How many are still to be handled on behalf of all that is in transit or suspended. */
  function Due(t: Tally, st: State): nat {
    Sum(MsgWeight(t), st.net) + Sum(PoolWeight(t), st.pools)
  }

  function Listening(p: Pool): nat { if p.disabled then 0 else 1 }

  /** Each message handled is due no more, and a refusal stops a service listening. */
  function Measure(st: State): nat {
    2 * Due(Messages, st) + Sum(Listening, st.pools)
  }

  /** One message read, one sent, and slot `c` of service `s` changed. */
  lemma DueChanges(t: Tally, st: State, i: nat, out: Msg, s: nat, q: Pool, c: nat, v: Slot)
    requires i < |st.net| && s < |st.pools| && c < |st.pools[s].slots| && q.slots == st.pools[s].slots[c := v]
    ensures Due(t, st.(net := Without(st.net, i) + [out], pools := st.pools[s := q]))
        + MsgWeight(t)(st.net[i]) + SlotWeight(t)(st.pools[s].slots[c])
      == Due(t, st) + MsgWeight(t)(out) + SlotWeight(t)(v)
  {
    SumReplace(MsgWeight(t), st.net, i, out);
    SumUpdate(SlotWeight(t), st.pools[s].slots, c, v);
    SumUpdate(PoolWeight(t), st.pools, s, q);
  }

  /** One message read, one sent, slot `c` of service `s` changed, for less work. */
  lemma LessWork(st: State, i: nat, out: Msg, s: nat, q: Pool, c: nat, v: Slot)
    requires i < |st.net| && s < |st.pools| && c < |st.pools[s].slots| && q.slots == st.pools[s].slots[c := v]
    requires MsgWeight(Messages)(out) + SlotWeight(Messages)(v)
      < MsgWeight(Messages)(st.net[i]) + SlotWeight(Messages)(st.pools[s].slots[c])
    ensures Measure(st.(net := Without(st.net, i) + [out], pools := st.pools[s := q])) < Measure(st)
  {
    DueChanges(Messages, st, i, out, s, q, c, v);
    SumUpdate(Listening, st.pools, s, q);
  }

  lemma HandleDecreases(st: State, i: nat)
    requires PoolsOk(st.pools) && Enabled(st, i)
    ensures Measure(Handle(st, i)) < Measure(st)
  {
    hide Sum, Oldest, Measure;
    var m := st.net[i];
    if m.Rep? && IsClient(m.to) {
      DeliverDecreases(st, i);
    } else if m.Rep? {
      var slot := st.pools[m.to].slots[m.id];
      var (q, e) := Resume(st.pools[m.to], m.id);
      var v := if slot.rest.Reply? then Free else Waiting(slot.up, slot.rest.service, slot.rest.rest);
      LessWork(st, i, Emitted(m.to, e), m.to, q, m.id, v);
    } else if !IsAsync(m.to) {
      var p := st.pools[m.to];
      assert st.pools[m.to := p] == st.pools && p.slots[0 := p.slots[0]] == p.slots;
      LessWork(st, i, Rep(m.to, m.from, m.id), m.to, p, 0, p.slots[0]);
    } else if st.pools[m.to].available == [] {
      RefusalDecreases(st, m.to);
    } else {
      var p, up := st.pools[m.to], Upstream(m.from, m.id);
      assert PoolOk(p);
      StartOk(p, up, m.plan);
      var (q, e) := Start(p, up, m.plan);
      var co := p.available[|p.available| - 1];
      var v := if m.plan.Reply? then p.slots[co] else Waiting(up, m.plan.service, m.plan.rest);
      assert q.slots == p.slots[co := v];
      LessWork(st, i, Emitted(m.to, e), m.to, q, co, v);
    }
  }

  lemma DeliverDecreases(st: State, i: nat)
    requires i < |st.net|
    ensures forall done :: Measure(st.(net := Without(st.net, i), answered := done)) < Measure(st)
  {
    SumAround(MsgWeight(Messages), st.net, i);
  }

  lemma RefusalDecreases(st: State, s: nat)
    requires s < |st.pools| && !st.pools[s].disabled
    ensures Measure(st.(pools := st.pools[s := Refuse(st.pools[s])])) < Measure(st)
  {
    SumUpdate(PoolWeight(Messages), st.pools, s, Refuse(st.pools[s]));
    SumUpdate(Listening, st.pools, s, Refuse(st.pools[s]));
  }

  // ------------------------------------------- every call of every plan is made

  /** A request is turned down and stays where it is, for lack of a coroutine. */
  ghost predicate TurnedDown(st: State, i: nat)
    requires PoolsOk(st.pools) && Enabled(st, i)
  {
    st.net[i].Req? && IsAsync(st.net[i].to) && st.pools[st.net[i].to].available == []
  }

  /** What handling message `i` takes off: the message itself. */
  ghost function Spent(t: Tally, st: State, i: nat): nat
    requires PoolsOk(st.pools) && Enabled(st, i)
  {
    if TurnedDown(st, i) then 0 else if st.net[i].Req? then RequestPrice(t, st.net[i].to) else ReplyPrice(t)
  }

  /** Handling a message takes exactly that message off what is due, whatever is counted:
      every call of its plan is still made, by its service and those it calls. */
  lemma HandleSpends(t: Tally, st: State, i: nat)
    requires Inv(st) && Enabled(st, i)
    ensures Due(t, Handle(st, i)) + Spent(t, st, i) == Due(t, st)
  {
    hide Sum, Oldest, Due, Conserved, ClientsOk;
    var m := st.net[i];
    if m.Rep? && IsClient(m.to) {
      DeliverSpends(t, st, i);
    } else if m.Rep? {
      var slot := st.pools[m.to].slots[m.id];
      var (q, e) := Resume(st.pools[m.to], m.id);
      var v := if slot.rest.Reply? then Free else Waiting(slot.up, slot.rest.service, slot.rest.rest);
      DueChanges(t, st, i, Emitted(m.to, e), m.to, q, m.id, v);
    } else if !IsAsync(m.to) {
      SyncReplies(st, i);
      var p := st.pools[m.to];
      assert st.pools[m.to := p] == st.pools && p.slots[0 := p.slots[0]] == p.slots;
      DueChanges(t, st, i, Rep(m.to, m.from, m.id), m.to, p, 0, p.slots[0]);
    } else if st.pools[m.to].available == [] {
      RefusalSpends(t, st, m.to);
    } else {
      var p, up := st.pools[m.to], Upstream(m.from, m.id);
      assert PoolOk(p);
      StartOk(p, up, m.plan);
      var (q, e) := Start(p, up, m.plan);
      var co := p.available[|p.available| - 1];
      TopIsFree(p);
      var v := if m.plan.Reply? then p.slots[co] else Waiting(up, m.plan.service, m.plan.rest);
      assert q.slots == p.slots[co := v];
      DueChanges(t, st, i, Emitted(m.to, e), m.to, q, co, v);
    }
  }

  /** What goes out when a reply resumes a coroutine: its next call, under its own id, or at
      the end of its plan the reply to the request it was started for. */
  lemma ResumedSends(st: State, i: nat)
    requires Inv(st) && Enabled(st, i) && st.net[i].Rep? && !IsClient(st.net[i].to)
    ensures var m := st.net[i]; var st' := Handle(st, i); var v := st.pools[m.to].slots[m.id];
      && v.Waiting? && |st'.pools| == NUM_SERVICES && |st'.pools[m.to].slots| == MAX_COROUTINES
      && match v.rest
         case Call(d, theirs, rest) =>
           st'.net == Without(st.net, i) + [Req(m.to, d, m.id, theirs)]
           && st'.pools[m.to].slots[m.id] == Waiting(v.up, d, rest)
         case Reply =>
           st'.net == Without(st.net, i) + [Rep(m.to, v.up.sock, v.up.id)] && st'.pools[m.to].slots[m.id].Free?
  {
    hide PlansOk, Conserved, ClientsOk, Oldest;
    assert PoolOk(st.pools[st.net[i].to]);
  }

  /** What goes out when a request is taken: the first call of its handler, under the id of
      the coroutine on top of the stack, which then waits; or at once the reply. */
  lemma AcceptedSends(st: State, i: nat)
    requires Inv(st) && Enabled(st, i) && st.net[i].Req? && IsAsync(st.net[i].to)
    requires st.pools[st.net[i].to].available != []
    ensures var m := st.net[i]; var st' := Handle(st, i); var free := st.pools[m.to].available;
      var co := free[|free| - 1];
      && |st'.pools| == NUM_SERVICES && |st'.pools[m.to].slots| == MAX_COROUTINES && co < MAX_COROUTINES
      && match m.plan
         case Call(d, theirs, rest) =>
           st'.net == Without(st.net, i) + [Req(m.to, d, co, theirs)]
           && st'.pools[m.to].slots[co] == Waiting(Upstream(m.from, m.id), d, rest)
         case Reply =>
           st'.net == Without(st.net, i) + [Rep(m.to, m.from, m.id)] && st'.pools == st.pools
  {
    hide PlansOk, Conserved, ClientsOk, Oldest, PoolOk, Start;
    var m := st.net[i];
    assert PoolOk(st.pools[m.to]);
    StartOk(st.pools[m.to], Upstream(m.from, m.id), m.plan);
    assert st.pools[m.to := st.pools[m.to]] == st.pools;
  }

  /** A synchronous service has nobody to call. */
  lemma SyncReplies(st: State, i: nat)
    requires PlansOk(st) && i < |st.net| && st.net[i].Req? && !IsAsync(st.net[i].to)
    ensures st.net[i].plan == Reply
  {
    assert MsgOk(st.net[i]);
  }

  lemma DeliverSpends(t: Tally, st: State, i: nat)
    requires i < |st.net|
    ensures forall done ::
      Due(t, st.(net := Without(st.net, i), answered := done)) + MsgWeight(t)(st.net[i]) == Due(t, st)
  {
    SumAround(MsgWeight(t), st.net, i);
  }

  lemma RefusalSpends(t: Tally, st: State, s: nat)
    requires s < |st.pools|
    ensures Due(t, st.(pools := st.pools[s := Refuse(st.pools[s])])) == Due(t, st)
  {
    SumUpdate(PoolWeight(t), st.pools, s, Refuse(st.pools[s]));
  }

  lemma ArriveBrings(t: Tally, st: State, conn: nat, id: nat, plan: Plan)
    ensures Due(t, Arrive(st, conn, id, plan)) == Due(t, st) + RequestPrice(t, FRONTEND) + Weight(t, plan)
  {
    SumConcat(MsgWeight(t), st.net, [Req(conn, FRONTEND, id, plan)]);
    SumOne(MsgWeight(t), Req(conn, FRONTEND, id, plan));
  }

  lemma IdleOwesNothing(t: Tally, st: State)
    requires Idle(st)
    ensures Due(t, st) == 0
  {
    SumZero(MsgWeight(t), st.net);
    forall s | 0 <= s < |st.pools|
      ensures PoolWeight(t)(st.pools[s]) == 0
    {
      SumZero(SlotWeight(t), st.pools[s].slots);
    }
    SumZero(PoolWeight(t), st.pools);
  }

  /** A browser's request whose handler first calls service `d`: that call goes out, under
      the id of the coroutine that makes it, and no reply does. */
  lemma FirstCallGoesOut(conn: nat, id: nat, d: nat, theirs: Plan, rest: Plan)
    requires IsClient(conn)
    ensures var st := Arrive(Initial(), conn, id, Call(d, theirs, rest));
      && PoolsOk(st.pools) && Enabled(st, 0)
      && Handle(st, 0).net == [Req(FRONTEND, d, 31, theirs)]
      && Handle(st, 0).pools[FRONTEND].slots[31] == Waiting(Upstream(conn, id), d, rest)
      && Handle(st, 0).answered == multiset{}
  {
    NewPoolOk();
    var st := Arrive(Initial(), conn, id, Call(d, theirs, rest));
    assert st.net == [Req(conn, FRONTEND, id, Call(d, theirs, rest))];
    assert Without(st.net, 0) == [];
    StartOk(NewPool(), Upstream(conn, id), Call(d, theirs, rest));
  }

  /** When no service can go on there is nothing left to do. */
  lemma QuiescentIsDone(st: State)
    requires Inv(st) && forall i :: !Enabled(st, i)
    ensures Idle(st) && st.answered == st.arrived
  {
    hide PoolsOk, PlansOk, ClientsOk, Conserved;
    if st.answered != st.arrived || !Idle(st) {
      var _ := Progress(st);
    }
  }
}
