/** The coroutine pool of an asynchronous service: a stack of free coroutines,
    coroutines suspended on a downstream reply, and back-pressure. */
module Coroutines {

  const MAX_COROUTINES: nat := 32

  /** Who is to get the reply: the connection and the id its request carried. */
  datatype Upstream = Upstream(sock: nat, id: nat)

  /** What a handler does from some point on: it replies, or it first calls another
      service, which does `theirs`, and goes on with `rest`. Every handler run is
      some plan. */
  datatype Plan = Reply | Call(service: nat, theirs: Plan, rest: Plan)

  datatype Slot = Free | Waiting(up: Upstream, dep: nat, rest: Plan)

  datatype Pool = Pool(slots: seq<Slot>, available: seq<nat>, disabled: bool)

  /** What a coroutine does when it runs: its next downstream call, or the reply. */
  datatype Effect = Calls(co: nat, service: nat, theirs: Plan) | Replies(up: Upstream)

  ghost predicate PoolOk(p: Pool) {
    && |p.slots| == MAX_COROUTINES
    && (forall i :: 0 <= i < |p.available| ==> p.available[i] < MAX_COROUTINES && p.slots[p.available[i]].Free?)
    && (forall i, j :: 0 <= i < j < |p.available| ==> p.available[i] != p.available[j])
    && (forall c :: 0 <= c < MAX_COROUTINES && p.slots[c].Free? ==> c in p.available)
    && (p.disabled ==> p.available == [])
  }

  function NewPool(): Pool {
    Pool(seq(MAX_COROUTINES, _ => Free), seq(MAX_COROUTINES, i => i), false)
  }

  /** Runs coroutine `co`, which is not on the free stack, until it suspends or ends. */
  function Continue(p: Pool, co: nat, up: Upstream, plan: Plan): (Pool, Effect)
    requires co < |p.slots|
  {
    if plan.Call? then
      (p.(slots := p.slots[co := Waiting(up, plan.service, plan.rest)]), Calls(co, plan.service, plan.theirs))
    else
      (Pool(p.slots[co := Free], p.available + [co], if |p.available| == 0 then false else p.disabled), Replies(up))
  }

  /** Takes the top free coroutine for a new request. */
  function Start(p: Pool, up: Upstream, plan: Plan): (Pool, Effect)
    requires p.available != [] && p.available[|p.available| - 1] < |p.slots|
  {
    var n := |p.available| - 1;
    Continue(p.(available := p.available[..n]), p.available[n], up, plan)
  }

  /** Resumes the coroutine a reply is for. */
  function Resume(p: Pool, co: nat): (Pool, Effect)
    requires co < |p.slots| && p.slots[co].Waiting?
  {
    Continue(p, co, p.slots[co].up, p.slots[co].rest)
  }

  /** No free coroutine: upstream reception stops until one ends. */
  function Refuse(p: Pool): Pool {
    p.(disabled := true)
  }

  lemma NewPoolOk()
    ensures PoolOk(NewPool())
  {
    forall c | 0 <= c < MAX_COROUTINES
      ensures c in NewPool().available
    {
      assert NewPool().available[c] == c;
    }
  }

  /** The coroutine on top of the free stack suspends. */
  lemma TopSuspends(p: Pool, v: Slot)
    requires PoolOk(p) && p.available != [] && v.Waiting?
    ensures var n := |p.available| - 1;
      p.available[n] < |p.slots| && PoolOk(p.(slots := p.slots[p.available[n] := v], available := p.available[..n]))
  {
    var n := |p.available| - 1;
    var co := p.available[n];
    var slots := p.slots[co := v];
    forall c | 0 <= c < MAX_COROUTINES && slots[c].Free?
      ensures c in p.available[..n]
    {
      assert c in p.available && c != co;
      var j :| 0 <= j < |p.available| && p.available[j] == c;
      assert j < n && p.available[..n][j] == c;
    }
  }

  lemma StartOk(p: Pool, up: Upstream, plan: Plan)
    requires PoolOk(p) && p.available != []
    ensures p.available[|p.available| - 1] < MAX_COROUTINES == |p.slots|
    ensures PoolOk(Start(p, up, plan).0)
    ensures Start(p, up, plan).1
      == if plan.Reply? then Replies(up) else Calls(p.available[|p.available| - 1], plan.service, plan.theirs)
    ensures plan.Reply? ==> Start(p, up, plan).0 == p
    ensures plan.Call? ==> var co := p.available[|p.available| - 1];
      p.slots[co].Free? && Start(p, up, plan).0.slots == p.slots[co := Waiting(up, plan.service, plan.rest)]
      && |Start(p, up, plan).0.available| == |p.available| - 1
  {
    hide PoolOk;
    TopIsFree(p);
    var n := |p.available| - 1;
    var co := p.available[n];
    if plan.Reply? {
      assert p.available == p.available[..n] + [co] && p.slots[co := Free] == p.slots;
    } else {
      TopSuspends(p, Waiting(up, plan.service, plan.rest));
    }
  }

  lemma TopIsFree(p: Pool)
    requires PoolOk(p) && p.available != []
    ensures |p.slots| == MAX_COROUTINES && p.available[|p.available| - 1] < MAX_COROUTINES
    ensures p.slots[p.available[|p.available| - 1]].Free? && !p.disabled
  {}

  lemma ResumeOk(p: Pool, co: nat)
    requires PoolOk(p) && co < MAX_COROUTINES && p.slots[co].Waiting?
    ensures PoolOk(Resume(p, co).0)
    ensures co !in p.available
  {
    var (q, _) := Resume(p, co);
    if p.slots[co].rest.Reply? {
      forall i | 0 <= i < |q.available|
        ensures q.available[i] < MAX_COROUTINES && q.slots[q.available[i]].Free?
      {}
    }
  }

  lemma RefuseOk(p: Pool)
    requires PoolOk(p) && p.available == []
    ensures PoolOk(Refuse(p))
  {}

  /** With every coroutine suspended the stack is empty, and the other way round. */
  lemma NoneFree(p: Pool)
    requires PoolOk(p)
    ensures p.available == [] <==> forall c :: 0 <= c < MAX_COROUTINES ==> p.slots[c].Waiting?
  {
    if p.available != [] {
      assert p.slots[p.available[0]].Free?;
    }
  }

  // ----------------------------------------------------------------- one bulk

  datatype Request = Request(up: Upstream, plan: Plan)

  /** What becomes of a bulk; the process exits if it is out of coroutines while
      bytes of the bulk are still unread. */
  datatype Bulk = Served(pool: Pool, effects: seq<Effect>) | OutOfCoroutines

  /** What happens to the requests `rs` of one bulk; `partial` tells that some of its
      bytes, the start of one more request, follow them. */
  function Receive(p: Pool, rs: seq<Request>, partial: bool): Bulk
    requires PoolOk(p)
    decreases rs
  {
    if rs == [] then (if partial && p.available == [] then OutOfCoroutines else Served(p, []))
    else if p.available == [] then OutOfCoroutines
    else
      StartOk(p, rs[0].up, rs[0].plan);
      var (q, e) := Start(p, rs[0].up, rs[0].plan);
      match Receive(q, rs[1..], partial)
      case OutOfCoroutines => OutOfCoroutines
      case Served(q', es) => Served(q', [e] + es)
  }

  /** How many of the requests suspend on a downstream call. */
  function Suspending(rs: seq<Request>): nat {
    if rs == [] then 0 else (if rs[0].plan.Reply? then 0 else 1) + Suspending(rs[1..])
  }

  /** The process exits exactly when requests of the bulk use up the free coroutines
      and at least one byte follows them. */
  lemma {:induction false} BulkExits(p: Pool, rs: seq<Request>, partial: bool)
    requires PoolOk(p)
    ensures Receive(p, rs, partial).OutOfCoroutines? <==>
      (rs != [] && Suspending(rs[..|rs| - 1]) >= |p.available|) || (partial && Suspending(rs) >= |p.available|)
    ensures Receive(p, rs, partial).Served? ==>
      PoolOk(Receive(p, rs, partial).pool) && |Receive(p, rs, partial).effects| == |rs|
      && |Receive(p, rs, partial).pool.available| == |p.available| - Suspending(rs)
    decreases rs
  {
    hide PoolOk, Start;
    if rs != [] && p.available != [] {
      StartOk(p, rs[0].up, rs[0].plan);
      BulkExits(Start(p, rs[0].up, rs[0].plan).0, rs[1..], partial);
      if |rs| > 1 {
        assert rs[..|rs| - 1][1..] == rs[1..][..|rs| - 2];
      }
    } else if rs != [] {
      assert Suspending(rs[..|rs| - 1]) >= 0;
    }
  }

  lemma {:induction false} AllSuspend(rs: seq<Request>)
    requires forall i :: 0 <= i < |rs| ==> rs[i].plan.Call?
    ensures Suspending(rs) == |rs|
  {
    if rs != [] {
      AllSuspend(rs[1..]);
    }
  }

  /** Thirty-three requests in one bulk, each of which calls another service, end a
      process that has just started. */
  lemma LargeBulkExits(up: Upstream, service: nat)
    ensures var rs := seq(MAX_COROUTINES + 1, _ => Request(up, Call(service, Reply, Reply)));
      PoolOk(NewPool()) && Receive(NewPool(), rs, false).OutOfCoroutines?
  {
    var rs := seq(MAX_COROUTINES + 1, _ => Request(up, Call(service, Reply, Reply)));
    NewPoolOk();
    BulkExits(NewPool(), rs, false);
    AllSuspend(rs[..|rs| - 1]);
  }

  function Later(es: seq<Effect>, b: Bulk): Bulk {
    match b
    case OutOfCoroutines => OutOfCoroutines
    case Served(q, fs) => Served(q, es + fs)
  }

  lemma ReceiveOne(p: Pool, rs: seq<Request>, partial: bool)
    requires PoolOk(p)
    ensures rs == [] ==>
      Receive(p, rs, partial) == if partial && p.available == [] then OutOfCoroutines else Served(p, [])
    ensures rs != [] && p.available == [] ==> Receive(p, rs, partial) == OutOfCoroutines
    ensures rs != [] && p.available != [] ==>
      p.available[|p.available| - 1] < |p.slots| && PoolOk(Start(p, rs[0].up, rs[0].plan).0)
      && Receive(p, rs, partial)
         == Later([Start(p, rs[0].up, rs[0].plan).1], Receive(Start(p, rs[0].up, rs[0].plan).0, rs[1..], partial))
  {
    if rs != [] && p.available != [] {
      StartOk(p, rs[0].up, rs[0].plan);
    }
  }

  lemma StartMoves(p: Pool, up: Upstream, plan: Plan)
    requires PoolOk(p) && p.available != []
    ensures var q := Start(p, up, plan).0; var co := p.available[|p.available| - 1];
      && co < MAX_COROUTINES == |p.slots| == |q.slots| && p.slots[co].Free?
      && (forall c :: 0 <= c < MAX_COROUTINES && c != co ==> q.slots[c] == p.slots[c])
      && q.slots[co] == if plan.Reply? then Free else Waiting(up, plan.service, plan.rest)
  {
    hide PoolOk;
    TopIsFree(p);
    StartOk(p, up, plan);
  }

  lemma {:induction false} OthersWait(p: Pool, rs: seq<Request>, partial: bool, c: nat)
    requires PoolOk(p) && Receive(p, rs, partial).Served? && c < |p.slots| && p.slots[c].Waiting?
    ensures var q := Receive(p, rs, partial).pool; c < |q.slots| && q.slots[c] == p.slots[c]
    decreases rs
  {
    hide PoolOk, Start;
    if rs != [] {
      StartOk(p, rs[0].up, rs[0].plan);
      StartMoves(p, rs[0].up, rs[0].plan);
      OthersWait(Start(p, rs[0].up, rs[0].plan).0, rs[1..], partial, c);
    }
  }

  /** What goes out for the requests of a bulk, one by one and in their order: the reply to
      the very connection and id, or the first call of the handler, from a coroutine that
      was free and now waits for it with the rest to do. */
  lemma {:induction false} EachGoesOut(p: Pool, rs: seq<Request>, partial: bool, k: nat)
    requires PoolOk(p) && Receive(p, rs, partial).Served? && k < |rs|
    ensures var b := Receive(p, rs, partial);
      && |b.effects| == |rs| && |b.pool.slots| == |p.slots| == MAX_COROUTINES
      && match rs[k].plan
         case Reply => b.effects[k] == Replies(rs[k].up)
         case Call(d, theirs, rest) =>
           exists co: nat :: co < MAX_COROUTINES && p.slots[co].Free? && b.effects[k] == Calls(co, d, theirs)
                             && b.pool.slots[co] == Waiting(rs[k].up, d, rest)
    decreases rs
  {
    hide PoolOk, Start;
    StartOk(p, rs[0].up, rs[0].plan);
    StartMoves(p, rs[0].up, rs[0].plan);
    var (q, e) := Start(p, rs[0].up, rs[0].plan);
    var rest := Receive(q, rs[1..], partial);
    if |rs| == 1 {
      ReceiveOne(q, rs[1..], partial);
    }
    if k > 0 {
      EachGoesOut(q, rs[1..], partial, k - 1);
      assert rs[k] == rs[1..][k - 1];
      if rs[k].plan.Call? {
        var co: nat :| co < MAX_COROUTINES && q.slots[co].Free?
                       && rest.effects[k - 1] == Calls(co, rs[k].plan.service, rs[k].plan.theirs)
                       && rest.pool.slots[co] == Waiting(rs[k].up, rs[k].plan.service, rs[k].plan.rest);
        assert p.slots[co].Free?;
      }
    } else {
      if |rs| > 1 {
        EachGoesOut(q, rs[1..], partial, 0);
      }
      if rs[0].plan.Call? {
        OthersWait(q, rs[1..], partial, p.available[|p.available| - 1]);
      }
    }
  }

  /** A suspended coroutine leaves room on the free stack. */
  lemma SomeSuspended(p: Pool, c: nat)
    requires PoolOk(p) && c < MAX_COROUTINES && p.slots[c].Waiting?
    ensures |p.available| < MAX_COROUTINES
  {
    RoomLeft(p.available, MAX_COROUTINES, c);
  }

  lemma RoomLeft(a: seq<nat>, n: nat, missing: nat)
    requires forall i, j :: 0 <= i < j < |a| ==> a[i] != a[j]
    requires forall i :: 0 <= i < |a| ==> a[i] < n && a[i] != missing
    requires missing < n
    ensures |a| < n
  {
    var s := set i | 0 <= i < |a| :: a[i];
    StackSize(a);
    assert s <= Below(n) - {missing};
    Smaller(s, Below(n) - {missing});
  }

  ghost function Below(n: nat): (s: set<nat>)
    ensures |s| == n && forall i: nat :: i in s <==> i < n
  {
    if n == 0 then {} else Below(n - 1) + {n - 1}
  }

  lemma {:induction false} StackSize(a: seq<nat>)
    requires forall i, j :: 0 <= i < j < |a| ==> a[i] != a[j]
    ensures |set i | 0 <= i < |a| :: a[i]| == |a|
  {
    if a != [] {
      var init := a[..|a| - 1];
      StackSize(init);
      assert (set i | 0 <= i < |a| :: a[i]) == (set i | 0 <= i < |init| :: init[i]) + {a[|a| - 1]};
    }
  }

  lemma {:induction false} Smaller<T>(a: set<T>, b: set<T>)
    requires a <= b
    ensures |a| <= |b|
  {
    assert b == a + (b - a);
  }
}
