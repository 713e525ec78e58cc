/** The socket table of the poll loop: parallel arrays of sockets, readiness flags
    and partial messages, of which removal shifts the first two only. */
module SocketTable {
  import opened Messages

  /** The arrays in full; the first `n` slots are in use. Slot 0 listens, the next
      ones are the connections to the services this one depends on. */
  datatype Table = Table(socks: seq<nat>, ready: seq<bool>, pending: seq<Bytes>, n: nat)

  ghost predicate TableOk(t: Table, dependencies: nat) {
    && |t.socks| == |t.ready| == |t.pending| && dependencies < t.n <= |t.socks|
    && (forall i, j :: 0 <= i < j < t.n ==> t.socks[i] != t.socks[j])
  }

  /** What a handler makes of a partial message and the bytes that follow it. */
  type Leftover = (Bytes, Bytes) -> Bytes

  datatype Event = Reads(slot: nat, bytes: Bytes) | Closed(slot: nat) | Connects(sock: nat)

  ghost predicate Possible(t: Table, dependencies: nat, e: Event) {
    match e
    case Reads(i, _) => 1 <= i < t.n
    case Closed(i) => dependencies < i < t.n
    case Connects(s) => t.n < |t.socks| && s !in t.socks[..t.n]
  }

  /** Slots `i + 1..n` move down by one; the last one keeps a copy. */
  function Shift<T>(a: seq<T>, i: nat, n: nat): (r: seq<T>)
    requires i < n <= |a|
    ensures |r| == |a|
    ensures forall j :: 0 <= j < |a| ==> r[j] == if i <= j < n - 1 then a[j + 1] else a[j]
  {
    a[..i] + a[i + 1..n] + a[n - 1..]
  }

  lemma ShiftNone<T>(a: seq<T>, i: nat)
    requires i < |a|
    ensures Shift(a, i, i + 1) == a
  {}

  lemma ShiftTaken<T>(a: seq<T>, i: nat, n: nat)
    requires i < n <= |a|
    ensures Shift(a, i, n)[..n - 1] == a[..i] + a[i + 1..n]
  {}

  lemma ShiftMore<T>(a: seq<T>, i: nat, n: nat)
    requires i < n < |a|
    ensures var s := Shift(a, i, n); |s| == |a| && Shift(a, i, n + 1) == s[n - 1 := s[n]]
  {}

  function Step(t: Table, e: Event, left: Leftover): Table
    requires |t.socks| == |t.ready| == |t.pending| && t.n <= |t.socks|
    requires match e case Reads(i, _) => i < t.n case Closed(i) => i < t.n case Connects(_) => t.n < |t.socks|
  {
    match e
    case Reads(i, b) => t.(pending := t.pending[i := left(t.pending[i], b)])
    case Closed(i) => t.(socks := Shift(t.socks, i, t.n), ready := Shift(t.ready, i, t.n), n := t.n - 1)
    case Connects(s) => t.(socks := t.socks[t.n := s], n := t.n + 1)
  }

  /** Sockets stay distinct and in order, and dependencies keep their slots. */
  lemma StepKeeps(t: Table, dependencies: nat, e: Event, left: Leftover)
    requires TableOk(t, dependencies) && Possible(t, dependencies, e)
    ensures var t' := Step(t, e, left);
      && TableOk(t', dependencies) && t'.socks[..dependencies + 1] == t.socks[..dependencies + 1]
      && t'.socks[..t'.n] == match e
                             case Reads(_, _) => t.socks[..t.n]
                             case Closed(i) => t.socks[..i] + t.socks[i + 1..t.n]
                             case Connects(s) => t.socks[..t.n] + [s]
    ensures var t' := Step(t, e, left);
      if e.Closed? then t'.ready[..t'.n] == t.ready[..e.slot] + t.ready[e.slot + 1..t.n] && t'.pending == t.pending
      else t'.ready == t.ready
  {
    if e.Connects? {
      assert forall i :: 0 <= i < t.n ==> t.socks[i] == t.socks[..t.n][i];
    }
  }

  // -------------------------------------------------- whose bytes are in a slot

  /** The partial message of each connection, kept by connection. */
  function OwnStep(own: seq<Bytes>, e: Event, left: Leftover): seq<Bytes>
    requires !e.Connects? ==> e.slot < |own|
  {
    match e
    case Reads(i, b) => own[i := left(own[i], b)]
    case Closed(i) => own[..i] + own[i + 1..]
    case Connects(_) => own + [[]]
  }

  /** Every connection finds its own partial message in its slot, and the next one
      to connect will find none. */
  ghost predicate Faithful(t: Table, own: seq<Bytes>) {
    && t.n <= |t.pending| && t.pending[..t.n] == own
    && forall k :: t.n <= k < |t.pending| ==> t.pending[k] == []
  }

  /** No connection from slot `i` on is in the middle of a message. */
  ghost predicate Quiet(t: Table, i: nat) {
    forall k :: i <= k < t.n <= |t.pending| ==> t.pending[k] == []
  }

  /** Removal hands the bytes of one connection to another, or leaves them for the
      next one to connect, unless nothing from that slot on is pending. */
  lemma RemovalIsFaithful(t: Table, own: seq<Bytes>, dependencies: nat, i: nat, left: Leftover)
    requires TableOk(t, dependencies) && Possible(t, dependencies, Closed(i)) && Faithful(t, own)
    ensures Faithful(Step(t, Closed(i), left), OwnStep(own, Closed(i), left)) <==> Quiet(t, i)
  {
    var t', own' := Step(t, Closed(i), left), OwnStep(own, Closed(i), left);
    assert t'.pending == t.pending;
    if Faithful(t', own') {
      SlidesToEmpty(t, own, i);
    }
    if Quiet(t, i) {
      assert t.pending[..t.n - 1] == own';
    }
  }

  lemma StepIsFaithful(t: Table, own: seq<Bytes>, dependencies: nat, e: Event, left: Leftover)
    requires TableOk(t, dependencies) && Possible(t, dependencies, e) && Faithful(t, own)
    ensures Faithful(Step(t, e, left), OwnStep(own, e, left)) <==> (e.Closed? ==> Quiet(t, e.slot))
  {
    hide Shift, Quiet;
    var t', own' := Step(t, e, left), OwnStep(own, e, left);
    if e.Closed? {
      RemovalIsFaithful(t, own, dependencies, e.slot, left);
    } else {
      assert e.Connects? ==> t.pending[t.n] == [];
      assert t'.pending[..t'.n] == own';
    }
  }

  lemma SlidesToEmpty(t: Table, own: seq<Bytes>, i: nat)
    requires i < t.n <= |t.pending| && own == t.pending[..t.n] && t.pending[t.n - 1] == []
    requires t.pending[..t.n - 1] == own[..i] + own[i + 1..]
    ensures forall j :: i <= j < t.n ==> t.pending[j] == []
  {
    var j := t.n - 1;
    while j > i
      invariant i <= j < t.n
      invariant forall m :: j <= m < t.n ==> t.pending[m] == []
    {
      assert t.pending[..t.n - 1][j - 1] == (own[..i] + own[i + 1..])[j - 1] == own[j];
      j := j - 1;
    }
  }

  /** The exact condition for one removal to give every survivor its own bytes. */
  lemma RemovalMisfiles(t: Table, own: seq<Bytes>, dependencies: nat, i: nat, left: Leftover)
    requires TableOk(t, dependencies) && Possible(t, dependencies, Closed(i)) && Faithful(t, own)
    ensures var t' := Step(t, Closed(i), left);
      t'.pending[..t'.n] == OwnStep(own, Closed(i), left)
      <==> forall j :: i <= j < t.n - 1 ==> t.pending[j] == t.pending[j + 1]
  {
    var t', own' := Step(t, Closed(i), left), OwnStep(own, Closed(i), left);
    if t'.pending[..t'.n] == own' {
      forall j | i <= j < t.n - 1
        ensures t.pending[j] == t.pending[j + 1]
      {
        assert t'.pending[..t'.n][j] == own'[j] == own[j + 1];
      }
    }
    if forall j :: i <= j < t.n - 1 ==> t.pending[j] == t.pending[j + 1] {
      assert t'.pending[..t'.n] == own';
    }
  }

  /** Two clients connected, the second in the middle of a message: closing the first
      loses the second one's bytes. */
  lemma BytesGoAstray(b: byte, left: Leftover)
    ensures var t := Table([0, 1, 2, 0], [true, true, true, false], [[], [], [b], []], 3);
      TableOk(t, 0) && Faithful(t, [[], [], [b]]) && Possible(t, 0, Closed(1))
      && Step(t, Closed(1), left).socks[1] == 2 && Step(t, Closed(1), left).pending[1] == []
      && OwnStep([[], [], [b]], Closed(1), left)[1] == [b]
  {
    var own: seq<Bytes> := [[], [], [b]];
    assert own[..1] + own[2..] == [[], [b]];
  }

  // --------------------------------------------------------------------- runs

  ghost predicate IsRun(t: Table, dependencies: nat, run: seq<Event>, left: Leftover)
    requires TableOk(t, dependencies)
    decreases run
  {
    run == [] ||
    (Possible(t, dependencies, run[0]) &&
     (StepKeeps(t, dependencies, run[0], left); IsRun(Step(t, run[0], left), dependencies, run[1..], left)))
  }

  ghost function TableAfter(t: Table, dependencies: nat, run: seq<Event>, left: Leftover): Table
    requires TableOk(t, dependencies) && IsRun(t, dependencies, run, left)
    decreases run
  {
    if run == [] then t else
      StepKeeps(t, dependencies, run[0], left);
      TableAfter(Step(t, run[0], left), dependencies, run[1..], left)
  }

  lemma {:induction false} RunKeeps(t: Table, dependencies: nat, run: seq<Event>, left: Leftover)
    requires TableOk(t, dependencies) && IsRun(t, dependencies, run, left)
    ensures var r := TableAfter(t, dependencies, run, left);
      TableOk(r, dependencies) && r.socks[..dependencies + 1] == t.socks[..dependencies + 1]
    decreases run
  {
    if run != [] {
      StepKeeps(t, dependencies, run[0], left);
      RunKeeps(Step(t, run[0], left), dependencies, run[1..], left);
    }
  }

  /** Every state along the run is faithful. */
  ghost predicate AlwaysFaithful(t: Table, own: seq<Bytes>, dependencies: nat, run: seq<Event>, left: Leftover)
    requires TableOk(t, dependencies) && IsRun(t, dependencies, run, left) && |own| == t.n
    decreases run
  {
    Faithful(t, own) &&
    (run == [] ||
     (StepKeeps(t, dependencies, run[0], left);
      AlwaysFaithful(Step(t, run[0], left), OwnStep(own, run[0], left), dependencies, run[1..], left)))
  }

  /** Every removal along the run happens while nothing from its slot on is pending. */
  ghost predicate QuietRemovals(t: Table, dependencies: nat, run: seq<Event>, left: Leftover)
    requires TableOk(t, dependencies) && IsRun(t, dependencies, run, left)
    decreases run
  {
    run == [] ||
    ((run[0].Closed? ==> Quiet(t, run[0].slot)) &&
     (StepKeeps(t, dependencies, run[0], left); QuietRemovals(Step(t, run[0], left), dependencies, run[1..], left)))
  }

  lemma {:induction false} FaithfulIffQuiet(t: Table, own: seq<Bytes>, dependencies: nat, run: seq<Event>,
                                            left: Leftover)
    requires TableOk(t, dependencies) && IsRun(t, dependencies, run, left) && Faithful(t, own)
    ensures AlwaysFaithful(t, own, dependencies, run, left) <==> QuietRemovals(t, dependencies, run, left)
    decreases run
  {
    hide Faithful, Quiet, Step;
    if run != [] {
      FaithfulLength(t, own);
      StepKeeps(t, dependencies, run[0], left);
      StepIsFaithful(t, own, dependencies, run[0], left);
      if Faithful(Step(t, run[0], left), OwnStep(own, run[0], left)) {
        FaithfulIffQuiet(Step(t, run[0], left), OwnStep(own, run[0], left), dependencies, run[1..], left);
      }
    }
  }

  lemma FaithfulLength(t: Table, own: seq<Bytes>)
    requires Faithful(t, own)
    ensures |own| == t.n
  {}

  // ------------------------------------------------------------ one poll round

  /** What receiving from an upstream socket brings. */
  datatype Arrival = Delivers(bytes: Bytes) | Disconnects | OutOfCoroutines

  /** The upstream loop from slot `i` on: the table it leaves and what it did. */
  function Scan(t: Table, i: nat, arrivals: nat -> Arrival, left: Leftover): (Table, seq<Event>)
    requires |t.socks| == |t.ready| == |t.pending| && t.n <= |t.socks|
    decreases t.n - i
  {
    if i >= t.n then (t, [])
    else if !t.ready[i] then Scan(t, i + 1, arrivals, left)
    else
      match arrivals(t.socks[i])
      case OutOfCoroutines => (t, [])
      case Delivers(b) =>
        var (r, es) := Scan(Step(t, Reads(i, b), left), i + 1, arrivals, left);
        (r, [Reads(i, b)] + es)
      case Disconnects =>
        var (r, es) := Scan(Step(t, Closed(i), left), i + 1, arrivals, left);
        (r, [Closed(i)] + es)
  }

  lemma ScanUnfolds(t: Table, i: nat, arrivals: nat -> Arrival, left: Leftover)
    requires |t.socks| == |t.ready| == |t.pending| && t.n <= |t.socks|
    ensures i >= t.n ==> Scan(t, i, arrivals, left).0 == t
    ensures i < t.n ==> (Scan(t, i, arrivals, left).0 ==
      if !t.ready[i] then Scan(t, i + 1, arrivals, left).0
      else match arrivals(t.socks[i])
           case OutOfCoroutines => t
           case Delivers(b) => Scan(Step(t, Reads(i, b), left), i + 1, arrivals, left).0
           case Disconnects => Scan(Step(t, Closed(i), left), i + 1, arrivals, left).0)
  {}

  /** What the loop does at a ready slot, if it goes on at all. */
  function Visit(t: Table, i: nat, arrivals: nat -> Arrival): Event
    requires i < |t.socks| && !arrivals(t.socks[i]).OutOfCoroutines?
  {
    match arrivals(t.socks[i])
    case Disconnects => Closed(i)
    case Delivers(b) => Reads(i, b)
  }

  /** A poll round is a run. */
  lemma {:induction false} ScanIsRun(t: Table, dependencies: nat, i: nat, arrivals: nat -> Arrival, left: Leftover)
    requires TableOk(t, dependencies) && i > dependencies
    ensures var (r, es) := Scan(t, i, arrivals, left);
      IsRun(t, dependencies, es, left) && TableAfter(t, dependencies, es, left) == r
    decreases t.n - i
  {
    hide Step;
    if i < t.n {
      if !t.ready[i] {
        ScanIsRun(t, dependencies, i + 1, arrivals, left);
      } else if !arrivals(t.socks[i]).OutOfCoroutines? {
        var e := Visit(t, i, arrivals);
        StepKeeps(t, dependencies, e, left);
        var t' := Step(t, e, left);
        var es := Scan(t', i + 1, arrivals, left).1;
        ScanIsRun(t', dependencies, i + 1, arrivals, left);
        assert ([e] + es)[1..] == es;
      }
    }
  }

  /** Reads and removals at strictly increasing slots, from `i` on. */
  predicate Ascending(es: seq<Event>, i: nat) {
    es == [] || (!es[0].Connects? && es[0].slot >= i && Ascending(es[1..], es[0].slot + 1))
  }

  lemma {:induction false} AscendingFrom(es: seq<Event>, i: nat, j: nat)
    requires Ascending(es, i) && j <= i
    ensures Ascending(es, j)
  {}

  /** Each slot is visited at most once, and so is each socket. */
  lemma {:induction false} ScanVisitsOnce(t: Table, i: nat, arrivals: nat -> Arrival, left: Leftover)
    requires |t.socks| == |t.ready| == |t.pending| && t.n <= |t.socks|
    ensures Ascending(Scan(t, i, arrivals, left).1, i)
    decreases t.n - i
  {
    hide Step;
    if i < t.n {
      if !t.ready[i] {
        ScanVisitsOnce(t, i + 1, arrivals, left);
        AscendingFrom(Scan(t, i + 1, arrivals, left).1, i + 1, i);
      } else if !arrivals(t.socks[i]).OutOfCoroutines? {
        var e := Visit(t, i, arrivals);
        StepShape(t, e, left);
        ScanVisitsOnce(Step(t, e, left), i + 1, arrivals, left);
        var es := Scan(Step(t, e, left), i + 1, arrivals, left).1;
        assert ([e] + es)[1..] == es;
      }
    }
  }

  lemma StepShape(t: Table, e: Event, left: Leftover)
    requires |t.socks| == |t.ready| == |t.pending| && t.n <= |t.socks|
    requires !e.Connects? && e.slot < t.n
    ensures var t' := Step(t, e, left);
      && |t'.socks| == |t'.ready| == |t'.pending| == |t.socks| && t'.n == (if e.Closed? then t.n - 1 else t.n)
      && forall k :: 0 <= k < e.slot ==> t'.socks[k] == t.socks[k] && t'.pending[k] == t.pending[k]
  {}

  lemma {:induction false} ScanKeepsBelow(t: Table, i: nat, arrivals: nat -> Arrival, left: Leftover)
    requires |t.socks| == |t.ready| == |t.pending| && t.n <= |t.socks|
    ensures var r := Scan(t, i, arrivals, left).0;
      && |r.socks| == |t.socks| == |r.pending| && r.n <= t.n && (i <= t.n ==> i <= r.n)
      && (forall k :: 0 <= k < i && k < |t.socks| ==> r.socks[k] == t.socks[k] && r.pending[k] == t.pending[k])
    decreases t.n - i
  {
    hide Scan, Step;
    ScanUnfolds(t, i, arrivals, left);
    if i < t.n {
      if !t.ready[i] {
        ScanKeepsBelow(t, i + 1, arrivals, left);
      } else if !arrivals(t.socks[i]).OutOfCoroutines? {
        var e := Visit(t, i, arrivals);
        StepShape(t, e, left);
        ScanUnfolds(Step(t, e, left), i + 1, arrivals, left);
        ScanKeepsBelow(Step(t, e, left), i + 1, arrivals, left);
      }
    }
  }

  // ------------------------------------------------------- a round, by sockets

  /** A socket, and what was done with it: bytes read from it, or that it was closed. */
  datatype Deed = Deed(sock: nat, what: Arrival)

  /** What a run of reads and removals does with which sockets. */
  function Deeds(t: Table, es: seq<Event>, left: Leftover): seq<Deed>
    requires |t.socks| == |t.ready| == |t.pending| && t.n <= |t.socks|
    decreases es
  {
    if es == [] || es[0].Connects? || es[0].slot >= t.n then []
    else
      [Deed(t.socks[es[0].slot], if es[0].Reads? then Delivers(es[0].bytes) else Disconnects)]
      + Deeds(Step(t, es[0], left), es[1..], left)
  }

  /** What a round is to do with sockets in this order and with these flags: what is ready
      is read, or closed and the next one passed over, until coroutines run out. */
  function Round(socks: seq<nat>, ready: seq<bool>, arrivals: nat -> Arrival): seq<Deed>
    requires |socks| == |ready|
    decreases |socks|
  {
    if socks == [] then []
    else if !ready[0] then Round(socks[1..], ready[1..], arrivals)
    else
      match arrivals(socks[0])
      case OutOfCoroutines => []
      case Delivers(b) => [Deed(socks[0], Delivers(b))] + Round(socks[1..], ready[1..], arrivals)
      case Disconnects =>
        [Deed(socks[0], Disconnects)] + if |socks| == 1 then [] else Round(socks[2..], ready[2..], arrivals)
  }

  /** The round does exactly that, each socket judged by its own flag. */
  lemma {:induction false} ScanIsRound(t: Table, i: nat, arrivals: nat -> Arrival, left: Leftover)
    requires |t.socks| == |t.ready| == |t.pending| && i <= t.n <= |t.socks|
    ensures Deeds(t, Scan(t, i, arrivals, left).1, left) == Round(t.socks[i..t.n], t.ready[i..t.n], arrivals)
    decreases t.n - i
  {
    hide Step;
    var socks, ready := t.socks[i..t.n], t.ready[i..t.n];
    if i < t.n {
      assert socks[1..] == t.socks[i + 1..t.n] && ready[1..] == t.ready[i + 1..t.n];
      if !t.ready[i] {
        ScanIsRound(t, i + 1, arrivals, left);
      } else if !arrivals(t.socks[i]).OutOfCoroutines? {
        var e := Visit(t, i, arrivals);
        StepShape(t, e, left);
        StepBehind(t, e, left);
        var t' := Step(t, e, left);
        var es := Scan(t', i + 1, arrivals, left).1;
        assert ([e] + es)[1..] == es;
        if i + 1 <= t'.n {
          ScanIsRound(t', i + 1, arrivals, left);
        }
      }
    }
  }

  /** What is behind a slot that was read stays, and behind one that was removed moves up. */
  lemma StepBehind(t: Table, e: Event, left: Leftover)
    requires |t.socks| == |t.ready| == |t.pending| && t.n <= |t.socks| && !e.Connects? && e.slot < t.n
    ensures var t' := Step(t, e, left); var i := e.slot;
      && |t'.socks| == |t'.ready| == |t.socks|
      && (e.Reads? ==> t'.n == t.n && t'.socks == t.socks && t'.ready == t.ready)
      && (e.Closed? && i + 1 < t.n ==>
            && t'.n == t.n - 1 && t'.socks[i + 1..t'.n] == t.socks[i..t.n][2..]
            && t'.ready[i + 1..t'.n] == t.ready[i..t.n][2..])
  {}

  /** A round touches only sockets that were ready when it began. */
  lemma {:induction false} RoundIsReady(socks: seq<nat>, ready: seq<bool>, arrivals: nat -> Arrival, k: nat)
    returns (j: nat)
    requires |socks| == |ready| && k < |Round(socks, ready, arrivals)|
    ensures j < |socks| && ready[j] && Round(socks, ready, arrivals)[k] == Deed(socks[j], arrivals(socks[j]))
    decreases |socks|
  {
    if !ready[0] {
      j := RoundIsReady(socks[1..], ready[1..], arrivals, k);
      j := j + 1;
    } else if k == 0 {
      j := 0;
    } else if arrivals(socks[0]).Delivers? {
      j := RoundIsReady(socks[1..], ready[1..], arrivals, k - 1);
      j := j + 1;
    } else {
      j := RoundIsReady(socks[2..], ready[2..], arrivals, k - 1);
      j := j + 2;
    }
  }

  /** Every socket that was ready is read or closed, unless the one before it was closed in
      this round, or coroutines ran out at it or before. */
  lemma {:induction false} RoundIsComplete(socks: seq<nat>, ready: seq<bool>, arrivals: nat -> Arrival, j: nat)
    requires |socks| == |ready| && j < |socks| && ready[j]
    ensures
      || Deed(socks[j], arrivals(socks[j])) in Round(socks, ready, arrivals)
      || (j > 0 && ready[j - 1] && Deed(socks[j - 1], Disconnects) in Round(socks, ready, arrivals))
      || exists k :: 0 <= k <= j && ready[k] && arrivals(socks[k]).OutOfCoroutines?
    decreases |socks|
  {
    var d := if ready[0] && arrivals(socks[0]).Disconnects? then 2 else 1;
    if j >= d && !(ready[0] && arrivals(socks[0]).OutOfCoroutines?) {
      var socks', ready' := socks[d..], ready[d..];
      RoundIsComplete(socks', ready', arrivals, j - d);
      if k :| 0 <= k <= j - d && ready'[k] && arrivals(socks'[k]).OutOfCoroutines? {
        assert ready[k + d] && arrivals(socks[k + d]).OutOfCoroutines?;
      }
    }
  }

  /** The socket after a closed one takes its slot and is passed over, even if it is
      ready or has itself been closed. */
  lemma NextIsPassedOver(t: Table, i: nat, arrivals: nat -> Arrival, left: Leftover)
    requires |t.socks| == |t.ready| == |t.pending| && i + 1 < t.n <= |t.socks|
    requires t.ready[i] && arrivals(t.socks[i]).Disconnects?
    ensures var (r, es) := Scan(t, i, arrivals, left);
      && i < r.n <= |r.socks| && r.socks[i] == t.socks[i + 1]
      && es != [] && es[0] == Closed(i) && Ascending(es[1..], i + 1)
  {
    var t' := Step(t, Closed(i), left);
    ScanVisitsOnce(t', i + 1, arrivals, left);
    ScanKeepsBelow(t', i + 1, arrivals, left);
    var (r, es) := Scan(t', i + 1, arrivals, left);
    assert r.socks[i] == t'.socks[i] && ([Closed(i)] + es)[1..] == es;
  }

  /** What a whole round keeps and does. */
  lemma RoundKeeps(t: Table, dependencies: nat, arrivals: nat -> Arrival, left: Leftover)
    requires TableOk(t, dependencies)
    ensures dependencies < t.n <= |t.socks| == |t.ready| == |t.pending|
    ensures var (r, es) := Scan(t, dependencies + 1, arrivals, left);
      && TableOk(r, dependencies) && dependencies < |r.socks|
      && r.socks[..dependencies + 1] == t.socks[..dependencies + 1]
      && Deeds(t, es, left) == Round(t.socks[dependencies + 1..t.n], t.ready[dependencies + 1..t.n], arrivals)
  {
    hide Scan, Deeds, Round, TableAfter;
    ScanIsRound(t, dependencies + 1, arrivals, left);
    ScanIsRun(t, dependencies, dependencies + 1, arrivals, left);
    RunKeeps(t, dependencies, Scan(t, dependencies + 1, arrivals, left).1, left);
  }

  // ---------------------------------------------------------------- in place

  /** The arrays of `run_service`. */
  class PollTable {
    var socks: array<nat>
    var ready: array<bool>
    var pending: array<Bytes>
    var nsocks: nat
    const dependencies: nat

    ghost predicate Shaped()
      reads this
    {
      socks.Length == ready.Length == pending.Length && nsocks <= socks.Length
    }

    ghost function View(): Table
      reads this, socks, ready, pending
    {
      Table(socks[..], ready[..], pending[..], nsocks)
    }

    ghost predicate Valid()
      reads this, socks, ready, pending
    {
      Shaped() && TableOk(View(), dependencies)
    }

    /** The listening socket, the connections to the dependencies, nothing pending. */
    constructor (capacity: nat, listening: nat, downstream: seq<nat>)
      requires |downstream| < capacity && listening !in downstream
      requires forall i, j :: 0 <= i < j < |downstream| ==> downstream[i] != downstream[j]
      ensures Valid() && nsocks == dependencies + 1 == |downstream| + 1 && socks.Length == capacity
      ensures socks[..nsocks] == [listening] + downstream
      ensures forall k :: 0 <= k < capacity ==> pending[k] == []
      ensures fresh(socks) && fresh(ready) && fresh(pending)
    {
      dependencies := |downstream|;
      socks := new nat[capacity];
      ready := new bool[capacity];
      pending := new Bytes[capacity](_ => []);
      nsocks := 1;
      new;
      for i := 0 to |downstream|
        invariant nsocks == i + 1 && Shaped() && socks.Length == capacity
        invariant fresh(socks) && fresh(ready) && fresh(pending)
        invariant socks[1..nsocks] == downstream[..i]
        invariant forall k :: 0 <= k < capacity ==> pending[k] == []
      {
        socks[nsocks] := downstream[i];
        nsocks := nsocks + 1;
      }
      socks[0] := listening;
      assert socks[1..nsocks] == downstream[..|downstream|] == downstream;
      assert socks[..nsocks] == [listening] + downstream;
      assert forall i :: 0 <= i < nsocks ==> socks[i] == ([listening] + downstream)[i];
    }

    /** Takes the closed socket in slot `i` out and moves the others down. */
    method Remove(i: nat, ghost left: Leftover)
      requires Shaped() && i < nsocks
      modifies this`nsocks, socks, ready
      ensures Shaped() && View() == Step(old(View()), Closed(i), left)
      ensures nsocks == old(nsocks) - 1 && pending[..] == old(pending[..])
      ensures socks[..nsocks] == old(socks[..])[..i] + old(socks[..])[i + 1..old(nsocks)]
      ensures ready[..nsocks] == old(ready[..])[..i] + old(ready[..])[i + 1..old(nsocks)]
    {
      hide Shift;
      ghost var t := View();
      ShiftNone(t.socks, i);
      ShiftNone(t.ready, i);
      nsocks := nsocks - 1;
      for j := i to nsocks
        invariant Shaped() && nsocks == t.n - 1 && pending[..] == t.pending
        invariant socks[..] == Shift(t.socks, i, j + 1) && ready[..] == Shift(t.ready, i, j + 1)
      {
        ShiftMore(t.socks, i, j + 1);
        ShiftMore(t.ready, i, j + 1);
        assert socks[j + 1] == socks[..][j + 1] && ready[j + 1] == ready[..][j + 1];
        socks[j] := socks[j + 1];
        ready[j] := ready[j + 1];
      }
      ShiftTaken(t.socks, i, t.n);
      ShiftTaken(t.ready, i, t.n);
      assert socks[..nsocks] == socks[..][..nsocks] && ready[..nsocks] == ready[..][..nsocks];
    }

    /** Reads from the socket in slot `i`. */
    method Receive(i: nat, bytes: Bytes, left: Leftover)
      requires Shaped() && i < nsocks
      modifies pending
      ensures View() == Step(old(View()), Reads(i, bytes), left)
      ensures pending[..] == old(pending[..])[i := left(old(pending[i]), bytes)]
    {
      pending[i] := left(pending[i], bytes);
    }

    /** Handles the upstream sockets that are ready, as long as there are coroutines;
        none at all while upstream reception is disabled. */
    method HandleUpstreams(disabled: bool, arrivals: nat -> Arrival, left: Leftover)
      requires Valid()
      modifies this`nsocks, socks, ready, pending
      ensures Valid()
      ensures View() == if disabled then old(View()) else Scan(old(View()), dependencies + 1, arrivals, left).0
      ensures socks[..dependencies + 1] == old(socks[..dependencies + 1])
      ensures !disabled ==>
        Deeds(old(View()), Scan(old(View()), dependencies + 1, arrivals, left).1, left)
        == Round(old(socks[dependencies + 1..nsocks]), old(ready[dependencies + 1..nsocks]), arrivals)
    {
      hide Scan, TableOk, Shift, Step, Deeds, Round;
      ghost var t := View();
      RoundKeeps(t, dependencies, arrivals, left);
      var npoll := if disabled then dependencies + 1 else nsocks;
      var i := dependencies + 1;
      while i < npoll
        invariant Shaped() && dependencies < i
        invariant disabled ==> i == npoll && View() == t
        invariant !disabled ==> npoll == nsocks
        invariant !disabled ==> Scan(View(), i, arrivals, left).0 == Scan(t, dependencies + 1, arrivals, left).0
        decreases npoll - i
      {
        ScanUnfolds(View(), i, arrivals, left);
        if ready[i] {
          match arrivals(socks[i]) {
            case OutOfCoroutines =>
              break;
            case Delivers(bytes) =>
              Receive(i, bytes, left);
            case Disconnects =>
              Remove(i, left);
              npoll := npoll - 1;
          }
        }
        i := i + 1;
      }
      ScanUnfolds(View(), i, arrivals, left);
    }

    /** A new connection goes to the first unused slot; the process exits if the
        table is full. */
    method Accept(sock: nat, ghost left: Leftover) returns (exit: bool)
      requires Valid() && sock !in socks[..nsocks]
      modifies this`nsocks, socks
      ensures exit <==> old(nsocks) == socks.Length
      ensures exit ==> View() == old(View())
      ensures !exit ==> Valid() && View() == Step(old(View()), Connects(sock), left)
      ensures !exit ==> socks[..nsocks] == old(socks[..nsocks]) + [sock] && pending[..] == old(pending[..])
    {
      if nsocks == socks.Length {
        return true;
      }
      StepKeeps(View(), dependencies, Connects(sock), left);
      socks[nsocks] := sock;
      nsocks := nsocks + 1;
      return false;
    }
  }
}
