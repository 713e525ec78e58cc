/** The socket table and the streams of its connections: whose unparsed bytes a slot
    of the table holds. */
module Connections {
  import opened Messages
  import opened SocketTable

  /** What the driver loop leaves pending of `p` followed by the bytes `b`: the rest
      of the greedy parse, by `StreamTheory.DriveIsParse`. */
  function Unparsed(p: Bytes, b: Bytes): Bytes { Parse(p + b).rest }

  function Rests(streams: seq<Bytes>): (r: seq<Bytes>)
    ensures |r| == |streams|
  {
    seq(|streams|, i requires 0 <= i < |streams| => Parse(streams[i]).rest)
  }

  /** All bytes each connection has sent so far. */
  function Grown(streams: seq<Bytes>, e: Event): seq<Bytes>
    requires !e.Connects? ==> e.slot < |streams|
  {
    match e
    case Reads(i, b) => streams[i := streams[i] + b]
    case Closed(i) => streams[..i] + streams[i + 1..]
    case Connects(_) => streams + [[]]
  }

  ghost function StreamsAfter(t: Table, streams: seq<Bytes>, dependencies: nat, run: seq<Event>): seq<Bytes>
    requires TableOk(t, dependencies) && IsRun(t, dependencies, run, Unparsed) && |streams| == t.n
    decreases run
  {
    if run == [] then streams else
      StepKeeps(t, dependencies, run[0], Unparsed);
      StreamsAfter(Step(t, run[0], Unparsed), Grown(streams, run[0]), dependencies, run[1..])
  }

  lemma GrownRests(streams: seq<Bytes>, e: Event)
    requires !e.Connects? ==> e.slot < |streams|
    ensures Rests(Grown(streams, e)) == OwnStep(Rests(streams), e, Unparsed)
  {
    match e
    case Reads(i, b) =>
      ParseResumes(streams[i], b);
      assert Rests(Grown(streams, e)) == Rests(streams)[i := Unparsed(Rests(streams)[i], b)];
    case Closed(i) =>
      assert Rests(Grown(streams, e)) == Rests(streams)[..i] + Rests(streams)[i + 1..];
    case Connects(_) =>
      assert Rests(Grown(streams, e)) == Rests(streams) + [[]];
  }

  /** Over every run whose removals are quiet, each slot holds exactly the unparsed
      rest of all that its own connection has ever sent. */
  lemma {:induction false} EachKeepsItsOwnRest(t: Table, streams: seq<Bytes>, dependencies: nat, run: seq<Event>)
    requires TableOk(t, dependencies) && IsRun(t, dependencies, run, Unparsed)
    requires Faithful(t, Rests(streams)) && QuietRemovals(t, dependencies, run, Unparsed)
    ensures |streams| == t.n
    ensures Faithful(TableAfter(t, dependencies, run, Unparsed), Rests(StreamsAfter(t, streams, dependencies, run)))
    decreases run
  {
    hide Rests, Quiet;
    FaithfulLength(t, Rests(streams));
    if run != [] {
      StepKeeps(t, dependencies, run[0], Unparsed);
      StepIsFaithful(t, Rests(streams), dependencies, run[0], Unparsed);
      GrownRests(streams, run[0]);
      EachKeepsItsOwnRest(Step(t, run[0], Unparsed), Grown(streams, run[0]), dependencies, run[1..]);
    }
  }
}
