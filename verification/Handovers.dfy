/** The buffers in which an asynchronous service hands requests and replies to its
    coroutines. */
module Handovers {
  import opened Basics
  import opened Messages
  import opened StreamTheory
  import opened Sums
  import opened Bulks
  import opened Resets
  import opened Coroutines
  import opened AsyncService

  /** What the bytes of a bulk come to, told from its walk. */
  function OutcomeOf(w: Trace): StreamTheory.Outcome
    requires w.end in {Finished, Bulks.Exit, Bulks.Spins}
  {
    match w.end
    case Finished => Done(Contents(w.sent), w.slot.pending)
    case Exit => Exited(Contents(w.sent))
    case Spins => Spinning(Contents(w.sent))
  }

  lemma OutcomeIs(g: Config, next: int, s: Bulks.Slot, fs: seq<Frag>)
    requires ConfigOk(g) && SlotOk(g, s) && FragsOk(g, fs) && NO_BUFFER < next
    requires Walk(g, next, s, fs, None).end != Overruns
    ensures Partial(s.pending, g.test) && NonEmpty(Contents(fs))
    ensures Walk(g, next, s, fs, None).end in {Finished, Bulks.Exit, Bulks.Spins}
    ensures OutcomeOf(Walk(g, next, s, fs, None)) == Drive(s.pending, Contents(fs), g.test)
  {
    hide Walk, Drive, SlotOk, FragsOk;
    WalkIsDrive(g, next, s, fs, None);
    WalkCut(g, next, s, fs, 0);
    FragsNonEmpty(g, fs);
  }

  /** The requests that coroutines are started with are those the walk gathers, in its
      buffers and its order. */
  lemma RequestsInBuffers(p: Pool, sock: nat, plan: Planner, g: Config, next: int, s: Bulks.Slot, fs: seq<Frag>)
    requires PoolOk(p) && ConfigOk(g) && SlotOk(g, s) && FragsOk(g, fs) && NO_BUFFER < next
    requires Walk(g, next, s, fs, None).end != Overruns
    ensures Partial(s.pending, g.test) && NonEmpty(Contents(fs)) && AllWhole(Contents(Walk(g, next, s, fs, None).sent))
    ensures Walk(g, next, s, fs, None).end in {Finished, Bulks.Exit, Bulks.Spins}
    ensures var o := OutcomeOf(Walk(g, next, s, fs, None));
      ReadUpstream(p, sock, plan, s.pending, Contents(fs), g.test)
      == Account(p, sock, plan, o, Follows(o, Contents(fs)))
  {
    hide Walk, Drive, SlotOk, FragsOk, ReadUpstream, Account, PoolOk, Follows;
    OutcomeIs(g, next, s, fs);
    ReadsRequests(p, sock, plan, s.pending, Contents(fs), g.test);
  }

  /** And so are the replies that coroutines are resumed with. */
  lemma RepliesInBuffers(p: Pool, g: Config, next: int, s: Bulks.Slot, fs: seq<Frag>)
    requires PoolOk(p) && ConfigOk(g) && SlotOk(g, s) && FragsOk(g, fs) && NO_BUFFER < next
    requires Walk(g, next, s, fs, None).end != Overruns
    ensures Partial(s.pending, g.test) && NonEmpty(Contents(fs)) && AllWhole(Contents(Walk(g, next, s, fs, None).sent))
    ensures Walk(g, next, s, fs, None).end in {Finished, Bulks.Exit, Bulks.Spins}
    ensures var w := Walk(g, next, s, fs, None);
      ReadDownstream(p, s.pending, Contents(fs), g.test) == ResumeAll(p, Contents(w.sent), OutcomeOf(w))
  {
    hide Walk, Drive, SlotOk, FragsOk, ReadDownstream, ResumeAll, PoolOk;
    OutcomeIs(g, next, s, fs);
    ReadsReplies(p, s.pending, Contents(fs), g.test);
  }

  /** No buffer is handed to two coroutines, and none that is handed over is given back,
      forgotten, pending or read on. */
  lemma HandedOnce(g: Config, next: int, s: Bulks.Slot, fs: seq<Frag>, i: nat)
    requires ConfigOk(g) && SlotOk(g, s) && FragsOk(g, fs) && NO_BUFFER < next && Separate(next, s, fs) && s.buf < next
    requires i < |Walk(g, next, s, fs, None).sent|
    ensures var w := Walk(g, next, s, fs, None); var x := w.sent[i].buf;
      && x !in w.put && x !in w.lost && x !in Held(w.slot) && x !in Bufs(w.left)
      && forall j :: 0 <= j < |w.sent| && j != i ==> w.sent[j].buf != x
  {
    hide Walk, SlotOk, FragsOk, Count, Sum;
    var w := Walk(g, next, s, fs, None);
    var x := w.sent[i].buf;
    WalkBalances(g, next, s, fs, None, x);
    AtMostOne(s, next, fs, x);
    CountIn(w.put, x);
    CountIn(w.lost, x);
    CountIn(Held(w.slot), x);
    CountIn(Bufs(w.left), x);
    assert Bufs(w.sent)[i] == x;
    CountIn(Bufs(w.sent), x);
    forall j | 0 <= j < |w.sent| && j != i
      ensures w.sent[j].buf != x
    {
      if w.sent[j].buf == x {
        CountTwo(Bufs(w.sent), i, j);
      }
    }
  }

  lemma CountTwo(s: seq<int>, i: nat, j: nat)
    requires i < |s| && j < |s| && i != j && s[i] == s[j]
    ensures Count(s, s[i]) >= 2
  {
    hide Sum;
    var rest := s[..i] + s[i + 1..];
    SumAround(Is(s[i]), s, i);
    SumAtLeast(Is(s[i]), rest, if j < i then j else j - 1);
  }

  lemma AtMostOne(s: Bulks.Slot, next: int, fs: seq<Frag>, x: int)
    requires Separate(next, s, fs) && s.buf < next
    ensures Count(Held(s), x) + Count(Bufs(fs), x) + (if x >= next then 1 else 0) <= 1
  {
    hide Sum, Count;
    CountIn(Held(s), x);
    CountIn(Bufs(fs), x);
    CountOne(x, s.buf);
    if x in Bufs(fs) {
      var i :| 0 <= i < |fs| && Bufs(fs)[i] == x;
      CountDistinct(Bufs(fs), i);
    }
  }
}
