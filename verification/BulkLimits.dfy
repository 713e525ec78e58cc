/** When a bulk forgets a buffer, and when it runs past the end of one: exact
    conditions on its descriptors and bytes. */
module BulkLimits {
  import opened Basics
  import opened Messages
  import opened StreamTheory
  import opened Bulks

  /** The bytes that no message accounts for once fragment `k` is read; `b` are the
      bytes pending before the first one. */
  function RestAt(b: Bytes, fs: seq<Frag>, k: nat): Bytes
    requires k < |fs|
  {
    Parse(b + Concat(Contents(fs[..k + 1]))).rest
  }

  function Unread(fs: seq<Frag>, k: nat): Bytes
    requires k < |fs|
  {
    Concat(Contents(fs[k + 1..]))
  }

  /** A message begins in fragment `k` and does not end there. */
  predicate BeginsIn(b: Bytes, fs: seq<Frag>, k: nat)
    requires k < |fs|
  {
    0 < |RestAt(b, fs, k)| <= |fs[k].bytes|
  }

  /** Where in its buffer that message begins. */
  function Begin(b: Bytes, fs: seq<Frag>, k: nat): int
    requires k < |fs|
  {
    fs[k].off + |fs[k].bytes| - |RestAt(b, fs, k)|
  }

  /** What is left of a message in progress is either all there is, or shorter than
      what came since. */
  lemma RestIsRecent(p: Bytes, d: Bytes)
    requires Parse(p).messages == []
    ensures Parse(p + d).rest == p + d || |Parse(p + d).rest| <= |d|
  {
    var s := p + d;
    if |s| >= HEADER && MessageSize(s).Some? && |s| >= MessageSize(s).value {
      var n := MessageSize(s).value;
      if |p| >= HEADER {
        MessageSizePrefix(p, d);
      }
      RestShorter(s[n..]);
    } else {
      ParseStops(s);
    }
  }

  lemma {:induction false} RestShorter(s: Bytes)
    ensures |Parse(s).rest| <= |s|
    decreases |s|
  {
    if |s| >= HEADER && MessageSize(s).Some? && |s| >= MessageSize(s).value {
      RestShorter(s[MessageSize(s).value..]);
    }
  }

  /** Reading on after one turn leaves the same bytes over. */
  lemma TurnParses(g: Config, next: int, s: Slot, f: Frag, left: Bytes, more: Bytes)
    requires ConfigOk(g) && SlotOk(g, s) && FragOk(g, f) && NO_BUFFER < next
    requires Turn(g, next, s, f).Turned? && left == Step(s.pending, f.bytes, g.test).left
    ensures Parse(s.pending.bytes + (f.bytes + more)).rest
      == Parse(Cleared(Turn(g, next, s, f)).pending.bytes + (left + more)).rest
  {
    hide Step, MessageSize, Parse;
    var t := Turn(g, next, s, f);
    TurnSteps(g, next, s, f);
    StepKeeps(s.pending, f.bytes, g.test);
    var q := t.slot.pending.bytes;
    Glue(s.pending.bytes, f.bytes, more);
    Glue(q, left, more);
    if t.ready {
      ParseWhole(q, left + more);
      assert EMPTY.bytes + (left + more) == left + more;
    }
  }

  /** A message that begins in the first fragment begins in what is left of it. */
  lemma RecentAlike(g: Config, next: int, s: Slot, f: Frag, left: Bytes)
    requires ConfigOk(g) && SlotOk(g, s) && FragOk(g, f) && NO_BUFFER < next
    requires Turn(g, next, s, f).Turned? && left == Step(s.pending, f.bytes, g.test).left != []
    ensures var r := Parse(Cleared(Turn(g, next, s, f)).pending.bytes + left).rest;
      r == Parse(s.pending.bytes + f.bytes).rest && (|r| <= |f.bytes| <==> |r| <= |left|)
  {
    hide Step, Turn, Parse, Partial, MessageSize;
    var b := Cleared(Turn(g, next, s, f)).pending;
    SlotPartial(g, s);
    TurnSteps(g, next, s, f);
    TurnLeaves(g, next, s, f);
    TurnKeepsSlot(g, next, s, f);
    StepKeeps(s.pending, f.bytes, g.test);
    TurnParses(g, next, s, f, left, []);
    assert left + [] == left && f.bytes + [] == f.bytes;
    ParseOfPartial(s.pending, g.test);
    SlotPartial(g, Cleared(Turn(g, next, s, f)));
    ParseOfPartial(b, g.test);
    RestIsRecent(s.pending.bytes, f.bytes);
    RestIsRecent(b.bytes, left);
  }

  /** Fragment `k` before a turn is fragment `Place(t, k)` afterwards. */
  function Place(t: Turned, k: nat): nat
    requires t.Turned? && (t.left != [] || k > 0)
  {
    if t.left == [] then k - 1 else k
  }

  lemma RestPrefix<T>(left: seq<T>, fs: seq<T>, k: nat, j: nat)
    requires |left| <= 1 && k < |fs| && (left != [] || k > 0) && j == (if left == [] then k - 1 else k)
    ensures j < |left + fs[1..]| && (left + fs[1..])[..j + 1] == left + fs[1..k + 1]
    ensures (left + fs[1..])[j..] == (if k == 0 then left else []) + fs[if k == 0 then 1 else k..]
  {}

  lemma ContentsUpTo(fs: seq<Frag>, k: nat)
    requires k < |fs|
    ensures Concat(Contents(fs[..k + 1])) == fs[0].bytes + Concat(Contents(fs[1..k + 1]))
  {
    assert fs[..k + 1][0] == fs[0] && fs[..k + 1][1..] == fs[1..k + 1];
    ContentsSplit(fs[..k + 1]);
  }

  lemma ConcatLeft(f: Frag, rest: seq<Frag>, left: Bytes, fs: seq<Frag>)
    requires |left| <= |f.bytes|
    requires rest == if left == [] then [] else [Frag(f.buf, f.off + (|f.bytes| - |left|), left)]
    ensures |rest| <= 1 && Concat(Contents(rest + fs)) == left + Concat(Contents(fs))
  {
    hide Concat;
    ContentsLeft(f, rest, left, fs);
  }

  lemma RestShifted(g: Config, next: int, s: Slot, fs: seq<Frag>, k: nat)
    requires ConfigOk(g) && SlotOk(g, s) && FragsOk(g, fs) && NO_BUFFER < next && fs != [] && !Stuck(s.pending)
    requires Turn(g, next, s, fs[0]).Turned? && k < |fs| && (Turn(g, next, s, fs[0]).left != [] || k > 0)
    ensures var t := Turn(g, next, s, fs[0]); var rest := t.left + fs[1..]; var j := Place(t, k);
      && |t.left| <= 1 && j < |rest| && rest[j..] == (if k == 0 then t.left else []) + fs[if k == 0 then 1 else k..]
      && RestAt(Cleared(t).pending.bytes, rest, j) == RestAt(s.pending.bytes, fs, k)
  {
    hide Step, Turn, SlotOk, Parse, Contents, Concat, Cleared;
    FirstOk(g, fs);
    SlotPartial(g, s);
    var t, f := Turn(g, next, s, fs[0]), fs[0];
    TurnLeaves(g, next, s, f);
    var left := Step(s.pending, f.bytes, g.test).left;
    ConcatLeft(f, t.left, left, fs[1..k + 1]);
    RestPrefix(t.left, fs, k, Place(t, k));
    ContentsUpTo(fs, k);
    TurnParses(g, next, s, f, left, Concat(Contents(fs[1..k + 1])));
  }

  /** A turn changes neither which messages begin in the fragments still to come,
      nor where, nor what follows. */
  lemma Shifted(g: Config, next: int, s: Slot, fs: seq<Frag>, k: nat)
    requires ConfigOk(g) && SlotOk(g, s) && FragsOk(g, fs) && NO_BUFFER < next && fs != [] && !Stuck(s.pending)
    requires Turn(g, next, s, fs[0]).Turned? && k < |fs| && (Turn(g, next, s, fs[0]).left != [] || k > 0)
    ensures var t := Turn(g, next, s, fs[0]); var rest := t.left + fs[1..]; var j := Place(t, k);
      var b, b' := s.pending.bytes, Cleared(t).pending.bytes;
      && j < |rest| && RestAt(b', rest, j) == RestAt(b, fs, k) && rest[j].buf == fs[k].buf
      && (BeginsIn(b', rest, j) <==> BeginsIn(b, fs, k))
      && Begin(b', rest, j) == Begin(b, fs, k) && Unread(rest, j) == Unread(fs, k)
  {
    hide Step, Turn, SlotOk, RestAt, Contents, Concat, Cleared;
    RestShifted(g, next, s, fs, k);
    FirstOk(g, fs);
    SlotPartial(g, s);
    var t, f := Turn(g, next, s, fs[0]), fs[0];
    TurnLeaves(g, next, s, f);
    var rest, j := t.left + fs[1..], Place(t, k);
    Onwards(t.left, fs, k, j);
    if k == 0 {
      RestAtFirst(s.pending.bytes, fs);
      RestAtFirst(Cleared(t).pending.bytes, rest);
      RecentAlike(g, next, s, f, Step(s.pending, f.bytes, g.test).left);
    }
  }

  lemma Onwards<T>(left: seq<T>, fs: seq<T>, k: nat, j: nat)
    requires |left| <= 1 && k < |fs| && (left != [] || k > 0) && j == (if left == [] then k - 1 else k)
    ensures var rest := left + fs[1..];
      j < |rest| && rest[j] == (if k == 0 then left[0] else fs[k]) && rest[j + 1..] == fs[k + 1..]
  {}

  lemma RestAtFirst(b: Bytes, fs: seq<Frag>)
    requires fs != []
    ensures RestAt(b, fs, 0) == Parse(b + fs[0].bytes).rest
  {
    var c := Contents(fs[..1]);
    assert c[0] == fs[0].bytes && c[1..] == [];
    assert Concat(c) == fs[0].bytes + [] == fs[0].bytes;
  }

  /** A fragment used up by a turn leaves over what is pending then. */
  lemma RestOfTurn(g: Config, next: int, s: Slot, fs: seq<Frag>)
    requires ConfigOk(g) && SlotOk(g, s) && FragsOk(g, fs) && NO_BUFFER < next && fs != [] && !Stuck(s.pending)
    requires Turn(g, next, s, fs[0]).Turned? && Turn(g, next, s, fs[0]).left == []
    ensures RestAt(s.pending.bytes, fs, 0) == Cleared(Turn(g, next, s, fs[0])).pending.bytes
  {
    hide Step, Turn, Parse, Partial;
    var f, t := fs[0], Turn(g, next, s, fs[0]);
    FirstOk(g, fs);
    SlotPartial(g, s);
    TurnSteps(g, next, s, f);
    TurnLeaves(g, next, s, f);
    TurnKeepsSlot(g, next, s, f);
    RestAtFirst(s.pending.bytes, fs);
    TurnParses(g, next, s, f, [], []);
    var b := Cleared(t).pending;
    SlotPartial(g, Cleared(t));
    ParseOfPartial(b, g.test);
    assert f.bytes + [] == f.bytes && b.bytes + ([] + []) == b.bytes;
  }

  /** After an unknown command nothing can be parsed any more. */
  lemma RestIsBad(g: Config, next: int, s: Slot, fs: seq<Frag>, k: nat)
    requires SlotOk(g, s) && FragsOk(g, fs) && k < |fs| && Turn(g, next, s, fs[0]).Unknown?
    ensures |RestAt(s.pending.bytes, fs, k)| >= HEADER && MessageSize(RestAt(s.pending.bytes, fs, k)).None?
  {
    hide Step, MessageSize;
    var c := Contents(fs[..k + 1]);
    FirstOk(g, fs);
    TurnSteps(g, next, s, fs[0]);
    assert c[0] == fs[0].bytes;
    BadAhead(s.pending, fs[0].bytes, Concat(c[1..]), g.test);
    Glue(s.pending.bytes, fs[0].bytes, Concat(c[1..]));
  }

  // ------------------------------------------------------------ lost buffers

  /** A message begins in fragment `k`, which shows its whole header but not all of
      it, in a buffer too short to hold it. */
  predicate TooTight(g: Config, b: Bytes, fs: seq<Frag>, k: nat)
    requires k < |fs|
  {
    var r := RestAt(b, fs, k);
    && BeginsIn(b, fs, k) && |r| >= HEADER && MessageSize(r).Some?
    && Begin(b, fs, k) + MessageSize(r).value > g.limit
  }

  /** One of the first `n` fragments, in buffer `x`, is such. */
  predicate Loses(g: Config, b: Bytes, fs: seq<Frag>, n: int, x: int) {
    exists k :: 0 <= k < n && k < |fs| && TooTight(g, b, fs, k) && fs[k].buf == x
  }

  lemma TurnLoses(g: Config, next: int, s: Slot, fs: seq<Frag>)
    requires ConfigOk(g) && SlotOk(g, s) && FragsOk(g, fs) && NO_BUFFER < next && fs != [] && !Stuck(s.pending)
    requires Turn(g, next, s, fs[0]).Turned?
    ensures Turn(g, next, s, fs[0]).lost <==> Turn(g, next, s, fs[0]).left == [] && TooTight(g, s.pending.bytes, fs, 0)
  {
    hide RestAt;
    FirstOk(g, fs);
    StepKeeps(s.pending, fs[0].bytes, g.test);
    if Turn(g, next, s, fs[0]).left == [] {
      RestOfTurn(g, next, s, fs);
    }
  }

  /** However a bulk ends, it forgets exactly the buffers of the fragments, among those
      read to their end by then, in which some message is too tight. If it is read to its
      end or to an unknown command, no other fragment is such. */
  lemma {:induction false} LostIff(g: Config, next: int, s: Slot, fs: seq<Frag>, gone: Option<nat>, x: int)
    requires ConfigOk(g) && SlotOk(g, s) && FragsOk(g, fs) && NO_BUFFER < next
    ensures var w := Walk(g, next, s, fs, gone);
      && |w.left| <= |fs| && (x in w.lost <==> Loses(g, s.pending.bytes, fs, |fs| - |w.left|, x))
      && (w.end in {Finished, Exit} ==> (x in w.lost <==> Loses(g, s.pending.bytes, fs, |fs|, x)))
    decreases Total(Contents(fs))
  {
    hide Turn, SlotOk, FragsOk, Walk, Total, Stuck, TooTight, Loses, Cleared, Fails, Contents, Continued, Settled, Did;
    WalkUnfolds(g, next, s, fs, gone);
    NoneLost(g, s.pending.bytes, fs, x);
    if fs != [] {
      FirstOk(g, fs);
      if !Stuck(s.pending) && Turn(g, next, s, fs[0]).Unknown? {
        NoneTight(g, next, s, fs, x);
      } else if !Stuck(s.pending) && Turn(g, next, s, fs[0]).Turned? {
        var t := Turn(g, next, s, fs[0]);
        var rest := t.left + fs[1..];
        SlotPartial(g, s);
        TurnSettles(g, next, s, fs[0]);
        TurnLoses(g, next, s, fs);
        if Fails(t, gone) {
          GoneNow(t, gone);
          ContinuedLost(Settled(t, fs[0]), Trace(Reset, t.slot, rest, Onward(t, next), [], [], []), t, fs[0], x);
          NoneLost(g, Cleared(t).pending.bytes, rest, x);
          LosesShifted(g, next, s, fs, if t.left == [] then 1 else 0, x);
        } else {
          var w' := Walk(g, Onward(t, next), Cleared(t), rest, Later(gone, t.ready));
          LostIff(g, Onward(t, next), Cleared(t), rest, Later(gone, t.ready), x);
          ContinuedLost(Did(t, fs[0]), w', t, fs[0], x);
          LosesShifted(g, next, s, fs, |fs| - |w'.left|, x);
          LosesShifted(g, next, s, fs, |fs|, x);
        }
      }
    }
  }

  lemma ContinuedLost(log: Log, w: Trace, t: Turned, f: Frag, x: int)
    requires t.Turned? && log in {Settled(t, f), Did(t, f)}
    ensures var all := Continued(log, w);
      all.end == w.end && all.left == w.left && (x in all.lost <==> (t.lost && f.buf == x) || x in w.lost)
  {}

  lemma NoneLost(g: Config, b: Bytes, fs: seq<Frag>, x: int)
    ensures !Loses(g, b, fs, 0, x)
  {}

  lemma NoneTight(g: Config, next: int, s: Slot, fs: seq<Frag>, x: int)
    requires SlotOk(g, s) && FragsOk(g, fs) && fs != [] && FragOk(g, fs[0]) && Turn(g, next, s, fs[0]).Unknown?
    ensures !Loses(g, s.pending.bytes, fs, |fs|, x)
  {
    hide Turn, SlotOk, FragsOk, RestAt, BeginsIn, Begin;
    forall k: nat | k < |fs|
      ensures !TooTight(g, s.pending.bytes, fs, k)
    {
      RestIsBad(g, next, s, fs, k);
    }
  }

  /** Which of the first `n` fragments are too tight, before and after a turn. */
  lemma LosesShifted(g: Config, next: int, s: Slot, fs: seq<Frag>, n: int, x: int)
    requires ConfigOk(g) && SlotOk(g, s) && FragsOk(g, fs) && NO_BUFFER < next && fs != [] && !Stuck(s.pending)
    requires Turn(g, next, s, fs[0]).Turned? && (Turn(g, next, s, fs[0]).left == [] ==> n > 0)
    ensures var t := Turn(g, next, s, fs[0]);
      Loses(g, s.pending.bytes, fs, n, x)
      <==> (t.left == [] && TooTight(g, s.pending.bytes, fs, 0) && fs[0].buf == x)
           || Loses(g, Cleared(t).pending.bytes, t.left + fs[1..], if t.left == [] then n - 1 else n, x)
  {
    hide Turn, SlotOk, FragsOk, Stuck, TooTight, Cleared;
    FirstOk(g, fs);
    SlotPartial(g, s);
    TurnSettles(g, next, s, fs[0]);
    var t := Turn(g, next, s, fs[0]);
    var b, b', rest := s.pending.bytes, Cleared(t).pending.bytes, t.left + fs[1..];
    if Loses(g, b, fs, n, x) {
      var k :| 0 <= k < n && k < |fs| && TooTight(g, b, fs, k) && fs[k].buf == x;
      if t.left != [] || k > 0 {
        TightShifted(g, next, s, fs, k);
        assert TooTight(g, b', rest, Place(t, k));
      }
    }
    if Loses(g, b', rest, if t.left == [] then n - 1 else n, x) {
      var n' := if t.left == [] then n - 1 else n;
      var j :| 0 <= j < n' && j < |rest| && TooTight(g, b', rest, j) && rest[j].buf == x;
      var k := if t.left == [] then j + 1 else j;
      TightShifted(g, next, s, fs, k);
      assert TooTight(g, b, fs, k);
    }
  }

  lemma TightShifted(g: Config, next: int, s: Slot, fs: seq<Frag>, k: nat)
    requires ConfigOk(g) && SlotOk(g, s) && FragsOk(g, fs) && NO_BUFFER < next && fs != [] && !Stuck(s.pending)
    requires Turn(g, next, s, fs[0]).Turned? && k < |fs| && (Turn(g, next, s, fs[0]).left != [] || k > 0)
    ensures var t := Turn(g, next, s, fs[0]); var rest := t.left + fs[1..]; var j := Place(t, k);
      && j < |rest| && rest[j].buf == fs[k].buf
      && (TooTight(g, Cleared(t).pending.bytes, rest, j) <==> TooTight(g, s.pending.bytes, fs, k))
  {
    hide Turn, SlotOk, FragsOk, Stuck, RestAt, BeginsIn, Begin, Cleared, Unread;
    Shifted(g, next, s, fs, k);
  }

  // ---------------------------------------------------------------- overruns

  /** How many bytes of the pending message get into its buffer, with `more` to come:
      all that there are, up to its end; or up to the end of its header where the
      length is not looked up or not known. */
  function Extent(p: Pending, more: Bytes, test: HeaderTest): nat {
    var s := p.bytes + more;
    if p.expected != 0 then Min(p.expected, |s|)
    else if test == Strict || |s| < HEADER || MessageSize(s).None? then Min(HEADER, |s|)
    else Min(MessageSize(s).value, |s|)
  }

  /** The message pending at the start outgrows its buffer. */
  predicate PendingOver(g: Config, s: Slot, fs: seq<Frag>) {
    s.pending.active && s.off + Extent(s.pending, Concat(Contents(fs)), g.test) > g.limit
  }

  /** Fragment `k` ends inside a header that begins in it. */
  predicate Tail(b: Bytes, fs: seq<Frag>, k: nat)
    requires k < |fs|
  {
    BeginsIn(b, fs, k) && |RestAt(b, fs, k)| < HEADER
  }

  /** And what comes of that message does not fit behind where it begins. */
  predicate Cramped(g: Config, b: Bytes, fs: seq<Frag>, k: nat)
    requires k < |fs|
  {
    Tail(b, fs, k)
    && Begin(b, fs, k) + Extent(Pending(true, RestAt(b, fs, k), 0), Unread(fs, k), g.test) > g.limit
  }

  /** As the code is written, nothing follows a header that was split. */
  predicate Blocked(g: Config, s: Slot) {
    g.test == Strict && s.pending.active && s.pending.expected == 0
  }

  predicate NoTailBefore(g: Config, b: Bytes, fs: seq<Frag>, k: nat)
    requires k < |fs|
  {
    g.test == Strict ==> forall j :: 0 <= j < k ==> !Tail(b, fs, j)
  }

  /** A message that begins in the bulk outgrows its buffer. */
  predicate LaterOver(g: Config, s: Slot, fs: seq<Frag>) {
    var b := s.pending.bytes;
    !Blocked(g, s) && exists k :: 0 <= k < |fs| && Cramped(g, b, fs, k) && NoTailBefore(g, b, fs, k)
  }

  lemma OverNow(g: Config, next: int, s: Slot, fs: seq<Frag>)
    requires SlotOk(g, s) && FragsOk(g, fs) && fs != []
    requires FragOk(g, fs[0]) && Turn(g, next, s, fs[0]).Over?
    ensures PendingOver(g, s, fs)
  {
    assert Contents(fs)[0] == fs[0].bytes;
  }

  lemma NotOverNow(g: Config, next: int, s: Slot, fs: seq<Frag>)
    requires SlotOk(g, s) && FragsOk(g, fs)
    requires fs == [] || Stuck(s.pending) || (FragOk(g, fs[0]) && Turn(g, next, s, fs[0]).Unknown?)
    ensures !PendingOver(g, s, fs) && !LaterOver(g, s, fs)
  {
    if fs == [] {
      assert s.pending.bytes + [] == s.pending.bytes;
    } else if !Stuck(s.pending) {
      forall k: nat | k < |fs|
        ensures !Cramped(g, s.pending.bytes, fs, k)
      {
        RestIsBad(g, next, s, fs, k);
      }
      UnknownFits(g, next, s, fs);
    }
  }

  lemma UnknownFits(g: Config, next: int, s: Slot, fs: seq<Frag>)
    requires SlotOk(g, s) && FragsOk(g, fs) && fs != [] && !Stuck(s.pending)
    requires FragOk(g, fs[0]) && Turn(g, next, s, fs[0]).Unknown?
    ensures !PendingOver(g, s, fs)
  {
    var p, d, more := s.pending, fs[0].bytes, Concat(Contents(fs)[1..]);
    assert Contents(fs)[0] == d;
    if p.active {
      var k := Min(Needed(p), |d|);
      assert p.bytes + (d + more) == p.bytes + d[..k] + (d[k..] + more);
      MessageSizePrefix(p.bytes + d[..k], d[k..] + more);
    }
  }

  lemma ContentsSplit(fs: seq<Frag>)
    requires fs != []
    ensures Concat(Contents(fs)) == fs[0].bytes + Concat(Contents(fs[1..]))
  {
    assert Contents(fs)[0] == fs[0].bytes && Contents(fs)[1..] == Contents(fs[1..]);
  }

  lemma RestContents(g: Config, next: int, s: Slot, fs: seq<Frag>)
    requires ConfigOk(g) && SlotOk(g, s) && FragsOk(g, fs) && NO_BUFFER < next && fs != [] && !Stuck(s.pending)
    requires Turn(g, next, s, fs[0]).Turned?
    ensures Concat(Contents(Turn(g, next, s, fs[0]).left + fs[1..]))
      == Step(s.pending, fs[0].bytes, g.test).left + Concat(Contents(fs[1..]))
  {
    hide Step, Turn;
    TurnKeeps(g, next, s, fs);
    assert Contents(fs)[1..] == Contents(fs[1..]);
  }

  /** The pending message outgrows its buffer after a turn that adds to it exactly if
      it does before. */
  lemma PendingShifted(g: Config, next: int, s: Slot, fs: seq<Frag>)
    requires ConfigOk(g) && SlotOk(g, s) && FragsOk(g, fs) && NO_BUFFER < next && fs != [] && !Stuck(s.pending)
    requires Turn(g, next, s, fs[0]).Turned? && s.pending.active
    ensures var t := Turn(g, next, s, fs[0]);
      PendingOver(g, s, fs) <==> PendingOver(g, Cleared(t), t.left + fs[1..])
  {
    hide Concat;
    var t, p, d, more := Turn(g, next, s, fs[0]), s.pending, fs[0].bytes, Concat(Contents(fs[1..]));
    ContentsSplit(fs);
    RestContents(g, next, s, fs);
    ExtentShifted(p, d, more, g.test);
  }

  lemma ExtentShifted(p: Pending, d: Bytes, more: Bytes, test: HeaderTest)
    requires Partial(p, test) && p.active && d != [] && !Stuck(p) && Step(p, d, test).Stepped?
    ensures var u := Step(p, d, test);
      if u.ready then Extent(p, d + more, test) == |p.bytes| + Min(Needed(p), |d|)
      else Extent(u.pending, u.left + more, test) == Extent(p, d + more, test)
  {
    var u := Step(p, d, test);
    var k := Min(Needed(p), |d|);
    StepKeeps(p, d, test);
    assert p.bytes + (d + more) == u.pending.bytes + (u.left + more);
    if |u.pending.bytes| >= HEADER {
      MessageSizePrefix(u.pending.bytes, u.left + more);
    }
  }

  /** A fragment that shows a whole header gets a buffer its message fits in. */
  lemma HeaderFits(g: Config, next: int, s: Slot, fs: seq<Frag>)
    requires ConfigOk(g) && SlotOk(g, s) && FragsOk(g, fs) && NO_BUFFER < next && fs != []
    requires Turn(g, next, s, fs[0]).Turned? && !s.pending.active && |fs[0].bytes| >= HEADER
    ensures var t := Turn(g, next, s, fs[0]); !PendingOver(g, Cleared(t), t.left + fs[1..]) && !Blocked(g, Cleared(t))
  {
    FirstOk(g, fs);
  }

  /** A fragment that shows less is adopted as it is. */
  lemma HeaderSplits(g: Config, next: int, s: Slot, fs: seq<Frag>)
    requires ConfigOk(g) && SlotOk(g, s) && FragsOk(g, fs) && NO_BUFFER < next && fs != []
    requires Turn(g, next, s, fs[0]).Turned? && !s.pending.active && |fs[0].bytes| < HEADER
    ensures var t := Turn(g, next, s, fs[0]); var b := s.pending.bytes;
      && t.left == [] && Tail(b, fs, 0) && (g.test == Strict ==> Blocked(g, Cleared(t)))
      && (Cramped(g, b, fs, 0) <==> PendingOver(g, Cleared(t), t.left + fs[1..]))
  {
    var t, f := Turn(g, next, s, fs[0]), fs[0];
    FirstOk(g, fs);
    RestAtFirst(s.pending.bytes, fs);
    assert [] + f.bytes == f.bytes;
    ParseStops(f.bytes);
    assert t.left + fs[1..] == fs[1..];
  }

  /** Only a split header makes the first fragment a tail once it is used up. */
  lemma NoTailNow(g: Config, next: int, s: Slot, fs: seq<Frag>)
    requires ConfigOk(g) && SlotOk(g, s) && FragsOk(g, fs) && NO_BUFFER < next && fs != [] && !Stuck(s.pending)
    requires Turn(g, next, s, fs[0]).Turned? && (s.pending.active || |fs[0].bytes| >= HEADER)
    ensures Turn(g, next, s, fs[0]).left == [] ==> !Tail(s.pending.bytes, fs, 0)
    ensures Blocked(g, Cleared(Turn(g, next, s, fs[0]))) <==> Blocked(g, s)
  {
    hide RestAt;
    FirstOk(g, fs);
    StepKeeps(s.pending, fs[0].bytes, g.test);
    if Turn(g, next, s, fs[0]).left == [] {
      RestOfTurn(g, next, s, fs);
    }
  }

  lemma CrampedShifted(g: Config, next: int, s: Slot, fs: seq<Frag>, k: nat)
    requires ConfigOk(g) && SlotOk(g, s) && FragsOk(g, fs) && NO_BUFFER < next && fs != [] && !Stuck(s.pending)
    requires Turn(g, next, s, fs[0]).Turned? && k < |fs| && (Turn(g, next, s, fs[0]).left != [] || k > 0)
    ensures var t := Turn(g, next, s, fs[0]); var rest := t.left + fs[1..]; var j := Place(t, k);
      var b, b' := s.pending.bytes, Cleared(t).pending.bytes;
      && j < |rest| && (Cramped(g, b', rest, j) <==> Cramped(g, b, fs, k)) && (Tail(b', rest, j) <==> Tail(b, fs, k))
  {
    hide Turn, SlotOk, FragsOk, Stuck, RestAt, BeginsIn, Begin, Cleared, Unread;
    Shifted(g, next, s, fs, k);
  }

  /** The tails before fragment `k`, seen before and after a turn. */
  lemma TailsShifted(g: Config, next: int, s: Slot, fs: seq<Frag>, k: nat)
    requires ConfigOk(g) && SlotOk(g, s) && FragsOk(g, fs) && NO_BUFFER < next && fs != [] && !Stuck(s.pending)
    requires Turn(g, next, s, fs[0]).Turned? && k < |fs| && (Turn(g, next, s, fs[0]).left != [] || k > 0)
    requires Turn(g, next, s, fs[0]).left == [] && g.test == Strict ==> !Tail(s.pending.bytes, fs, 0)
    ensures var t := Turn(g, next, s, fs[0]); var rest := t.left + fs[1..];
      Place(t, k) < |rest|
      && (NoTailBefore(g, Cleared(t).pending.bytes, rest, Place(t, k)) <==> NoTailBefore(g, s.pending.bytes, fs, k))
  {
    hide Turn, SlotOk, FragsOk, Stuck, Tail, Cleared;
    FirstOk(g, fs);
    SlotPartial(g, s);
    TurnSettles(g, next, s, fs[0]);
    var t := Turn(g, next, s, fs[0]);
    var b, b', rest := s.pending.bytes, Cleared(t).pending.bytes, t.left + fs[1..];
    CrampedShifted(g, next, s, fs, k);
    if g.test == Strict {
      if NoTailBefore(g, b, fs, k) {
        forall j: nat | j < Place(t, k)
          ensures !Tail(b', rest, j)
        {
          CrampedShifted(g, next, s, fs, if t.left == [] then j + 1 else j);
        }
      }
      if NoTailBefore(g, b', rest, Place(t, k)) {
        forall j: nat | j < k
          ensures !Tail(b, fs, j)
        {
          if t.left != [] || j > 0 {
            CrampedShifted(g, next, s, fs, j);
          }
        }
      }
    }
  }

  lemma LaterShifted(g: Config, next: int, s: Slot, fs: seq<Frag>)
    requires ConfigOk(g) && SlotOk(g, s) && FragsOk(g, fs) && NO_BUFFER < next && fs != [] && !Stuck(s.pending)
    requires Turn(g, next, s, fs[0]).Turned? && !Blocked(g, s)
    requires var t := Turn(g, next, s, fs[0]);
      && !Blocked(g, Cleared(t)) && (t.left == [] && g.test == Strict ==> !Tail(s.pending.bytes, fs, 0))
    ensures var t := Turn(g, next, s, fs[0]);
      LaterOver(g, s, fs)
      <==> (t.left == [] && Cramped(g, s.pending.bytes, fs, 0)) || LaterOver(g, Cleared(t), t.left + fs[1..])
  {
    hide Turn, SlotOk, FragsOk, Stuck, Tail, Cleared, Cramped, NoTailBefore, Blocked;
    FirstOk(g, fs);
    SlotPartial(g, s);
    TurnSettles(g, next, s, fs[0]);
    var t := Turn(g, next, s, fs[0]);
    var b, b', rest := s.pending.bytes, Cleared(t).pending.bytes, t.left + fs[1..];
    if LaterOver(g, s, fs) {
      var k :| 0 <= k < |fs| && Cramped(g, b, fs, k) && NoTailBefore(g, b, fs, k);
      if t.left != [] || k > 0 {
        CrampedShifted(g, next, s, fs, k);
        TailsShifted(g, next, s, fs, k);
        assert Cramped(g, b', rest, Place(t, k)) && NoTailBefore(g, b', rest, Place(t, k));
      }
    }
    if LaterOver(g, Cleared(t), rest) {
      var j :| 0 <= j < |rest| && Cramped(g, b', rest, j) && NoTailBefore(g, b', rest, j);
      var k := if t.left == [] then j + 1 else j;
      CrampedShifted(g, next, s, fs, k);
      TailsShifted(g, next, s, fs, k);
      assert Cramped(g, b, fs, k) && NoTailBefore(g, b, fs, k);
    }
    if t.left == [] && Cramped(g, b, fs, 0) {
      FirstNoTail(g, b, fs);
      assert Cramped(g, b, fs, 0) && NoTailBefore(g, b, fs, 0);
    }
  }

  lemma FirstNoTail(g: Config, b: Bytes, fs: seq<Frag>)
    requires fs != []
    ensures NoTailBefore(g, b, fs, 0)
  {}

  predicate RunsOver(g: Config, s: Slot, fs: seq<Frag>) {
    PendingOver(g, s, fs) || LaterOver(g, s, fs)
  }

  lemma OverShifted(g: Config, next: int, s: Slot, fs: seq<Frag>)
    requires ConfigOk(g) && SlotOk(g, s) && FragsOk(g, fs) && NO_BUFFER < next && fs != [] && !Stuck(s.pending)
    requires Turn(g, next, s, fs[0]).Turned?
    ensures var t := Turn(g, next, s, fs[0]); RunsOver(g, s, fs) <==> RunsOver(g, Cleared(t), t.left + fs[1..])
  {
    hide Turn, SlotOk, FragsOk, Stuck, Tail, Cleared, Cramped, PendingOver, LaterOver;
    FirstOk(g, fs);
    SlotPartial(g, s);
    var t := Turn(g, next, s, fs[0]);
    if !s.pending.active {
      NothingPending(g, s, fs);
    }
    if s.pending.active || |fs[0].bytes| >= HEADER {
      NoTailNow(g, next, s, fs);
      if s.pending.active {
        PendingShifted(g, next, s, fs);
      } else {
        HeaderFits(g, next, s, fs);
      }
      if Blocked(g, s) {
        BlockedEnds(g, s, fs);
        BlockedEnds(g, Cleared(t), t.left + fs[1..]);
      } else {
        LaterShifted(g, next, s, fs);
        CrampedIsTail(g, s.pending.bytes, fs);
      }
    } else {
      HeaderSplits(g, next, s, fs);
      if g.test == Strict {
        BlockedEnds(g, Cleared(t), t.left + fs[1..]);
        FirstDecides(g, s, fs);
      } else {
        LaterShifted(g, next, s, fs);
      }
    }
  }

  lemma NothingPending(g: Config, s: Slot, fs: seq<Frag>)
    requires !s.pending.active
    ensures !PendingOver(g, s, fs) && !Blocked(g, s)
  {}

  lemma BlockedEnds(g: Config, s: Slot, fs: seq<Frag>)
    requires Blocked(g, s)
    ensures !LaterOver(g, s, fs)
  {}

  lemma CrampedIsTail(g: Config, b: Bytes, fs: seq<Frag>)
    requires fs != []
    ensures Cramped(g, b, fs, 0) ==> Tail(b, fs, 0)
  {}

  lemma FirstDecides(g: Config, s: Slot, fs: seq<Frag>)
    requires fs != [] && g.test == Strict && !Blocked(g, s) && Tail(s.pending.bytes, fs, 0)
    ensures LaterOver(g, s, fs) <==> Cramped(g, s.pending.bytes, fs, 0)
  {
    hide Tail, Cramped;
    if Cramped(g, s.pending.bytes, fs, 0) {
      assert NoTailBefore(g, s.pending.bytes, fs, 0);
    }
  }

  /** A bulk runs past the end of a buffer exactly if the message pending before it
      does not fit where it is, or some message whose header is split between two
      fragments (as the code is written, the first such) does not fit behind where it
      begins. */
  lemma {:induction false} OverrunsIff(g: Config, next: int, s: Slot, fs: seq<Frag>)
    requires ConfigOk(g) && SlotOk(g, s) && FragsOk(g, fs) && NO_BUFFER < next
    ensures Walk(g, next, s, fs, None).end == Overruns <==> RunsOver(g, s, fs)
    decreases Total(Contents(fs))
  {
    hide Turn, SlotOk, FragsOk, Walk, Total, Stuck, Cleared, PendingOver, LaterOver;
    WalkUnfolds(g, next, s, fs, None);
    if fs == [] || Stuck(s.pending) {
      NotOverNow(g, next, s, fs);
    } else {
      FirstOk(g, fs);
      var t := Turn(g, next, s, fs[0]);
      if t.Turned? {
        OverrunsIff(g, Onward(t, next), Cleared(t), t.left + fs[1..]);
        OverShifted(g, next, s, fs);
      } else if t.Over? {
        OverNow(g, next, s, fs);
      } else {
        NotOverNow(g, next, s, fs);
      }
    }
  }

  // ------------------------------------------------------------------ examples

  const Z: byte := 0

  /** Four bytes at the very end of a buffer are adopted as the start of a message, and
      the next descriptor runs past that end. */
  lemma SplitHeaderOverruns(g: Config)
    requires ConfigOk(g)
    ensures var fs := [Frag(0, g.limit - 4, [Z, Z, Z, Z]), Frag(1, 0, [Z, Z, Z, Z, Z])];
      SlotOk(g, FREE) && FragsOk(g, fs) && Walk(g, 2, FREE, fs, None).end == Overruns
  {
    var fs := [Frag(0, g.limit - 4, [Z, Z, Z, Z]), Frag(1, 0, [Z, Z, Z, Z, Z])];
    WalkUnfolds(g, 2, FREE, fs, None);
    var t := Turn(g, 2, FREE, fs[0]);
    assert t == Turned(Slot(0, g.limit - 4, Pending(true, [Z, Z, Z, Z], 0)), [], false, false, false, false);
    assert t.left + fs[1..] == [fs[1]];
    WalkUnfolds(g, 2, t.slot, [fs[1]], None);
    assert Turn(g, 2, t.slot, fs[1]).Over?;
  }

  /** A header alone at the very end of a buffer: its message is gathered in a fresh
      buffer, and the buffer it came in is forgotten. */
  lemma ShortBufferIsLost(g: Config)
    requires ConfigOk(g)
    ensures var fs := [Frag(0, g.limit - 8, [Z, Z, Z, Z, Z, Z, Z, Z])];
      SlotOk(g, FREE) && FragsOk(g, fs)
      && var w := Walk(g, 1, FREE, fs, None); w.end == Finished && w.lost == [0] && w.put == []
  {
    var d := [Z, Z, Z, Z, Z, Z, Z, Z];
    var fs := [Frag(0, g.limit - 8, d)];
    WalkUnfolds(g, 1, FREE, fs, None);
    assert MessageSize(d) == Some(76);
    var t := Turn(g, 1, FREE, fs[0]);
    assert t == Turned(Slot(1, g.headroom, Pending(true, d, 76)), [], false, false, true, true);
    assert t.left + fs[1..] == [];
    WalkUnfolds(g, 2, t.slot, [], None);
  }
}
