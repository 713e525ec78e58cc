/** The reassembly of messages from arbitrarily cut fragments, on byte sequences:
    one step, a whole run, and how a run relates to the greedy parse. */
module StreamTheory {
  import opened Basics
  import opened Messages

  /** The header of a message completed byte by byte is read when more than
      HEADER bytes are there (as the code has it), or when at least HEADER are. */
  datatype HeaderTest = Strict | AtLeast

  /** `struct pending_buffer`, by its bytes. `expected` is 0 while unknown. */
  datatype Pending = Pending(active: bool, bytes: Bytes, expected: nat)

  const EMPTY: Pending := Pending(false, [], 0)

  datatype Stepped =
    | UnknownCommand
    | Stepped(pending: Pending, left: Bytes, ready: bool)

  /** The states that occur between steps. */
  predicate Partial(p: Pending, test: HeaderTest) {
    || p == EMPTY
    || (p.active && p.expected == 0 && 0 < |p.bytes| < HEADER)
    || (test == Strict && Stuck(p))
    || (p.active && |p.bytes| >= HEADER && MessageSize(p.bytes) == Some(p.expected) && |p.bytes| < p.expected)
  }

  /** The header is complete but its length was not looked up. */
  predicate Stuck(p: Pending) {
    p.active && p.expected == 0 && |p.bytes| == HEADER
  }

  /** How many bytes are missing: to the end of the message, or of its header. */
  function Needed(p: Pending): int {
    (if p.expected != 0 then p.expected else HEADER) - |p.bytes|
  }

  /** One step, on the fragment `d`. */
  function Step(p: Pending, d: Bytes, test: HeaderTest): Stepped
    requires Partial(p, test)
  {
    if !p.active then
      if |d| < HEADER then Stepped(Pending(true, d, 0), [], false)
      else match MessageSize(d)
        case None => UnknownCommand
        case Some(n) =>
          if |d| <= n then Stepped(Pending(true, d, n), [], |d| == n)
          else Stepped(Pending(true, d[..n], n), d[n..], true)
    else
      var needed := Needed(p);
      var k := Min(needed, |d|);
      var b := p.bytes + d[..k];
      if p.expected == 0 && (if test == Strict then |b| > HEADER else |b| >= HEADER) then
        match MessageSize(b)
        case None => UnknownCommand
        case Some(n) => Stepped(Pending(true, b, n), d[k..], |b| == n)
      else
        Stepped(p.(bytes := b), d[k..], |b| == p.expected)
  }

  /** No byte is skipped or taken twice, what is ready is one whole message, and
      what is not ready is partial again. */
  lemma StepKeeps(p: Pending, d: Bytes, test: HeaderTest)
    requires Partial(p, test) && d != [] && Step(p, d, test).Stepped?
    ensures var s := Step(p, d, test);
      && s.pending.bytes + s.left == p.bytes + d && s.pending.active
      && |s.left| <= |d|
      && (s.ready ==> Whole(s.pending.bytes))
      && (!s.ready ==> Partial(s.pending, test))
  {
    hide RpcSize, Command;
    var s := Step(p, d, test);
    if !p.active {
      if s.left != [] {
        MessageSizePrefix(s.pending.bytes, s.left);
        assert d == d[..|s.pending.bytes|] + d[|s.pending.bytes|..];
      } else {
        assert p.bytes + d == d;
      }
    } else {
      var needed := Needed(p);
      var k := Min(needed, |d|);
      assert p.bytes + d[..k] + d[k..] == p.bytes + d;
      if p.expected != 0 {
        MessageSizePrefix(p.bytes, d[..k]);
      }
    }
  }

  /** The lookup guarded by line 226 never happens as written: that test is never true. */
  lemma StrictNeverLooks(p: Pending, d: Bytes)
    requires Partial(p, Strict) && p.active && p.expected == 0 && d != []
    ensures Step(p, d, Strict).Stepped? && Step(p, d, Strict).pending.expected == 0
    ensures !Step(p, d, Strict).ready
  {}

  /** A step makes no progress exactly in the stuck state; it then changes nothing
      at all, so the loop around it never ends. */
  lemma NoProgress(p: Pending, d: Bytes, test: HeaderTest)
    requires Partial(p, test) && d != []
    ensures Step(p, d, test).Stepped? && |Step(p, d, test).left| >= |d| <==> Stuck(p)
    ensures Stuck(p) ==> Step(p, d, test) == Stepped(p, d, false)
  {
    if Stuck(p) {
      assert p.bytes + d[..0] == p.bytes && d[0..] == d;
    }
  }

  // ------------------------------------------------------------------ whole runs

  datatype Outcome =
    | Done(messages: seq<Bytes>, pending: Pending)
    | Exited(messages: seq<Bytes>)   // unknown command: the process exits
    | Spinning(messages: seq<Bytes>) // the loop repeats without progress for ever

  function Prepend(ms: seq<Bytes>, o: Outcome): Outcome {
    o.(messages := ms + o.messages)
  }

  predicate NonEmpty(fs: seq<Bytes>) {
    forall i :: 0 <= i < |fs| ==> fs[i] != []
  }

  function Total(fs: seq<Bytes>): nat {
    if fs == [] then 0 else |fs[0]| + Total(fs[1..])
  }

  /** The driver loop over a sequence of fragments. */
  function Drive(p: Pending, fs: seq<Bytes>, test: HeaderTest): Outcome
    requires Partial(p, test) && NonEmpty(fs)
    decreases Total(fs)
  {
    if fs == [] then Done([], p)
    else if Stuck(p) then Spinning([])
    else
      match Step(p, fs[0], test)
      case UnknownCommand => Exited([])
      case Stepped(p', left, ready) =>
        StepKeeps(p, fs[0], test);
        NoProgress(p, fs[0], test);
        Prepend(if ready then [p'.bytes] else [],
                Drive(if ready then EMPTY else p', Left(left, fs[1..]), test))
  }

  /** What the driver goes on with: the rest of the fragment, if any, and the others. */
  function Left(left: Bytes, fs: seq<Bytes>): (r: seq<Bytes>)
    ensures Total(r) == |left| + Total(fs)
    ensures Concat(r) == left + Concat(fs)
    ensures NonEmpty(fs) ==> NonEmpty(r)
  {
    if left == [] then fs else
      assert ([left] + fs)[1..] == fs;
      [left] + fs
  }

  /** One turn of the driver loop, seen from the whole remaining stream. */
  lemma DriveStep(p: Pending, fs: seq<Bytes>, test: HeaderTest)
    requires Partial(p, test) && NonEmpty(fs) && fs != [] && !Stuck(p)
    requires Step(p, fs[0], test).Stepped?
    ensures var s := Step(p, fs[0], test); var rest := Left(s.left, fs[1..]);
      var q := if s.ready then EMPTY else s.pending;
      && Partial(q, test) && NonEmpty(rest) && Total(rest) < Total(fs)
      && Drive(p, fs, test) == Prepend(if s.ready then [s.pending.bytes] else [], Drive(q, rest, test))
      && p.bytes + Concat(fs) == (if s.ready then s.pending.bytes else []) + (q.bytes + Concat(rest))
      && (s.ready ==> Whole(s.pending.bytes))
  {
    hide Step, MessageSize, Whole;
    var s := Step(p, fs[0], test);
    StepKeeps(p, fs[0], test);
    NoProgress(p, fs[0], test);
    Glue(p.bytes, fs[0], Concat(fs[1..]));
    Glue(s.pending.bytes, s.left, Concat(fs[1..]));
  }

  lemma ParseOfPartial(p: Pending, test: HeaderTest)
    requires Partial(p, test)
    ensures Parse(p.bytes).messages == [] && Parse(p.bytes).rest == p.bytes
    ensures !Stuck(p) ==> !Parse(p.bytes).bad
  {}

  /** An unknown command is met exactly where the parse would meet it. */
  lemma BadAhead(p: Pending, d: Bytes, rest: Bytes, test: HeaderTest)
    requires Partial(p, test) && d != [] && Step(p, d, test).UnknownCommand?
    ensures Parse(p.bytes + d + rest).messages == [] && Parse(p.bytes + d + rest).bad
  {
    var k := if p.active then Min(HEADER - |p.bytes|, |d|) else |d|;
    var b := p.bytes + d[..k];
    assert p.bytes + d + rest == b + (d[k..] + rest);
    MessageSizePrefix(b, d[k..] + rest);
  }

  /** Whatever the fragments, what comes out is what the greedy parse of the whole
      stream says: all of it if the run ends, the part before the bad header if the
      process exits, and the part before some message if the loop spins. */
  lemma {:induction false} DriveIsParse(p: Pending, fs: seq<Bytes>, test: HeaderTest)
    requires Partial(p, test) && NonEmpty(fs)
    ensures var o := Drive(p, fs, test); var w := Parse(p.bytes + Concat(fs));
      match o
      case Done(ms, q) => ms == w.messages && q.bytes == w.rest && Partial(q, test) && (!Stuck(q) ==> !w.bad)
      case Exited(ms) => ms == w.messages && w.bad
      case Spinning(ms) => ms <= w.messages && test == Strict
    decreases Total(fs)
  {
    if fs == [] {
      assert p.bytes + [] == p.bytes;
      ParseOfPartial(p, test);
    } else if Stuck(p) {
    } else if Step(p, fs[0], test).UnknownCommand? {
      BadAhead(p, fs[0], Concat(fs[1..]), test);
      Glue(p.bytes, fs[0], Concat(fs[1..]));
    } else {
      var s := Step(p, fs[0], test);
      var rest := Left(s.left, fs[1..]);
      DriveStep(p, fs, test);
      if s.ready {
        DriveIsParse(EMPTY, rest, test);
        assert EMPTY.bytes + Concat(rest) == Concat(rest);
        ParseWhole(s.pending.bytes, Concat(rest));
      } else {
        DriveIsParse(s.pending, rest, test);
        assert [] + (s.pending.bytes + Concat(rest)) == s.pending.bytes + Concat(rest);
      }
    }
  }

  /** A run that comes to its end goes on with more fragments where it was. */
  lemma {:induction false} DriveResumes(p: Pending, fs: seq<Bytes>, gs: seq<Bytes>, test: HeaderTest)
    requires Partial(p, test) && NonEmpty(fs) && NonEmpty(gs) && Drive(p, fs, test).Done?
    ensures NonEmpty(fs + gs) && Partial(Drive(p, fs, test).pending, test)
    ensures Drive(p, fs + gs, test)
      == Prepend(Drive(p, fs, test).messages, Drive(Drive(p, fs, test).pending, gs, test))
    decreases Total(fs)
  {
    hide Step, MessageSize, Partial, Total;
    if fs == [] {
      assert fs + gs == gs;
      PrependNothing(Drive(p, gs, test));
    } else {
      var s := Step(p, fs[0], test);
      assert (fs + gs)[0] == fs[0] && (fs + gs)[1..] == fs[1..] + gs;
      DriveStep(p, fs, test);
      var q, rest := if s.ready then EMPTY else s.pending, Left(s.left, fs[1..]);
      assert Left(s.left, fs[1..] + gs) == rest + gs;
      DriveResumes(q, rest, gs, test);
      DriveStep(p, fs + gs, test);
      PrependTwice(if s.ready then [s.pending.bytes] else [], Drive(q, rest, test).messages,
                   Drive(Drive(q, rest, test).pending, gs, test));
    }
  }

  lemma PrependNothing(o: Outcome)
    ensures Prepend([], o) == o
  {
    assert [] + o.messages == o.messages;
  }

  lemma PrependTwice(a: seq<Bytes>, b: seq<Bytes>, o: Outcome)
    ensures Prepend(a, Prepend(b, o)) == Prepend(a + b, o)
  {
    assert a + (b + o.messages) == a + b + o.messages;
  }

  // ------------------------------------------------ when the fragments do not matter

  lemma SamePartial(p: Pending, q: Pending)
    requires Partial(p, AtLeast) && Partial(q, AtLeast) && p.bytes == q.bytes
    ensures p == q
  {}

  /** With the test at least HEADER, every way of cutting a stream gives the same
      run, which never spins and exits exactly on a bad stream. */
  lemma FragmentsDoNotMatter(fs: seq<Bytes>, gs: seq<Bytes>)
    requires NonEmpty(fs) && NonEmpty(gs) && Concat(fs) == Concat(gs)
    ensures Drive(EMPTY, fs, AtLeast) == Drive(EMPTY, gs, AtLeast)
    ensures !Drive(EMPTY, fs, AtLeast).Spinning?
    ensures Drive(EMPTY, fs, AtLeast).Exited? <==> Parse(Concat(fs)).bad
  {
    DriveIsParse(EMPTY, fs, AtLeast);
    DriveIsParse(EMPTY, gs, AtLeast);
    assert [] + Concat(fs) == Concat(fs);
    if Drive(EMPTY, fs, AtLeast).Done? {
      SamePartial(Drive(EMPTY, fs, AtLeast).pending, Drive(EMPTY, gs, AtLeast).pending);
    }
  }

  // ------------------------------------------------------- when the loop spins

  /** The boundary before fragment `k` falls inside a header, and the stream goes
      on past the end of that header. */
  predicate SplitAt(b: Bytes, fs: seq<Bytes>, k: nat)
    requires k < |fs|
  {
    var r := Parse(b + Concat(fs[..k])).rest;
    0 < |r| < HEADER && |r| + |Concat(fs[k..])| > HEADER
  }

  predicate HeaderSplit(b: Bytes, fs: seq<Bytes>) {
    exists k :: 0 <= k < |fs| && SplitAt(b, fs, k)
  }

  lemma {:induction false} ConcatLength(fs: seq<Bytes>)
    ensures |Concat(fs)| == Total(fs)
    ensures NonEmpty(fs) && fs != [] ==> Concat(fs) != []
  {
    if fs != [] {
      ConcatLength(fs[1..]);
    }
  }

  /** A later boundary means the same after one turn of the loop. */
  lemma SplitLater(p: Pending, fs: seq<Bytes>, k: nat)
    requires Partial(p, Strict) && NonEmpty(fs) && 1 <= k < |fs| && !Stuck(p)
    requires Step(p, fs[0], Strict).Stepped?
    ensures var s := Step(p, fs[0], Strict); var rest := Left(s.left, fs[1..]);
      var q := if s.ready then EMPTY else s.pending; var j := if s.left == [] then k - 1 else k;
      j < |rest| && (SplitAt(p.bytes, fs, k) <==> SplitAt(q.bytes, rest, j))
  {
    var s := Step(p, fs[0], Strict);
    var rest := Left(s.left, fs[1..]);
    var q := if s.ready then EMPTY else s.pending;
    var j := if s.left == [] then k - 1 else k;
    StepKeeps(p, fs[0], Strict);
    var mid := fs[1..k];
    assert fs[..k][1..] == mid && fs[..k][0] == fs[0];
    assert rest[..j] == Left(s.left, mid);
    assert rest[j..] == fs[k..];
    Glue(p.bytes, fs[0], Concat(mid));
    Glue(s.pending.bytes, s.left, Concat(mid));
    if s.ready {
      ParseWhole(s.pending.bytes, s.left + Concat(mid));
      assert EMPTY.bytes + (s.left + Concat(mid)) == s.left + Concat(mid);
    }
  }

  /** The boundary that has just been reached. */
  lemma SplitNow(p: Pending, fs: seq<Bytes>)
    requires Partial(p, Strict) && NonEmpty(fs) && fs != []
    ensures SplitAt(p.bytes, fs, 0) <==> 0 < |p.bytes| < HEADER && |p.bytes| + Total(fs) > HEADER
  {
    ParseOfPartial(p, Strict);
    ConcatLength(fs);
    assert fs[0..] == fs && p.bytes + Concat(fs[..0]) == p.bytes;
  }

  lemma NoSplitAfterBad(d: Bytes, fs: seq<Bytes>)
    requires |d| >= HEADER && MessageSize(d).None? && fs != [] && fs[0] == d
    ensures !HeaderSplit([], fs)
  {
    forall k | 0 <= k < |fs|
      ensures !SplitAt([], fs, k)
    {
      if k == 0 {
        assert [] + Concat(fs[..0]) == [];
      } else {
        assert fs[..k][1..] == fs[1..k] && fs[..k][0] == d;
        assert [] + Concat(fs[..k]) == d + Concat(fs[1..k]);
        MessageSizePrefix(d, Concat(fs[1..k]));
      }
    }
  }

  /** As written, the loop spins exactly when some fragment ends inside a header
      and the stream goes on past that header (or when it is stuck already). */
  lemma {:induction false} SpinsIff(p: Pending, fs: seq<Bytes>)
    requires Partial(p, Strict) && NonEmpty(fs)
    ensures Drive(p, fs, Strict).Spinning? <==> (Stuck(p) && fs != []) || HeaderSplit(p.bytes, fs)
    decreases Total(fs)
  {
    if fs == [] || Stuck(p) {
    } else if Step(p, fs[0], Strict).UnknownCommand? {
      NoSplitAfterBad(fs[0], fs);
    } else {
      var s := Step(p, fs[0], Strict);
      var rest := Left(s.left, fs[1..]);
      var q := if s.ready then EMPTY else s.pending;
      DriveStep(p, fs, Strict);
      SpinsIff(q, rest);
      SplitMoves(p, fs);
    }
  }

  /** A partial header either grows, or completes and gets stuck; nothing else
      leads to a stuck state. */
  lemma HeaderGrows(p: Pending, fs: seq<Bytes>)
    requires Partial(p, Strict) && NonEmpty(fs) && fs != [] && !Stuck(p)
    requires Step(p, fs[0], Strict).Stepped?
    ensures var s := Step(p, fs[0], Strict); var q := if s.ready then EMPTY else s.pending;
      && (0 < |p.bytes| < HEADER ==> q.bytes == s.pending.bytes && |q.bytes| + |s.left| == |p.bytes| + |fs[0]|)
      && (0 < |p.bytes| < HEADER ==> Stuck(q) || (0 < |q.bytes| < HEADER && s.left == []))
      && (!(0 < |p.bytes| < HEADER) ==> !Stuck(q) && (s.left != [] ==> q == EMPTY))
  {}

  lemma SplitMoves(p: Pending, fs: seq<Bytes>)
    requires Partial(p, Strict) && NonEmpty(fs) && fs != [] && !Stuck(p)
    requires Step(p, fs[0], Strict).Stepped?
    ensures var s := Step(p, fs[0], Strict); var rest := Left(s.left, fs[1..]);
      var q := if s.ready then EMPTY else s.pending;
      HeaderSplit(p.bytes, fs) <==> (Stuck(q) && rest != []) || HeaderSplit(q.bytes, rest)
  {
    hide Step, Parse, SplitAt, Concat;
    var s := Step(p, fs[0], Strict);
    var rest := Left(s.left, fs[1..]);
    var q := if s.ready then EMPTY else s.pending;
    DriveStep(p, fs, Strict);
    HeaderGrows(p, fs);
    SplitNow(p, fs);
    ConcatLength(rest);
    if rest != [] {
      SplitNow(q, rest);
    }
    if HeaderSplit(p.bytes, fs) {
      var k :| 0 <= k < |fs| && SplitAt(p.bytes, fs, k);
      if k > 0 {
        SplitLater(p, fs, k);
      }
    }
    if HeaderSplit(q.bytes, rest) {
      var j :| 0 <= j < |rest| && SplitAt(q.bytes, rest, j);
      var k := if s.left == [] then j + 1 else j;
      if k > 0 {
        SplitLater(p, fs, k);
      }
    }
  }

  /** The defect in one input: a 9-byte prefix of a message, cut after 4 bytes. */
  lemma SplitHeaderSpins()
    ensures var z: byte := 0;
      Drive(EMPTY, [[z, z, z, z], [z, z, z, z, z]], Strict).Spinning?
      && Drive(EMPTY, [[z, z, z, z], [z, z, z, z, z]], AtLeast).Done?
  {
    var z: byte := 0;
    var d, e := [z, z, z, z], [z, z, z, z, z];
    DriveStep(EMPTY, [d, e], Strict);
    assert [d, e][1..] == [e];
    var p := Pending(true, d, 0);
    DriveStep(p, [e], Strict);
    assert Stuck(Step(p, e, Strict).pending) && Step(p, e, Strict).left == [z];
    FragmentsDoNotMatter([d, e], [d, e]);
    assert Concat([e]) == e + Concat([]) == e;
    assert Concat([d, e]) == d + e;
  }
}
