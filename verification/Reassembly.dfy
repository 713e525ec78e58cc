/** The same step in place, on shared-memory buffers: moving bytes, adopting buffers
    and giving them back. */
module Reassembly {
  import opened Basics
  import opened Messages
  import opened StreamTheory
  import opened Bulks

  /** `struct unimsg_shm_desc`: a window into a buffer. */
  datatype Desc = Desc(buf: int, off: nat, size: nat)

  /** `struct pending_buffer`. */
  datatype PendingBuffer = PendingBuffer(desc: Desc, expected: nat)

  const NOTHING: PendingBuffer := PendingBuffer(Desc(NO_BUFFER, 0, 0), 0)

  /** The shared buffers this process owns. A buffer that was put back or sent is
      no longer here, so touching it is an error the verifier rejects. */
  type Memory = map<int, Bytes>

  predicate Sized(limit: nat, mem: Memory) {
    NO_BUFFER !in mem && forall b :: b in mem ==> |mem[b]| == limit
  }

  predicate Inside(limit: nat, mem: Memory, d: Desc) {
    d.buf in mem && d.off + d.size <= limit
  }

  function Payload(mem: Memory, d: Desc): Bytes
    requires d.buf in mem && d.off + d.size <= |mem[d.buf]|
  {
    mem[d.buf][d.off..d.off + d.size]
  }

  /** A descriptor or a pending buffer together with its bytes. */
  function FragIn(mem: Memory, d: Desc): Frag
    requires d.buf in mem && d.off + d.size <= |mem[d.buf]|
  {
    Frag(d.buf, d.off, Payload(mem, d))
  }

  function SlotIn(mem: Memory, p: PendingBuffer): Slot
    requires p.desc.buf != NO_BUFFER ==> p.desc.buf in mem && p.desc.off + p.desc.size <= |mem[p.desc.buf]|
  {
    if p.desc.buf == NO_BUFFER then Slot(NO_BUFFER, p.desc.off, Pending(false, [], p.expected))
    else Slot(p.desc.buf, p.desc.off, Pending(true, Payload(mem, p.desc), p.expected))
  }

  ghost predicate PendingOk(g: Config, mem: Memory, p: PendingBuffer) {
    && Sized(g.limit, mem) && (p.desc.buf != NO_BUFFER ==> Inside(g.limit, mem, p.desc))
    && (p.desc.buf == NO_BUFFER ==> p == NOTHING) && SlotOk(g, SlotIn(mem, p))
  }

  predicate Placed(limit: nat, mem: Memory, p: PendingBuffer) {
    p.desc.buf != NO_BUFFER ==> Inside(limit, mem, p.desc)
  }

  /** What receiving a bulk does to the memory. */
  ghost predicate Brought(g: Config, mem: Memory, next: int, mem': Memory, bulk: seq<Arrival>, ds: seq<Desc>) {
    && Sized(g.limit, mem') && |ds| == |bulk| && (forall b :: b in mem ==> b in mem' && mem'[b] == mem[b])
    && (forall b :: b in mem' ==> b in mem || next <= b < next + |bulk|)
    && forall i :: 0 <= i < |ds| ==> Inside(g.limit, mem', ds[i]) && FragIn(mem', ds[i]) == Numbered(bulk, next)[i]
  }

  lemma BroughtMore(g: Config, mem: Memory, next: int, mem': Memory, bulk: seq<Arrival>, ds: seq<Desc>,
                    mem'': Memory, a: Arrival, d: Desc)
    requires Brought(g, mem, next, mem', bulk, ds) && (forall b :: b in mem ==> b < next)
    requires Sized(g.limit, mem'') && next + |bulk| in mem'' && mem'' == mem'[next + |bulk| := mem''[next + |bulk|]]
    requires Inside(g.limit, mem'', d) && FragIn(mem'', d) == Frag(next + |bulk|, a.off, a.bytes)
    ensures Brought(g, mem, next, mem'', bulk + [a], ds + [d])
  {
    forall i | 0 <= i < |ds|
      ensures Inside(g.limit, mem'', ds[i]) && FragIn(mem'', ds[i]) == Numbered(bulk + [a], next)[i]
    {
      assert FragIn(mem', ds[i]) == Numbered(bulk, next)[i];
    }
  }

  class Pool {
    const g: Config
    var mem: Memory
    var next: int // number of the next buffer to be handed out or received

    ghost predicate Valid()
      reads this
    {
      ConfigOk(g) && Sized(g.limit, mem) && NO_BUFFER < next && forall b :: b in mem ==> b < next
    }

    constructor (g: Config)
      requires ConfigOk(g)
      ensures Valid() && mem == map[] && next == 0 && this.g == g
    {
      this.g, mem, next := g, map[], 0;
    }

    /** A fresh buffer, with a number never used before. */
    method BufferGet() returns (d: Desc)
      requires Valid()
      modifies this
      ensures Valid() && d == Desc(old(next), g.headroom, 0) && next == old(next) + 1
      ensures d.buf in mem && mem == old(mem)[d.buf := mem[d.buf]]
    {
      mem := mem[next := seq(g.limit, i => 0)];
      d := Desc(next, g.headroom, 0);
      next := next + 1;
    }

    /** `unimsg_recv`: descriptors with their buffers, which get the next numbers. */
    method Receive(bulk: seq<Arrival>) returns (descs: array<Desc>)
      requires Valid() && BulkOk(g, bulk)
      modifies this
      ensures Valid() && fresh(descs) && next == old(next) + |bulk|
      ensures Brought(g, old(mem), old(next), mem, bulk, descs[..])
    {
      descs := new Desc[|bulk|];
      for i := 0 to |bulk|
        invariant Valid() && fresh(descs) && next == old(next) + i
        invariant Brought(g, old(mem), old(next), mem, bulk[..i], descs[..i])
      {
        assert ArrivalOk(g, bulk[i]);
        ghost var before := mem;
        var off, bytes := bulk[i].off, bulk[i].bytes;
        mem := mem[next := seq(g.limit, k => if off <= k < off + |bytes| then bytes[k - off] else 0)];
        descs[i] := Desc(next, off, |bytes|);
        assert FragIn(mem, descs[i]) == Frag(next, off, bytes);
        BroughtMore(g, old(mem), old(next), before, bulk[..i], descs[..i], mem, bulk[i], descs[i]);
        assert bulk[..i + 1] == bulk[..i] + [bulk[i]] && descs[..i + 1] == descs[..i] + [descs[i]];
        next := next + 1;
      }
      assert bulk[..|bulk|] == bulk;
    }

    method BufferPut(d: Desc)
      requires Valid() && d.buf in mem
      modifies this`mem
      ensures Valid() && mem == old(mem) - {d.buf}
    {
      mem := mem - {d.buf};
    }

    /** Appends the first `n` bytes of `src` to `dst`, and drops them from `src`. */
    method MoveData(dst: Desc, src: Desc, n: nat) returns (dst': Desc, src': Desc)
      requires Valid() && Inside(g.limit, mem, dst) && Inside(g.limit, mem, src) && dst.buf != src.buf
      requires n <= src.size && dst.off + dst.size + n <= g.limit
      modifies this`mem
      ensures Valid() && dst' == dst.(size := dst.size + n) && src' == Desc(src.buf, src.off + n, src.size - n)
      ensures dst.buf in mem && mem == old(mem)[dst.buf := mem[dst.buf]]
      ensures Payload(mem, dst') == Payload(old(mem), dst) + Payload(old(mem), src)[..n]
      ensures Payload(mem, src') == Payload(old(mem), src)[n..]
    {
      var at := dst.off + dst.size;
      var bytes := mem[src.buf][src.off..src.off + n];
      mem := mem[dst.buf := mem[dst.buf][..at] + bytes + mem[dst.buf][at + n..]];
      dst' := dst.(size := dst.size + n);
      src' := Desc(src.buf, src.off + n, src.size - n);
    }
  }

  datatype Status = Incomplete | Ready | ExitUnknown | Overrun

  /** What a step needs of the state it starts from. */
  ghost predicate StepOk(g: Config, mem: Memory, next: int, p: PendingBuffer, d: Desc) {
    && ConfigOk(g) && PendingOk(g, mem, p) && Inside(g.limit, mem, d) && d.size > 0 && p.desc.buf != d.buf
    && NO_BUFFER < next && forall b :: b in mem ==> b < next
  }

  /** The turn that step is, on values. */
  ghost function TurnIn(g: Config, mem: Memory, next: int, p: PendingBuffer, d: Desc): Turned
    requires StepOk(g, mem, next, p, d)
  {
    Turn(g, next, SlotIn(mem, p), FragIn(mem, d))
  }

  /** The memory after a turn: who owns what, and that no other buffer changed. */
  ghost predicate Carried(g: Config, mem: Memory, next: int, d: Desc, t: Turned,
                          mem': Memory, next': int, p': PendingBuffer, d': Desc)
    requires t.Turned?
  {
    var slot := Sized(g.limit, mem') && p'.desc.buf != NO_BUFFER && Inside(g.limit, mem', p'.desc)
      && SlotIn(mem', p') == t.slot;
    var left := d'.buf == d.buf && (d'.size == 0 <==> t.left == [])
      && (d'.size > 0 ==> Inside(g.limit, mem', d') && |mem'[d'.buf]| == g.limit && t.left == [FragIn(mem', d')]);
    var owned := next' == (if t.gathered then next + 1 else next)
      && mem'.Keys == mem.Keys + (if t.gathered then {next} else {}) - (if t.put then {d.buf} else {});
    var others := forall b :: b in mem && b in mem' && b != t.slot.buf ==> mem'[b] == mem[b];
    slot && left && owned && others
  }

  /** What a step leaves if the process ends with it. */
  ghost predicate Kept(g: Config, mem: Memory, next: int, p: PendingBuffer, mem': Memory, next': int) {
    && Sized(g.limit, mem') && mem'.Keys == mem.Keys && next' == next
    && forall b :: b in mem && b != p.desc.buf ==> mem'[b] == mem[b]
  }

  ghost predicate StepResult(g: Config, mem: Memory, next: int, p: PendingBuffer, d: Desc,
                          status: Status, mem': Memory, next': int, p': PendingBuffer, d': Desc)
    requires StepOk(g, mem, next, p, d)
  {
    match TurnIn(g, mem, next, p, d)
    case Unknown => status == ExitUnknown && Kept(g, mem, next, p, mem', next')
    case Over => status == Overrun && p' == p && mem' == mem && next' == next
    case Turned(slot, left, ready, put, lost, gathered) =>
      && status == (if ready then Ready else Incomplete)
      && Carried(g, mem, next, d, Turned(slot, left, ready, put, lost, gathered), mem', next', p', d')
  }

  // ------------------------------------------------------------- nothing pending

  /** The descriptor itself becomes the pending one. */
  lemma Adopted(g: Config, mem: Memory, next: int, p: PendingBuffer, d: Desc, expected': nat, ready: bool)
    requires StepOk(g, mem, next, p, d) && p.desc.buf == NO_BUFFER
    requires d.size < HEADER ==> expected' == 0 && !ready
    requires d.size >= HEADER ==>
      && MessageSize(Payload(mem, d)) == Some(expected') && d.size <= expected' && (ready <==> d.size == expected')
      && (!ready ==> g.limit - d.off >= expected')
    ensures StepResult(g, mem, next, p, d, if ready then Ready else Incomplete,
                    mem, next, PendingBuffer(d, expected'), d.(size := 0))
  {
    hide MessageSize;
  }

  /** The first `k` bytes of the descriptor were copied to a fresh buffer. */
  lemma Gathered(g: Config, mem: Memory, next: int, p: PendingBuffer, d: Desc, k: nat, mem': Memory, expected': nat)
    requires StepOk(g, mem, next, p, d) && p.desc.buf == NO_BUFFER
    requires HEADER <= d.size && MessageSize(Payload(mem, d)) == Some(expected')
    requires k == Min(d.size, expected') && d.size != expected' && (d.size < expected' ==> g.limit - d.off < expected')
    requires Sized(g.limit, mem') && next in mem' && mem' == mem[next := mem'[next]]
    requires mem'[next][g.headroom..g.headroom + k] == Payload(mem, d)[..k]
    ensures StepResult(g, mem, next, p, d, if d.size > expected' then Ready else Incomplete,
                    mem', next + 1, PendingBuffer(Desc(next, g.headroom, k), expected'),
                    Desc(d.buf, d.off + k, d.size - k))
  {
    hide MessageSize;
    if k < d.size {
      assert Payload(mem', Desc(d.buf, d.off + k, d.size - k)) == Payload(mem, d)[k..];
    } else {
      assert Payload(mem, d)[..k] == Payload(mem, d);
    }
  }

  lemma UnknownAtOnce(g: Config, mem: Memory, next: int, p: PendingBuffer, d: Desc)
    requires StepOk(g, mem, next, p, d) && p.desc.buf == NO_BUFFER
    requires HEADER <= d.size && MessageSize(Payload(mem, d)).None?
    ensures forall d' :: StepResult(g, mem, next, p, d, ExitUnknown, mem, next, p, d')
  {
    hide MessageSize;
  }

  /** Copies the first `k` bytes of a descriptor to a fresh buffer. */
  method Gather(pool: Pool, d: Desc, k: nat) returns (gathered: Desc, d': Desc)
    requires pool.Valid() && Inside(pool.g.limit, pool.mem, d) && k <= d.size && k <= LONGEST
    modifies pool
    ensures pool.Valid() && gathered == Desc(old(pool.next), pool.g.headroom, k) && pool.next == old(pool.next) + 1
    ensures d' == Desc(d.buf, d.off + k, d.size - k)
    ensures gathered.buf in pool.mem && pool.mem == old(pool.mem)[gathered.buf := pool.mem[gathered.buf]]
    ensures pool.mem[gathered.buf][pool.g.headroom..pool.g.headroom + k] == Payload(old(pool.mem), d)[..k]
  {
    gathered := pool.BufferGet();
    gathered := gathered.(size := 0);
    gathered, d' := pool.MoveData(gathered, d, k);
  }

  method ProcessFirst(pool: Pool, slots: array<PendingBuffer>, c: nat, d: Desc) returns (status: Status, d': Desc)
    requires pool.Valid() && c < slots.Length && slots[c].desc.buf == NO_BUFFER
    requires StepOk(pool.g, pool.mem, pool.next, slots[c], d)
    modifies pool, slots
    ensures pool.Valid() && slots[..] == old(slots[..])[c := slots[c]]
    ensures StepResult(pool.g, old(pool.mem), old(pool.next), old(slots[c]), d,
                       status, pool.mem, pool.next, slots[c], d')
  {
    hide MessageSize, StepResult;
    d' := d;
    ghost var mem, next, p := pool.mem, pool.next, slots[c];
    if d.size < HEADER {
      Adopted(pool.g, mem, next, p, d, 0, false);
      slots[c] := slots[c].(desc := d);
      return Incomplete, d.(size := 0);
    }
    var size := MessageSize(Payload(pool.mem, d));
    if size.None? {
      UnknownAtOnce(pool.g, mem, next, p, d);
      return ExitUnknown, d';
    }
    slots[c] := slots[c].(expected := size.value);
    if d.size == slots[c].expected {
      Adopted(pool.g, mem, next, p, d, size.value, true);
      slots[c] := slots[c].(desc := d);
      return Ready, d.(size := 0);
    } else if d.size < slots[c].expected {
      if pool.g.limit - d.off >= slots[c].expected {
        Adopted(pool.g, mem, next, p, d, size.value, false);
        slots[c] := slots[c].(desc := d);
        d' := d.(size := 0);
      } else {
        var desc;
        desc, d' := Gather(pool, d, d.size);
        slots[c] := slots[c].(desc := desc);
        Gathered(pool.g, mem, next, p, d, d.size, pool.mem, size.value);
      }
      return Incomplete, d';
    } else {
      var desc;
      desc, d' := Gather(pool, d, slots[c].expected);
      slots[c] := slots[c].(desc := desc);
      Gathered(pool.g, mem, next, p, d, size.value, pool.mem, size.value);
      return Ready, d';
    }
  }

  // ----------------------------------------------------------- something pending

  /** The state after the copy, and after putting back a descriptor used up by it. */
  ghost predicate Copied(g: Config, mem: Memory, desc: Desc, d: Desc, mem': Memory, desc': Desc, d': Desc, k: nat)
    requires Sized(g.limit, mem) && Inside(g.limit, mem, desc) && Inside(g.limit, mem, d) && k <= d.size
  {
    && desc' == desc.(size := desc.size + k) && d' == Desc(d.buf, d.off + k, d.size - k)
    && desc'.off + desc'.size <= g.limit && desc.buf != d.buf
    && desc.buf in mem' && |mem'[desc.buf]| == g.limit
    && Payload(mem', desc') == Payload(mem, desc) + Payload(mem, d)[..k]
    && mem' == (if d'.size == 0 then mem - {d.buf} else mem)[desc.buf := mem'[desc.buf]]
  }

  lemma Added(g: Config, mem: Memory, next: int, p: PendingBuffer, d: Desc,
              mem': Memory, p': PendingBuffer, d': Desc, k: nat)
    requires StepOk(g, mem, next, p, d) && p.desc.buf != NO_BUFFER
    requires k == Min(Needed(SlotIn(mem, p).pending), d.size) && Copied(g, mem, p.desc, d, mem', p'.desc, d', k)
    requires var look := p.expected == 0
        && (if g.test == Strict then p'.desc.size > HEADER else p'.desc.size >= HEADER);
      if look then MessageSize(Payload(mem', p'.desc)) == Some(p'.expected) else p'.expected == p.expected
    ensures StepResult(g, mem, next, p, d, if p'.desc.size == p'.expected then Ready else Incomplete,
                       mem', next, p', d')
  {
    hide MessageSize;
    if d'.size > 0 {
      assert Payload(mem', d') == Payload(mem, d)[k..];
    } else {
      assert Payload(mem, d)[k..] == [];
    }
  }

  lemma UnknownAfterAll(g: Config, mem: Memory, next: int, p: PendingBuffer, d: Desc,
                        mem': Memory, p': PendingBuffer, d': Desc, k: nat)
    requires StepOk(g, mem, next, p, d) && p.desc.buf != NO_BUFFER && Sized(g.limit, mem')
    requires k == Min(Needed(SlotIn(mem, p).pending), d.size) && p'.desc == p.desc.(size := p.desc.size + k)
    requires p'.desc.off + p'.desc.size <= g.limit && p.desc.buf in mem' && mem' == mem[p.desc.buf := mem'[p.desc.buf]]
    requires Payload(mem', p'.desc) == Payload(mem, p.desc) + Payload(mem, d)[..k]
    requires p.expected == 0 && (if g.test == Strict then p'.desc.size > HEADER else p'.desc.size >= HEADER)
    requires MessageSize(Payload(mem', p'.desc)).None?
    ensures StepResult(g, mem, next, p, d, ExitUnknown, mem', next, p', d')
  {
    hide MessageSize;
  }

  lemma TooFar(g: Config, mem: Memory, next: int, p: PendingBuffer, d: Desc)
    requires StepOk(g, mem, next, p, d) && p.desc.buf != NO_BUFFER
    requires p.desc.off + p.desc.size + Min(Needed(SlotIn(mem, p).pending), d.size) > g.limit
    ensures forall d' :: StepResult(g, mem, next, p, d, Overrun, mem, next, p, d')
  {}

  method ProcessMore(pool: Pool, slots: array<PendingBuffer>, c: nat, d: Desc) returns (status: Status, d': Desc)
    requires pool.Valid() && c < slots.Length && slots[c].desc.buf != NO_BUFFER
    requires StepOk(pool.g, pool.mem, pool.next, slots[c], d)
    modifies pool, slots
    ensures pool.Valid() && slots[..] == old(slots[..])[c := slots[c]]
    ensures StepResult(pool.g, old(pool.mem), old(pool.next), old(slots[c]), d,
                       status, pool.mem, pool.next, slots[c], d')
  {
    hide MessageSize, StepResult, Partial;
    d' := d;
    ghost var mem, next, p := pool.mem, pool.next, slots[c];
    NeededIs(pool.g, mem, p);
    var expected := slots[c].expected;
    var needed := if expected != 0 then expected - slots[c].desc.size else HEADER - slots[c].desc.size;
    var toCopy := Min(needed, d.size);
    if slots[c].desc.off + slots[c].desc.size + toCopy > pool.g.limit {
      TooFar(pool.g, mem, next, p, d);
      return Overrun, d';
    }
    var desc;
    desc, d' := pool.MoveData(slots[c].desc, d, toCopy);
    slots[c] := slots[c].(desc := desc);
    if expected == 0 && (if pool.g.test == Strict then desc.size > HEADER else desc.size >= HEADER) {
      var size := MessageSize(Payload(pool.mem, desc));
      if size.None? {
        UnknownAfterAll(pool.g, mem, next, p, d, pool.mem, slots[c], d', toCopy);
        return ExitUnknown, d';
      }
      slots[c] := slots[c].(expected := size.value);
    }
    if d'.size == 0 {
      pool.BufferPut(d');
    }
    Added(pool.g, mem, next, p, d, pool.mem, slots[c], d', toCopy);
    return if slots[c].desc.size == slots[c].expected then Ready else Incomplete, d';
  }

  lemma NeededIs(g: Config, mem: Memory, p: PendingBuffer)
    requires PendingOk(g, mem, p) && p.desc.buf != NO_BUFFER
    ensures Needed(SlotIn(mem, p).pending) == (if p.expected != 0 then p.expected else HEADER) - p.desc.size >= 0
  {}

  /** One step on the descriptor `d`, which comes back as `d'`, for the connection in
      slot `c`: exactly the turn on values, in these buffers and no others. `Overrun`
      stands for the copy past the end of a buffer; nothing is done then. */
  method ProcessDesc(pool: Pool, slots: array<PendingBuffer>, c: nat, d: Desc) returns (status: Status, d': Desc)
    requires pool.Valid() && c < slots.Length && StepOk(pool.g, pool.mem, pool.next, slots[c], d)
    modifies pool, slots
    ensures pool.Valid() && slots[..] == old(slots[..])[c := slots[c]]
    ensures StepResult(pool.g, old(pool.mem), old(pool.next), old(slots[c]), d,
                       status, pool.mem, pool.next, slots[c], d')
  {
    hide StepResult;
    if slots[c].desc.buf == NO_BUFFER {
      status, d' := ProcessFirst(pool, slots, c, d);
    } else {
      status, d' := ProcessMore(pool, slots, c, d);
    }
  }
}
