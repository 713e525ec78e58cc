/** Message framing: an 8-byte header that names a command, whose table entry
    fixes the length of the whole message; and the greedy parse of a byte stream. */
module Messages {
  import opened Basics

  newtype byte = x: int | 0 <= x < 256

  type Bytes = seq<byte>

  /** `sizeof(struct rpc)`: a 32-bit id and a 32-bit command, and an empty body. */
  const HEADER: nat := 8

  /** The length of the longest message, an ad request. */
  const LONGEST: nat := 3016

  /** The length of a whole message, or nothing for an unknown command; the
      process exits on those. Lengths follow the x86-64 layout of the bodies. */
  function RpcSize(command: int): (r: Option<nat>)
    ensures r.Some? <==> 0 <= command <= 14
    ensures r.Some? ==> HEADER < r.value <= LONGEST
  {
    match command
    case 0 => Some(68 + HEADER)
    case 1 => Some(268 + HEADER)
    case 2 => Some(50 + HEADER)
    case 3 => Some(284 + HEADER)
    case 4 => Some(64 + HEADER)
    case 5 => Some(64 + HEADER)
    case 6 => Some(2024 + HEADER)
    case 7 => Some(240 + HEADER)
    case 8 => Some(2080 + HEADER)
    case 9 => Some(296 + HEADER)
    case 10 => Some(360 + HEADER)
    case 11 => Some(112 + HEADER)
    case 12 => Some(728 + HEADER)
    case 13 => Some(928 + HEADER)
    case 14 => Some(3008 + HEADER)
    case _ => None
  }

  /** The command field, little-endian, at offset 4. */
  function Command(s: Bytes): int
    requires |s| >= HEADER
  {
    s[4] as int + 256 * (s[5] as int + 256 * (s[6] as int + 256 * s[7] as int))
  }

  /** The id field, little-endian, at offset 0. */
  function Id(s: Bytes): nat
    requires |s| >= HEADER
  {
    s[0] as int + 256 * (s[1] as int + 256 * (s[2] as int + 256 * s[3] as int))
  }

  /** The four bytes of a number, lowest first. */
  function FourBytes(n: nat): Bytes
    requires n < 0x1_0000_0000
  {
    [(n % 256) as byte, (n / 256 % 256) as byte, (n / 65536 % 256) as byte, (n / 16777216) as byte]
  }

  /** `rpc->id = id` and `rpc->command = command`, in place of what the header says. */
  function WithHeader(id: nat, command: nat, m: Bytes): Bytes
    requires id < 0x1_0000_0000 && command < 0x1_0000_0000 && |m| >= HEADER
  {
    FourBytes(id) + FourBytes(command) + m[HEADER..]
  }

  /** What is written there is what is read, and the body stays. */
  lemma HeaderReadsBack(id: nat, command: nat, m: Bytes)
    requires id < 0x1_0000_0000 && command < 0x1_0000_0000 && |m| >= HEADER
    ensures var r := WithHeader(id, command, m);
      |r| == |m| && Id(r) == id && Command(r) == command && r[HEADER..] == m[HEADER..]
  {
    FourBytesAre(id);
    FourBytesAre(command);
  }

  lemma FourBytesAre(n: nat)
    requires n < 0x1_0000_0000
    ensures var b := FourBytes(n);
      b[0] as int + 256 * (b[1] as int + 256 * (b[2] as int + 256 * b[3] as int)) == n
  {
    assert n == n % 256 + 256 * (n / 256);
    assert n / 256 == n / 256 % 256 + 256 * (n / 65536);
    assert n / 65536 == n / 65536 % 256 + 256 * (n / 16777216);
  }

  /** Which bytes say which id and which command. */
  lemma HeaderBytes(i: Bytes, c: Bytes, body: Bytes)
    requires |i| == 4 && |c| == 4
    ensures Id(i + c + body)
      == i[0] as int + 256 * i[1] as int + 65536 * i[2] as int + 16777216 * i[3] as int
    ensures Command(i + c + body)
      == c[0] as int + 256 * c[1] as int + 65536 * c[2] as int + 16777216 * c[3] as int
  {}

  function MessageSize(s: Bytes): (r: Option<nat>)
    requires |s| >= HEADER
    ensures r.Some? ==> HEADER < r.value <= LONGEST
  {
    RpcSize(Command(s))
  }

  /** More bytes at the end do not change what a header says. */
  lemma MessageSizePrefix(s: Bytes, t: Bytes)
    requires |s| >= HEADER
    ensures MessageSize(s + t) == MessageSize(s)
  {}

  /** `bad` tells that the unparsed rest starts with an unknown command. */
  datatype Parsed = Parsed(messages: seq<Bytes>, rest: Bytes, bad: bool)

  /** The greedy parse: header, then length, then the next message. */
  function Parse(s: Bytes): Parsed {
    if |s| < HEADER then Parsed([], s, false)
    else match MessageSize(s)
      case None => Parsed([], s, true)
      case Some(n) =>
        if |s| < n then Parsed([], s, false)
        else
          var p := Parse(s[n..]);
          p.(messages := [s[..n]] + p.messages)
  }

  predicate Whole(m: Bytes) {
    |m| >= HEADER && MessageSize(m) == Some(|m|)
  }

  lemma WholeHeader(m: Bytes)
    requires Whole(m)
    ensures |m| >= HEADER
  {}

  ghost predicate AllWhole(ms: seq<Bytes>) {
    forall i :: 0 <= i < |ms| ==> Whole(ms[i])
  }

  function Concat(fs: seq<Bytes>): Bytes {
    if fs == [] then [] else fs[0] + Concat(fs[1..])
  }

  lemma ParseWhole(m: Bytes, s: Bytes)
    requires Whole(m)
    ensures Parse(m + s) == Parse(s).(messages := [m] + Parse(s).messages)
  {
    MessageSizePrefix(m, s);
    assert (m + s)[..|m|] == m && (m + s)[|m|..] == s;
  }

  /** The parse loses nothing, and only whole messages come out. */
  lemma {:induction false} ParseConserves(s: Bytes)
    ensures Concat(Parse(s).messages) + Parse(s).rest == s
    ensures forall m :: m in Parse(s).messages ==> Whole(m)
    decreases |s|
  {
    if |s| >= HEADER && MessageSize(s).Some? && |s| >= MessageSize(s).value {
      var n := MessageSize(s).value;
      var m, t := s[..n], s[n..];
      assert s == m + t;
      MessageSizePrefix(m, t);
      ParseConserves(t);
      ParseWhole(m, t);
      var q := Parse(t);
      assert ([m] + q.messages)[1..] == q.messages;
      Glue(m, Concat(q.messages), q.rest);
    }
  }

  /** Parsing can stop anywhere and go on from the rest. */
  lemma {:induction false} ParseResumes(s: Bytes, t: Bytes)
    ensures Parse(s + t).messages == Parse(s).messages + Parse(Parse(s).rest + t).messages
    ensures Parse(s + t).rest == Parse(Parse(s).rest + t).rest
    ensures Parse(s + t).bad == Parse(Parse(s).rest + t).bad
    decreases |s|
  {
    hide Parse, MessageSize;
    if |s| >= HEADER && MessageSize(s).Some? && |s| >= MessageSize(s).value {
      var n := MessageSize(s).value;
      var m, u := s[..n], s[n..];
      assert s == m + u && s + t == m + (u + t);
      MessageSizePrefix(m, u);
      ParseWhole(m, u);
      ParseWhole(m, u + t);
      ParseResumes(u, t);
      var ms := Parse(Parse(u).rest + t).messages;
      assert [m] + (Parse(u).messages + ms) == [m] + Parse(u).messages + ms;
    } else {
      ParseStops(s);
      assert [] + Parse(s + t).messages == Parse(s + t).messages;
    }
  }

  lemma ParseStops(s: Bytes)
    requires !(|s| >= HEADER && MessageSize(s).Some? && |s| >= MessageSize(s).value)
    ensures Parse(s).messages == [] && Parse(s).rest == s
  {}

  lemma Glue(a: Bytes, b: Bytes, c: Bytes)
    ensures a + b + c == a + (b + c)
  {}
}
