/** The read side of CTcpServerChildOscar and CTcpServerChildEtfLog (proxy/tcpserver_child.cpp): frames are
    reassembled from a stream by handlers that the socket calls when a requested read completes. */
module Deframer {
  import opened Bytes
  import opened Seqs
  import opened Tlv
  import opened Wrappers
  import Runs

  datatype Proto = Oscar | Etf

  function HeaderSize(p: Proto): nat
  {
    if p.Oscar? then 6 else 12
  }

  function Mark(p: Proto): Byte
  {
    if p.Oscar? then 0x2A else 0x4C
  }

  /** The body size in a complete header: big-endian 16 bits, or 32 bits in the byte order of the machine
      (little-endian). */
  function BodySizeOf(p: Proto, header: seq<Byte>): nat
    requires |header| >= HeaderSize(p)
  {
    match p
    case Oscar => U16(header[4..6])
    case Etf => var b: seq<int> := header; b[8] + 0x100 * b[9] + 0x1_0000 * b[10] + 0x100_0000 * b[11]
  }

  const NEXT_HEADER_READ: nat := 6

  // ----- the child as a value ----------------------------------------------------------

  datatype Handler = OnHeader | OnBody

  /** A read that was asked for: `some` is async_read_some (1..len bytes), otherwise async_read (len bytes). */
  datatype Request = Request(at: nat, len: nat, some: bool, handler: Handler)

  /** `pending` is None once the child is destroyed; `consumed` is everything the socket has delivered. */
  datatype Child = Child(proto: Proto, buffer: seq<Byte>, headerRead: nat, bodyRead: nat, bodySize: nat,
                         pending: Option<Request>, emitted: seq<seq<Byte>>, consumed: seq<Byte>, failed: bool)

  function Zeros(n: nat): (bs: seq<Byte>)
    ensures |bs| == n
  {
    seq(n, _ => 0)
  }

  function Resize(bs: seq<Byte>, n: nat): (r: seq<Byte>)
    ensures |r| == n
  {
    if n <= |bs| then bs[..n] else bs + Zeros(n - |bs|)
  }

  /** After construction, with the 12-byte input buffer that the ETF configuration sets. */
  function Init(p: Proto): Child
  {
    Child(p, Zeros(HeaderSize(p)), 0, 0, 0, Some(Request(0, HeaderSize(p), true, OnHeader)), [], [], false)
  }

  function ReadDataHandler(c: Child, n: nat): Child
  {
    var got := c.bodyRead + n;
    if got < c.bodySize then
      c.(bodyRead := got, pending := Some(Request(got, c.bodySize - got, false, OnBody)))
    else
      c.(bodyRead := got, headerRead := 0, emitted := c.emitted + [c.buffer], buffer := Zeros(HeaderSize(c.proto)),
         pending := Some(Request(0, NEXT_HEADER_READ, false, OnHeader)))
  }

  function ReadHandler(c: Child, n: nat): Child
    requires |c.buffer| >= HeaderSize(c.proto) >= c.headerRead + n
  {
    if c.buffer[0] != Mark(c.proto) then c.(pending := None)
    else
      var got := c.headerRead + n;
      if got == HeaderSize(c.proto) then
        var size := BodySizeOf(c.proto, c.buffer);
        if c.proto.Oscar? || size > 0 then
          c.(headerRead := got, bodyRead := 0, bodySize := size, buffer := Resize(c.buffer, size + got),
             pending := Some(Request(got, size, false, OnBody)))
        else ReadDataHandler(c.(headerRead := got, bodyRead := 0, bodySize := 0), 0)
      else
        c.(headerRead := got, pending := Some(Request(got, HeaderSize(c.proto) - got, false, OnHeader)))
  }

  /** What the environment may do: complete the pending read within its contract, or report an error. */
  datatype Event = Data(bytes: seq<Byte>) | Error

  function Step(c: Child, e: Event): Option<Child>
  {
    if c.pending.None? then None
    else if e.Error? then Some(c.(pending := None, failed := true))
    else
      var q := c.pending.value;
      if (if q.some then 1 <= |e.bytes| <= q.len else |e.bytes| == q.len) && q.at + q.len <= |c.buffer| then
        var filled := c.(buffer := Splice(c.buffer, q.at, e.bytes), consumed := c.consumed + e.bytes);
        if q.handler.OnBody? then Some(ReadDataHandler(filled, |e.bytes|))
        else if |c.buffer| >= HeaderSize(c.proto) >= c.headerRead + |e.bytes| then Some(ReadHandler(filled, |e.bytes|))
        else None
      else None
  }

  // ----- frames ---------------------------------------------------------------------------

  ghost predicate WellFormed(p: Proto, f: seq<Byte>)
  {
    && |f| >= HeaderSize(p)
    && f[0] == Mark(p)
    && |f| == HeaderSize(p) + BodySizeOf(p, f)
  }

  ghost predicate AllWellFormed(p: Proto, fs: seq<seq<Byte>>)
  {
    forall i :: 0 <= i < |fs| ==> WellFormed(p, fs[i])
  }

  lemma SameHeader(p: Proto, a: seq<Byte>, b: seq<Byte>)
    requires |a| >= HeaderSize(p) && |b| >= HeaderSize(p) && a[..HeaderSize(p)] == b[..HeaderSize(p)]
    ensures BodySizeOf(p, a) == BodySizeOf(p, b)
    ensures a[0] == b[0]
  {
    var h := HeaderSize(p);
    assert forall i :: 0 <= i < h ==> a[i] == a[..h][i] == b[..h][i] == b[i];
    assert p.Oscar? ==> a[4..6] == [a[4], a[5]] == b[4..6];
  }

  /** No frame is a proper prefix of another, so a stream of frames has one reading. */
  lemma {:induction false} FramesOfPrefix(p: Proto, a: seq<seq<Byte>>, b: seq<seq<Byte>>)
    requires AllWellFormed(p, a) && AllWellFormed(p, b) && Concat(a) <= Concat(b)
    ensures a <= b
    decreases |a|
  {
    if a != [] {
      var s := Concat(b);
      assert a[0] <= s;
      if b == [] {
        assert false;
      } else {
        assert b[0] <= s;
        assert a[0][..HeaderSize(p)] == s[..HeaderSize(p)] == b[0][..HeaderSize(p)];
        SameHeader(p, a[0], b[0]);
        assert a[0] == s[..|a[0]|] == b[0];
        assert Concat(a[1..]) == Concat(a)[|a[0]|..] && Concat(b[1..]) == s[|a[0]|..];
        FramesOfPrefix(p, a[1..], b[1..]);
        assert a == [a[0]] + a[1..] && b == [b[0]] + b[1..];
      }
    }
  }

  /** The header says that `n` body bytes follow: of an OSCAR frame (0x2A) below 65536 with the high byte first, of
      an ETF record ('L') below 2^32 with the low byte first. */
  ghost predicate Announces(p: Proto, h: seq<Byte>, n: nat)
    requires |h| >= if p.Oscar? then 6 else 12
  {
    match p
    case Oscar => h[0] == 0x2A && n < 0x1_0000 && h[4] == n / 0x100 && h[5] == n % 0x100
    case Etf =>
      && h[0] == 0x4C && n < 0x1_0000_0000 && h[8] == n % 0x100 && h[9] == n / 0x100 % 0x100
      && h[10] == n / 0x1_0000 % 0x100 && h[11] == n / 0x100_0000
  }

  /** A record of the wire format: a header and as many bytes as it announces. */
  ghost predicate OnTheWire(p: Proto, f: seq<Byte>)
  {
    var h := if p.Oscar? then 6 else 12;
    |f| >= h && Announces(p, f, |f| - h)
  }

  lemma {:induction false} FourBytes(n: nat)
    requires n < 0x1_0000_0000
    ensures n / 0x100_0000 < 0x100
    ensures n == n % 0x100 + 0x100 * (n / 0x100 % 0x100) + 0x1_0000 * (n / 0x1_0000 % 0x100)
                 + 0x100_0000 * (n / 0x100_0000)
  {
    var a := n / 0x100;
    var b := a / 0x100;
    assert n / 0x1_0000 == b && n / 0x100_0000 == b / 0x100;
  }

  lemma {:induction false} BytesOfFour(a: Byte, b: Byte, c: Byte, d: Byte)
    ensures var x: int, y: int, z: int, w: int := a, b, c, d;
            var n := x + 0x100 * y + 0x1_0000 * z + 0x100_0000 * w;
            && 0 <= n < 0x1_0000_0000 && n % 0x100 == x && n / 0x100 % 0x100 == y && n / 0x1_0000 % 0x100 == z
            && n / 0x100_0000 == w
  {
  }

  lemma {:induction false} BodySizeIs(p: Proto, h: seq<Byte>, n: nat)
    requires |h| >= HeaderSize(p) && h[0] == Mark(p)
    ensures BodySizeOf(p, h) == n <==> Announces(p, h, n)
  {
    if p.Oscar? {
      U16OfBytes(h[4..6]);
    } else {
      BytesOfFour(h[8], h[9], h[10], h[11]);
      if n < 0x1_0000_0000 {
        FourBytes(n);
      }
    }
  }

  /** The frames that the child takes apart are exactly the records of the wire format. */
  lemma {:induction false} FramesAreOnTheWire(p: Proto, f: seq<Byte>)
    ensures WellFormed(p, f) <==> OnTheWire(p, f)
  {
    if |f| >= HeaderSize(p) && f[0] == Mark(p) {
      BodySizeIs(p, f, |f| - HeaderSize(p));
    }
  }

  lemma {:induction false} AllOnTheWire(p: Proto, fs: seq<seq<Byte>>)
    ensures AllWellFormed(p, fs) <==> forall i :: 0 <= i < |fs| ==> OnTheWire(p, fs[i])
  {
    hide WellFormed, OnTheWire;
    forall i | 0 <= i < |fs|
      ensures WellFormed(p, fs[i]) <==> OnTheWire(p, fs[i])
    {
      FramesAreOnTheWire(p, fs[i]);
    }
  }

  // ----- invariant ------------------------------------------------------------------------

  /** How much of the buffer holds stream bytes. */
  function Filled(c: Child): nat
  {
    if c.pending.Some? && c.pending.value.handler.OnBody? then HeaderSize(c.proto) + c.bodyRead else c.headerRead
  }

  ghost predicate HeaderPending(c: Child)
    requires c.pending.Some?
  {
    var h, q := HeaderSize(c.proto), c.pending.value;
    && |c.buffer| == h && q.at == c.headerRead && q.at + q.len <= h && q.len > 0
    && (c.headerRead > 0 ==> c.buffer[0] == Mark(c.proto))
  }

  ghost predicate BodyPending(c: Child)
    requires c.pending.Some?
  {
    var h, q := HeaderSize(c.proto), c.pending.value;
    && c.bodyRead == 0 && q == Request(h, c.bodySize, false, OnBody)
    && WellFormed(c.proto, c.buffer) && BodySizeOf(c.proto, c.buffer) == c.bodySize
  }

  ghost predicate Inv(c: Child)
  {
    && AllWellFormed(c.proto, c.emitted)
    && Concat(c.emitted) <= c.consumed
    && (c.pending.Some? ==>
          && !c.failed
          && (if c.pending.value.handler.OnBody? then BodyPending(c) else HeaderPending(c))
          && Filled(c) <= |c.buffer| && c.consumed == Concat(c.emitted) + c.buffer[..Filled(c)])
    && (c.pending.None? && !c.failed ==>
          |Concat(c.emitted)| < |c.consumed| && c.consumed[|Concat(c.emitted)|] != Mark(c.proto))
  }

  lemma InitInv(p: Proto)
    ensures Inv(Init(p))
  {
  }

  lemma EmitKeepsInv(c: Child, n: nat)
    requires c.bodyRead + n == c.bodySize && !c.failed
    requires AllWellFormed(c.proto, c.emitted) && WellFormed(c.proto, c.buffer)
    requires c.consumed == Concat(c.emitted) + c.buffer
    ensures Inv(ReadDataHandler(c, n))
  {
    ConcatOne(c.emitted, c.buffer);
  }

  /** The buffer after the socket has stored `bytes` where the pending read wanted them. */
  lemma StoreKeepsBytes(c: Child, bytes: seq<Byte>)
    requires Inv(c) && c.pending.Some? && |bytes| <= c.pending.value.len
    ensures c.pending.value.at + c.pending.value.len <= |c.buffer|
    ensures var b := Splice(c.buffer, c.pending.value.at, bytes);
            && b[..c.pending.value.at] == c.buffer[..c.pending.value.at]
            && c.consumed + bytes == Concat(c.emitted) + b[..c.pending.value.at + |bytes|]
  {
    var b := Splice(c.buffer, c.pending.value.at, bytes);
    assert b[..c.pending.value.at + |bytes|] == c.buffer[..c.pending.value.at] + bytes;
  }

  /** Every completion that respects the read contract is handled, inside the buffer. */
  lemma LegalReadsAreHandled(c: Child, bytes: seq<Byte>)
    requires Inv(c) && c.pending.Some?
    requires if c.pending.value.some then 1 <= |bytes| <= c.pending.value.len else |bytes| == c.pending.value.len
    ensures Step(c, Data(bytes)).Some?
  {
    StoreKeepsBytes(c, bytes);
  }

  lemma StepKeepsInv(c: Child, e: Event)
    requires Inv(c) && Step(c, e).Some?
    ensures Inv(Step(c, e).value)
  {
    if e.Data? {
      StoreKeepsBytes(c, e.bytes);
      var q := c.pending.value;
      var filled := c.(buffer := Splice(c.buffer, q.at, e.bytes), consumed := c.consumed + e.bytes);
      if q.handler.OnBody? {
        assert filled.buffer[..HeaderSize(c.proto)] == c.buffer[..HeaderSize(c.proto)];
        SameHeader(c.proto, c.buffer, filled.buffer);
        assert filled.buffer[..q.at + |e.bytes|] == filled.buffer;
        EmitKeepsInv(filled, |e.bytes|);
      } else {
        HeaderKeepsInv(filled, |e.bytes|);
      }
    }
  }

  lemma HeaderKeepsInv(c: Child, n: nat)
    requires |c.buffer| == HeaderSize(c.proto) >= c.headerRead + n && c.headerRead + n > 0 && !c.failed
    requires AllWellFormed(c.proto, c.emitted)
    requires c.consumed == Concat(c.emitted) + c.buffer[..c.headerRead + n]
    ensures Inv(ReadHandler(c, n))
  {
    var got := c.headerRead + n;
    if c.buffer[0] != Mark(c.proto) {
      assert c.consumed[|Concat(c.emitted)|] == c.buffer[0];
    } else if got == HeaderSize(c.proto) {
      var size := BodySizeOf(c.proto, c.buffer);
      assert c.buffer[..got] == c.buffer;
      if c.proto.Oscar? || size > 0 {
        var big := Resize(c.buffer, size + got);
        assert big[..got] == c.buffer;
        SameHeader(c.proto, c.buffer, big);
      } else {
        EmitKeepsInv(c.(headerRead := got, bodyRead := 0, bodySize := 0), 0);
      }
    }
  }

  /** Over every run of completions and errors. */
  lemma {:induction false} RunKeepsInv(p: Proto, es: seq<Event>)
    ensures var r := Runs.Exec(Step, Init(p), es); r.Some? ==> Inv(r.value) && r.value.proto == p
  {
    InitInv(p);
    var inv := (c: Child) => Inv(c) && c.proto == p;
    forall c, e | inv(c) && Step(c, e).Some?
      ensures inv(Step(c, e).value)
    {
      StepKeepsInv(c, e);
    }
    Runs.InvariantOverRuns(Step, inv, Init(p), es);
  }

  /** Why the read contract matters: after a body read that stops short, the next one is asked for at a
      place that leaves out the header, and the frame that comes out is not the one that was sent. */
  lemma ShortBodyReadCorruptsTheFrame()
    ensures var sent: seq<Byte> := [0x2A, 1, 0, 0, 0, 2, 7, 8];
            var c := Child(Oscar, [0x2A, 1, 0, 0, 0, 2, 7, 0], 6, 0, 2, None, [], [], false);
            var d := ReadDataHandler(c, 1);
            && WellFormed(Oscar, sent)
            && d.pending == Some(Request(1, 1, false, OnBody))
            && ReadDataHandler(d.(buffer := Splice(d.buffer, 1, [8])), 1).emitted == [[0x2A, 8, 0, 0, 0, 2, 7, 0]]
  {
    hide BigEndian;
    var sent: seq<Byte> := [0x2A, 1, 0, 0, 0, 2, 7, 8];
    assert sent[4..6] == [0, 2];
    TwoBytes(2);
    U16RoundTrip(2);
    assert Splice([0x2A, 1, 0, 0, 0, 2, 7, 0], 1, [8]) == [0x2A, 8, 0, 0, 0, 2, 7, 0];
  }

  // ----- main results ------------------------------------------------------------------------

  /** A read of zero bytes (an OSCAR frame without a body) has not yet completed. */
  predicate Settled(c: Child)
  {
    c.pending.Some? && c.pending.value.len > 0
  }

  lemma {:induction false} NextFrame(fs: seq<seq<Byte>>, k: nat, consumed: seq<Byte>, rest: seq<Byte>)
    requires k < |fs| && Concat(fs) <= consumed == Concat(fs[..k]) + rest
    ensures fs[k] <= rest
  {
    assert fs == fs[..k] + fs[k..];
    ConcatAppend(fs[..k], fs[k..]);
    var done, left := Concat(fs[..k]), Concat(fs[k..]);
    assert left == Concat(fs)[|done|..] && rest == consumed[|done|..];
    assert left == fs[k] + Concat(fs[k..][1..]);
  }

  lemma {:induction false} NextByte(fs: seq<seq<Byte>>, k: nat, consumed: seq<Byte>)
    requires k <= |fs| && consumed <= Concat(fs) && |Concat(fs[..k])| < |consumed|
    requires k < |fs| ==> fs[k] != []
    ensures k < |fs| && consumed[|Concat(fs[..k])|] == fs[k][0]
  {
    assert fs == fs[..k] + fs[k..];
    ConcatAppend(fs[..k], fs[k..]);
  }

  /** What waits in the buffer is less than a frame. */
  lemma NoWholeFrameWaits(c: Child, f: seq<Byte>)
    requires Inv(c) && Settled(c) && WellFormed(c.proto, f)
    ensures !(f <= c.buffer[..Filled(c)])
  {
    if c.pending.value.handler.OnBody? && f[..HeaderSize(c.proto)] == c.buffer[..HeaderSize(c.proto)] {
      SameHeader(c.proto, f, c.buffer);
    }
  }

  lemma {:induction false} NothingSkipped(c: Child, fs: seq<seq<Byte>>)
    requires Inv(c) && AllWellFormed(c.proto, fs) && c.emitted <= fs && Settled(c)
    requires Concat(fs) <= c.consumed
    ensures c.emitted == fs
  {
    var k := |c.emitted|;
    if k < |fs| {
      NoWholeFrameWaits(c, fs[k]);
      assert c.emitted == fs[..k];
      NextFrame(fs, k, c.consumed, c.buffer[..Filled(c)]);
    }
  }

  /** Whatever the sizes of the reads: on a stream of records of the wire format, exactly a prefix of the frames
      has been emitted, the rest of the consumed bytes is in the buffer, the child is never destroyed
      without an error, and once all bytes are consumed all frames are out. */
  lemma {:induction false} DeframingTheorem(p: Proto, es: seq<Event>, c: Child, fs: seq<seq<Byte>>)
    requires Runs.Exec(Step, Init(p), es) == Some(c)
    requires (forall i :: 0 <= i < |fs| ==> OnTheWire(p, fs[i])) && c.consumed <= Concat(fs)
    ensures c.emitted <= fs
    ensures c.pending.None? ==> c.failed
    ensures c.pending.Some? ==> Filled(c) <= |c.buffer| && c.consumed == Concat(c.emitted) + c.buffer[..Filled(c)]
    ensures Settled(c) && c.consumed == Concat(fs) ==> c.emitted == fs
  {
    RunKeepsInv(p, es);
    AllOnTheWire(p, fs);
    FramesOfPrefix(p, c.emitted, fs);
    assert c.emitted == fs[..|c.emitted|];
    if c.pending.None? && !c.failed {
      NextByte(fs, |c.emitted|, c.consumed);
    }
    if Settled(c) && c.consumed == Concat(fs) {
      NothingSkipped(c, fs);
    }
  }

  /** With all bytes of one record consumed, only the read of an empty body can be open. */
  lemma {:induction false} OpenBodyIsEmpty(c: Child, f: seq<Byte>)
    requires Inv(c) && WellFormed(c.proto, f) && c.consumed == f && c.pending.Some? && c.pending.value.len == 0
    ensures |f| == HeaderSize(c.proto)
  {
    var all, one := c.emitted + [c.buffer], [f];
    ConcatOne(c.emitted, c.buffer);
    assert c.buffer[..Filled(c)] == c.buffer;
    assert one == [] + [f] && [] + f == f;
    ConcatOne([], f);
    FramesOfPrefix(c.proto, all, one);
    FramesOfPrefix(c.proto, one, all);
    assert all == one && c.buffer == all[|all| - 1] == f;
  }

  /** A single record, cut anywhere: once its bytes are delivered, without an error, it is out, whole and alone; when
      it has no body, the read for it must have completed. */
  lemma {:induction false} RecordComesOut(p: Proto, es: seq<Event>, c: Child, header: seq<Byte>, body: seq<Byte>)
    requires Runs.Exec(Step, Init(p), es) == Some(c) && DeliveredIn(es) == header + body && !ErrorIn(es)
    requires OnTheWire(p, header + body) && |header| == if p.Oscar? then 6 else 12
    requires body == [] ==> c.pending.Some? && c.pending.value.len > 0
    ensures c.emitted == [header + body]
  {
    RunTells(p, es, c);
    RunKeepsInv(p, es);
    var f := header + body;
    var one: seq<seq<Byte>> := [f];
    assert one[1..] == [] && Concat(one) == f;
    DeframingTheorem(p, es, c, one);
    if !Settled(c) {
      FramesAreOnTheWire(p, f);
      OpenBodyIsEmpty(c, f);
    }
  }

  /** The header that announces `n` body bytes makes the child ask for exactly these, behind the header; an ETF
      record without a body is out at once. */
  lemma {:induction false} HeaderAsksForBody(c: Child, k: nat, n: nat)
    requires |c.buffer| == HeaderSize(c.proto) == c.headerRead + k && Announces(c.proto, c.buffer, n)
    ensures var d := ReadHandler(c, k);
            if c.proto.Oscar? then
              d.pending == Some(Request(6, n, false, OnBody)) && |d.buffer| == 6 + n && d.buffer[..6] == c.buffer
            else if n > 0 then
              d.pending == Some(Request(12, n, false, OnBody)) && |d.buffer| == 12 + n && d.buffer[..12] == c.buffer
            else d.emitted == c.emitted + [c.buffer]
  {
    BodySizeIs(c.proto, c.buffer, n);
  }

  /** Every emitted frame, of any stream at all, is a record of the wire format. */
  lemma {:induction false} EmittedAreOnTheWire(p: Proto, es: seq<Event>, c: Child)
    requires Runs.Exec(Step, Init(p), es) == Some(c)
    ensures forall i :: 0 <= i < |c.emitted| ==> OnTheWire(p, c.emitted[i])
  {
    RunKeepsInv(p, es);
    AllOnTheWire(p, c.emitted);
  }

  /** The pending header read in terms of what has been read: the first one takes what there is, the next ones want
      6 bytes, for either protocol, and a begun header's rest is asked for exactly. */
  ghost predicate Asks(c: Child)
  {
    c.pending.Some? && c.pending.value.handler.OnHeader? ==>
      && c.headerRead < HeaderSize(c.proto)
      && c.pending.value ==
        if c.headerRead > 0 then Request(c.headerRead, HeaderSize(c.proto) - c.headerRead, false, OnHeader)
        else if c.emitted == [] then Request(0, HeaderSize(c.proto), true, OnHeader)
        else Request(0, 6, false, OnHeader)
  }

  lemma {:induction false} StepKeepsAsking(c: Child, e: Event)
    requires Inv(c) && Asks(c) && Step(c, e).Some?
    ensures Asks(Step(c, e).value)
  {
    hide WellFormed, BodySizeOf, AllWellFormed, Concat;
  }

  lemma {:induction false} RunKeepsAsking(p: Proto, es: seq<Event>)
    ensures var r := Runs.Exec(Step, Init(p), es); r.Some? ==> Asks(r.value)
  {
    InitInv(p);
    hide Step, Inv;
    var inv := (c: Child) => Inv(c) && Asks(c);
    forall c, e | inv(c) && Step(c, e).Some?
      ensures inv(Step(c, e).value)
    {
      StepKeepsInv(c, e);
      StepKeepsAsking(c, e);
    }
    Runs.InvariantOverRuns(Step, inv, Init(p), es);
  }

  /** Over every run: what the child asks the socket for, from the bytes of the record that it has got so far. */
  lemma {:induction false} ReadsAskedFor(p: Proto, es: seq<Event>, c: Child)
    requires Runs.Exec(Step, Init(p), es) == Some(c) && c.pending.Some?
    ensures var q, h, got := c.pending.value, if p.Oscar? then 6 else 12, |c.consumed| - |Concat(c.emitted)|;
            if q.handler.OnBody? then
              got == q.at == h && !q.some && |c.buffer| == h + q.len && Announces(p, c.buffer, q.len)
            else
              got == q.at < h && if got > 0 then q.len == h - got && !q.some
                                 else if c.emitted == [] then q.len == h && q.some
                                 else q.len == 6 && !q.some
  {
    hide Step, AllWellFormed;
    RunKeepsInv(p, es);
    RunKeepsAsking(p, es);
    if c.pending.value.handler.OnBody? {
      BodySizeIs(p, c.buffer, c.bodySize);
    }
  }

  /** Two runs that consumed the same bytes, of any stream at all, have emitted the same frames. */
  lemma {:induction false} SegmentationDoesNotMatter(p: Proto, es1: seq<Event>, es2: seq<Event>, c1: Child, c2: Child)
    requires Runs.Exec(Step, Init(p), es1) == Some(c1) && Runs.Exec(Step, Init(p), es2) == Some(c2)
    requires c1.consumed == c2.consumed && Settled(c1) && Settled(c2)
    ensures c1.emitted == c2.emitted
    ensures Filled(c1) == Filled(c2)
  {
    RunKeepsInv(p, es1);
    RunKeepsInv(p, es2);
    if |Concat(c1.emitted)| <= |Concat(c2.emitted)| {
      FramesOfPrefix(p, c1.emitted, c2.emitted);
      NothingSkipped(c1, c2.emitted);
    } else {
      FramesOfPrefix(p, c2.emitted, c1.emitted);
      NothingSkipped(c2, c1.emitted);
    }
  }

  /** What the socket has delivered. */
  function DeliveredIn(es: seq<Event>): seq<Byte>
  {
    if es == [] then []
    else
      var e := es[|es| - 1];
      DeliveredIn(es[..|es| - 1]) + if e.Data? then e.bytes else []
  }

  predicate ErrorIn(es: seq<Event>)
  {
    es != [] && (es[|es| - 1].Error? || ErrorIn(es[..|es| - 1]))
  }

  lemma {:induction false} OneEventTells(c: Child, e: Event, d: Child)
    requires Step(c, e) == Some(d)
    ensures d.consumed == c.consumed + if e.Data? then e.bytes else []
    ensures d.failed <==> c.failed || e.Error?
  {
    hide BodySizeOf;
  }

  /** Over every run: no byte delivered is passed over, and a child has failed when the socket has reported an
      error. */
  lemma {:induction false} RunTells(p: Proto, es: seq<Event>, c: Child)
    requires Runs.Exec(Step, Init(p), es) == Some(c)
    ensures c.consumed == DeliveredIn(es) && (c.failed <==> ErrorIn(es))
  {
    if es != [] {
      hide Step, Runs.Exec, Init;
      var n := |es| - 1;
      Runs.LastStep(Step, Init(p), es);
      var before := Runs.Exec(Step, Init(p), es[..n]).value;
      RunTells(p, es[..n], before);
      OneEventTells(before, es[n], c);
    }
  }
}
