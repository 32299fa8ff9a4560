/** COscarLoggerAdaptor::DoLog: from a received frame back to a log package (proxy/oscar_logger_adapter.cpp). */
module OscarLogger {
  import opened Bytes
  import opened FlapBuilder
  import opened FlapParser
  import opened LogPackages
  import opened Seqs
  import opened Tlv
  import opened TlvList
  import opened Wrappers

  /** Refused: the parser throws. Endless: its counting loop does not end. Undefined: a debug assertion on a
      TLV's size fails, or a TLV is read behind the last one. */
  datatype Outcome = Emitted(log: Logged) | Ignored | Refused | Endless | Undefined

  // ----- numbers out of TLV data -------------------------------------------------------

  lemma WidthBounds()
    ensures Pow256(1) == 0x100 && Pow256(8) == 0x1_0000_0000_0000_0000
  {
    assert Pow256(2) == 0x1_0000 && Pow256(4) == 0x1_0000_0000 by {
      assert Pow256(1) == 0x100 && Pow256(3) == 256 * Pow256(2);
    }
    assert Pow256(6) == 256 * Pow256(5) && Pow256(5) == 256 * Pow256(4);
    assert Pow256(8) == 256 * Pow256(7) && Pow256(7) == 256 * Pow256(6);
  }

  /** get_value for uint8_t, int8_t and 64-bit integers; None when the size assertion fails. */
  function ByteValue(data: seq<Byte>): Option<Byte>
  {
    if |data| != 1 then None else
    WidthBounds();
    Some(Unpack(UINT8, data))
  }

  function Int8Value(data: seq<Byte>): Option<Int8>
  {
    if |data| != 1 then None else
    WidthBounds(); UnpackRoundTrip(INT8, data);
    Some(Unpack(INT8, data))
  }

  function Int64Value(data: seq<Byte>): Option<Int64>
  {
    if |data| != 8 then None else
    WidthBounds(); UnpackRoundTrip(INT64, data);
    Some(Unpack(INT64, data))
  }

  // ----- reference: decoding through the grammar ------------------------------------------

  /** A message from its values by position; None stands for one that cannot be read. */
  function MessageOf(v: nat -> Option<seq<Byte>>): Outcome
  {
    match (v(0), v(1), v(2), v(3), v(4), v(5))
    case (Some(tag), Some(sv), Some(text), Some(ch), Some(s), Some(us)) =>
      (match (ByteValue(sv), Int8Value(ch), Int64Value(s), Int64Value(us))
       case (Some(severity), Some(channel), Some(sec), Some(nsec)) =>
         Emitted(LoggedMessage(tag, severity, text, channel, Timespec(sec, nsec)))
       case _ => Undefined)
    case _ => Undefined
  }

  function NewFileOf(v: nat -> Option<seq<Byte>>): Outcome
  {
    match (v(0), v(1), v(2), v(3), v(4))
    case (Some(prefix), Some(suffix), Some(ch), Some(s), Some(us)) =>
      (match (Int8Value(ch), Int64Value(s), Int64Value(us))
       case (Some(channel), Some(sec), Some(nsec)) =>
         Emitted(LoggedNewFile(prefix, suffix, channel, Timespec(sec, nsec)))
       case _ => Undefined)
    case _ => Undefined
  }

  function StopOf(v: nat -> Option<seq<Byte>>): Outcome
  {
    match (v(0), v(1), v(2))
    case (Some(ch), Some(s), Some(us)) =>
      (match (Int8Value(ch), Int64Value(s), Int64Value(us))
       case (Some(channel), Some(sec), Some(nsec)) => Emitted(LoggedStop(channel, Timespec(sec, nsec)))
       case _ => Undefined)
    case _ => Undefined
  }

  /** The channel and the service choose how the values are taken. */
  function OutcomeOf(channel: Byte, service: nat, v: nat -> Option<seq<Byte>>): Outcome
  {
    if channel == CHANNEL_MESSAGE then MessageOf(v)
    else if service == SERVICE_START then NewFileOf(v)
    else if service == SERVICE_STOP then StopOf(v)
    else Ignored
  }

  function Values(ts: seq<RawTlv>): nat -> Option<seq<Byte>>
  {
    (i: nat) => if i < |ts| then Some(ts[i].data) else None
  }

  function ServiceField(frame: seq<Byte>): nat
    requires |frame| >= FLAP_HEADER_SIZE + 2
  {
    U16(frame[FLAP_HEADER_SIZE..FLAP_HEADER_SIZE + 2])
  }

  function SubtypeField(frame: seq<Byte>): nat
    requires |frame| >= FLAP_HEADER_SIZE + 4
  {
    U16(frame[FLAP_HEADER_SIZE + 2..FLAP_HEADER_SIZE + 4])
  }

  /** What a frame means: the TLVs are taken by position, their types are not looked at. */
  function Decode(frame: seq<Byte>): Outcome
  {
    if !HeaderAccepted(frame) || EndOf(frame) < FIRST then Refused
    else
      match ParseTlvs(frame[FIRST..EndOf(frame)])
      case None => Refused
      case Some(ts) => OutcomeOf(frame[FLAP_CHANNEL_OFFSET], ServiceField(frame), Values(ts))
  }

  // ----- round trip -------------------------------------------------------------------------

  lemma Slices(a: seq<Byte>, s: seq<Byte>, v: seq<Byte>, x: seq<Byte>, y: seq<Byte>, z: seq<Byte>, body: seq<Byte>)
    requires |a| == 4 && |s| == 2 && |v| == 2 && |x| == 2 && |y| == 2 && |z| == 4
    ensures var f := a + s + (v + x + y + z) + body;
            && |f| == 16 + |body|
            && f[0] == a[0] && f[1] == a[1] && f[4..6] == s && f[6..8] == v && f[8..10] == x && f[16..|f|] == body
  {
  }

  lemma FrameParts(channel: Byte, service: nat, subtype: nat, requestId: nat, fields: seq<Field>)
    requires channel < 2 && service < 65536 && subtype < 65536 && SnacSize(fields) <= 65535
    ensures var f := FrameBytes(channel, service, subtype, requestId, fields);
            && HeaderAccepted(f) && f[FLAP_CHANNEL_OFFSET] == channel
            && EndOf(f) == |f| == FIRST + |Body(Raws(fields))|
            && ServiceField(f) == service && SubtypeField(f) == subtype
            && f[FIRST..EndOf(f)] == Body(Raws(fields))
  {
    var f := FrameBytes(channel, service, subtype, requestId, fields);
    var a, s, v := [FLAP_MARK, channel] + BigEndian(2, 0), BigEndian(2, SnacSize(fields)), BigEndian(2, service);
    Slices(a, s, v, BigEndian(2, subtype), BigEndian(2, SNAC_FLAGS), BigEndian(4, requestId), Body(Raws(fields)));
    U16RoundTrip(SnacSize(fields));
    U16RoundTrip(service);
    U16RoundTrip(subtype);
  }

  lemma {:induction false} FieldsFit(ts: seq<RawTlv>)
    requires |Body(ts)| <= 65535 && forall i :: 0 <= i < |ts| ==> ts[i].typ < 65536
    ensures forall i :: 0 <= i < |ts| ==> Fits(ts[i])
  {
    if ts != [] {
      FieldsFit(ts[1..]);
      assert forall i :: 1 <= i < |ts| ==> ts[i] == ts[1..][i - 1];
    }
  }

  /** The same frame parses to as many TLVs as the package has fields. */
  lemma BuiltFrameParses(p: LogPackage, requestId: nat)
    requires Encode(p, requestId).Success?
    ensures var f := Encode(p, requestId).value;
            && HeaderAccepted(f) && EndOf(f) == |f| >= FIRST
            && f[FLAP_CHANNEL_OFFSET] == ChannelOf(p.command)
            && ServiceField(f) == ServiceOf(p.command) && SubtypeField(f) == SubtypeOf(p.command)
            && ParseTlvs(f[FIRST..EndOf(f)]) == Some(Raws(Fields(p)))
  {
    FrameParts(ChannelOf(p.command), ServiceOf(p.command), SubtypeOf(p.command), requestId, Fields(p));
    FieldsFit(Raws(Fields(p)));
    ParseOfBody(Raws(Fields(p)));
  }

  lemma NumbersReadBack(b: Byte, c: Int8, n: Int64)
    ensures ByteValue(Pack(UINT8, b)) == Some(b)
    ensures Int8Value(Pack(INT8, c)) == Some(c)
    ensures Int64Value(Pack(INT64, n)) == Some(n)
  {
    WidthBounds();
    PackRoundTrip(UINT8, b);
    PackRoundTrip(INT8, c);
    PackRoundTrip(INT64, n);
  }

  /** Whatever can be built is decoded to exactly the fields that its command carries. */
  lemma {:induction false} FlapRoundTrip(p: LogPackage, requestId: nat)
    requires Encode(p, requestId).Success?
    ensures Decode(Encode(p, requestId).value) == Emitted(Carried(p))
  {
    BuiltFrameParses(p, requestId);
    match p.command {
      case Message => MessageFieldsDecode(p);
      case ChangeFile => NewFileFieldsDecode(p);
      case Stop => StopFieldsDecode(p);
    }
  }

  lemma MessageFieldsDecode(p: LogPackage)
    requires p.command.Message?
    ensures MessageOf(Values(Raws(Fields(p)))) == Emitted(Carried(p))
  {
    NumbersReadBack(p.severity, p.channel, p.timestamp.sec);
    NumbersReadBack(p.severity, p.channel, p.timestamp.nsec);
  }

  lemma NewFileFieldsDecode(p: LogPackage)
    requires p.command.ChangeFile?
    ensures NewFileOf(Values(Raws(Fields(p)))) == Emitted(Carried(p))
  {
    NumbersReadBack(p.severity, p.channel, p.timestamp.sec);
    NumbersReadBack(p.severity, p.channel, p.timestamp.nsec);
  }

  lemma StopFieldsDecode(p: LogPackage)
    requires p.command.Stop?
    ensures StopOf(Values(Raws(Fields(p)))) == Emitted(Carried(p))
  {
    NumbersReadBack(p.severity, p.channel, p.timestamp.sec);
    NumbersReadBack(p.severity, p.channel, p.timestamp.nsec);
  }

  /** The parser's counting loop accepts a built frame, with the right count, whatever lies behind it. */
  lemma {:induction false} BuiltFrameCounts(p: LogPackage, requestId: nat, beyond: seq<Byte>, fuel: nat)
    requires Encode(p, requestId).Success? && |beyond| >= SLACK
    requires fuel >= |Encode(p, requestId).value|
    ensures var f := Encode(p, requestId).value;
            NoWrap(f + beyond, |f|, FIRST) && Walk(f + beyond, |f|, FIRST, fuel) == Accepted(|Fields(p)|)
  {
    var f := Encode(p, requestId).value;
    BuiltFrameParses(p, requestId);
    assert (f + beyond)[FIRST..|f|] == f[FIRST..|f|];
    ParsedBodiesDoNotWrap(f + beyond, |f|, FIRST);
    WalkFollowsGrammar(f + beyond, |f|, FIRST, fuel);
  }

  // ----- the adaptor on memory ----------------------------------------------------------------

  /** The data of the TLV at the `n`-th place of the walk; None behind the last TLV, and for data that
      would lie outside the frame. */
  function ValueAt(m: seq<Byte>, e: nat, n: nat): Option<seq<Byte>>
    requires InMemory(m, e, FIRST)
  {
    match Hop(m, e, FIRST, n)
    case None => None
    case Some(at) =>
      if at + TLV_HEADER_SIZE + GetDataSize(m, at) <= e
      then Some(m[at + TLV_HEADER_SIZE..at + TLV_HEADER_SIZE + GetDataSize(m, at)]) else None
  }

  /** What DoLog makes of a frame that lies in memory before `beyond`: the walk decides, and the values are
      taken where the walk finds them. */
  function DecodeMemory(frame: seq<Byte>, beyond: seq<Byte>): Outcome
    requires |beyond| >= SLACK
  {
    if !HeaderAccepted(frame) then Refused
    else
      var m, e := frame + beyond, EndOf(frame);
      match Walk(m, e, FIRST, e)
      case Accepted(_) => OutcomeOf(frame[FLAP_CHANNEL_OFFSET], ServiceField(m), (i: nat) => ValueAt(m, e, i))
      case Rejected => Refused
      case Running => Endless
  }

  lemma TilePlace(m: seq<Byte>, e: nat, ts: seq<RawTlv>, k: nat)
    requires FIRST <= e < 65542 && e + SLACK <= |m| && Tiles(ts, m, FIRST, e) && k < |ts|
    ensures var place := FIRST + |Body(ts[..k])|;
            && place + TLV_HEADER_SIZE + |ts[k].data| <= e
            && GetDataSize(m, place) == |ts[k].data|
            && m[place + TLV_HEADER_SIZE..place + TLV_HEADER_SIZE + |ts[k].data|] == ts[k].data
  {
    BodyAt(ts, k);
    SliceOfSlice(m, FIRST, e, |Body(ts[..k])|, |Body(ts[..k + 1])|);
    TlvInMemory(m, FIRST + |Body(ts[..k])|, ts[k]);
  }

  lemma TlvInMemory(m: seq<Byte>, at: nat, t: RawTlv)
    requires Fits(t) && at + TLV_HEADER_SIZE + |t.data| <= |m| && |t.data| <= 65531
    requires m[at..at + TLV_HEADER_SIZE + |t.data|] == TlvBytes(t.typ, t.data)
    ensures GetDataSize(m, at) == |t.data|
    ensures m[at + TLV_HEADER_SIZE..at + TLV_HEADER_SIZE + |t.data|] == t.data
  {
    WrittenHeader(m, at, t.typ, t.data);
    SplitSlice(m, at, BigEndian(2, t.typ) + BigEndian(2, |t.data|), t.data);
  }

  /** On a tiled body the walk finds the values of the tiles. */
  lemma ValuesOfTiling(m: seq<Byte>, e: nat, ts: seq<RawTlv>, k: nat)
    requires FIRST <= e < 65542 && e + SLACK <= |m| && NoWrap(m, e, FIRST) && Tiles(ts, m, FIRST, e)
    ensures ValueAt(m, e, k) == Values(ts)(k)
  {
    hide NoWrap, Tiles, Hop, GetDataSize;
    if k < |ts| {
      VisitsTileStarts(m, e, FIRST, ts, k);
      TilePlace(m, e, ts, k);
    } else {
      VisitsTileStarts(m, e, FIRST, ts, |ts|);
      assert ts[..|ts|] == ts;
      EndOfTiling(m, e, ts);
      NothingBehind(m, e, FIRST, |ts|, k);
    }
  }

  lemma {:induction false} EndOfTiling(m: seq<Byte>, e: nat, ts: seq<RawTlv>)
    requires FIRST <= e <= |m| && Tiles(ts, m, FIRST, e)
    ensures FIRST + |Body(ts)| == e
  {
  }

  lemma {:induction false} NothingBehind(m: seq<Byte>, e: nat, off: nat, n: nat, k: nat)
    requires InMemory(m, e, off) && Hop(m, e, off, n) == Some(e) && n <= k
    ensures Hop(m, e, off, k) == if k == n then Some(e) else None
    decreases n
  {
    if n > 0 {
      NothingBehind(m, e, Next(m, off), n - 1, k - 1);
    }
  }

  lemma SameValues(channel: Byte, service: nat, v: nat -> Option<seq<Byte>>, w: nat -> Option<seq<Byte>>)
    requires forall i: nat :: v(i) == w(i)
    ensures OutcomeOf(channel, service, v) == OutcomeOf(channel, service, w)
  {
    hide ByteValue, Int8Value, Int64Value;
  }

  /** Where no visited length is near the wrap, the outcome is what the frame means under the grammar,
      whatever lies behind it. */
  lemma {:induction false} MemoryDoesNotMatter(frame: seq<Byte>, beyond: seq<Byte>)
    requires |beyond| >= SLACK
    requires HeaderAccepted(frame) ==> NoWrap(frame + beyond, EndOf(frame), FIRST)
    ensures DecodeMemory(frame, beyond) == Decode(frame)
  {
    if HeaderAccepted(frame) && EndOf(frame) >= FIRST {
      var m, e := frame + beyond, EndOf(frame);
      assert m[FIRST..e] == frame[FIRST..e] && m[6..8] == frame[6..8];
      WalkFollowsGrammar(m, e, FIRST, e);
      hide NoWrap, Walk, OutcomeOf, ServiceField;
      if ParseTlvs(m[FIRST..e]).Some? {
        var ts := ParseTlvs(m[FIRST..e]).value;
        BodyOfParse(m[FIRST..e]);
        forall i: nat
          ensures ValueAt(m, e, i) == Values(ts)(i)
        {
          ValuesOfTiling(m, e, ts, i);
        }
        SameValues(frame[FLAP_CHANNEL_OFFSET], ServiceField(m), (i: nat) => ValueAt(m, e, i), Values(ts));
      }
    }
  }

  lemma {:induction false} NeverRefused(frame: seq<Byte>, beyond: seq<Byte>)
    requires |beyond| >= SLACK && HeaderAccepted(frame)
    requires Walk(frame + beyond, EndOf(frame), FIRST, EndOf(frame)).Accepted?
    ensures DecodeMemory(frame, beyond) != Refused && DecodeMemory(frame, beyond) != Endless
  {
    hide ByteValue, Int8Value, Int64Value, ValueAt, Walk;
  }

  /** In memory, too, whatever can be built is decoded to exactly the fields that its command carries. */
  lemma FlapRoundTripInMemory(p: LogPackage, requestId: nat, beyond: seq<Byte>)
    requires Encode(p, requestId).Success? && |beyond| >= SLACK
    ensures DecodeMemory(Encode(p, requestId).value, beyond) == Emitted(Carried(p))
  {
    hide DecodeMemory, Decode, Encode, NoWrap, Walk;
    var f := Encode(p, requestId).value;
    BuiltFrameParses(p, requestId);
    BuiltFrameCounts(p, requestId, beyond, |f|);
    MemoryDoesNotMatter(f, beyond);
    FlapRoundTrip(p, requestId);
  }

  // ----- the adaptor itself ------------------------------------------------------------------

  /** The iterator stands at the `k`-th place of an accepted walk, or at its end behind the last one. */
  ghost predicate AtPlace(it: TlvIterator, k: nat)
    reads it
  {
    && FIRST <= it.endPtr && it.endPtr + SLACK <= |it.m|
    && Walk(it.m, it.endPtr, FIRST, it.endPtr).Accepted?
    && it.begin == Place(it.m, it.endPtr, k)
    && it.end == if it.begin == it.endPtr then it.begin else Next(it.m, it.begin)
  }

  function Place(m: seq<Byte>, e: nat, k: nat): nat
    requires InMemory(m, e, FIRST)
  {
    var at := Hop(m, e, FIRST, k);
    if at.Some? then at.value else e
  }

  /** The places of an accepted walk lie before the end, and each is one step behind the other. */
  lemma {:induction false} AcceptedStep(m: seq<Byte>, e: nat, off: nat, fuel: nat, k: nat)
    requires InMemory(m, e, off) && Walk(m, e, off, fuel).Accepted?
    ensures var at := Hop(m, e, off, k);
            && (at.Some? ==> at.value <= e)
            && (at.Some? && at.value < e ==>
                  Next(m, at.value) <= e && Hop(m, e, off, k + 1) == Some(Next(m, at.value)))
            && (at.None? || at.value == e ==> Hop(m, e, off, k + 1).None?)
    decreases k
  {
    if k > 0 && off != e {
      AcceptedStep(m, e, Next(m, off), fuel - 1, k - 1);
    } else if off != e {
      assert Hop(m, e, Next(m, off), 0) == Some(Next(m, off));
    }
  }

  /** get_value at the iterator; None behind the last TLV and when the data would lie outside the frame, where
      the behaviour of the source is undefined. */
  method Get(it: TlvIterator, ghost k: nat) returns (data: Option<seq<Byte>>)
    requires AtPlace(it, k)
    ensures data == ValueAt(it.m, it.endPtr, k)
  {
    hide GetDataSize;
    if it.begin == it.endPtr {
      return None;
    }
    var from := it.begin + TLV_HEADER_SIZE;
    var size := GetDataSize(it.m, it.begin);
    return if from + size <= it.endPtr then Some(it.m[from..from + size]) else None;
  }

  /** get_value, then ++it. */
  method GetAndStep(it: TlvIterator, ghost k: nat) returns (data: Option<seq<Byte>>)
    requires AtPlace(it, k)
    modifies it
    ensures data == ValueAt(it.m, it.endPtr, k)
    ensures AtPlace(it, k + 1)
  {
    data := Get(it, k);
    hide Walk, ValueAt, Hop, Next;
    AcceptedStep(it.m, it.endPtr, FIRST, it.endPtr, k);
    AcceptedStep(it.m, it.endPtr, FIRST, it.endPtr, k + 1);
    var ok := it.Advance();
    assert ok;
  }

  function AllValues(it: TlvIterator): nat -> Option<seq<Byte>>
    requires InMemory(it.m, it.endPtr, FIRST)
  {
    (i: nat) => ValueAt(it.m, it.endPtr, i)
  }

  method ReadMessage(it: TlvIterator) returns (r: Outcome)
    requires AtPlace(it, 0)
    modifies it
    ensures r == MessageOf(AllValues(it))
  {
    hide ValueAt, ByteValue, Int8Value, Int64Value;
    var tag := GetAndStep(it, 0);
    var severity := GetAndStep(it, 1);
    var message := GetAndStep(it, 2);
    var channel := GetAndStep(it, 3);
    var sec := GetAndStep(it, 4);
    var nsec := Get(it, 5);
    if tag.None? || severity.None? || message.None? || channel.None? || sec.None? || nsec.None? {
      return Undefined;
    }
    match (ByteValue(severity.value), Int8Value(channel.value), Int64Value(sec.value), Int64Value(nsec.value)) {
      case (Some(sv), Some(c), Some(s), Some(u)) =>
        r := Emitted(LoggedMessage(tag.value, sv, message.value, c, Timespec(s, u)));
      case _ => r := Undefined;
    }
  }

  method ReadNewFile(it: TlvIterator) returns (r: Outcome)
    requires AtPlace(it, 0)
    modifies it
    ensures r == NewFileOf(AllValues(it))
  {
    hide ValueAt, Int8Value, Int64Value;
    var prefix := GetAndStep(it, 0);
    var suffix := GetAndStep(it, 1);
    var channel := GetAndStep(it, 2);
    var sec := GetAndStep(it, 3);
    var nsec := Get(it, 4);
    if prefix.None? || suffix.None? || channel.None? || sec.None? || nsec.None? {
      return Undefined;
    }
    match (Int8Value(channel.value), Int64Value(sec.value), Int64Value(nsec.value)) {
      case (Some(c), Some(s), Some(u)) =>
        r := Emitted(LoggedNewFile(prefix.value, suffix.value, c, Timespec(s, u)));
      case _ => r := Undefined;
    }
  }

  method ReadStop(it: TlvIterator) returns (r: Outcome)
    requires AtPlace(it, 0)
    modifies it
    ensures r == StopOf(AllValues(it))
  {
    hide ValueAt, Int8Value, Int64Value;
    var channel := GetAndStep(it, 0);
    var sec := GetAndStep(it, 1);
    var nsec := Get(it, 2);
    if channel.None? || sec.None? || nsec.None? {
      return Undefined;
    }
    match (Int8Value(channel.value), Int64Value(sec.value), Int64Value(nsec.value)) {
      case (Some(c), Some(s), Some(u)) => r := Emitted(LoggedStop(c, Timespec(s, u)));
      case _ => r := Undefined;
    }
  }

  /** DoLog on a frame followed in memory by `beyond`, wherever the counting loop ends. */
  method DoLog(frame: seq<Byte>, beyond: seq<Byte>) returns (r: Outcome)
    requires |beyond| >= SLACK
    requires HeaderAccepted(frame) ==> NeverStalls(frame + beyond, EndOf(frame), FIRST)
    ensures r == DecodeMemory(frame, beyond)
    ensures (HeaderAccepted(frame) ==> NoWrap(frame + beyond, EndOf(frame), FIRST)) ==> r == Decode(frame)
  {
    if HeaderAccepted(frame) ==> NoWrap(frame + beyond, EndOf(frame), FIRST) {
      MemoryDoesNotMatter(frame, beyond);
    }
    hide NeverStalls, NoWrap, Decode, Walk, MessageOf, NewFileOf, StopOf;
    if !HeaderAccepted(frame) {
      return Refused;
    }
    var m, e := frame + beyond, EndOf(frame);
    var count := CalcTlvCount(m, e);
    if !count.Accepted? {
      return Refused;
    }
    var it := new TlvIterator(m, e, FIRST);
    AcceptedStep(m, e, FIRST, e, 0);
    assert AllValues(it) == ((i: nat) => ValueAt(m, e, i));
    if frame[FLAP_CHANNEL_OFFSET] == CHANNEL_MESSAGE {
      r := ReadMessage(it);
    } else if ServiceField(m) == SERVICE_START {
      r := ReadNewFile(it);
    } else if ServiceField(m) == SERVICE_STOP {
      r := ReadStop(it);
    } else {
      r := Ignored;
    }
  }

}
