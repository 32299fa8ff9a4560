/** The wire format of the three frames, byte by byte (oscar/proto.h, oscar/snac.h, oscar/flap_builder.h): what the
    builder puts on the wire, and what the adaptor makes of whatever comes from it. */
module WireFormat {
  import opened Bytes
  import opened FlapBuilder
  import opened FlapParser
  import opened LogPackages
  import opened OscarLogger
  import opened Tlv
  import opened TlvList
  import opened Wrappers

  /** Two bytes, the high one first. */
  function Word(n: nat): seq<Byte>
  {
    [n / 0x100 % 0x100, n % 0x100]
  }

  /** A TLV of a type below 256. */
  function OneTlv(typ: Byte, data: seq<Byte>): seq<Byte>
  {
    [0, typ] + Word(|data|) + data
  }

  /** Mark, channel, sequence number 0 and size; service, subtype, flags and request id; the TLVs. */
  function Frame(channel: Byte, service: Byte, subtype: Byte, requestId: nat, tlvs: seq<Byte>): seq<Byte>
  {
    [0x2A, channel, 0, 0] + Word(10 + |tlvs|)
    + ([0, service, 0, subtype, 0xFF, 0xFF] + [requestId / 0x100_0000 % 0x100, requestId / 0x1_0000 % 0x100,
                                              requestId / 0x100 % 0x100, requestId % 0x100])
    + tlvs
  }

  /** Channel, seconds and microseconds. */
  function Tail(p: LogPackage): seq<Byte>
  {
    OneTlv(15, [p.channel % 0x100])
    + (OneTlv(9, BigEndian(8, p.timestamp.sec)) + OneTlv(10, BigEndian(8, p.timestamp.nsec)))
  }

  lemma {:induction false} WordIs(n: nat)
    ensures BigEndian(2, n) == Word(n)
  {
    assert BigEndian(1, n / 256) == [n / 256 % 256];
  }

  lemma {:induction false} QuadIs(n: nat)
    ensures BigEndian(4, n) == [n / 0x100_0000 % 0x100, n / 0x1_0000 % 0x100, n / 0x100 % 0x100, n % 0x100]
  {
    var a := n / 0x100;
    WordIs(a / 0x100);
    assert n / 0x1_0000 == a / 0x100 && n / 0x100_0000 == a / 0x100 / 0x100;
    assert BigEndian(3, a) == BigEndian(2, a / 0x100) + [a % 0x100];
  }

  lemma {:induction false} TlvIs(typ: Byte, data: seq<Byte>)
    ensures TlvBytes(typ, data) == OneTlv(typ, data)
  {
    WordIs(typ);
    WordIs(|data|);
  }

  lemma {:induction false} SnacHeaderIs(service: Byte, subtype: Byte, requestId: nat)
    ensures SnacHeader(service, subtype, requestId) ==
            [0, service, 0, subtype, 0xFF, 0xFF] + [requestId / 0x100_0000 % 0x100, requestId / 0x1_0000 % 0x100,
                                                    requestId / 0x100 % 0x100, requestId % 0x100]
  {
    WordIs(service);
    WordIs(subtype);
    WordIs(SNAC_FLAGS);
    QuadIs(requestId);
    hide BigEndian;
  }

  lemma {:induction false} FlapHeaderIs(channel: Byte, size: nat)
    ensures FlapHeader(channel, size) == [0x2A, channel, 0, 0] + Word(size)
  {
    WordIs(0);
    WordIs(size);
    hide BigEndian;
  }

  lemma {:induction false} FrameIs(channel: Byte, service: Byte, subtype: Byte, requestId: nat, fields: seq<Field>)
    ensures FrameBytes(channel, service, subtype, requestId, fields) ==
            Frame(channel, service, subtype, requestId, Body(Raws(fields)))
  {
    var body := Body(Raws(fields));
    hide Body, Word, BigEndian;
    FlapHeaderIs(channel, 10 + |body|);
    SnacHeaderIs(service, subtype, requestId);
    assert FrameBytes(channel, service, subtype, requestId, fields) ==
           FlapHeader(channel, 10 + |body|) + SnacHeader(service, subtype, requestId) + body;
  }

  lemma {:induction false} BodyOfThree(a: RawTlv, b: RawTlv, c: RawTlv)
    ensures Body([a, b, c]) == TlvBytes(a.typ, a.data) + (TlvBytes(b.typ, b.data) + TlvBytes(c.typ, c.data))
  {
    assert Body([]) == [];
    hide TlvBytes, Body;
    assert [a, b, c] == [a] + [b, c] && [b, c] == [b] + [c] && [c] == [c] + [];
    BodyFirst(a, [b, c]);
    BodyFirst(b, [c]);
    BodyFirst(c, []);
    assert TlvBytes(c.typ, c.data) + [] == TlvBytes(c.typ, c.data);
  }

  lemma {:induction false} BodyOfTail(p: LogPackage)
    ensures Body(Raws(TailFields(p))) == Tail(p)
  {
    var ts := Raws(TailFields(p));
    assert BigEndian(1, p.channel) == [p.channel % 0x100];
    hide BigEndian, Body;
    assert ts == [RawTlv(15, [p.channel % 0x100]), RawTlv(9, BigEndian(8, p.timestamp.sec)),
                  RawTlv(10, BigEndian(8, p.timestamp.nsec))];
    BodyOfThree(ts[0], ts[1], ts[2]);
    TlvIs(15, ts[0].data);
    TlvIs(9, ts[1].data);
    TlvIs(10, ts[2].data);
  }

  lemma {:induction false} BodyOfMessage(p: LogPackage)
    requires p.command.Message?
    ensures Body(Raws(Fields(p))) ==
            OneTlv(8, p.tag) + (OneTlv(11, [p.severity]) + OneTlv(12, p.message)) + Tail(p)
  {
    var texts := [RawTlv(8, p.tag), RawTlv(11, [p.severity]), RawTlv(12, p.message)];
    assert BigEndian(1, p.severity) == [p.severity];
    hide BigEndian, Body;
    assert Raws(Fields(p)) == texts + Raws(TailFields(p));
    BodyAppend(texts, Raws(TailFields(p)));
    BodyOfThree(texts[0], texts[1], texts[2]);
    BodyOfTail(p);
    TlvIs(8, p.tag);
    TlvIs(11, [p.severity]);
    TlvIs(12, p.message);
  }

  lemma {:induction false} BodyOfNewFile(p: LogPackage)
    requires p.command.ChangeFile?
    ensures Body(Raws(Fields(p))) == OneTlv(13, p.message) + (OneTlv(14, p.tag) + Tail(p))
  {
    var a, b, rest := RawTlv(13, p.message), RawTlv(14, p.tag), Raws(TailFields(p));
    hide Body;
    assert Raws(Fields(p)) == [a] + ([b] + rest);
    BodyFirst(a, [b] + rest);
    BodyFirst(b, rest);
    BodyOfTail(p);
    TlvIs(13, p.message);
    TlvIs(14, p.tag);
  }

  /** Every frame that is built, byte by byte. */
  lemma {:induction false} FramesByteByByte(p: LogPackage, requestId: nat)
    requires Encode(p, requestId).Success?
    ensures Encode(p, requestId).value ==
            match p.command
            case Message =>
              Frame(1, 4, 7, requestId, OneTlv(8, p.tag) + (OneTlv(11, [p.severity]) + OneTlv(12, p.message)) + Tail(p))
            case ChangeFile => Frame(0, 2, 5, requestId, OneTlv(13, p.message) + (OneTlv(14, p.tag) + Tail(p)))
            case _ => Frame(0, 3, 6, requestId, Tail(p))
  {
    hide Frame, FrameBytes, Tail, OneTlv, Body;
    FrameIs(ChannelOf(p.command), ServiceOf(p.command), SubtypeOf(p.command), requestId, Fields(p));
    match p.command {
      case Message => BodyOfMessage(p);
      case ChangeFile => BodyOfNewFile(p);
      case Stop => BodyOfTail(p);
    }
  }

  // ----- what comes from the wire -------------------------------------------------------------------

  /** A frame whose body, as its size says, are the TLVs; more bytes may follow. */
  ghost predicate Brings(frame: seq<Byte>, ts: seq<RawTlv>)
  {
    && |frame| >= 16 && frame[0] == 0x2A && frame[1] <= 1
    && var high: int, low: int := frame[4], frame[5];
    var n := 0x100 * high + low;
    && 10 <= n <= |frame| - 6 && frame[16..6 + n] == Body(ts)
    && forall i :: 0 <= i < |ts| ==> ts[i].typ < 0x1_0000 && |ts[i].data| < 0x1_0000
  }

  function Service(frame: seq<Byte>): int
    requires |frame| >= 16
  {
    var high: int, low: int := frame[6], frame[7];
    0x100 * high + low
  }

  /** The record's fields stand in these places, whatever the types of the TLVs. */
  ghost predicate Holds(ts: seq<RawTlv>, log: Logged)
  {
    match log
    case LoggedMessage(tag, severity, message, channel, t) =>
      && |ts| >= 6 && ts[0].data == tag && ts[1].data == [severity] && ts[2].data == message
      && ts[3].data == BigEndian(1, channel) && ts[4].data == BigEndian(8, t.sec) && ts[5].data == BigEndian(8, t.nsec)
    case LoggedNewFile(prefix, suffix, channel, t) =>
      && |ts| >= 5 && ts[0].data == prefix && ts[1].data == suffix
      && ts[2].data == BigEndian(1, channel) && ts[3].data == BigEndian(8, t.sec) && ts[4].data == BigEndian(8, t.nsec)
    case LoggedStop(channel, t) =>
      && |ts| >= 3
      && ts[0].data == BigEndian(1, channel) && ts[1].data == BigEndian(8, t.sec) && ts[2].data == BigEndian(8, t.nsec)
  }

  /** The kind of record that a frame's channel and service stand for. */
  ghost predicate KindOf(frame: seq<Byte>, log: Logged)
    requires |frame| >= 16
  {
    match log
    case LoggedMessage(_, _, _, _, _) => frame[1] == 1
    case LoggedNewFile(_, _, _, _) => frame[1] == 0 && Service(frame) == 2
    case LoggedStop(_, _) => frame[1] == 0 && Service(frame) == 3
  }

  /** Which frames pass the parser's checks of mark, channel and size. */
  lemma {:induction false} HeaderAcceptedIff(frame: seq<Byte>)
    ensures HeaderAccepted(frame) <==>
            && |frame| >= 6 && frame[0] == 0x2A && frame[1] <= 1
            && var high: int, low: int := frame[4], frame[5]; |frame| >= 6 + 0x100 * high + low
  {
    if |frame| >= 6 {
      U16OfBytes(frame[4..6]);
    }
  }

  lemma {:induction false} ByteReads(data: seq<Byte>, b: Byte)
    ensures ByteValue(data) == Some(b) <==> data == [b]
  {
    WidthBounds();
    if |data| == 1 {
      UnpackRoundTrip(UINT8, data);
    }
    assert Pack(UINT8, b) == [b];
    PackRoundTrip(UINT8, b);
  }

  lemma {:induction false} Int8Reads(data: seq<Byte>, c: Int8)
    ensures Int8Value(data) == Some(c) <==> data == BigEndian(1, c)
  {
    WidthBounds();
    PackRoundTrip(INT8, c);
    if |data| == 1 {
      UnpackRoundTrip(INT8, data);
    }
  }

  lemma {:induction false} Int64Reads(data: seq<Byte>, n: Int64)
    ensures Int64Value(data) == Some(n) <==> data == BigEndian(8, n)
  {
    WidthBounds();
    hide BigEndian;
    PackRoundTrip(INT64, n);
    if |data| == 8 {
      UnpackRoundTrip(INT64, data);
    }
  }

  lemma {:induction false} MessageIs(ts: seq<RawTlv>, log: Logged)
    ensures MessageOf(Values(ts)) == Emitted(log) <==> log.LoggedMessage? && Holds(ts, log)
    ensures MessageOf(Values(ts)).Emitted? || MessageOf(Values(ts)) == Undefined
  {
    if |ts| >= 6 && log.LoggedMessage? {
      ByteReads(ts[1].data, log.severity);
      Int8Reads(ts[3].data, log.channel);
      Int64Reads(ts[4].data, log.timestamp.sec);
      Int64Reads(ts[5].data, log.timestamp.nsec);
    }
    hide ByteValue, Int8Value, Int64Value, BigEndian;
  }

  lemma {:induction false} NewFileIs(ts: seq<RawTlv>, log: Logged)
    ensures NewFileOf(Values(ts)) == Emitted(log) <==> log.LoggedNewFile? && Holds(ts, log)
    ensures NewFileOf(Values(ts)).Emitted? || NewFileOf(Values(ts)) == Undefined
  {
    if |ts| >= 5 && log.LoggedNewFile? {
      Int8Reads(ts[2].data, log.channel);
      Int64Reads(ts[3].data, log.timestamp.sec);
      Int64Reads(ts[4].data, log.timestamp.nsec);
    }
    hide ByteValue, Int8Value, Int64Value, BigEndian;
  }

  lemma {:induction false} StopIs(ts: seq<RawTlv>, log: Logged)
    ensures StopOf(Values(ts)) == Emitted(log) <==> log.LoggedStop? && Holds(ts, log)
    ensures StopOf(Values(ts)).Emitted? || StopOf(Values(ts)) == Undefined
  {
    if |ts| >= 3 && log.LoggedStop? {
      Int8Reads(ts[0].data, log.channel);
      Int64Reads(ts[1].data, log.timestamp.sec);
      Int64Reads(ts[2].data, log.timestamp.nsec);
    }
    hide ByteValue, Int8Value, Int64Value, BigEndian;
  }

  lemma {:induction false} BroughtFrame(frame: seq<Byte>, ts: seq<RawTlv>)
    requires Brings(frame, ts)
    ensures Decode(frame) == OutcomeOf(frame[1], Service(frame), Values(ts))
  {
    hide OutcomeOf, ParseTlvs, Body, U16, Values;
    U16OfBytes(frame[4..6]);
    U16OfBytes(frame[6..8]);
    ParseOfBody(ts);
    assert SnacSizeOf(frame) == U16(frame[4..6]) && ServiceField(frame) == U16(frame[6..8]);
  }

  /** What any well-formed frame means: it is logged as exactly the record whose fields its TLVs hold in their places,
      of the kind that channel and service say; frames of other control services are ignored, and only a TLV
      that is missing or of the wrong size leaves the outcome undefined. */
  lemma {:induction false} WhatAFrameMeans(frame: seq<Byte>, ts: seq<RawTlv>, log: Logged)
    requires Brings(frame, ts)
    ensures Decode(frame) == Emitted(log) <==> Holds(ts, log) && KindOf(frame, log)
    ensures Decode(frame) == Ignored <==> frame[1] == 0 && Service(frame) != 2 && Service(frame) != 3
    ensures Decode(frame).Emitted? || Decode(frame) == Ignored || Decode(frame) == Undefined
  {
    BroughtFrame(frame, ts);
    hide Decode, Holds, MessageOf, NewFileOf, StopOf;
    MessageIs(ts, log);
    NewFileIs(ts, log);
    StopIs(ts, log);
  }
}
