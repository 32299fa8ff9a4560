/** Log records and how they travel: utils/logbuilder.h, oscar/proto.h and the encoding switch of
    logclient/logclient.cpp. */
module LogPackages {
  import opened Bytes
  import opened FlapBuilder
  import opened Tlv
  import opened TlvList
  import opened Wrappers

  type Int8 = x: int | -0x80 <= x < 0x80
  type Int64 = x: int | -0x8000_0000_0000_0000 <= x < 0x8000_0000_0000_0000

  /** Seconds and, in the second field, microseconds. */
  datatype Timespec = Timespec(sec: Int64, nsec: Int64)

  /** `Other` is any value of the underlying byte that is not one of the three commands. */
  datatype Command = Message | ChangeFile | Stop | Other

  datatype LogPackage = LogPackage(message: seq<Byte>, tag: seq<Byte>, timestamp: Timespec,
                                   command: Command, severity: Byte, channel: Int8)

  // ----- protocol numbers -------------------------------------------------------

  const CHANNEL_CONTROL: Byte := 0
  const CHANNEL_MESSAGE: Byte := 1

  const SERVICE_START: nat := 2
  const SERVICE_STOP: nat := 3
  const SERVICE_MESSAGE: nat := 4

  const SUBTYPE_LOG_FILE_NAME: nat := 5
  const SUBTYPE_LOG_STOP: nat := 6
  const SUBTYPE_LOG_MESSAGE: nat := 7

  const TLV_LOG_MODULE: nat := 8
  const TLV_LOG_TIMESTAMP_SEC: nat := 9
  const TLV_LOG_TIMESTAMP_MICROSEC: nat := 10
  const TLV_LOG_SEVERITY: nat := 11
  const TLV_LOG_TEXT: nat := 12
  const TLV_LOG_NAME_PREFIX: nat := 13
  const TLV_LOG_NAME_SUFFIX: nat := 14
  const TLV_LOG_CHANNEL: nat := 15

  function TailFields(p: LogPackage): seq<Field>
  {
    [Field(TLV_LOG_CHANNEL, Num(INT8, p.channel)),
     Field(TLV_LOG_TIMESTAMP_SEC, Num(INT64, p.timestamp.sec)),
     Field(TLV_LOG_TIMESTAMP_MICROSEC, Num(INT64, p.timestamp.nsec))]
  }

  function Fields(p: LogPackage): (fields: seq<Field>)
    ensures forall f :: f in fields ==> f.typ < 65536
  {
    match p.command
    case Message =>
      [Field(TLV_LOG_MODULE, Text(p.tag)), Field(TLV_LOG_SEVERITY, Num(UINT8, p.severity)),
       Field(TLV_LOG_TEXT, Text(p.message))] + TailFields(p)
    case ChangeFile =>
      [Field(TLV_LOG_NAME_PREFIX, Text(p.message)), Field(TLV_LOG_NAME_SUFFIX, Text(p.tag))] + TailFields(p)
    case Stop => TailFields(p)
    case Other => []
  }

  function ChannelOf(c: Command): Byte
  {
    if c.Message? then CHANNEL_MESSAGE else CHANNEL_CONTROL
  }

  function ServiceOf(c: Command): nat
  {
    match c
    case Message => SERVICE_MESSAGE
    case ChangeFile => SERVICE_START
    case _ => SERVICE_STOP
  }

  function SubtypeOf(c: Command): nat
  {
    match c
    case Message => SUBTYPE_LOG_MESSAGE
    case ChangeFile => SUBTYPE_LOG_FILE_NAME
    case _ => SUBTYPE_LOG_STOP
  }

  /** The frame sent for a package, or the exception that building it throws. */
  function Encode(p: LogPackage, requestId: nat): Result<seq<Byte>, BuildError>
  {
    if p.command.Other? then Failure(WrongPackage)
    else if SnacSize(Fields(p)) > 65535 then Failure(OverflowSnacSize)
    else Success(FrameBytes(ChannelOf(p.command), ServiceOf(p.command), SubtypeOf(p.command), requestId, Fields(p)))
  }

  /** The switch of CLogClient::WriteNextMessage. */
  method BuildFrame(p: LogPackage, requestId: nat) returns (r: Result<seq<Byte>, BuildError>)
    ensures r == Encode(p, requestId)
  {
    match p.command {
      case Message =>
        r := MakeFlapPackage(CHANNEL_MESSAGE, SERVICE_MESSAGE, SUBTYPE_LOG_MESSAGE, requestId, Fields(p));
      case ChangeFile =>
        r := MakeFlapPackage(CHANNEL_CONTROL, SERVICE_START, SUBTYPE_LOG_FILE_NAME, requestId, Fields(p));
      case Stop =>
        r := MakeFlapPackage(CHANNEL_CONTROL, SERVICE_STOP, SUBTYPE_LOG_STOP, requestId, Fields(p));
      case Other =>
        r := Failure(WrongPackage);
    }
  }

  /** Building fails exactly for an unknown command, or when the texts are too long: the SNAC of a
      message holds 52 bytes beside its two texts and that of a new-file package 47. */
  lemma EncodeFailsExactlyWhen(p: LogPackage, requestId: nat)
    ensures Encode(p, requestId).Failure? <==>
            || p.command.Other?
            || (p.command.Message? && |p.tag| + |p.message| > 65535 - 52)
            || (p.command.ChangeFile? && |p.tag| + |p.message| > 65535 - 47)
  {
    var ts := Raws(Fields(p));
    if p.command.Message? {
      var a, b := ts[1..], ts[1..][1..];
      assert b[1..] == Raws(TailFields(p));
      assert |Body(b)| == TLV_HEADER_SIZE + |p.message| + |Body(b[1..])|;
      assert |Body(a)| == TLV_HEADER_SIZE + 1 + |Body(b)|;
    } else if p.command.ChangeFile? {
      var a := ts[1..];
      assert a[1..] == Raws(TailFields(p));
      assert |Body(a)| == TLV_HEADER_SIZE + |p.tag| + |Body(a[1..])|;
    }
    TailLength(p);
  }

  lemma TailLength(p: LogPackage)
    ensures |Body(Raws(TailFields(p)))| == 29
  {
    var ts := Raws(TailFields(p));
    var a, b := ts[1..], ts[1..][1..];
    assert |Body(b)| == TLV_HEADER_SIZE + 8 + |Body(b[1..])|;
    assert |Body(a)| == TLV_HEADER_SIZE + 8 + |Body(b)|;
  }

  // ----- what a frame carries --------------------------------------------------------

  /** What the receiver logs: the fields that the command carries, and no others. */
  datatype Logged =
    | LoggedMessage(tag: seq<Byte>, severity: Byte, message: seq<Byte>, channel: Int8, timestamp: Timespec)
    | LoggedNewFile(prefix: seq<Byte>, suffix: seq<Byte>, channel: Int8, timestamp: Timespec)
    | LoggedStop(channel: Int8, timestamp: Timespec)

  function Carried(p: LogPackage): Logged
    requires !p.command.Other?
  {
    match p.command
    case Message => LoggedMessage(p.tag, p.severity, p.message, p.channel, p.timestamp)
    case ChangeFile => LoggedNewFile(p.message, p.tag, p.channel, p.timestamp)
    case Stop => LoggedStop(p.channel, p.timestamp)
  }

  /** A logged record agrees with a package, field by field. */
  ghost predicate Says(log: Logged, p: LogPackage)
  {
    match log
    case LoggedMessage(tag, severity, message, channel, t) =>
      p.command == Message && tag == p.tag && severity == p.severity && message == p.message
      && channel == p.channel && t == p.timestamp
    case LoggedNewFile(prefix, suffix, channel, t) =>
      p.command == ChangeFile && prefix == p.message && suffix == p.tag && channel == p.channel && t == p.timestamp
    case LoggedStop(channel, t) =>
      p.command == Stop && channel == p.channel && t == p.timestamp
  }

  lemma CarriedIsSaid(log: Logged, p: LogPackage)
    ensures Says(log, p) <==> !p.command.Other? && log == Carried(p)
  {
  }
}
