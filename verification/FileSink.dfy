/** CFileSink (proxy/sink.cpp): batches of records appended to named files, where control records of the
    sink's own channel close the file or start a new one. The formatted local time inside a file name comes
    from an oracle, one value for each record; files that cannot be opened are not modelled. */
module FileSink {
  import opened Bytes
  import opened LogPackages
  import opened Seqs
  import opened Wrappers

  const LOG_INTERNAL_CHANNEL: Int8 := 0
  const UNDERSCORE: Byte := 0x5F
  const MINUS: Byte := 0x2D

  type Name = seq<Byte>

  /** The file name template filled in with the local time, split into stem and extension. */
  datatype Stamp = Stamp(stem: Name, extension: Name)

  /** A log record with the local time that goes into a file name created when it is handled. */
  datatype Record = Record(log: LogPackage, now: Stamp)

  datatype Line = Line(timestamp: Timespec, tag: seq<Byte>, severity: Byte, message: seq<Byte>)

  /** `files` holds the lines appended to each file. */
  datatype Sink = Sink(channel: Int8, fileName: Name, prefix: Name, suffix: Name, files: map<Name, seq<Line>>)

  function LineOf(p: LogPackage): Line
  {
    Line(p.timestamp, p.tag, p.severity, p.message)
  }

  function Lines(files: map<Name, seq<Line>>, name: Name): seq<Line>
  {
    if name in files then files[name] else []
  }

  /** Line by line, and field by field, the lines are what the messages say. */
  ghost predicate Hold(lines: seq<Line>, ps: seq<LogPackage>)
  {
    && |lines| == |ps|
    && forall k :: 0 <= k < |ps| ==>
         && lines[k].timestamp == ps[k].timestamp && lines[k].tag == ps[k].tag
         && lines[k].severity == ps[k].severity && lines[k].message == ps[k].message
  }

  /** The lines of a file before are still its first ones, and behind them are the messages. */
  ghost predicate Extended(before: seq<Line>, after: seq<Line>, ps: seq<LogPackage>)
  {
    before <= after && Hold(after[|before|..], ps)
  }

  /** One file has gained the messages, and all others are as they were. */
  ghost predicate Gained(before: map<Name, seq<Line>>, after: map<Name, seq<Line>>, name: Name, ps: seq<LogPackage>)
  {
    && Extended(Lines(before, name), Lines(after, name), ps)
    && forall n :: n != name ==> Lines(after, n) == Lines(before, n)
  }

  // ----- file names -----------------------------------------------------------------------------

  function Digits(n: nat): (r: Name)
    ensures r != [] && forall i :: 0 <= i < |r| ==> 0x30 <= r[i] < 0x3A
  {
    if n < 10 then [0x30 + n] else Digits(n / 10) + [0x30 + n % 10]
  }

  /** std::to_string of the channel's number. */
  function ChannelText(channel: Int8): (r: Name)
    ensures r != []
  {
    var n: int := channel;
    if n < 0 then [MINUS] + Digits(-n) else Digits(n)
  }

  lemma {:induction false} DigitsDiffer(m: nat, n: nat)
    ensures Digits(m) == Digits(n) ==> m == n
  {
    var a, b := Digits(m), Digits(n);
    if a == b {
      assert a[|a| - 1] == 0x30 + m % 10 && b[|b| - 1] == 0x30 + n % 10;
      if m >= 10 && n >= 10 {
        assert a[..|a| - 1] == Digits(m / 10) && b[..|b| - 1] == Digits(n / 10);
        DigitsDiffer(m / 10, n / 10);
      }
    }
  }

  lemma ChannelTextsDiffer(c: Int8, d: Int8)
    ensures ChannelText(c) == ChannelText(d) <==> c == d
  {
    var a, b := ChannelText(c), ChannelText(d);
    var m: int, n: int := c, d;
    DigitsDiffer(if m < 0 then -m else m, if n < 0 then -n else n);
    if m < 0 {
      assert a[0] == MINUS && a[1..] == Digits(-m);
    }
    if n < 0 {
      assert b[0] == MINUS && b[1..] == Digits(-n);
    }
  }

  /** CreateFileName. */
  function FileName(prefix: Name, suffix: Name, channel: Int8, stamp: Stamp): (name: Name)
    ensures name != []
  {
    (if prefix == [] then [] else prefix + [UNDERSCORE]) + stamp.stem + [UNDERSCORE] + ChannelText(channel)
    + (if suffix == [] then [] else [UNDERSCORE] + suffix) + stamp.extension
  }

  /** The number that decimal digits stand for. */
  function Decimal(text: Name): int
  {
    if text == [] then 0
    else
      var d: int := text[|text| - 1];
      10 * Decimal(text[..|text| - 1]) + d - 0x30
  }

  lemma {:induction false} DigitsAreDecimal(n: nat)
    ensures Decimal(Digits(n)) == n && (n > 0 ==> Digits(n)[0] != 0x30) && Digits(0) == [0x30]
  {
    if n >= 10 {
      DigitsAreDecimal(n / 10);
      assert Digits(n)[..|Digits(n)| - 1] == Digits(n / 10);
    } else {
      assert Digits(n)[..0] == [];
    }
  }

  /** A channel's number in a file name reads back as the channel, without leading zeros. */
  lemma {:induction false} ChannelTextIsDecimal(channel: Int8)
    ensures var n: int, text := channel, ChannelText(channel);
            && (n == 0 ==> text == [0x30])
            && (n > 0 ==> Decimal(text) == n && text[0] != 0x30)
            && (n < 0 ==> |text| > 1 && text[0] == 0x2D && Decimal(text[1..]) == -n && text[1] != 0x30)
  {
    var n: int := channel;
    DigitsAreDecimal(if n < 0 then -n else n);
    if n < 0 {
      assert ChannelText(channel)[1..] == Digits(-n);
    }
  }

  /** The prefix comes first, then the local time and the channel, and the suffix last before the extension, each
      set off by an underscore and the two affixes only when there are any. */
  lemma {:induction false} PartsOfFileName(prefix: Name, suffix: Name, channel: Int8, stamp: Stamp)
    ensures var name, middle := FileName(prefix, suffix, channel, stamp), stamp.stem + [0x5F] + ChannelText(channel);
            && (prefix == [] && suffix == [] ==> name == middle + stamp.extension)
            && (prefix == [] && suffix != [] ==> name == middle + [0x5F] + suffix + stamp.extension)
            && (prefix != [] && suffix == [] ==> name == prefix + [0x5F] + middle + stamp.extension)
            && (prefix != [] && suffix != [] ==> name == prefix + [0x5F] + middle + [0x5F] + suffix + stamp.extension)
  {
    hide ChannelText;
    var rest := stamp.stem + [0x5F] + ChannelText(channel);
    assert [] + stamp.stem == stamp.stem && rest + [] == rest;
    Assoc(prefix + [0x5F], stamp.stem, [0x5F]);
    Assoc(prefix + [0x5F], stamp.stem + [0x5F], ChannelText(channel));
    Assoc(rest, [0x5F], suffix);
    Assoc(prefix + [0x5F] + rest, [0x5F], suffix);
    assert prefix + [0x5F] + rest + [] == prefix + [0x5F] + rest;
  }

  lemma SameEnds(a: Name, x: Name, y: Name, b: Name)
    requires a + x + b == a + y + b
    ensures x == y
  {
    assert |x| == |y|;
    assert x == (a + x + b)[|a|..|a| + |x|] == (a + y + b)[|a|..|a| + |y|] == y;
  }

  /** With the same prefix, suffix and time, two channels never share a file. */
  lemma ChannelsHaveTheirOwnFiles(prefix: Name, suffix: Name, c: Int8, d: Int8, stamp: Stamp)
    ensures FileName(prefix, suffix, c, stamp) == FileName(prefix, suffix, d, stamp) <==> c == d
  {
    hide ChannelText;
    var a := (if prefix == [] then [] else prefix + [UNDERSCORE]) + stamp.stem + [UNDERSCORE];
    var b := (if suffix == [] then [] else [UNDERSCORE] + suffix) + stamp.extension;
    var x, y := ChannelText(c), ChannelText(d);
    assert FileName(prefix, suffix, c, stamp) == a + x + b && FileName(prefix, suffix, d, stamp) == a + y + b;
    ChannelTextsDiffer(c, d);
    if a + x + b == a + y + b {
      SameEnds(a, x, y, b);
    }
  }

  // ----- one record at a time -----------------------------------------------------------------

  function Logs(rs: seq<Record>): (ps: seq<LogPackage>)
    ensures |ps| == |rs| && forall i :: 0 <= i < |ps| ==> ps[i] == rs[i].log
  {
    seq(|rs|, i requires 0 <= i < |rs| => rs[i].log)
  }

  predicate IsText(channel: Int8, p: LogPackage)
  {
    p.channel == channel && p.command.Message?
  }

  predicate IsStop(channel: Int8, p: LogPackage)
  {
    channel > LOG_INTERNAL_CHANNEL && p.channel == channel && p.command.Stop?
  }

  predicate IsChange(channel: Int8, p: LogPackage)
  {
    channel > LOG_INTERNAL_CHANNEL && p.channel == channel && p.command.ChangeFile?
  }

  function Apply(s: Sink, r: Record): Sink
  {
    var p := r.log;
    if IsStop(s.channel, p) then s.(fileName := [])
    else if IsChange(s.channel, p) then
      s.(prefix := p.message, suffix := p.tag, fileName := FileName(p.message, p.tag, s.channel, r.now))
    else if IsText(s.channel, p) && s.fileName != [] then
      s.(files := s.files[s.fileName := Lines(s.files, s.fileName) + [LineOf(p)]])
    else s
  }

  /** The reference: every record handled on its own. */
  function Reference(s: Sink, rs: seq<Record>): (t: Sink)
    ensures t.channel == s.channel
    decreases |rs|
  {
    if rs == [] then s else Reference(Apply(s, rs[0]), rs[1..])
  }

  lemma {:induction false} ReferenceAppend(s: Sink, a: seq<Record>, b: seq<Record>)
    ensures Reference(s, a + b) == Reference(Reference(s, a), b)
    decreases |a|
  {
    if a == [] {
      assert a + b == b;
    } else {
      assert (a + b)[1..] == a[1..] + b;
      ReferenceAppend(Apply(s, a[0]), a[1..], b);
    }
  }

  // ----- a batch at a time ----------------------------------------------------------------------

  /** A stop record ends the work on a batch. */
  function UpToStop(channel: Int8, batch: seq<Record>): seq<Record>
  {
    if batch == [] then []
    else if IsStop(channel, batch[0].log) then [batch[0]]
    else [batch[0]] + UpToStop(channel, batch[1..])
  }

  /** The records behind it are dropped. */
  function Dropped(channel: Int8, batch: seq<Record>): seq<Record>
  {
    if batch == [] then []
    else if IsStop(channel, batch[0].log) then batch[1..]
    else Dropped(channel, batch[1..])
  }

  class CFileSink {
    const channel: Int8
    var fileName: Name
    var prefix: Name
    var suffix: Name
    var ofs: Option<Name>
    var files: map<Name, seq<Line>>

    ghost function State(): Sink
      reads this
    {
      Sink(channel, fileName, prefix, suffix, files)
    }

    /** The stream is open exactly on the current file, or closed when there is none. */
    ghost predicate StreamFollowsName()
      reads this
    {
      ofs == if fileName == [] then None else Some(fileName)
    }

    constructor (channel: Int8, openByDemand: bool, prefix: Name, suffix: Name, stamp: Stamp)
      ensures this.channel == channel && this.prefix == prefix && this.suffix == suffix && ofs.None? && files == map[]
      ensures fileName == (if channel == LOG_INTERNAL_CHANNEL || !openByDemand
                           then FileName(prefix, suffix, channel, stamp) else [])
    {
      this.channel, this.prefix, this.suffix := channel, prefix, suffix;
      ofs, files := None, map[];
      fileName := if channel == LOG_INTERNAL_CHANNEL || !openByDemand
                  then FileName(prefix, suffix, channel, stamp) else [];
    }

    method OpenStream()
      modifies this`ofs
      ensures ofs == if old(ofs).None? && fileName != [] then Some(fileName) else old(ofs)
    {
      if ofs.None? && fileName != [] {
        ofs := Some(fileName);
      }
    }

    method CloseStream()
      modifies this`ofs
      ensures ofs.None?
    {
      ofs := None;
    }

    method WriteMessage(r: Record)
      requires IsText(channel, r.log)
      requires StreamFollowsName()
      modifies this`files
      ensures State() == Apply(old(State()), r)
      ensures fileName == [] ==> files == old(files)
      ensures fileName != [] ==> Gained(old(files), files, fileName, [r.log])
    {
      if ofs.Some? {
        files := files[ofs.value := Lines(files, ofs.value) + [LineOf(r.log)]];
      }
    }

    method ChangeFile(r: Record)
      requires IsChange(channel, r.log)
      modifies this
      ensures State() == Apply(old(State()), r) && StreamFollowsName()
    {
      prefix := r.log.message;
      suffix := r.log.tag;
      CloseStream();
      fileName := FileName(prefix, suffix, channel, r.now);
      OpenStream();
    }

    /** Write: what the reference does on the batch up to its first stop record. */
    method Write(logData: seq<Record>)
      requires ofs.None?
      modifies this
      ensures State() == Reference(old(State()), UpToStop(channel, logData))
      ensures Filled(old(State()), UpToStop(channel, logData), files)
      ensures ofs.None?
    {
      var isBreak := false;
      OpenStream();
      var i := 0;
      while i < |logData| && !isBreak
        invariant i <= |logData|
        invariant State() == Reference(old(State()), logData[..i])
        invariant if isBreak then logData[..i] == UpToStop(channel, logData)
                  else StreamFollowsName() && logData[..i] + UpToStop(channel, logData[i..]) == UpToStop(channel, logData)
        decreases |logData| - i
      {
        var r := logData[i];
        OneMore(old(State()), logData, i);
        if r.log.channel == channel {
          match r.log.command {
            case Message => WriteMessage(r);
            case Stop =>
              if channel > LOG_INTERNAL_CHANNEL {
                fileName := [];
                isBreak := true;
              }
            case ChangeFile =>
              if channel > LOG_INTERNAL_CHANNEL {
                ChangeFile(r);
              }
            case Other =>
          }
        }
        i := i + 1;
      }
      assert logData[..i] == UpToStop(channel, logData) by {
        if !isBreak {
          assert logData[i..] == [];
        }
      }
      AllFilled(old(State()), UpToStop(channel, logData));
      CloseStream();
    }
  }

  lemma {:induction false} ReferenceOne(s: Sink, r: Record)
    ensures Reference(s, [r]) == Apply(s, r)
  {
    assert [r][1..] == [];
  }

  lemma {:induction false} OneMore(s: Sink, rs: seq<Record>, i: nat)
    requires i < |rs|
    ensures Reference(s, rs[..i + 1]) == Apply(Reference(s, rs[..i]), rs[i])
    ensures rs[i..][0] == rs[i] && rs[i..][1..] == rs[i + 1..] && rs[..i + 1] == rs[..i] + [rs[i]]
  {
    assert rs[..i + 1] == rs[..i] + [rs[i]];
    ReferenceAppend(s, rs[..i], [rs[i]]);
    ReferenceOne(Reference(s, rs[..i]), rs[i]);
  }

  /** All batches of a run, one after another. */
  function WriteAll(s: Sink, batches: seq<seq<Record>>): Sink
    decreases |batches|
  {
    if batches == [] then s else WriteAll(Reference(s, UpToStop(s.channel, batches[0])), batches[1..])
  }

  // ----- when the dropped records are missed ------------------------------------------------------

  /** Of the records that concern the channel's sink, the first one is a message. */
  predicate MessageNext(channel: Int8, rs: seq<Record>)
  {
    && rs != []
    && (|| IsText(channel, rs[0].log)
        || (!IsStop(channel, rs[0].log) && !IsChange(channel, rs[0].log) && MessageNext(channel, rs[1..])))
  }

  /** Among the dropped records of a batch is a change-file after which, there or in the batches that
      follow, the channel's next record is a message. */
  ghost predicate Missed(channel: Int8, dropped: seq<Record>, later: seq<Record>)
  {
    exists j :: 0 <= j < |dropped| && IsChange(channel, dropped[j].log)
                && MessageNext(channel, dropped[j + 1..] + later)
  }

  ghost predicate AnyMissed(channel: Int8, batches: seq<seq<Record>>)
  {
    exists b :: 0 <= b < |batches| && Missed(channel, Dropped(channel, batches[b]), Concat(batches[b + 1..]))
  }

  lemma {:induction false} MissedStep(channel: Int8, dropped: seq<Record>, later: seq<Record>)
    requires dropped != []
    ensures Missed(channel, dropped, later) <==>
            || (IsChange(channel, dropped[0].log) && MessageNext(channel, dropped[1..] + later))
            || Missed(channel, dropped[1..], later)
  {
    var rest := dropped[1..];
    assert forall j :: 0 <= j < |rest| ==> rest[j] == dropped[j + 1] && rest[j + 1..] == dropped[j + 2..];
    if j :| 0 <= j < |rest| && IsChange(channel, rest[j].log) && MessageNext(channel, rest[j + 1..] + later) {
      assert dropped[j + 1 + 1..] == rest[j + 1..];
    }
    if j :| 0 < j < |dropped| && IsChange(channel, dropped[j].log) && MessageNext(channel, dropped[j + 1..] + later) {
      assert rest[j - 1] == dropped[j] && rest[j - 1 + 1..] == dropped[j + 1..];
    }
  }

  lemma {:induction false} AnyMissedStep(channel: Int8, batches: seq<seq<Record>>)
    requires batches != []
    ensures AnyMissed(channel, batches) <==>
            || Missed(channel, Dropped(channel, batches[0]), Concat(batches[1..]))
            || AnyMissed(channel, batches[1..])
  {
    hide Missed, Dropped, Concat;
    var rest := batches[1..];
    if b :| 0 <= b < |rest| && Missed(channel, Dropped(channel, rest[b]), Concat(rest[b + 1..])) {
      assert rest[b] == batches[b + 1] && rest[b + 1..] == batches[b + 1 + 1..];
    }
    if b :| 0 < b < |batches| && Missed(channel, Dropped(channel, batches[b]), Concat(batches[b + 1..])) {
      assert rest[b - 1] == batches[b] && rest[b - 1 + 1..] == batches[b + 1..];
    }
  }

  // ----- the sink against the reference, step by step ------------------------------------------------

  /** The sink is where the reference is, or its file is closed while the reference's is open. */
  ghost predicate Alike(w: Sink, r: Sink)
  {
    && w.channel == r.channel && w.files == r.files
    && (w.fileName == r.fileName || w.fileName == [])
  }

  /** The reference's file `n` is ahead, and the sink writes to no other file than the reference does. */
  ghost predicate Short(w: Sink, r: Sink, n: Name)
  {
    && w.channel == r.channel
    && |Lines(w.files, n)| < |Lines(r.files, n)|
    && (w.fileName == r.fileName || w.fileName == [])
  }

  lemma {:induction false} BothStayShort(w: Sink, r: Sink, n: Name, rs: seq<Record>)
    requires Short(w, r, n)
    ensures Short(Reference(w, rs), Reference(r, rs), n)
    decreases |rs|
  {
    if rs != [] {
      BothStayShort(Apply(w, rs[0]), Apply(r, rs[0]), n, rs[1..]);
    }
  }

  lemma {:induction false} ClosedStaysShort(w: Sink, r: Sink, n: Name, rs: seq<Record>)
    requires Short(w, r, n) && w.fileName == []
    ensures Short(w, Reference(r, rs), n)
    decreases |rs|
  {
    if rs != [] {
      ClosedStaysShort(w, Apply(r, rs[0]), n, rs[1..]);
    }
  }

  /** A batch is what is handled and what is dropped; behind a stop the file is closed. */
  lemma {:induction false} BatchSplits(s: Sink, batch: seq<Record>)
    ensures batch == UpToStop(s.channel, batch) + Dropped(s.channel, batch)
    ensures Dropped(s.channel, batch) != [] ==> Reference(s, UpToStop(s.channel, batch)).fileName == []
    decreases |batch|
  {
    if batch != [] {
      if IsStop(s.channel, batch[0].log) {
        ReferenceOne(s, batch[0]);
      } else {
        BatchSplits(Apply(s, batch[0]), batch[1..]);
        assert ([batch[0]] + UpToStop(s.channel, batch[1..]))[1..] == UpToStop(s.channel, batch[1..]);
      }
    }
  }

  lemma {:induction false} BatchesStayShort(w: Sink, r: Sink, n: Name, batches: seq<seq<Record>>)
    requires Short(w, r, n)
    ensures Short(WriteAll(w, batches), Reference(r, Concat(batches)), n)
    decreases |batches|
  {
    if batches != [] {
      var done, left := UpToStop(w.channel, batches[0]), Dropped(w.channel, batches[0]);
      BatchSplits(w, batches[0]);
      BothStayShort(w, r, n, done);
      ReferenceAppend(r, done, left);
      ReferenceAppend(r, batches[0], Concat(batches[1..]));
      hide Short, UpToStop, Dropped;
      if left != [] {
        ClosedStaysShort(Reference(w, done), Reference(r, done), n, left);
      }
      BatchesStayShort(Reference(w, done), Reference(r, batches[0]), n, batches[1..]);
    }
  }

  // ----- the exact condition ---------------------------------------------------------------------------

  /** The records the reference still has to handle. */
  function Left(handled: seq<Record>, dropped: seq<Record>, batches: seq<seq<Record>>): seq<Record>
  {
    handled + dropped + Concat(batches)
  }

  lemma {:induction false} LeftStep(handled: seq<Record>, dropped: seq<Record>, batches: seq<seq<Record>>)
    ensures handled != [] ==>
              Left(handled, dropped, batches) == [handled[0]] + Left(handled[1..], dropped, batches)
    ensures handled == [] && dropped != [] ==>
              Left(handled, dropped, batches) == [dropped[0]] + Left([], dropped[1..], batches)
    ensures Left([], dropped, batches) == dropped + Concat(batches)
    ensures dropped != [] ==> Left([], dropped[1..], batches) == dropped[1..] + Concat(batches)
  {
    hide Concat;
  }

  lemma {:induction false} NextRecord(s: Sink, p: Record, rest: seq<Record>)
    ensures Reference(s, [p] + rest) == Reference(Apply(s, p), rest)
    ensures MessageNext(s.channel, [p] + rest) <==>
            || IsText(s.channel, p.log)
            || (!IsStop(s.channel, p.log) && !IsChange(s.channel, p.log) && MessageNext(s.channel, rest))
    ensures !(IsStop(s.channel, p.log) && IsChange(s.channel, p.log))
    ensures IsText(s.channel, p.log) ==> !IsStop(s.channel, p.log) && !IsChange(s.channel, p.log)
  {
    assert ([p] + rest)[1..] == rest;
  }

  /** A line that the reference has written and the sink has not stays missing. */
  lemma {:induction false} ShortForGood(
      w: Sink, r: Sink, n: Name, handled: seq<Record>, dropped: seq<Record>, batches: seq<seq<Record>>)
    requires Short(w, r, n) && (dropped != [] ==> Reference(w, handled).fileName == [])
    ensures WriteAll(Reference(w, handled), batches).files != Reference(r, Left(handled, dropped, batches)).files
  {
    hide Apply, Concat;
    BothStayShort(w, r, n, handled);
    ReferenceAppend(r, handled, dropped);
    ReferenceAppend(r, handled + dropped, Concat(batches));
    if dropped != [] {
      ClosedStaysShort(Reference(w, handled), Reference(r, handled), n, dropped);
    } else {
      assert handled + dropped == handled;
    }
    BatchesStayShort(Reference(w, handled), Reference(r, handled + dropped), n, batches);
  }

  lemma HandleOne(w: Sink, r: Sink, p: Record)
    requires Alike(w, r)
    ensures w.channel == r.channel
    ensures w.fileName != r.fileName && IsText(w.channel, p.log) ==> Short(Apply(w, p), Apply(r, p), r.fileName)
    ensures w.fileName == r.fileName || !IsText(w.channel, p.log) ==> Alike(Apply(w, p), Apply(r, p))
    ensures Apply(w, p).fileName != Apply(r, p).fileName <==>
            w.fileName != r.fileName && !IsStop(w.channel, p.log) && !IsChange(w.channel, p.log)
  {
  }

  lemma DropOne(w: Sink, r: Sink, p: Record)
    requires Alike(w, r) && w.fileName == []
    ensures w.channel == r.channel
    ensures r.fileName != [] && IsText(w.channel, p.log) ==> Short(w, Apply(r, p), r.fileName)
    ensures r.fileName == [] || !IsText(w.channel, p.log) ==> Alike(w, Apply(r, p))
    ensures Apply(r, p).fileName != [] <==>
            IsChange(w.channel, p.log) || (r.fileName != [] && !IsStop(w.channel, p.log))
  {
  }

  lemma {:induction false} NextBatch(w: Sink, r: Sink, batches: seq<seq<Record>>)
    requires batches != []
    ensures var done, left := UpToStop(w.channel, batches[0]), Dropped(w.channel, batches[0]);
            && Left(done, left, batches[1..]) == Left([], [], batches)
            && WriteAll(Reference(w, []), batches) == WriteAll(Reference(w, done), batches[1..])
    ensures !Missed(w.channel, [], Concat(batches))
  {
    BatchSplits(w, batches[0]);
  }

  lemma {:induction false} NothingLeft(
      w: Sink, r: Sink, handled: seq<Record>, dropped: seq<Record>, batches: seq<seq<Record>>)
    requires Alike(w, r) && handled == [] && dropped == [] && batches == []
    ensures WriteAll(Reference(w, handled), batches).files == Reference(r, Left(handled, dropped, batches)).files
    ensures !MessageNext(w.channel, Left(handled, dropped, batches))
    ensures !Missed(w.channel, dropped, Concat(batches)) && !AnyMissed(w.channel, batches)
  {
  }

  /** Sink and reference from any two places: the files agree at the end exactly when neither the next
      record is a message for a file that the reference alone has open, nor is a dropped record missed. */
  lemma {:induction false} SameFilesIff(w: Sink, r: Sink, handled: seq<Record>, dropped: seq<Record>,
                                        batches: seq<seq<Record>>)
    requires Alike(w, r) && (dropped != [] ==> Reference(w, handled).fileName == [])
    ensures WriteAll(Reference(w, handled), batches).files == Reference(r, Left(handled, dropped, batches)).files <==>
            && !(w.fileName != r.fileName && MessageNext(w.channel, Left(handled, dropped, batches)))
            && !Missed(w.channel, dropped, Concat(batches)) && !AnyMissed(w.channel, batches)
    decreases |batches|, |dropped| + |handled|
  {
    hide Left, Apply, Missed, AnyMissed, Alike, Short, IsText, IsStop, IsChange, MessageNext, Concat, UpToStop, Dropped;
    LeftStep(handled, dropped, batches);
    if handled != [] {
      var p := handled[0];
      NextRecord(r, p, Left(handled[1..], dropped, batches));
      HandleOne(w, r, p);
      if w.fileName != r.fileName && IsText(w.channel, p.log) {
        ShortForGood(Apply(w, p), Apply(r, p), r.fileName, handled[1..], dropped, batches);
      } else {
        SameFilesIff(Apply(w, p), Apply(r, p), handled[1..], dropped, batches);
      }
    } else if dropped != [] {
      var p := dropped[0];
      NextRecord(r, p, Left([], dropped[1..], batches));
      MissedStep(w.channel, dropped, Concat(batches));
      DropOne(w, r, p);
      if r.fileName != [] && IsText(w.channel, p.log) {
        ShortForGood(w, Apply(r, p), r.fileName, [], dropped[1..], batches);
      } else {
        SameFilesIff(w, Apply(r, p), [], dropped[1..], batches);
      }
    } else if batches != [] {
      AnyMissedStep(w.channel, batches);
      BatchSplits(w, batches[0]);
      NextBatch(w, r, batches);
      SameFilesIff(w, r, UpToStop(w.channel, batches[0]), Dropped(w.channel, batches[0]), batches[1..]);
    } else {
      NothingLeft(w, r, handled, dropped, batches);
    }
  }

  /** Writing batch by batch fills all files as handling every record on its own does, exactly when no
      change-file record that stands behind a stop in its batch is followed, as the channel's next record,
      by a message. */
  lemma {:induction false} BatchesRefineReferenceIff(s: Sink, batches: seq<seq<Record>>)
    ensures WriteAll(s, batches).files == Reference(s, Concat(batches)).files <==> !AnyMissed(s.channel, batches)
  {
    SameFilesIff(s, s, [], [], batches);
    assert [] + [] + Concat(batches) == Concat(batches);
  }

  /** So the same records split differently fill the files alike when neither way misses a dropped record. */
  lemma {:induction false} SplitDoesNotMatter(s: Sink, a: seq<seq<Record>>, b: seq<seq<Record>>)
    requires Concat(a) == Concat(b) && !AnyMissed(s.channel, a) && !AnyMissed(s.channel, b)
    ensures WriteAll(s, a).files == WriteAll(s, b).files
  {
    BatchesRefineReferenceIff(s, a);
    BatchesRefineReferenceIff(s, b);
  }

  lemma {:induction false} ClosedStaysClosed(s: Sink, rs: seq<Record>)
    requires s.fileName == [] && forall i :: 0 <= i < |rs| ==> !IsChange(s.channel, rs[i].log)
    ensures Reference(s, rs) == s
  {
    if rs != [] {
      assert Apply(s, rs[0]) == s;
      ClosedStaysClosed(s, rs[1..]);
    }
  }

  /** When no change-file record is dropped at all, the whole sink ends as the reference does. */
  lemma {:induction false} WriteAllIsReference(s: Sink, batches: seq<seq<Record>>)
    requires forall b, j :: 0 <= b < |batches| && 0 <= j < |Dropped(s.channel, batches[b])| ==>
               !IsChange(s.channel, Dropped(s.channel, batches[b])[j].log)
    ensures WriteAll(s, batches) == Reference(s, Concat(batches))
    decreases |batches|
  {
    if batches != [] {
      var done, left := UpToStop(s.channel, batches[0]), Dropped(s.channel, batches[0]);
      BatchSplits(s, batches[0]);
      ReferenceAppend(s, done, left);
      ReferenceAppend(s, batches[0], Concat(batches[1..]));
      hide Dropped, UpToStop, Apply;
      if left != [] {
        ClosedStaysClosed(Reference(s, done), left);
      }
      assert forall b :: 0 <= b < |batches[1..]| ==> batches[1..][b] == batches[b + 1];
      WriteAllIsReference(Reference(s, done), batches[1..]);
    }
  }

  predicate HasChange(channel: Int8, rs: seq<Record>)
  {
    rs != [] && (IsChange(channel, rs[0].log) || HasChange(channel, rs[1..]))
  }

  /** A change-file record comes somewhere after a stop. */
  predicate Restarts(channel: Int8, rs: seq<Record>)
  {
    && rs != []
    && ((IsStop(channel, rs[0].log) && HasChange(channel, rs[1..])) || Restarts(channel, rs[1..]))
  }

  lemma {:induction false} ChangeAt(channel: Int8, rs: seq<Record>, i: nat)
    requires i < |rs| && IsChange(channel, rs[i].log)
    ensures HasChange(channel, rs)
  {
    if i > 0 {
      ChangeAt(channel, rs[1..], i - 1);
    }
  }

  lemma {:induction false} ChangeStays(channel: Int8, a: seq<Record>, b: seq<Record>)
    requires HasChange(channel, a)
    ensures HasChange(channel, a + b)
  {
    assert (a + b)[1..] == a[1..] + b;
    if !IsChange(channel, a[0].log) {
      ChangeStays(channel, a[1..], b);
    }
  }

  lemma {:induction false} RestartStays(channel: Int8, a: seq<Record>, b: seq<Record>)
    ensures Restarts(channel, a) || Restarts(channel, b) ==> Restarts(channel, a + b)
  {
    if a == [] {
      assert a + b == b;
    } else {
      assert (a + b)[1..] == a[1..] + b;
      RestartStays(channel, a[1..], b);
      if HasChange(channel, a[1..]) {
        ChangeStays(channel, a[1..], b);
      }
    }
  }

  lemma {:induction false} DroppedChangeRestarts(channel: Int8, batch: seq<Record>)
    requires HasChange(channel, Dropped(channel, batch))
    ensures Restarts(channel, batch)
  {
    if !IsStop(channel, batch[0].log) {
      DroppedChangeRestarts(channel, batch[1..]);
    }
  }

  /** Where no change-file record comes after a stop, nothing is missed. */
  lemma {:induction false} NoRestartNothingMissed(channel: Int8, batches: seq<seq<Record>>)
    requires !Restarts(channel, Concat(batches))
    ensures !AnyMissed(channel, batches)
  {
    if batches != [] {
      var dropped, later := Dropped(channel, batches[0]), Concat(batches[1..]);
      AnyMissedStep(channel, batches);
      RestartStays(channel, batches[0], later);
      NoRestartNothingMissed(channel, batches[1..]);
      if Missed(channel, dropped, later) {
        var j :| 0 <= j < |dropped| && IsChange(channel, dropped[j].log)
                 && MessageNext(channel, dropped[j + 1..] + later);
        ChangeAt(channel, dropped, j);
        DroppedChangeRestarts(channel, batches[0]);
      }
    }
  }

  /** The excluded case loses text: of stop, change-file and message in one batch the message reaches no file. */
  lemma {:induction false} MessageAfterRestartIsLost(s: Sink, stop: Record, change: Record, text: Record)
    requires IsStop(s.channel, stop.log) && IsChange(s.channel, change.log) && IsText(s.channel, text.log)
    ensures WriteAll(s, [[stop, change, text]]).files == s.files
    ensures var name := FileName(change.log.message, change.log.tag, s.channel, change.now);
            var r := WriteAll(s, [[stop], [change, text]]);
            Lines(r.files, name) == Lines(s.files, name) + [LineOf(text.log)]
  {
    var one, two := [stop, change, text], [change, text];
    ReferenceOne(s, stop);
    var onlyOne: seq<seq<Record>> := [one];
    assert [stop][1..] == [] && onlyOne[1..] == [];
    var split: seq<seq<Record>> := [[stop], two];
    assert split[1..] == [two] && split[1..][1..] == [];
    assert UpToStop(s.channel, two) == two by {
      assert [text][1..] == [] && UpToStop(s.channel, [text]) == [text];
      assert two[1..] == [text];
    }
    var t := Apply(s, stop);
    OneMore(t, two, 1);
    assert two[..1] == [change] && two[..2] == two;
    ReferenceOne(t, change);
    assert WriteAll(s, split) == WriteAll(t, [two]) == Reference(t, two);
  }

  // ----- what the reference means ---------------------------------------------------------------------

  /** The messages among the packages of a channel. */
  function Messages(channel: Int8, ps: seq<LogPackage>): seq<LogPackage>
  {
    if ps == [] then []
    else (if ps[0].channel == channel && ps[0].command.Message? then [ps[0]] else []) + Messages(channel, ps[1..])
  }

  /** The file that is open for record number `k`: what the last control record before it says. Only channels
      above 0 obey control records. */
  function OpenAt(s: Sink, rs: seq<Record>, k: nat): Name
    requires k <= |rs|
  {
    if k == 0 then s.fileName
    else
      var log, now := rs[k - 1].log, rs[k - 1].now;
      if log.channel == s.channel > 0 && log.command.Stop? then []
      else if log.channel == s.channel > 0 && log.command.ChangeFile? then
        FileName(log.message, log.tag, s.channel, now)
      else OpenAt(s, rs, k - 1)
  }

  /** Of the first `k` records, the messages of the channel that come while the file is open. */
  function Landed(s: Sink, rs: seq<Record>, name: Name, k: nat): seq<LogPackage>
    requires k <= |rs|
  {
    if k == 0 then []
    else
      var log := rs[k - 1].log;
      Landed(s, rs, name, k - 1)
      + if log.channel == s.channel && log.command.Message? && OpenAt(s, rs, k - 1) == name != [] then [log] else []
  }

  lemma {:induction false} ExtendedOnce(before: seq<Line>, mid: seq<Line>, ps: seq<LogPackage>, p: LogPackage)
    requires Extended(before, mid, ps)
    ensures Extended(before, mid + [LineOf(p)], ps + [p])
  {
  }

  lemma {:induction false} ApplyLands(s: Sink, t: Sink, rs: seq<Record>, name: Name, k: nat)
    requires k < |rs| && s.channel == t.channel && t.fileName == OpenAt(s, rs, k)
    requires Extended(Lines(s.files, name), Lines(t.files, name), Landed(s, rs, name, k))
    ensures var u := Apply(t, rs[k]);
            && u.channel == s.channel && u.fileName == OpenAt(s, rs, k + 1)
            && Extended(Lines(s.files, name), Lines(u.files, name), Landed(s, rs, name, k + 1))
  {
    hide Hold, Extended, FileName, LineOf;
    ExtendedOnce(Lines(s.files, name), Lines(t.files, name), Landed(s, rs, name, k), rs[k].log);
    assert Landed(s, rs, name, k) + [] == Landed(s, rs, name, k);
  }

  lemma {:induction false} ReferenceLands(s: Sink, rs: seq<Record>, name: Name, k: nat)
    requires k <= |rs|
    ensures var t := Reference(s, rs[..k]);
            && t.fileName == OpenAt(s, rs, k)
            && Extended(Lines(s.files, name), Lines(t.files, name), Landed(s, rs, name, k))
  {
    if k > 0 {
      hide Apply, Extended, Landed, OpenAt;
      ReferenceLands(s, rs, name, k - 1);
      OneMore(s, rs, k - 1);
      ApplyLands(s, Reference(s, rs[..k - 1]), rs, name, k - 1);
    }
  }

  /** Every file gains, field by field and in order, the channel's messages that come while it is the open one,
      and nothing else. */
  lemma {:induction false} ReferenceFillsOpenFiles(s: Sink, rs: seq<Record>, name: Name)
    ensures Reference(s, rs).fileName == OpenAt(s, rs, |rs|)
    ensures Extended(Lines(s.files, name), Lines(Reference(s, rs).files, name), Landed(s, rs, name, |rs|))
  {
    assert rs[..|rs|] == rs;
    ReferenceLands(s, rs, name, |rs|);
  }

  /** After the records each file holds what it held before and the messages that came while it was open. */
  ghost predicate Filled(s: Sink, rs: seq<Record>, files: map<Name, seq<Line>>)
  {
    forall name :: Extended(Lines(s.files, name), Lines(files, name), Landed(s, rs, name, |rs|))
  }

  lemma {:induction false} AllFilled(s: Sink, rs: seq<Record>)
    ensures Filled(s, rs, Reference(s, rs).files)
  {
    hide Extended, Reference, Landed;
    forall name
      ensures Extended(Lines(s.files, name), Lines(Reference(s, rs).files, name), Landed(s, rs, name, |rs|))
    {
      ReferenceFillsOpenFiles(s, rs, name);
    }
  }

  /** The lines of a channel's messages. */
  function TextLines(channel: Int8, ps: seq<LogPackage>): seq<Line>
  {
    if ps == [] then []
    else (if IsText(channel, ps[0]) then [LineOf(ps[0])] else []) + TextLines(channel, ps[1..])
  }

  lemma {:induction false} TextLinesHold(channel: Int8, ps: seq<LogPackage>)
    ensures Hold(TextLines(channel, ps), Messages(channel, ps))
  {
    if ps == [] {
      assert Hold([], []);
    } else {
      var text := ps[0].channel == channel && ps[0].command.Message?;
      TextLinesHold(channel, ps[1..]);
      hide Hold;
      OneHolds(ps[0]);
      HoldTogether(if text then [LineOf(ps[0])] else [], TextLines(channel, ps[1..]),
                   if text then [ps[0]] else [], Messages(channel, ps[1..]));
    }
  }

  lemma {:induction false} OneHolds(p: LogPackage)
    ensures Hold([LineOf(p)], [p]) && Hold([], [])
  {
  }

  lemma {:induction false} HoldTogether(a: seq<Line>, b: seq<Line>, ps: seq<LogPackage>, qs: seq<LogPackage>)
    requires Hold(a, ps) && Hold(b, qs)
    ensures Hold(a + b, ps + qs)
  {
  }

  lemma {:induction false} GrowthExtends(before: seq<Line>, channel: Int8, ps: seq<LogPackage>)
    ensures Extended(before, before + TextLines(channel, ps), Messages(channel, ps))
  {
    TextLinesHold(channel, ps);
    hide TextLines, Messages, Hold;
    assert (before + TextLines(channel, ps))[|before|..] == TextLines(channel, ps);
  }

  lemma {:induction false} TextsGrow(s: Sink, rs: seq<Record>)
    requires s.fileName != []
    requires forall i :: 0 <= i < |rs| ==> !IsStop(s.channel, rs[i].log) && !IsChange(s.channel, rs[i].log)
    ensures Lines(Reference(s, rs).files, s.fileName) == Lines(s.files, s.fileName) + TextLines(s.channel, Logs(rs))
    ensures forall n :: n != s.fileName ==> Lines(Reference(s, rs).files, n) == Lines(s.files, n)
    ensures Reference(s, rs).fileName == s.fileName
    decreases |rs|
  {
    if rs != [] {
      TextsGrow(Apply(s, rs[0]), rs[1..]);
      assert Logs(rs)[1..] == Logs(rs[1..]);
    }
  }

  /** Without control records the open file gets one line for each message, in order and field by field, and nothing
      else happens. */
  lemma {:induction false} TextsAreAppended(s: Sink, rs: seq<Record>)
    requires s.fileName != []
    requires forall i :: 0 <= i < |rs| ==> !IsStop(s.channel, rs[i].log) && !IsChange(s.channel, rs[i].log)
    ensures Gained(s.files, Reference(s, rs).files, s.fileName, Messages(s.channel, Logs(rs)))
    ensures Reference(s, rs).fileName == s.fileName
  {
    hide Reference, Extended, Messages, TextLines;
    TextsGrow(s, rs);
    GrowthExtends(Lines(s.files, s.fileName), s.channel, Logs(rs));
  }
}
