/** CStreamLoggerAdaptor::DoLog (proxy/stream_logger_adapter.cpp): chunks of a byte stream become log lines,
    each stamped with the arrival time of the chunk that holds its first byte. The tag, severity and channel
    of the packages are constants of the adaptor. */
module LineSplitter {
  import opened Bytes
  import opened LogPackages
  import opened Seqs

  const NEWLINE: Byte := 0x0A

  /** std::isspace in the classic locale. */
  predicate IsSpace(b: Byte)
  {
    b == 0x20 || 0x09 <= b <= 0x0D
  }

  function TrimRight(bs: seq<Byte>): (r: seq<Byte>)
    ensures r <= bs
    ensures r != [] ==> !IsSpace(r[|r| - 1])
    ensures forall i :: |r| <= i < |bs| ==> IsSpace(bs[i])
  {
    if bs != [] && IsSpace(bs[|bs| - 1]) then TrimRight(bs[..|bs| - 1]) else bs
  }

  /** The place of the first newline, or the length. */
  function FirstNewline(bs: seq<Byte>): (n: nat)
    ensures n <= |bs| && NEWLINE !in bs[..n]
    ensures n < |bs| ==> bs[n] == NEWLINE
  {
    if bs == [] || bs[0] == NEWLINE then 0 else
    var n := FirstNewline(bs[1..]);
    assert bs[..n + 1] == [bs[0]] + bs[1..][..n];
    n + 1
  }

  // ----- the whole stream at once --------------------------------------------------------------

  /** A byte and the arrival time of its chunk. */
  datatype Stamped = Stamped(b: Byte, at: Timespec)

  datatype Line = Line(message: seq<Byte>, timestamp: Timespec)

  function Stamp(chunk: seq<Byte>, at: Timespec): (s: seq<Stamped>)
    ensures |s| == |chunk| && forall i :: 0 <= i < |s| ==> s[i] == Stamped(chunk[i], at)
  {
    seq(|chunk|, i requires 0 <= i < |chunk| => Stamped(chunk[i], at))
  }

  function BytesOf(s: seq<Stamped>): (bs: seq<Byte>)
    ensures |bs| == |s| && forall i :: 0 <= i < |s| ==> bs[i] == s[i].b
  {
    seq(|s|, i requires 0 <= i < |s| => s[i].b)
  }

  /** What one complete line logs: nothing when it is blank. */
  function Emit(line: seq<Stamped>): seq<Line>
    requires line != []
  {
    var text := TrimRight(BytesOf(line));
    if text == [] then [] else [Line(text, line[0].at)]
  }

  /** The log of a stream: its complete lines, right-trimmed, without blank ones. */
  function Lines(s: seq<Stamped>): seq<Line>
    decreases |s|
  {
    var n := FirstNewline(BytesOf(s));
    if n == |s| then [] else Emit(s[..n + 1]) + Lines(s[n + 1..])
  }

  /** What follows the last newline. */
  function Tail(s: seq<Stamped>): seq<Stamped>
    decreases |s|
  {
    var n := FirstNewline(BytesOf(s));
    if n == |s| then s else Tail(s[n + 1..])
  }

  lemma {:induction false} TailIsUnterminated(s: seq<Stamped>)
    ensures FirstNewline(BytesOf(Tail(s))) == |Tail(s)|
    decreases |s|
  {
    hide FirstNewline, BytesOf;
    var n := FirstNewline(BytesOf(s));
    if n < |s| {
      TailIsUnterminated(s[n + 1..]);
    }
  }

  lemma {:induction false} NewlineStays(a: seq<Byte>, b: seq<Byte>)
    ensures FirstNewline(a) < |a| ==> FirstNewline(a + b) == FirstNewline(a)
    ensures FirstNewline(a) == |a| ==> FirstNewline(a + b) == |a| + FirstNewline(b)
  {
    if a == [] {
      assert a + b == b;
    } else {
      assert (a + b)[1..] == a[1..] + b;
      NewlineStays(a[1..], b);
    }
  }

  /** The log of a longer stream continues from the unterminated tail. */
  lemma {:induction false} LinesAppend(a: seq<Stamped>, b: seq<Stamped>)
    ensures Lines(a + b) == Lines(a) + Lines(Tail(a) + b)
    ensures Tail(a + b) == Tail(Tail(a) + b)
    decreases |a|
  {
    hide FirstNewline, TrimRight, Emit, BytesOf, Lines, Tail;
    var n := FirstNewline(BytesOf(a));
    LinesStep(a, n);
    if n < |a| {
      FirstLineStays(a, b);
      LinesStep(a + b, n);
      LinesAppend(a[n + 1..], b);
    }
  }

  lemma {:induction false} FirstLineStays(a: seq<Stamped>, b: seq<Stamped>)
    requires FirstNewline(BytesOf(a)) < |a|
    ensures var n := FirstNewline(BytesOf(a));
            FirstNewline(BytesOf(a + b)) == n && (a + b)[..n + 1] == a[..n + 1] && (a + b)[n + 1..] == a[n + 1..] + b
  {
    hide FirstNewline;
    assert BytesOf(a + b) == BytesOf(a) + BytesOf(b);
    NewlineStays(BytesOf(a), BytesOf(b));
  }

  // ----- lines cover the stream ----------------------------------------------------------------

  /** The complete lines, with their newlines. */
  function RawLines(s: seq<Stamped>): (r: seq<seq<Stamped>>)
    ensures forall i :: 0 <= i < |r| ==> r[i] != []
    decreases |s|
  {
    var n := FirstNewline(BytesOf(s));
    if n == |s| then [] else [s[..n + 1]] + RawLines(s[n + 1..])
  }

  ghost predicate IsLine(line: seq<Stamped>)
  {
    line != [] && line[|line| - 1].b == 0x0A && forall i :: 0 <= i < |line| - 1 ==> line[i].b != 0x0A
  }

  function EmitAll(lines: seq<seq<Stamped>>): seq<Line>
    requires forall i :: 0 <= i < |lines| ==> lines[i] != []
  {
    if lines == [] then [] else Emit(lines[0]) + EmitAll(lines[1..])
  }

  lemma {:induction false} FirstRawLine(s: seq<Stamped>, n: nat)
    requires n == FirstNewline(BytesOf(s)) < |s|
    ensures IsLine(s[..n + 1]) && s == s[..n + 1] + s[n + 1..]
  {
    forall i | 0 <= i < n
      ensures s[i].b != NEWLINE
    {
      assert BytesOf(s)[..n][i] == s[i].b;
    }
  }

  /** The log is what the complete lines emit, one by one; lines and tail make up the stream, and every
      line ends with its only newline. */
  lemma {:induction false} LinesCoverTheStream(s: seq<Stamped>)
    ensures Concat(RawLines(s)) + Tail(s) == s
    ensures forall i :: 0 <= i < |RawLines(s)| ==> IsLine(RawLines(s)[i])
    ensures forall i :: 0 <= i < |Tail(s)| ==> Tail(s)[i].b != 0x0A
    ensures Lines(s) == EmitAll(RawLines(s))
    decreases |s|
  {
    hide FirstNewline, BytesOf, Emit, Tail, Lines;
    var n := FirstNewline(BytesOf(s));
    LinesStep(s, n);
    if n < |s| {
      FirstRawLine(s, n);
      LinesCoverTheStream(s[n + 1..]);
      assert RawLines(s)[1..] == RawLines(s[n + 1..]);
    } else {
      NoNewline(s);
    }
  }

  lemma {:induction false} NoNewline(s: seq<Stamped>)
    requires FirstNewline(BytesOf(s)) == |s|
    ensures forall i :: 0 <= i < |s| ==> s[i].b != 0x0A
  {
    hide FirstNewline;
    forall i | 0 <= i < |s|
      ensures s[i].b != 0x0A
    {
      assert BytesOf(s)[..|s|][i] == s[i].b;
    }
  }

  /** What is white: tab, the line ends and feeds (LF, VT, FF, CR) and the blank. */
  const WHITE: seq<Byte> := [0x09, 0x0A, 0x0B, 0x0C, 0x0D, 0x20]

  /** The text of a line is what stands before its trailing white space. */
  ghost predicate IsText(line: seq<Stamped>, text: seq<Byte>)
  {
    && |text| <= |line|
    && (forall i :: 0 <= i < |text| ==> text[i] == line[i].b)
    && (text != [] ==> text[|text| - 1] !in WHITE)
    && forall i :: |text| <= i < |line| ==> line[i].b in WHITE
  }

  /** The lines that are not all white. */
  function NonBlank(lines: seq<seq<Stamped>>): seq<seq<Stamped>>
  {
    if lines == [] then []
    else (if exists i :: 0 <= i < |lines[0]| && lines[0][i].b !in WHITE then [lines[0]] else []) + NonBlank(lines[1..])
  }

  /** One entry for each line, with its text and the arrival of its first byte. */
  ghost predicate LoggedAs(lines: seq<seq<Stamped>>, log: seq<Line>)
  {
    && |log| == |lines|
    && forall k :: 0 <= k < |log| ==>
         lines[k] != [] && log[k].timestamp == lines[k][0].at && IsText(lines[k], log[k].message)
  }

  lemma {:induction false} WhiteIsSpace(b: Byte)
    ensures IsSpace(b) <==> b in WHITE
  {
  }

  lemma {:induction false} TrimmedIs(line: seq<Stamped>)
    ensures IsText(line, TrimRight(BytesOf(line)))
    ensures TrimRight(BytesOf(line)) != [] <==> exists i :: 0 <= i < |line| && line[i].b !in WHITE
  {
    var text := TrimRight(BytesOf(line));
    hide TrimRight;
    forall i | |text| <= i < |line|
      ensures line[i].b in WHITE
    {
      WhiteIsSpace(BytesOf(line)[i]);
    }
    if text != [] {
      var last := |text| - 1;
      assert text[last] == BytesOf(line)[last] == line[last].b;
      WhiteIsSpace(line[last].b);
    }
  }

  lemma {:induction false} EmitIs(line: seq<Stamped>)
    requires line != []
    ensures LoggedAs(NonBlank([line]), Emit(line))
  {
    hide TrimRight, IsText;
    TrimmedIs(line);
    assert [line][1..] == [];
    var text := TrimRight(BytesOf(line));
    if text == [] {
      assert NonBlank([line]) == [];
    } else {
      assert NonBlank([line]) == [line] + [];
      assert LoggedAs([line], [Line(text, line[0].at)]);
    }
  }

  lemma {:induction false} LoggedTogether(a: seq<seq<Stamped>>, b: seq<seq<Stamped>>, x: seq<Line>, y: seq<Line>)
    requires LoggedAs(a, x) && LoggedAs(b, y)
    ensures LoggedAs(a + b, x + y)
  {
    hide IsText;
  }

  lemma {:induction false} NonBlankFirst(line: seq<Stamped>, rest: seq<seq<Stamped>>)
    ensures NonBlank([line] + rest) == NonBlank([line]) + NonBlank(rest)
  {
    assert ([line] + rest)[1..] == rest && [line][1..] == [];
  }

  lemma {:induction false} EmitAllIs(lines: seq<seq<Stamped>>)
    requires forall i :: 0 <= i < |lines| ==> lines[i] != []
    ensures LoggedAs(NonBlank(lines), EmitAll(lines))
  {
    if lines != [] {
      EmitAllIs(lines[1..]);
      EmitIs(lines[0]);
      hide NonBlank, LoggedAs, Emit;
      assert lines == [lines[0]] + lines[1..];
      NonBlankFirst(lines[0], lines[1..]);
      LoggedTogether(NonBlank([lines[0]]), NonBlank(lines[1..]), Emit(lines[0]), EmitAll(lines[1..]));
    }
  }

  /** The log of a stream holds one entry for each complete line that is not blank, in order: its bytes before the
      trailing white space, and the arrival time of its first byte. */
  lemma {:induction false} LogLineByLine(s: seq<Stamped>)
    ensures LoggedAs(NonBlank(RawLines(s)), Lines(s))
  {
    hide NonBlank, LoggedAs, EmitAll, Lines, RawLines;
    LinesCoverTheStream(s);
    EmitAllIs(RawLines(s));
  }

  // ----- texts do not depend on the arrival times -------------------------------------------------

  function Texts(lines: seq<Line>): (r: seq<seq<Byte>>)
    ensures |r| == |lines| && forall i :: 0 <= i < |r| ==> r[i] == lines[i].message
  {
    seq(|lines|, i requires 0 <= i < |lines| => lines[i].message)
  }

  function TextOf(line: seq<Byte>): seq<seq<Byte>>
  {
    var text := TrimRight(line);
    if text == [] then [] else [text]
  }

  /** The right-trimmed nonempty complete lines of a byte stream. */
  function TextLines(bs: seq<Byte>): seq<seq<Byte>>
    decreases |bs|
  {
    var n := FirstNewline(bs);
    if n == |bs| then [] else TextOf(bs[..n + 1]) + TextLines(bs[n + 1..])
  }

  lemma {:induction false} EmitText(line: seq<Stamped>, rest: seq<Line>)
    requires line != []
    ensures Texts(Emit(line) + rest) == TextOf(BytesOf(line)) + Texts(rest)
  {
    hide TrimRight, BytesOf;
  }

  lemma {:induction false} TextsOfLines(s: seq<Stamped>)
    ensures Texts(Lines(s)) == TextLines(BytesOf(s))
    decreases |s|
  {
    hide FirstNewline, TextOf, Emit;
    var n := FirstNewline(BytesOf(s));
    LinesStep(s, n);
    if n < |s| {
      assert BytesOf(s[..n + 1]) == BytesOf(s)[..n + 1] && BytesOf(s[n + 1..]) == BytesOf(s)[n + 1..];
      hide BytesOf, Lines, Texts;
      EmitText(s[..n + 1], Lines(s[n + 1..]));
      TextsOfLines(s[n + 1..]);
    }
  }

  /** However a byte stream is cut into chunks, whenever they arrive, the texts are the same. */
  lemma {:induction false} CuttingDoesNotMatter(s: seq<Stamped>, t: seq<Stamped>)
    requires BytesOf(s) == BytesOf(t)
    ensures Texts(Lines(s)) == Texts(Lines(t))
  {
    TextsOfLines(s);
    TextsOfLines(t);
  }

  // ----- the adaptor ----------------------------------------------------------------------------------

  class StreamLoggerAdaptor {
    var buffer: seq<Byte>
    var timestamp: Timespec
    var out: seq<Line>
    ghost var seen: seq<Stamped>

    /** The log so far is the log of the whole stream seen; the buffer is its unterminated tail, stamped
        with the arrival of its first byte. */
    ghost predicate Valid()
      reads this
    {
      && out == Lines(seen)
      && buffer == BytesOf(Tail(seen))
      && (buffer != [] ==> timestamp == Tail(seen)[0].at)
    }

    constructor (now: Timespec)
      ensures Valid() && seen == [] && out == []
    {
      buffer, timestamp, out, seen := [], now, [], [];
    }

    /** std::string::find of a newline. */
    static method Find(bs: seq<Byte>) returns (pos: nat)
      ensures pos == FirstNewline(bs)
    {
      pos := 0;
      while pos < |bs| && bs[pos] != NEWLINE
        invariant pos <= |bs| && FirstNewline(bs) == pos + FirstNewline(bs[pos..])
      {
        assert bs[pos..][1..] == bs[pos + 1..];
        pos := pos + 1;
      }
    }

    /** The lambda logString: the first line leaves the buffer. `rest` is the buffer with its stamps. */
    method LogString(pos: nat, ghost rest: seq<Stamped>)
      requires buffer == BytesOf(rest) && pos == FirstNewline(buffer) < |buffer|
      requires timestamp == rest[0].at
      modifies this`buffer, this`out
      ensures buffer == BytesOf(rest[pos + 1..])
      ensures out == old(out) + Emit(rest[..pos + 1])
    {
      hide TrimRight, FirstNewline;
      var message := buffer[..pos + 1];
      buffer := buffer[pos + 1..];
      assert message == BytesOf(rest[..pos + 1]);
      message := TrimRight(message);
      if message != [] {
        out := out + [Line(message, timestamp)];
      } else {
        assert out + [] == out;
      }
    }

    /** The part of DoLog before the loop: the chunk joins the buffer, and when the buffer held the start
        of a line that the chunk ends, that line goes out with the older time. */
    method TakeIn(msg: seq<Byte>, now: Timespec) returns (ghost rest: seq<Stamped>)
      requires Valid()
      modifies this
      ensures seen == old(seen) + Stamp(msg, now)
      ensures buffer == BytesOf(rest) && out + Lines(rest) == Lines(seen) && Tail(rest) == Tail(seen)
      ensures rest != [] ==> timestamp == rest[0].at
      ensures FirstNewline(buffer) < |buffer| ==> forall i :: 0 <= i < |rest| ==> rest[i].at == timestamp
    {
      hide FirstNewline, TrimRight, Emit, BytesOf, Lines, Tail;
      ghost var kept := Tail(seen);
      rest := kept + Stamp(msg, now);
      LinesAppend(seen, Stamp(msg, now));
      seen := seen + Stamp(msg, now);
      if buffer == [] {
        buffer := msg;
        timestamp := now;
      } else {
        buffer := buffer + msg;
        var pos := Find(buffer);
        if pos < |buffer| {
          TailIsUnterminated(old(seen));
          NewlineStays(BytesOf(kept), msg);
          assert pos >= |kept|;
          assert buffer == BytesOf(rest);
          LinesStep(rest, pos);
          LogString(pos, rest);
          timestamp := now;
          rest := rest[pos + 1..];
        }
      }
    }

    method DoLog(msg: seq<Byte>, now: Timespec)
      requires Valid()
      modifies this
      ensures Valid() && seen == old(seen) + Stamp(msg, now)
    {
      hide FirstNewline, TrimRight, Emit, BytesOf, Lines, Tail;
      ghost var rest := TakeIn(msg, now);
      var pos := Find(buffer);
      while pos < |buffer|
        invariant buffer == BytesOf(rest) && pos == FirstNewline(buffer)
        invariant out + Lines(rest) == Lines(seen) && Tail(rest) == Tail(seen)
        invariant seen == old(seen) + Stamp(msg, now)
        invariant rest != [] ==> timestamp == rest[0].at
        invariant pos < |buffer| ==> forall i :: 0 <= i < |rest| ==> rest[i].at == timestamp
        decreases |buffer|
      {
        LinesStep(rest, pos);
        LogString(pos, rest);
        rest := rest[pos + 1..];
        pos := Find(buffer);
      }
      LinesStep(rest, pos);
    }
  }

  lemma {:induction false} LinesStep(s: seq<Stamped>, n: nat)
    requires n == FirstNewline(BytesOf(s))
    ensures n == |s| ==> Lines(s) == []
    ensures n < |s| ==> Lines(s) == Emit(s[..n + 1]) + Lines(s[n + 1..])
    ensures Tail(s) == if n == |s| then s else Tail(s[n + 1..])
  {
    hide *;
    if n < |s| {
      FirstLine(s, n);
    } else {
      NoLine(s);
    }
    TailStep(s, n);
  }

  lemma {:induction false} FirstLine(s: seq<Stamped>, n: nat)
    requires n == FirstNewline(BytesOf(s)) < |s|
    ensures Lines(s) == Emit(s[..n + 1]) + Lines(s[n + 1..])
  {
    hide FirstNewline, TrimRight, Emit, BytesOf;
  }

  lemma {:induction false} NoLine(s: seq<Stamped>)
    requires FirstNewline(BytesOf(s)) == |s|
    ensures Lines(s) == []
  {
    hide FirstNewline, TrimRight, Emit, BytesOf;
  }

  lemma {:induction false} TailStep(s: seq<Stamped>, n: nat)
    requires n == FirstNewline(BytesOf(s))
    ensures Tail(s) == if n == |s| then s else Tail(s[n + 1..])
  {
    hide FirstNewline, BytesOf;
  }
}
