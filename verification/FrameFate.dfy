/** What the bytes of a frame alone say about the parser's counting loop and about DoLog. The loop reads the
    length word of a TLV before it knows that the TLV lies in the frame, so near the end it may read bytes
    that follow the frame in memory. */
module FrameFate {
  import opened Bytes
  import opened FlapBuilder
  import opened FlapParser
  import opened OscarLogger
  import opened Tlv
  import opened TlvList
  import opened Wrappers

  /** Completes: the loop arrives at the end. Overruns: it passes the end, and the parser throws. Stalls: it
      stays at one place. Exposed: its next step is up to the bytes behind the frame. */
  datatype Fate = Completes | Overruns | Stalls | Exposed

  /** The loop from `off` towards the end `e`, as far as the frame decides it. A length word of which only
      the first byte lies in the frame is decided by that byte unless it is 0xFF. */
  function FateFrom(f: seq<Byte>, e: nat, off: nat): Fate
    requires e <= |f|
    decreases e - off
  {
    if off == e then Completes
    else if off > e then Overruns
    else if off + TLV_HEADER_SIZE > |f| then
      if off + 2 >= |f| || f[off + 2] == 0xFF then Exposed else Overruns
    else
      var next := off + GetSize(f, off);
      if next == off then Stalls else FateFrom(f, e, next)
  }

  function FateOf(frame: seq<Byte>): Fate
    requires HeaderAccepted(frame)
  {
    FateFrom(frame, EndOf(frame), FIRST)
  }

  // ----- decided by the frame ---------------------------------------------------------------

  lemma SizeInFrame(f: seq<Byte>, b: seq<Byte>, off: nat)
    requires off + TLV_HEADER_SIZE <= |f|
    ensures GetSize(f + b, off) == GetSize(f, off) && GetDataSize(f + b, off) == GetDataSize(f, off)
  {
    assert (f + b)[off + 2..off + 4] == f[off + 2..off + 4];
  }

  lemma HighByte(m: seq<Byte>, off: nat)
    requires off + TLV_HEADER_SIZE <= |m|
    ensures var b: seq<int> := m; GetDataSize(m, off) == 0x100 * b[off + 2] + b[off + 3]
  {
    var w := m[off + 2..off + 4];
    assert w[..1] == [m[off + 2]] && w[..1][..0] == [];
    assert FromBigEndian(w[..1]) == m[off + 2];
  }

  /** A length word that begins in the frame with a byte other than 0xFF leads past the end. */
  lemma CutSizeOverruns(f: seq<Byte>, b: seq<Byte>, off: nat)
    requires |b| >= SLACK && off + 2 < |f| < off + TLV_HEADER_SIZE && f[off + 2] != 0xFF
    ensures Next(f + b, off) > |f|
  {
    HighByte(f + b, off);
  }

  function VerdictOf(fate: Fate, walked: Walked): bool
  {
    match fate
    case Completes => walked.Accepted?
    case Overruns => walked.Rejected?
    case Stalls => walked.Running?
    case Exposed => true
  }

  lemma {:induction false} StallsAt(m: seq<Byte>, e: nat, off: nat, fuel: nat)
    requires InMemory(m, e, off) && off < e && Next(m, off) == off
    ensures Walk(m, e, off, fuel).Running?
  {
    if fuel > 0 {
      StallsAt(m, e, off, fuel - 1);
    }
  }

  lemma {:induction false} WalkIsFate(f: seq<Byte>, b: seq<Byte>, e: nat, off: nat, fuel: nat)
    requires |b| >= SLACK && e <= |f| && off < |f| + 4 && e <= off + fuel
    ensures VerdictOf(FateFrom(f, e, off), Walk(f + b, e, off, fuel))
    decreases fuel
  {
    hide GetSize, GetDataSize;
    if off < e {
      if off + TLV_HEADER_SIZE > |f| {
        if FateFrom(f, e, off) == Overruns {
          CutSizeOverruns(f, b, off);
        }
      } else {
        SizeInFrame(f, b, off);
        if Next(f + b, off) == off {
          StallsAt(f + b, e, off, fuel);
        } else if Next(f + b, off) <= e {
          WalkIsFate(f, b, e, Next(f + b, off), fuel - 1);
        }
      }
    }
  }

  /** Unless its fate is Exposed, the loop on a frame does the same whatever lies behind the frame. */
  lemma {:induction false} LoopIsFate(frame: seq<Byte>, beyond: seq<Byte>)
    requires HeaderAccepted(frame) && |beyond| >= SLACK
    ensures VerdictOf(FateOf(frame), Walk(frame + beyond, EndOf(frame), FIRST, EndOf(frame)))
  {
    if EndOf(frame) >= FIRST {
      WalkIsFate(frame, beyond, EndOf(frame), FIRST, EndOf(frame));
    }
  }

  lemma {:induction false} HopIsFate(f: seq<Byte>, b: seq<Byte>, c: seq<Byte>, e: nat, off: nat, n: nat)
    requires |b| >= SLACK && |c| >= SLACK && e <= |f| && off < |f| + 4 && FateFrom(f, e, off) != Exposed
    ensures Hop(f + b, e, off, n) == Hop(f + c, e, off, n)
    decreases n
  {
    hide GetSize, GetDataSize;
    if n > 0 && off != e {
      if off > e {
        StepForward(f + b, e, off);
        StepForward(f + c, e, off);
      } else if off + TLV_HEADER_SIZE > |f| {
        CutSizeOverruns(f, b, off);
        CutSizeOverruns(f, c, off);
      } else {
        SizeInFrame(f, b, off);
        SizeInFrame(f, c, off);
        if Next(f + b, off) <= e {
          HopIsFate(f, b, c, e, Next(f + b, off), n - 1);
        }
      }
    }
  }

  lemma StepForward(m: seq<Byte>, e: nat, off: nat)
    requires InMemory(m, e, off) && off > e
    ensures Next(m, off) > e
  {
  }

  lemma {:induction false} ValueIsFate(f: seq<Byte>, b: seq<Byte>, c: seq<Byte>, e: nat, n: nat)
    requires |b| >= SLACK && |c| >= SLACK && FIRST <= e <= |f| && FateFrom(f, e, FIRST) != Exposed
    ensures ValueAt(f + b, e, n) == ValueAt(f + c, e, n)
  {
    hide GetSize, GetDataSize, Hop;
    HopIsFate(f, b, c, e, FIRST, n);
    var place := Hop(f + b, e, FIRST, n);
    if place.Some? && place.value + TLV_HEADER_SIZE <= |f| {
      var at := place.value;
      SizeInFrame(f, b, at);
      SizeInFrame(f, c, at);
      var from, to := at + TLV_HEADER_SIZE, at + TLV_HEADER_SIZE + GetDataSize(f, at);
      assert to <= e ==> (f + b)[from..to] == f[from..to] == (f + c)[from..to];
    }
  }

  /** So is what DoLog makes of it. */
  lemma OutcomeIsFate(frame: seq<Byte>, b: seq<Byte>, c: seq<Byte>)
    requires HeaderAccepted(frame) && |b| >= SLACK && |c| >= SLACK && FateOf(frame) != Exposed
    ensures DecodeMemory(frame, b) == DecodeMemory(frame, c)
  {
    hide Walk, ValueAt, OutcomeOf, ServiceField, FateFrom;
    LoopIsFate(frame, b);
    LoopIsFate(frame, c);
    var e := EndOf(frame);
    if Walk(frame + b, e, FIRST, e).Accepted? {
      AcceptedInside(frame + b, e);
      forall i: nat
        ensures ValueAt(frame + b, e, i) == ValueAt(frame + c, e, i)
      {
        ValueIsFate(frame, b, c, e, i);
      }
      SameService(frame, b, c);
      SameValues(frame[FLAP_CHANNEL_OFFSET], ServiceField(frame + b),
                 (i: nat) => ValueAt(frame + b, e, i), (i: nat) => ValueAt(frame + c, e, i));
    }
  }

  lemma {:induction false} AcceptedInside(m: seq<Byte>, e: nat)
    requires InMemory(m, e, FIRST) && Walk(m, e, FIRST, e).Accepted?
    ensures FIRST <= e
  {
  }

  lemma SameService(frame: seq<Byte>, b: seq<Byte>, c: seq<Byte>)
    requires |frame| >= FIRST
    ensures ServiceField(frame + b) == ServiceField(frame + c)
  {
    assert (frame + b)[6..8] == frame[6..8] == (frame + c)[6..8];
  }

  // ----- decided by the bytes behind -----------------------------------------------------------

  /** Memory whose bytes are 0xFF but for one. */
  function Behind(at: nat, low: Byte): (b: seq<Byte>)
    ensures |b| == SLACK && forall i :: 0 <= i < |b| ==> b[i] == if i == at then low else 0xFF
  {
    seq(SLACK, i => if i == at then low else 0xFF)
  }

  function Zeros(): (b: seq<Byte>)
    ensures |b| == SLACK && forall i :: 0 <= i < |b| ==> b[i] == 0
  {
    seq(SLACK, _ => 0)
  }

  /** Behind an exposed place a step of 0 to 3 can be arranged, and a step past the end. */
  lemma StepsBehind(f: seq<Byte>, off: nat, step: nat)
    requires off <= |f| < off + TLV_HEADER_SIZE && step < 4
    requires off + 2 >= |f| || f[off + 2] == 0xFF
    ensures Next(f + Behind(off + 3 - |f|, 0xFC + step), off) == off + step
    ensures Next(f + Zeros(), off) > |f|
  {
    hide GetDataSize;
    HighByte(f + Behind(off + 3 - |f|, 0xFC + step), off);
    HighByte(f + Zeros(), off);
  }

  /** At an exposed place one memory makes the loop accept, one refuse, and one stall. */
  lemma {:induction false} ExposedWalks(f: seq<Byte>, e: nat, off: nat, fuel: nat)
    returns (accept: seq<Byte>, refuse: seq<Byte>, stall: seq<Byte>)
    requires FIRST <= off && e <= |f| && e <= off + fuel && FateFrom(f, e, off) == Exposed
    ensures |accept| == |refuse| == |stall| == SLACK
    ensures Walk(f + accept, e, off, fuel).Accepted?
    ensures Walk(f + refuse, e, off, fuel).Rejected?
    ensures Walk(f + stall, e, off, fuel).Running?
    decreases e - off
  {
    hide GetSize, GetDataSize;
    if off + TLV_HEADER_SIZE > |f| {
      accept, refuse, stall := Behind(off + 3 - |f|, 0xFC + (e - off)), Zeros(), Behind(off + 3 - |f|, 0xFC);
      StepsBehind(f, off, e - off);
      StepsBehind(f, off, 0);
      StallsAt(f + stall, e, off, fuel);
    } else {
      var next := off + GetSize(f, off);
      accept, refuse, stall := ExposedWalks(f, e, next, fuel - 1);
      SizeInFrame(f, accept, off);
      SizeInFrame(f, refuse, off);
      SizeInFrame(f, stall, off);
    }
  }

  // ----- main results -------------------------------------------------------------------------------

  lemma {:induction false} OutcomeOfVerdict(frame: seq<Byte>, beyond: seq<Byte>)
    requires HeaderAccepted(frame) && |beyond| >= SLACK
    ensures var walked := Walk(frame + beyond, EndOf(frame), FIRST, EndOf(frame));
            && (walked.Rejected? <==> DecodeMemory(frame, beyond) == Refused)
            && (walked.Running? <==> DecodeMemory(frame, beyond) == Endless)
  {
    var e := EndOf(frame);
    if Walk(frame + beyond, e, FIRST, e).Accepted? {
      NeverRefused(frame, beyond);
    }
    hide Walk, OutcomeOf;
  }

  lemma ExposedIsOpen(frame: seq<Byte>) returns (accept: seq<Byte>, refuse: seq<Byte>, stall: seq<Byte>)
    requires HeaderAccepted(frame) && FateOf(frame) == Exposed
    ensures |accept| == |refuse| == |stall| == SLACK
    ensures DecodeMemory(frame, accept) != Refused && DecodeMemory(frame, accept) != Endless
    ensures DecodeMemory(frame, refuse) == Refused && DecodeMemory(frame, stall) == Endless
    ensures !NeverStalls(frame + stall, EndOf(frame), FIRST)
  {
    var e := EndOf(frame);
    accept, refuse, stall := ExposedWalks(frame, e, FIRST, e);
    hide DecodeMemory, FateFrom;
    OutcomeOfVerdict(frame, accept);
    OutcomeOfVerdict(frame, refuse);
    OutcomeOfVerdict(frame, stall);
    if NeverStalls(frame + stall, e, FIRST) {
      StopsInTime(frame + stall, e, FIRST, e);
    }
  }

  /** What DoLog makes of a frame depends on the bytes behind it exactly when its fate is Exposed. */
  lemma OutcomeDependsOnMemoryIff(frame: seq<Byte>)
    requires HeaderAccepted(frame)
    ensures (exists b, c :: |b| >= SLACK && |c| >= SLACK && DecodeMemory(frame, b) != DecodeMemory(frame, c)) <==>
            FateOf(frame) == Exposed
  {
    hide DecodeMemory, FateOf;
    if FateOf(frame) == Exposed {
      var accept, refuse, _ := ExposedIsOpen(frame);
      assert DecodeMemory(frame, accept) != DecodeMemory(frame, refuse);
    } else {
      forall b: seq<Byte>, c: seq<Byte> | |b| >= SLACK && |c| >= SLACK
        ensures DecodeMemory(frame, b) == DecodeMemory(frame, c)
      {
        OutcomeIsFate(frame, b, c);
      }
    }
  }

  /** The counting loop ends, whatever lies behind the frame, exactly when it completes or overruns. */
  lemma {:induction false} LoopEndsIff(frame: seq<Byte>)
    requires HeaderAccepted(frame)
    ensures (forall b: seq<Byte> :: |b| >= SLACK ==> NeverStalls(frame + b, EndOf(frame), FIRST)) <==>
            FateOf(frame) == Completes || FateOf(frame) == Overruns
  {
    hide FateOf, NeverStalls, Walk;
    var e := EndOf(frame);
    if FateOf(frame) == Exposed {
      var _, _, stall := ExposedIsOpen(frame);
      assert !NeverStalls(frame + stall, e, FIRST);
    } else {
      forall b: seq<Byte> | |b| >= SLACK
        ensures NeverStalls(frame + b, e, FIRST) <==> FateOf(frame) != Stalls
      {
        LoopIsFate(frame, b);
        EndsInTimeIff(frame + b, e);
      }
      if FateOf(frame) == Stalls {
        assert !NeverStalls(frame + Zeros(), e, FIRST);
      }
    }
  }

  lemma {:induction false} EndsInTimeIff(m: seq<Byte>, e: nat)
    requires InMemory(m, e, FIRST)
    ensures NeverStalls(m, e, FIRST) <==> !Walk(m, e, FIRST, e).Running?
  {
    hide NeverStalls, Walk;
    WalkTerminatesIff(m, e, FIRST);
    if NeverStalls(m, e, FIRST) {
      StopsInTime(m, e, FIRST, e);
    }
  }

  lemma MeaningOfNoTlvs(frame: seq<Byte>)
    requires HeaderAccepted(frame)
    ensures EndOf(frame) < FIRST || ParseTlvs(frame[FIRST..EndOf(frame)]).None? ==> Decode(frame) == Refused
  {
  }

  lemma ParsedMeansItself(frame: seq<Byte>, beyond: seq<Byte>)
    requires HeaderAccepted(frame) && |beyond| >= SLACK
    requires EndOf(frame) >= FIRST && ParseTlvs(frame[FIRST..EndOf(frame)]).Some?
    ensures DecodeMemory(frame, beyond) == Decode(frame)
  {
    var m, e := frame + beyond, EndOf(frame);
    assert m[FIRST..e] == frame[FIRST..e];
    hide Walk, NoWrap, Decode, DecodeMemory, ParseTlvs;
    ParsedBodiesDoNotWrap(m, e, FIRST);
    MemoryDoesNotMatter(frame, beyond);
  }

  /** DoLog does with a frame what the frame means under the grammar, whatever lies behind it, exactly when
      its body is a list of TLVs or the loop overruns. */
  lemma OutcomeIsMeaningIff(frame: seq<Byte>)
    requires HeaderAccepted(frame)
    ensures (forall b: seq<Byte> :: |b| >= SLACK ==> DecodeMemory(frame, b) == Decode(frame)) <==>
            || (EndOf(frame) >= FIRST && ParseTlvs(frame[FIRST..EndOf(frame)]).Some?)
            || FateOf(frame) == Overruns
  {
    hide Decode, DecodeMemory, FateOf, ParseTlvs, Walk;
    if EndOf(frame) >= FIRST && ParseTlvs(frame[FIRST..EndOf(frame)]).Some? {
      forall b: seq<Byte> | |b| >= SLACK
        ensures DecodeMemory(frame, b) == Decode(frame)
      {
        ParsedMeansItself(frame, b);
      }
    } else {
      MeaningOfNoTlvs(frame);
      forall b: seq<Byte> | |b| >= SLACK && FateOf(frame) != Exposed
        ensures DecodeMemory(frame, b) == Refused <==> FateOf(frame) == Overruns
      {
        LoopIsFate(frame, b);
        OutcomeOfVerdict(frame, b);
      }
      if FateOf(frame) == Exposed {
        var accept, _, _ := ExposedIsOpen(frame);
        assert DecodeMemory(frame, accept) != Decode(frame);
      } else if FateOf(frame) != Overruns {
        assert DecodeMemory(frame, Zeros()) != Decode(frame);
      }
    }
  }

  // ----- an exposed frame -----------------------------------------------------------------------------

  /** A frame whose body is two bytes, too short for a TLV. */
  const CUT: seq<Byte> := [FLAP_MARK, 1, 0, 0, 0, 12, 0, 0, 0, 0, 0, 0, 0, 0, 0, 0, 0, 8]

  /** It passes the header checks, and the bytes behind it decide. */
  lemma CutIsExposed()
    ensures HeaderAccepted(CUT) && EndOf(CUT) == |CUT| && FateOf(CUT) == Exposed
  {
    hide BigEndian;
    TwoBytes(12);
    U16RoundTrip(12);
    assert CUT[FLAP_DATA_SIZE_OFFSET..FLAP_HEADER_SIZE] == [0, 12];
  }

  lemma {:induction false} CutSize(beyond: seq<Byte>, n: nat)
    requires |beyond| >= SLACK && n < 65536 && beyond[..2] == BigEndian(2, n)
    ensures GetDataSize(CUT + beyond, FIRST) == n
  {
    assert (CUT + beyond)[FIRST + 2..FIRST + 4] == beyond[..2];
    U16RoundTrip(n);
  }

  /** A length word 65534 there makes a step of 2, which arrives at the end, and a length word 0 passes it. */
  lemma {:induction false} VerdictDependsOnBeyond(beyond: seq<Byte>)
    requires |beyond| >= SLACK
    ensures HeaderAccepted(CUT) && EndOf(CUT) == |CUT|
    ensures beyond[..2] == [0xFF, 0xFE] ==> Walk(CUT + beyond, |CUT|, FIRST, |CUT|) == Accepted(1)
    ensures beyond[..2] == [0xFF, 0xFE] ==> DecodeMemory(CUT, beyond) != Refused
    ensures beyond[..2] == [0, 0] ==> DecodeMemory(CUT, beyond) == Refused
  {
    hide GetDataSize, BigEndian, EndOf, DecodeMemory;
    CutIsExposed();
    OutcomeOfVerdict(CUT, beyond);
    TwoBytes(65534);
    TwoBytes(0);
    if beyond[..2] == [0xFF, 0xFE] {
      CutSize(beyond, 65534);
    } else if beyond[..2] == [0, 0] {
      CutSize(beyond, 0);
    }
  }
}
