/** Parsing a frame back (oscar/flap_parser.h, oscar/flap_parser.cpp). Memory `m` holds the frame at its
    start and at least 14 more bytes of unknown content, because the iterator reads the four header bytes
    of a TLV before it knows that they belong to the frame. */
module FlapParser {
  import opened Bytes
  import opened FlapBuilder
  import opened Seqs
  import opened Tlv
  import opened TlvList
  import opened Wrappers

  const SLACK: nat := 14

  function SnacSizeOf(m: seq<Byte>): nat
    requires |m| >= FLAP_HEADER_SIZE
  {
    U16(m[FLAP_DATA_SIZE_OFFSET..FLAP_HEADER_SIZE])
  }

  function EndOf(m: seq<Byte>): nat
    requires |m| >= FLAP_HEADER_SIZE
  {
    FLAP_HEADER_SIZE + SnacSizeOf(m)
  }

  const FIRST: nat := FLAP_HEADER_SIZE + SNAC_HEADER_SIZE

  /** The checks of the parser's constructor. Channels are Control (0) and Message (1). */
  predicate HeaderAccepted(frame: seq<Byte>)
  {
    && |frame| >= FLAP_HEADER_SIZE
    && frame[0] == FLAP_MARK
    && frame[FLAP_CHANNEL_OFFSET] < 2
    && |frame| >= EndOf(frame)
  }

  // ----- the walk of the iterator ----------------------------------------------

  datatype Walked = Accepted(count: nat) | Rejected | Running

  predicate InMemory(m: seq<Byte>, e: nat, off: nat)
  {
    off + TLV_HEADER_SIZE <= |m| && e + TLV_HEADER_SIZE <= |m|
  }

  /** One step; the step size is a uint16_t and may wrap to 0..3. */
  function Next(m: seq<Byte>, off: nat): nat
    requires off + TLV_HEADER_SIZE <= |m|
  {
    off + GetSize(m, off)
  }

  /** The counting loop from `off` towards the end `e`, cut after `fuel` steps. */
  function Walk(m: seq<Byte>, e: nat, off: nat, fuel: nat): Walked
    requires InMemory(m, e, off)
    decreases fuel
  {
    if off == e then Accepted(0)
    else if Next(m, off) > e then Rejected
    else if fuel == 0 then Running
    else
      match Walk(m, e, Next(m, off), fuel - 1)
      case Accepted(n) => Accepted(n + 1)
      case other => other
  }

  /** The place reached after `n` steps, if the loop gets that far. */
  function Hop(m: seq<Byte>, e: nat, off: nat, n: nat): (r: Option<nat>)
    requires InMemory(m, e, off)
    ensures r.Some? ==> InMemory(m, e, r.value)
    decreases n
  {
    if n == 0 then Some(off)
    else if off == e || Next(m, off) > e then None
    else Hop(m, e, Next(m, off), n - 1)
  }

  /** No visited TLV has the length 65532, whose size wraps to 0. */
  ghost predicate NeverStalls(m: seq<Byte>, e: nat, off: nat)
    requires InMemory(m, e, off)
  {
    forall n: nat :: Hop(m, e, off, n).Some? && Hop(m, e, off, n).value < e ==>
      GetDataSize(m, Hop(m, e, off, n).value) != 65532
  }

  lemma NeverStallsStep(m: seq<Byte>, e: nat, off: nat)
    requires InMemory(m, e, off) && NeverStalls(m, e, off)
    requires off < e
    ensures Next(m, off) > off
    ensures Next(m, off) <= e ==> NeverStalls(m, e, Next(m, off))
  {
    assert Hop(m, e, off, 0) == Some(off);
    if Next(m, off) <= e {
      forall n: nat | Hop(m, e, Next(m, off), n).Some? && Hop(m, e, Next(m, off), n).value < e
        ensures GetDataSize(m, Hop(m, e, Next(m, off), n).value) != 65532
      {
        assert Hop(m, e, off, n + 1) == Hop(m, e, Next(m, off), n);
      }
    }
  }

  lemma {:induction false} StopsInTime(m: seq<Byte>, e: nat, off: nat, fuel: nat)
    requires InMemory(m, e, off) && NeverStalls(m, e, off)
    requires fuel + off >= e
    ensures !Walk(m, e, off, fuel).Running?
    decreases fuel
  {
    if off < e {
      NeverStallsStep(m, e, off);
      if Next(m, off) <= e {
        StopsInTime(m, e, Next(m, off), fuel - 1);
      }
    }
  }

  lemma {:induction false} StallsForever(m: seq<Byte>, e: nat, off: nat, n: nat, fuel: nat)
    requires InMemory(m, e, off) && Hop(m, e, off, n).Some?
    requires Hop(m, e, off, n).value < e && GetDataSize(m, Hop(m, e, off, n).value) == 65532
    ensures Walk(m, e, off, fuel).Running?
    decreases fuel
  {
    if n == 0 {
      assert Next(m, off) == off;
      if fuel > 0 {
        StallsForever(m, e, off, 0, fuel - 1);
      }
    } else if fuel > 0 {
      StallsForever(m, e, Next(m, off), n - 1, fuel - 1);
    }
  }

  /** The loop ends, accepting or rejecting, exactly when no visited TLV has the length 65532. */
  lemma {:induction false} WalkTerminatesIff(m: seq<Byte>, e: nat, off: nat)
    requires InMemory(m, e, off)
    ensures (exists fuel :: !Walk(m, e, off, fuel).Running?) <==> NeverStalls(m, e, off)
  {
    if NeverStalls(m, e, off) {
      StopsInTime(m, e, off, e);
    } else {
      var n: nat :| Hop(m, e, off, n).Some? && Hop(m, e, off, n).value < e
               && GetDataSize(m, Hop(m, e, off, n).value) == 65532;
      forall fuel: nat
        ensures Walk(m, e, off, fuel).Running?
      {
        StallsForever(m, e, off, n, fuel);
      }
    }
  }

  /** A frame whose body is one TLV header with the length word 65532. */
  const STALLING: seq<Byte> := [FLAP_MARK, 1, 0, 0, 0, 14, 0, 0, 0, 0, 0, 0, 0, 0, 0, 0, 0, 8, 0xFF, 0xFC]

  lemma StallingWords(m: seq<Byte>)
    requires STALLING <= m
    ensures m[FLAP_DATA_SIZE_OFFSET..FLAP_HEADER_SIZE] == BigEndian(2, 14)
    ensures m[FIRST + 2..FIRST + 4] == BigEndian(2, 65532)
  {
    TwoBytes(14);
    TwoBytes(65532);
    hide BigEndian;
    assert m[4] == 0 && m[5] == 14 && m[18] == 0xFF && m[19] == 0xFC;
  }

  /** The header checks accept it, and the loop on it never ends, whatever lies behind it. */
  lemma {:induction false} AcceptedFrameStalls(beyond: seq<Byte>)
    requires |beyond| >= SLACK
    ensures HeaderAccepted(STALLING) && EndOf(STALLING) == |STALLING|
    ensures !NeverStalls(STALLING + beyond, |STALLING|, FIRST)
    ensures forall fuel: nat :: Walk(STALLING + beyond, |STALLING|, FIRST, fuel).Running?
  {
    hide Walk, BigEndian;
    var m, e := STALLING + beyond, |STALLING|;
    StallingWords(STALLING);
    StallingWords(m);
    U16RoundTrip(14);
    U16RoundTrip(65532);
    assert Hop(m, e, FIRST, 0) == Some(FIRST) && GetDataSize(m, FIRST) == 65532;
    forall fuel: nat
      ensures Walk(m, e, FIRST, fuel).Running?
    {
      StallsForever(m, e, FIRST, 0, fuel);
    }
  }

  // ----- the walk against the grammar --------------------------------------------

  /** Every visited length field is below 65532, so no step wraps. */
  ghost predicate NoWrap(m: seq<Byte>, e: nat, off: nat)
    requires InMemory(m, e, off)
  {
    forall n: nat :: Hop(m, e, off, n).Some? && Hop(m, e, off, n).value < e ==>
      GetDataSize(m, Hop(m, e, off, n).value) < 65532
  }

  lemma NoWrapStep(m: seq<Byte>, e: nat, off: nat)
    requires InMemory(m, e, off) && NoWrap(m, e, off) && off < e
    ensures Next(m, off) == off + TLV_HEADER_SIZE + GetDataSize(m, off)
    ensures Next(m, off) <= e ==> NoWrap(m, e, Next(m, off))
  {
    assert Hop(m, e, off, 0) == Some(off);
    if Next(m, off) <= e {
      forall n: nat | Hop(m, e, Next(m, off), n).Some? && Hop(m, e, Next(m, off), n).value < e
        ensures GetDataSize(m, Hop(m, e, Next(m, off), n).value) < 65532
      {
        assert Hop(m, e, off, n + 1) == Hop(m, e, Next(m, off), n);
      }
    }
  }

  function Verdict(parsed: Option<seq<RawTlv>>): Walked
  {
    match parsed
    case None => Rejected
    case Some(ts) => Accepted(|ts|)
  }

  /** Without wrapping steps the walk accepts exactly what the grammar accepts, with the same count. */
  lemma {:induction false} WalkFollowsGrammar(m: seq<Byte>, e: nat, off: nat, fuel: nat)
    requires InMemory(m, e, off) && off <= e <= off + fuel && NoWrap(m, e, off)
    ensures Walk(m, e, off, fuel) == Verdict(ParseTlvs(m[off..e]))
    decreases fuel
  {
    if off != e {
      NoWrapStep(m, e, off);
      if e - off >= TLV_HEADER_SIZE {
        HeaderInSlice(m, off, e);
        if Next(m, off) <= e {
          WalkFollowsGrammar(m, e, Next(m, off), fuel - 1);
          SliceOfSlice(m, off, e, Next(m, off) - off, e - off);
        }
      }
    }
  }

  lemma HeaderInSlice(m: seq<Byte>, off: nat, e: nat)
    requires off + TLV_HEADER_SIZE <= e <= |m|
    ensures GetDataSize(m[off..e], 0) == GetDataSize(m, off)
    ensures GetType(m[off..e], 0) == GetType(m, off)
  {
    SliceOfSlice(m, off, e, 2, 4);
    SliceOfSlice(m, off, e, 0, 2);
  }

  /** The TLVs tile the body from `off` to `e`: no gap, no overlap, nothing left over. */
  ghost predicate Tiles(ts: seq<RawTlv>, m: seq<Byte>, off: nat, e: nat)
    requires off <= e <= |m|
  {
    (forall i :: 0 <= i < |ts| ==> Fits(ts[i])) && Body(ts) == m[off..e]
  }

  /** For a body whose visited lengths are below 65532 the loop stops; it accepts exactly when TLVs tile
      the body, its count is their number, and the tiling is unique. */
  lemma {:induction false} WalkVisitsTheTiling(m: seq<Byte>, e: nat, off: nat, fuel: nat)
    requires InMemory(m, e, off) && off <= e <= off + fuel && NoWrap(m, e, off)
    ensures !Walk(m, e, off, fuel).Running?
    ensures Walk(m, e, off, fuel).Accepted? <==> exists ts :: Tiles(ts, m, off, e)
    ensures forall ts :: Tiles(ts, m, off, e) ==>
              Walk(m, e, off, fuel) == Accepted(|ts|) && forall us :: Tiles(us, m, off, e) ==> us == ts
  {
    WalkFollowsGrammar(m, e, off, fuel);
    var b := m[off..e];
    forall ts | Tiles(ts, m, off, e)
      ensures ParseTlvs(b) == Some(ts)
    {
      ParseOfBody(ts);
    }
    if ParseTlvs(b).Some? {
      BodyOfParse(b);
      assert Tiles(ParseTlvs(b).value, m, off, e);
    }
  }

  lemma FirstTile(m: seq<Byte>, e: nat, off: nat, ts: seq<RawTlv>)
    requires InMemory(m, e, off) && off <= e && NoWrap(m, e, off) && Tiles(ts, m, off, e) && ts != []
    ensures off < e && Next(m, off) == off + TLV_HEADER_SIZE + |ts[0].data| <= e
    ensures NoWrap(m, e, Next(m, off)) && Tiles(ts[1..], m, Next(m, off), e)
  {
    var first, rest := TlvBytes(ts[0].typ, ts[0].data), Body(ts[1..]);
    SplitSlice(m, off, first, rest);
    WrittenHeader(m, off, ts[0].typ, ts[0].data);
    hide NoWrap, Body;
    NoWrapStep(m, e, off);
  }

  lemma BodyPrefix(ts: seq<RawTlv>, n: nat)
    requires 0 < n <= |ts|
    ensures |Body(ts[..n])| == TLV_HEADER_SIZE + |ts[0].data| + |Body(ts[1..][..n - 1])|
  {
    assert ts[..n][1..] == ts[1..][..n - 1];
  }

  /** The places the walk visits are the starts of the tiles, in order, and then the end. */
  lemma {:induction false} VisitsTileStarts(m: seq<Byte>, e: nat, off: nat, ts: seq<RawTlv>, n: nat)
    requires InMemory(m, e, off) && off <= e && NoWrap(m, e, off) && Tiles(ts, m, off, e) && n <= |ts|
    ensures Hop(m, e, off, n) == Some(off + |Body(ts[..n])|)
    decreases n
  {
    hide NoWrap, Tiles, Next;
    if n > 0 {
      FirstTile(m, e, off, ts);
      BodyPrefix(ts, n);
      VisitsTileStarts(m, e, Next(m, off), ts[1..], n - 1);
    }
  }

  lemma ParsedStep(m: seq<Byte>, e: nat, off: nat)
    requires InMemory(m, e, off) && off < e < off + 65536 && ParseTlvs(m[off..e]).Some?
    ensures GetDataSize(m, off) < 65532 && off < Next(m, off) <= e && ParseTlvs(m[Next(m, off)..e]).Some?
  {
    HeaderInSlice(m, off, e);
    var next := off + TLV_HEADER_SIZE + GetDataSize(m, off);
    SliceOfSlice(m, off, e, next - off, e - off);
  }

  /** A body of less than 65536 bytes that parses has no visited length near the wrap. */
  lemma {:induction false} ParsedBodiesDoNotWrap(m: seq<Byte>, e: nat, off: nat)
    requires InMemory(m, e, off) && off <= e < off + 65536
    requires ParseTlvs(m[off..e]).Some?
    ensures NoWrap(m, e, off)
    decreases e - off
  {
    hide ParseTlvs, Next, GetDataSize;
    if off < e {
      ParsedStep(m, e, off);
      ParsedBodiesDoNotWrap(m, e, Next(m, off));
      forall n: nat | Hop(m, e, off, n).Some? && Hop(m, e, off, n).value < e
        ensures GetDataSize(m, Hop(m, e, off, n).value) < 65532
      {
        if n > 0 {
          assert Hop(m, e, Next(m, off), n - 1) == Hop(m, e, off, n);
        }
      }
    }
  }

  // ----- the iterator object --------------------------------------------------------

  class TlvIterator {
    const m: seq<Byte>
    const endPtr: nat
    var begin: nat
    var end: nat

    /** The state of an iterator whose range checks have not thrown. */
    ghost predicate Valid()
      reads this
    {
      && InMemory(m, endPtr, begin)
      && end == (if begin == endPtr then begin else Next(m, begin))
      && end <= endPtr
    }

    constructor (m: seq<Byte>, endPtr: nat, begin: nat)
      requires InMemory(m, endPtr, begin)
      ensures this.m == m && this.endPtr == endPtr && this.begin == begin
      ensures end == (if begin == endPtr then begin else Next(m, begin))
    {
      this.m, this.endPtr, this.begin := m, endPtr, begin;
      end := if begin == endPtr then begin else begin + GetSize(m, begin);
    }

    /** operator++; false stands for the exception. */
    method Advance() returns (ok: bool)
      requires Valid()
      modifies this
      ensures begin == old(end)
      ensures ok <==> begin == endPtr || Next(m, begin) <= endPtr
      ensures ok ==> Valid()
    {
      begin := end;
      if end != endPtr {
        end := end + GetSize(m, begin);
        if end > endPtr {
          return false;
        }
      }
      return true;
    }
  }

  /** calc_tlv_count on a body where the loop ends. */
  method CalcTlvCount(m: seq<Byte>, e: nat) returns (r: Walked)
    requires InMemory(m, e, FIRST) && NeverStalls(m, e, FIRST)
    ensures r == Walk(m, e, FIRST, e)
    ensures !r.Running?
  {
    StopsInTime(m, e, FIRST, e);
    var it := new TlvIterator(m, e, FIRST);
    if it.end > e {
      return Rejected;
    }
    var num := 0;
    ghost var fuel := e;
    while it.begin != e
      invariant it.Valid() && it.m == m && it.endPtr == e && NeverStalls(m, e, it.begin)
      invariant fuel + it.begin >= e
      invariant Walk(m, e, FIRST, e) == match Walk(m, e, it.begin, fuel) case Accepted(n) => Accepted(n + num) case o => o
      decreases e - it.begin
    {
      NeverStallsStep(m, e, it.begin);
      num := num + 1;
      fuel := fuel - 1;
      var ok := it.Advance();
      if !ok {
        return Rejected;
      }
    }
    return Accepted(num);
  }
}
