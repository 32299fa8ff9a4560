/** Lists of TLVs laid end to end, as the body of a SNAC holds them, and the grammar they follow. */
module TlvList {
  import opened Bytes
  import opened Seqs
  import opened Tlv
  import opened Wrappers

  datatype RawTlv = RawTlv(typ: nat, data: seq<Byte>)

  /** Both header words hold the true values. */
  ghost predicate Fits(t: RawTlv)
  {
    t.typ < 65536 && |t.data| < 65536
  }

  function Body(ts: seq<RawTlv>): seq<Byte>
  {
    if ts == [] then [] else TlvBytes(ts[0].typ, ts[0].data) + Body(ts[1..])
  }

  /** The reference grammar: None when the bytes are not a whole number of TLVs. */
  function ParseTlvs(b: seq<Byte>): Option<seq<RawTlv>>
    decreases |b|
  {
    if b == [] then Some([])
    else if |b| < TLV_HEADER_SIZE then None
    else
      var next := TLV_HEADER_SIZE + GetDataSize(b, 0);
      if next > |b| then None
      else
        match ParseTlvs(b[next..])
        case None => None
        case Some(ts) => Some([RawTlv(GetType(b, 0), b[TLV_HEADER_SIZE..next])] + ts)
  }

  lemma {:induction false} BodyFirst(t: RawTlv, rest: seq<RawTlv>)
    ensures Body([t] + rest) == TlvBytes(t.typ, t.data) + Body(rest)
  {
    assert ([t] + rest)[1..] == rest;
  }

  lemma {:induction false} BodyAppend(a: seq<RawTlv>, b: seq<RawTlv>)
    ensures Body(a + b) == Body(a) + Body(b)
  {
    if a == [] {
      assert a + b == b;
    } else {
      hide Body, TlvBytes;
      SplitFirst(a, b);
      BodyFirst(a[0], a[1..] + b);
      BodyFirst(a[0], a[1..]);
      BodyAppend(a[1..], b);
      Assoc(TlvBytes(a[0].typ, a[0].data), Body(a[1..]), Body(b));
    }
  }

  /** Where the `i`-th TLV lies. */
  lemma BodyAt(ts: seq<RawTlv>, i: nat)
    requires i < |ts|
    ensures Body(ts[..i + 1]) == Body(ts[..i]) + TlvBytes(ts[i].typ, ts[i].data)
    ensures |Body(ts[..i + 1])| <= |Body(ts)|
    ensures Body(ts)[|Body(ts[..i])|..|Body(ts[..i + 1])|] == TlvBytes(ts[i].typ, ts[i].data)
  {
    assert Body([ts[i]]) == TlvBytes(ts[i].typ, ts[i].data);
    assert ts[..i + 1] == ts[..i] + [ts[i]];
    BodyAppend(ts[..i], [ts[i]]);
    assert ts == ts[..i + 1] + ts[i + 1..];
    BodyAppend(ts[..i + 1], ts[i + 1..]);
  }

  lemma HeaderAt(ts: seq<RawTlv>, i: nat, at: nat)
    requires i < |ts| && ts[i].typ < 65536 && at == |Body(ts[..i])|
    requires |Body(ts)| <= 65535
    ensures at + TLV_HEADER_SIZE + |ts[i].data| == |Body(ts[..i + 1])| <= |Body(ts)|
    ensures GetType(Body(ts), at) == ts[i].typ
    ensures GetSize(Body(ts), at) == TLV_HEADER_SIZE + |ts[i].data|
  {
    BodyAt(ts, i);
    ReadHeader(Body(ts), at, ts[i].typ, ts[i].data);
  }

  lemma ReadHeader(b: seq<Byte>, at: nat, typ: nat, data: seq<Byte>)
    requires typ < 65536 && at + TLV_HEADER_SIZE + |data| <= |b| <= 65535
    requires b[at..at + TLV_HEADER_SIZE + |data|] == TlvBytes(typ, data)
    ensures GetType(b, at) == typ
    ensures GetSize(b, at) == TLV_HEADER_SIZE + |data|
  {
    WrittenHeader(b, at, typ, data);
  }

  lemma {:induction false} ParseFirst(t: RawTlv, rest: seq<Byte>)
    requires Fits(t)
    ensures ParseTlvs(TlvBytes(t.typ, t.data) + rest) ==
            match ParseTlvs(rest) case None => None case Some(ts) => Some([t] + ts)
  {
    var first := TlvBytes(t.typ, t.data);
    var b := first + rest;
    assert b[0..|first|] == first && b[|first|..] == rest;
    WrittenHeader(b, 0, t.typ, t.data);
    assert b[TLV_HEADER_SIZE..|first|] == t.data;
  }

  /** Every list of TLVs with true header words parses back to itself. */
  lemma {:induction false} ParseOfBody(ts: seq<RawTlv>)
    requires forall i :: 0 <= i < |ts| ==> Fits(ts[i])
    ensures ParseTlvs(Body(ts)) == Some(ts)
  {
    if ts != [] {
      ParseOfBody(ts[1..]);
      ParseFirst(ts[0], Body(ts[1..]));
      assert ts == [ts[0]] + ts[1..];
    }
  }

  /** Whatever parses is exactly the bytes of the TLVs it parses to, and they fit. */
  lemma {:induction false} BodyOfParse(b: seq<Byte>)
    requires ParseTlvs(b).Some?
    ensures Body(ParseTlvs(b).value) == b
    ensures forall i :: 0 <= i < |ParseTlvs(b).value| ==> Fits(ParseTlvs(b).value[i])
    decreases |b|
  {
    if b != [] {
      var next := TLV_HEADER_SIZE + GetDataSize(b, 0);
      BodyOfParse(b[next..]);
      FromBigEndianRoundTrip(b[0..2]);
      FromBigEndianRoundTrip(b[2..4]);
      var t := RawTlv(GetType(b, 0), b[TLV_HEADER_SIZE..next]);
      assert TlvBytes(t.typ, t.data) == b[0..2] + b[2..4] + b[4..next] == b[..next];
      assert ParseTlvs(b).value == [t] + ParseTlvs(b[next..]).value;
    }
  }
}
