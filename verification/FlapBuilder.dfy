/** Building one frame in place: FLAP header, SNAC header, TLVs (oscar/snac.h, oscar/flap_builder.h). */
module FlapBuilder {
  import opened Bytes
  import opened Seqs
  import opened Tlv
  import opened TlvList
  import opened Wrappers

  const FLAP_HEADER_SIZE: nat := 6
  const SNAC_HEADER_SIZE: nat := 10
  const FLAP_MARK: Byte := 0x2A
  const FLAP_CHANNEL_OFFSET: nat := 1
  const FLAP_DATA_SIZE_OFFSET: nat := 4
  const SNAC_FLAGS: nat := 0xFFFF

  /** One element of the SNAC's tuple: the type of its traits and the value to store. */
  datatype Field = Field(typ: nat, value: Value)

  datatype BuildError = OverflowSnacSize | WrongPackage

  function Raws(fields: seq<Field>): (ts: seq<RawTlv>)
    ensures |ts| == |fields|
    ensures forall i :: 0 <= i < |ts| ==> ts[i] == RawTlv(fields[i].typ, Data(fields[i].value))
  {
    seq(|fields|, i requires 0 <= i < |fields| => RawTlv(fields[i].typ, Data(fields[i].value)))
  }

  function SnacHeader(service: nat, subtype: nat, requestId: nat): (bs: seq<Byte>)
    ensures |bs| == SNAC_HEADER_SIZE
  {
    BigEndian(2, service) + BigEndian(2, subtype) + BigEndian(2, SNAC_FLAGS) + BigEndian(4, requestId)
  }

  function SnacSize(fields: seq<Field>): nat
  {
    SNAC_HEADER_SIZE + |Body(Raws(fields))|
  }

  /** The sequence number is always 0. */
  function FlapHeader(channel: Byte, size: nat): (bs: seq<Byte>)
    ensures |bs| == FLAP_HEADER_SIZE
  {
    [FLAP_MARK, channel] + BigEndian(2, 0) + BigEndian(2, size)
  }

  /** The whole frame. */
  function FrameBytes(channel: Byte, service: nat, subtype: nat, requestId: nat, fields: seq<Field>): seq<Byte>
  {
    FlapHeader(channel, SnacSize(fields)) + SnacHeader(service, subtype, requestId) + Body(Raws(fields))
  }

  lemma BodyStep(fields: seq<Field>, i: nat)
    requires i < |fields|
    ensures Body(Raws(fields[..i + 1])) ==
            Body(Raws(fields[..i])) + TlvBytes(fields[i].typ, Data(fields[i].value))
    ensures |Body(Raws(fields[..i + 1]))| <= |Body(Raws(fields))|
  {
    assert Raws(fields[..i]) == Raws(fields)[..i] && Raws(fields[..i + 1]) == Raws(fields)[..i + 1];
    BodyAt(Raws(fields), i);
  }

  lemma WholeBody(fields: seq<Field>)
    ensures fields[..|fields|] == fields && fields[..0] == []
    ensures Body(Raws(fields[..0])) == []
  {
  }

  /** snac::calc_size: the sum in size_t, refused above the 16-bit maximum. */
  method ComputeSize(fields: seq<Field>) returns (r: Result<nat, BuildError>)
    ensures r == if SnacSize(fields) > 65535 then Failure(OverflowSnacSize) else Success(SnacSize(fields))
  {
    var size := SNAC_HEADER_SIZE;
    WholeBody(fields);
    for i := 0 to |fields|
      invariant size == SNAC_HEADER_SIZE + |Body(Raws(fields[..i]))|
    {
      BodyStep(fields, i);
      CalcSizeIsExact(fields[i].value);
      size := size + CalcSize(fields[i].value);
    }
    if size > 65535 {
      return Failure(OverflowSnacSize);
    }
    return Success(size);
  }

  lemma NothingSpliced(m: seq<Byte>, at: nat)
    requires at <= |m|
    ensures Splice(m, at, []) == m
  {
  }

  /** snac::store_all_data: TLV after TLV at a pointer that moves by the reserved size. */
  method StoreAllData(p: array<Byte>, at: nat, fields: seq<Field>) returns (end: nat)
    requires at + |Body(Raws(fields))| <= p.Length
    requires forall f :: f in fields ==> f.typ < 65536
    modifies p
    ensures p[..] == Splice(old(p[..]), at, Body(Raws(fields)))
    ensures end == at + |Body(Raws(fields))|
  {
    hide Splice, Body, Raws, CalcSize, Data, TlvBytes;
    end := at;
    ghost var m := p[..];
    WholeBody(fields);
    NothingSpliced(m, at);
    for i := 0 to |fields|
      invariant end == at + |Body(Raws(fields[..i]))| && |Body(Raws(fields[..i]))| <= |Body(Raws(fields))|
      invariant p[..] == Splice(m, at, Body(Raws(fields[..i])))
    {
      BodyStep(fields, i);
      CalcSizeIsExact(fields[i].value);
      SpliceTwice(m, at, Body(Raws(fields[..i])), TlvBytes(fields[i].typ, Data(fields[i].value)));
      Create(fields[i].typ, fields[i].value, p, end);
      end := end + CalcSize(fields[i].value);
    }
  }

  /** snac::fill_header. */
  method FillHeader(p: array<Byte>, at: nat, service: nat, subtype: nat, requestId: nat) returns (end: nat)
    requires at + SNAC_HEADER_SIZE <= p.Length
    modifies p
    ensures p[..] == Splice(old(p[..]), at, SnacHeader(service, subtype, requestId))
    ensures end == at + SNAC_HEADER_SIZE
  {
    ghost var m := p[..];
    var a, b, c, d := BigEndian(2, service), BigEndian(2, subtype), BigEndian(2, SNAC_FLAGS), BigEndian(4, requestId);
    Copy(p, at, a);
    Copy(p, at + 2, b);
    SpliceTwice(m, at, a, b);
    Copy(p, at + 4, c);
    SpliceTwice(m, at, a + b, c);
    Copy(p, at + 6, d);
    SpliceTwice(m, at, a + b + c, d);
    end := at + SNAC_HEADER_SIZE;
  }

  /** The header of flap_builder::add_data, in front of the SNAC. */
  method StoreFlapHeader(p: array<Byte>, channel: Byte, size: nat)
    requires FLAP_HEADER_SIZE <= p.Length
    modifies p
    ensures p[..] == Splice(old(p[..]), 0, FlapHeader(channel, size))
  {
    hide BigEndian, Splice;
    ghost var m := p[..];
    var start := [FLAP_MARK, channel];
    Copy(p, 0, start);
    Copy(p, 2, BigEndian(2, 0));
    SpliceTwice(m, 0, start, BigEndian(2, 0));
    Copy(p, FLAP_DATA_SIZE_OFFSET, BigEndian(2, size));
    SpliceTwice(m, 0, start + BigEndian(2, 0), BigEndian(2, size));
  }

  lemma HeaderInFront(m: seq<Byte>, header: seq<Byte>, snac: seq<Byte>)
    requires |m| == |header| + |snac|
    ensures Splice(Splice(m, |header|, snac), 0, header) == header + snac
  {
  }

  /** make_flap_package: the frame, or the overflow error; the store pointer ends at the buffer's end. */
  method MakeFlapPackage(channel: Byte, service: nat, subtype: nat, requestId: nat, fields: seq<Field>)
    returns (r: Result<seq<Byte>, BuildError>)
    requires forall f :: f in fields ==> f.typ < 65536
    ensures r == if SnacSize(fields) > 65535 then Failure(OverflowSnacSize)
                 else Success(FrameBytes(channel, service, subtype, requestId, fields))
  {
    hide Splice, Body, Raws, BigEndian;
    var checked := ComputeSize(fields);
    if checked.Failure? {
      return Failure(checked.error);
    }
    var stg := new Byte[checked.value + FLAP_HEADER_SIZE](_ => 0);
    ghost var m := stg[..];
    var ptr := FillHeader(stg, FLAP_HEADER_SIZE, service, subtype, requestId);
    ptr := StoreAllData(stg, ptr, fields);
    assert ptr == stg.Length;
    ghost var head, body := SnacHeader(service, subtype, requestId), Body(Raws(fields));
    SpliceTwice(m, FLAP_HEADER_SIZE, head, body);
    StoreFlapHeader(stg, channel, checked.value);
    HeaderInFront(m, FlapHeader(channel, checked.value), head + body);
    Assoc(FlapHeader(channel, checked.value), head, body);
    return Success(stg[..]);
  }

  /** On a body within the builder's limit no 16-bit size wraps: at the place of every TLV its type and
      size read back as reserved, and the places follow each other without gap up to the end. */
  lemma NoWrapOnBuiltBodies(fields: seq<Field>, i: nat, at: nat)
    requires SnacSize(fields) <= 65535 && i < |fields| && fields[i].typ < 65536
    requires at == |Body(Raws(fields)[..i])|
    ensures at + CalcSize(fields[i].value) == |Body(Raws(fields)[..i + 1])| <= |Body(Raws(fields))| <= 65525
    ensures GetType(Body(Raws(fields)), at) == fields[i].typ
    ensures GetSize(Body(Raws(fields)), at) == CalcSize(fields[i].value)
    ensures i + 1 == |fields| ==> at + GetSize(Body(Raws(fields)), at) == |Body(Raws(fields))|
  {
    HeaderAt(Raws(fields), i, at);
    CalcSizeIsExact(fields[i].value);
    assert i + 1 == |fields| ==> Raws(fields)[..i + 1] == Raws(fields);
  }
}
