/** TLV records (oscar/tlv.h): a 16-bit type, a 16-bit length and that many bytes of data,
    written into and read from raw memory at a given place. */
module Tlv {
  import opened Bytes
  import opened Seqs

  const TLV_HEADER_SIZE: nat := 4

  /** What can be stored: an arithmetic value, a std::string, or a container of arithmetic values. */
  datatype Value =
    | Num(it: IntType, n: int)
    | Text(s: seq<Byte>)
    | Items(elem: IntType, vals: seq<int>)

  function PackAll(it: IntType, vals: seq<int>): seq<Byte>
  {
    if vals == [] then [] else Pack(it, vals[0]) + PackAll(it, vals[1..])
  }

  lemma {:induction false} PackAllLength(it: IntType, vals: seq<int>)
    ensures |PackAll(it, vals)| == |vals| * it.width
  {
    if vals != [] {
      PackAllLength(it, vals[1..]);
      assert |vals| * it.width == it.width + (|vals| - 1) * it.width;
    }
  }

  function Data(v: Value): seq<Byte>
  {
    match v
    case Num(it, n) => Pack(it, n)
    case Text(s) => s
    case Items(it, vals) => PackAll(it, vals)
  }

  /** The TLV as it lies in memory; both header words keep only their low 16 bits. */
  function TlvBytes(typ: nat, data: seq<Byte>): (bs: seq<Byte>)
    ensures |bs| == TLV_HEADER_SIZE + |data|
  {
    BigEndian(2, typ) + BigEndian(2, |data|) + data
  }

  /** The size that the builder reserves, computed in size_t. */
  function CalcSize(v: Value): nat
  {
    match v
    case Num(it, _) => TLV_HEADER_SIZE + it.width
    case Text(s) => TLV_HEADER_SIZE + |s|
    case Items(it, vals) => TLV_HEADER_SIZE + |vals| * it.width
  }

  lemma CalcSizeIsExact(v: Value)
    ensures CalcSize(v) == TLV_HEADER_SIZE + |Data(v)|
  {
    if v.Items? {
      PackAllLength(v.elem, v.vals);
    }
  }

  // ----- reading -------------------------------------------------------------

  function GetType(m: seq<Byte>, at: nat): nat
    requires at + 2 <= |m|
  {
    U16(m[at..at + 2])
  }

  function GetDataSize(m: seq<Byte>, at: nat): (n: nat)
    requires at + TLV_HEADER_SIZE <= |m|
    ensures n < 65536
  {
    U16(m[at + 2..at + 4])
  }

  /** Header plus data, computed in uint16_t. */
  function GetSize(m: seq<Byte>, at: nat): nat
    requires at + TLV_HEADER_SIZE <= |m|
  {
    (TLV_HEADER_SIZE + GetDataSize(m, at)) % 65536
  }

  /** Every element read of the loop at `off`, `off + width`, ... below `size` stays inside memory. */
  ghost predicate Readable(m: seq<Byte>, place: nat, off: nat, size: nat, it: IntType)
    requires it.width > 0
    decreases size - off
  {
    off < size ==>
      place + off + it.width <= |m| && Readable(m, place, off + it.width, size, it)
  }

  function ReadItems(m: seq<Byte>, place: nat, off: nat, size: nat, it: IntType): seq<int>
    requires it.width > 0 && Readable(m, place, off, size, it)
    decreases size - off
  {
    if off >= size then [] else
    [Unpack(it, m[place + off..place + off + it.width])] + ReadItems(m, place, off + it.width, size, it)
  }

  lemma ReadItemsStep(m: seq<Byte>, place: nat, off: nat, size: nat, it: IntType)
    requires it.width > 0 && off < size && Readable(m, place, off, size, it)
    ensures place + off + it.width <= |m| && Readable(m, place, off + it.width, size, it)
    ensures ReadItems(m, place, off, size, it) ==
            [Unpack(it, m[place + off..place + off + it.width])] + ReadItems(m, place, off + it.width, size, it)
  {
  }

  /** get_array, and get_value for containers. */
  method GetItems(m: seq<Byte>, at: nat, it: IntType) returns (vals: seq<int>)
    requires at + TLV_HEADER_SIZE <= |m| && it.width > 0
    requires Readable(m, at + TLV_HEADER_SIZE, 0, GetDataSize(m, at), it)
    ensures vals == ReadItems(m, at + TLV_HEADER_SIZE, 0, GetDataSize(m, at), it)
  {
    hide ReadItems, Readable, Unpack, GetDataSize;
    vals := [];
    var size := GetDataSize(m, at);
    var place := at + TLV_HEADER_SIZE;
    ghost var all := ReadItems(m, place, 0, size, it);
    var off := 0;
    while off < size
      invariant Readable(m, place, off, size, it)
      invariant vals + ReadItems(m, place, off, size, it) == all
      decreases size - off
    {
      ReadItemsStep(m, place, off, size, it);
      vals := vals + [Unpack(it, m[place + off..place + off + it.width])];
      off := off + it.width;
    }
    assert ReadItems(m, place, off, size, it) == [] by {
      ReadItemsEnd(m, place, off, size, it);
    }
  }

  lemma {:induction false} ReadItemsEnd(m: seq<Byte>, place: nat, off: nat, size: nat, it: IntType)
    requires it.width > 0 && off >= size
    ensures Readable(m, place, off, size, it) && ReadItems(m, place, off, size, it) == []
  {
  }

  // ----- writing in place ----------------------------------------------------

  function Splice(m: seq<Byte>, at: nat, bs: seq<Byte>): (r: seq<Byte>)
    requires at + |bs| <= |m|
    ensures |r| == |m|
  {
    m[..at] + bs + m[at + |bs|..]
  }

  lemma SpliceTwice(m: seq<Byte>, at: nat, a: seq<Byte>, b: seq<Byte>)
    requires at + |a| + |b| <= |m|
    ensures Splice(Splice(m, at, a), at + |a|, b) == Splice(m, at, a + b)
  {
  }

  /** memcpy. */
  method Copy(p: array<Byte>, at: nat, bs: seq<Byte>)
    requires at + |bs| <= p.Length
    modifies p
    ensures p[..] == Splice(old(p[..]), at, bs)
  {
    forall i | 0 <= i < |bs| {
      p[at + i] := bs[i];
    }
  }

  /** store_data for containers and store_data_array: one element after another. */
  method StoreItems(p: array<Byte>, at: nat, it: IntType, vals: seq<int>)
    requires at + |PackAll(it, vals)| <= p.Length
    modifies p
    ensures p[..] == Splice(old(p[..]), at, PackAll(it, vals))
  {
    var off, i := 0, 0;
    ghost var m := p[..];
    while i < |vals|
      invariant i <= |vals| && off == |PackAll(it, vals[..i])| <= |PackAll(it, vals)|
      invariant p[..] == Splice(m, at, PackAll(it, vals[..i]))
    {
      PackAllStep(it, vals, i);
      SpliceTwice(m, at, PackAll(it, vals[..i]), Pack(it, vals[i]));
      Copy(p, at + off, Pack(it, vals[i]));
      off := off + it.width;
      i := i + 1;
    }
    assert vals[..i] == vals;
  }

  lemma {:induction false} PackAllFirst(it: IntType, x: int, rest: seq<int>)
    ensures PackAll(it, [x] + rest) == Pack(it, x) + PackAll(it, rest)
  {
    assert ([x] + rest)[1..] == rest;
  }

  lemma {:induction false} PackAllAppend(it: IntType, a: seq<int>, b: seq<int>)
    ensures PackAll(it, a + b) == PackAll(it, a) + PackAll(it, b)
  {
    if a == [] {
      assert a + b == b;
    } else {
      hide PackAll, Pack;
      SplitFirst(a, b);
      PackAllFirst(it, a[0], a[1..] + b);
      PackAllFirst(it, a[0], a[1..]);
      PackAllAppend(it, a[1..], b);
      Assoc(Pack(it, a[0]), PackAll(it, a[1..]), PackAll(it, b));
    }
  }

  lemma {:induction false} PackAllStep(it: IntType, vals: seq<int>, i: nat)
    requires i < |vals|
    ensures PackAll(it, vals[..i + 1]) == PackAll(it, vals[..i]) + Pack(it, vals[i])
    ensures |PackAll(it, vals[..i + 1])| <= |PackAll(it, vals)|
    ensures |PackAll(it, vals[i..])| == it.width + |PackAll(it, vals[i + 1..])|
  {
    assert vals[i..][1..] == vals[i + 1..];
    var a := vals[..i + 1];
    assert a == vals[..i] + [vals[i]];
    assert PackAll(it, [vals[i]]) == Pack(it, vals[i]);
    PackAllAppend(it, vals[..i], [vals[i]]);
    PackAllAppend(it, a, vals[i + 1..]);
    assert vals == a + vals[i + 1..];
  }

  /** set_type and set_data_size; the length word keeps its low 16 bits. */
  method StoreHeader(typ: nat, size: nat, p: array<Byte>, at: nat)
    requires typ < 65536 && at + TLV_HEADER_SIZE <= p.Length
    modifies p
    ensures p[..] == Splice(old(p[..]), at, BigEndian(2, typ) + BigEndian(2, size))
  {
    hide BigEndian, Splice;
    ghost var m := p[..];
    Copy(p, at, BigEndian(2, typ));
    Copy(p, at + 2, BigEndian(2, size % 65536));
    BigEndianTruncates(size);
    SpliceTwice(m, at, BigEndian(2, typ), BigEndian(2, size));
  }

  /** store_data in its three forms. */
  method StoreData(v: Value, p: array<Byte>, place: nat)
    requires place + |Data(v)| <= p.Length
    modifies p
    ensures p[..] == Splice(old(p[..]), place, Data(v))
  {
    hide PackAll, Pack, Splice;
    match v {
      case Num(it, n) => Copy(p, place, Pack(it, n));
      case Text(s) => Copy(p, place, s);
      case Items(it, vals) => StoreItems(p, place, it, vals);
    }
  }

  /** tlv::create: type, data size, data; nothing outside the TLV is touched. */
  method Create(typ: nat, v: Value, p: array<Byte>, at: nat)
    requires typ < 65536 && at + TLV_HEADER_SIZE + |Data(v)| <= p.Length
    modifies p
    ensures p[..] == Splice(old(p[..]), at, TlvBytes(typ, Data(v)))
  {
    hide BigEndian, CalcSize, Data, Splice;
    CalcSizeIsExact(v);
    ghost var m, header := p[..], BigEndian(2, typ) + BigEndian(2, |Data(v)|);
    StoreHeader(typ, CalcSize(v) - TLV_HEADER_SIZE, p, at);
    StoreData(v, p, at + TLV_HEADER_SIZE);
    SpliceTwice(m, at, header, Data(v));
  }

  /** store_data_array: the loop runs to a 16-bit byte count, so of a longer array only the first elements
      are stored, as many as reach that count. */
  method StoreDataArray(p: array<Byte>, place: nat, it: IntType, vals: seq<int>) returns (ghost stored: nat)
    requires 0 < it.width && |vals| < 65536
    requires place + |PackAll(it, vals)| <= p.Length
    modifies p
    ensures stored <= |vals| && place + |PackAll(it, vals[..stored])| <= p.Length
    ensures p[..] == Splice(old(p[..]), place, PackAll(it, vals[..stored]))
    ensures var size := it.width * |vals| % 65536; size <= stored * it.width < size + it.width
    ensures |vals| < 65535 / it.width ==> stored == |vals|
  {
    hide PackAll, Pack, Splice;
    var size := it.width * |vals| % 65536;
    ghost var m := p[..];
    var off, i := 0, 0;
    NoneStored(it, vals, m, place);
    while off < size
      invariant i <= |vals| && off == |PackAll(it, vals[..i])| == i * it.width < size + it.width
      invariant place + off <= p.Length == |m|
      invariant p[..] == Splice(m, place, PackAll(it, vals[..i]))
      decreases size - off
    {
      MoreLeft(i, |vals|, it.width);
      PackAllStep(it, vals, i);
      MulStep(i, it.width);
      SpliceTwice(m, place, PackAll(it, vals[..i]), Pack(it, vals[i]));
      Copy(p, place + off, Pack(it, vals[i]));
      off := off + it.width;
      i := i + 1;
    }
    stored := i;
    AllStored(i, |vals|, it.width);
  }

  lemma {:induction false} NoneStored(it: IntType, vals: seq<int>, m: seq<Byte>, place: nat)
    requires place <= |m|
    ensures PackAll(it, vals[..0]) == [] && Splice(m, place, []) == m
  {
  }

  lemma MoreLeft(i: nat, n: nat, w: nat)
    requires i <= n
    ensures i * w < w * n % 65536 ==> i < n
  {
    if i == n {
      assert i * w == w * n;
    }
  }

  lemma AllStored(i: nat, n: nat, w: nat)
    requires 0 < w && i <= n && i * w >= w * n % 65536
    ensures n < 65535 / w ==> i == n
  {
    if i < n < 65535 / w {
      ProductFits(n, w);
      MulMonotone(n, i + 1, w);
      MulStep(i, w);
    }
  }

  /** create for a C array, whose caller keeps the count below 65535 over the element size: the source
      asserts that. */
  method CreateArray(typ: nat, it: IntType, vals: seq<int>, p: array<Byte>, at: nat)
    requires typ < 65536 && 0 < it.width && |vals| < 65535 / it.width
    requires at + TLV_HEADER_SIZE + |PackAll(it, vals)| <= p.Length
    modifies p
    ensures p[..] == Splice(old(p[..]), at, TlvBytes(typ, PackAll(it, vals)))
  {
    hide PackAll, BigEndian, Splice;
    ArrayFits(it, vals);
    ghost var m, data := p[..], PackAll(it, vals);
    StoreHeader(typ, it.width * |vals|, p, at);
    ghost var stored := StoreDataArray(p, at + TLV_HEADER_SIZE, it, vals);
    assert vals[..stored] == vals;
    SpliceTwice(m, at, BigEndian(2, typ) + BigEndian(2, |data|), data);
  }

  lemma ProductFits(n: nat, w: nat)
    requires 0 < w && n < 65535 / w
    ensures n * w <= 65535 && w * n == n * w
  {
    MulMonotone(65535 / w, n, w);
  }

  lemma {:induction false} ArrayFits(it: IntType, vals: seq<int>)
    requires 0 < it.width && |vals| < 65535 / it.width
    ensures it.width * |vals| % 65536 == |PackAll(it, vals)| == it.width * |vals| <= 65535
    ensures |vals| < 65536
  {
    ProductFits(|vals|, it.width);
    PackAllLength(it, vals);
    CountFits(|vals|, it.width);
  }

  lemma CountFits(n: nat, w: nat)
    requires 0 < w && n < 65535 / w
    ensures n < 65536
  {
    assert 65535 / w <= 65535;
  }

  lemma LowBytes(n: nat)
    ensures n % 65536 % 256 == n % 256 && n % 65536 / 256 % 256 == n / 256 % 256
  {
    var low, high := n % 65536, n / 65536;
    assert n == low + 256 * (256 * high);
    assert n / 256 == low / 256 + 256 * high;
  }

  lemma {:induction false} TwoLowBytes(n: nat)
    ensures BigEndian(2, n) == [n / 256 % 256, n % 256]
  {
    assert BigEndian(1, n / 256) == [n / 256 % 256];
  }

  lemma {:induction false} BigEndianTruncates(n: nat)
    ensures BigEndian(2, n % 65536) == BigEndian(2, n)
  {
    hide BigEndian;
    LowBytes(n);
    TwoLowBytes(n);
    TwoLowBytes(n % 65536);
  }

  // ----- what is written reads back -------------------------------------------

  lemma WrittenHeader(m: seq<Byte>, at: nat, typ: nat, data: seq<Byte>)
    requires at + TLV_HEADER_SIZE + |data| <= |m| && typ < 65536
    requires m[at..at + TLV_HEADER_SIZE + |data|] == TlvBytes(typ, data)
    ensures GetType(m, at) == typ
    ensures GetDataSize(m, at) == |data| % 65536
  {
    var tlv := TlvBytes(typ, data);
    SliceOfSlice(m, at, at + |tlv|, 0, 2);
    SliceOfSlice(m, at, at + |tlv|, 2, 4);
    assert tlv[0..2] == BigEndian(2, typ) && tlv[2..4] == BigEndian(2, |data|);
    U16RoundTrip(typ);
    BigEndianTruncates(|data|);
    U16RoundTrip(|data| % 65536);
  }

  /** The size read back agrees with the size reserved exactly when it fits uint16_t. */
  lemma SizeReadsBack(m: seq<Byte>, at: nat, typ: nat, v: Value)
    requires at + TLV_HEADER_SIZE + |Data(v)| <= |m| && typ < 65536
    requires m[at..at + TLV_HEADER_SIZE + |Data(v)|] == TlvBytes(typ, Data(v))
    ensures GetSize(m, at) == CalcSize(v) <==> CalcSize(v) <= 65535
  {
    hide CalcSize, Data, BigEndian;
    CalcSizeIsExact(v);
    WrittenHeader(m, at, typ, Data(v));
  }

  lemma SplitSlice(m: seq<Byte>, at: nat, a: seq<Byte>, b: seq<Byte>)
    requires at + |a + b| <= |m| && m[at..at + |a + b|] == a + b
    ensures m[at..at + |a|] == a && m[at + |a|..at + |a| + |b|] == b
  {
    SliceOfSlice(m, at, at + |a + b|, 0, |a|);
    SliceOfSlice(m, at, at + |a + b|, |a|, |a + b|);
  }

  lemma {:induction false} ItemsReadBack(m: seq<Byte>, place: nat, off: nat, size: nat, it: IntType, vals: seq<int>)
    requires it.width > 0 && forall i :: 0 <= i < |vals| ==> InRange(it, vals[i])
    requires size == off + |PackAll(it, vals)| && place + size <= |m|
    requires m[place + off..place + size] == PackAll(it, vals)
    ensures Readable(m, place, off, size, it)
    ensures ReadItems(m, place, off, size, it) == vals
    decreases |vals|
  {
    if vals != [] {
      var first, rest := Pack(it, vals[0]), PackAll(it, vals[1..]);
      assert PackAll(it, vals) == first + rest;
      SplitSlice(m, place + off, first, rest);
      PackRoundTrip(it, vals[0]);
      ItemsReadBack(m, place, off + it.width, size, it, vals[1..]);
      assert ReadItems(m, place, off, size, it)[0] == vals[0];
      assert vals == [vals[0]] + vals[1..];
    }
  }

  lemma {:induction false} ReadItemsCount(m: seq<Byte>, place: nat, off: nat, size: nat, it: IntType, room: nat)
    requires it.width > 0 && off <= room && size + it.width <= room + 1
    requires place + room <= |m|
    ensures Readable(m, place, off, size, it)
    ensures |ReadItems(m, place, off, size, it)| * it.width <= room - off
    decreases size - off
  {
    if off < size {
      ReadItemsCount(m, place, off + it.width, size, it, room);
      ReadItemsStep(m, place, off, size, it);
      hide ReadItems, Readable, Unpack;
      MulStep(|ReadItems(m, place, off + it.width, size, it)|, it.width);
    }
  }

  lemma MulStep(k: nat, w: nat)
    ensures (k + 1) * w == k * w + w
  {
  }

  /** A wrapped length word makes the reading loop stop early. */
  lemma {:induction false} TooManyItems(m: seq<Byte>, place: nat, it: IntType, vals: seq<int>)
    requires 0 < it.width <= 8 && |PackAll(it, vals)| > 65535
    requires place + |PackAll(it, vals)| <= |m|
    ensures Readable(m, place, 0, |PackAll(it, vals)| % 65536, it)
    ensures |ReadItems(m, place, 0, |PackAll(it, vals)| % 65536, it)| < |vals|
  {
    PackAllLength(it, vals);
    var size := |PackAll(it, vals)| % 65536;
    assert size + 65536 <= |PackAll(it, vals)|;
    ReadItemsCount(m, place, 0, size, it, size + it.width - 1);
    var k := |ReadItems(m, place, 0, size, it)|;
    if k >= |vals| {
      MulMonotone(k, |vals|, it.width);
    }
  }

  lemma MulMonotone(a: nat, b: nat, w: nat)
    requires a >= b
    ensures a * w >= b * w
  {
    assert a * w == b * w + (a - b) * w;
  }

  /** create followed by get_value or get_array is the identity exactly when the byte count of the
      elements fits the 16-bit length word; otherwise fewer elements come back. */
  lemma {:induction false} ItemsRoundTrip(m: seq<Byte>, at: nat, typ: nat, it: IntType, vals: seq<int>)
    requires 0 < it.width <= 8 && forall i :: 0 <= i < |vals| ==> InRange(it, vals[i])
    requires typ < 65536 && at + TLV_HEADER_SIZE + |PackAll(it, vals)| <= |m|
    requires m[at..at + TLV_HEADER_SIZE + |PackAll(it, vals)|] == TlvBytes(typ, PackAll(it, vals))
    ensures Readable(m, at + TLV_HEADER_SIZE, 0, GetDataSize(m, at), it)
    ensures ReadItems(m, at + TLV_HEADER_SIZE, 0, GetDataSize(m, at), it) == vals
            <==> |vals| * it.width <= 65535
  {
    hide PackAll, BigEndian, ReadItems, Readable, GetDataSize, InRange;
    var data := PackAll(it, vals);
    WrittenHeader(m, at, typ, data);
    SplitSlice(m, at, BigEndian(2, typ) + BigEndian(2, |data|), data);
    PackAllLength(it, vals);
    if |data| <= 65535 {
      ItemsReadBack(m, at + TLV_HEADER_SIZE, 0, |data|, it, vals);
    } else {
      TooManyItems(m, at + TLV_HEADER_SIZE, it, vals);
    }
  }
}
