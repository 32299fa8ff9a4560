/** Bytes and the big-endian integers of every width and sign that the wire format carries. */
module Bytes {

  type Byte = b: int | 0 <= b < 256

  function Pow256(w: nat): (p: int)
    ensures p > 0
    ensures w > 0 ==> p % 256 == 0
  {
    if w == 0 then 1 else 256 * Pow256(w - 1)
  }

  /** The `w` low-order bytes of `n`, most significant first; two's complement when `n` is negative. */
  function BigEndian(w: nat, n: int): (bs: seq<Byte>)
    ensures |bs| == w
  {
    if w == 0 then [] else BigEndian(w - 1, n / 256) + [n % 256]
  }

  function FromBigEndian(bs: seq<Byte>): (n: nat)
    ensures n < Pow256(|bs|)
  {
    if bs == [] then 0 else 256 * FromBigEndian(bs[..|bs| - 1]) + bs[|bs| - 1]
  }

  lemma {:induction false} BigEndianRoundTrip(w: nat, n: int)
    ensures 0 <= n < Pow256(w) ==> FromBigEndian(BigEndian(w, n)) == n
    ensures -Pow256(w) <= n < 0 ==> FromBigEndian(BigEndian(w, n)) == n + Pow256(w)
  {
    if w > 0 {
      BigEndianRoundTrip(w - 1, n / 256);
      assert BigEndian(w, n)[..w - 1] == BigEndian(w - 1, n / 256);
    }
  }

  /** Bits above the low `w` bytes do not show. */
  lemma {:induction false} BigEndianShift(w: nat, n: int)
    ensures BigEndian(w, n - Pow256(w)) == BigEndian(w, n)
  {
    if w > 0 {
      BigEndianShift(w - 1, n / 256);
      assert (n - Pow256(w)) / 256 == n / 256 - Pow256(w - 1);
    }
  }

  lemma {:induction false} FromBigEndianRoundTrip(bs: seq<Byte>)
    ensures BigEndian(|bs|, FromBigEndian(bs)) == bs
  {
    if bs != [] {
      FromBigEndianRoundTrip(bs[..|bs| - 1]);
      assert FromBigEndian(bs) / 256 == FromBigEndian(bs[..|bs| - 1]);
    }
  }

  function U16(bs: seq<Byte>): (n: nat)
    requires |bs| == 2
    ensures n < 65536
  {
    assert Pow256(2) == 256 * Pow256(1) && Pow256(1) == 256 * Pow256(0);
    FromBigEndian(bs)
  }

  lemma {:induction false} U16RoundTrip(n: nat)
    requires n < 65536
    ensures U16(BigEndian(2, n)) == n
  {
    assert Pow256(2) == 256 * Pow256(1) && Pow256(1) == 256 * Pow256(0);
    BigEndianRoundTrip(2, n);
  }

  lemma {:induction false} TwoBytes(n: nat)
    requires n < 65536
    ensures BigEndian(2, n) == [n / 256, n % 256]
  {
    assert BigEndian(1, n / 256) == [n / 256];
  }

  lemma {:induction false} U16OfBytes(bs: seq<Byte>)
    requires |bs| == 2
    ensures var high: int, low: int := bs[0], bs[1]; U16(bs) == 256 * high + low
  {
    assert bs[..1] == [bs[0]] && FromBigEndian(bs[..1]) == bs[0] by {
      assert bs[..1][..0] == [];
    }
  }

  // ----- signed and unsigned integers ---------------------------------------

  /** An integral C++ type: its size in bytes and whether it is signed. */
  datatype IntType = IntType(width: nat, signed: bool)

  const UINT8 := IntType(1, false)
  const INT8 := IntType(1, true)
  const INT64 := IntType(8, true)

  ghost predicate InRange(it: IntType, x: int)
  {
    if it.signed then -Pow256(it.width) <= 2 * x < Pow256(it.width)
    else 0 <= x < Pow256(it.width)
  }

  function Pack(it: IntType, x: int): (bs: seq<Byte>)
    ensures |bs| == it.width
  {
    BigEndian(it.width, x)
  }

  function Unpack(it: IntType, bs: seq<Byte>): int
    requires |bs| == it.width
  {
    var n := FromBigEndian(bs);
    if it.signed && 2 * n >= Pow256(it.width) then n - Pow256(it.width) else n
  }

  lemma PackRoundTrip(it: IntType, x: int)
    requires InRange(it, x)
    ensures Unpack(it, Pack(it, x)) == x
  {
    BigEndianRoundTrip(it.width, x);
  }

  lemma UnpackRoundTrip(it: IntType, bs: seq<Byte>)
    requires |bs| == it.width
    ensures InRange(it, Unpack(it, bs))
    ensures Pack(it, Unpack(it, bs)) == bs
  {
    FromBigEndianRoundTrip(bs);
    BigEndianShift(it.width, FromBigEndian(bs));
  }
}
