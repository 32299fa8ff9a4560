/** The order of timestamps (utils/logbuilder.h) and their shift by microseconds (utils/timestamp.cpp). */
module Timestamps {
  import opened LogPackages

  const ONE_SECOND_IN_MICROSECONDS: int := 1_000_000

  /** operator< on timespec. */
  predicate Less(a: Timespec, b: Timespec)
  {
    a.sec < b.sec || (a.sec == b.sec && a.nsec < b.nsec)
  }

  function Micros(ts: Timespec): int
  {
    ts.sec * ONE_SECOND_IN_MICROSECONDS + ts.nsec
  }

  predicate Normalised(ts: Timespec)
  {
    0 <= ts.nsec < ONE_SECOND_IN_MICROSECONDS
  }

  predicate IsInt64(x: int)
  {
    -0x8000_0000_0000_0000 <= x < 0x8000_0000_0000_0000
  }

  /** C++ division and remainder truncate toward zero. */
  function TruncDiv(a: int, b: int): int
    requires b > 0
  {
    if a >= 0 then a / b else -(-a / b)
  }

  function TruncMod(a: int, b: int): int
    requires b > 0
  {
    a - b * TruncDiv(a, b)
  }

  /** The normalised timestamp at a number of microseconds. */
  function FromMicros(t: int): (ts: Timespec)
    requires IsInt64(t / ONE_SECOND_IN_MICROSECONDS)
    ensures Normalised(ts) && Micros(ts) == t
  {
    Timespec(t / ONE_SECOND_IN_MICROSECONDS, t % ONE_SECOND_IN_MICROSECONDS)
  }

  /** What a shift means: nothing for 0, otherwise the normalised timestamp that many microseconds later. */
  function Adjust(ts: Timespec, delta: int): Timespec
    requires delta != 0 ==> IsInt64((Micros(ts) + delta) / ONE_SECOND_IN_MICROSECONDS)
  {
    if delta == 0 then ts else FromMicros(Micros(ts) + delta)
  }

  /** No step of the computation leaves int64_t. */
  predicate NoOverflow(ts: Timespec, delta: int)
  {
    var m := ONE_SECOND_IN_MICROSECONDS;
    && IsInt64(TruncMod(ts.sec, m) * m + ts.nsec)
    && IsInt64(TruncMod(ts.sec, m) * m + ts.nsec + delta)
    && IsInt64(TruncDiv(ts.sec, m) * m + TruncDiv(TruncMod(ts.sec, m) * m + ts.nsec + delta, m))
    && IsInt64((Micros(ts) + delta) / m)
  }

  /** Splitting the seconds keeps the product small for every number of seconds, far beyond the range in
      which seconds times a million fits. */
  lemma {:induction false} SplitAvoidsOverflow(ts: Timespec, delta: int)
    requires -0x4000_0000_0000_0000 <= ts.sec < 0x4000_0000_0000_0000
    requires -0x4000_0000_0000_0000 <= ts.nsec < 0x4000_0000_0000_0000
    requires -0x2000_0000_0000_0000 <= delta < 0x2000_0000_0000_0000
    ensures NoOverflow(ts, delta)
  {
    var m := ONE_SECOND_IN_MICROSECONDS;
    assert -m < TruncMod(ts.sec, m) < m;
    assert TruncDiv(ts.sec, m) * m == ts.sec - TruncMod(ts.sec, m);
  }

  method TimestampAdjust(ts: Timespec, delta: int) returns (r: Timespec, ghost corrections: nat)
    requires delta != 0 ==> NoOverflow(ts, delta)
    ensures r == Adjust(ts, delta)
    ensures corrections <= 1
  {
    r, corrections := ts, 0;
    if delta != 0 {
      var m := ONE_SECOND_IN_MICROSECONDS;
      var mcs := TruncMod(ts.sec, m) * m + ts.nsec + delta;
      var sec := TruncDiv(ts.sec, m) * m;
      var s := sec + TruncDiv(mcs, m);
      var part := TruncMod(mcs, m);
      while part < 0
        invariant -m < part < m && corrections <= 1 && (corrections == 1 ==> part >= 0)
        invariant s * m + part == Micros(ts) + delta
        decreases -part
      {
        part := part + m;
        s := s - 1;
        corrections := corrections + 1;
      }
      r := Timespec(s, part);
    }
  }

  /** The total changes by exactly the shift and the microseconds come out in range. */
  lemma AdjustShiftsExactly(ts: Timespec, delta: int)
    requires delta != 0 ==> IsInt64((Micros(ts) + delta) / ONE_SECOND_IN_MICROSECONDS)
    ensures var r := Adjust(ts, delta);
            && r.sec * 1_000_000 + r.nsec == ts.sec * 1_000_000 + ts.nsec + delta
            && (if delta == 0 then r == ts else 0 <= r.nsec <= 999_999)
  {
  }

  lemma OrderIsIntegerOrder(a: Timespec, b: Timespec)
    requires Normalised(a) && Normalised(b)
    ensures Less(a, b) <==> Micros(a) < Micros(b)
  {
  }

  /** A shift keeps and reflects the order. */
  lemma {:induction false} AdjustKeepsOrder(a: Timespec, b: Timespec, delta: int)
    requires Normalised(a) && Normalised(b)
    requires delta != 0 ==> IsInt64((Micros(a) + delta) / ONE_SECOND_IN_MICROSECONDS)
    requires delta != 0 ==> IsInt64((Micros(b) + delta) / ONE_SECOND_IN_MICROSECONDS)
    ensures Less(Adjust(a, delta), Adjust(b, delta)) <==> Less(a, b)
  {
    OrderIsIntegerOrder(a, b);
    OrderIsIntegerOrder(Adjust(a, delta), Adjust(b, delta));
  }

  lemma LessIsTotalOrder(a: Timespec, b: Timespec, c: Timespec)
    ensures !Less(a, a)
    ensures !Less(a, b) && !Less(b, c) ==> !Less(a, c)
    ensures !Less(a, b) && !Less(b, a) ==> a == b
  {
  }
}
