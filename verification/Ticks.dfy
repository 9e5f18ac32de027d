/**
 The wrapping tick counter (replicon_tick.rs).

 The order is that of section 3.2 of RFC 1982 with SERIAL_BITS = 32, except that two ticks at distance exactly 2^31,
 which the RFC leaves undefined, are each less than the other.
 */
module Ticks {
  import opened Domain
  import opened Wire

  datatype Ordering = Less | Equal | Greater

  function Difference(a: U32, b: U32): U32 {
    (a - b) % 0x1_0000_0000
  }

  function Compare(a: U32, b: U32): Ordering {
    var difference := Difference(a, b);
    if difference == 0 then Equal else if difference > 0xFFFF_FFFF / 2 then Less else Greater
  }

  predicate After(a: U32, b: U32) {
    Compare(a, b) == Greater
  }

  function OrderOf(x: int, y: int): Ordering {
    if x < y then Less else if x == y then Equal else Greater
  }

  /** Ticks close enough together for their order to survive the wrapping. */
  predicate Near(x: int, y: int) {
    -0x8000_0000 <= x - y < 0x8000_0000
  }

  lemma DifferenceIs(x: int, y: int)
    ensures Difference(WireTick(x), WireTick(y)) == (x - y) % 0x1_0000_0000
  {
    assert (WireTick(x) - WireTick(y) - (x - y)) % 0x1_0000_0000 == 0;
  }

  /** The order of wrapped ticks is the order of the ticks exactly on the half-open window of 2^32. */
  lemma CompareIff(x: int, y: int)
    requires -0x1_0000_0000 < x - y < 0x1_0000_0000
    ensures Compare(WireTick(x), WireTick(y)) == OrderOf(x, y) <==> Near(x, y)
  {
    DifferenceIs(x, y);
  }

  /** The comparisons that the receiver makes between ticks as they were sent. */
  predicate Newer(a: int, b: int) {
    Compare(WireTick(a), WireTick(b)) == Greater
  }

  predicate Older(a: int, b: int) {
    Compare(WireTick(a), WireTick(b)) == Less
  }

  /** On ticks that are near each other, they say what the unbounded ticks say. */
  lemma NearIsEnough(x: int, y: int)
    requires Near(x, y)
    ensures Newer(WireTick(x), WireTick(y)) <==> x > y
    ensures Older(WireTick(x), WireTick(y)) <==> x < y
  {
    hide WireTick, Compare, Near;
    CompareIff(x, y) by { NearIsNear(x, y); }
    WireTwice(x);
    WireTwice(y);
  }

  lemma NearIsNear(x: int, y: int)
    requires Near(x, y)
    ensures -0x1_0000_0000 < x - y < 0x1_0000_0000
  {
  }

  lemma WireTwice(x: int)
    ensures WireTick(WireTick(x)) == WireTick(x)
  {
  }

  /** Two ticks are ordered both ways exactly at distance 2^31; otherwise the order is antisymmetric. */
  lemma AntisymmetricIff(a: U32, b: U32)
    ensures Compare(a, b) == Less && Compare(b, a) == Less <==> Difference(a, b) == 0x8000_0000
    ensures Difference(a, b) != 0x8000_0000 ==> (Compare(a, b) == Less <==> Compare(b, a) == Greater)
  {
  }

  lemma WrapPeriod(x: int, k: int)
    ensures WireTick(x + k * 0x1_0000_0000) == WireTick(x)
  {
  }

  /** Addition and subtraction commute with the wrapping. */
  lemma ArithmeticWraps(x: int, n: U32)
    ensures WireTick(WireTick(x) + n) == WireTick(x + n)
    ensures WireTick(WireTick(x) - n) == WireTick(x - n)
  {
    var k := x / 0x1_0000_0000;
    assert x == k * 0x1_0000_0000 + WireTick(x);
    WrapPeriod(x + n, -k);
    WrapPeriod(x - n, -k);
  }

  class RepliconTick {
    var value: U32

    constructor (value: U32)
      ensures this.value == value
    {
      this.value := value;
    }

    method AddAssign(n: U32, ghost x: int)
      requires value == WireTick(x)
      modifies this
      ensures value == WireTick(x + n)
    {
      ArithmeticWraps(x, n);
      value := (value + n) % 0x1_0000_0000;
    }

    method SubAssign(n: U32, ghost x: int)
      requires value == WireTick(x)
      modifies this
      ensures value == WireTick(x - n)
    {
      ArithmeticWraps(x, n);
      value := (value - n) % 0x1_0000_0000;
    }
  }
}
