/** Fixed-width integer types of the .NET runtime, and the unchecked
    conversions the profile compiler relies on. */
module Numeric {

  type uint8 = x: int | 0 <= x < 0x100
  type uint16 = x: int | 0 <= x < 0x1_0000
  type uint32 = x: int | 0 <= x < 0x1_0000_0000
  type int32 = x: int | -0x8000_0000 <= x < 0x8000_0000
  type int64 = x: int | -0x8000_0000_0000_0000 <= x < 0x8000_0000_0000_0000

  const TwoTo32: int := 0x1_0000_0000

  /** The unchecked conversion of any integer to a 32-bit signed `int`
      (C#'s `(int)x` on a `long`, and the wrap-around of `+=` on `int`):
      the unique int32 congruent to `x` modulo 2^32. */
  function Wrap32(x: int): (r: int32)
    ensures -0x8000_0000 <= x < 0x8000_0000 ==> r == x
  {
    (x + 0x8000_0000) % 0x1_0000_0000 - 0x8000_0000
  }

  /** The wrapped value differs from `x` by a multiple of 2^32. */
  lemma Wrap32Congruent(x: int)
    ensures (Wrap32(x) - x) % 0x1_0000_0000 == 0
  {
    var k := (x + 0x8000_0000) / 0x1_0000_0000;
    assert Wrap32(x) - x == -k * 0x1_0000_0000;
  }

  /** Wrapping each partial sum gives the wrapped total: accumulating
      into an `int` with unchecked `+=` yields the wrapped sum. */
  lemma Wrap32Add(x: int, y: int)
    ensures Wrap32(Wrap32(x) + y) == Wrap32(x + y)
  {
    var k := (x + 0x8000_0000) / 0x1_0000_0000;
    assert Wrap32(x) == x - k * 0x1_0000_0000;
    ModShift(x + y + 0x8000_0000, -k);
  }

  lemma ModShift(a: int, k: int)
    ensures (a + k * 0x1_0000_0000) % 0x1_0000_0000 == a % 0x1_0000_0000
  {
    var q := a / 0x1_0000_0000;
    var m := a % 0x1_0000_0000;
    assert a + k * 0x1_0000_0000 == (q + k) * 0x1_0000_0000 + m;
  }

  /** Bitwise OR of two 32-bit unsigned values (C#'s `|` on `uint`). */
  function Or32(x: uint32, y: uint32): uint32
  {
    ((x as bv32) | (y as bv32)) as int
  }

  lemma MulNonNeg(a: nat, b: nat)
    ensures 0 <= a * b
  {
  }

  lemma MulMono(a: nat, b: nat, c: nat)
    requires a <= b
    ensures a * c <= b * c
  {
  }

  /** The quotient and remainder of `j * t + k`, for `k < t`. */
  lemma DivModUnique(i: nat, t: nat, j: nat, k: nat)
    requires 0 < t && k < t && i == j * t + k
    ensures i / t == j && i % t == k
  {
    var q, r := i / t, i % t;
    assert i == q * t + r;
    assert (j + 1) * t == j * t + t;
    assert (q + 1) * t == q * t + t;
    if q > j {
      MulMono(j + 1, q, t);
    } else if q < j {
      MulMono(q + 1, j, t);
    }
  }
}
