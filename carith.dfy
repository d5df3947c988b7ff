/** The C arithmetic the renderer relies on, written out over unbounded
    integers and exact reals: truncating division and remainder, the
    float-to-int cast, the byte cast and the six-bit mask. Dafny's own
    `/` and `%` on `int` are Euclidean and are used only where that is
    what C computes. */
module CArith {

  /** C's `(int)f` for a floating value `f`: truncation toward zero. */
  function Trunc(x: real): (r: int)
    ensures x >= 0.0 ==> 0 <= r && r as real <= x < r as real + 1.0
    ensures x < 0.0 ==> r <= 0 && r as real - 1.0 < x <= r as real
  {
    if x >= 0.0 then x.Floor else -((-x).Floor)
  }

  /** C's `a / 2` on an `int`: the quotient truncated toward zero. */
  function CHalf(a: int): (q: int)
    ensures a >= 0 ==> 0 <= 2 * q <= a < 2 * q + 2
    ensures a < 0 ==> 2 * q - 2 < a <= 2 * q <= 0
  {
    if a >= 0 then a / 2 else -((-a) / 2)
  }

  /** C's `a % 64` (`% TEXTURE_SIZE`) on an `int`: the remainder takes the
      sign of `a`. */
  function CRem64(a: int): (r: int)
    ensures a >= 0 ==> 0 <= r < 64
    ensures a < 0 ==> -64 < r <= 0
    ensures (a - r) % 64 == 0
  {
    if a >= 0 then a % 64 else -((-a) % 64)
  }

  /** Adding 64 to a negative C remainder yields the mathematical
      (Euclidean) remainder: the usual fix-up after `%` in C. */
  lemma {:induction false} CRem64Fixup(a: int)
    ensures (if CRem64(a) < 0 then CRem64(a) + 64 else CRem64(a)) == a % 64
  {
    var r := CRem64(a);
    var m := if r < 0 then r + 64 else r;
    assert (a - m) % 64 == 0 by {
      if r < 0 {
        assert a - m == (a - r) - 64;
      }
    }
  }

  /** C's `(Uint8)v` for an `int` value: conversion to an unsigned type
      keeps the value modulo 2^8. */
  function ToByte(v: int): (b: int)
    ensures 0 <= b < 256
    ensures (v - b) % 256 == 0
    ensures 0 <= v < 256 ==> b == v
  {
    v % 256
  }

  /** C's `v & 63` (that is, `& (TEXTURE_SIZE - 1)`) on a two's-complement
      `int`: it keeps the low six bits, which is the Euclidean remainder
      modulo 64 for negative values too. */
  function Low6(v: int): (r: int)
    ensures 0 <= r < 64
    ensures (v - r) % 64 == 0
    ensures 0 <= v < 64 ==> r == v
  {
    v % 64
  }
}
