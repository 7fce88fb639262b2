/** 8-bit channel values and the integer arithmetic the renderer does on
    them: float-to-byte conversion and the root-mean-square `blend` macro as
    it is evaluated on byte operands and truncated back to an integer. */
module Bytes {

  newtype byte = b: int | 0 <= b < 256

  /** C's float-to-integer conversion: truncation toward zero. */
  function Trunc(v: real): int
  {
    if v >= 0.0 then v.Floor else -((-v).Floor)
  }

  /** `(uint8_t) v` for a float v: truncate toward zero, then keep the low
      eight bits. (C++ leaves out-of-range conversions undefined; this is
      the reading the model fixes for them.) */
  function ToByte(v: real): byte
  {
    (Trunc(v) % 256) as byte
  }

  /** Storing a channel c in [0, 1] as `(uint8_t) (c * 255)` yields
      floor(c * 255), which lies in [0, 255]: nothing wraps. */
  lemma ToByteUnit(c: real)
    requires 0.0 <= c <= 1.0
    ensures ToByte(c * 255.0) as int == (c * 255.0).Floor
    ensures 0 <= (c * 255.0).Floor <= 255
  {
  }

  /** Integer square root: the largest r with r * r <= n. */
  function Isqrt(n: nat): (r: nat)
    ensures r * r <= n < (r + 1) * (r + 1)
    decreases n
  {
    if n == 0 then 0
    else if n < 4 then 1
    else
      var t := Isqrt(n / 4);
      IsqrtStep(n, t);
      if (2 * t + 1) * (2 * t + 1) <= n then 2 * t + 1 else 2 * t
  }

  /** From the square root t of n / 4, 2t and 2t + 2 bracket that of n. */
  lemma IsqrtStep(n: nat, t: nat)
    requires t * t <= n / 4 < (t + 1) * (t + 1)
    ensures (2 * t) * (2 * t) <= n < (2 * t + 2) * (2 * t + 2)
  {
    var q := n / 4;
    assert 4 * q <= n < 4 * q + 4;
    Double(t);
    Double(t + 1);
  }

  lemma Double(t: int)
    ensures (2 * t) * (2 * t) == 4 * (t * t)
  {
  }

  /** The `blend(A, B)` macro, sqrt(0.5*A^2 + 0.5*B^2), on integer operands
      and assigned to an int: since r * r <= q holds for an integer r exactly
      when r * r <= floor(q), truncating the square root of (a^2 + b^2) / 2
      gives the integer square root of the integer quotient. */
  function Rms(a: nat, b: nat): (r: nat)
    ensures 2 * (r * r) <= a * a + b * b < 2 * ((r + 1) * (r + 1))
  {
    Isqrt((a * a + b * b) / 2)
  }

  /** `ablend(A, B)`, 0.5*A + 0.5*B, assigned to an int. */
  function Mean(a: nat, b: nat): nat
  {
    (a + b) / 2
  }

  lemma SquareMono(x: nat, y: nat)
    requires x <= y
    ensures x * x <= y * y
  {
    assert x * x <= x * y <= y * y;
  }

  /** Blending a value with itself gives it back. */
  lemma RmsSame(v: nat)
    ensures Rms(v, v) == v
  {
    var r := Rms(v, v);
    if r < v {
      SquareMono(r + 1, v);
    } else if r > v {
      SquareMono(v + 1, r);
    }
  }

  /** The blend lies between its operands. */
  lemma RmsBetween(a: nat, b: nat)
    ensures (if a <= b then a else b) <= Rms(a, b) <= (if a <= b then b else a)
  {
    if a <= b {
      RmsOrdered(a, b);
    } else {
      RmsSymmetric(a, b);
      RmsOrdered(b, a);
    }
  }

  lemma RmsOrdered(lo: nat, hi: nat)
    requires lo <= hi
    ensures lo <= Rms(lo, hi) <= hi
  {
    var r := Rms(lo, hi);
    SquareMono(lo, hi);
    if r > hi {
      SquareMono(hi + 1, r);
      SquareMono(hi, hi + 1);
      SquareGrows(hi);
    }
    if r < lo {
      SquareMono(r + 1, lo);
    }
  }

  lemma SquareGrows(x: nat)
    ensures x * x < (x + 1) * (x + 1)
  {
  }

  lemma RmsSymmetric(a: nat, b: nat)
    ensures Rms(a, b) == Rms(b, a)
  {
  }

  /** The mean lies between its operands. */
  lemma MeanBetween(a: nat, b: nat)
    ensures (if a <= b then a else b) <= Mean(a, b) <= (if a <= b then b else a)
  {
  }
}
