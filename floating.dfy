/** The narrowing conversions of section 5.1.3 of the Java Language
  * Specification, applied to IEEE 754 bit patterns: what (int) and (long)
  * do to a float or a double held by FloatTag and DoubleTag. Values stay
  * bit patterns; only this conversion looks inside them. */
module Floating {
  import opened JavaTypes

  /** The fields of an IEEE 754 pattern with fracBits fraction bits and
    * expBits exponent bits. */
  datatype Fields = Fields(negative: bool, exponent: nat, fraction: nat)

  function Split(bits: nat, expBits: nat, fracBits: nat): (f: Fields)
    ensures f.exponent < Pow2(expBits) && f.fraction < Pow2(fracBits)
  {
    Fields(bits / Pow2(fracBits + expBits) % 2 == 1,
           bits / Pow2(fracBits) % Pow2(expBits),
           bits % Pow2(fracBits))
  }

  predicate IsNaN(f: Fields, expBits: nat)
  {
    f.exponent == Pow2(expBits) - 1 && f.fraction != 0
  }

  /** The magnitude of a finite value rounded toward zero. */
  function TruncatedMagnitude(f: Fields, expBits: nat, fracBits: nat): nat
    requires expBits >= 1
  {
    var bias := Pow2(expBits - 1) - 1;
    if f.exponent == 0 then 0   // zero or subnormal: below one
    else
      var mantissa := Pow2(fracBits) + f.fraction;
      var shift := f.exponent - bias - fracBits;
      if shift >= 0 then mantissa * Pow2(shift) else mantissa / Pow2(-shift)
  }

  /** NaN becomes 0; an infinity or a value outside [lo, hi] becomes the
    * nearer bound; any other value is rounded toward zero. */
  function Narrow(bits: nat, expBits: nat, fracBits: nat, lo: int, hi: int): (r: int)
    requires expBits >= 1 && lo <= 0 <= hi
    ensures lo <= r <= hi
    ensures IsNaN(Split(bits, expBits, fracBits), expBits) ==> r == 0
    ensures var f := Split(bits, expBits, fracBits);
      f.exponent == Pow2(expBits) - 1 && f.fraction == 0 ==> r == if f.negative then lo else hi
  {
    var f := Split(bits, expBits, fracBits);
    if IsNaN(f, expBits) then 0
    else if f.exponent == Pow2(expBits) - 1 then (if f.negative then lo else hi)
    else
      var m: int := TruncatedMagnitude(f, expBits, fracBits);
      if f.negative then (if -m < lo then lo else -m)
      else (if m > hi then hi else m)
  }

  // ---------------------------------------------------------------------
  // The value a finite pattern denotes, read as a real number, and the
  // conversion stated against it.

  /** 2 raised to an integer power, as a real. */
  function RealPow2(e: int): (r: real)
    ensures r > 0.0
  {
    if e >= 0 then Pow2(e) as real else 1.0 / (Pow2(-e) as real)
  }

  /** The magnitude of a finite pattern: (1.fraction) * 2^(exponent - bias)
    * for a normal value and (0.fraction) * 2^(1 - bias) for a subnormal one. */
  function Magnitude(f: Fields, expBits: nat, fracBits: nat): (r: real)
    requires expBits >= 1
    ensures r >= 0.0
  {
    var bias := Pow2(expBits - 1) - 1;
    if f.exponent == 0 then (f.fraction as real) * RealPow2(1 - bias - fracBits)
    else ((Pow2(fracBits) + f.fraction) as real) * RealPow2(f.exponent - bias - fracBits)
  }

  /** The signed value of a finite pattern. */
  function RealValue(f: Fields, expBits: nat, fracBits: nat): real
    requires expBits >= 1
  {
    if f.negative then -Magnitude(f, expBits, fracBits) else Magnitude(f, expBits, fracBits)
  }

  lemma {:induction false} Pow2Monotone(a: nat, b: nat)
    requires a <= b
    ensures Pow2(a) <= Pow2(b)
    decreases b
  {
    if a < b {
      Pow2Monotone(a, b - 1);
    }
  }

  /** Integer division by a positive divisor is the floor of the real quotient. */
  lemma {:induction false} DivIsFloor(n: nat, p: nat)
    requires p >= 1
    ensures ((n / p) as real) <= (n as real) * (1.0 / (p as real)) < ((n / p) as real) + 1.0
  {
    var q, m := n / p, n % p;
    assert n == q * p + m && 0 <= m < p;
    var pr := p as real;
    assert (n as real) == (q as real) * pr + (m as real);
    calc {
      (n as real) * (1.0 / pr);
      ((q as real) * pr + (m as real)) * (1.0 / pr);
      (q as real) + (m as real) / pr;
    }
    assert 0.0 <= (m as real) / pr < 1.0;
  }

  /** A subnormal magnitude is below one when the exponent has two bits or more. */
  lemma {:induction false} SubnormalBelowOne(f: Fields, expBits: nat, fracBits: nat)
    requires expBits >= 2 && f.exponent == 0 && f.fraction < Pow2(fracBits)
    ensures Magnitude(f, expBits, fracBits) < 1.0
  {
    var bias := Pow2(expBits - 1) - 1;
    Pow2Monotone(1, expBits - 1);
    var p := Pow2(bias + fracBits - 1);
    Pow2Monotone(fracBits, bias + fracBits - 1);
    assert RealPow2(1 - bias - fracBits) == 1.0 / (p as real);
    assert f.fraction / p == 0;
    DivIsFloor(f.fraction, p);
  }

  /** For every exponent width of a real format (at least two bits), the
    * truncated magnitude is the floor of the magnitude. */
  lemma {:induction false} TruncatedIsFloor(f: Fields, expBits: nat, fracBits: nat)
    requires expBits >= 2 && f.fraction < Pow2(fracBits)
    ensures var m := TruncatedMagnitude(f, expBits, fracBits) as real;
      m <= Magnitude(f, expBits, fracBits) < m + 1.0
  {
    if f.exponent == 0 {
      SubnormalBelowOne(f, expBits, fracBits);
    } else if f.exponent - (Pow2(expBits - 1) - 1) - fracBits < 0 {
      NormalScaledDown(f, expBits, fracBits);
    } else {
      NormalScaledUp(f, expBits, fracBits);
    }
  }

  /** A normal value with fraction bits below the binary point. */
  lemma {:induction false} NormalScaledDown(f: Fields, expBits: nat, fracBits: nat)
    requires expBits >= 1 && f.exponent != 0 && f.exponent - (Pow2(expBits - 1) - 1) - fracBits < 0
    ensures var m := TruncatedMagnitude(f, expBits, fracBits) as real;
      m <= Magnitude(f, expBits, fracBits) < m + 1.0
  {
    var mantissa := Pow2(fracBits) + f.fraction;
    var shift := f.exponent - (Pow2(expBits - 1) - 1) - fracBits;
    var p := Pow2(-shift);
    assert Magnitude(f, expBits, fracBits) == (mantissa as real) * (1.0 / (p as real));
    assert TruncatedMagnitude(f, expBits, fracBits) == mantissa / p;
    DivIsFloor(mantissa, p);
  }

  /** A normal value that is a whole number. */
  lemma {:induction false} NormalScaledUp(f: Fields, expBits: nat, fracBits: nat)
    requires expBits >= 1 && f.exponent != 0 && f.exponent - (Pow2(expBits - 1) - 1) - fracBits >= 0
    ensures (TruncatedMagnitude(f, expBits, fracBits) as real) == Magnitude(f, expBits, fracBits)
  {
    var mantissa := Pow2(fracBits) + f.fraction;
    var p := Pow2(f.exponent - (Pow2(expBits - 1) - 1) - fracBits);
    assert Magnitude(f, expBits, fracBits) == (mantissa as real) * (p as real);
    assert TruncatedMagnitude(f, expBits, fracBits) == mantissa * p;
    ProductAsReal(mantissa, p);
  }

  lemma ProductAsReal(a: nat, b: nat)
    ensures ((a * b) as real) == (a as real) * (b as real)
  {
  }

  /** The conversion of a finite pattern with value v: inside [lo, hi] it
    * rounds toward zero, below lo it gives lo and above hi it gives hi. */
  lemma {:induction false} NarrowValue(bits: nat, expBits: nat, fracBits: nat, lo: int, hi: int)
    requires expBits >= 2 && lo <= 0 <= hi
    requires Split(bits, expBits, fracBits).exponent != Pow2(expBits) - 1
    ensures var v, r := RealValue(Split(bits, expBits, fracBits), expBits, fracBits), Narrow(bits, expBits, fracBits, lo, hi);
      (v < lo as real ==> r == lo) &&
      (v > hi as real ==> r == hi) &&
      (lo as real <= v <= hi as real && v >= 0.0 ==> r as real <= v < r as real + 1.0) &&
      (lo as real <= v <= hi as real && v < 0.0 ==> r as real - 1.0 < v <= r as real)
  {
    var f := Split(bits, expBits, fracBits);
    TruncatedIsFloor(f, expBits, fracBits);
  }

  /** (int) and (long) of a float (8 exponent and 23 fraction bits). */
  function FloatToInt(bits: Bits32): (r: Int32) { Narrow(bits, 8, 23, INT32_MIN, INT32_MAX) }
  function FloatToLong(bits: Bits32): (r: Int64) { Narrow(bits, 8, 23, INT64_MIN, INT64_MAX) }

  /** (int) and (long) of a double (11 exponent and 52 fraction bits). */
  function DoubleToInt(bits: Bits64): (r: Int32) { Narrow(bits, 11, 52, INT32_MIN, INT32_MAX) }
  function DoubleToLong(bits: Bits64): (r: Int64) { Narrow(bits, 11, 52, INT64_MIN, INT64_MAX) }

  /** Float.floatToIntBits and Double.doubleToLongBits, which writeFloat
    * and writeDouble use: every NaN becomes the one canonical NaN. */
  const CANONICAL_FLOAT_NAN: Bits32 := 0x7FC0_0000
  const CANONICAL_DOUBLE_NAN: Bits64 := 0x7FF8_0000_0000_0000

  /** The NaN test on the fields, written with the float and double field
    * widths spelled out as constants. */
  predicate FloatIsNaN(bits: Bits32)
  {
    bits / 0x80_0000 % 0x100 == 0xFF && bits % 0x80_0000 != 0
  }

  predicate DoubleIsNaN(bits: Bits64)
  {
    bits / 0x10_0000_0000_0000 % 0x800 == 0x7FF && bits % 0x10_0000_0000_0000 != 0
  }

  lemma {:induction false} Pow2Add(a: nat, b: nat)
    ensures Pow2(a + b) == Pow2(a) * Pow2(b)
  {
    if a > 0 {
      Pow2Add(a - 1, b);
    }
  }

  lemma {:induction false} FloatIsNaNFields(bits: Bits32)
    ensures FloatIsNaN(bits) <==> IsNaN(Split(bits, 8, 23), 8)
  {
    var f := Split(bits, 8, 23);
    assert Pow2(8) == 0x100;
    assert Pow2(23) == 0x80_0000;
    assert f.exponent == bits / 0x80_0000 % 0x100 && f.fraction == bits % 0x80_0000;
  }

  lemma {:induction false} DoubleIsNaNFields(bits: Bits64)
    ensures DoubleIsNaN(bits) <==> IsNaN(Split(bits, 11, 52), 11)
  {
    var f := Split(bits, 11, 52);
    assert Pow2(11) == 0x800;
    assert Pow2(52) == 0x10_0000_0000_0000 by {
      assert Pow2(26) == 0x400_0000;
      Pow2Add(26, 26);
    }
    assert f.exponent == bits / 0x10_0000_0000_0000 % 0x800 && f.fraction == bits % 0x10_0000_0000_0000;
  }

  function FloatToIntBits(bits: Bits32): (r: Bits32)
    ensures FloatIsNaN(bits) ==> r == CANONICAL_FLOAT_NAN && FloatIsNaN(r)
    ensures !FloatIsNaN(bits) ==> r == bits
  {
    if FloatIsNaN(bits) then CANONICAL_FLOAT_NAN else bits
  }

  function DoubleToLongBits(bits: Bits64): (r: Bits64)
    ensures DoubleIsNaN(bits) ==> r == CANONICAL_DOUBLE_NAN && DoubleIsNaN(r)
    ensures !DoubleIsNaN(bits) ==> r == bits
  {
    if DoubleIsNaN(bits) then CANONICAL_DOUBLE_NAN else bits
  }
}
