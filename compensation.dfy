/** The integer compensation arithmetic of bmp180_calculate_temp and
    bmp180_calculate_pressure, evaluated with C's 32-bit `int` semantics: `/`
    truncates, `>>` is an arithmetic shift, `<<` multiplies, and any
    intermediate outside `int` (or a zero divisor) is undefined behaviour. */
module Compensation {
  import opened CArith
  import opened Words
  import opened Calibration

  /** B5 from raw temperature `ut`:
        X1 = ((UT - AC6) * AC5) >> 15,  X2 = (MC << 11) / (X1 + MD),  B5 = X1 + X2. */
  function B5(ut: int, c: Coefficients): (r: Eval<int>)
    ensures r.Defined? ==> Asr((ut - c.ac6) * c.ac5, 15) + c.md != 0
    ensures r.Defined? ==> var x1 := Asr((ut - c.ac6) * c.ac5, 15);
      r.value - x1 == CDiv(c.mc * 2048, x1 + c.md)
  {
    assert Pow2(11) == 2048;
    var diff :- Sub(ut, c.ac6);
    var product :- Mul(diff, c.ac5);
    var x1 := Asr(product, 15);
    var scaled :- Shl(c.mc, 11);
    var divisor :- Add(x1, c.md);
    var x2 :- Div(scaled, divisor);
    Add(x1, x2)
  }

  /** The temperature in tenths of a degree Celsius, `(B5 + 8) >> 4`: B5 / 16
      rounded to the nearest integer (halves upward). */
  function Temperature(ut: int, c: Coefficients): (t: Eval<int>)
    ensures t.Defined? <==> B5(ut, c).Defined? && IsInt32(B5(ut, c).value + 8)
    ensures t.Defined? ==> 16 * t.value - 8 <= B5(ut, c).value < 16 * t.value + 8
  {
    var b5 :- B5(ut, c);
    var rounded :- Add(b5, 8);
    Defined(Asr(rounded, 4))
  }

  /** The intermediates bmp180_calculate_pressure computes before it stops. */
  datatype PressureTerms = PressureTerms(b5: int, b6: int, x1: int, x2: int, x3: int, b3: int)

  /** bmp180_calculate_pressure up to B3. It repeats the B5 steps of the
      temperature computation with its own copy of the code; the contract says
      that copy computes B5, and that the steps after it start from B5. */
  function Pressure(ut: int, c: Coefficients): (r: Eval<PressureTerms>)
    ensures r == if B5(ut, c).Defined? then PressureAfterB5(B5(ut, c).value, c) else Undefined
    ensures r.Defined? ==> B5(ut, c) == Defined(r.value.b5)
    ensures r.Defined? ==> r.value.b6 == r.value.b5 - 4000 && IsInt32(r.value.b6 * r.value.b6)
  {
    var diff :- Sub(ut, c.ac6);
    var product :- Mul(diff, c.ac5);
    var t1 := Asr(product, 15);
    var scaled :- Shl(c.mc, 11);
    var divisor :- Add(t1, c.md);
    var t2 :- Div(scaled, divisor);
    var b5 :- Add(t1, t2);
    PressureAfterB5(b5, c)
  }

  /** The pressure steps from B5 on:
        B6 = B5 - 4000,  X1 = (B2 * (B6 * B6 >> 12)) >> 11,  X2 = (AC2 * B6) >> 11,
        X3 = X1 + X2,  B3 = (((AC1 * 4 + X3) << 3) + 2) / 4. */
  function PressureAfterB5(b5: int, c: Coefficients): (r: Eval<PressureTerms>)
    ensures r.Defined? ==> r.value.b5 == b5 && r.value.b6 == b5 - 4000 && IsInt32(r.value.b6 * r.value.b6)
  {
    var b6 :- Sub(b5, 4000);
    var square :- Mul(b6, b6);
    var weighted :- Mul(c.b2, Asr(square, 12));
    var x1 := Asr(weighted, 11);
    var linear :- Mul(c.ac2, b6);
    var x2 := Asr(linear, 11);
    var x3 :- Add(x1, x2);
    var base :- Mul(c.ac1, 4);
    var sum :- Add(base, x3);
    var shifted :- Shl(sum, 3);
    var b3 :- Add(shifted, 2);
    var quotient :- Div(b3, 4);
    Defined(PressureTerms(b5, b6, x1, x2, x3, quotient))
  }

  lemma {:induction false} MulBounds(a: int, b: int, aLo: int, aHi: int, bHi: int)
    requires aLo <= a <= aHi && 0 <= b <= bHi && aLo <= 0 <= aHi
    ensures aLo * bHi <= a * b <= aHi * bHi
  {
    if a >= 0 {
      assert a * b <= aHi * b <= aHi * bHi;
    } else {
      assert a * b >= a * bHi >= aLo * bHi;
    }
  }

  lemma {:induction false} MulGrows(a: int, b: int)
    requires a >= 1 && b >= 0
    ensures a * b >= b
  {
    assert a * b == b + (a - 1) * b;
  }

  lemma {:induction false} DivShrinks(x: int, d: int)
    requires x >= 0 && d >= 1
    ensures 0 <= x / d <= x
  {
    var q := x / d;
    assert x == d * q + x % d && 0 <= x % d;
    MulGrows(d, q);
  }

  lemma {:induction false} CDivShrinks(a: int, b: int)
    requires b != 0
    ensures (if a < 0 then -a else a) >= (var q := CDiv(a, b); if q < 0 then -q else q)
  {
    if a >= 0 && b > 0 { DivShrinks(a, b); }
    else if a >= 0 { DivShrinks(a, -b); }
    else if b > 0 { DivShrinks(-a, b); }
    else { DivShrinks(-a, -b); }
  }

  /** On a sensor, `(UT - AC6) * AC5` fits in `int` and X1 stays within 17 bits. */
  lemma {:induction false} X1OnSensor(ut: int, c: Coefficients)
    requires InRange(c) && c.ac5 <= 32768 && -1 <= ut <= 65535
    ensures IsInt32(ut - c.ac6) && IsInt32((ut - c.ac6) * c.ac5)
    ensures -65536 <= Asr((ut - c.ac6) * c.ac5, 15) <= 65535
  {
    assert IsUInt16(FieldAt(c, 4)) && IsUInt16(FieldAt(c, 5));
    MulBounds(ut - c.ac6, c.ac5, -65536, 65535, 32768);
    assert Pow2(15) == 32768;
    AsrBounds((ut - c.ac6) * c.ac5, 15, -65536, 65535);
  }

  /** On a sensor, `MC << 11` fits in `int`, and so does its truncated quotient
      by any non-zero divisor. */
  lemma {:induction false} X2OnSensor(c: Coefficients, divisor: int)
    requires InRange(c) && divisor != 0 && IsInt32(divisor)
    ensures Shl(c.mc, 11) == Defined(c.mc * 2048)
    ensures Div(c.mc * 2048, divisor) == Defined(CDiv(c.mc * 2048, divisor))
    ensures -67108864 <= CDiv(c.mc * 2048, divisor) <= 67108864
  {
    assert IsInt16(FieldAt(c, 9));
    assert Pow2(11) == 2048;
    CDivShrinks(c.mc * 2048, divisor);
  }

  /** For a sensor whose coefficients lie in their C types' ranges with
      AC5 <= 32768, and a raw temperature that is a 16-bit count or the error
      value -1, the temperature computation never overflows: it is undefined
      exactly when X1 + MD is zero. */
  lemma {:induction false} TemperatureDefinedOnSensor(ut: int, c: Coefficients)
    requires InRange(c) && c.ac5 <= 32768 && -1 <= ut <= 65535
    ensures Temperature(ut, c).Defined? <==> Asr((ut - c.ac6) * c.ac5, 15) + c.md != 0
  {
    X1OnSensor(ut, c);
    var x1 := Asr((ut - c.ac6) * c.ac5, 15);
    assert IsInt16(FieldAt(c, 10));
    if x1 + c.md != 0 {
      X2OnSensor(c, x1 + c.md);
      assert B5(ut, c) == Defined(x1 + CDiv(c.mc * 2048, x1 + c.md));
    }
  }

  /** Without the AC5 bound a 16-bit calibration set already overflows
      `(UT - AC6) * AC5`. */
  lemma TemperatureOverflowExample()
    ensures var c := Coefficients(0, 0, 0, 0, 65535, 0, 0, 0, 0, 0, 1);
      InRange(c) && Temperature(65535, c) == Undefined
  {
    var c := Coefficients(0, 0, 0, 0, 65535, 0, 0, 0, 0, 0, 1);
    assert !IsInt32(65535 * 65535);
  }

  lemma {:induction false} SquareBound(x: int)
    requires IsInt32(x * x)
    ensures -46341 < x < 46341
  {
  }

  lemma {:induction false} MulAbsBound(a: int, b: int, aMax: int, bMax: int)
    requires -aMax <= a <= aMax && -bMax <= b <= bMax
    ensures -aMax * bMax <= a * b <= aMax * bMax
  {
    if b >= 0 {
      MulBounds(a, b, -aMax, aMax, bMax);
    } else {
      MulBounds(a, -b, -aMax, aMax, bMax);
      assert a * -b == -(a * b);
    }
  }

  /** The products after B5 stay inside `int` when |B6| <= 46340 and
      |B2| <= 4096, and the two shifted terms are bounded. */
  lemma {:induction false} PressureTailOnSensor(c: Coefficients, b6: int)
    requires InRange(c) && -4096 <= c.b2 <= 4096 && -46340 <= b6 <= 46340
    ensures IsInt32(b6 * b6)
    ensures IsInt32(c.b2 * Asr(b6 * b6, 12))
    ensures -1048540 <= Asr(c.b2 * Asr(b6 * b6, 12), 11) <= 1048540
    ensures IsInt32(c.ac2 * b6) && -741441 <= Asr(c.ac2 * b6, 11) <= 741441
  {
    assert Pow2(12) == 4096 && Pow2(11) == 2048;
    MulAbsBound(b6, b6, 46340, 46340);
    AsrBounds(b6 * b6, 12, -524270, 524270);
    MulAbsBound(c.b2, Asr(b6 * b6, 12), 4096, 524270);
    AsrBounds(c.b2 * Asr(b6 * b6, 12), 11, -1048540, 1048540);
    assert IsInt16(FieldAt(c, 1));
    MulAbsBound(c.ac2, b6, 32768, 46340);
    AsrBounds(c.ac2 * b6, 11, -741441, 741441);
  }

  /** From a B5 with |B5 - 4000| <= 46340, the pressure steps are defined. */
  lemma {:induction false} PressureAfterB5Defined(b5: int, c: Coefficients)
    requires InRange(c) && -4096 <= c.b2 <= 4096 && -46340 <= b5 - 4000 <= 46340
    ensures PressureAfterB5(b5, c).Defined?
  {
    var b6 := b5 - 4000;
    PressureTailOnSensor(c, b6);
    assert IsInt16(FieldAt(c, 0));
    var sum := c.ac1 * 4 + (Asr(c.b2 * Asr(b6 * b6, 12), 11) + Asr(c.ac2 * b6, 11));
    assert Pow2(3) == 8;
    assert Shl(sum, 3) == Defined(sum * 8);
    CDivShrinks(sum * 8 + 2, 4);
  }

  /** On a sensor whose coefficients lie in their C types' ranges with
      AC5 <= 32768 and |B2| <= 4096, and a raw temperature that is a 16-bit
      count or -1, the pressure steps up to B3 are defined exactly when B5 is
      and |B6| = |B5 - 4000| <= 46340 (so that `B6 * B6` fits in `int`). */
  lemma {:induction false} PressureDefinedOnSensor(ut: int, c: Coefficients)
    requires InRange(c) && c.ac5 <= 32768 && -1 <= ut <= 65535 && -4096 <= c.b2 <= 4096
    ensures Pressure(ut, c).Defined? <==>
      B5(ut, c).Defined? && -46340 <= B5(ut, c).value - 4000 <= 46340
  {
    if Pressure(ut, c).Defined? {
      SquareBound(Pressure(ut, c).value.b6);
    }
    if B5(ut, c).Defined? && -46340 <= B5(ut, c).value - 4000 <= 46340 {
      PressureAfterB5Defined(B5(ut, c).value, c);
    }
  }

  /** Without a bound on B5 the square at B6 * B6 overflows, even where the
      temperature is defined. */
  lemma PressureOverflowExample()
    ensures var c := Coefficients(408, -72, -14383, 32741, 32757, 0, 6190, 4, -32768, -32768, 1);
      InRange(c) && Temperature(0, c).Defined? && Pressure(0, c) == Undefined
  {
    assert Pow2(15) == 32768 && Pow2(11) == 2048;
    assert !IsInt32((-67112864) * (-67112864));
  }

  /** Without the B2 bound, B2 * (B6 * B6 >> 12) overflows even though
      |B6| <= 46340. */
  lemma PressureB2OverflowExample()
    ensures var c := Coefficients(0, 0, 0, 0, 0, 0, 0, 32767, 0, 24, 1);
      InRange(c) && B5(0, c) == Defined(49152) && Pressure(0, c) == Undefined
  {
    assert Pow2(15) == 32768 && Pow2(11) == 2048 && Pow2(12) == 4096;
    assert !IsInt32(32767 * 497730);
  }

  /** Pressure needs the temperature stage: whenever the pressure intermediates
      are defined, so is the compensated temperature of the same raw count. */
  lemma {:induction false} PressureImpliesTemperature(ut: int, c: Coefficients)
    ensures Pressure(ut, c).Defined? ==> Temperature(ut, c).Defined?
  {
    if Pressure(ut, c).Defined? {
      SquareBound(Pressure(ut, c).value.b6);
    }
  }

  /** B3 as the code computes it, with `v = AC1 * 4 + X3`: the truncating
      division of `8v + 2` by 4 is `2v` for `v >= 0` but `2v + 1` for `v < 0`. */
  lemma {:induction false} B3ClosedForm(ut: int, c: Coefficients)
    requires Pressure(ut, c).Defined?
    ensures var p := Pressure(ut, c).value; var v := c.ac1 * 4 + p.x3;
      p.b3 == if v >= 0 then 2 * v else 2 * v + 1
  {
    var p := Pressure(ut, c).value;
    var v := c.ac1 * 4 + p.x3;
    assert Pow2(3) == 8;
    var n := v * 8 + 2;
    assert p.b3 == CDiv(n, 4);
    if v < 0 {
      assert CDiv(n, 4) == -((-n) / 4);
      assert -n == 4 * (-2 * v - 1) + 2;
    } else {
      assert n == 4 * (2 * v) + 2;
    }
  }

  /** Written with a flooring shift, `((v << 3) + 2) >> 2`, B3 would differ
      from the code's truncating `/ 4` exactly when `v < 0`. */
  lemma {:induction false} B3AgainstFloorShift(ut: int, c: Coefficients)
    requires Pressure(ut, c).Defined?
    ensures var p := Pressure(ut, c).value; var v := c.ac1 * 4 + p.x3;
      p.b3 == Asr(v * 8 + 2, 2) <==> v >= 0
  {
    B3ClosedForm(ut, c);
    var v := c.ac1 * 4 + Pressure(ut, c).value.x3;
    assert Pow2(2) == 4;
    assert v * 8 + 2 == 4 * (2 * v) + 2;
  }

  /** The datasheet's worked example (UT = 27898 on the sample device): 15.0 degC.
      With C's truncating division X2 is -2343 (the datasheet rounds to -2344),
      so B5 is 2400 and B3, computed with the shift by 3, is 3378. */
  lemma DatasheetExample()
    ensures var c := Coefficients(408, -72, -14383, 32741, 32757, 23153, 6190, 4, -32768, -8711, 2868);
      B5(27898, c) == Defined(2400) && Temperature(27898, c) == Defined(150) &&
      Pressure(27898, c) == Defined(PressureTerms(2400, -1600, 1, 56, 57, 3378))
  {
    assert Pow2(15) == 32768 && Pow2(11) == 2048 && Pow2(12) == 4096;
  }

  /** The -1 that a failed raw read returns is not checked before the formula:
      on the sample device it becomes -139.2 degC. */
  lemma FailedReadBecomesTemperature()
    ensures var c := Coefficients(408, -72, -14383, 32741, 32757, 23153, 6190, 4, -32768, -8711, 2868);
      Temperature(-1, c) == Defined(-1392)
  {
    assert Pow2(15) == 32768 && Pow2(11) == 2048;
  }
}
