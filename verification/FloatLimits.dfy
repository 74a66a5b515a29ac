/**
  The largest and smallest values of a floating-point type in vllm/scalar_type.py.  The code builds
  the bits of an IEEE 754 double; here the result is compared with every finite encoding of the type
  itself, read as section 3.4 of IEEE 754-2019 reads the fields.
*/
module FloatLimits {
  import opened Bits
  import opened ScalarTypes

  // ----- Powers of two with any exponent -----

  function TwoTo(k: int): (x: real)
    ensures x > 0.0
    decreases if k < 0 then -k else k
  {
    if k == 0 then 1.0 else if k > 0 then 2.0 * TwoTo(k - 1) else TwoTo(k + 1) / 2.0
  }

  lemma {:induction false} TwoToPlus(k: int, n: nat)
    ensures TwoTo(k + n) == TwoTo(k) * Pow2(n) as real
    decreases n
  {
    if n > 0 {
      TwoToPlus(k, n - 1);
      assert TwoTo(k + n) == 2.0 * TwoTo(k + n - 1);
    }
  }

  // ----- The encodings of a format -----

  function Bias(e: nat): nat
    requires e > 0
  {
    Pow2(e - 1) - 1
  }

  function Scale(a: nat, x: real): real {
    a as real * x
  }

  /** The value of exponent field E and mantissa field M, with e and m bits. */
  function Value(e: nat, m: nat, E: nat, M: nat): real
    requires e > 0
  {
    if E == 0 then Scale(M, TwoTo(1 - Bias(e) - m))
    else Scale(Pow2(m) + M, TwoTo(E - Bias(e) - m))
  }

  /** The encoding is a finite number under the format's NaN convention. */
  predicate Finite(nan: NanRepr, e: nat, m: nat, E: nat, M: nat) {
    && E < Pow2(e) && M < Pow2(m)
    && match nan
       case NoNan => true
       case Ieee754 => E != Pow2(e) - 1
       case ExtdRangeMaxMin => !(E == Pow2(e) - 1 && M == Pow2(m) - 1)
  }

  ghost predicate IsLargest(nan: NanRepr, e: nat, m: nat, v: real)
    requires e > 0
  {
    && (forall E: nat, M: nat | Finite(nan, e, m, E, M) :: Value(e, m, E, M) <= v)
    && (exists E: nat, M: nat :: Finite(nan, e, m, E, M) && Value(e, m, E, M) == v)
  }

  /** The value in units of the smallest subnormal. */
  function Magnitude(m: nat, E: nat, M: nat): nat {
    if E == 0 then M else Mul(Pow2(m) + M, Pow2(E - 1))
  }

  function Mul(a: nat, b: nat): nat {
    a * b
  }

  lemma {:induction false} MulMonotone(a: nat, b: nat, c: nat, d: nat)
    requires a <= b && c <= d
    ensures Mul(a, c) <= Mul(b, d)
  {
    assert a * c <= b * c <= b * d;
  }

  lemma {:induction false} MulDouble(a: nat, b: nat)
    ensures Mul(2 * a, b) == Mul(a, 2 * b)
  {
  }

  lemma {:induction false} ScaleMul(a: nat, b: nat, x: real)
    ensures Scale(a, x * b as real) == Scale(Mul(a, b), x)
  {
    assert Mul(a, b) as real == a as real * b as real;
  }

  lemma {:induction false} ValueIsMagnitude(e: nat, m: nat, E: nat, M: nat)
    requires e > 0
    ensures Value(e, m, E, M) == Scale(Magnitude(m, E, M), TwoTo(1 - Bias(e) - m))
  {
    if E > 0 {
      TwoToPlus(1 - Bias(e) - m, E - 1);
      ScaleMul(Pow2(m) + M, Pow2(E - 1), TwoTo(1 - Bias(e) - m));
    }
  }

  /** A larger exponent beats any mantissa. */
  lemma {:induction false} ExponentDominates(m: nat, E: nat, M: nat, E': nat, M': nat)
    requires E < E' && M < Pow2(m)
    ensures Magnitude(m, E, M) <= Magnitude(m, E', M')
  {
    if E == 0 {
      MulMonotone(Pow2(m), Pow2(m) + M', 1, Pow2(E' - 1));
    } else {
      MulMonotone(Pow2(m) + M, 2 * Pow2(m), Pow2(E - 1), Pow2(E - 1));
      MulDouble(Pow2(m), Pow2(E - 1));
      Pow2Monotone(E, E' - 1);
      MulMonotone(Pow2(m), Pow2(m) + M', Pow2(E), Pow2(E' - 1));
    }
  }

  lemma {:induction false} LargerMagnitude(m: nat, E: nat, M: nat, E': nat, M': nat)
    requires M < Pow2(m) && (E < E' || (E == E' && M <= M'))
    ensures Magnitude(m, E, M) <= Magnitude(m, E', M')
  {
    if E < E' {
      ExponentDominates(m, E, M, E', M');
    } else if E > 0 {
      MulMonotone(Pow2(m) + M, Pow2(m) + M', Pow2(E - 1), Pow2(E - 1));
    }
  }

  lemma {:induction false} Larger(e: nat, m: nat, E: nat, M: nat, E': nat, M': nat)
    requires e > 0 && M < Pow2(m) && (E < E' || (E == E' && M <= M'))
    ensures Value(e, m, E, M) <= Value(e, m, E', M')
  {
    LargerMagnitude(m, E, M, E', M');
    ValueIsMagnitude(e, m, E, M);
    ValueIsMagnitude(e, m, E', M');
    ScaleMonotone(Magnitude(m, E, M), Magnitude(m, E', M'), TwoTo(1 - Bias(e) - m));
  }

  lemma {:induction false} ScaleMonotone(a: nat, b: nat, x: real)
    requires a <= b && x > 0.0
    ensures Scale(a, x) <= Scale(b, x)
  {
  }

  /** The largest finite encoding: the top exponent that is left, with the top mantissa that is left. */
  function TopExponent(nan: NanRepr, e: nat): int {
    if nan.Ieee754? then Pow2(e) - 2 else Pow2(e) - 1
  }

  function TopMantissa(nan: NanRepr, m: nat): int {
    if nan.ExtdRangeMaxMin? then Pow2(m) - 2 else Pow2(m) - 1
  }

  lemma {:induction false} TopIsLargest(nan: NanRepr, e: nat, m: nat)
    requires e > 0 && (nan.ExtdRangeMaxMin? ==> m > 0)
    ensures TopExponent(nan, e) >= 0 && TopMantissa(nan, m) >= 0
    ensures IsLargest(nan, e, m, Value(e, m, TopExponent(nan, e), TopMantissa(nan, m)))
  {
    var E', M' := TopExponent(nan, e), TopMantissa(nan, m);
    assert Pow2(e) >= 2;
    assert m > 0 ==> Pow2(m) >= 2;
    assert Finite(nan, e, m, E', M');
    forall E: nat, M: nat | Finite(nan, e, m, E, M) ensures Value(e, m, E, M) <= Value(e, m, E', M') {
      Larger(e, m, E, M, E', M');
    }
  }

  // ----- Doubles -----

  /** The fields of a double: mantissa, exponent, sign. */
  function DoubleFields(M: int, E: int, sign: int): seq<Field> {
    [(M, 52), (E, 11), (sign, 1)]
  }

  /** struct.unpack of the bits of a finite double. */
  function DoubleOf(raw: int): real {
    var magnitude := Value(11, 52, Extract(raw, 52, 11), Extract(raw, 0, 52));
    if Extract(raw, 63, 1) == 1 then -magnitude else magnitude
  }

  lemma {:induction false} FieldOffsets(M: int, E: int, sign: int)
    ensures var fs := DoubleFields(M, E, sign);
            Width(fs[..0]) == 0 && Width(fs[..1]) == 52 && Width(fs[..2]) == 63 && Width(fs) == 64
  {
    var fs := DoubleFields(M, E, sign);
    assert forall i | 0 <= i < 3 :: fs[..i + 1][..i] == fs[..i];
    assert fs[..3] == fs;
  }

  lemma {:induction false} MaskedInRange(f: Field)
    requires 0 <= f.0 < Pow2(f.1)
    ensures Masked(f) == f.0
  {
    AndMask(f.0, f.1);
    DivModUnique(f.0, Pow2(f.1), 0, f.0);
  }

  ghost predicate FieldsFit(fs: seq<Field>) {
    forall i | 0 <= i < |fs| :: 0 <= fs[i].0 < Pow2(fs[i].1)
  }

  lemma {:induction false} FieldBack(fs: seq<Field>, i: nat)
    requires FieldsFit(fs) && i < |fs|
    ensures Extract(Pack(fs), Width(fs[..i]), fs[i].1) == fs[i].0
  {
    ExtractPack(fs, i);
    MaskedInRange(fs[i]);
  }

  /** The bits of a double give its fields back. */
  lemma {:induction false} DoubleOfFields(M: nat, E: nat, sign: nat)
    requires FieldsFit(DoubleFields(M, E, sign))
    ensures var raw := Pack(DoubleFields(M, E, sign));
            DoubleOf(raw) == if sign == 1 then -Value(11, 52, E, M) else Value(11, 52, E, M)
  {
    var fs := DoubleFields(M, E, sign);
    FieldOffsets(M, E, sign);
    FieldBack(fs, 0);
    FieldBack(fs, 1);
    FieldBack(fs, 2);
  }

  /** Packing the three fields is two bitwise ors. */
  lemma {:induction false} PackThree(fs: seq<Field>)
    requires |fs| == 3 && FieldsFit(fs)
    ensures Pack(fs) == Or(Or(fs[0].0, Shl(fs[1].0, fs[0].1)), Shl(fs[2].0, fs[0].1 + fs[1].1))
  {
    MaskedInRange(fs[0]);
    MaskedInRange(fs[1]);
    MaskedInRange(fs[2]);
    var one, two := fs[..1], fs[..2];
    assert fs[..2][..1] == one && one[..0] == [];
    assert Width([]) == 0 && Width(one) == fs[0].1 && Width(two) == fs[0].1 + fs[1].1;
    assert Pack(one) == Or(0, Shl(fs[0].0, 0));
    OrZero(Shl(fs[0].0, 0));
  }

  // ----- The code -----

  datatype Raw = Bits(raw: int) | AssertionFails | StructError

  function MaxExponentDouble(nan: NanRepr, e: nat): int
    requires 0 < e
  {
    TopExponent(nan, e) - Bias(e) + 1023
  }

  lemma {:induction false} BiasBelow(e: nat)
    requires 0 < e <= 11
    ensures Bias(e) <= 1023
  {
    Pow2Monotone(e - 1, 10);
    assert Pow2(10) == 1024;
  }

  /** _floating_point_max_int, then the packing of _floating_point_max into 64 unsigned bits. */
  function FloatingPointMax(t: ScalarType): Raw
    requires t.exponent > 0 && t.mantissa >= 0
  {
    if t.mantissa > 52 || t.exponent > 11 then AssertionFails
    else if !t.nanRepr.Ieee754? && t.exponent >= 11 then AssertionFails
    else
      BiasBelow(t.exponent);
      var maxMantissa := TopMantissa(t.nanRepr, t.mantissa);
      var raw := Or(Shl(maxMantissa, 52 - t.mantissa), Shl(MaxExponentDouble(t.nanRepr, t.exponent), 52));
      if raw < 0 then StructError else Bits(raw)
  }

  /** _raw_min: the same bits with the sign bit set. */
  function FloatingPointMin(t: ScalarType): Raw
    requires t.exponent > 0 && t.mantissa >= 0
  {
    if !t.signed then AssertionFails
    else match FloatingPointMax(t)
         case Bits(raw) => Bits(Or(raw, Shl(1, 63)))
         case other => other
  }

  ghost predicate Representable(t: ScalarType) {
    && 0 < t.exponent <= 11 && 0 <= t.mantissa <= 52
    && (t.nanRepr.Ieee754? || t.exponent < 11)
  }

  /** The mantissa and exponent the code puts into the double. */
  ghost function CodeMantissa(t: ScalarType): int
    requires Representable(t)
  {
    Shl(TopMantissa(t.nanRepr, t.mantissa), 52 - t.mantissa)
  }

  lemma {:induction false} ExponentFits(t: ScalarType)
    requires Representable(t)
    ensures 0 < MaxExponentDouble(t.nanRepr, t.exponent) < 2047
  {
    var e := t.exponent;
    BiasBelow(e);
    assert Pow2(e) == 2 * Pow2(e - 1);
    if e == 11 {
      assert Pow2(11) == 2048;
    } else {
      Pow2Monotone(e - 1, 9);
      assert Pow2(9) == 512;
    }
  }

  lemma {:induction false} MantissaFits(t: ScalarType)
    requires Representable(t) && TopMantissa(t.nanRepr, t.mantissa) >= 0
    ensures 0 <= CodeMantissa(t) < Pow2(52)
  {
    var m, M := t.mantissa, TopMantissa(t.nanRepr, t.mantissa);
    Pow2Add(m, 52 - m);
    SumFits(0, Pow2(52 - m), M, Pow2(m));
  }

  lemma {:induction false} PackedDouble(M: int, E: int, sign: int)
    requires 0 <= M < Pow2(52) && 0 <= E < 2048 && 0 <= sign < 2
    ensures FieldsFit(DoubleFields(M, E, sign))
    ensures Or(Or(M, Shl(E, 52)), Shl(sign, 63)) == Pack(DoubleFields(M, E, sign)) >= 0
  {
    assert Pow2(11) == 2048 && Pow2(1) == 2;
    PackThree(DoubleFields(M, E, sign));
    PackFits(DoubleFields(M, E, sign));
  }

  lemma {:induction false} PackedPositive(M: int, E: int)
    requires 0 <= M < Pow2(52) && 0 <= E < 2048
    ensures Or(M, Shl(E, 52)) == Pack(DoubleFields(M, E, 0))
  {
    PackedDouble(M, E, 0);
    assert Shl(0, 63) == 0;
    OrZero(Or(M, Shl(E, 52)));
  }

  /** The fields never overlap: the bits are those of the double with exactly these fields. */
  lemma {:induction false} FieldsDoNotOverlap(t: ScalarType)
    requires Representable(t) && TopMantissa(t.nanRepr, t.mantissa) >= 0
    ensures var M, E := CodeMantissa(t), MaxExponentDouble(t.nanRepr, t.exponent);
            && 0 <= M && 0 <= E
            && FieldsFit(DoubleFields(M, E, 0)) && FieldsFit(DoubleFields(M, E, 1))
            && FloatingPointMax(t) == Bits(Pack(DoubleFields(M, E, 0)))
            && (t.signed ==> FloatingPointMin(t) == Bits(Pack(DoubleFields(M, E, 1))))
  {
    var M, E := CodeMantissa(t), MaxExponentDouble(t.nanRepr, t.exponent);
    MantissaFits(t);
    ExponentFits(t);
    PackedPositive(M, E);
    PackedDouble(M, E, 0);
    PackedDouble(M, E, 1);
  }

  // ----- What the code computes -----

  lemma {:induction false} Distribute(a: nat, b: nat, c: nat)
    ensures Mul(a + b, c) == Mul(a, c) + Mul(b, c)
  {
  }

  lemma {:induction false} Factor(w: nat, m: nat, M: nat)
    requires m <= w
    ensures Pow2(w) + Shl(M, w - m) == Mul(Pow2(m) + M, Pow2(w - m))
  {
    Pow2Add(m, w - m);
    Distribute(Pow2(m), M, Pow2(w - m));
  }

  lemma {:induction false} Rescale(a: nat, n: nat, k: int)
    ensures Scale(Mul(a, Pow2(n)), TwoTo(k)) == Scale(a, TwoTo(k + n))
  {
    TwoToPlus(k, n);
    ScaleMul(a, Pow2(n), TwoTo(k));
  }

  /** A number whose mantissa field is a shorter mantissa moved to the left. */
  lemma {:induction false} Widened(e: nat, w: nat, E: nat, m: nat, M: nat, k: int)
    requires e > 0 && E > 0 && m <= w && k == E - Bias(e) - m
    ensures Shl(M, w - m) >= 0
    ensures Value(e, w, E, Shl(M, w - m)) == Scale(Pow2(m) + M, TwoTo(k))
  {
    Factor(w, m, M);
    Rescale(Pow2(m) + M, w - m, E - Bias(e) - w);
  }

  /** The top mantissa with an implicit one, at the top exponent. */
  function TopNormal(nan: NanRepr, e: nat, m: nat): real
    requires e > 0 && TopMantissa(nan, m) >= 0
  {
    Scale(Pow2(m) + TopMantissa(nan, m), TwoTo(TopExponent(nan, e) - Bias(e) - m))
  }

  lemma {:induction false} ExponentShift(nan: NanRepr, e: nat, m: nat)
    requires e > 0
    ensures MaxExponentDouble(nan, e) - Bias(11) - m == TopExponent(nan, e) - Bias(e) - m
  {
    assert Bias(11) == 1023;
  }

  lemma {:induction false} WidenedDouble(nan: NanRepr, e: nat, m: nat)
    requires e > 0 && m <= 52 && TopMantissa(nan, m) >= 0 && MaxExponentDouble(nan, e) > 0
    ensures Shl(TopMantissa(nan, m), 52 - m) >= 0
    ensures Value(11, 52, MaxExponentDouble(nan, e), Shl(TopMantissa(nan, m), 52 - m)) == TopNormal(nan, e, m)
  {
    var k := TopExponent(nan, e) - Bias(e) - m;
    ExponentShift(nan, e, m);
    Widened(11, 52, MaxExponentDouble(nan, e), m, TopMantissa(nan, m), k);
  }

  lemma {:induction false} TopNormalIsValue(nan: NanRepr, e: nat, m: nat)
    requires e > 0 && TopExponent(nan, e) > 0 && TopMantissa(nan, m) >= 0
    ensures TopNormal(nan, e, m) == Value(e, m, TopExponent(nan, e), TopMantissa(nan, m))
  {
  }

  /** As a double the fields stand for the top mantissa with an implicit one, at the top exponent. */
  lemma {:induction false} CodeValue(t: ScalarType)
    requires Representable(t) && TopMantissa(t.nanRepr, t.mantissa) >= 0
    ensures CodeMantissa(t) >= 0 && MaxExponentDouble(t.nanRepr, t.exponent) > 0
    ensures Value(11, 52, MaxExponentDouble(t.nanRepr, t.exponent), CodeMantissa(t))
            == TopNormal(t.nanRepr, t.exponent, t.mantissa)
  {
    MantissaFits(t);
    ExponentFits(t);
    WidenedDouble(t.nanRepr, t.exponent, t.mantissa);
  }

  lemma {:induction false} CodeDouble(t: ScalarType)
    requires Representable(t) && TopMantissa(t.nanRepr, t.mantissa) >= 0
    ensures FloatingPointMax(t).Bits?
    ensures DoubleOf(FloatingPointMax(t).raw) == TopNormal(t.nanRepr, t.exponent, t.mantissa)
  {
    FieldsDoNotOverlap(t);
    DoubleOfFields(CodeMantissa(t), MaxExponentDouble(t.nanRepr, t.exponent), 0);
    CodeValue(t);
  }

  /** The two formats for which the code goes wrong. */
  predicate Degenerate(t: ScalarType) {
    || (t.nanRepr.Ieee754? && t.exponent == 1)
    || (t.nanRepr.ExtdRangeMaxMin? && t.mantissa == 0)
  }

  lemma {:induction false} TopIsNormal(t: ScalarType)
    requires Representable(t) && !Degenerate(t)
    ensures TopExponent(t.nanRepr, t.exponent) > 0 && TopMantissa(t.nanRepr, t.mantissa) >= 0
  {
    assert Pow2(t.exponent) >= 2 && (t.exponent > 1 ==> Pow2(t.exponent - 1) >= 2);
    assert t.mantissa > 0 ==> Pow2(t.mantissa) >= 2;
  }

  lemma {:induction false} CodeIsTop(t: ScalarType)
    requires Representable(t) && !Degenerate(t)
    ensures TopExponent(t.nanRepr, t.exponent) >= 0 && TopMantissa(t.nanRepr, t.mantissa) >= 0
    ensures FloatingPointMax(t).Bits?
    ensures DoubleOf(FloatingPointMax(t).raw)
            == Value(t.exponent, t.mantissa, TopExponent(t.nanRepr, t.exponent), TopMantissa(t.nanRepr, t.mantissa))
  {
    TopIsNormal(t);
    TopNormalIsValue(t.nanRepr, t.exponent, t.mantissa);
    CodeDouble(t);
  }

  lemma {:induction false} CodeIsLargest(t: ScalarType)
    requires Representable(t) && !Degenerate(t)
    ensures var r := FloatingPointMax(t);
            r.Bits? && IsLargest(t.nanRepr, t.exponent, t.mantissa, DoubleOf(r.raw))
  {
    CodeIsTop(t);
    TopIsLargest(t.nanRepr, t.exponent, t.mantissa);
  }

  lemma {:induction false} SubnormalBelow(e: nat, m: nat, M: nat)
    requires e == 1 && M < Pow2(m)
    ensures Value(e, m, 0, M) < Scale(Pow2(m) + (Pow2(m) - 1), TwoTo(0 - m))
  {
    TwoToPlus(0 - m, e);
    ScaleMul(M, Pow2(e), TwoTo(0 - m));
    ScaleStrict(Mul(M, Pow2(e)), Pow2(m) + (Pow2(m) - 1), TwoTo(0 - m));
  }

  /** With one exponent bit every finite value is below the top read as a normal number. */
  lemma {:induction false} OnlySubnormals(nan: NanRepr, e: nat, m: nat)
    requires nan.Ieee754? && e == 1
    ensures TopMantissa(nan, m) >= 0 && !IsLargest(nan, e, m, TopNormal(nan, e, m))
  {
    assert TopNormal(nan, e, m) == Scale(Pow2(m) + (Pow2(m) - 1), TwoTo(0 - m));
    forall E: nat, M: nat | Finite(nan, e, m, E, M) ensures Value(e, m, E, M) != TopNormal(nan, e, m) {
      SubnormalBelow(e, m, M);
    }
  }

  /** One exponent bit leaves IEEE 754 only subnormals, which the code takes for normal numbers. */
  lemma {:induction false} OneExponentBitFails(t: ScalarType)
    requires Representable(t) && t.nanRepr.Ieee754? && t.exponent == 1
    ensures var r := FloatingPointMax(t);
            r.Bits? && !IsLargest(t.nanRepr, t.exponent, t.mantissa, DoubleOf(r.raw))
  {
    OnlySubnormals(t.nanRepr, t.exponent, t.mantissa);
    CodeDouble(t);
  }

  lemma {:induction false} ScaleStrict(a: nat, b: nat, x: real)
    requires a < b && x > 0.0
    ensures Scale(a, x) < Scale(b, x)
  {
  }

  /** Without mantissa bits the extended encoding makes the code subtract below zero. */
  lemma {:induction false} NoMantissaBitsFails(t: ScalarType)
    requires Representable(t) && t.nanRepr.ExtdRangeMaxMin? && t.mantissa == 0
    ensures FloatingPointMax(t) == StructError
  {
    BiasBelow(t.exponent);
    ExponentFits(t);
    assert Shl(-1, 52) < 0;
    OrNegative(Shl(-1, 52), Shl(MaxExponentDouble(t.nanRepr, t.exponent), 52));
  }

  /**
    For every format the code accepts: its maximum is the largest finite value of the format exactly
    when the format is not one of the two degenerate ones, and its minimum is then the negation.
  */
  lemma {:induction false} MaxIsLargestIff(t: ScalarType)
    requires t.exponent > 0 && t.mantissa >= 0
    ensures FloatingPointMax(t) != AssertionFails <==> Representable(t)
    ensures Representable(t) ==>
              var r := FloatingPointMax(t);
              (r.Bits? && IsLargest(t.nanRepr, t.exponent, t.mantissa, DoubleOf(r.raw))) <==> !Degenerate(t)
    ensures Representable(t) && !Degenerate(t) && t.signed ==>
              var r := FloatingPointMin(t);
              r.Bits? && DoubleOf(r.raw) == -DoubleOf(FloatingPointMax(t).raw)
  {
    if Representable(t) {
      if t.nanRepr.Ieee754? && t.exponent == 1 {
        OneExponentBitFails(t);
      } else if t.nanRepr.ExtdRangeMaxMin? && t.mantissa == 0 {
        NoMantissaBitsFails(t);
      } else {
        CodeIsLargest(t);
        MinIsNegation(t);
      }
    }
  }

  lemma {:induction false} MinIsNegation(t: ScalarType)
    requires Representable(t) && !Degenerate(t)
    ensures t.signed ==>
              var r := FloatingPointMin(t);
              r.Bits? && FloatingPointMax(t).Bits? && DoubleOf(r.raw) == -DoubleOf(FloatingPointMax(t).raw)
  {
    assert t.mantissa > 0 ==> Pow2(t.mantissa) >= 2;
    FieldsDoNotOverlap(t);
    DoubleOfFields(CodeMantissa(t), MaxExponentDouble(t.nanRepr, t.exponent), 0);
    DoubleOfFields(CodeMantissa(t), MaxExponentDouble(t.nanRepr, t.exponent), 1);
  }

  /** float8_e8m0fnu, one of the types the file declares, is degenerate: its max() raises. */
  lemma {:induction false} E8m0HasNoMax()
    ensures FloatingPointMax(ScalarType(8, 0, false, 0, true, ExtdRangeMaxMin)) == StructError
  {
    NoMantissaBitsFails(ScalarType(8, 0, false, 0, true, ExtdRangeMaxMin));
  }
}
