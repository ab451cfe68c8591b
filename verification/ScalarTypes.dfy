/** Bit layouts of scalar types (vllm/scalar_type.py): the largest value of a float layout, built as the
    bits of a double. */
module ScalarTypes {
  import opened Blocks
  import opened Powers

  datatype NanRepr = NoNans | Ieee754 | ExtendedRange

  datatype ScalarType = ScalarType(exponent: int, mantissa: int, signed: bool, bias: int, finiteOnly: bool,
                                   nanRepr: NanRepr)

  // ---- Powers of two --------------------------------------------------------------------------

  function Exp2(k: int): real
    decreases if k >= 0 then k else -k
  {
    if k == 0 then 1.0 else if k > 0 then 2.0 * Exp2(k - 1) else Exp2(k + 1) / 2.0
  }

  lemma {:induction false} Exp2Next(k: int)
    ensures Exp2(k + 1) == 2.0 * Exp2(k)
  {
  }

  lemma {:induction false} Exp2Positive(k: int)
    ensures Exp2(k) > 0.0
    decreases if k >= 0 then k else -k
  {
    if k > 0 {
      Exp2Positive(k - 1);
    } else if k < 0 {
      Exp2Positive(k + 1);
    }
  }

  lemma {:induction false} Exp2Monotone(k: int, l: int)
    requires k <= l
    ensures Exp2(k) <= Exp2(l)
    decreases l - k
  {
    if k < l {
      Exp2Monotone(k, l - 1);
      Exp2Next(l - 1);
      Exp2Positive(l - 1);
    }
  }

  function Times(x: nat, y: real): real {
    x as real * y
  }

  lemma {:induction false} TimesMonotone(x: nat, x': nat, y: real, y': real)
    requires x <= x' && 0.0 <= y <= y'
    ensures Times(x, y) <= Times(x', y')
  {
    assert (x' as real - x as real) * y >= 0.0;
    assert x' as real * (y' - y) >= 0.0;
  }

  lemma {:induction false} TimesDouble(x: nat, y: real)
    ensures Times(2 * x, y) == Times(x, 2.0 * y)
  {
  }

  /** Moving a power of two from the integer part to the exponent. */
  lemma {:induction false} Exp2Shift(n: nat, k: int)
    ensures Times(Pow2(n), Exp2(k)) == Exp2(k + n)
  {
    hide Exp2, Times;
    if n == 0 {
      TimesOne(Exp2(k));
    } else {
      Exp2Shift(n - 1, k + 1);
      Exp2Next(k);
      TimesDouble(Pow2(n - 1), Exp2(k));
    }
  }

  lemma {:induction false} TimesOne(y: real)
    ensures Times(1, y) == y
  {
  }

  // ---- Floating point -------------------------------------------------------------------------

  /** The exponent bias that the source assumes for every layout, which is that of a double too. */
  function ExponentBias(exponent: nat): int
    requires exponent > 0
  {
    Pow2(exponent - 1) - 1
  }

  /** The value of an encoding (section 3.4 of IEEE 754-2019), for a layout with `exponent` and
      `mantissa` bits. */
  function Value(exponent: nat, mantissa: nat, e: nat, m: nat): real
    requires exponent > 0
  {
    if e == 0 then Times(m, Exp2(1 - ExponentBias(exponent) - mantissa)) else Normal(exponent, mantissa, e, m)
  }

  /** The value with an implicit leading one. */
  function Normal(exponent: nat, mantissa: nat, e: nat, m: nat): real
    requires exponent > 0
  {
    Times(Pow2(mantissa) + m, Exp2(e - ExponentBias(exponent) - mantissa))
  }

  /** An encoding that is neither a NaN nor an infinity. */
  predicate Finite(exponent: nat, mantissa: nat, nanRepr: NanRepr, e: nat, m: nat) {
    && e < Pow2(exponent) && m < Pow2(mantissa)
    && match nanRepr
       case NoNans => true
       case Ieee754 => e != Pow2(exponent) - 1
       case ExtendedRange => !(e == Pow2(exponent) - 1 && m == Pow2(mantissa) - 1)
  }

  function MaxExponent(exponent: nat, nanRepr: NanRepr): int {
    if nanRepr == Ieee754 then Pow2(exponent) - 2 else Pow2(exponent) - 1
  }

  function MaxMantissa(mantissa: nat, nanRepr: NanRepr): int {
    if nanRepr == ExtendedRange then Pow2(mantissa) - 2 else Pow2(mantissa) - 1
  }

  /** Layouts for which the largest exponent and mantissa that the source assumes are those of an encoding. */
  predicate Regular(exponent: nat, mantissa: nat, nanRepr: NanRepr) {
    (exponent >= 2 || nanRepr != Ieee754) && (mantissa >= 1 || nanRepr != ExtendedRange)
  }

  lemma {:induction false} MaxInLayout(exponent: nat, mantissa: nat, nanRepr: NanRepr)
    requires exponent >= 1 && Regular(exponent, mantissa, nanRepr)
    ensures 1 <= MaxExponent(exponent, nanRepr) && 0 <= MaxMantissa(mantissa, nanRepr)
    ensures Finite(exponent, mantissa, nanRepr, MaxExponent(exponent, nanRepr), MaxMantissa(mantissa, nanRepr))
  {
    Pow2Monotone(1, exponent);
    Pow2Monotone(0, mantissa);
    assert Pow2(2) == 4 && Pow2(1) == 2;
    if exponent >= 2 {
      Pow2Monotone(2, exponent);
    }
    if mantissa >= 1 {
      Pow2Monotone(1, mantissa);
    }
  }

  /** No finite encoding exceeds the one with the largest exponent and mantissa. */
  lemma {:induction false} MaxIsLargest(exponent: nat, mantissa: nat, nanRepr: NanRepr, e: nat, m: nat)
    requires exponent >= 1 && Regular(exponent, mantissa, nanRepr)
    requires Finite(exponent, mantissa, nanRepr, e, m)
    ensures 0 <= MaxExponent(exponent, nanRepr) && 0 <= MaxMantissa(mantissa, nanRepr)
    ensures Value(exponent, mantissa, e, m) <=
            Value(exponent, mantissa, MaxExponent(exponent, nanRepr), MaxMantissa(mantissa, nanRepr))
  {
    var maxE, maxM := MaxExponent(exponent, nanRepr), MaxMantissa(mantissa, nanRepr);
    MaxInLayout(exponent, mantissa, nanRepr);
    var p, b := Pow2(mantissa), ExponentBias(exponent);
    var l := maxE - b - mantissa;
    Exp2Positive(l);
    hide Exp2, Pow2, ExponentBias, Times;
    if e == maxE {
      TimesMonotone(p + m, p + maxM, Exp2(l), Exp2(l));
    } else {
      SmallerExponent(p, if e == 0 then m else p + m, (if e == 0 then 1 else e) - b - mantissa, e, l);
      TimesMonotone(p, p + maxM, Exp2(l), Exp2(l));
    }
  }

  /** A significand below the next power of two, with a smaller exponent, is at most that power. */
  lemma {:induction false} SmallerExponent(p: nat, x: nat, k: int, e: nat, l: int)
    requires if e == 0 then x < p && k <= l else x < 2 * p && k < l
    ensures Times(x, Exp2(k)) <= Times(p, Exp2(l))
  {
    Exp2Positive(k);
    Exp2Next(k);
    Exp2Monotone(k, l);
    hide Times;
    if e == 0 {
      TimesMonotone(x, p, Exp2(k), Exp2(l));
    } else {
      Exp2Monotone(k + 1, l);
      hide Exp2;
      TimesMonotone(x, 2 * p, Exp2(k), Exp2(k));
      TimesDouble(p, Exp2(k));
      TimesMonotone(p, p, Exp2(k + 1), Exp2(l));
    }
  }

  // ---- The bits of a double -------------------------------------------------------------------

  /** Bitwise or of integers in two's complement. */
  function Or(x: int, y: int): (r: int)
    ensures x >= 0 && y >= 0 ==> r >= 0
    ensures x < 0 || y < 0 ==> r < 0
    decreases Magnitude(x) + Magnitude(y)
  {
    if x == 0 && y == 0 then 0
    else if Magnitude(x) == 0 && Magnitude(y) == 0 then -1
    else (if x % 2 == 1 || y % 2 == 1 then 1 else 0) + 2 * Or(x / 2, y / 2)
  }

  function Magnitude(x: int): nat {
    if x < 0 then -1 - x else x
  }

  lemma {:induction false} OrZero(y: nat)
    ensures Or(0, y) == y
  {
    if y == 0 {
    } else {
      OrZero(y / 2);
    }
  }

  /** `x` shifted to the place `p`. */
  function At(x: int, p: nat): (r: int)
    ensures x >= 0 ==> r >= 0
    ensures x < 0 && p > 0 ==> r < 0
  {
    x * p
  }

  lemma {:induction false} AtSum(x: nat, y: nat, p: nat)
    ensures At(x + y, p) == At(x, p) + At(y, p)
  {
  }

  lemma {:induction false} AtDouble(x: nat, p: nat)
    ensures At(x, 2 * p) == 2 * At(x, p) && At(x, 1) == x
  {
  }

  /** Bits that do not overlap add up. */
  lemma {:induction false} OrDisjoint(x: nat, y: nat, n: nat)
    requires x < Pow2(n)
    ensures Or(x, At(y, Pow2(n))) == x + At(y, Pow2(n))
  {
    hide At;
    AtDouble(y, if n == 0 then 1 else Pow2(n - 1));
    if n == 0 {
      OrZero(y);
    } else {
      OrDisjoint(x / 2, y, n - 1);
    }
  }

  /** The place of the exponent of a double, and that of its sign. */
  function ExponentUnit(): nat {
    Pow2(52)
  }

  function SignUnit(): nat {
    Pow2(63)
  }

  lemma {:induction false} Units()
    ensures ExponentUnit() > 0 && SignUnit() == 2048 * ExponentUnit()
  {
    Pow2Small();
    Pow2Add(11, 52);
    Pow2Positive(52);
  }

  /** What becomes of the pattern of a largest value: the bits of a double, a pattern that is negative or has more
      than 64 bits, or a failed assertion. */
  datatype Outcome = Bits(value: nat) | PackError(pattern: int) | AssertionError

  /** `_floating_point_max_int` and the packing that follows it. */
  function MaxBits(exponent: nat, mantissa: nat, nanRepr: NanRepr): Outcome
    requires exponent >= 1
  {
    if mantissa > 52 || exponent > 11 || (nanRepr != Ieee754 && exponent == 11) then AssertionError
    else
      var pattern := Or(At(MaxMantissa(mantissa, nanRepr), Pow2(52 - mantissa)),
                        At(MaxExponent(exponent, nanRepr) - ExponentBias(exponent) + 1023, ExponentUnit()));
      if 0 <= pattern < 2 * SignUnit() then Bits(pattern) else PackError(pattern)
  }

  lemma {:induction false} BiasAtMost(exponent: nat)
    requires 1 <= exponent <= 11
    ensures 0 <= ExponentBias(exponent) <= 1023 && Pow2(exponent) == 2 * (ExponentBias(exponent) + 1)
  {
    Pow2Monotone(0, exponent - 1);
    Pow2Monotone(exponent - 1, 10);
    Pow2Small();
  }

  function DoubleExponent(raw: nat): nat {
    Units();
    raw / ExponentUnit() % 2048
  }

  function DoubleMantissa(raw: nat): nat {
    Units();
    raw % ExponentUnit()
  }

  function DoubleNegative(raw: nat): bool {
    Units();
    raw / SignUnit() % 2 == 1
  }

  /** The value of 64 bits as a double. */
  function DoubleValue(raw: nat): real {
    var magnitude := Value(11, 52, DoubleExponent(raw), DoubleMantissa(raw));
    if DoubleNegative(raw) then -magnitude else magnitude
  }

  /** 64 bits without the exponent of infinities and NaNs. */
  predicate DoubleFinite(raw: nat) {
    raw < 2 * SignUnit() && DoubleExponent(raw) != 2047
  }

  /** The fields of bits that are put together, with and without the sign. */
  lemma {:induction false} Fields(e: nat, m: nat)
    requires m < ExponentUnit() && e < 2048
    ensures var raw := m + At(e, ExponentUnit());
            raw < SignUnit() && DoubleExponent(raw) == e && DoubleMantissa(raw) == m && !DoubleNegative(raw)
    ensures var raw := m + At(e, ExponentUnit()) + SignUnit();
            raw < 2 * SignUnit() && DoubleExponent(raw) == e && DoubleMantissa(raw) == m && DoubleNegative(raw)
  {
    Units();
    hide ExponentUnit, SignUnit, At;
    FieldsOf(e, m, ExponentUnit());
    FieldsSigned(e, m, ExponentUnit());
  }

  lemma {:induction false} FieldsOf(e: nat, m: nat, p: nat)
    requires m < p && e < 2048
    ensures var raw, q := m + At(e, p), 2048 * p;
            raw < q && raw / p % 2048 == e && raw % p == m && raw / q % 2 == 0
  {
    AtBelow(e, p);
    var raw, q := m + At(e, p), 2048 * p;
    DivUnique(raw, p, e, m);
    hide At;
    DivUnique(raw, q, 0, raw);
  }

  lemma {:induction false} FieldsSigned(e: nat, m: nat, p: nat)
    requires m < p && e < 2048
    ensures var raw, q := m + At(e, p) + 2048 * p, 2048 * p;
            raw < 2 * q && raw / p % 2048 == e && raw % p == m && raw / q % 2 == 1
  {
    AtBelow(e, p);
    AtSum(e, 2048, p);
    var raw, q := m + At(e, p) + 2048 * p, 2048 * p;
    DivUnique(raw, p, e + 2048, m);
    hide At;
    DivUnique(raw, q, 1, raw - q);
  }

  lemma {:induction false} AtBelow(e: nat, p: nat)
    requires e < 2048
    ensures At(e, p) + p <= 2048 * p
  {
    assert (2047 - e) * p >= 0;
  }

  lemma {:induction false} TimesAt(x: nat, p: nat, y: real)
    ensures Times(At(x, p), y) == Times(x, Times(p, y))
  {
    assert (x * p) as real == x as real * p as real;
  }

  lemma {:induction false} TimesShift(x: nat, n: nat, k: int, l: int)
    requires l == k + n
    ensures Times(At(x, Pow2(n)), Exp2(k)) == Times(x, Exp2(l))
  {
    hide *;
    Exp2Shift(n, k);
    TimesAt(x, Pow2(n), Exp2(k));
  }

  /** An encoding with a leading one has the same value as a double with its mantissa shifted and its
      exponent rebiased. */
  lemma {:induction false} SameValue(exponent: nat, mantissa: nat, e: nat, m: nat, d: nat)
    requires 1 <= exponent <= 11 && mantissa <= 52 && d > 0 && d == e - ExponentBias(exponent) + 1023
    ensures Value(11, 52, d, At(m, Pow2(52 - mantissa))) == Normal(exponent, mantissa, e, m)
  {
    var n := 52 - mantissa;
    Pow2Add(mantissa, n);
    Pow2Small();
    assert ExponentBias(11) == 1023;
    Widened(exponent, mantissa, e, m, d, 52, n);
  }

  lemma {:induction false} Widened(exponent: nat, mantissa: nat, e: nat, m: nat, d: nat, wide: nat, n: nat)
    requires exponent > 0 && d > 0 && d - ExponentBias(11) == e - ExponentBias(exponent)
    requires wide == mantissa + n && Pow2(wide) == At(Pow2(mantissa), Pow2(n))
    ensures Value(11, wide, d, At(m, Pow2(n))) == Normal(exponent, mantissa, e, m)
  {
    hide Exp2, Times, Pow2, ExponentBias, At;
    var p, q, b := Pow2(mantissa), Pow2(n), ExponentBias(exponent);
    var k, l := d - ExponentBias(11) - wide, e - b - mantissa;
    assert Value(11, wide, d, At(m, q)) == Times(Pow2(wide) + At(m, q), Exp2(k));
    assert Normal(exponent, mantissa, e, m) == Times(p + m, Exp2(l));
    AtSum(p, m, q);
    TimesShift(p + m, n, k, l);
  }

  lemma {:induction false} AtFits(m: nat, p: nat, q: nat)
    requires m < p && q > 0
    ensures At(m, q) < At(p, q)
  {
    AtSum(m, p - m, q);
    assert At(p - m, q) > 0;
  }

  /** A shifted mantissa stays below the exponent's place. */
  lemma {:induction false} MantissaFits(mantissa: nat, m: nat)
    requires mantissa <= 52 && m < Pow2(mantissa)
    ensures At(m, Pow2(52 - mantissa)) < ExponentUnit()
  {
    var n := 52 - mantissa;
    Pow2Add(mantissa, n);
    Pow2Positive(n);
    assert ExponentUnit() == At(Pow2(mantissa), Pow2(n));
    hide Pow2, At, ExponentUnit;
    AtFits(m, Pow2(mantissa), Pow2(n));
  }

  lemma {:induction false} MaxRanges(exponent: nat, mantissa: nat, nanRepr: NanRepr)
    requires exponent >= 1 && !MaxBits(exponent, mantissa, nanRepr).AssertionError?
    requires mantissa >= 1 || nanRepr != ExtendedRange
    ensures exponent <= 11 && mantissa <= 52
    ensures 0 <= MaxExponent(exponent, nanRepr) && 0 <= MaxMantissa(mantissa, nanRepr) < Pow2(mantissa)
    ensures 0 < MaxExponent(exponent, nanRepr) - ExponentBias(exponent) + 1023 < 2047
  {
    BiasAtMost(exponent);
    Pow2Monotone(0, mantissa);
    if mantissa >= 1 {
      Pow2Monotone(1, mantissa);
    }
    if nanRepr != Ieee754 {
      Pow2Monotone(exponent, 10);
      Pow2Small();
    }
  }

  lemma {:induction false} MaxBitsAre(exponent: nat, mantissa: nat, nanRepr: NanRepr, d: nat, f: nat)
    requires exponent >= 1 && !MaxBits(exponent, mantissa, nanRepr).AssertionError?
    requires d < 2047 && d == MaxExponent(exponent, nanRepr) - ExponentBias(exponent) + 1023
    requires 0 <= MaxMantissa(mantissa, nanRepr) && f == At(MaxMantissa(mantissa, nanRepr), Pow2(52 - mantissa))
    requires f < ExponentUnit()
    ensures MaxBits(exponent, mantissa, nanRepr) == Bits(f + At(d, ExponentUnit()))
  {
    hide Pow2, At, ExponentUnit, SignUnit;
    ExponentUnitIs();
    OrDisjoint(f, d, 52);
    Units();
    AtBelow(d, ExponentUnit());
  }

  lemma {:induction false} ExponentUnitIs()
    ensures ExponentUnit() == Pow2(52)
  {
  }

  /** The bits decode to a finite double: the largest exponent and mantissa with a leading one. */
  lemma {:induction false} MaxBitsDecode(exponent: nat, mantissa: nat, nanRepr: NanRepr)
    requires exponent >= 1 && !MaxBits(exponent, mantissa, nanRepr).AssertionError?
    requires mantissa >= 1 || nanRepr != ExtendedRange
    ensures 0 <= MaxExponent(exponent, nanRepr) && 0 <= MaxMantissa(mantissa, nanRepr)
    ensures MaxBits(exponent, mantissa, nanRepr).Bits?
    ensures var raw := MaxBits(exponent, mantissa, nanRepr).value;
            && raw < SignUnit() && DoubleFinite(raw)
            && DoubleValue(raw) == Normal(exponent, mantissa, MaxExponent(exponent, nanRepr),
                                          MaxMantissa(mantissa, nanRepr))
  {
    hide *;
    MaxRanges(exponent, mantissa, nanRepr);
    var e, m := MaxExponent(exponent, nanRepr), MaxMantissa(mantissa, nanRepr);
    var d, f := e - ExponentBias(exponent) + 1023, At(m, Pow2(52 - mantissa));
    MantissaFits(mantissa, m);
    SameValue(exponent, mantissa, e, m, d);
    MaxBitsAre(exponent, mantissa, nanRepr, d, f);
    Decoded(d, f);
  }

  lemma {:induction false} Decoded(d: nat, f: nat)
    requires 0 < d < 2047 && f < ExponentUnit()
    ensures var raw := f + At(d, ExponentUnit());
            raw < SignUnit() && DoubleFinite(raw) && DoubleValue(raw) == Value(11, 52, d, f)
  {
    hide Value, At, ExponentUnit, SignUnit, DoubleExponent, DoubleMantissa, DoubleNegative;
    Fields(d, f);
  }

  /** The bits of a finite double whose value is that of a finite encoding, and no finite encoding exceeds it. */
  ghost predicate IsLargest(exponent: nat, mantissa: nat, nanRepr: NanRepr, o: Outcome)
    requires exponent >= 1
  {
    && o.Bits? && o.value < SignUnit() && DoubleFinite(o.value)
    && (exists e, m :: Finite(exponent, mantissa, nanRepr, e, m)
                       && DoubleValue(o.value) == Value(exponent, mantissa, e, m))
    && (forall e, m :: Finite(exponent, mantissa, nanRepr, e, m) ==>
          Value(exponent, mantissa, e, m) <= DoubleValue(o.value))
  }

  /** Every regular layout within the asserted limits gets the bits of its largest value. */
  lemma {:induction false} MaxIsExact(exponent: nat, mantissa: nat, nanRepr: NanRepr)
    requires exponent >= 1 && !MaxBits(exponent, mantissa, nanRepr).AssertionError?
    requires Regular(exponent, mantissa, nanRepr)
    ensures IsLargest(exponent, mantissa, nanRepr, MaxBits(exponent, mantissa, nanRepr))
  {
    hide Exp2, Pow2, Value, Normal, Finite, MaxBits, MaxExponent, MaxMantissa, DoubleValue, DoubleFinite, SignUnit;
    MaxBitsDecode(exponent, mantissa, nanRepr);
    MaxInLayout(exponent, mantissa, nanRepr);
    var maxE, maxM := MaxExponent(exponent, nanRepr), MaxMantissa(mantissa, nanRepr);
    HasLeadingOne(exponent, mantissa, maxE, maxM);
    forall e, m | Finite(exponent, mantissa, nanRepr, e, m)
      ensures Value(exponent, mantissa, e, m) <= DoubleValue(MaxBits(exponent, mantissa, nanRepr).value)
    {
      MaxIsLargest(exponent, mantissa, nanRepr, e, m);
    }
  }

  /** Without mantissa bits the largest mantissa of an extended range is -1, and the pattern cannot be packed. */
  lemma {:induction false} NoMantissaFails(exponent: nat)
    requires exponent >= 1 && !MaxBits(exponent, 0, ExtendedRange).AssertionError?
    ensures MaxBits(exponent, 0, ExtendedRange).PackError?
  {
    hide Pow2, At, Or;
    Pow2Next(0);
    Pow2Positive(52);
  }

  /** That is the type `float8_e8m0fnu`. */
  lemma {:induction false} Float8E8M0Fails()
    ensures MaxBits(8, 0, ExtendedRange).PackError?
  {
    NoMantissaFails(8);
  }

  /** The layouts that the assertions admit. */
  lemma {:induction false} AdmittedIff(exponent: nat, mantissa: nat, nanRepr: NanRepr)
    requires exponent >= 1
    ensures !MaxBits(exponent, mantissa, nanRepr).AssertionError? <==>
            mantissa <= 52 && exponent <= 11 && (exponent == 11 ==> nanRepr == Ieee754)
  {
    hide Pow2, Or, At, MaxMantissa, MaxExponent, ExponentBias;
  }

  /** The largest values of some types that are defined: `float8_e4m3fn`, `float8_e5m2`, `float16_e5m10` and
      `float6_e3m2f`. */
  lemma {:induction false} KnownMaxima()
    ensures MaxBits(4, 3, ExtendedRange).Bits? && DoubleValue(MaxBits(4, 3, ExtendedRange).value) == 448.0
    ensures MaxBits(5, 2, Ieee754).Bits? && DoubleValue(MaxBits(5, 2, Ieee754).value) == 57344.0
    ensures MaxBits(5, 10, Ieee754).Bits? && DoubleValue(MaxBits(5, 10, Ieee754).value) == 65504.0
    ensures MaxBits(3, 2, NoNans).Bits? && DoubleValue(MaxBits(3, 2, NoNans).value) == 28.0
  {
    hide MaxBits, DoubleValue, SignUnit, DoubleFinite;
    KnownMax(4, 3, ExtendedRange, 15, 6, 14, 5);
    KnownMax(5, 2, Ieee754, 30, 3, 7, 13);
    KnownMax(5, 10, Ieee754, 30, 1023, 2047, 5);
    KnownMax(3, 2, NoNans, 7, 3, 7, 2);
    SmallPowers();
  }

  lemma {:induction false} SmallPowers()
    ensures Times(14, Exp2(5)) == 448.0 && Times(7, Exp2(13)) == 57344.0
    ensures Times(2047, Exp2(5)) == 65504.0 && Times(7, Exp2(2)) == 28.0
  {
    assert Exp2(2) == 4.0;
    assert Exp2(5) == 32.0;
    assert Exp2(9) == 512.0;
    assert Exp2(13) == 8192.0;
  }

  lemma {:induction false} KnownMax(exponent: nat, mantissa: nat, nanRepr: NanRepr, e: nat, m: nat, x: nat, k: int)
    requires 1 <= exponent <= 5 && 1 <= mantissa <= 10
    requires e == (if nanRepr == Ieee754 then Pow2(exponent) - 2 else Pow2(exponent) - 1)
    requires m == (if nanRepr == ExtendedRange then Pow2(mantissa) - 2 else Pow2(mantissa) - 1)
    requires x == Pow2(mantissa) + m && k == e - (Pow2(exponent - 1) - 1) - mantissa
    ensures MaxBits(exponent, mantissa, nanRepr).Bits?
    ensures DoubleValue(MaxBits(exponent, mantissa, nanRepr).value) == Times(x, Exp2(k))
  {
    hide Pow2, MaxBits, DoubleValue, SignUnit, DoubleFinite, Exp2, Times;
    AdmittedIff(exponent, mantissa, nanRepr);
    MaxBitsDecode(exponent, mantissa, nanRepr);
  }

  /** Over all layouts that the assertions admit: the result is the largest value if and only if the layout has more
      than one exponent bit or is not an IEEE one, and has a mantissa or not the extended range. */
  lemma {:induction false} MaxIsLargestIff(exponent: nat, mantissa: nat, nanRepr: NanRepr)
    requires mantissa <= 52 && 1 <= exponent <= 11 && (exponent == 11 ==> nanRepr == Ieee754)
    ensures IsLargest(exponent, mantissa, nanRepr, MaxBits(exponent, mantissa, nanRepr)) <==>
            (exponent >= 2 || nanRepr != Ieee754) && (mantissa >= 1 || nanRepr != ExtendedRange)
  {
    hide Finite, Value, DoubleValue, DoubleFinite, SignUnit, Pow2, MaxBits, MaxExponent, MaxMantissa, ExponentBias;
    AdmittedIff(exponent, mantissa, nanRepr);
    if Regular(exponent, mantissa, nanRepr) {
      MaxIsExact(exponent, mantissa, nanRepr);
    } else if mantissa == 0 && nanRepr == ExtendedRange {
      NoMantissaFails(exponent);
    } else {
      MaxRanges(exponent, mantissa, nanRepr);
      MaxBitsDecode(exponent, mantissa, nanRepr);
      forall e, m | Finite(exponent, mantissa, nanRepr, e, m)
        ensures DoubleValue(MaxBits(exponent, mantissa, nanRepr).value) != Value(exponent, mantissa, e, m)
      {
        OneBitExponent(exponent, mantissa, e, m);
      }
    }
  }

  lemma {:induction false} HasLeadingOne(exponent: nat, mantissa: nat, e: nat, m: nat)
    requires exponent > 0 && e > 0
    ensures Value(exponent, mantissa, e, m) == Normal(exponent, mantissa, e, m)
  {
  }

  /** The other case: with one exponent bit under the IEEE convention the bits decode to
      more than any finite encoding. */
  lemma {:induction false} OneBitExponent(exponent: nat, mantissa: nat, e: nat, m: nat)
    requires exponent == 1 && mantissa <= 52 && Finite(exponent, mantissa, Ieee754, e, m)
    ensures MaxBits(exponent, mantissa, Ieee754).Bits?
    ensures Value(exponent, mantissa, e, m) < DoubleValue(MaxBits(exponent, mantissa, Ieee754).value)
  {
    hide *;
    var p, k := Pow2(mantissa), 0 - mantissa;
    OneBitValues(exponent, mantissa, e, m, p, k);
    MaxBitsDecode(exponent, mantissa, Ieee754);
    Exp2Next(k);
    Exp2Positive(k);
    Halfway(m, p, Exp2(k), Exp2(k + 1));
  }

  lemma {:induction false} OneBitValues(exponent: nat, mantissa: nat, e: nat, m: nat, p: nat, k: int)
    requires exponent == 1 && mantissa <= 52 && Finite(exponent, mantissa, Ieee754, e, m)
    requires p == Pow2(mantissa) && k == 0 - mantissa
    ensures !MaxBits(exponent, mantissa, Ieee754).AssertionError?
    ensures MaxExponent(exponent, Ieee754) == 0 && 0 <= p - 1 == MaxMantissa(mantissa, Ieee754) && m < p
    ensures Value(exponent, mantissa, e, m) == Times(m, Exp2(k + 1))
    ensures Normal(exponent, mantissa, 0, p - 1) == Times(p + (p - 1), Exp2(k))
  {
    hide Exp2, Times, Or, At, Pow2;
    Pow2Next(0);
    assert ExponentBias(exponent) == 0 && e == 0;
  }

  lemma {:induction false} Halfway(m: nat, p: nat, y: real, y': real)
    requires m < p && y > 0.0 && y' == 2.0 * y
    ensures Times(m, y') < Times(p + (p - 1), y)
  {
    TimesDouble(m, y);
    assert Times(2 * m, y) < Times(2 * m + 1, y);
    TimesMonotone(2 * m + 1, p + (p - 1), y, y);
  }

  /** `_raw_min` sets the sign bit: the result is the negation. */
  lemma {:induction false} MinNegates(raw: nat)
    requires raw < SignUnit() && DoubleFinite(raw)
    ensures DoubleFinite(Or(raw, SignUnit())) && DoubleValue(Or(raw, SignUnit())) == -DoubleValue(raw)
  {
    hide Pow2, Value, ExponentUnit, SignUnit, Or, At, DoubleExponent, DoubleMantissa, DoubleNegative;
    OrSign(raw);
    Units();
    SplitAt(raw, ExponentUnit());
    Fields(raw / ExponentUnit(), raw % ExponentUnit());
  }

  lemma {:induction false} OrSign(raw: nat)
    requires raw < SignUnit()
    ensures Or(raw, SignUnit()) == raw + SignUnit()
  {
    OrDisjoint(raw, 1, 63);
    hide Pow2, Or;
    assert At(1, SignUnit()) == SignUnit();
  }

  lemma {:induction false} SplitAt(raw: nat, p: nat)
    requires p > 0 && raw < 2048 * p
    ensures raw == raw % p + At(raw / p, p) && raw / p < 2048 && raw % p < p
  {
    AtLeast(raw / p, p);
  }

  lemma {:induction false} AtLeast(e: nat, p: nat)
    ensures e >= 2048 ==> At(e, p) >= 2048 * p
  {
    AtSum(2048, if e >= 2048 then e - 2048 else 0, p);
  }
}
