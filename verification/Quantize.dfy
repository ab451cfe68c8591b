/** Dynamic per-token integer quantization (vllm/_xpu_ops.py), in exact arithmetic: one row. */
module Quantize {
  import opened Powers

  /** Rounding to the nearest integer, ties to even. */
  function Round(x: real): int {
    var f := x.Floor;
    var d := x - f as real;
    if d < 0.5 || (d == 0.5 && f % 2 == 0) then f else f + 1
  }

  function Clamp(x: int, lo: int, hi: int): int {
    if x < lo then lo else if x > hi then hi else x
  }

  function Abs(x: real): real {
    if x < 0.0 then -x else x
  }

  function Max(x: real, y: real): real {
    if x < y then y else x
  }

  function MinOf(row: seq<real>): (m: real)
    requires row != []
    ensures m in row && forall i :: 0 <= i < |row| ==> m <= row[i]
  {
    if |row| == 1 then row[0]
    else
      var m := MinOf(row[1..]);
      assert forall i :: 1 <= i < |row| ==> row[i] == row[1..][i - 1];
      if row[0] <= m then row[0] else m
  }

  function MaxOf(row: seq<real>): (m: real)
    requires row != []
    ensures m in row && forall i :: 0 <= i < |row| ==> row[i] <= m
  {
    if |row| == 1 then row[0]
    else
      var m := MaxOf(row[1..]);
      assert forall i :: 1 <= i < |row| ==> row[i] == row[1..][i - 1];
      if row[0] >= m then row[0] else m
  }

  function QMin(sym: bool, bits: nat): int
    requires bits >= 1
  {
    if sym then -(Pow2(bits - 1) as int) else 0
  }

  function QMax(sym: bool, bits: nat): int
    requires bits >= 1
  {
    if sym then Pow2(bits - 1) as int - 1 else Pow2(bits) as int - 1
  }

  const SCALE_FLOOR := 0.00001

  lemma {:induction false} QMaxPositive(sym: bool, bits: nat)
    requires bits >= 2
    ensures QMax(sym, bits) >= 1
  {
    Pow2Monotone(1, bits - 1);
    assert Pow2(1) == 2;
  }

  function RangeOf(row: seq<real>, sym: bool): real
    requires row != []
  {
    if sym then Max(Abs(MinOf(row)), Abs(MaxOf(row))) else MaxOf(row) - MinOf(row)
  }

  function Scale(row: seq<real>, sym: bool, bits: nat): (s: real)
    requires row != [] && bits >= 2
    ensures s >= SCALE_FLOOR
  {
    QMaxPositive(sym, bits);
    Max(RangeOf(row, sym) / QMax(sym, bits) as real, SCALE_FLOOR)
  }

  function ZeroPoint(row: seq<real>, sym: bool, bits: nat): int
    requires row != [] && bits >= 2
  {
    if sym then 0 else -1 * Round(MinOf(row) / Scale(row, sym, bits))
  }

  /** `dynamic_per_token_int8_quant_ref` on entry `i`, before the cast to 8 bits. */
  function Quantized(row: seq<real>, sym: bool, bits: nat, i: nat): int
    requires i < |row| && bits >= 2
  {
    var y := row[i] / Scale(row, sym, bits) + ZeroPoint(row, sym, bits) as real;
    Clamp(Round(y), QMin(sym, bits), QMax(sym, bits))
  }

  // ---- The error bound ----------------------------------------------------------------------

  /** The nearest integer, and the even one of two. */
  lemma {:induction false} RoundNear(x: real)
    ensures -0.5 <= Round(x) as real - x <= 0.5
    ensures Round(x) as real - x == 0.5 || Round(x) as real - x == -0.5 ==> Round(x) % 2 == 0
  {
  }

  /** Clamping does not push a value that is at most a half outside the range further away. */
  lemma {:induction false} ClampNear(y: real, lo: int, hi: int)
    requires lo <= hi && lo as real - 0.5 <= y <= hi as real + 0.5
    ensures -0.5 <= Clamp(Round(y), lo, hi) as real - y <= 0.5
  {
    RoundNear(y);
  }

  lemma {:induction false} SignOfProduct(t: real, s: real)
    requires s > 0.0 && t * s >= 0.0
    ensures t >= 0.0
  {
  }

  lemma {:induction false} DivBound(x: real, s: real, lo: real, hi: real)
    requires s > 0.0 && lo * s <= x <= hi * s
    ensures lo <= x / s <= hi
  {
    var y := x / s;
    assert y * s == x;
    assert (y - lo) * s == y * s - lo * s;
    assert (hi - y) * s == hi * s - y * s;
    SignOfProduct(y - lo, s);
    SignOfProduct(hi - y, s);
  }

  lemma {:induction false} ScaleCovers(range: real, qmax: int, s: real)
    requires qmax >= 1 && range >= 0.0 && s == Max(range / qmax as real, SCALE_FLOOR)
    ensures range <= qmax as real * s
  {
    var q := qmax as real;
    assert range / q * q == range;
    assert (s - range / q) * q >= 0.0;
  }

  lemma {:induction false} InRangeSymmetric(x: real, range: real, q: int, s: real)
    requires q >= 1 && s > 0.0 && -range <= x <= range && range <= q as real * s
    ensures -(q as real) <= x / s <= q as real
  {
    var r := q as real;
    assert (-r) * s == -(r * s);
    DivBound(x, s, -r, r);
  }

  lemma {:induction false} InRangeAsymmetric(x: real, lo: real, hi: real, q: int, s: real)
    requires q >= 1 && s > 0.0 && lo <= x <= hi && hi - lo <= q as real * s
    ensures -0.5 <= x / s + (-1 * Round(lo / s)) as real <= q as real + 0.5
  {
    RoundNear(lo / s);
    DivBound(x - lo, s, 0.0, q as real);
    DivSub(x, lo, s);
  }

  lemma {:induction false} DivSub(x: real, y: real, s: real)
    requires s > 0.0
    ensures (x - y) / s == x / s - y / s
  {
    var a, b, c := (x - y) / s, x / s, y / s;
    assert a * s == x - y && b * s == x && c * s == y;
    assert (a - (b - c)) * s == a * s - b * s + c * s == 0.0;
    assert a - (b - c) == 0.0;
  }

  /** Every scaled entry is at most a half outside the range: the clamp only ever meets a tie. */
  lemma {:induction false} InRange(row: seq<real>, sym: bool, bits: nat, i: nat)
    requires i < |row| && bits >= 2
    ensures var y := row[i] / Scale(row, sym, bits) + ZeroPoint(row, sym, bits) as real;
            QMin(sym, bits) as real - 0.5 <= y <= QMax(sym, bits) as real + 0.5
  {
    hide Round, Pow2;
    var s, q, lo, hi := Scale(row, sym, bits), QMax(sym, bits), MinOf(row), MaxOf(row);
    QMaxPositive(sym, bits);
    assert lo <= row[i] <= hi;
    if sym {
      var range := Max(Abs(lo), Abs(hi));
      ScaleCovers(range, q, s);
      InRangeSymmetric(row[i], range, q, s);
    } else {
      ScaleCovers(hi - lo, q, s);
      InRangeAsymmetric(row[i], lo, hi, q, s);
    }
  }

  lemma {:induction false} ScaleError(x: real, s: real, zp: int, q: int)
    requires s > 0.0 && -0.5 <= q as real - (x / s + zp as real) <= 0.5
    ensures -(s / 2.0) <= s * (q - zp) as real - x <= s / 2.0
  {
    var e, y := q as real - (x / s + zp as real), x / s;
    assert y * s == x;
    var d := (q - zp) as real;
    assert d == y + e;
    assert s * d == y * s + e * s;
    HalfBound(e, s);
  }

  lemma {:induction false} HalfBound(e: real, s: real)
    requires s > 0.0 && -0.5 <= e <= 0.5
    ensures -(s / 2.0) <= e * s <= s / 2.0
  {
    assert (0.5 - e) * s >= 0.0 && (e + 0.5) * s >= 0.0;
  }

  /** Quantized values are in range, and undoing the quantization is off by at most half a scale. */
  lemma {:induction false} QuantizationError(row: seq<real>, sym: bool, bits: nat, i: nat)
    requires i < |row| && bits >= 2
    ensures QMin(sym, bits) <= Quantized(row, sym, bits, i) <= QMax(sym, bits)
    ensures var s := Scale(row, sym, bits);
            -(s / 2.0) <= s * (Quantized(row, sym, bits, i) - ZeroPoint(row, sym, bits)) as real - row[i] <= s / 2.0
  {
    hide Round, Pow2, Scale, ZeroPoint;
    var s, zp := Scale(row, sym, bits), ZeroPoint(row, sym, bits);
    QMaxPositive(sym, bits);
    InRange(row, sym, bits, i);
    ClampNear(row[i] / s + zp as real, QMin(sym, bits), QMax(sym, bits));
    ScaleError(row[i], s, zp, Quantized(row, sym, bits, i));
  }

  // ---- What the parameters are ----------------------------------------------------------------

  /** A width of `bits` has as many values as it should, and in symmetric mode one more below zero than above. */
  lemma {:induction false} RangeIs(bits: nat)
    requires bits >= 1
    ensures QMax(true, bits) - QMin(true, bits) + 1 == Pow2(bits) && QMin(true, bits) == -QMax(true, bits) - 1
    ensures QMin(false, bits) == 0 && QMax(false, bits) + 1 == Pow2(bits)
    ensures QMin(true, 8) == -128 && QMax(true, 8) == 127 && QMin(false, 8) == 0 && QMax(false, 8) == 255
  {
    Pow2Small();
    Pow2Next(bits - 1);
  }

  /** The row spans a range: from the least to the greatest entry, or twice the greatest distance from zero. */
  ghost predicate Spans(row: seq<real>, sym: bool, range: real) {
    if sym then
      && (forall i :: 0 <= i < |row| ==> -range <= row[i] <= range)
      && (exists i :: 0 <= i < |row| && (row[i] == range || row[i] == -range))
    else
      && (forall i, j :: 0 <= i < |row| && 0 <= j < |row| ==> row[j] - row[i] <= range)
      && (exists i, j :: 0 <= i < |row| && 0 <= j < |row| && row[j] - row[i] == range)
  }

  lemma {:induction false} RangeSpans(row: seq<real>, sym: bool)
    requires row != []
    ensures Spans(row, sym, RangeOf(row, sym)) && RangeOf(row, sym) >= 0.0
  {
    hide MinOf, MaxOf;
    var lo, hi := MinOf(row), MaxOf(row);
    var i :| 0 <= i < |row| && row[i] == lo;
    var j :| 0 <= j < |row| && row[j] == hi;
    assert row[i] <= row[j];
    assert sym ==> row[i] == -RangeOf(row, true) || row[j] == RangeOf(row, true);
  }

  lemma {:induction false} SpansUnique(row: seq<real>, sym: bool, range: real, range': real)
    requires Spans(row, sym, range) && Spans(row, sym, range')
    ensures range == range'
  {
    if sym {
      var i :| 0 <= i < |row| && (row[i] == range || row[i] == -range);
      var j :| 0 <= j < |row| && (row[j] == range' || row[j] == -range');
    } else {
      var i, j :| 0 <= i < |row| && 0 <= j < |row| && row[j] - row[i] == range;
      var i', j' :| 0 <= i' < |row| && 0 <= j' < |row| && row[j'] - row[i'] == range';
    }
  }

  /** The scale is tight: it is the floor, or the range of the row is exactly `qmax` scales; in any case the range is at
      most that, and every scale from the floor on that covers the range is as large. */
  lemma {:induction false} ScaleTight(row: seq<real>, sym: bool, bits: nat, range: real)
    requires row != [] && bits >= 2 && Spans(row, sym, range)
    ensures var s, q := Scale(row, sym, bits), QMax(sym, bits) as real;
            && s >= 0.00001 && range <= q * s && (s > 0.00001 ==> range == q * s)
            && (range <= q * 0.00001 ==> s == 0.00001)
  {
    hide MinOf, MaxOf, Pow2, Spans, QMax;
    RangeSpans(row, sym);
    SpansUnique(row, sym, range, RangeOf(row, sym));
    QMaxPositive(sym, bits);
    var q := QMax(sym, bits);
    ScaleCovers(range, q, Scale(row, sym, bits));
    assert range / q as real * q as real == range;
    if range <= q as real * 0.00001 {
      DivBound(range, q as real, 0.0, 0.00001);
    }
  }

  lemma {:induction false} ScaleLeast(row: seq<real>, sym: bool, bits: nat, range: real, t: real)
    requires row != [] && bits >= 2 && Spans(row, sym, range) && t >= 0.00001 && range <= QMax(sym, bits) as real * t
    ensures Scale(row, sym, bits) <= t
  {
    hide Scale, Spans, QMax;
    ScaleTight(row, sym, bits, range);
    QMaxPositive(sym, bits);
    var s, q := Scale(row, sym, bits), QMax(sym, bits) as real;
    if s > 0.00001 {
      assert (t - s) * q == q * t - q * s;
      SignOfProduct(t - s, q);
    }
  }

  /** So every entry is within `qmax` scales of zero, or of every other one, and above the floor that is reached. */
  lemma {:induction false} ScaleReached(row: seq<real>, sym: bool, bits: nat)
    requires row != [] && bits >= 2
    ensures var s := Scale(row, sym, bits);
            var top := QMax(sym, bits) as real * s;
            if sym then
              && (forall i :: 0 <= i < |row| ==> -top <= row[i] <= top)
              && (s > 0.00001 ==> exists i :: 0 <= i < |row| && (row[i] == top || row[i] == -top))
            else
              && (forall i, j :: 0 <= i < |row| && 0 <= j < |row| ==> row[j] - row[i] <= top)
              && (s > 0.00001 ==> exists i, j :: 0 <= i < |row| && 0 <= j < |row| && row[j] - row[i] == top)
  {
    hide Scale, QMax, RangeOf;
    RangeSpans(row, sym);
    ScaleTight(row, sym, bits, RangeOf(row, sym));
  }

  /** A row of zeros has the floor as its scale. */
  lemma {:induction false} ZeroRowScale(row: seq<real>, sym: bool, bits: nat)
    requires row != [] && bits >= 2 && forall i :: 0 <= i < |row| ==> row[i] == 0.0
    ensures Scale(row, sym, bits) == 0.00001
  {
    hide Scale, QMax;
    assert row[0] == 0.0 && row[0] - row[0] == 0.0;
    assert Spans(row, sym, 0.0);
    QMaxPositive(sym, bits);
    ScaleTight(row, sym, bits, 0.0);
  }

  /** The zero point is none in symmetric mode, and otherwise the integer nearest to where the least entry is. */
  lemma {:induction false} ZeroPointIs(row: seq<real>, sym: bool, bits: nat, i: nat)
    requires i < |row| && bits >= 2 && forall j :: 0 <= j < |row| ==> row[i] <= row[j]
    ensures var s, zp := Scale(row, sym, bits), ZeroPoint(row, sym, bits);
            if sym then zp == 0
            else
              && -0.5 <= zp as real + row[i] / s <= 0.5
              && (zp as real + row[i] / s == 0.5 || zp as real + row[i] / s == -0.5 ==> zp % 2 == 0)
  {
    hide Scale, Round, MinOf;
    assert MinOf(row) == row[i];
    RoundNear(row[i] / Scale(row, sym, bits));
  }

  /** A quantized value is the integer nearest to the scaled entry, and the even one of two unless that is above the
      range. */
  lemma {:induction false} QuantizedNear(row: seq<real>, sym: bool, bits: nat, i: nat)
    requires i < |row| && bits >= 2
    ensures var y := row[i] / Scale(row, sym, bits) + ZeroPoint(row, sym, bits) as real;
            var q := Quantized(row, sym, bits, i);
            && -0.5 <= q as real - y <= 0.5
            && (q as real - y == 0.5 ==> q % 2 == 0)
            && (q as real - y == -0.5 ==> q % 2 == 0 || q == QMax(sym, bits))
  {
    hide Scale, ZeroPoint, Round, Pow2;
    var y := row[i] / Scale(row, sym, bits) + ZeroPoint(row, sym, bits) as real;
    QMaxPositive(sym, bits);
    InRange(row, sym, bits, i);
    RoundNear(y);
    ClampNear(y, QMin(sym, bits), QMax(sym, bits));
    QMinEven(sym, bits);
  }

  lemma {:induction false} QMinEven(sym: bool, bits: nat)
    requires bits >= 2
    ensures QMin(sym, bits) % 2 == 0
  {
    hide Pow2;
    Pow2Next(bits - 2);
    var half: int := Pow2(bits - 2);
    assert sym ==> QMin(sym, bits) == 2 * (-half);
  }

  /** The clamp is needed: a tie at the top rounds past the range. */
  lemma {:induction false} ClampActs()
    ensures var row := [0.5, 3.5];
            && Round(row[1] / Scale(row, false, 2) + ZeroPoint(row, false, 2) as real) == QMax(false, 2) + 1
            && Quantized(row, false, 2, 1) == QMax(false, 2)
  {
    var row := [0.5, 3.5];
    assert MinOf(row) == 0.5 && MaxOf(row) == 3.5;
    assert Pow2(2) == 4;
    assert Scale(row, false, 2) == 1.0;
    assert (0.5).Floor == 0 && (3.5).Floor == 3;
  }

  // ---- The casts ----------------------------------------------------------------------------

  /** The range of the 8-bit type that the result is cast to. */
  predicate Fits8(sym: bool, q: int) {
    if sym then -128 <= q <= 127 else 0 <= q <= 255
  }

  /** A row that uses the whole range. */
  function FullRow(sym: bool, bits: nat): seq<real>
    requires bits >= 2
  {
    [0.0, QMax(sym, bits) as real]
  }

  lemma {:induction false} FullRowScale(sym: bool, bits: nat)
    requires bits >= 2
    ensures Scale(FullRow(sym, bits), sym, bits) == 1.0 && MinOf(FullRow(sym, bits)) == 0.0
  {
    hide Pow2, QMax, MinOf, MaxOf;
    var row, q := FullRow(sym, bits), QMax(sym, bits);
    QMaxPositive(sym, bits);
    ZeroAnd(q as real);
    DivSelf(q as real);
    assert Max(Abs(0.0), Abs(q as real)) == q as real;
  }

  lemma {:induction false} ZeroAnd(x: real)
    requires x >= 0.0
    ensures MinOf([0.0, x]) == 0.0 && MaxOf([0.0, x]) == x
  {
    var row := [0.0, x];
    assert row[0] == 0.0 && row[1] == x;
  }

  lemma {:induction false} DivSelf(x: real)
    requires x > 0.0
    ensures x / x == 1.0
  {
  }

  lemma {:induction false} RoundInt(q: int)
    ensures Round(q as real) == q
  {
  }

  lemma {:induction false} FullRowReachesTop(sym: bool, bits: nat)
    requires bits >= 2
    ensures Quantized(FullRow(sym, bits), sym, bits, 1) == QMax(sym, bits)
  {
    hide Pow2, Scale, Round, QMin, MinOf;
    var row, q := FullRow(sym, bits), QMax(sym, bits);
    QMaxPositive(sym, bits);
    FullRowScale(sym, bits);
    RoundInt(0);
    RoundInt(q);
    assert 0.0 / 1.0 == 0.0 && ZeroPoint(row, sym, bits) == 0;
    assert row[1] / 1.0 + 0.0 == q as real;
    QMinBelow(sym, bits);
  }

  lemma {:induction false} QMinBelow(sym: bool, bits: nat)
    requires bits >= 2
    ensures QMin(sym, bits) <= QMax(sym, bits)
  {
    QMaxPositive(sym, bits);
  }

  /** The cast to 8 bits keeps every value of every row exactly for widths up to 8. */
  lemma {:induction false} CastFitsIff(sym: bool, bits: nat)
    requires bits >= 2
    ensures (forall row: seq<real>, i: nat :: i < |row| ==> Fits8(sym, Quantized(row, sym, bits, i))) <==> bits <= 8
  {
    hide Quantized, Round;
    Pow2Small();
    FullRowReachesTop(sym, bits);
    if bits <= 8 {
      Pow2Monotone(bits, 8);
      Pow2Monotone(bits - 1, 7);
      forall row: seq<real>, i: nat | i < |row|
        ensures Fits8(sym, Quantized(row, sym, bits, i))
      {
        QuantizationError(row, sym, bits, i);
      }
    } else {
      Pow2Monotone(9, bits);
      Pow2Monotone(8, bits - 1);
      assert !Fits8(sym, Quantized(FullRow(sym, bits), sym, bits, 1));
    }
  }

  predicate FitsInt32(x: int) {
    -0x8000_0000 <= x <= 0x7fff_ffff
  }

  /** The zero point survives its 32-bit computation exactly when the least entry is fewer than
      2147483647.5 scales away from zero. */
  lemma {:induction false} ZeroPointFitsIff(row: seq<real>, bits: nat)
    requires row != [] && bits >= 2
    ensures var y := MinOf(row) / Scale(row, false, bits);
            FitsInt32(Round(y)) && FitsInt32(-1 * Round(y)) <==> -2147483647.5 < y < 2147483647.5
  {
    hide MinOf, Scale, Round, FitsInt32;
    RoundFitsIff(MinOf(row) / Scale(row, false, bits));
  }

  lemma {:induction false} RoundFitsIff(y: real)
    ensures FitsInt32(Round(y)) && FitsInt32(-1 * Round(y)) <==> -2147483647.5 < y < 2147483647.5
  {
  }

  /** A constant row of large values has the floor as its scale, and its zero point does not fit. */
  lemma {:induction false} ZeroPointOverflows()
    ensures !FitsInt32(ZeroPoint([100000.0], false, 8))
  {
    var row := [100000.0];
    assert MinOf(row) == MaxOf(row) == 100000.0;
    assert Scale(row, false, 8) == SCALE_FLOOR;
    assert 100000.0 / SCALE_FLOOR == 10000000000.0;
    assert (10000000000.0).Floor == 10000000000;
  }
}
