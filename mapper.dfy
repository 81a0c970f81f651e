/** The amplitude-to-display mapper:
    `ledsCount = map(peakToPeak, 1, ptpMax - ptpMin, 0, NUM_PIXELS)`, unclamped.

    The Arduino core's `map` is library code that is not part of this
    model. It is ASSUMED here to be the classic linear formula on 32-bit
    `long` values with C's truncating division:
    `(x - inMin) * (outMax - outMin) / (inMax - inMin) + outMin`. */
module Mapper {
  import opened U32
  import opened Sampler
  import opened Calibrator
  import opened Config

  datatype Option<T> = None | Some(value: T)

  /** The assumed formula of Arduino's `map`; undefined for an empty input range. */
  function ArduinoMap(x: int, inMin: int, inMax: int, outMin: int, outMax: int): (r: int)
    requires inMax != inMin
  {
    DivTrunc((x - inMin) * (outMax - outMin), inMax - inMin) + outMin
  }

  /** The `long` value of the calibrated span `ptpMax - ptpMin` passed as `map`'s `inMax`. */
  function Span(c: Calibration): int {
    ToSigned(Sub(c.ptpMax, c.ptpMin))
  }

  /** The LED count of one cycle, converted back to `unsigned int`; `None`
      when `map`'s input range 1..span is empty (span == 1), where the
      assumed formula divides by zero. */
  function LedsCount(peakToPeak: u32, c: Calibration): Option<u32> {
    var span := Span(c);
    if span == 1 then None
    else Some(FromSigned(ArduinoMap(ToSigned(peakToPeak), 1, span, 0, NUM_PIXELS)))
  }

  lemma MulNonNegMonotone(a: int, b: int, k: int)
    requires 0 <= a <= b && 0 <= k
    ensures 0 <= a * k <= b * k
  {
  }

  /** For a non-empty input range, the ends of the input range go to the
      ends of the output range. */
  lemma MapEndpoints(inMin: int, inMax: int, outMin: int, outMax: int)
    requires inMin != inMax
    ensures ArduinoMap(inMin, inMin, inMax, outMin, outMax) == outMin
    ensures ArduinoMap(inMax, inMin, inMax, outMin, outMax) == outMax
  {
    var d, k := inMax - inMin, outMax - outMin;
    assert Abs(d * k) == Abs(d) * Abs(k) by {
      if d < 0 && k < 0 { assert d * k == (-d) * (-k); }
      else if d < 0 { assert d * k == -((-d) * k); }
      else if k < 0 { assert d * k == -(d * (-k)); }
    }
    DivOfMultiple(Abs(d), Abs(k));
    var q := DivTrunc(d * k, d);
    assert Abs(q) == Abs(k);
    if k > 0 { assert d * k != 0 && ((d * k > 0) == (d > 0)); }
    if k < 0 { assert d * k != 0 && ((d * k > 0) != (d > 0)); }
  }

  lemma DivOfMultiple(d: nat, k: nat)
    requires d > 0
    ensures (d * k) / d == k
  {
    var q := (d * k) / d;
    var r := (d * k) % d;
    assert d * k == d * q + r && 0 <= r < d;
    assert d * (k - q) == r;
    if k - q >= 1 {
      MulNonNegMonotone(1, k - q, d);
    } else if k - q <= -1 {
      MulNonNegMonotone(1, q - k, d);
    }
  }

  /** For an increasing input range and a non-decreasing output range, an
      input inside the input range maps inside the output range. */
  lemma MapWithinRange(x: int, inMin: int, inMax: int, outMin: int, outMax: int)
    requires inMin <= x <= inMax && inMin < inMax && outMin <= outMax
    ensures outMin <= ArduinoMap(x, inMin, inMax, outMin, outMax) <= outMax
  {
    var d, k := inMax - inMin, outMax - outMin;
    MulNonNegMonotone(x - inMin, d, k);
    var n := (x - inMin) * k;
    assert 0 <= n <= d * k;
    DivOfMultiple(d, k);
    DivMonotone(n, d * k, d);
  }

  lemma DivMonotone(a: nat, b: nat, d: nat)
    requires a <= b && d > 0
    ensures a / d <= b / d
  {
    var qa, qb := a / d, b / d;
    if qa > qb {
      MulNonNegMonotone(qb + 1, qa, d);
    }
  }

  /** With a calibrated span of at least 2, the lowest counted amplitude 1
      lights no LED and an amplitude equal to the span lights all of them. */
  lemma LedsCountEndpoints(c: Calibration)
    requires Span(c) >= 2
    ensures LedsCount(1, c) == Some(0)
    ensures LedsCount(FromSigned(Span(c)), c) == Some(NUM_PIXELS as u32)
  {
    MapEndpoints(1, Span(c), 0, NUM_PIXELS);
  }

  /** An amplitude between 1 and the span lights between 0 and NUM_PIXELS LEDs. */
  lemma LedsCountWithinStrip(peakToPeak: u32, c: Calibration)
    requires Span(c) >= 2 && 1 <= peakToPeak <= Span(c)
    ensures LedsCount(peakToPeak, c).Some?
    ensures LedsCount(peakToPeak, c).value <= NUM_PIXELS
  {
    MapWithinRange(peakToPeak, 1, Span(c), 0, NUM_PIXELS);
  }

  /** The map is taken against the span, not against `ptpMin`, and its result
      is not clamped: with the range 100..200 an amplitude of 150 asks for
      9 LEDs on a strip of 6. */
  lemma LedsCountUnclamped()
    ensures LedsCount(150, Calibration(100, 200)) == Some(9)
  {
  }

  /** A wrapped-around amplitude is a negative `long`, and the negative
      LED count converts back to a huge unsigned value: a single reading
      of 500 in the range 39..41 gives 2^32 - 3144. */
  lemma LedsCountWrapsNegative()
    ensures PeakToPeak(Scan(InitialWindow, [500])) == MOD - 523
    ensures LedsCount(MOD - 523, Calibration(39, 41)) == Some(MOD - 3144)
  {
    assert [500][..0] == [];
  }

  /** `map`'s input range is empty on the very first cycle if that cycle's
      amplitude is 0 (ptpMin wraps to 2^32 - 1 and ptpMax stays 0) or the
      full-scale 1023 (ptpMin is not lowered and ptpMax becomes 1024). */
  lemma FirstCycleEmptyRange(peakToPeak: u32)
    requires peakToPeak == 0 || peakToPeak == ADC_MAX
    ensures LedsCount(peakToPeak, Calibrate(InitialCalibration, peakToPeak)) == None
  {
  }

  /** A silent start-up keeps `map`'s input range empty: after any run of
      cycles whose amplitudes are all 0, the range is (2^32 - 1, 0), whose
      span is 1, so no amplitude gets a count from the formula. */
  lemma {:induction false} SilentStartKeepsRangeEmpty(values: seq<u32>)
    requires |values| >= 1
    requires forall k :: 0 <= k < |values| ==> values[k] == 0
    ensures CalibrateAll(InitialCalibration, values) == Calibration(MAX, 0)
    ensures forall p: u32 :: LedsCount(p, CalibrateAll(InitialCalibration, values)) == None
  {
    var n := |values| - 1;
    if n == 0 {
      assert values[..n] == [];
    } else {
      assert forall k :: 0 <= k < n ==> values[..n][k] == values[k];
      SilentStartKeepsRangeEmpty(values[..n]);
    }
    assert Span(Calibration(MAX, 0)) == 1;
  }

  /** In every reachable state the `long` arithmetic inside `map` stays
      within 32 bits, so the unbounded integers of the model agree with the
      device's. */
  lemma MapFitsInLong(peakToPeak: u32, c: Calibration)
    requires Inv(c)
    requires -ADC_MAX <= ToSigned(peakToPeak) <= ADC_MAX
    ensures -ADC_MAX <= Span(c) <= ADC_MAX + 2
    ensures FitsLong((ToSigned(peakToPeak) - 1) * NUM_PIXELS)
    ensures Span(c) != 1 ==> FitsLong(ArduinoMap(ToSigned(peakToPeak), 1, Span(c), 0, NUM_PIXELS))
  {
    SpanBounds(c);
    var x := ToSigned(peakToPeak);
    var n := (x - 1) * NUM_PIXELS;
    assert -6144 <= n <= 6132;
    if Span(c) != 1 {
      var d := Span(c) - 1;
      DivAtMost(Abs(n), Abs(d));
      assert Abs(DivTrunc(n, d)) <= Abs(n);
    }
  }

  lemma SpanBounds(c: Calibration)
    requires Inv(c)
    ensures -ADC_MAX <= Span(c) <= ADC_MAX + 2
  {
    if c.ptpMin == MAX {
      assert Sub(c.ptpMax, c.ptpMin) == c.ptpMax + 1;
    } else if c.ptpMin <= c.ptpMax {
      assert Sub(c.ptpMax, c.ptpMin) == c.ptpMax - c.ptpMin;
    } else {
      assert Sub(c.ptpMax, c.ptpMin) == MOD - (c.ptpMin - c.ptpMax);
    }
  }

  lemma DivAtMost(a: nat, d: nat)
    requires d >= 1
    ensures a / d <= a
  {
    MulNonNegMonotone(1, d, a / d);
  }
}
