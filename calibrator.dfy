/** The auto-range calibrator: the long-lived bounds `ptpMin`/`ptpMax` of
    the peak-to-peak amplitude, widened with a margin of one. */
module Calibrator {
  import opened U32
  import opened Sampler

  datatype Calibration = Calibration(ptpMin: u32, ptpMax: u32)

  /** The deliberately inverted start-up range. */
  const InitialCalibration: Calibration := Calibration(ADC_MAX, 0)

  /** The calibration step of one cycle, in unsigned arithmetic. Only a
      peak-to-peak value in 0..1023 is considered; a bound it lies beyond
      is moved to one past it. */
  function Calibrate(c: Calibration, peakToPeak: u32): Calibration {
    if peakToPeak <= ADC_MAX then
      Calibration(
        if c.ptpMin > peakToPeak then Sub(peakToPeak, 1) else c.ptpMin,
        if c.ptpMax < peakToPeak then Add(peakToPeak, 1) else c.ptpMax)
    else c
  }

  /** What holds of the calibration in every reachable state: the upper
      bound is at most 1024, the lower bound is 0..1023 or the wrapped
      value 2^32 - 1, and the two bounds are never equal. */
  ghost predicate Inv(c: Calibration) {
    && c.ptpMax <= ADC_MAX + 1
    && (c.ptpMin <= ADC_MAX || c.ptpMin == MAX)
    && c.ptpMin != c.ptpMax
  }

  /** A cycle changes the calibration only if its peak-to-peak value lies
      in 0..1023 and beyond one of the bounds. */
  lemma CalibrateGuard(c: Calibration, peakToPeak: u32)
    ensures Calibrate(c, peakToPeak) != c
        ==> peakToPeak <= ADC_MAX && (c.ptpMin > peakToPeak || c.ptpMax < peakToPeak)
  {
  }

  /** From the start-up range, a first peak-to-peak value of 40 gives the range 39..41. */
  lemma FirstCalibration()
    ensures Calibrate(InitialCalibration, 40) == Calibration(39, 41)
  {
  }

  /** For an in-range value of at least 1 the range only widens, and
      afterwards it contains that value; it is strictly non-empty unless
      both bounds already sat on that value. */
  lemma CalibrateWidens(c: Calibration, peakToPeak: u32)
    requires 1 <= peakToPeak <= ADC_MAX
    ensures Calibrate(c, peakToPeak).ptpMin <= c.ptpMin
    ensures Calibrate(c, peakToPeak).ptpMax >= c.ptpMax
    ensures Calibrate(c, peakToPeak).ptpMin <= peakToPeak <= Calibrate(c, peakToPeak).ptpMax
    ensures c.ptpMin != c.ptpMax ==> Calibrate(c, peakToPeak).ptpMin < Calibrate(c, peakToPeak).ptpMax
  {
  }

  /** The calibration after a run of cycles with the given peak-to-peak values. */
  function CalibrateAll(c: Calibration, values: seq<u32>): Calibration
    decreases |values|
  {
    if values == [] then c
    else Calibrate(CalibrateAll(c, values[..|values| - 1]), values[|values| - 1])
  }

  /** Once `ptpMin < ptpMax`, it stays so through every cycle whose
      peak-to-peak value is not 0. */
  lemma {:induction false} SeparatedStaysSeparated(c: Calibration, values: seq<u32>)
    requires c.ptpMin < c.ptpMax
    requires forall k :: 0 <= k < |values| ==> values[k] != 0
    ensures CalibrateAll(c, values).ptpMin < CalibrateAll(c, values).ptpMax
    ensures CalibrateAll(c, values).ptpMin <= c.ptpMin
    ensures CalibrateAll(c, values).ptpMax >= c.ptpMax
  {
    if values != [] {
      var n := |values| - 1;
      SeparatedStaysSeparated(c, values[..n]);
      var mid := CalibrateAll(c, values[..n]);
      if values[n] <= ADC_MAX {
        CalibrateWidens(mid, values[n]);
      }
    }
  }

  /** A peak-to-peak value of 0 below a positive `ptpMin` sets `ptpMin` to
      `0 - 1`, which wraps around to the largest unsigned value. */
  lemma ZeroAmplitudeWrapsMin(c: Calibration)
    requires c.ptpMin > 0
    ensures Calibrate(c, 0) == Calibration(MAX, c.ptpMax)
  {
  }

  /** In consequence the range is not widen-only when read as signed
      numbers: after a silent cycle the next in-range value resets
      `ptpMin` just below itself, so 10..500 becomes 399..500. */
  lemma SilenceNarrowsRange()
    ensures CalibrateAll(Calibration(10, 500), [0, 400]) == Calibration(399, 500)
  {
    assert [0, 400][..1] == [0];
    assert [0][..0] == [];
  }

  /** Every cycle keeps the reachable-state invariant. */
  lemma CalibrateKeepsInv(c: Calibration, peakToPeak: u32)
    requires Inv(c)
    ensures Inv(Calibrate(c, peakToPeak))
  {
    if 1 <= peakToPeak <= ADC_MAX {
      CalibrateWidens(c, peakToPeak);
    }
  }
}
