/** The amplitude sampler: a running minimum/maximum over one cycle's
    analog readings, and the peak-to-peak amplitude taken from it. */
module Sampler {
  import opened U32

  /** Largest value of the 10-bit analog input. */
  const ADC_MAX: int := 1023

  /** One analog reading. */
  type Reading = x: int | 0 <= x <= ADC_MAX

  /** The per-cycle window `minValue`/`maxValue`. */
  datatype Window = Window(lo: u32, hi: u32)

  /** The window at start-up and after every reset: `minValue = 1023`, `maxValue = 0`. */
  const InitialWindow: Window := Window(ADC_MAX, 0)

  /** One iteration of the sampling loop. A reading above the running
      maximum raises it; only a reading that does not may lower the
      running minimum (the `else if`). */
  function Observe(w: Window, s: Reading): Window {
    if s > w.hi then Window(w.lo, s)
    else if s < w.lo then Window(s, w.hi)
    else w
  }

  /** The window after the sampling loop has seen `samples`, in order. */
  function Scan(w: Window, samples: seq<Reading>): Window
    decreases |samples|
  {
    if samples == [] then w
    else Observe(Scan(w, samples[..|samples| - 1]), samples[|samples| - 1])
  }

  /** `maxValue - minValue` in unsigned arithmetic. */
  function PeakToPeak(w: Window): u32 {
    Sub(w.hi, w.lo)
  }

  /** The loop's maximum is the maximum of the initial `maxValue` and of
      every reading. */
  lemma {:induction false} ScanHiIsMax(w: Window, samples: seq<Reading>)
    ensures Scan(w, samples).hi >= w.hi
    ensures forall k :: 0 <= k < |samples| ==> samples[k] <= Scan(w, samples).hi
    ensures Scan(w, samples).hi == w.hi
         || exists k :: 0 <= k < |samples| && samples[k] == Scan(w, samples).hi
  {
    if samples != [] {
      var n := |samples| - 1;
      var init := samples[..n];
      ScanHiIsMax(w, init);
      assert forall k :: 0 <= k < n ==> samples[k] == init[k];
      var before := Scan(w, init).hi;
      if before != w.hi && Scan(w, samples).hi == before {
        var k :| 0 <= k < |init| && init[k] == before;
        assert samples[k] == Scan(w, samples).hi;
      }
    }
  }

  /** Scanning two runs of readings one after the other is scanning their
      concatenation: the loop's window carries over from one to the next. */
  lemma {:induction false} ScanAppend(w: Window, first: seq<Reading>, rest: seq<Reading>)
    ensures Scan(w, first + rest) == Scan(Scan(w, first), rest)
    decreases |rest|
  {
    if rest == [] {
      assert first + rest == first;
    } else {
      var n := |rest| - 1;
      ScanAppend(w, first, rest[..n]);
      assert (first + rest)[..|first + rest| - 1] == first + rest[..n];
    }
  }

  /** Readings that lie inside the current window neither raise its
      maximum nor lower its minimum. */
  lemma {:induction false} ScanInsideWindow(w: Window, samples: seq<Reading>)
    requires forall k :: 0 <= k < |samples| ==> w.lo <= samples[k] <= w.hi
    ensures Scan(w, samples) == w
    decreases |samples|
  {
    if samples != [] {
      var n := |samples| - 1;
      assert forall k :: 0 <= k < n ==> samples[..n][k] == samples[k];
      ScanInsideWindow(w, samples[..n]);
    }
  }

  /** The running maximum just before the `k`-th reading. */
  function HiBefore(w: Window, samples: seq<Reading>, k: nat): u32
    requires k <= |samples|
  {
    Scan(w, samples[..k]).hi
  }

  /** The loop's minimum is the minimum of the initial `minValue` and of
      the readings that did NOT raise the running maximum; a reading that
      raised the maximum never lowers the minimum. */
  lemma {:induction false} ScanLoIsMinOfNonRaising(w: Window, samples: seq<Reading>)
    ensures Scan(w, samples).lo <= w.lo
    ensures forall k :: 0 <= k < |samples| && samples[k] <= HiBefore(w, samples, k)
              ==> Scan(w, samples).lo <= samples[k]
    ensures Scan(w, samples).lo == w.lo
         || exists k :: 0 <= k < |samples| && samples[k] <= HiBefore(w, samples, k)
                        && samples[k] == Scan(w, samples).lo
  {
    if samples != [] {
      var n := |samples| - 1;
      var init := samples[..n];
      ScanLoIsMinOfNonRaising(w, init);
      assert samples[..n] == init;
      forall k | 0 <= k < n
        ensures samples[k] == init[k] && HiBefore(w, samples, k) == HiBefore(w, init, k)
      {
        assert samples[..k] == init[..k];
      }
      var before := Scan(w, init);
      var after := Scan(w, samples);
      if after.lo == before.lo && before.lo != w.lo {
        var k :| 0 <= k < |init| && init[k] <= HiBefore(w, init, k) && init[k] == before.lo;
        assert samples[k] <= HiBefore(w, samples, k) && samples[k] == after.lo;
      }
    }
  }

  /** From the reset window, the loop's `minValue` and `maxValue` stay
      within the ADC range, and the unsigned peak-to-peak value lies in
      0..1023 exactly when the minimum does not exceed the maximum;
      otherwise it has wrapped around. Read as a signed `long`, it is
      the true difference `maxValue - minValue`. */
  lemma PeakToPeakFromReset(samples: seq<Reading>)
    ensures Scan(InitialWindow, samples).lo <= ADC_MAX
    ensures Scan(InitialWindow, samples).hi <= ADC_MAX
    ensures PeakToPeak(Scan(InitialWindow, samples)) <= ADC_MAX
        <==> Scan(InitialWindow, samples).lo <= Scan(InitialWindow, samples).hi
    ensures ToSigned(PeakToPeak(Scan(InitialWindow, samples)))
         == Scan(InitialWindow, samples).hi - Scan(InitialWindow, samples).lo
  {
    ScanHiIsMax(InitialWindow, samples);
    ScanLoIsMinOfNonRaising(InitialWindow, samples);
  }

  /** With no readings at all (`samplesNum = 0`) the window keeps its reset
      values and the subtraction wraps around. */
  lemma NoSamplesWrap()
    ensures PeakToPeak(Scan(InitialWindow, [])) == MOD - ADC_MAX
    ensures PeakToPeak(Scan(InitialWindow, [])) > ADC_MAX
  {
  }

  /** When every reading raises the running maximum (a strictly rising run
      starting above 0, a single reading being the shortest), the minimum is
      never lowered and stays at 1023. */
  lemma {:induction false} RisingSamplesKeepResetMin(samples: seq<Reading>)
    requires |samples| > 0 && samples[0] > 0
    requires forall k :: 0 < k < |samples| ==> samples[k - 1] < samples[k]
    ensures Scan(InitialWindow, samples) == Window(ADC_MAX, samples[|samples| - 1])
  {
    var n := |samples| - 1;
    if n > 0 {
      var init := samples[..n];
      assert forall k :: 0 <= k < n ==> init[k] == samples[k];
      RisingSamplesKeepResetMin(init);
    } else {
      assert samples[..n] == [];
    }
  }

  /** Hence such a cycle yields a wrapped-around peak-to-peak value outside
      0..1023 unless its last reading is the full-scale 1023. */
  lemma RisingSamplesWrap(samples: seq<Reading>)
    requires |samples| > 0 && samples[0] > 0
    requires forall k :: 0 < k < |samples| ==> samples[k - 1] < samples[k]
    requires samples[|samples| - 1] < ADC_MAX
    ensures PeakToPeak(Scan(InitialWindow, samples)) == MOD - (ADC_MAX - samples[|samples| - 1])
    ensures PeakToPeak(Scan(InitialWindow, samples)) > ADC_MAX
  {
    RisingSamplesKeepResetMin(samples);
  }
}
