/** The meter's control loop: the program's globals as the fields of one
    object, and one call of `Loop` per iteration of the Arduino `loop()`.
    The analog input becomes the sequence of readings of the cycle, the
    millisecond clock becomes the readings `startMillis`, `now` and
    `endMillis`, and the strip's pixel buffer is an array of colours. */
module Meter {
  import opened U32
  import opened Config
  import opened Sampler
  import opened Calibrator
  import opened Mapper
  import opened PeakTracker
  import opened Renderer
  import opened Governor

  /** What `getGetAmplitudeMinMax` returns. */
  datatype PeakValues = PeakValues(peakToPeak: u32, ptpMin: u32, ptpMax: u32)

  /** What one cycle computed: the amplitude and the LED count. */
  datatype Outcome = Outcome(peakToPeak: u32, ledsCount: u32)

  class VuMeter {
    var minValue: u32
    var maxValue: u32
    var ptpMin: u32
    var ptpMax: u32
    var samplesNum: u32
    var peakCount: u32
    var peakHoldStartTime: u32
    var peakDecrementIntervalStartTime: u32

    /** The strip's pixel buffer. */
    const strip: array<Color>

    /** Number of completed calls of `Loop`. */
    ghost var cycles: nat

    function AmplitudeWindow(): Window reads this {
      Sampler.Window(minValue, maxValue)
    }

    function Cal(): Calibration reads this {
      Calibration(ptpMin, ptpMax)
    }

    function Peak(): PeakState reads this {
      PeakState(peakCount, peakHoldStartTime, peakDecrementIntervalStartTime)
    }

    /** Between cycles: the window is reset, the calibration is in a
        reachable state, and samplesNum is at least 10 (until 2^32 - 20
        cycles could have wrapped it around). */
    ghost predicate Valid() reads this {
      && strip.Length == NUM_PIXELS
      && AmplitudeWindow() == InitialWindow
      && Calibrator.Inv(Cal())
      && samplesNum <= INITIAL_SAMPLES + cycles
      && (INITIAL_SAMPLES + cycles < MOD ==> samplesNum >= MIN_SAMPLES)
    }

    /** The start-up state of the globals. The pixel buffer is taken to start
        dark; the pixel library's constructor is not part of this model. */
    constructor ()
      ensures Valid() && fresh(strip) && cycles == 0
      ensures Cal() == InitialCalibration
      ensures samplesNum == INITIAL_SAMPLES
      ensures Peak() == PeakState(0, 0, 0)
      ensures forall j :: 0 <= j < NUM_PIXELS ==> strip[j] == Black
    {
      minValue, maxValue := ADC_MAX, 0;
      ptpMin, ptpMax := ADC_MAX, 0;
      samplesNum := INITIAL_SAMPLES;
      peakCount := 0;
      peakHoldStartTime, peakDecrementIntervalStartTime := 0, 0;
      strip := new Color[NUM_PIXELS](_ => Black);
      cycles := 0;
    }

    /** The sampler and the calibrator: `n` readings through the running
        min/max window, the peak-to-peak amplitude, the calibration step,
        and the reset of the window. */
    method GetAmplitudeMinMax(n: u32, samples: seq<Reading>) returns (values: PeakValues)
      requires |samples| == n
      modifies this`minValue, this`maxValue, this`ptpMin, this`ptpMax
      ensures values.peakToPeak == PeakToPeak(Scan(old(AmplitudeWindow()), samples))
      ensures Cal() == Calibrate(old(Cal()), values.peakToPeak)
      ensures values.ptpMin == ptpMin && values.ptpMax == ptpMax
      ensures AmplitudeWindow() == InitialWindow
    {
      var i: u32 := 0;
      while i < n
        invariant i <= n
        invariant AmplitudeWindow() == Scan(old(AmplitudeWindow()), samples[..i])
        invariant Cal() == old(Cal())
      {
        var sample := samples[i];
        if sample > maxValue {
          maxValue := sample;
        } else if sample < minValue {
          minValue := sample;
        }
        assert samples[..i + 1][..i] == samples[..i];
        i := i + 1;
      }
      assert samples[..n] == samples;
      var peakToPeak := Sub(maxValue, minValue);
      if peakToPeak >= 0 && peakToPeak <= ADC_MAX {
        if ptpMin > peakToPeak {
          ptpMin := Sub(peakToPeak, 1);
        }
        if ptpMax < peakToPeak {
          ptpMax := Add(peakToPeak, 1);
        }
      }
      minValue := ADC_MAX;
      maxValue := 0;
      values := PeakValues(peakToPeak, ptpMin, ptpMax);
    }

    /** The peak tracker of one cycle, with one clock reading `now`. */
    method TrackPeak(ledsCount: u32, now: u32)
      modifies this`peakCount, this`peakHoldStartTime, this`peakDecrementIntervalStartTime
      ensures Peak() == Track(old(Peak()), ledsCount, now)
      ensures peakCount >= ledsCount
    {
      if ledsCount >= peakCount {
        peakCount := ledsCount;
        peakHoldStartTime := now;
      }
      if Sub(now, peakHoldStartTime) >= HOLD && peakCount > 0 {
        if Sub(now, peakDecrementIntervalStartTime) >= PEAKDECREMENTINTERVAL {
          peakCount := peakCount - 1;
          peakDecrementIntervalStartTime := now;
        }
      }
      TrackStep(old(Peak()), ledsCount, now);
    }

    /** `updateLEDs`: every pixel of the buffer is rewritten in place, its
        new colour a function of its index, the two counts and its own
        previous colour only. */
    method UpdateLeds(peak: u32, leds: u32, darken: Color -> Color)
      requires strip.Length == NUM_PIXELS
      modifies strip
      ensures forall j :: 0 <= j < NUM_PIXELS ==> strip[j] == PixelColor(j, peak, leds, old(strip[j]), darken)
    {
      var j: u32 := 0;
      while j < NUM_PIXELS
        invariant j <= NUM_PIXELS
        invariant forall k :: 0 <= k < j ==> strip[k] == PixelColor(k, peak, leds, old(strip[k]), darken)
        invariant forall k :: j <= k < NUM_PIXELS ==> strip[k] == old(strip[k])
      {
        if j == Sub(peak, 1) {
          strip[j] := PeakMarkerColor;
        } else if j >= peak {
          var color := strip[j];
          strip[j] := darken(color);
        } else if j < leds {
          if j < GREEN_TOP {
            strip[j] := Green;
          } else if j >= GREEN_TOP && j < YELLOW_TOP {
            strip[j] := Yellow;
          } else {
            var color := strip[j];
            strip[j] := darken(color);
          }
        } else {
          var color := strip[j];
          strip[j] := darken(color);
        }
        j := j + 1;
      }
    }

    /** The cycle-rate governor. */
    method AdjustSamplesNum(cycleTime: u32)
      modifies this`samplesNum
      ensures samplesNum == Govern(old(samplesNum), cycleTime)
    {
      if cycleTime < TARGET_MS {
        samplesNum := Add(samplesNum, 1);
      } else if samplesNum > MIN_SAMPLES && cycleTime > TARGET_MS {
        samplesNum := samplesNum - 1;
      }
    }

    /** One iteration of `loop()`: sample and calibrate, map the amplitude
        to a LED count, track the peak, repaint the strip, and adjust the
        sample count from the cycle time `endMillis - startMillis`. What the
        library's `map` returns for an empty input range is not known here;
        it is the parameter `emptyRangeResult`. */
    method Loop(samples: seq<Reading>, startMillis: u32, now: u32, endMillis: u32,
                darken: Color -> Color, emptyRangeResult: int)
      returns (outcome: Outcome)
      requires Valid()
      requires |samples| == samplesNum
      requires FitsLong(emptyRangeResult)
      modifies this, strip
      ensures Valid() && cycles == old(cycles) + 1
      ensures outcome.peakToPeak == PeakToPeak(Scan(InitialWindow, samples))
      ensures Cal() == Calibrate(old(Cal()), outcome.peakToPeak)
      ensures LedsCount(outcome.peakToPeak, Cal()).Some? ==>
        outcome.ledsCount == LedsCount(outcome.peakToPeak, Cal()).value
      ensures LedsCount(outcome.peakToPeak, Cal()).None? ==>
        outcome.ledsCount == FromSigned(emptyRangeResult)
      ensures Peak() == Track(old(Peak()), outcome.ledsCount, now)
      ensures peakCount >= outcome.ledsCount
      ensures forall j :: 0 <= j < NUM_PIXELS ==>
        strip[j] == PixelColor(j, peakCount, outcome.ledsCount, old(strip[j]), darken)
      ensures samplesNum == Govern(old(samplesNum), Sub(endMillis, startMillis))
    {
      var values := GetAmplitudeMinMax(samplesNum, samples);
      var peakToPeak := values.peakToPeak;
      CalibrateKeepsInv(old(Cal()), peakToPeak);
      PeakToPeakFromReset(samples);
      MapFitsInLong(peakToPeak, Cal());

      var span := ToSigned(Sub(values.ptpMax, values.ptpMin));
      var mapped := if span == 1 then emptyRangeResult
                    else ArduinoMap(ToSigned(peakToPeak), 1, span, 0, NUM_PIXELS);
      var ledsCount := FromSigned(mapped);

      TrackPeak(ledsCount, now);
      UpdateLeds(peakCount, ledsCount, darken);

      var cycleTime := Sub(endMillis, startMillis);
      minValue := ADC_MAX;
      maxValue := 0;
      GovernKeepsFloor(samplesNum, cycleTime, cycles);
      AdjustSamplesNum(cycleTime);
      cycles := cycles + 1;
      outcome := Outcome(peakToPeak, ledsCount);
    }
  }

  /** The first cycle from start-up, with its 20 readings 500, 520, 480,
      510 and then 510 sixteen times: the amplitude is 40, the range becomes
      39..41, `map(40, 1, 2, 0, 6)` asks for 234 LEDs, which the peak follows
      at once, and the strip shows green on pixels 0-2, yellow on 3-4, and
      the darkened start-up colour on pixel 5. */
  method FirstCycle(startMillis: u32, now: u32, endMillis: u32,
                    darken: Color -> Color, emptyRangeResult: int)
    returns (meter: VuMeter, outcome: Outcome)
    requires FitsLong(emptyRangeResult)
    ensures outcome == Outcome(40, 234)
    ensures meter.Cal() == Calibration(39, 41)
    ensures meter.Peak() == PeakState(234, now, 0)
    ensures meter.strip.Length == NUM_PIXELS
    ensures forall j :: 0 <= j < GREEN_TOP ==> meter.strip[j] == Green
    ensures forall j :: GREEN_TOP <= j < YELLOW_TOP ==> meter.strip[j] == Yellow
    ensures meter.strip[5] == darken(Black)
    ensures meter.samplesNum == Govern(INITIAL_SAMPLES, Sub(endMillis, startMillis))
  {
    var first: seq<Reading> := [500, 520, 480, 510];
    var rest: seq<Reading> := seq(16, _ => 510);
    assert [500][..0] == [];
    assert Scan(InitialWindow, [500]) == Sampler.Window(1023, 500);
    assert [500, 520][..1] == [500];
    assert Scan(InitialWindow, [500, 520]) == Sampler.Window(1023, 520);
    assert first[..3] == [500, 520, 480] && [500, 520, 480][..2] == [500, 520];
    assert Scan(InitialWindow, first[..3]) == Sampler.Window(480, 520);
    assert Scan(InitialWindow, first) == Sampler.Window(480, 520);
    ScanInsideWindow(Sampler.Window(480, 520), rest);
    ScanAppend(InitialWindow, first, rest);
    assert LedsCount(40, Calibration(39, 41)) == Some(234);

    meter := new VuMeter();
    outcome := meter.Loop(first + rest, startMillis, now, endMillis, darken, emptyRangeResult);
  }
}
