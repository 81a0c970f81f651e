# VU meter control loop — a Dafny model

This project models the control loop of a small LED VU meter firmware for an
Arduino-style board. Each call of the Arduino `loop()` does the following in order:

1. It reads a number of analog samples of a microphone envelope (`samplesNum` of them).
2. It keeps a running minimum and maximum over those samples and takes their difference, `peakToPeak`.
3. It widens the calibrated bounds `ptpMin`/`ptpMax` with a margin of one.
4. It maps the amplitude to a LED count with Arduino's `map`.
5. It runs a peak indicator that jumps up, is held for 550 ms, and then decays by one LED per 50 ms.
6. It repaints a six-pixel strip buffer in place from an ordered colour table.
7. It nudges `samplesNum` by one toward a 50 ms cycle.

The board is taken to be an ESP8266. The source does not name it; the pin
names `A0` and `D3` (src/main.cpp:12-14) are those of the ESP8266 core. On that
target `unsigned int`, `unsigned long` and `long` are 32 bits wide, and every
2^32 constant of the model rests on this. Every place where the code's
unsigned arithmetic can wrap around is written out modulo 2^32 (module
`U32`), as is the `unsigned int` → `long` → `unsigned int` round trip around
`map`.

Layout, one module per component:

- `u32.dfy` (`U32`): 32-bit wrap-around subtraction and addition, the signed/unsigned conversions, and C's truncating division.
- `config.dfy` (`Config`): the compile-time constants.
- `sampler.dfy` (`Sampler`): the running min/max window (`Scan`) and `peakToPeak`.
- `calibrator.dfy` (`Calibrator`): the calibration step and its reachable-state invariant.
- `mapper.dfy` (`Mapper`): the assumed formula of `map` and the LED count.
- `peak_tracker.dfy` (`PeakTracker`): Rise and Decay.
- `renderer.dfy` (`Renderer`): the per-pixel decision table.
- `governor.dfy` (`Governor`): the cycle-rate adjustment.
- `meter.dfy` (`Meter`): class `VuMeter`, whose fields are the program's globals. Its methods mirror `getGetAmplitudeMinMax`, `updateLEDs` and the parts of `loop()`. Each method is proved against the pure functions of the other modules.

The inputs of a cycle are parameters of `VuMeter.Loop`:

- The analog readings of the cycle are a sequence of values in 0..1023.
- The clock is given as three readings: `startMillis`, a single `now` for the peak tracker, and `endMillis` for the cycle time.
- The pixel library's `Darken(128)` is a parameter `darken: Color -> Color`.

Arduino's `map` is library code that is not part of this model. It is assumed to be
`(x - inMin) * (outMax - outMin) / (inMax - inMin) + outMin` on `long` values,
with C's truncating division. This assumption is stated once, in `Mapper.ArduinoMap`.

## Where the code departs from its evident intent

The model follows the code. The lemmas below show where what the code does
differs from what its own comments and guards evidently aim at:

- **Sampler.** The comments at src/main.cpp:68, 70 and 74 describe the loop as saving the maximum and the minimum level and taking the amplitude as their difference. Because of the `else if` at src/main.cpp:69, a reading that raised the maximum never lowers the minimum. A strictly rising run whose first reading is above 0 (a single reading above 0 is the shortest) therefore leaves `minValue` at 1023 (`Sampler.RisingSamplesKeepResetMin`). If its last reading is below 1023, `maxValue - minValue` wraps around to a value above 1023 (`Sampler.RisingSamplesWrap`). A cycle with no readings wraps too (`Sampler.NoSamplesWrap`). A single reading of 0 or of 1023 does not wrap; either gives an amplitude of 0.
- **Calibration.** The comment at src/main.cpp:75 says `ptpMin` and `ptpMax` track the range within which the amplitude varies, and lines 77-82 only ever lower `ptpMin` and raise `ptpMax`. Yet an amplitude of 0 sets `ptpMin` to `0 - 1`, which wraps around to 2^32 − 1 (`Calibrator.ZeroAmplitudeWrapsMin`). The next in-range amplitude then sets `ptpMin` just below itself, so the range narrows: 10..500 becomes 399..500 (`Calibrator.SilenceNarrowsRange`).
- **Mapper input range.** The margin of one at src/main.cpp:78 and 81 keeps `ptpMin` and `ptpMax` apart (`Calibrator.CalibrateKeepsInv`), but `map`'s input range at src/main.cpp:142 is 1..`ptpMax - ptpMin`. A first cycle with amplitude 0 or 1023 leaves that difference at 1. The input range 1..1 is then empty and the assumed formula divides by zero (`Mapper.FirstCycleEmptyRange`). A start-up that stays silent keeps it empty on every cycle (`Mapper.SilentStartKeepsRangeEmpty`).
- **Mapper clamping.** The commented-out lines at src/main.cpp:145-148 would "clip any spurious values" of the LED count to NUM_PIXELS. Without them the count can exceed the strip: 9 in `Mapper.LedsCountUnclamped`, and 234 on the first cycle of `Meter.FirstCycle`. A negative count wraps to a huge unsigned one (`Mapper.LedsCountWrapsNegative`). After that, no peak marker is shown (`Renderer.PeakBeyondStrip`).
- **Governor.** The start value 20 (src/main.cpp:30) and the guard `samplesNum > 10` (src/main.cpp:212) keep `samplesNum` at 10 or more. This holds only until `samplesNum++` could wrap around, after 2^32 − 20 cycles (`Governor.GovernFloor`).

## Model

| member | source | states |
|---|---|---|
| `U32.Sub` | src/main.cpp:74 | unsigned subtraction is the true difference when it does not underflow and wraps to 2^32 minus the deficit when it does |
| `U32.Add` | src/main.cpp:81 | unsigned addition (`peakToPeak + 1` here, `samplesNum++` at src/main.cpp:211) is the true sum below 2^32 and the sum minus 2^32 at or above it |
| `U32.ToSigned` | src/main.cpp:142 | the `unsigned int` arguments of `map` read as `long`: the result fits in a signed 32-bit value and is congruent to the argument modulo 2^32 |
| `U32.FromSigned` | src/main.cpp:142 | `map`'s `long` result stored in `unsigned int ledsCount`: unchanged when in 0..2^32 − 1, raised by 2^32 when negative |
| `U32.DivTrunc` | src/main.cpp:142 | C division: quotient magnitude is the floor of the magnitudes' quotient, sign is the product of the signs |
| `U32.DivTruncRemainder` | src/main.cpp:142 | C's division identity for the division inside `map`: the remainder `a - q * b` is smaller than the divisor in magnitude and is 0 or has the dividend's sign |
| `Sampler.ScanHiIsMax` | src/main.cpp:64-72 | after the sampling loop `maxValue` is the maximum of its initial value and all readings: at least each of them and equal to one of them |
| `Sampler.ScanLoIsMinOfNonRaising` | src/main.cpp:64-72 | after the loop `minValue` is the minimum of its initial value and of the readings that did not raise the running maximum; a reading that raised the maximum never lowers the minimum |
| `Sampler.ScanAppend` | src/main.cpp:65-72 | the loop's window after two runs of readings is the window after their concatenation |
| `Sampler.ScanInsideWindow` | src/main.cpp:67-71 | readings inside the current window leave both its minimum and its maximum unchanged |
| `Sampler.PeakToPeakFromReset` | src/main.cpp:74-76 | from the reset window, min/max stay in 0..1023, `peakToPeak <= 1023` iff min <= max, and as a `long` it is exactly max − min |
| `Sampler.NoSamplesWrap` | src/main.cpp:64-74 | with zero readings `peakToPeak` is 2^32 − 1023, outside the calibration guard |
| `Sampler.RisingSamplesKeepResetMin` | src/main.cpp:65-72 | a strictly rising run of readings starting above 0 leaves `minValue` at 1023 and `maxValue` at the last reading |
| `Sampler.RisingSamplesWrap` | src/main.cpp:65-74 | such a run ending below 1023 yields a wrapped `peakToPeak` greater than 1023 |
| `Calibrator.CalibrateGuard` | src/main.cpp:76-83 | the calibration changes only for a `peakToPeak` in 0..1023 that lies beyond one of the bounds |
| `Calibrator.FirstCalibration` | src/main.cpp:27-28 | from the start-up range (1023, 0) a first amplitude of 40 gives (39, 41) |
| `Calibrator.CalibrateWidens` | src/main.cpp:76-83 | for an amplitude in 1..1023 `ptpMin` never increases, `ptpMax` never decreases, the range then contains the amplitude, and distinct bounds become strictly ordered |
| `Calibrator.SeparatedStaysSeparated` | src/main.cpp:76-83 | once `ptpMin < ptpMax`, every run of cycles with non-zero amplitudes keeps it so and only widens the range |
| `Calibrator.ZeroAmplitudeWrapsMin` | src/main.cpp:77-79 | an amplitude of 0 below a positive `ptpMin` sets `ptpMin` to the wrapped 2^32 − 1 and leaves `ptpMax` alone |
| `Calibrator.SilenceNarrowsRange` | src/main.cpp:76-83 | after a silent cycle, the range 10..500 becomes 399..500 on the next amplitude of 400 |
| `Calibrator.CalibrateKeepsInv` | src/main.cpp:76-83 | every cycle keeps `ptpMax <= 1024`, `ptpMin` in 0..1023 or 2^32 − 1, and `ptpMin != ptpMax` |
| `Mapper.MapEndpoints` | src/main.cpp:142 | under the assumed formula, `inMin` maps to `outMin` and `inMax` maps to `outMax` |
| `Mapper.MapWithinRange` | src/main.cpp:142 | under the assumed formula, an input inside an increasing input range maps inside the output range |
| `Mapper.LedsCountEndpoints` | src/main.cpp:142 | with a span of at least 2, amplitude 1 lights 0 LEDs and amplitude equal to the span lights NUM_PIXELS |
| `Mapper.LedsCountWithinStrip` | src/main.cpp:142 | an amplitude between 1 and the span gives a defined LED count of at most NUM_PIXELS |
| `Mapper.LedsCountUnclamped` | src/main.cpp:142-148 | without the clamp, amplitude 150 in the range 100..200 gives 9 LEDs on a 6-pixel strip |
| `Mapper.LedsCountWrapsNegative` | src/main.cpp:142 | a single reading of 500 gives a wrapped amplitude whose negative LED count converts to 2^32 − 3144 |
| `Mapper.FirstCycleEmptyRange` | src/main.cpp:142 | on the first cycle an amplitude of 0 or 1023 leaves `map` with an empty input range |
| `Mapper.SilentStartKeepsRangeEmpty` | src/main.cpp:76-83 | after any run of silent cycles from start-up, the range is (2^32 − 1, 0), `map`'s input range is empty, and no amplitude gets a count from the formula |
| `Mapper.MapFitsInLong` | src/main.cpp:142 | in every reachable calibration state the span lies in −1023..1025 and the `long` arithmetic of `map` cannot overflow |
| `PeakTracker.TrackStep` | src/main.cpp:151-168 | Rise sets the peak to exactly the LED count, restarts the hold timer, keeps the decrement timer and preempts that cycle's decay. Otherwise the peak drops by exactly one, and the decrement timer restarts, iff the hold has expired, the peak is positive and the interval has passed; nothing else changes. The peak ends at or above the LED count |
| `PeakTracker.DecayRate` | src/main.cpp:162-168 | over cycles without a Rise and with a non-wrapping clock, the peak never rises, drops at most once per cycle, and drops by d only if at least 50·(d−1) ms elapse |
| `PeakTracker.DecayScenario` | src/main.cpp:162-168 | a peak of 5 set at 1000 ms drops by exactly three over cycles at 1550, 1600 and 1650 ms |
| `Renderer.MarkerIff` | src/main.cpp:98-99 | a pixel gets the peak marker iff its index is `peakCount − 1`; with `peakCount = 0` no pixel does |
| `Renderer.GreenIff` | src/main.cpp:104-106 | a pixel is green iff it is below 3, below `ledsCount` and below the marker |
| `Renderer.YellowIff` | src/main.cpp:107-108 | a pixel is yellow iff it is in 3..4, below `ledsCount` and below the marker |
| `Renderer.DarkenIff` | src/main.cpp:100-117 | every other pixel, and only those, gets its own previous colour darkened |
| `Renderer.RenderScenario` | src/main.cpp:95-119 | with `ledsCount = 4` and `peakCount = 5`: green 0–2, yellow 3, marker 4, darkened 5 |
| `Renderer.PeakBeyondStrip` | src/main.cpp:95-119 | with both counts past the strip, no marker is shown and every pixel is painted green, yellow or darkened as lit |
| `Governor.GovernStep` | src/main.cpp:210-214 | `samplesNum` grows by one iff the cycle was under 50 ms (short of wrapping), shrinks by one iff it was over 50 ms with `samplesNum > 10`, is unchanged at exactly 50 ms, keeps the floor of 10, and wraps to 0 from 2^32 − 1 |
| `Governor.GovernFloor` | src/main.cpp:210-214 | from the initial 20, after k cycles (k < 2^32 − 20) `samplesNum` lies in 10..20+k |
| `Governor.GovernKeepsFloor` | src/main.cpp:210-214 | the same bound as a one-cycle invariant step |
| `Meter.VuMeter.constructor` | src/main.cpp:25-35 | the start-up values of the globals; the strip buffer is taken to start dark (see "Left out") |
| `Meter.VuMeter.GetAmplitudeMinMax` | src/main.cpp:64-91 | the loop's window equals `Scan` of the readings, the returned amplitude is its `peakToPeak`, the calibration is one `Calibrate` step, and the window is reset to (1023, 0) |
| `Meter.VuMeter.TrackPeak` | src/main.cpp:151-168 | the tracker fields become `Track` of their old values; the peak ends at or above the LED count |
| `Meter.VuMeter.UpdateLeds` | src/main.cpp:95-119 | each of the six pixels is rewritten from its index, the two counts and its own previous colour, by the ordered decision table |
| `Meter.VuMeter.AdjustSamplesNum` | src/main.cpp:208-214 | `samplesNum` becomes `Govern` of its old value and the cycle time |
| `Meter.VuMeter.Loop` | src/main.cpp:126-215 | one cycle composes sampler, calibrator, mapper, tracker, renderer and governor. It keeps the invariant (window reset, calibration reachable, `samplesNum >= 10` before the wrap). The LED count is the formula's when `map`'s input range is non-empty and the library's empty-range result otherwise; the peak, the strip and `samplesNum` then follow from that count |
| `Meter.FirstCycle` | src/main.cpp:126-215 | the first cycle after start-up, with its 20 readings 500, 520, 480, 510 and then 510 sixteen times, run through `VuMeter.Loop`: amplitude 40, range 39..41, 234 LEDs, a peak of 234, green on pixels 0-2, yellow on 3-4, pixel 5 darkened, and `samplesNum` governed from 20 |

## Left out

- Serial diagnostics (src/main.cpp:136-139, 157-160, 180-201) and `setup`: output only; they do not affect control flow.
- `strip.Show()` and the NeoPixelBus driver: only the in-memory pixel buffer is modelled.
- `analogRead` and `millis()`: they are inputs of `VuMeter.Loop`, not modelled devices.
- `Darken(128)`: the pixel library's method is a parameter of unknown behaviour.
- Arduino `map`: its body is library code. The linear formula with truncating division is an assumption, and it is undefined for an empty input range.
- Meter.VuMeter.Loop: what the library's `map` returns for an empty input range is not modelled. It is the parameter `emptyRangeResult`, any `long` value, and the rest of the cycle runs on with it. A core whose `map` traps on the division by zero is not captured.
- Meter.VuMeter.constructor: that the pixel buffer starts dark is an assumption about the NeoPixelBus library, whose constructor is not part of this model; `setup` (src/main.cpp:43-53) does not initialise the strip.
- Other boards: on a board whose `unsigned int` is 16 bits wide the wrap-around constants of `U32` do not apply.
- Meter.VuMeter.Loop: the several `millis()` calls inside one cycle (src/main.cpp:153, 163, 164, 166) are one reading, `now`. On the device they may differ by a millisecond.
- The floating-point `round(NUM_PIXELS * 0.5/0.8)` of src/main.cpp:37-38: the compile-time results 3 and 5 are used.
- Dead code: the FastLED lines and the logarithmic scaling line (src/main.cpp:22, 49-52, 143).
