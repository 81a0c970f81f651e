/** Compile-time configuration of the meter. */
module Config {
  /** Length of the LED strip. */
  const NUM_PIXELS: int := 6
  /** Target cycle rate in Hz (a 50 ms cycle). */
  const CYCLERATE: int := 20
  /** How long the peak indicator is held, in ms. */
  const PEAKHOLDPERIOD: int := 600
  /** The pace at which the peak indicator decays, in ms per LED. */
  const PEAKDECREMENTINTERVAL: int := 50
  /** `round(NUM_PIXELS * 0.5)` and `round(NUM_PIXELS * 0.8)` for six pixels. */
  const GREEN_TOP: int := 3
  const YELLOW_TOP: int := 5
}
