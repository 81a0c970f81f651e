/** The cycle-rate governor: `samplesNum` is nudged by one per cycle
    toward a cycle time of 1000 / CYCLERATE ms. */
module Governor {
  import opened U32
  import opened Config

  const TARGET_MS: int := 1000 / CYCLERATE
  const MIN_SAMPLES: int := 10
  const INITIAL_SAMPLES: int := 20

  /** The adjustment at the end of a cycle; `samplesNum++` wraps at 2^32 - 1. */
  function Govern(samplesNum: u32, cycleTime: u32): u32 {
    if cycleTime < TARGET_MS then Add(samplesNum, 1)
    else if samplesNum > MIN_SAMPLES && cycleTime > TARGET_MS then samplesNum - 1
    else samplesNum
  }

  /** One step: an increment exactly when the cycle was short (short of the
      unsigned wrap), a decrement exactly when it was long and samplesNum is
      above the floor, no change at exactly the target, and the floor of 10
      is kept. */
  lemma GovernStep(samplesNum: u32, cycleTime: u32)
    ensures Govern(samplesNum, cycleTime) == samplesNum + 1 <==> cycleTime < TARGET_MS && samplesNum < MAX
    ensures Govern(samplesNum, cycleTime) == samplesNum - 1 <==> samplesNum > MIN_SAMPLES && cycleTime > TARGET_MS
    ensures cycleTime == TARGET_MS ==> Govern(samplesNum, cycleTime) == samplesNum
    ensures MIN_SAMPLES <= samplesNum < MAX ==> Govern(samplesNum, cycleTime) >= MIN_SAMPLES
    ensures samplesNum == MAX && cycleTime < TARGET_MS ==> Govern(samplesNum, cycleTime) == 0
  {
  }

  /** samplesNum after a run of cycles with the given cycle times. */
  function GovernAll(samplesNum: u32, cycleTimes: seq<u32>): u32
    decreases |cycleTimes|
  {
    if cycleTimes == [] then samplesNum
    else Govern(GovernAll(samplesNum, cycleTimes[..|cycleTimes| - 1]), cycleTimes[|cycleTimes| - 1])
  }

  /** Starting from 20, samplesNum grows by at most one per cycle and never
      falls below 10 (so the sampler never runs with zero samples), for as
      long as the increments cannot have wrapped around. */
  lemma {:induction false} GovernFloor(cycleTimes: seq<u32>)
    requires INITIAL_SAMPLES + |cycleTimes| < MOD
    ensures MIN_SAMPLES <= GovernAll(INITIAL_SAMPLES, cycleTimes) <= INITIAL_SAMPLES + |cycleTimes|
  {
    if cycleTimes != [] {
      GovernFloor(cycleTimes[..|cycleTimes| - 1]);
    }
  }

  /** The same fact as a step of an invariant, for the running meter: a
      samplesNum bounded by 20 plus the number of cycles so far is at least
      10 unless 2^32 - 20 cycles have passed. */
  lemma GovernKeepsFloor(samplesNum: u32, cycleTime: u32, cycles: nat)
    requires samplesNum <= INITIAL_SAMPLES + cycles
    requires INITIAL_SAMPLES + cycles < MOD ==> samplesNum >= MIN_SAMPLES
    ensures Govern(samplesNum, cycleTime) <= INITIAL_SAMPLES + cycles + 1
    ensures INITIAL_SAMPLES + cycles + 1 < MOD ==> Govern(samplesNum, cycleTime) >= MIN_SAMPLES
  {
  }
}
