/** The peak indicator tracker: `peakCount` jumps up to the LED count at
    once, is held, and then decays by one LED at a time. */
module PeakTracker {
  import opened U32
  import opened Config

  /** How long a new peak is held before it starts to decay. */
  const HOLD: int := PEAKHOLDPERIOD - PEAKDECREMENTINTERVAL

  /** `peakCount`, `peakHoldStartTime` and `peakDecrementIntervalStartTime`. */
  datatype PeakState = PeakState(count: u32, holdStart: u32, decrementStart: u32)

  /** Rise: a LED count at or above the peak becomes the new peak and
      restarts the hold timer. */
  function Rise(s: PeakState, ledsCount: u32, now: u32): PeakState {
    if ledsCount >= s.count then s.(count := ledsCount, holdStart := now) else s
  }

  /** The decay condition, with the unsigned (wrap-around safe) time differences. */
  predicate DecayDue(s: PeakState, now: u32) {
    Sub(now, s.holdStart) >= HOLD && s.count > 0 && Sub(now, s.decrementStart) >= PEAKDECREMENTINTERVAL
  }

  /** Decay: once the hold has expired, at most one step down per decrement interval. */
  function Decay(s: PeakState, now: u32): PeakState {
    if Sub(now, s.holdStart) >= HOLD && s.count > 0 then
      if Sub(now, s.decrementStart) >= PEAKDECREMENTINTERVAL then
        s.(count := s.count - 1, decrementStart := now)
      else s
    else s
  }

  /** One cycle of the tracker, with a single reading of the clock. */
  function Track(s: PeakState, ledsCount: u32, now: u32): PeakState {
    Decay(Rise(s, ledsCount, now), now)
  }

  /** What one cycle does. A Rise sets the peak to exactly the LED count,
      restarts the hold timer, and leaves the decrement timer alone; it
      also preempts the decay of that cycle. Otherwise the hold timer is
      kept and the peak drops by exactly one, restarting the decrement
      timer, when the decay is due, and stays put when it is not. Either
      way the peak ends at or above the LED count, and never below 0. */
  lemma TrackStep(s: PeakState, ledsCount: u32, now: u32)
    ensures Track(s, ledsCount, now).count >= ledsCount
    ensures ledsCount >= s.count ==> Track(s, ledsCount, now) == PeakState(ledsCount, now, s.decrementStart)
    ensures ledsCount < s.count ==> Track(s, ledsCount, now).holdStart == s.holdStart
    ensures ledsCount < s.count && DecayDue(s, now)
        ==> Track(s, ledsCount, now) == s.(count := s.count - 1, decrementStart := now)
    ensures ledsCount < s.count && !DecayDue(s, now) ==> Track(s, ledsCount, now) == s
  {
  }

  /** The tracker over a run of cycles whose LED counts stay below the peak:
      only the decay acts. */
  function DecayAll(s: PeakState, times: seq<u32>): PeakState
    decreases |times|
  {
    if times == [] then s else Decay(DecayAll(s, times[..|times| - 1]), times[|times| - 1])
  }

  predicate Ordered(times: seq<u32>) {
    forall k :: 0 < k < |times| ==> times[k - 1] <= times[k]
  }

  /** Over a run of cycles without a Rise, whose clock readings do not wrap
      around, the peak never rises, drops at most once per cycle, and drops
      at most once per decrement interval: after a drop of d, at least
      50 * (d - 1) ms separate the first and the last reading. */
  lemma {:induction false} DecayRate(s: PeakState, times: seq<u32>)
    requires |times| > 0 && Ordered(times) && s.decrementStart <= times[0]
    ensures DecayAll(s, times).count <= s.count
    ensures s.count - DecayAll(s, times).count <= |times|
    ensures PEAKDECREMENTINTERVAL * (s.count as int - DecayAll(s, times).count as int - 1)
         <= times[|times| - 1] as int - times[0] as int
  {
    DecayTimer(s, times);
  }

  lemma {:induction false} DecayTimer(s: PeakState, times: seq<u32>)
    requires |times| > 0 && Ordered(times) && s.decrementStart <= times[0]
    ensures DecayAll(s, times).count <= s.count
    ensures s.count - DecayAll(s, times).count <= |times|
    ensures DecayAll(s, times).decrementStart <= times[|times| - 1]
    ensures times[0] <= times[|times| - 1]
    ensures s.count != DecayAll(s, times).count
        ==> times[0] as int + PEAKDECREMENTINTERVAL * (s.count as int - DecayAll(s, times).count as int - 1)
            <= DecayAll(s, times).decrementStart
  {
    var n := |times| - 1;
    var last := times[n];
    if n == 0 {
      assert times[..n] == [];
    } else {
      var init := times[..n];
      assert forall k :: 0 <= k < n ==> init[k] == times[k];
      DecayTimer(s, init);
      var mid := DecayAll(s, init);
      assert mid.decrementStart <= times[n - 1] <= last;
      var d: int := s.count as int - mid.count as int;
      if Decay(mid, last).count != mid.count {
        assert Sub(last, mid.decrementStart) == last - mid.decrementStart;
        if d > 0 {
          assert times[0] as int + PEAKDECREMENTINTERVAL * (d - 1) <= mid.decrementStart;
          assert times[0] as int + PEAKDECREMENTINTERVAL * d <= last;
        }
      }
    }
  }

  /** A peak of 5 set at 1000 ms with readings every 50 ms from 1550 ms on
      drops by exactly three in the cycles at 1550, 1600 and 1650 ms. */
  lemma DecayScenario()
    ensures DecayAll(PeakState(5, 1000, 0), [1100, 1549, 1550, 1600, 1650]) == PeakState(2, 1000, 1650)
  {
    var s0 := PeakState(5, 1000, 0);
    var t := [1100, 1549, 1550, 1600, 1650];
    assert DecayAll(s0, t[..1]) == s0 by { assert t[..1][..0] == []; }
    assert DecayAll(s0, t[..2]) == s0 by { assert t[..2][..1] == t[..1]; }
    assert DecayAll(s0, t[..3]) == PeakState(4, 1000, 1550) by { assert t[..3][..2] == t[..2]; }
    assert DecayAll(s0, t[..4]) == PeakState(3, 1000, 1600) by { assert t[..4][..3] == t[..3]; }
    assert t[..5] == t;
  }
}
