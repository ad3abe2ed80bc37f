/** Choosing the first compare value of a waveform from the tracked level and the counter. */
module Arming {
  import opened Arith
  import opened ToggleEngine

  /** A compare value fires this many ART cycles late. */
  const HW_DELAY_CYCLES: int := 2

  /** The compare for an edge: its time less the delay, while that stays positive. */
  function WithoutDelay(art: u64): u64 {
    if art > HW_DELAY_CYCLES then art - HW_DELAY_CYCLES else art
  }

  predicate BadCycles(high: u64, low: u64) {
    high == 0 || low == 0 || high > U64_MAX / 4 || low > U64_MAX / 4
  }

  /** A tracked-high line must fall first: one low time before the requested rise, or one high time after it. */
  function SlotCompare(requested: u64, high: u64, low: u64, flopHigh: bool): int {
    if !flopHigh then requested
    else if requested > low then requested - low
    else requested + high
  }

  /** Push a compare that is already due forward by whole periods. */
  function PushPast(first: u64, deadline: u64, period: u64): Result<u64>
    requires 0 < period
  {
    if first >= deadline then Ok(first)
    else
      var periods := (deadline - first) / period + 1;
      if periods > (U64_MAX - first) / period then Err(OutOfRange)
      else
        PushFits(first, deadline, period);
        Ok(first + periods * period)
  }

  lemma PushFits(first: u64, deadline: u64, period: u64)
    requires 0 < period && first < deadline
    ensures var periods := (deadline - first) / period + 1;
            && (periods > (U64_MAX - first) / period <==> first + periods * period > U64_MAX)
            && 0 < periods * period
            && deadline < first + periods * period <= deadline + period
  {
    var periods := (deadline - first) / period + 1;
    DivBounds(deadline - first, period);
    DivBounds(U64_MAX - first, period);
    if periods > (U64_MAX - first) / period {
      MulLe((U64_MAX - first) / period + 1, periods, period);
    } else {
      MulLe(periods, (U64_MAX - first) / period, period);
    }
  }

  /** When the first rise comes, given the level the first toggle starts from. */
  function FirstRise(compare: int, low: int, flopHigh: bool): int {
    if flopHigh then compare + low else compare
  }

  /**
   * Main result: for either level, both slots and any push, the first rise is on the requested grid
   * and the first toggle is not due yet; a pushed one is at most a period past the deadline.
   */
  lemma ArmedOnGrid(requested: u64, high: u64, low: u64, flopHigh: bool, deadline: u64)
    requires 0 < high <= U64_MAX / 4 && 0 < low <= U64_MAX / 4
    requires PushPast(SlotCompare(requested, high, low, flopHigh), deadline, high + low).Ok?
    ensures var first := SlotCompare(requested, high, low, flopHigh);
            var compare := PushPast(first, deadline, high + low).value;
            && deadline <= compare
            && (compare != first ==> deadline < compare <= deadline + high + low)
            && (FirstRise(compare, low, flopHigh) - requested) % (high + low) == 0
  {
    hide PushPast;
    var first := SlotCompare(requested, high, low, flopHigh);
    var k := PushedBy(first, deadline, high + low);
    var slot := if flopHigh && requested <= low then 1 else 0;
    MulStep(slot + k, high + low);
    assert FirstRise(first + k * (high + low), low, flopHigh) - requested == (slot + k) * (high + low);
    DivAddMultiple(0, slot + k, high + low);
  }

  lemma PushedBy(first: u64, deadline: u64, period: u64) returns (k: nat)
    requires 0 < period && PushPast(first, deadline, period).Ok?
    ensures var compare := PushPast(first, deadline, period).value;
            && compare == first + k * period && deadline <= compare
            && (compare != first ==> deadline < compare <= deadline + period)
  {
    k := 0;
    if first < deadline {
      PushFits(first, deadline, period);
      k := (deadline - first) / period + 1;
    }
  }

  /** The push fails exactly when the first slot past the deadline does not fit the counter. */
  lemma PushFailsExactly(first: u64, deadline: u64, period: u64)
    requires 0 < period
    ensures PushPast(first, deadline, period).Err? <==>
              first < deadline && first + ((deadline - first) / period + 1) * period > U64_MAX
  {
    if first < deadline {
      PushFits(first, deadline, period);
    }
  }

  /**
   * Right after arming a symmetric waveform, rises are on the requested grid, or half a period off
   * if the tracked level was wrong.
   */
  lemma StartFollowsMirror(e: Engine, flopHigh: bool, requested: u64, half: u64, deadline: u64)
    requires 0 < half <= U64_MAX / 4 && e.piv == half
    requires PushPast(SlotCompare(requested, half, half, flopHigh), deadline, half + half) == Ok(e.compv)
    ensures e.OnGrid(if e.flop == flopHigh then requested else requested + half, half)
  {
    ArmedOnGrid(requested, half, half, flopHigh, deadline);
    assert half + half == 2 * half;
    if e.flop != flopHigh {
      var shift := if e.flop then 0 else -1;
      assert e.NextRise() - (requested + half) == FirstRise(e.compv, half, flopHigh) - requested + shift * (2 * half);
      DivAddMultiple(FirstRise(e.compv, half, flopHigh) - requested, shift, 2 * half);
    }
  }
}
