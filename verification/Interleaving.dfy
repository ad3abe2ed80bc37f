/**
 * How hardware edges interleave with register accesses: a schedule says how many edges try to fire
 * before each access, and everything a routine sees follows from it.
 */
module Interleaving {
  import opened Arith
  import opened ToggleEngine

  /** Edges that try to fire before the k-th access. */
  type Schedule = nat -> nat

  /** The engine after `at` accesses. */
  datatype Moment = Moment(engine: Engine, at: nat)

  /** A compare within its width, and a positive interval while the engine runs. */
  predicate Fits(e: Engine, live: bool) {
    0 <= e.compv < TWO64 && (live ==> 0 < e.piv)
  }

  /** At most n edges, none whose successor would not fit the counter. */
  function Burst(e: Engine, n: nat): Engine
    decreases n
  {
    if n == 0 || e.compv + e.piv >= TWO64 then e else Burst(e.Fire(), n - 1)
  }

  /** One access: the edges before it fire, if the engine runs. */
  function Tick(s: Schedule, live: bool, m: Moment): Moment {
    Moment(if live then Burst(m.engine, s(m.at)) else m.engine, m.at + 1)
  }

  function Ticks(s: Schedule, live: bool, m: Moment, n: nat): Moment {
    if n == 0 then m else Tick(s, live, Ticks(s, live, m, n - 1))
  }

  lemma {:induction false} BurstRuns(e: Engine, n: nat)
    requires Fits(e, true)
    ensures Ran(e, Burst(e, n)) && Fits(Burst(e, n), true)
    decreases n
  {
    if 0 < n && e.compv + e.piv < TWO64 {
      BurstRuns(e.Fire(), n - 1);
      OneEdgeRuns(e);
      RunsJoin(e, e.Fire(), Burst(e, n));
    } else {
      StandingStill(e);
    }
  }

  lemma OneEdgeRuns(e: Engine)
    ensures Ran(e, e.Fire())
  {
    assert e.Fires(1) == e.Fires(0).Fire();
  }

  lemma StandingStill(e: Engine)
    ensures Ran(e, e)
  {
  }

  lemma TickRuns(s: Schedule, live: bool, m: Moment)
    requires Fits(m.engine, live)
    ensures var next := Tick(s, live, m);
            && Ran(m.engine, next.engine) && Fits(next.engine, live)
            && (!live ==> next.engine == m.engine)
  {
    if live {
      BurstRuns(m.engine, s(m.at));
    } else {
      StandingStill(m.engine);
    }
  }

  lemma {:induction false} TicksRun(s: Schedule, live: bool, m: Moment, n: nat)
    requires Fits(m.engine, live)
    ensures var next := Ticks(s, live, m, n);
            && Ran(m.engine, next.engine) && Fits(next.engine, live) && next.at == m.at + n
            && (!live ==> next.engine == m.engine)
  {
    if n == 0 {
      StandingStill(m.engine);
    } else {
      TicksRun(s, live, m, n - 1);
      TickRuns(s, live, Ticks(s, live, m, n - 1));
      RunsJoin(m.engine, Ticks(s, live, m, n - 1).engine, Ticks(s, live, m, n).engine);
    }
  }

  lemma TwoTicks(s: Schedule, live: bool, m: Moment)
    ensures Ticks(s, live, m, 2) == Tick(s, live, Tick(s, live, m))
  {
    assert Ticks(s, live, m, 1) == Tick(s, live, Ticks(s, live, m, 0));
  }

  // ----- the 64-bit compare read

  /** What a read of the compare saw: the engine at its last low-word access, and where it ended. */
  datatype Reading = Reading(seen: Engine, after: Moment)

  /** High word, then low and high again until the high word repeats. */
  function Read64(s: Schedule, live: bool, m: Moment): Reading
    requires Fits(m.engine, live)
  {
    TickRuns(s, live, m);
    Rounds(s, live, Tick(s, live, m))
  }

  /** The rounds of a read whose high word was last read at `m`. */
  function Rounds(s: Schedule, live: bool, m: Moment): Reading
    requires Fits(m.engine, live)
    decreases TWO32 - m.engine.compv / TWO32
  {
    var low := Tick(s, live, m);
    TickRuns(s, live, m);
    TickRuns(s, live, low);
    var high := Tick(s, live, low);
    HighWordsGrow(m.engine, low.engine, high.engine, live);
    if high.engine.compv / TWO32 == m.engine.compv / TWO32 then Reading(low.engine, high)
    else Rounds(s, live, high)
  }

  lemma HighWordsGrow(first: Engine, second: Engine, third: Engine, live: bool)
    requires Ran(first, second) && Ran(second, third) && Fits(first, live) && Fits(third, live)
    requires !live ==> first == second == third
    ensures first.compv / TWO32 <= third.compv / TWO32 < TWO32
  {
    RunShape(first, second);
    RunsJoin(first, second, third);
    if live {
      RunAdvances(first, third);
    }
    DivLe(first.compv, third.compv, TWO32);
  }

  lemma {:induction false} RoundsRun(s: Schedule, live: bool, m: Moment)
    requires Fits(m.engine, live)
    ensures var r := Rounds(s, live, m);
            && Ran(m.engine, r.seen) && Ran(r.seen, r.after.engine) && m.at < r.after.at
            && Fits(r.seen, live) && Fits(r.after.engine, live)
            && (!live ==> r.seen == r.after.engine == m.engine)
    decreases TWO32 - m.engine.compv / TWO32
  {
    var low := Tick(s, live, m);
    var high := Tick(s, live, low);
    TickRuns(s, live, m);
    TickRuns(s, live, low);
    HighWordsGrow(m.engine, low.engine, high.engine, live);
    if high.engine.compv / TWO32 != m.engine.compv / TWO32 {
      RoundsRun(s, live, high);
      RunsJoin(m.engine, low.engine, high.engine);
      RunsJoin(m.engine, high.engine, Rounds(s, live, high).seen);
    }
  }

  lemma ReadRuns(s: Schedule, live: bool, m: Moment)
    requires Fits(m.engine, live)
    ensures var r := Read64(s, live, m);
            && Ran(m.engine, r.seen) && Ran(r.seen, r.after.engine) && Ran(m.engine, r.after.engine)
            && Fits(r.seen, live) && Fits(r.after.engine, live) && m.at < r.after.at
            && (!live ==> r.seen == r.after.engine == m.engine)
  {
    var high := Tick(s, live, m);
    var r := Read64(s, live, m);
    TickRuns(s, live, m);
    RoundsRun(s, live, high);
    RunsJoin(m.engine, high.engine, r.seen);
    RunsJoin(m.engine, r.seen, r.after.engine);
  }

  // ----- rewriting the compare of a running block

  /** Accesses of a paused rewrite: read control, pause, two stores, resume. */
  function Rewritten(s: Schedule, live: bool, m: Moment, compare: int): Moment {
    Moment(Ticks(s, live, m, 2).engine.(compv := compare), m.at + 5)
  }

  /** An invert's read-and-shift: the compare moves one interval on from where it was read, unless that does not fit. */
  function ShiftedFrom(s: Schedule, live: bool, m: Moment, interval: int): Moment
    requires Fits(m.engine, live)
  {
    var read := Read64(s, live, m);
    if read.seen.compv + interval > U64_MAX then read.after
    else Rewritten(s, live, read.after, read.seen.compv + interval)
  }

  /** Whether the shifted compare would not fit. */
  predicate ShiftOverflows(s: Schedule, live: bool, m: Moment, interval: int)
    requires Fits(m.engine, live)
  {
    Read64(s, live, m).seen.compv + interval > U64_MAX
  }

  /** Edges a shift loses on a mirror last brought up to date when `since` edges had been generated. */
  function ShiftLoss(s: Schedule, live: bool, m: Moment, interval: int, since: int): int
    requires Fits(m.engine, live)
  {
    if ShiftOverflows(s, live, m, interval) then 0
    else Ticks(s, live, Read64(s, live, m).after, 2).engine.count - since
  }

  /** An invert's fold. */
  function Folded(s: Schedule, live: bool, m: Moment): (r: Reading)
    requires Fits(m.engine, live)
    ensures Fits(r.after.engine, live)
  {
    ReadRuns(s, live, m);
    Read64(s, live, m)
  }

  /** The block after an invert: a fold, then the shift, if there is an interval at all. */
  function AfterInvert(s: Schedule, live: bool, m: Moment, interval: int): Moment
    requires Fits(m.engine, live)
  {
    if interval == 0 then m else ShiftedFrom(s, live, Folded(s, live, m).after, interval)
  }

  /** Whether an invert finds the shifted compare beyond the counter and leaves it. */
  predicate InvertOverflows(s: Schedule, live: bool, m: Moment, interval: int)
    requires Fits(m.engine, live)
  {
    interval != 0 && ShiftOverflows(s, live, Folded(s, live, m).after, interval)
  }

  /** The edges an invert loses: those between its fold's last low-word read and the pause. */
  function InvertWindow(s: Schedule, live: bool, m: Moment, interval: int): int
    requires Fits(m.engine, live)
  {
    if interval == 0 then 0
    else ShiftLoss(s, live, Folded(s, live, m).after, interval, Folded(s, live, m).seen.count)
  }

  /** The window of a stopped block is empty, and no window ever has fewer than no edges. */
  lemma WindowIsForward(s: Schedule, live: bool, m: Moment, interval: int)
    requires Fits(m.engine, live)
    ensures 0 <= InvertWindow(s, live, m, interval)
    ensures !live ==> InvertWindow(s, live, m, interval) == 0
  {
    var fold := Folded(s, live, m);
    ReadRuns(s, live, m);
    ReadRuns(s, live, fold.after);
    TicksRun(s, live, Read64(s, live, fold.after).after, 2);
  }

  lemma NothingToInvert(s: Schedule, live: bool, m: Moment)
    requires Fits(m.engine, live)
    ensures InvertWindow(s, live, m, 0) == 0 && AfterInvert(s, live, m, 0) == m
  {
  }

  /** Without a window edge an invert moves exactly the pending compare, by exactly one interval. */
  lemma QuietInvert(s: Schedule, live: bool, m: Moment, interval: int)
    requires Fits(m.engine, live) && interval != 0
    requires !InvertOverflows(s, live, m, interval) && InvertWindow(s, live, m, interval) == 0
    ensures Ran(m.engine, Folded(s, live, m).seen)
    ensures AfterInvert(s, live, m, interval).engine
         == Folded(s, live, m).seen.(compv := Folded(s, live, m).seen.compv + interval)
  {
    var fold := Folded(s, live, m);
    var read := Read64(s, live, fold.after);
    ReadRuns(s, live, m);
    ReadRuns(s, live, fold.after);
    TicksRun(s, live, read.after, 2);
    RunsJoin(fold.seen, fold.after.engine, read.seen);
    RunsJoin(read.seen, read.after.engine, Ticks(s, live, read.after, 2).engine);
    RunShape(fold.seen, read.seen);
    RunShape(read.seen, Ticks(s, live, read.after, 2).engine);
  }

  /**
   * Exactly then: no edge between the fold's last low-word read and the pause, and room for one more
   * interval in the counter. Counted by the edges of the engine alone.
   */
  lemma QuietInvertShifts(s: Schedule, live: bool, m: Moment, interval: int)
    requires Fits(m.engine, live) && 0 < interval
    requires Folded(s, live, m).seen.compv + interval <= U64_MAX
    requires Ticks(s, live, Read64(s, live, Folded(s, live, m).after).after, 2).engine.count == Folded(s, live, m).seen.count
    ensures !InvertOverflows(s, live, m, interval) && InvertWindow(s, live, m, interval) == 0
    ensures Ran(m.engine, Folded(s, live, m).seen)
    ensures AfterInvert(s, live, m, interval).engine
         == Folded(s, live, m).seen.(compv := Folded(s, live, m).seen.compv + interval)
    ensures AfterInvert(s, live, m, interval).at == Read64(s, live, Folded(s, live, m).after).after.at + 5
  {
    var fold := Folded(s, live, m);
    var read := Read64(s, live, fold.after);
    ReadRuns(s, live, m);
    ReadRuns(s, live, fold.after);
    TicksRun(s, live, read.after, 2);
    RunsJoin(fold.seen, fold.after.engine, read.seen);
    RunShape(fold.seen, read.seen);
    RunShape(read.seen, read.after.engine);
    RunShape(read.after.engine, Ticks(s, live, read.after, 2).engine);
    QuietInvert(s, live, m, interval);
  }
}
