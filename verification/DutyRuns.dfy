/** Asymmetric outputs on the real block: reaching one, serving it, and the prime that breaks its mirror. */
module DutyRuns {
  import opened Arith
  import opened Arming
  import opened Duty
  import opened Interleaving
  import opened LinuxOutput
  import opened LinuxRuns
  import opened LinuxSpec
  import opened Nudge
  import opened PhcClock
  import opened Quantization
  import opened StartTiming
  import opened ToggleEngine
  import opened TogglePort

  // ----- one visit after every edge

  lemma LaterIsSane(s: Schedule, v: BlockView)
    requires v.Sane()
    ensures Later(s, v).Sane()
  {
    TickRuns(s, v.phase.FreeRuns(), v.scene.m);
  }

  /** The block after n visits that succeed, with the edges the schedule has before and during each. */
  function Visits(s: Schedule, w: World, v: BlockView, clock: Clock, n: nat): (r: BlockView)
    requires v.Sane() && v.phase == HwDuty
    ensures r.Sane() && r.phase == HwDuty
    decreases n, 0
  {
    if n == 0 then v else Serviced(s, w, Edged(s, w, v, clock, n - 1), clock)
  }

  /** What the next visit after n visits finds. */
  function Edged(s: Schedule, w: World, v: BlockView, clock: Clock, n: nat): (r: BlockView)
    requires v.Sane() && v.phase == HwDuty
    ensures r.Sane() && r.phase == HwDuty
    decreases n, 1
  {
    LaterIsSane(s, Visits(s, w, v, clock, n));
    Later(s, Visits(s, w, v, clock, n))
  }

  /** Whether the next visit after n visits succeeds: the pending edge it reads is not at the end of the counter. */
  predicate Succeeds(s: Schedule, w: World, v: BlockView, clock: Clock, n: nat)
    requires v.Sane() && v.phase == HwDuty
  {
    DutyPending(s, Edged(s, w, v, clock, n), clock) <= U64_MAX - HW_DELAY_CYCLES
  }

  /**
   * The duty service over any number of visits is a function of the schedule and the world. It goes
   * on until a visit reads a pending edge at the end of the counter, and then disables the block.
   */
  method ServeDuty(block: LinuxBlock, clock: Clock, n: nat) returns (served: nat)
    requires block.Valid() && block.phase == HwDuty
    modifies block, block.port
    ensures block.Valid() && old(block.View()).Sane() && served <= n
    ensures forall k: nat :: k < served ==> Succeeds(block.port.schedule, block.world, old(block.View()), clock, k)
    ensures served < n ==>
              && !Succeeds(block.port.schedule, block.world, old(block.View()), clock, served)
              && block.phase == ToggleStep && !block.port.ctl.en
    ensures served == n ==> block.View() == Visits(block.port.schedule, block.world, old(block.View()), clock, n)
  {
    hide Serviced, DutyPending, Later, LinuxBlock.Settled;
    served := 0;
    while served < n
      invariant served <= n && block.Valid() && block.phase == HwDuty && old(block.View()).Sane()
      invariant forall k: nat :: k < served ==> Succeeds(block.port.schedule, block.world, old(block.View()), clock, k)
      invariant block.View() == Visits(block.port.schedule, block.world, old(block.View()), clock, served)
    {
      var ok := ServeOnce(block, clock);
      if !ok {
        return;
      }
      served := served + 1;
    }
  }

  /** The edges before one visit, then the visit. */
  method ServeOnce(block: LinuxBlock, clock: Clock) returns (ok: bool)
    requires block.Valid() && block.phase == HwDuty
    modifies block, block.port
    ensures block.Valid()
    ensures var edged := Later(block.port.schedule, old(block.View()));
            && edged.Sane()
            && ok == (DutyPending(block.port.schedule, edged, clock) <= U64_MAX - HW_DELAY_CYCLES)
            && (ok ==> block.View() == Serviced(block.port.schedule, block.world, edged, clock))
    ensures if ok then block.phase == HwDuty else block.phase == ToggleStep && !block.port.ctl.en
  {
    hide Serviced, DutyPending, LinuxBlock.Settled, DutyDelay, ArtToNs, WrapSigned;
    Elapse(block);
    ghost var stray;
    ok, stray := block.DutyService(clock);
  }

  /** The mirror shows the flop and nothing is left to fold. */
  predicate InStep(v: BlockView) {
    var e := v.scene.m.engine;
    v.flopHigh == e.flop && v.ckptCompv == e.compv && v.ckptEdge == e.count && v.interval == e.piv
  }

  /** Exactly one edge before each of the first n visits and none during it. */
  predicate OnePerVisit(s: Schedule, w: World, v: BlockView, clock: Clock, n: nat)
    requires v.Sane() && v.phase == HwDuty
  {
    n == 0 ||
    (&& OnePerVisit(s, w, v, clock, n - 1)
     && Edged(s, w, v, clock, n - 1).scene.m.engine.count == Visits(s, w, v, clock, n - 1).scene.m.engine.count + 1
     && Visits(s, w, v, clock, n).scene.m.engine.count == Edged(s, w, v, clock, n - 1).scene.m.engine.count)
  }

  /**
   * Main result: with one edge before each visit and none during it, at constant rate, the serviced
   * block is the visited engine, its mirror shows the level after every visit and never strays, and
   * each visit reads the compare as it is.
   */
  lemma {:induction false} OnePerVisitIsExact(s: Schedule, w: World, v: BlockView, clock: Clock, n: nat, high: u64, low: u64)
    requires v.Sane() && v.phase == HwDuty && InStep(v) && OnePerVisit(s, w, v, clock, n)
    requires IntervalCycles(clock.phc, v.cadence.highNs) == Ok(high)
    requires IntervalCycles(clock.phc, v.cadence.lowNs) == Ok(low)
    ensures var now := Visits(s, w, v, clock, n);
            && now.scene.m.engine == Visited(v.scene.m.engine, high, low, n)
            && InStep(now) && now.settled == v.settled
            && now.cadence.highNs == v.cadence.highNs && now.cadence.lowNs == v.cadence.lowNs
            && (0 < n ==> DutyPending(s, Edged(s, w, v, clock, n - 1), clock) == now.scene.m.engine.compv)
  {
    hide Serviced, DutyPending, Later, IntervalCycles, InStep;
    if 0 < n {
      OnePerVisitIsExact(s, w, v, clock, n - 1, high, low);
      var before := Visits(s, w, v, clock, n - 1);
      OneEdgeVisit(s, w, before, clock, high, low);
    }
  }

  lemma OneEdgeVisit(s: Schedule, w: World, v: BlockView, clock: Clock, high: u64, low: u64)
    requires v.Sane() && v.phase == HwDuty && InStep(v) && Later(s, v).Sane()
    requires IntervalCycles(clock.phc, v.cadence.highNs) == Ok(high)
    requires IntervalCycles(clock.phc, v.cadence.lowNs) == Ok(low)
    requires Later(s, v).scene.m.engine.count == v.scene.m.engine.count + 1
    requires Serviced(s, w, Later(s, v), clock).scene.m.engine.count == Later(s, v).scene.m.engine.count
    ensures var now := Serviced(s, w, Later(s, v), clock);
            && 0 <= v.scene.m.engine.piv < TWO64
            && now.scene.m.engine == Duty.Visit(v.scene.m.engine.Fire(), high, low)
            && InStep(now) && now.settled == v.settled
            && now.cadence.highNs == v.cadence.highNs && now.cadence.lowNs == v.cadence.lowNs
            && DutyPending(s, Later(s, v), clock) == now.scene.m.engine.compv
  {
    hide IntervalCycles, Read64, DutyDelay, ArtToNs, WrapSigned, Burst, Refreshed;
    var edged := Later(s, v);
    TickRuns(s, true, v.scene.m);
    OneEdge(v.scene.m.engine, edged.scene.m.engine);
    QuietRead(s, edged, clock);
  }

  // Without an edge during the visit every read sees the engine found, and only the interval is rewritten.
  lemma QuietRead(s: Schedule, v: BlockView, clock: Clock)
    requires v.Sane() && v.phase == HwDuty && v.interval == v.scene.m.engine.piv
    requires DutyRead(s, v, clock).after.engine.count == v.scene.m.engine.count
    ensures Folded(s, true, v.scene.m).seen == v.scene.m.engine
    ensures DutyRead(s, v, clock).after.engine == v.scene.m.engine.(piv := DutyInterval(s, v, clock))
    ensures DutyPending(s, v, clock) == v.scene.m.engine.compv
  {
    hide Read64, Burst, DutyInterval;
    var e := v.scene.m.engine;
    var now := DutyInterval(s, v, clock);
    var fold := Folded(s, true, v.scene.m);
    var m := RefreshedAt(s, fold.after, v.interval, now);
    ReadRuns(s, true, v.scene.m);
    RefreshFits(s, v.scene.m, v.interval, now);
    TicksRun(s, true, fold.after, 2);
    ReadRuns(s, true, m);
    RunShape(m.engine, Read64(s, true, m).seen);
    RunShape(Read64(s, true, m).seen, Read64(s, true, m).after.engine);
    RunShape(fold.seen, fold.after.engine);
    RunShape(e, fold.seen);
    RunShape(fold.after.engine, Ticks(s, true, fold.after, 2).engine);
  }

  lemma OneEdge(e: Engine, now: Engine)
    requires Ran(e, now) && now.count == e.count + 1
    ensures now == e.Fire()
  {
    assert e.Fires(1) == e.Fires(0).Fire();
  }

  /** A right duty output with nothing to fold is in step. */
  lemma RightIsInStep(block: LinuxBlock)
    requires block.Valid() && block.phase == HwDuty && block.port.Right() && block.port.Unfolded() == 0
    ensures block.View().Sane() && InStep(block.View()) && block.View().settled
  {
    RunShape(block.port.base, block.port.engine);
  }

  // ----- the prime that breaks the mirror

  /**
   * A right duty output whose software prime cannot be converted: the block is disabled and its
   * mirror is wrong, unless the first fold was itself off by an odd number of edges.
   */
  method FailPrime(block: LinuxBlock, clock: Clock, firstNs: s64, primeNs: s64, high: Span, low: Span) returns (ok: bool)
    requires block.Valid() && block.phase == HwDuty && block.Settled() && 0 < block.port.ckptCompv
    requires CompareArt(clock.phc, primeNs, clock.offsetNs).Err?
    modifies block, block.port
    ensures !ok && block.Valid() && block.phase == ToggleStep
    ensures block.Settled() <==> Odd(Excess(block.port.engine.count - old(block.port.ckptEdge)))
    ensures block.port.engine.count == Ticks(block.port.schedule, true, old(block.port.Now()), 2).engine.count
  {
    hide CompareArt;
    ghost var stray, ckpt;
    ok, stray, ckpt := block.ArmOutput(clock, firstNs, primeNs, high, low, Software);
    OddAdd(Excess(block.port.engine.count - old(block.port.ckptEdge)), 1);
  }

  /** Such an output is reached by the ordinary routines, from a low flop and whatever the schedule. */
  method ReachDuty(schedule: Schedule, world: World) returns (block: LinuxBlock)
    ensures fresh(block) && fresh(block.port) && block.Valid() && block.phase == HwDuty
    ensures block.port.Right() && block.port.Unfolded() == 0 && 0 < block.port.ckptCompv && InStep(block.View())
    ensures block.port.schedule == schedule && block.world == world && block.samples == 0
    ensures block.Applied() == Generations(0, 0, 0)
    ensures block.port.engine == Engine(999_999_998, 50_000_000, false, 0, Quiet)
  {
    hide CompareArt, IntervalCycles, PushPast;
    var clock := Clock(UNIT, 0, 1);
    block := new LinuxBlock(false, schedule, world);
    var ok;
    ghost var stray, ckpt;
    ok, stray, ckpt := block.ArmOutput(clock, 1_000_000_000, 900_000_000, 50_000_000, 60_000_000, Hardware);
    UnitPlan();
    ok := block.ArmHardwarePeriodic(clock, Sample(Err(NoDevice), 0, Err(NoDevice), 0));
    RightIsInStep(block);
  }

  /**
   * And its prime does fail: with this calibration offset the prime edge lies before the counter
   * began. The mirror of the duty output found is right, and wrong afterwards unless an odd number
   * of edges beyond one fires before the block is stopped.
   */
  method BreakMirror(schedule: Schedule, world: World) returns (block: LinuxBlock, ghost found: BlockView)
    ensures fresh(block) && fresh(block.port) && block.Valid() && block.phase == ToggleStep
    ensures block.port.schedule == schedule && found.phase == HwDuty && found.settled && found.ckptEdge == 0
    ensures found.scene.m.engine == Engine(999_999_998, 50_000_000, false, 0, Quiet)
    ensures block.port.engine.count == Ticks(schedule, true, found.scene.m, 2).engine.count
    ensures block.Settled() <==> Odd(Excess(block.port.engine.count))
  {
    hide CompareArt;
    block := ReachDuty(schedule, world);
    var clock := Clock(UNIT, -10_000_000_000, 1);
    BeforeTheCounter();
    found := block.View();
    var ok := FailPrime(block, clock, 1_000_000_000, 900_000_000, 50_000_000, 60_000_000);
  }

  lemma BeforeTheCounter()
    ensures CompareArt(UNIT, 900_000_000, -10_000_000_000).Err?
  {
    NsToArtExact(UNIT, -9_100_000_000);
    UnitCycles(9_100_000_000);
  }

  // ----- the arm a work run undoes

  /** A hardware output newer than the snapshot the work run took. */
  const NEWEST: Desired := Desired(2, 0, 1, Running, Hardware, 110_000_000, 50_000_000, 60_000_000, 1_000_000_000)

  /**
   * From a running duty output, one work run whose clock fails at its second reading: the newest
   * request is armed, the snapshot's arm fails, and the next work run takes the newest request for
   * applied while the block stays disabled.
   */
  method UndoArm(schedule: Schedule) returns (block: LinuxBlock, ok: bool, ghost found: BlockView)
    ensures fresh(block) && fresh(block.port) && block.Valid() && !ok
    ensures found.Sane() && found.phase == HwDuty && found.enabled && found.settled
    ensures found.scene.m.engine == Engine(999_999_998, 50_000_000, false, 0, Quiet)
    ensures block.port.schedule == schedule
    ensures var outcome := WorkOutcome(schedule, block.world, found, NEWEST.(gen := 1), NEWEST, Clock(UNIT, 0, 1));
            Undone(found, NEWEST.(gen := 1), NEWEST, outcome) && ok == outcome.ok
    ensures !block.port.ctl.en
    ensures block.phase == ToggleStep && block.Applied() == Generations(NEWEST.gen, NEWEST.freqGen, NEWEST.flipGen)
  {
    hide Reconciles, WorkOutcome, WorkStray, TimingFor;
    var clock := Clock(UNIT, 0, 1);
    var world: World := k => Sample(if k == 0 then Ok(0) else Err(NoDevice), 0, Err(NoDevice), 0);
    block := ReachDuty(schedule, world);
    var snapshot := NEWEST.(gen := 1);
    ArmsOnlyOnce(world(0), world(1));
    found := block.View();
    UndoneIff(schedule, world, found, snapshot, NEWEST, clock);
    ghost var before := block.Applied();
    ghost var stray;
    ok, stray := block.OutputWork(snapshot, NEWEST, clock, false);
    TakenFromNewest(before, snapshot, block.Applied(), ok);
    DisabledStaysDisabled(schedule, world, block.View(), NEWEST, NEWEST, clock);
    ghost var again := block.Applied();
    var later;
    later, stray := block.OutputWork(NEWEST, NEWEST, clock, false);
    StillTaken(again, block.Applied(), later);
  }

  lemma ArmsOnlyOnce(first: Sample, second: Sample)
    requires first.now == Ok(0) && first.nowReal == 0 && second.now.Err?
    ensures ArmSucceeds(NEWEST, Clock(UNIT, 0, 1), first) && !ArmSucceeds(NEWEST.(gen := 1), Clock(UNIT, 0, 1), second)
  {
    AdjustedToBaseExact(980_000_000, 0);
    UnitCycles(980_000_000);
  }

  lemma TakenFromNewest(before: Generations, snapshot: Desired, after: Generations, ok: bool)
    requires before == Generations(0, 0, 0) && snapshot == NEWEST.(gen := 1) && after.gen == NEWEST.gen
    requires Reconciles(before, snapshot, NEWEST, after, ok)
    ensures after == Generations(NEWEST.gen, NEWEST.freqGen, NEWEST.flipGen)
  {
  }

  lemma StillTaken(before: Generations, after: Generations, ok: bool)
    requires before == Generations(NEWEST.gen, NEWEST.freqGen, NEWEST.flipGen)
    requires Reconciles(before, NEWEST, NEWEST, after, ok)
    ensures after == before
  {
  }

  /** A clock whose cycles are nanoseconds. */
  const UNIT: Params := Params(0, 0, 1_000_000_000, 0)

  lemma UnitPlan()
    ensures PlanFor(Clock(UNIT, 0, 1), 1_000_000_000, 50_000_000, 60_000_000, Err(NoDevice), false)
         == Ok(Plan(999_999_998, 50_000_000, 999_999_998, 50_000_000, 60_000_000))
  {
    UnitArt(1_000_000_000);
    UnitInterval(50_000_000);
    UnitInterval(60_000_000);
    hide NsToArt, IntervalCycles;
    assert CompareArt(UNIT, 1_000_000_000, 0) == Ok(999_999_998);
  }

  lemma UnitArt(ns: Span)
    ensures NsToArt(UNIT, ns) == Ok(ns)
  {
    NsToArtExact(UNIT, ns);
    UnitCycles(ns);
  }

  lemma UnitInterval(ns: Span)
    requires 0 < ns
    ensures IntervalCycles(UNIT, ns) == Ok(ns)
  {
    AdjustedToBaseExact(ns, 0);
    UnitCycles(ns);
    NsDeltaToCyclesExact(ns, 1_000_000_000, true);
  }

  lemma UnitCycles(ns: Span)
    ensures UNIT.Ppb() == 0 && BaseMag(ns, 0) == ns && CyclesMag(UNIT, ns) == NearestCycles(1_000_000_000, ns) == ns
  {
    DivUnique(ns * NSEC_PER_SEC, NSEC_PER_SEC, ns);
    DivUnique(2 * (ns * NSEC_PER_SEC) + NSEC_PER_SEC, 2 * NSEC_PER_SEC, ns);
  }
}
