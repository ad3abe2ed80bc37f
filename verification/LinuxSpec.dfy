/** What the Linux output routines decide, and which edges they lose, as functions of what they find. */
module LinuxSpec {
  import opened Arith
  import opened Arming
  import opened Interleaving
  import opened Nudge
  import opened PhcClock
  import opened Quantization
  import opened SoftwarePath
  import opened StartTiming
  import opened ToggleEngine
  import opened TogglePort

  datatype OutputPhase = ToggleStep | FirstRising | ArmPeriodic | HardwarePeriodic | HwDuty {
    predicate FreeRuns() {
      HardwarePeriodic? || HwDuty?
    }
  }

  /** One snapshot of the clock model, the calibration offset and the effective dead-band. */
  datatype Clock = Clock(phc: Params, offsetNs: s64, toleranceNs: s64)

  datatype Run = Stopped | Running

  datatype Desired = Desired(gen: u32, freqGen: u32, flipGen: u32, run: Run, mode: OutputMode,
                             periodNs: u64, highNs: Span, lowNs: Span, firstEdgeNs: s64)

  /** The generations the worker has brought the hardware to. */
  datatype Generations = Generations(gen: u32, freqGen: u32, flipGen: u32)

  /**
   * What one work run does to the applied generations. `ok` says that no arm and no edge of it
   * failed; then everything asked for is applied. Otherwise the generations are those from before,
   * those asked for, or those of the newest request a duty invert re-armed to.
   */
  predicate Reconciles(before: Generations, snap: Desired, newest: Desired, after: Generations, ok: bool) {
    if snap.run == Stopped then after == before && ok
    else
      && after.flipGen == snap.flipGen
      && (after.gen == snap.gen ==> after.freqGen == snap.freqGen)
      && (ok ==> after.gen == snap.gen)
      && (|| (after.gen == before.gen && after.freqGen == before.freqGen)
          || (after.gen == snap.gen && after.freqGen == snap.freqGen)
          || (after.gen == newest.gen && after.freqGen == newest.freqGen))
  }

  /** A work run inverts for an odd number of pending flips; an even number cancels out. */
  predicate FlipDue(snap: Desired, applied: Generations) {
    snap.run == Running && Odd(snap.flipGen - applied.flipGen)
  }

  predicate Even(desired: Desired) {
    desired.highNs == desired.lowNs
  }

  /** What arming programs: the pending compare, the interval it consumes, and both halves. */
  datatype Plan = Plan(compare: u64, interval: u64, requested: u64, high: u64, low: u64)

  const LATE_MARGIN_NS: int := 2_000_000
  const DUTY_SERVICE_DELAY_NS: int := 10_000_000

  /** The counter value a first toggle must not precede; none when it cannot be computed. */
  function Deadline(nowArt: Result<u64>, margin: Result<u64>): u64 {
    if nowArt.Ok? && margin.Ok? && nowArt.value <= U64_MAX - margin.value then nowArt.value + margin.value else 0
  }

  function ArmPlan(first: Result<u64>, high: Result<u64>, low: Result<u64>, deadline: u64, flopHigh: bool): Result<Plan> {
    if first.Err? || high.Err? || low.Err? || BadCycles(high.value, low.value) then Err(NoDevice)
    else
      match PushPast(SlotCompare(first.value, high.value, low.value, flopHigh), deadline, high.value + low.value)
      case Err(_) => Err(NoDevice)
      case Ok(compare) =>
        Ok(Plan(compare, if flopHigh then low.value else high.value, first.value, high.value, low.value))
  }

  /** The plan for a primed waveform, from one clock snapshot and one counter sample. */
  function PlanFor(clock: Clock, edgeNs: s64, high: Span, low: Span, nowArt: Result<u64>, flopHigh: bool): Result<Plan> {
    ArmPlan(CompareArt(clock.phc, edgeNs, clock.offsetNs), IntervalCycles(clock.phc, high), IntervalCycles(clock.phc, low),
            Deadline(nowArt, IntervalCycles(clock.phc, LATE_MARGIN_NS)), flopHigh)
  }

  /**
   * For either level, any counter and any pushed slot, an armed output's first rise is on the
   * requested grid, the first toggle is not due yet, and it consumes the half that follows it.
   */
  lemma PlanOnGrid(first: Result<u64>, high: Result<u64>, low: Result<u64>, deadline: u64, flopHigh: bool)
    requires ArmPlan(first, high, low, deadline, flopHigh).Ok?
    ensures var plan := ArmPlan(first, high, low, deadline, flopHigh).value;
            && plan.requested == first.value && plan.high == high.value && plan.low == low.value
            && (FirstRise(plan.compare, plan.low, flopHigh) - plan.requested) % (plan.high + plan.low) == 0
            && deadline <= plan.compare
            && (plan.compare != SlotCompare(first.value, high.value, low.value, flopHigh) ==>
                  deadline < plan.compare <= deadline + plan.high + plan.low)
            && plan.interval == (if flopHigh then plan.low else plan.high)
  {
    hide PushPast;
    ArmedOnGrid(first.value, high.value, low.value, flopHigh, deadline);
  }

  /** No toggle is due before the counter read at arming plus two milliseconds, if that can be computed and fits. */
  lemma PlanIsNotLate(clock: Clock, edgeNs: s64, high: Span, low: Span, nowArt: Result<u64>, flopHigh: bool)
    requires PlanFor(clock, edgeNs, high, low, nowArt, flopHigh).Ok?
    requires nowArt.Ok? && IntervalCycles(clock.phc, 2_000_000).Ok?
    requires nowArt.value + IntervalCycles(clock.phc, 2_000_000).value <= U64_MAX
    ensures nowArt.value + IntervalCycles(clock.phc, 2_000_000).value
         <= PlanFor(clock, edgeNs, high, low, nowArt, flopHigh).value.compare
  {
    hide ArmPlan, CompareArt, IntervalCycles;
    var first := CompareArt(clock.phc, edgeNs, clock.offsetNs);
    var highCycles, lowCycles := IntervalCycles(clock.phc, high), IntervalCycles(clock.phc, low);
    PlanOnGrid(first, highCycles, lowCycles, Deadline(nowArt, IntervalCycles(clock.phc, LATE_MARGIN_NS)), flopHigh);
  }

  /**
   * A plan for a waveform consumes the nearest whole numbers of cycles of its own halves, and its
   * first rise is on the grid they make from the compare of the edge itself.
   */
  lemma PlanFollowsRequest(clock: Clock, edgeNs: s64, high: Span, low: Span, nowArt: Result<u64>, flopHigh: bool)
    requires clock.phc.Tame() && PlanFor(clock, edgeNs, high, low, nowArt, flopHigh).Ok?
    ensures var plan := PlanFor(clock, edgeNs, high, low, nowArt, flopHigh).value;
            var highCycles, lowCycles := CyclesMag(clock.phc, high), CyclesMag(clock.phc, low);
            var edge := CompareArt(clock.phc, edgeNs, clock.offsetNs);
            && edge.Ok? && 0 < high && 0 < low && 0 < highCycles && 0 < lowCycles
            && (FirstRise(plan.compare, lowCycles, flopHigh) - edge.value) % (highCycles + lowCycles) == 0
            && plan.interval == if flopHigh then lowCycles else highCycles
  {
    hide PushPast, CompareArt;
    var first := CompareArt(clock.phc, edgeNs, clock.offsetNs);
    var highCycles, lowCycles := IntervalCycles(clock.phc, high), IntervalCycles(clock.phc, low);
    PositiveInterval(clock.phc, high);
    PositiveInterval(clock.phc, low);
    IntervalCyclesExact(clock.phc, high);
    IntervalCyclesExact(clock.phc, low);
    hide IntervalCycles, CyclesMag;
    PlanOnGrid(first, highCycles, lowCycles, Deadline(nowArt, IntervalCycles(clock.phc, LATE_MARGIN_NS)), flopHigh);
  }

  lemma PositiveInterval(phc: Params, half: Span)
    requires IntervalCycles(phc, half).Ok? && 0 < IntervalCycles(phc, half).value
    ensures 0 < half
  {
  }

  /** The engine a symmetric plan programs follows the requested grid, or its other slot if the tracked level was wrong. */
  lemma PlanWaveform(first: Result<u64>, half: Result<u64>, deadline: u64, flopHigh: bool, e: Engine)
    requires ArmPlan(first, half, half, deadline, flopHigh).Ok?
    requires var plan := ArmPlan(first, half, half, deadline, flopHigh).value;
             e.compv == plan.compare && e.piv == plan.interval
    ensures 0 < half.value && e.OnGrid(if e.flop == flopHigh then first.value else first.value + half.value, half.value)
  {
    hide PushPast;
    StartFollowsMirror(e, flopHigh, first.value, half.value, deadline);
  }

  /** From a right mirror every rise of an armed symmetric output is on the requested grid, however long it runs. */
  lemma PlanRises(first: Result<u64>, half: Result<u64>, deadline: u64, flopHigh: bool, e: Engine, n: nat)
    requires ArmPlan(first, half, half, deadline, flopHigh).Ok?
    requires var plan := ArmPlan(first, half, half, deadline, flopHigh).value;
             e.compv == plan.compare && e.piv == plan.interval && e.flop == flopHigh
    ensures 0 < half.value && e.Fires(n).edges.RisesOnGrid(n, first.value, 2 * half.value)
  {
    PlanWaveform(first, half, deadline, flopHigh, e);
    RisesStayOnGrid(e, n, first.value, half.value);
  }

  /** How long until the next visit of a duty output: a fixed delay after the pending edge, in real time. */
  function DutyDelay(phc: Params, pending: Result<s64>, now: Result<s64>): (r: u64)
    ensures pending.Err? || now.Err? ==> r == 100_000_000
  {
    if pending.Err? || now.Err? then 100_000_000
    else
      var delay := WrapSigned(WrapSigned(pending.value - now.value) + DUTY_SERVICE_DELAY_NS);
      match DeltaToRealNs(phc, if delay < DUTY_SERVICE_DELAY_NS then DUTY_SERVICE_DELAY_NS else delay)
      case Err(_) => 100_000_000
      case Ok(realNs) => realNs
  }

  /** The interval after a refresh: the new one if it is usable and only differs in the low word. */
  function Refreshed(current: u64, wanted: Result<u64>): u64 {
    if wanted.Ok? && wanted.value != 0 && wanted.value / TWO32 == current / TWO32 then wanted.value else current
  }

  /** A free-running output takes the nearest whole number of cycles at the new rate, if only the low word differs. */
  lemma FollowsTheRate(phc: Params, half: Span, was: u64)
    requires phc.Tame() && 0 < half && IntervalCycles(phc, half).Ok?
    requires 0 < CyclesMag(phc, half) && CyclesMag(phc, half) / 0x1_0000_0000 == was / 0x1_0000_0000
    ensures Refreshed(was, IntervalCycles(phc, half)) == CyclesMag(phc, half)
  {
    IntervalCyclesExact(phc, half);
  }

  lemma RefreshedPositive(current: u64, wanted: Result<u64>)
    requires 0 < current
    ensures 0 < Refreshed(current, wanted)
  {
  }

  /** Edges a duty fold mistakes when n were generated: all but one. */
  function Excess(n: int): nat {
    if n <= 1 then 0 else n - 1
  }

  /**
   * What a refresh of the interval makes a later fold miscount when n edges of the old interval
   * fired after the checkpoint.
   */
  function WindowStray(n: nat, was: u64, now: u64): nat
    requires 0 < now
  {
    Mag(n * was / now - n)
  }

  lemma WindowParity(e: Engine, n: nat, was: u64, now: u64, ckptCompv: int, ckptEdge: int)
    requires 0 < was && 0 < now
    requires e.compv == ckptCompv + n * was && e.count == ckptEdge + n
    ensures CountsParity(e, ckptCompv, ckptEdge, now) == !Odd(WindowStray(n, was, now))
  {
    if n == 0 {
      NoWindowNoStray(was, now);
    } else {
      MulLe(1, n, was);
    }
  }

  lemma NoWindowNoStray(was: u64, now: u64)
    requires 0 < now
    ensures WindowStray(0, was, now) == 0
  {
    DivUnique(0, now, 0);
  }

  lemma ThreeParities(a: int, b: int, c: int)
    ensures ((Odd(a) == Odd(c)) == !Odd(b)) == !Odd(a + b + c)
  {
  }

  // ----- what the environment shows, and the edges lost for every interleaving with it

  /** One consultation of the clocks and of the newest request. */
  datatype Sample = Sample(now: Result<s64>, nowReal: s64, nowArt: Result<u64>, gridStartNs: s64)

  /** What the k-th consultation shows. */
  type World = nat -> Sample

  /** Where a block is in its schedule and its world. */
  datatype Scene = Scene(m: Moment, samples: nat)

  /** One round of an invert's wait: a reading of the pending edge. */
  function AwaitNext(s: Schedule, sc: Scene): (r: Scene)
    requires Fits(sc.m.engine, true)
    ensures Fits(r.m.engine, true)
  {
    ReadRuns(s, true, sc.m);
    Scene(Read64(s, true, sc.m).after, sc.samples + 1)
  }

  /** Whether the wait is over: no phase can be read, or the pending edge is far enough away to be moved. */
  predicate AwaitEnds(s: Schedule, w: World, sc: Scene, clock: Clock, half: Span)
    requires Fits(sc.m.engine, true)
  {
    ReadRuns(s, true, sc.m);
    var sample := w(sc.samples);
    var seen := Read64(s, true, sc.m).seen;
    var pending := PhaseGet(clock.phc, seen.compv, sample.now, sample.gridStartNs, half, clock.offsetNs);
    pending.Err? || pending.value.nudgeSafe
  }

  /** An invert's wait, a bounded number of rounds. */
  function Awaited(s: Schedule, w: World, sc: Scene, clock: Clock, half: Span, tries: nat): (r: Scene)
    requires Fits(sc.m.engine, true)
    ensures Fits(r.m.engine, true)
    decreases tries
  {
    if tries == 0 then sc
    else if AwaitEnds(s, w, sc, clock, half) then AwaitNext(s, sc)
    else Awaited(s, w, AwaitNext(s, sc), clock, half, tries - 1)
  }

  lemma AwaitedStep(s: Schedule, w: World, sc: Scene, clock: Clock, half: Span, tries: nat)
    requires Fits(sc.m.engine, true)
    ensures Awaited(s, w, sc, clock, half, tries)
         == if tries == 0 then sc
            else if AwaitEnds(s, w, sc, clock, half) then AwaitNext(s, sc)
            else Awaited(s, w, AwaitNext(s, sc), clock, half, tries - 1)
  {
  }

  lemma {:induction false} AwaitedRuns(s: Schedule, w: World, sc: Scene, clock: Clock, half: Span, tries: nat)
    requires Fits(sc.m.engine, true)
    ensures Ran(sc.m.engine, Awaited(s, w, sc, clock, half, tries).m.engine)
    decreases tries
  {
    hide AwaitEnds;
    if tries == 0 {
      StandingStill(sc.m.engine);
    } else {
      ReadRuns(s, true, sc.m);
      var next := AwaitNext(s, sc);
      AwaitedRuns(s, w, next, clock, half, tries - 1);
      RunsJoin(sc.m.engine, next.m.engine, Awaited(s, w, next, clock, half, tries - 1).m.engine);
    }
  }

  /** The last round of a wait found the pending edge unreadable, or at least 20 ms ahead of the clock of that round. */
  predicate EndsWait(s: Schedule, w: World, clock: Clock, half: Span, last: Scene, end: Scene)
    requires Fits(last.m.engine, true)
  {
    ReadRuns(s, true, last.m);
    var read := Read64(s, true, last.m);
    var sample := w(last.samples);
    var pending := PhaseGet(clock.phc, read.seen.compv, sample.now, sample.gridStartNs, half, clock.offsetNs);
    && end == Scene(read.after, last.samples + 1)
    && (pending.Ok? ==> sample.now.Ok? && sample.now.value + 20_000_000 <= pending.value.pendingNs)
  }

  /**
   * The wait is for something: unless it used up all its rounds, its last round found the pending
   * edge unreadable, or a phase of at least 20 ms ahead of the clock of that round.
   */
  lemma {:induction false} AwaitedEndsWell(s: Schedule, w: World, sc: Scene, clock: Clock, half: Span, tries: nat)
    returns (last: Scene)
    requires Fits(sc.m.engine, true)
    ensures Fits(last.m.engine, true)
    ensures var end := Awaited(s, w, sc, clock, half, tries);
            end.samples == sc.samples + tries || EndsWait(s, w, clock, half, last, end)
    decreases tries
  {
    last := sc;
    hide PhaseGet;
    if tries != 0 && !AwaitEnds(s, w, sc, clock, half) {
      last := AwaitedEndsWell(s, w, AwaitNext(s, sc), clock, half, tries - 1);
    } else if tries != 0 {
      ReadRuns(s, true, sc.m);
      var sample := w(sc.samples);
      var compv := Read64(s, true, sc.m).seen.compv;
      if PhaseGet(clock.phc, compv, sample.now, sample.gridStartNs, half, clock.offsetNs).Ok? {
        SafeIsAhead(clock.phc, compv, sample.now, sample.gridStartNs, half, clock.offsetNs);
      }
    }
  }

  lemma SafeIsAhead(phc: Params, compv: u64, now: Result<s64>, gridStartNs: s64, half: u64, offsetNs: s64)
    requires PhaseGet(phc, compv, now, gridStartNs, half, offsetNs).Ok?
    ensures var phase := PhaseGet(phc, compv, now, gridStartNs, half, offsetNs).value;
            now.Ok? && (phase.nudgeSafe <==> now.value + 20_000_000 <= phase.pendingNs)
  {
    hide ArtToNs;
  }

  /** Two stores of a new interval while the block runs, if there is a new one. */
  function RefreshedAt(s: Schedule, m: Moment, was: u64, now: u64): Moment {
    if now == was then m else Moment(Ticks(s, true, m, 2).engine.(piv := now), m.at + 2)
  }

  /** The decision a frequency update takes, from the phase it reads after its fold and its refresh. */
  function FreqDecision(s: Schedule, w: World, sc: Scene, was: u64, half: Span, desired: Desired, clock: Clock): Decision
    requires Fits(sc.m.engine, true) && 0 < was
  {
    var now := Refreshed(was, IntervalCycles(clock.phc, half));
    var m := RefreshedAt(s, Folded(s, true, sc.m).after, was, now);
    RefreshFits(s, sc.m, was, now);
    ReadRuns(s, true, m);
    var compv := Read64(s, true, m).seen.compv;
    var pending := PhaseGet(clock.phc, compv, w(sc.samples).now, desired.firstEdgeNs, desired.highNs, clock.offsetNs);
    Decide(pending, desired.highNs, clock.toleranceNs)
  }

  /**
   * The decision against the request itself: unreadable is left alone; otherwise the pending edge is
   * compared with the nearest point of the request's half-period grid, by the clock of this sample.
   */
  lemma FreqDecisionExact(s: Schedule, w: World, sc: Scene, was: u64, half: Span, desired: Desired, clock: Clock)
    returns (slot: int)
    requires Fits(sc.m.engine, true) && 0 < was && clock.offsetNs != S64_MIN
    ensures (RefreshFits(s, sc.m, was, Refreshed(was, IntervalCycles(clock.phc, half)));
             var m := RefreshedAt(s, Folded(s, true, sc.m).after, was, Refreshed(was, IntervalCycles(clock.phc, half)));
             ReadRuns(s, true, m);
             var compv: u64 := Read64(s, true, m).seen.compv;
             var now := w(sc.samples).now;
             var decision := FreqDecision(s, w, sc, was, half, desired, clock);
             if PhaseGet(clock.phc, compv, now, desired.firstEdgeNs, desired.highNs, clock.offsetNs).Err? then decision == Keep
             else
               && compv <= U64_MAX - 2 && ArtToNs(clock.phc, compv + 2).Ok? && now.Ok? && 0 < desired.highNs
               && var pending := ArtToNs(clock.phc, compv + 2).value - clock.offsetNs;
                  && (slot - desired.firstEdgeNs) % desired.highNs == 0 && 2 * Mag(pending - slot) <= desired.highNs
                  && (slot <= S64_MAX ==>
                        decision == if desired.highNs / 4 < Mag(pending - slot) then Rearm
                                    else if Mag(pending - slot) < clock.toleranceNs || pending < now.value + 20_000_000
                                    then Keep else Aim(slot)))
  {
    hide ArtToNs, Refreshed, IntervalCycles;
    var now := Refreshed(was, IntervalCycles(clock.phc, half));
    RefreshedPositive(was, IntervalCycles(clock.phc, half));
    RefreshFits(s, sc.m, was, now);
    var m := RefreshedAt(s, Folded(s, true, sc.m).after, was, now);
    ReadRuns(s, true, m);
    var compv: u64 := Read64(s, true, m).seen.compv;
    slot := DecidedSlot(clock, compv, w(sc.samples).now, desired.firstEdgeNs, desired.highNs);
  }

  lemma DecidedSlot(clock: Clock, compv: u64, now: Result<s64>, gridStartNs: s64, halfNs: Span) returns (slot: int)
    requires clock.offsetNs != S64_MIN
    ensures var phase := PhaseGet(clock.phc, compv, now, gridStartNs, halfNs, clock.offsetNs);
            var decision := Decide(phase, halfNs, clock.toleranceNs);
            if phase.Err? then decision == Keep
            else
              && compv <= U64_MAX - 2 && ArtToNs(clock.phc, compv + 2).Ok? && now.Ok? && 0 < halfNs
              && var pending := ArtToNs(clock.phc, compv + 2).value - clock.offsetNs;
                 && (slot - gridStartNs) % halfNs == 0 && 2 * Mag(pending - slot) <= halfNs
                 && (slot <= S64_MAX ==>
                       decision == if halfNs / 4 < Mag(pending - slot) then Rearm
                                   else if Mag(pending - slot) < clock.toleranceNs || pending < now.value + 20_000_000
                                   then Keep else Aim(slot))
  {
    hide ArtToNs, GridError;
    slot := 0;
    var phase := PhaseGet(clock.phc, compv, now, gridStartNs, halfNs, clock.offsetNs);
    if phase.Ok? {
      slot := phase.value.pendingNs - phase.value.errorNs;
      GridErrorBounds(phase.value.pendingNs - gridStartNs, halfNs);
      AlignedNotNegative(phase.value.pendingNs, phase.value.errorNs, gridStartNs, halfNs);
      if slot <= S64_MAX {
        WrapSignedIdentity(slot);
      }
    }
  }

  lemma AlignedNotNegative(pendingNs: s64, errorNs: int, gridStartNs: s64, halfNs: nat)
    requires 0 <= gridStartNs <= pendingNs && 2 * Mag(errorNs) <= halfNs && halfNs <= S64_MAX / 4
    ensures S64_MIN <= pendingNs - errorNs
  {
  }

  predicate Moves(decision: Decision, clock: Clock) {
    decision.Aim? && CompareArt(clock.phc, decision.alignedNs, clock.offsetNs).Ok?
  }

  /**
   * The edges a frequency update makes a later fold miscount: none but those between its fold's
   * last low-word read and its last register rewrite. A nudge forgets all of them; a refresh alone
   * leaves what the new interval makes of them.
   */
  function FreqStray(s: Schedule, w: World, sc: Scene, was: u64, half: Span, desired: Desired, clock: Clock): nat
    requires Fits(sc.m.engine, true) && 0 < was
  {
    var fold := Folded(s, true, sc.m);
    var now := Refreshed(was, IntervalCycles(clock.phc, half));
    var m := RefreshedAt(s, fold.after, was, now);
    RefreshFits(s, sc.m, was, now);
    ReadRuns(s, true, m);
    TicksRun(s, true, Read64(s, true, m).after, 2);
    if Moves(FreqDecision(s, w, sc, was, half, desired, clock), clock)
    then Ticks(s, true, Read64(s, true, m).after, 2).engine.count - fold.seen.count
    else if now == was then 0
    else WindowStray(m.engine.count - fold.seen.count, was, now)
  }

  lemma RefreshFits(s: Schedule, m: Moment, was: u64, now: u64)
    requires Fits(m.engine, true) && 0 < now
    ensures var fold := Folded(s, true, m);
            var refreshed := RefreshedAt(s, fold.after, was, now);
            && Fits(refreshed.engine, true) && fold.seen.count <= refreshed.engine.count
            && m.engine.count <= fold.seen.count
  {
    var fold := Folded(s, true, m);
    ReadRuns(s, true, m);
    TicksRun(s, true, fold.after, 2);
  }

  // ----- one work run as a whole

  datatype BlockView = BlockView(phase: OutputPhase, enabled: bool, scene: Scene, interval: u64, cadence: Cadence,
                                 applied: Generations, settled: bool, flopHigh: bool, ckptCompv: u64, ckptEdge: nat,
                                 ep: EdgePolarity)
  {
    predicate Sane() {
      && Fits(scene.m.engine, phase.FreeRuns())
      && (phase.FreeRuns() ==> 0 < interval)
    }

    /** No duty waveform runs or is about to. */
    predicate Symmetric() {
      phase != HwDuty && (phase == ArmPeriodic ==> cadence.highNs == cadence.lowNs)
    }

    /** The outcome of a work run that changes no more than the phase, or fails and disables the block. */
    function Leaves(ok: bool, now: OutputPhase): Outcome {
      Outcome(ok, now, ok && enabled, applied, cadence)
    }
  }

  /** A software wake left the compare and the polarity of the edge that was due. */
  predicate ProgramsEdge(due: Cadence, clock: Clock, rearmToggle: bool, compv: int, ep: EdgePolarity) {
    && CompareArt(clock.phc, due.nextEdgeNs, clock.offsetNs) == Ok(compv)
    && ep == if rearmToggle then Toggle else if due.rising then Rising else Falling
  }

  /** A software prime left the compare of a falling edge two leads before the first edge. */
  predicate ProgramsPrime(armed: Cadence, clock: Clock, compv: int, ep: EdgePolarity) {
    var primeNs := armed.nextEdgeNs - 2 * LeadFor(Software, Min(armed.highNs, armed.lowNs));
    && S64_MIN <= primeNs <= S64_MAX
    && CompareArt(clock.phc, primeNs, clock.offsetNs) == Ok(compv) && ep == Falling
  }

  /** A frequency change finds a primed output before its wake. */
  predicate Postponed(w: World, v: BlockView, desired: Desired) {
    && v.phase == ArmPeriodic && desired.run == Running
    && desired.gen == v.applied.gen && desired.freqGen != v.applied.freqGen
    && w(v.scene.samples).nowReal < v.cadence.wakeAt
  }

  /** The work run finds a free-running symmetric output and nothing to do. */
  predicate Idle(v: BlockView, desired: Desired) {
    && v.phase == HardwarePeriodic && desired.run == Running && !FlipDue(desired, v.applied)
    && desired.gen == v.applied.gen && desired.freqGen == v.applied.freqGen
  }

  function FlipStray(s: Schedule, w: World, v: BlockView, desired: Desired, clock: Clock): nat
    requires v.Sane()
  {
    if v.phase != HardwarePeriodic || !FlipDue(desired, v.applied) then 0
    else
      var awaited := Awaited(s, w, v.scene, clock, v.cadence.highNs, 50);
      WindowIsForward(s, true, awaited.m, v.interval);
      InvertWindow(s, true, awaited.m, v.interval)
  }

  /** Where the flip leaves the block. */
  function FlipScene(s: Schedule, w: World, v: BlockView, desired: Desired, clock: Clock): (r: Scene)
    requires v.Sane()
    ensures Fits(r.m.engine, v.phase.FreeRuns())
  {
    if v.phase != HardwarePeriodic || !FlipDue(desired, v.applied) then v.scene
    else
      var awaited := Awaited(s, w, v.scene, clock, v.cadence.highNs, 50);
      InvertFits(s, awaited.m, v.interval);
      Scene(AfterInvert(s, true, awaited.m, v.interval), awaited.samples)
  }

  /**
   * A flip of a free-running output first waits for a safe phase, up to fifty rounds; where it leaves
   * the block is where the invert does, after that wait.
   */
  lemma FlipWaits(s: Schedule, w: World, v: BlockView, desired: Desired, clock: Clock) returns (waited: Scene, last: Scene)
    requires v.Sane() && v.phase == HardwarePeriodic && FlipDue(desired, v.applied)
    ensures Fits(waited.m.engine, true) && Fits(last.m.engine, true) && Ran(v.scene.m.engine, waited.m.engine)
    ensures waited.samples == v.scene.samples + 50 || EndsWait(s, w, clock, v.cadence.highNs, last, waited)
    ensures FlipScene(s, w, v, desired, clock) == Scene(AfterInvert(s, true, waited.m, v.interval), waited.samples)
  {
    hide EndsWait, AfterInvert;
    waited := Awaited(s, w, v.scene, clock, v.cadence.highNs, 50);
    AwaitedRuns(s, w, v.scene, clock, v.cadence.highNs, 50);
    last := AwaitedEndsWell(s, w, v.scene, clock, v.cadence.highNs, 50);
  }

  lemma InvertFits(s: Schedule, m: Moment, interval: u64)
    requires Fits(m.engine, true)
    ensures Fits(AfterInvert(s, true, m, interval).engine, true)
  {
    if interval != 0 {
      var fold := Folded(s, true, m);
      ReadRuns(s, true, fold.after);
      TicksRun(s, true, Read64(s, true, fold.after).after, 2);
    }
  }

  /**
   * The edges a work run loses on a symmetric output: those in the window of an applied flip and
   * those in the window of a frequency update. A stop or a re-arm loses none.
   */
  function SymmetricStray(s: Schedule, w: World, v: BlockView, desired: Desired, clock: Clock): nat
    requires v.Sane()
  {
    if desired.run == Stopped then 0
    else
      FlipStray(s, w, v, desired, clock) +
      if v.phase == HardwarePeriodic && desired.gen == v.applied.gen && desired.freqGen != v.applied.freqGen
      then FreqStray(s, w, FlipScene(s, w, v, desired, clock), v.interval, v.cadence.highNs, desired, clock)
      else 0
  }

  // ----- what a work run comes to

  /** Whether no arm and no edge of a work run failed, and what it leaves. */
  datatype Outcome = Outcome(ok: bool, phase: OutputPhase, enabled: bool, applied: Generations, cadence: Cadence)

  function TimingFor(desired: Desired, clock: Clock, sample: Sample): Result<Timing> {
    PrepareTiming(clock.phc, sample.now, sample.nowReal, Min(desired.highNs, desired.lowNs),
                  desired.periodNs, desired.mode, desired.firstEdgeNs)
  }

  /** Arming succeeds if its timing can be computed and a software prime edge can be converted. */
  predicate ArmSucceeds(desired: Desired, clock: Clock, sample: Sample) {
    var timing := TimingFor(desired, clock, sample);
    timing.Ok? && (desired.mode == Hardware || CompareArt(clock.phc, timing.value.primeEdgeNs, clock.offsetNs).Ok?)
  }

  /** The block after arming at this sample: primed for the request, or disabled. */
  function ArmOutcome(v: BlockView, desired: Desired, clock: Clock, sample: Sample): Outcome {
    if ArmSucceeds(desired, clock, sample) then
      var timing := TimingFor(desired, clock, sample).value;
      Outcome(true, if desired.mode == Hardware then ArmPeriodic else FirstRising, desired.mode == Software,
              Generations(desired.gen, desired.freqGen, v.applied.flipGen),
              Cadence(timing.firstEdgeNs, true, timing.timerStart, desired.highNs, desired.lowNs))
    else v.Leaves(false, ToggleStep)
  }

  /** The level a duty fold arrives at: any movement of the compare counts as one edge. */
  predicate DutyLevel(s: Schedule, v: BlockView)
    requires Fits(v.scene.m.engine, true)
  {
    v.flopHigh != (Folded(s, true, v.scene.m).seen.compv != v.ckptCompv)
  }

  /** The interval a duty visit then gives the pending edge. */
  function DutyInterval(s: Schedule, v: BlockView, clock: Clock): (r: u64)
    requires Fits(v.scene.m.engine, true) && 0 < v.interval
    ensures 0 < r
  {
    RefreshedPositive(v.interval, IntervalCycles(clock.phc, if DutyLevel(s, v) then v.cadence.lowNs else v.cadence.highNs));
    Refreshed(v.interval, IntervalCycles(clock.phc, if DutyLevel(s, v) then v.cadence.lowNs else v.cadence.highNs))
  }

  /** The read a duty visit ends with, after its fold and its refresh. */
  function DutyRead(s: Schedule, v: BlockView, clock: Clock): (r: Reading)
    requires Fits(v.scene.m.engine, true) && 0 < v.interval
    ensures Fits(r.seen, true) && Fits(r.after.engine, true)
  {
    var now := DutyInterval(s, v, clock);
    var m := RefreshedAt(s, Folded(s, true, v.scene.m).after, v.interval, now);
    RefreshFits(s, v.scene.m, v.interval, now);
    ReadRuns(s, true, m);
    Read64(s, true, m)
  }

  /** The pending edge it reads. */
  function DutyPending(s: Schedule, v: BlockView, clock: Clock): u64
    requires Fits(v.scene.m.engine, true) && 0 < v.interval
  {
    DutyRead(s, v, clock).seen.compv
  }

  /** A duty visit asks to be woken after the pending edge; it gives up only at the end of the counter. */
  function DutyOutcome(s: Schedule, w: World, v: BlockView, clock: Clock): (r: Outcome)
    requires Fits(v.scene.m.engine, true) && 0 < v.interval
    ensures r.applied == v.applied && r.phase == if r.ok then HwDuty else ToggleStep
  {
    var pending := DutyPending(s, v, clock);
    if pending > U64_MAX - HW_DELAY_CYCLES then v.Leaves(false, ToggleStep)
    else
      var sample := w(v.scene.samples);
      var delay := DutyDelay(clock.phc, ArtToNs(clock.phc, pending + HW_DELAY_CYCLES), sample.now);
      Outcome(true, HwDuty, v.enabled, v.applied, v.cadence.(wakeAt := WrapSigned(sample.nowReal + delay)))
  }

  /**
   * By the clock a wake comes ten milliseconds after the pending edge, rounded down by less than one
   * real nanosecond; an edge read late counts as pending now.
   */
  predicate WakesAfter(phc: Params, pending: s64, now: s64, nowReal: s64, wakeAt: s64) {
    var ahead := (if pending < now then 0 else pending - now) + 10_000_000;
    ahead * NSEC_PER_SEC < (wakeAt - nowReal + 1) * phc.Rate() && (wakeAt - nowReal) * phc.Rate() <= ahead * NSEC_PER_SEC
  }

  /** The wake and the delay fit their signed 64 bits. */
  predicate RoomToWake(pending: s64, now: s64, nowReal: s64) {
    var ahead := (if pending < now then 0 else pending - now) + 10_000_000;
    2 * ahead <= S64_MAX && nowReal + 2 * ahead <= S64_MAX && S64_MIN <= pending - now
  }

  lemma DutyWakesAfter(phc: Params, pending: s64, now: s64, nowReal: s64)
    requires phc.Tame() && RoomToWake(pending, now, nowReal)
    ensures WakesAfter(phc, pending, now, nowReal, WrapSigned(nowReal + DutyDelay(phc, Ok(pending), Ok(now))))
  {
    hide WrapSigned, WakesAfter, DeltaToRealNs;
    var ahead: s64 := (if pending < now then 0 else pending - now) + 10_000_000;
    WrapSignedIdentity(pending - now);
    WrapSignedIdentity(pending - now + DUTY_SERVICE_DELAY_NS);
    var realNs := RealDelay(phc, ahead);
    WakeIsAfter(phc, pending, now, nowReal, realNs);
    WrapSignedIdentity(nowReal + realNs);
  }

  lemma RealDelay(phc: Params, ahead: s64) returns (realNs: nat)
    requires phc.Tame() && 0 < ahead && 2 * ahead <= S64_MAX
    ensures DeltaToRealNs(phc, ahead) == Ok(realNs) && realNs <= 2 * ahead
    ensures realNs * phc.Rate() <= ahead * NSEC_PER_SEC < realNs * phc.Rate() + phc.Rate()
  {
    realNs := BaseMag(ahead, phc.Ppb());
    AdjustedToBaseExact(ahead, phc.Ppb());
    BaseBounds(ahead, phc.Ppb());
    WakeFits(realNs, ahead, phc.Rate());
  }

  lemma WakeIsAfter(phc: Params, pending: s64, now: s64, nowReal: s64, realNs: nat)
    requires var ahead := (if pending < now then 0 else pending - now) + 10_000_000;
             && realNs * phc.Rate() <= ahead * NSEC_PER_SEC < realNs * phc.Rate() + phc.Rate()
             && nowReal + realNs <= S64_MAX
    ensures WakesAfter(phc, pending, now, nowReal, nowReal + realNs)
  {
    assert (realNs + 1) * phc.Rate() == realNs * phc.Rate() + phc.Rate();
  }

  /** The wake a duty visit asks for follows the pending edge it read, by the clocks of its own sample. */
  lemma VisitAsksForTheEdge(s: Schedule, w: World, v: BlockView, clock: Clock)
    requires clock.phc.Tame() && v.Sane() && v.phase == HwDuty
    requires DutyPending(s, v, clock) <= U64_MAX - 2
    requires var pending := ArtToNs(clock.phc, DutyPending(s, v, clock) + 2);
             var sample := w(v.scene.samples);
             pending.Ok? && sample.now.Ok? && RoomToWake(pending.value, sample.now.value, sample.nowReal)
    ensures DutyOutcome(s, w, v, clock).ok
    ensures WakesAfter(clock.phc, ArtToNs(clock.phc, DutyPending(s, v, clock) + 2).value, w(v.scene.samples).now.value,
                       w(v.scene.samples).nowReal, DutyOutcome(s, w, v, clock).cadence.wakeAt)
  {
    hide DutyPending, ArtToNs, DutyDelay, WakesAfter, WrapSigned;
    var sample := w(v.scene.samples);
    DutyWakesAfter(clock.phc, ArtToNs(clock.phc, DutyPending(s, v, clock) + 2).value, sample.now.value, sample.nowReal);
  }

  /** The block after the fold, the refresh and the read of a duty visit. */
  function Examined(s: Schedule, v: BlockView, clock: Clock): (r: BlockView)
    requires v.Sane() && v.phase == HwDuty
    ensures r.Sane() && r.phase == HwDuty
  {
    ReadRuns(s, true, v.scene.m);
    var fold := Folded(s, true, v.scene.m).seen;
    v.(scene := Scene(DutyRead(s, v, clock).after, v.scene.samples), interval := DutyInterval(s, v, clock),
       settled := v.settled == !Odd(Excess(fold.count - v.ckptEdge)),
       flopHigh := DutyLevel(s, v), ckptCompv := fold.compv, ckptEdge := fold.count)
  }

  /** The block after a successful duty visit. */
  function Serviced(s: Schedule, w: World, v: BlockView, clock: Clock): (r: BlockView)
    requires v.Sane() && v.phase == HwDuty
    ensures r.Sane() && r.phase == HwDuty
  {
    var read := Examined(s, v, clock);
    read.(scene := Scene(read.scene.m, v.scene.samples + 1), cadence := DutyOutcome(s, w, v, clock).cadence)
  }

  /** A software wake succeeds if its edge can be converted and its interval is usable. */
  function StepOutcome(v: BlockView, clock: Clock): (r: Outcome)
    ensures r.applied == v.applied && r.phase == ToggleStep
  {
    if CompareArt(clock.phc, v.cadence.nextEdgeNs, clock.offsetNs).Ok? && v.cadence.Next(clock.phc).Ok?
    then Outcome(true, ToggleStep, v.enabled, v.applied, v.cadence.Next(clock.phc).value)
    else v.Leaves(false, ToggleStep)
  }

  function PlanAt(v: BlockView, clock: Clock, sample: Sample): Result<Plan> {
    PlanFor(clock, v.cadence.nextEdgeNs, v.cadence.highNs, v.cadence.lowNs, sample.nowArt, v.flopHigh)
  }

  /** A primed block starts its waveform; a duty output asks to be visited first a fixed delay from now. */
  function StartOutcome(v: BlockView, clock: Clock, sample: Sample): (r: Outcome)
    ensures r.applied == v.applied && r.phase in {ToggleStep, HardwarePeriodic, HwDuty}
  {
    if PlanAt(v, clock, sample).Err? then v.Leaves(false, ToggleStep)
    else if v.cadence.highNs == v.cadence.lowNs then Outcome(true, HardwarePeriodic, true, v.applied, v.cadence)
    else
      Outcome(true, HwDuty, true, v.applied, v.cadence.(wakeAt := WrapSigned(sample.nowReal + DUTY_SERVICE_DELAY_NS)))
  }

  /** The per-edge step. */
  function ContinueOutcome(s: Schedule, w: World, v: BlockView, clock: Clock): Outcome
    requires v.Sane()
  {
    match v.phase
    case ArmPeriodic => StartOutcome(v, clock, w(v.scene.samples))
    case HwDuty => DutyOutcome(s, w, v, clock)
    case HardwarePeriodic => v.Leaves(true, HardwarePeriodic)
    case FirstRising => StepOutcome(v, clock)
    case ToggleStep => StepOutcome(v, clock)
  }

  /** A frequency update of a free-running symmetric output. */
  function FreqOutcome(s: Schedule, w: World, v: BlockView, desired: Desired, clock: Clock): Outcome
    requires v.Sane() && v.phase == HardwarePeriodic
  {
    match FreqDecision(s, w, v.scene, v.interval, v.cadence.highNs, desired, clock)
    case Keep => v.Leaves(true, HardwarePeriodic)
    case Rearm => ArmOutcome(v, desired, clock, w(v.scene.samples + 1))
    case Aim(alignedNs) =>
      if CompareArt(clock.phc, alignedNs, clock.offsetNs).Err? then v.Leaves(true, HardwarePeriodic)
      else Outcome(true, HardwarePeriodic, v.enabled, v.applied, v.cadence.(nextEdgeNs := alignedNs))
  }

  /** The part of a work run that follows the polarity flip, for a running request. */
  function ProgressOutcome(s: Schedule, w: World, v: BlockView, desired: Desired, clock: Clock): Outcome
    requires v.Sane()
  {
    if desired.gen != v.applied.gen then ArmOutcome(v, desired, clock, w(v.scene.samples))
    else if desired.freqGen == v.applied.freqGen then ContinueOutcome(s, w, v, clock)
    else
      var noted := v.(applied := v.applied.(freqGen := desired.freqGen));
      match v.phase
      case HardwarePeriodic => FreqOutcome(s, w, noted, desired, clock)
      case HwDuty => noted.Leaves(true, HwDuty)
      case ArmPeriodic =>
        if w(v.scene.samples).nowReal < v.cadence.wakeAt then noted.Leaves(true, ArmPeriodic)
        else ContinueOutcome(s, w, noted.(scene := Scene(v.scene.m, v.scene.samples + 1)), clock)
      case FirstRising => ContinueOutcome(s, w, noted, clock)
      case ToggleStep => ContinueOutcome(s, w, noted, clock)
  }

  /** A duty output due for a flip is armed again, against the newest request if that still runs. */
  predicate FlipRearms(v: BlockView, desired: Desired, newest: Desired) {
    FlipDue(desired, v.applied) && v.phase == HwDuty && newest.run == Running
  }

  /** The work run arms for its own snapshot: its generation is new, and no flip has armed for it already. */
  predicate ArmsSnapshot(v: BlockView, desired: Desired, newest: Desired) {
    && desired.run == Running && desired.gen != v.applied.gen
    && (FlipRearms(v, desired, newest) ==> newest.gen != desired.gen)
  }

  predicate FlipSucceeds(w: World, v: BlockView, desired: Desired, newest: Desired, clock: Clock) {
    FlipRearms(v, desired, newest) ==> ArmSucceeds(newest, clock, w(v.scene.samples))
  }

  /** An armed output takes its first edge from the request it is armed for, its prime two leads and its wake one before. */
  lemma ArmedWhereRequested(desired: Desired, clock: Clock, sample: Sample)
    requires TimingFor(desired, clock, sample).Ok?
    ensures var t := TimingFor(desired, clock, sample).value;
            && sample.now.Ok?
            && FirstEdgeFor(t.firstEdgeNs, sample.now.value, desired.mode, Min(desired.highNs, desired.lowNs),
                            desired.periodNs, desired.firstEdgeNs)
            && t.primeEdgeNs == t.firstEdgeNs - 2 * LeadFor(desired.mode, Min(desired.highNs, desired.lowNs))
            && (clock.phc.Tame() ==>
                  WakesAt(clock.phc, t.firstEdgeNs - LeadFor(desired.mode, Min(desired.highNs, desired.lowNs)),
                          sample.now.value, sample.nowReal, t.timerStart))
  {
    hide FirstEdgeFor, WakesAt;
    FirstEdgeIsRequested(clock.phc, sample.now.value, sample.nowReal, Min(desired.highNs, desired.lowNs),
                         desired.periodNs, desired.mode, desired.firstEdgeNs);
  }

  /** The level a duty output's last fold arrives at when its engine is stopped. */
  predicate StoppedLevel(s: Schedule, m: Moment, ckptCompv: u64, flopHigh: bool) {
    flopHigh != (Ticks(s, true, m, 2).engine.compv != ckptCompv)
  }

  /**
   * What the rest of a work run goes by after the flip. A re-armed block no longer runs, so of its
   * scene only the consultations matter.
   */
  function AfterFlip(s: Schedule, w: World, v: BlockView, desired: Desired, newest: Desired, clock: Clock): (r: BlockView)
    requires v.Sane()
    ensures r.Sane()
  {
    var noted := v.(applied := v.applied.(flipGen := desired.flipGen));
    if !FlipDue(desired, v.applied) then noted
    else if FlipRearms(v, desired, newest) then
      var armed := ArmOutcome(noted, newest, clock, w(v.scene.samples));
      noted.(phase := armed.phase, enabled := armed.enabled, applied := armed.applied, cadence := armed.cadence,
             scene := Scene(v.scene.m, v.scene.samples + 1),
             flopHigh := StoppedLevel(s, v.scene.m, v.ckptCompv, !v.flopHigh))
    else noted.(flopHigh := !v.flopHigh, scene := FlipScene(s, w, v, desired, clock))
  }

  /** What one work run comes to. */
  function WorkOutcome(s: Schedule, w: World, v: BlockView, desired: Desired, newest: Desired, clock: Clock): Outcome
    requires v.Sane()
  {
    if desired.run == Stopped then Outcome(true, ToggleStep, false, v.applied, v.cadence)
    else
      var rest := ProgressOutcome(s, w, AfterFlip(s, w, v, desired, newest, clock), desired, clock);
      rest.(ok := rest.ok && FlipSucceeds(w, v, desired, newest, clock))
  }

  // ----- the edges a duty output loses

  /** Stopping a duty output: its last fold mistakes all edges since the checkpoint but one. */
  function StopStray(s: Schedule, m: Moment, ckptEdge: nat): nat {
    Excess(Ticks(s, true, m, 2).engine.count - ckptEdge)
  }

  /**
   * Arming anew over a duty output stops it; if a software prime then fails, the compare cleared
   * meanwhile is taken for an edge, unless it had been zero.
   */
  function ArmStray(s: Schedule, m: Moment, ckptEdge: nat, desired: Desired, clock: Clock, sample: Sample): nat {
    StopStray(s, m, ckptEdge) +
    if && TimingFor(desired, clock, sample).Ok? && !ArmSucceeds(desired, clock, sample)
       && Ticks(s, true, m, 2).engine.compv != 0
    then 1 else 0
  }

  /** A duty visit mistakes the edges its fold finds beyond one; if it gives up, those after its fold as well. */
  function VisitStray(s: Schedule, v: BlockView, clock: Clock): nat
    requires v.Sane() && v.phase == HwDuty
  {
    var read := Examined(s, v, clock);
    Excess(read.ckptEdge - v.ckptEdge) +
    if DutyPending(s, v, clock) > U64_MAX - HW_DELAY_CYCLES then StopStray(s, read.scene.m, read.ckptEdge) else 0
  }

  /** One fold of a duty output that is being drained. */
  function DrainStep(s: Schedule, v: BlockView): (r: BlockView)
    requires v.Sane() && v.phase == HwDuty
    ensures r.Sane() && r.phase == HwDuty
  {
    ReadRuns(s, true, v.scene.m);
    var fold := Folded(s, true, v.scene.m);
    v.(scene := Scene(fold.after, v.scene.samples), settled := v.settled == !Odd(Excess(fold.seen.count - v.ckptEdge)),
       flopHigh := DutyLevel(s, v), ckptCompv := fold.seen.compv, ckptEdge := fold.seen.count)
  }

  /** Draining folds until the level reads low, a bounded number of times; then the block is stopped. */
  function DrainStray(s: Schedule, v: BlockView, tries: nat): nat
    requires v.Sane() && v.phase == HwDuty
    decreases tries
  {
    if tries == 0 || !v.flopHigh then StopStray(s, v.scene.m, v.ckptEdge)
    else Excess(DrainStep(s, v).ckptEdge - v.ckptEdge) + DrainStray(s, DrainStep(s, v), tries - 1)
  }

  lemma DrainStrayStep(s: Schedule, v: BlockView, tries: nat)
    requires v.Sane() && v.phase == HwDuty
    ensures DrainStray(s, v, tries)
         == if tries == 0 || !v.flopHigh then StopStray(s, v.scene.m, v.ckptEdge)
            else Excess(DrainStep(s, v).ckptEdge - v.ckptEdge) + DrainStray(s, DrainStep(s, v), tries - 1)
  {
  }

  /** The edges a work run loses on a duty output. */
  function DutyStray(s: Schedule, w: World, v: BlockView, desired: Desired, newest: Desired, clock: Clock): nat
    requires v.Sane() && v.phase == HwDuty
  {
    if desired.run == Stopped then
      Excess(DrainStep(s, v).ckptEdge - v.ckptEdge) + DrainStray(s, DrainStep(s, v), 30)
    else if FlipRearms(v, desired, newest) then ArmStray(s, v.scene.m, v.ckptEdge, newest, clock, w(v.scene.samples))
    else if desired.gen != v.applied.gen then ArmStray(s, v.scene.m, v.ckptEdge, desired, clock, w(v.scene.samples))
    else if desired.freqGen != v.applied.freqGen then 0
    else VisitStray(s, AfterFlip(s, w, v, desired, newest, clock), clock)
  }

  /** The edges a work run loses, whatever runs. */
  function WorkStray(s: Schedule, w: World, v: BlockView, desired: Desired, newest: Desired, clock: Clock): nat
    requires v.Sane()
  {
    if v.phase == HwDuty then DutyStray(s, w, v, desired, newest, clock) else SymmetricStray(s, w, v, desired, clock)
  }

  /** Equal in everything the rest of a work run goes by. */
  predicate Alike(u: BlockView, v: BlockView) {
    && u.phase == v.phase && u.enabled == v.enabled && u.applied == v.applied && u.cadence == v.cadence 
    && u.scene.samples == v.scene.samples
    && (v.phase.FreeRuns() ==> u.scene == v.scene && u.interval == v.interval)
    && (v.phase == HwDuty ==> u.ckptCompv == v.ckptCompv && u.ckptEdge == v.ckptEdge)
    && (v.phase == HwDuty || v.phase == ArmPeriodic ==> u.flopHigh == v.flopHigh)
  }

  lemma AlikeContinue(s: Schedule, w: World, u: BlockView, v: BlockView, clock: Clock)
    requires u.Sane() && v.Sane() && Alike(u, v)
    ensures ContinueOutcome(s, w, u, clock) == ContinueOutcome(s, w, v, clock)
  {
    hide PlanFor, CompareArt, DeltaToRealNs, DutyOutcome;
    if u.phase == HwDuty {
      AlikeDuty(s, w, u, v, clock);
    }
  }

  lemma AlikeDuty(s: Schedule, w: World, u: BlockView, v: BlockView, clock: Clock)
    requires u.Sane() && v.Sane() && Alike(u, v) && u.phase == HwDuty
    ensures DutyOutcome(s, w, u, clock) == DutyOutcome(s, w, v, clock)
  {
    hide Read64, Refreshed, RefreshedAt, DutyDelay, WrapSigned, ArtToNs;
  }

  lemma AlikeStray(s: Schedule, u: BlockView, v: BlockView, clock: Clock)
    requires u.Sane() && v.Sane() && Alike(u, v) && u.phase == HwDuty
    ensures VisitStray(s, u, clock) == VisitStray(s, v, clock)
  {
    hide Read64, Refreshed, RefreshedAt;
  }

  lemma AlikeProgress(s: Schedule, w: World, u: BlockView, v: BlockView, desired: Desired, clock: Clock)
    requires u.Sane() && v.Sane() && Alike(u, v)
    ensures ProgressOutcome(s, w, u, desired, clock) == ProgressOutcome(s, w, v, desired, clock)
  {
    hide ContinueOutcome, FreqDecision, ArmSucceeds, TimingFor;
    AlikeContinue(s, w, u, v, clock);
    var generations := u.applied.(freqGen := desired.freqGen);
    AlikeContinue(s, w, u.(applied := generations), v.(applied := generations), clock);
    if u.phase == ArmPeriodic {
      AlikeContinue(s, w, u.(applied := generations, scene := Scene(u.scene.m, u.scene.samples + 1)),
                    v.(applied := generations, scene := Scene(v.scene.m, v.scene.samples + 1)), clock);
    }
  }

  lemma ProgressReconciles(s: Schedule, w: World, v: BlockView, desired: Desired, clock: Clock)
    requires v.Sane()
    ensures var after := ProgressOutcome(s, w, v, desired, clock);
            && after.applied.flipGen == v.applied.flipGen
            && (after.applied.gen == desired.gen ==> after.applied.freqGen == desired.freqGen)
            && (after.ok ==> after.applied.gen == desired.gen)
            && (after.applied == v.applied
                || (after.applied.gen == desired.gen && after.applied.freqGen == desired.freqGen))
  {
    hide ArmSucceeds, TimingFor, DutyOutcome, StepOutcome, StartOutcome, FreqDecision;
  }

  /** Every work run reconciles the generations as the worker protocol assumes. */
  lemma OutcomeReconciles(s: Schedule, w: World, v: BlockView, desired: Desired, newest: Desired, clock: Clock)
    requires v.Sane()
    ensures var after := WorkOutcome(s, w, v, desired, newest, clock);
            Reconciles(v.applied, desired, newest, after.applied, after.ok)
  {
    hide ProgressOutcome, ArmSucceeds, TimingFor, FlipScene, StoppedLevel, Odd;
    ProgressReconciles(s, w, AfterFlip(s, w, v, desired, newest, clock), desired, clock);
  }

  /** A work run records a newest request it did not leave armed. */
  predicate Undone(v: BlockView, desired: Desired, newest: Desired, after: Outcome) {
    after.applied.gen == newest.gen && newest.gen != desired.gen && newest.gen != v.applied.gen
  }

  /**
   * Main result: exactly when that happens. A duty output due for a flip is armed against a newer
   * running request, and then cannot be armed against the snapshot. The block is left disabled.
   */
  lemma UndoneIff(s: Schedule, w: World, v: BlockView, desired: Desired, newest: Desired, clock: Clock)
    requires v.Sane()
    ensures var after := WorkOutcome(s, w, v, desired, newest, clock);
            && (Undone(v, desired, newest, after) <==>
                  && v.phase == HwDuty && FlipDue(desired, v.applied) && newest.run == Running
                  && newest.gen != desired.gen && newest.gen != v.applied.gen
                  && ArmSucceeds(newest, clock, w(v.scene.samples))
                  && !ArmSucceeds(desired, clock, w(v.scene.samples + 1)))
            && (Undone(v, desired, newest, after) ==> !after.ok && after.phase == ToggleStep && !after.enabled)
  {
    hide ArmSucceeds, TimingFor, DutyOutcome, StepOutcome, StartOutcome, FreqDecision, FlipScene, StoppedLevel, Odd;
  }

  /** No work run enables a disabled block while the generation counts as applied. */
  lemma DisabledStaysDisabled(s: Schedule, w: World, v: BlockView, desired: Desired, newest: Desired, clock: Clock)
    requires v.Sane() && v.phase == ToggleStep && !v.enabled && (desired.run == Running ==> desired.gen == v.applied.gen)
    ensures var after := WorkOutcome(s, w, v, desired, newest, clock);
            after.phase == ToggleStep && !after.enabled && after.applied.gen == v.applied.gen
  {
    hide CompareArt, DeltaToRealNs, FlipScene, Odd;
  }

  // ----- quiet windows

  /** No edge between an invert's fold and its pause. */
  predicate QuietFlip(s: Schedule, w: World, v: BlockView, desired: Desired, clock: Clock)
    requires v.Sane()
  {
    v.phase == HardwarePeriodic && FlipDue(desired, v.applied) ==>
      var fold := Folded(s, true, Awaited(s, w, v.scene, clock, v.cadence.highNs, 50).m);
      Ticks(s, true, Read64(s, true, fold.after).after, 2).engine.count == fold.seen.count
  }

  /** No edge between a frequency update's fold and the end of its last rewrite, whether or not it nudges. */
  predicate QuietFreq(s: Schedule, w: World, v: BlockView, desired: Desired, clock: Clock)
    requires v.Sane()
  {
    v.phase == HardwarePeriodic && desired.run == Running && desired.freqGen != v.applied.freqGen ==>
      var m := FlipScene(s, w, v, desired, clock).m;
      var fold := Folded(s, true, m);
      var now := Refreshed(v.interval, IntervalCycles(clock.phc, v.cadence.highNs));
      RefreshedPositive(v.interval, IntervalCycles(clock.phc, v.cadence.highNs));
      RefreshFits(s, m, v.interval, now);
      var refreshed := RefreshedAt(s, fold.after, v.interval, now);
      Ticks(s, true, Read64(s, true, refreshed).after, 2).engine.count == fold.seen.count
  }

  /** Without an edge in either window a symmetric work run loses nothing, whatever fires elsewhere. */
  lemma QuietWindowsLoseNothing(s: Schedule, w: World, v: BlockView, desired: Desired, clock: Clock)
    requires v.Sane() && QuietFlip(s, w, v, desired, clock) && QuietFreq(s, w, v, desired, clock)
    ensures SymmetricStray(s, w, v, desired, clock) == 0
  {
    hide FreqDecision, Awaited, FlipScene;
    if v.phase == HardwarePeriodic && desired.run == Running && desired.freqGen != v.applied.freqGen {
      var m := FlipScene(s, w, v, desired, clock).m;
      var now := Refreshed(v.interval, IntervalCycles(clock.phc, v.cadence.highNs));
      RefreshedPositive(v.interval, IntervalCycles(clock.phc, v.cadence.highNs));
      RefreshFits(s, m, v.interval, now);
      var fold := Folded(s, true, m);
      var refreshed := RefreshedAt(s, fold.after, v.interval, now);
      ReadRuns(s, true, refreshed);
      TicksRun(s, true, Read64(s, true, refreshed).after, 2);
      RunShape(refreshed.engine, Read64(s, true, refreshed).after.engine);
      RunShape(Read64(s, true, refreshed).after.engine, Ticks(s, true, Read64(s, true, refreshed).after, 2).engine);
      NoWindowNoStray(v.interval, now);
    }
  }
}
