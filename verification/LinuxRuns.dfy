/** What holds over every run of the Linux worker, with the hardware running between and during its visits. */
module LinuxRuns {
  import opened Arith
  import opened Interleaving
  import opened LinuxOutput
  import opened LinuxSpec
  import opened Nudge
  import opened PhcClock
  import opened Quantization
  import opened SoftwarePath
  import opened StartTiming
  import opened ToggleEngine
  import opened TogglePort

  /** One work run: the snapshot it took, the newest request, the clock and the software option. */
  datatype Visit = Visit(desired: Desired, newest: Desired, clock: Clock, rearmToggle: bool)

  /** What one work run found, left and lost. */
  datatype Entry = Entry(before: BlockView, after: BlockView, ok: bool, stray: nat) {
    function Outcome(): LinuxSpec.Outcome {
      LinuxSpec.Outcome.Outcome(ok, after.phase, after.enabled, after.applied, after.cadence)
    }
  }

  /** The plan a primed block is armed by: made at this visit, from the level the mirror shows. */
  function PlanOf(w: World, visit: Visit, e: Entry): Result<Plan> {
    var wait := if e.before.applied.freqGen == visit.desired.freqGen then 0 else 1;
    PlanAt(e.before.(flopHigh := e.after.flopHigh), visit.clock, w(e.before.scene.samples + wait))
  }

  /** The engine starts out on the plan, with a right mirror exactly if the level it was made from is the flop's. */
  predicate FollowsPlan(w: World, visit: Visit, e: Entry) {
    var plan, now := PlanOf(w, visit, e), e.after.scene.m.engine;
    && plan.Ok? && now.compv == plan.value.compare && now.piv == plan.value.interval
    && now.count == e.before.scene.m.engine.count
    && e.after.settled == (now.flop == e.after.flopHigh)
  }

  /** The account of one work run, for the edges its schedule has in it. */
  ghost predicate Accounted(s: Schedule, w: World, visit: Visit, e: Entry) {
    && e.before.Sane() && e.after.Sane()
    && e.after.settled == (e.before.settled == !Odd(e.stray + e.after.applied.flipGen - e.before.applied.flipGen))
    && e.stray == WorkStray(s, w, e.before, visit.desired, visit.newest, visit.clock)
    && (e.before.phase == HwDuty ==>
          e.stray <= Excess(e.after.scene.m.engine.count - e.before.ckptEdge)
                     + if visit.desired.mode == Software || visit.newest.mode == Software then 1 else 0)
    && e.Outcome() == WorkOutcome(s, w, e.before, visit.desired, visit.newest, visit.clock)
    && (Idle(e.before, visit.desired) ==> e.after.scene.m.engine == e.before.scene.m.engine)
    && (OnlyFlips(e.before, visit.desired) ==>
          && e.after.scene == FlipScene(s, w, e.before, visit.desired, visit.clock)
          && e.after.interval == e.before.interval)
    && (e.before.phase == e.after.phase == HardwarePeriodic ==>
          e.after.interval == if e.before.applied.freqGen == visit.desired.freqGen then e.before.interval
                              else Refreshed(e.before.interval, IntervalCycles(visit.clock.phc, e.before.cadence.highNs)))
    && (e.before.phase == ArmPeriodic && e.after.phase.FreeRuns() ==> FollowsPlan(w, visit, e))
    && (Steps(e.before, visit.desired) && e.ok ==>
          ProgramsEdge(e.before.cadence, visit.clock, visit.rearmToggle, e.after.scene.m.engine.compv, e.after.ep))
    && (e.after.phase == FirstRising ==>
          ProgramsPrime(e.after.cadence, visit.clock, e.after.scene.m.engine.compv, e.after.ep))
    && (e.before.Symmetric() && (visit.desired.run == Running ==> Even(visit.desired)) ==> e.after.Symmetric())
  }

  /** The work run finds a free-running symmetric output and at most a flip to apply. */
  predicate OnlyFlips(v: BlockView, desired: Desired) {
    && v.phase == HardwarePeriodic && desired.run == Running
    && desired.gen == v.applied.gen && desired.freqGen == v.applied.freqGen
  }

  /** The work run finds a software-driven output whose next edge is due. */
  predicate Steps(v: BlockView, desired: Desired) {
    && (v.phase == FirstRising || v.phase == ToggleStep)
    && desired.run == Running && desired.gen == v.applied.gen
  }

  /** Between work runs the hardware does what the schedule has before one access, and nothing else changes. */
  function Later(s: Schedule, v: BlockView): BlockView {
    v.(scene := Scene(Tick(s, v.phase.FreeRuns(), v.scene.m), v.scene.samples))
  }

  /** A run: each entry begins where the previous one ended, after some more edges. */
  ghost predicate Logged(s: Schedule, w: World, start: BlockView, visits: seq<Visit>, log: seq<Entry>) {
    && |log| == |visits|
    && forall i :: 0 <= i < |log| ==>
         Accounted(s, w, visits[i], log[i]) && log[i].before == Later(s, End(start, log[..i]))
  }

  function End(start: BlockView, log: seq<Entry>): BlockView {
    if log == [] then start else log[|log| - 1].after
  }

  /** Any number of work runs. */
  method Works(block: LinuxBlock, visits: seq<Visit>) returns (ghost log: seq<Entry>)
    requires block.Valid()
    modifies block, block.port
    ensures block.Valid()
    ensures Logged(block.port.schedule, block.world, old(block.View()), visits, log)
    ensures End(old(block.View()), log) == block.View()
  {
    hide Accounted, Later;
    log := [];
    var i := 0;
    while i < |visits|
      invariant 0 <= i == |log| <= |visits| && block.Valid()
      invariant Logged(block.port.schedule, block.world, old(block.View()), visits[..i], log)
      invariant End(old(block.View()), log) == block.View()
    {
      Elapse(block);
      ghost var entry := Work(block, visits[i]);
      Extend(block.port.schedule, block.world, old(block.View()), visits[..i], log, visits[i], entry);
      assert visits[..i + 1] == visits[..i] + [visits[i]];
      log := log + [entry];
      i := i + 1;
    }
    assert visits[..i] == visits;
  }

  method Work(block: LinuxBlock, visit: Visit) returns (ghost entry: Entry)
    requires block.Valid()
    modifies block, block.port
    ensures block.Valid() && entry.before == old(block.View()) && entry.after == block.View()
    ensures Accounted(block.port.schedule, block.world, visit, entry)
  {
    hide WorkStray, FlipStray, FlipScene, Odd, WorkOutcome, PlanFor, Refreshed, IntervalCycles, ProgramsEdge,
         ProgramsPrime, LinuxBlock.ArmedAsRequested;
    ghost var before := block.View();
    var ok;
    ghost var stray;
    ok, stray := block.OutputWork(visit.desired, visit.newest, visit.clock, visit.rearmToggle);
    entry := Entry(before, block.View(), ok, stray);
  }

  /** Between visits only the hardware moves. */
  method Elapse(block: LinuxBlock)
    requires block.Valid()
    modifies block.port`engine, block.port`accesses
    ensures block.Valid() && block.View() == Later(block.port.schedule, old(block.View()))
  {
    block.port.HardwareRuns();
    block.port.FreeRunKeepsMirror();
  }

  lemma Extend(s: Schedule, w: World, start: BlockView, visits: seq<Visit>, log: seq<Entry>, visit: Visit, entry: Entry)
    requires Logged(s, w, start, visits, log)
    requires Accounted(s, w, visit, entry) && entry.before == Later(s, End(start, log))
    ensures Logged(s, w, start, visits + [visit], log + [entry])
  {
    hide Accounted, Later;
    var longer := log + [entry];
    forall i | 0 <= i < |longer|
      ensures Accounted(s, w, (visits + [visit])[i], longer[i]) && longer[i].before == Later(s, End(start, longer[..i]))
    {
      if i < |log| {
        assert longer[..i] == log[..i];
      } else {
        assert longer[..i] == log;
      }
    }
  }

  // ----- conservation

  function Strays(log: seq<Entry>): nat {
    if log == [] then 0 else Strays(log[..|log| - 1]) + log[|log| - 1].stray
  }

  lemma Shorten(s: Schedule, w: World, start: BlockView, visits: seq<Visit>, log: seq<Entry>)
    requires Logged(s, w, start, visits, log) && log != []
    ensures |visits| == |log|
    ensures var k := |log| - 1;
            && Logged(s, w, start, visits[..k], log[..k])
            && Accounted(s, w, visits[k], log[k]) && log[k].before == Later(s, End(start, log[..k]))
  {
    hide Accounted, Later;
    var k := |log| - 1;
    forall i | 0 <= i < k
      ensures Accounted(s, w, visits[..k][i], log[..k][i]) && log[..k][i].before == Later(s, End(start, log[..k][..i]))
    {
      assert log[..k][..i] == log[..i];
    }
  }

  /**
   * Main result: over any run, whatever the schedule and the clocks, whether the mirror is right
   * changes with the parity of the applied flips and of the strays of its work runs, and with
   * nothing else.
   */
  lemma {:induction false} ConservationOverRuns(s: Schedule, w: World, start: BlockView, visits: seq<Visit>, log: seq<Entry>)
    requires Logged(s, w, start, visits, log)
    ensures End(start, log).settled
         == (start.settled == !Odd(Strays(log) + End(start, log).applied.flipGen - start.applied.flipGen))
    decreases |log|
  {
    hide Logged, Odd;
    if log == [] {
      OddAdd(0, 0);
    } else {
      var k := |log| - 1;
      Shorten(s, w, start, visits, log);
      ConservationOverRuns(s, w, start, visits[..k], log[..k]);
      SettledStep(s, w, visits[k], log[k], End(start, log[..k]));
      OddAdd(Strays(log[..k]) + log[k].before.applied.flipGen - start.applied.flipGen,
             log[k].stray + log[k].after.applied.flipGen - log[k].before.applied.flipGen);
    }
  }

  lemma SettledStep(s: Schedule, w: World, visit: Visit, e: Entry, previous: BlockView)
    requires Accounted(s, w, visit, e) && e.before == Later(s, previous)
    ensures e.before.settled == previous.settled && e.before.applied == previous.applied
    ensures e.after.settled == (previous.settled == !Odd(e.stray + e.after.applied.flipGen - previous.applied.flipGen))
  {
    hide WorkStray, WorkOutcome, Odd, Idle, FollowsPlan, Burst;
  }

  /** A symmetric output never becomes a duty one unless one is requested. */
  lemma {:induction false} StaysSymmetric(s: Schedule, w: World, start: BlockView, visits: seq<Visit>, log: seq<Entry>)
    requires Logged(s, w, start, visits, log) && start.Symmetric()
    requires forall v :: v in visits && v.desired.run == Running ==> Even(v.desired)
    ensures End(start, log).Symmetric()
    ensures forall i :: 0 <= i < |log| ==> log[i].before.Symmetric()
    decreases |log|
  {
    hide Logged;
    if log != [] {
      var k := |log| - 1;
      Shorten(s, w, start, visits, log);
      assert forall v :: v in visits[..k] ==> v in visits;
      StaysSymmetric(s, w, start, visits[..k], log[..k]);
      assert visits[k] in visits;
    }
  }

  /**
   * Main result: with symmetric requests, a run in which no edge fires inside the window of an
   * invert or of a frequency update flips the mirror exactly with the applied flips.
   */
  lemma {:induction false} QuietWindowsKeepTheMirror(
    s: Schedule, w: World, start: BlockView, visits: seq<Visit>, log: seq<Entry>)
    requires Logged(s, w, start, visits, log) && start.Symmetric()
    requires forall v :: v in visits && v.desired.run == Running ==> Even(v.desired)
    requires forall i :: 0 <= i < |log| ==>
               && log[i].before.Sane()
               && WorkStray(s, w, log[i].before, visits[i].desired, visits[i].newest, visits[i].clock) == 0
    ensures End(start, log).settled
         == (start.settled == !Odd(End(start, log).applied.flipGen - start.applied.flipGen))
  {
    hide WorkStray, WorkOutcome, Odd, Idle, FollowsPlan;
    ConservationOverRuns(s, w, start, visits, log);
    StaysSymmetric(s, w, start, visits, log);
    assert forall i :: 0 <= i < |log| ==> log[i].stray == 0;
    NoStrays(log);
  }

  lemma {:induction false} NoStrays(log: seq<Entry>)
    requires forall i :: 0 <= i < |log| ==> log[i].stray == 0
    ensures Strays(log) == 0
  {
    if log != [] {
      NoStrays(log[..|log| - 1]);
    }
  }

  /**
   * No edge in a window of a symmetric output; at most one edge since the checkpoint of a duty
   * output driven in hardware, so a spurious wake is as good as one after an edge.
   */
  predicate QuietVisit(s: Schedule, w: World, visit: Visit, e: Entry)
    requires e.before.Sane()
  {
    if e.before.phase == HwDuty then
      && e.after.scene.m.engine.count <= e.before.ckptEdge + 1
      && visit.desired.mode == Hardware && visit.newest.mode == Hardware
    else QuietFlip(s, w, e.before, visit.desired, visit.clock) && QuietFreq(s, w, e.before, visit.desired, visit.clock)
  }

  /**
   * Main result: over any run of quiet visits, whatever fires outside the windows and whatever is
   * requested, the mirror flips exactly with the applied flips.
   */
  lemma {:induction false} QuietVisitsKeepTheMirror(
    s: Schedule, w: World, start: BlockView, visits: seq<Visit>, log: seq<Entry>)
    requires Logged(s, w, start, visits, log)
    requires forall i :: 0 <= i < |log| ==> log[i].before.Sane() && QuietVisit(s, w, visits[i], log[i])
    ensures End(start, log).settled
         == (start.settled == !Odd(End(start, log).applied.flipGen - start.applied.flipGen))
  {
    hide SymmetricStray, DutyStray, QuietFlip, QuietFreq, WorkOutcome, Odd, Idle, FollowsPlan;
    ConservationOverRuns(s, w, start, visits, log);
    forall i | 0 <= i < |log|
      ensures log[i].stray == 0
    {
      assert Accounted(s, w, visits[i], log[i]);
      if log[i].before.phase != HwDuty {
        QuietWindowsLoseNothing(s, w, log[i].before, visits[i].desired, visits[i].clock);
      }
    }
    NoStrays(log);
  }

  // ----- disabled for good

  /**
   * A disabled block is not enabled again by any run whose requests keep the generation recorded as
   * applied; with `UndoneIff`, that is where an undone arm leaves a hardware output.
   */
  lemma {:induction false} DisabledForGood(s: Schedule, w: World, start: BlockView, visits: seq<Visit>, log: seq<Entry>)
    requires Logged(s, w, start, visits, log) && start.phase == ToggleStep && !start.enabled
    requires forall v :: v in visits && v.desired.run == Running ==> v.desired.gen == start.applied.gen
    ensures var end := End(start, log);
            end.phase == ToggleStep && !end.enabled && end.applied.gen == start.applied.gen
    decreases |log|
  {
    hide Logged, WorkOutcome, WorkStray, Odd;
    if log != [] {
      var k := |log| - 1;
      Shorten(s, w, start, visits, log);
      assert forall v :: v in visits[..k] ==> v in visits;
      DisabledForGood(s, w, start, visits[..k], log[..k]);
      assert visits[k] in visits;
      DisabledStaysDisabled(s, w, log[k].before, visits[k].desired, visits[k].newest, visits[k].clock);
    }
  }

  // ----- the grid between re-programmings

  /** Main result: as long as work runs find nothing to do, every rise of an armed output stays on its grid. */
  lemma {:induction false} IdleRunsStayOnGrid(s: Schedule, w: World, start: BlockView, visits: seq<Visit>, log: seq<Entry>,
                                              gridStart: int, half: int)
    requires Logged(s, w, start, visits, log) && start.Sane() && start.phase == HardwarePeriodic
    requires forall i :: 0 <= i < |log| ==> Idle(log[i].before, visits[i].desired)
    requires 0 < half && start.scene.m.engine.OnGrid(gridStart, half)
    ensures var now := End(start, log).scene.m.engine;
            && Ran(start.scene.m.engine, now) && now.OnGrid(gridStart, half)
            && start.scene.m.engine.count <= now.count
            && now.edges.RisesOnGrid(now.count - start.scene.m.engine.count, gridStart, 2 * half)
  {
    IdleRunsRun(s, w, start, visits, log);
    var e, now := start.scene.m.engine, End(start, log).scene.m.engine;
    RunOnGrid(e, now, gridStart, half);
    RisesStayOnGrid(e, now.count - e.count, gridStart, half);
  }

  lemma {:induction false} IdleRunsRun(s: Schedule, w: World, start: BlockView, visits: seq<Visit>, log: seq<Entry>)
    requires Logged(s, w, start, visits, log) && start.Sane() && start.phase == HardwarePeriodic
    requires forall i :: 0 <= i < |log| ==> Idle(log[i].before, visits[i].desired)
    ensures var end := End(start, log);
            && end.phase == HardwarePeriodic && Fits(end.scene.m.engine, true)
            && Ran(start.scene.m.engine, end.scene.m.engine)
    decreases |log|
  {
    hide Logged, Ran;
    if log == [] {
      StandingStill(start.scene.m.engine);
    } else {
      var k := |log| - 1;
      Shorten(s, w, start, visits, log);
      IdleRunsRun(s, w, start, visits[..k], log[..k]);
      var previous := End(start, log[..k]);
      TickRuns(s, true, previous.scene.m);
      RunsJoin(start.scene.m.engine, previous.scene.m.engine, log[k].before.scene.m.engine);
      assert Idle(log[k].before, visits[k].desired);
    }
  }

  /**
   * Main result: from the work run that arms a symmetric output with a right mirror, every rise
   * until there is something else to do is on the grid of the primed first edge.
   */
  lemma {:induction false} ArmedRunsStayOnGrid(s: Schedule, w: World, e: Entry, visit: Visit,
                                               visits: seq<Visit>, log: seq<Entry>)
    requires Accounted(s, w, visit, e) && e.before.phase == ArmPeriodic && e.after.phase == HardwarePeriodic
    requires e.after.settled && Logged(s, w, e.after, visits, log)
    requires forall i :: 0 <= i < |log| ==> Idle(log[i].before, visits[i].desired)
    ensures OnPrimedGrid(visit.clock, e.before, End(e.after, log).scene.m.engine)
  {
    hide Logged, Accounted, WorkStray, Odd, CompareArt, IntervalCycles;
    PlanOfArmed(s, w, visit, e);
    var first := CompareArt(visit.clock.phc, e.before.cadence.nextEdgeNs, visit.clock.offsetNs);
    var half := IntervalCycles(visit.clock.phc, e.before.cadence.highNs);
    IdleRunsStayOnGrid(s, w, e.after, visits, log, first.value, half.value);
  }

  // What a run does after its k-th work run is a run from there.
  lemma Rest(s: Schedule, w: World, start: BlockView, visits: seq<Visit>, log: seq<Entry>, k: nat)
    requires Logged(s, w, start, visits, log) && k < |log|
    ensures |visits| == |log| && Logged(s, w, log[k].after, visits[k + 1..], log[k + 1..])
    ensures Accounted(s, w, visits[k], log[k]) && End(log[k].after, log[k + 1..]) == End(start, log)
  {
    hide Accounted, Later;
    var rest := log[k + 1..];
    forall i | 0 <= i < |rest|
      ensures Accounted(s, w, visits[k + 1..][i], rest[i]) && rest[i].before == Later(s, End(log[k].after, rest[..i]))
    {
      assert log[..k + 1 + i][k..] == [log[k]] + rest[..i];
      assert End(log[k].after, rest[..i]) == End(start, log[..k + 1 + i]);
    }
  }

  /** The request and the sample a work run last armed for. */
  function PrimedFor(s: Schedule, w: World, visit: Visit, v: BlockView): (r: (Desired, Sample))
    requires v.Sane()
  {
    var flipped := AfterFlip(s, w, v, visit.desired, visit.newest, visit.clock);
    if flipped.applied.gen == visit.desired.gen then (visit.newest, w(v.scene.samples))
    else (visit.desired, w(flipped.scene.samples))
  }

  /** A primed block that is left waiting for its wake. */
  predicate Waits(visit: Visit, e: Entry) {
    visit.desired.run == Running && visit.desired.gen == e.before.applied.gen && e.after.phase == ArmPeriodic
  }

  /**
   * Main result: a new symmetric configuration, whatever ran before, primed successfully and armed by
   * a later work run, puts every rise from there on onto the grid of the first edge its timing chose,
   * until there is something else to do; provided the mirror is right when it is armed.
   */
  lemma NewConfigurationStaysOnGrid(s: Schedule, w: World, start: BlockView, visits: seq<Visit>, log: seq<Entry>, k: nat)
    requires Logged(s, w, start, visits, log) && 0 < k < |log| == |visits|
    requires visits[0].desired.run == Running && visits[0].desired.gen != log[0].before.applied.gen
    requires log[0].ok && log[0].after.phase == ArmPeriodic
    requires forall i :: 0 < i < k ==> Waits(visits[i], log[i])
    requires log[k].after.phase == HardwarePeriodic && log[k].after.settled
    requires forall i :: k < i < |log| ==> Idle(log[i].before, visits[i].desired)
    ensures log[0].before.Sane() && log[k].before.phase == ArmPeriodic
    ensures var (request, sample) := PrimedFor(s, w, visits[0], log[0].before);
            var timing := TimingFor(request, visits[0].clock, sample);
            && timing.Ok? && log[k].before.cadence.nextEdgeNs == timing.value.firstEdgeNs
            && log[k].before.cadence.highNs == request.highNs
            && sample.now.Ok?
            && FirstEdgeFor(log[k].before.cadence.nextEdgeNs, sample.now.value, request.mode,
                            Min(request.highNs, request.lowNs), request.periodNs, request.firstEdgeNs)
    ensures OnPrimedGrid(visits[k].clock, log[k].before, End(start, log).scene.m.engine)
  {
    hide Logged, Accounted, PrimedFor, TimingFor, FirstEdgeFor, CompareArt, IntervalCycles;
    Rest(s, w, start, visits, log, 0);
    Rest(s, w, start, visits, log, k);
    WaitingKeepsThePrime(s, w, start, visits, log, k);
    var restVisits, rest := visits[k + 1..], log[k + 1..];
    assert forall i :: 0 <= i < |rest| ==> Idle(rest[i].before, restVisits[i].desired);
    NewlyPrimed(s, w, visits[0], log[0]);
    var (request, sample) := PrimedFor(s, w, visits[0], log[0].before);
    ArmedWhereRequested(request, visits[0].clock, sample);
    ArmedRunsStayOnGrid(s, w, log[k], visits[k], restVisits, rest);
  }

  lemma {:induction false} WaitingKeepsThePrime(s: Schedule, w: World, start: BlockView, visits: seq<Visit>,
                                                log: seq<Entry>, k: nat)
    requires Logged(s, w, start, visits, log) && 0 < k < |log| == |visits|
    requires log[0].after.phase == ArmPeriodic
    requires forall i :: 0 < i < k ==> Waits(visits[i], log[i])
    ensures log[k].before.phase == ArmPeriodic && log[k].before.cadence == log[0].after.cadence
  {
    hide Logged, Accounted;
    Follows(s, w, start, visits, log, k);
    if 1 < k {
      WaitingKeepsThePrime(s, w, start, visits, log, k - 1);
      Rest(s, w, start, visits, log, k - 1);
      WaitKeepsCadence(s, w, visits[k - 1], log[k - 1]);
    }
  }

  lemma WaitKeepsCadence(s: Schedule, w: World, visit: Visit, e: Entry)
    requires Accounted(s, w, visit, e) && Waits(visit, e) && e.before.phase == ArmPeriodic
    ensures e.after.cadence == e.before.cadence
  {
    hide WorkStray, Odd, PlanAt, WrapSigned;
  }

  lemma Follows(s: Schedule, w: World, start: BlockView, visits: seq<Visit>, log: seq<Entry>, k: nat)
    requires Logged(s, w, start, visits, log) && 0 < k < |log|
    ensures log[k].before == Later(s, log[k - 1].after)
  {
    hide Accounted, Later;
    assert End(start, log[..k]) == log[k - 1].after;
  }

  lemma NewlyPrimed(s: Schedule, w: World, visit: Visit, e: Entry)
    requires Accounted(s, w, visit, e) && e.ok && visit.desired.run == Running && e.after.phase == ArmPeriodic
    requires visit.desired.gen != e.before.applied.gen
    ensures e.before.Sane()
    ensures var (request, sample) := PrimedFor(s, w, visit, e.before);
            var timing := TimingFor(request, visit.clock, sample);
            && timing.Ok? && e.after.cadence.nextEdgeNs == timing.value.firstEdgeNs
            && e.after.cadence.highNs == request.highNs
  {
    hide WorkStray, Odd, TimingFor, CompareArt, FlipScene, StoppedLevel, StartOutcome, StepOutcome;
  }

  /** Every rise since the block was primed is a whole number of periods after the primed first edge. */
  predicate OnPrimedGrid(clock: Clock, primed: BlockView, now: Engine) {
    var first := CompareArt(clock.phc, primed.cadence.nextEdgeNs, clock.offsetNs);
    var half := IntervalCycles(clock.phc, primed.cadence.highNs);
    && first.Ok? && half.Ok? && 0 < half.value && now.OnGrid(first.value, half.value)
    && primed.scene.m.engine.count <= now.count
    && now.edges.RisesOnGrid(now.count - primed.scene.m.engine.count, first.value, 2 * half.value)
  }

  lemma PlanOfArmed(s: Schedule, w: World, visit: Visit, e: Entry)
    requires Accounted(s, w, visit, e) && e.before.phase == ArmPeriodic && e.after.phase == HardwarePeriodic
    requires e.after.settled
    ensures var first := CompareArt(visit.clock.phc, e.before.cadence.nextEdgeNs, visit.clock.offsetNs);
            var half := IntervalCycles(visit.clock.phc, e.before.cadence.highNs);
            && first.Ok? && half.Ok? && 0 < half.value && e.after.scene.m.engine.OnGrid(first.value, half.value)
            && e.after.scene.m.engine.count == e.before.scene.m.engine.count && e.after.Sane()
  {
    hide WorkStray, Odd, CompareArt, IntervalCycles;
    var clock := visit.clock;
    var first := CompareArt(clock.phc, e.before.cadence.nextEdgeNs, clock.offsetNs);
    var half := IntervalCycles(clock.phc, e.before.cadence.highNs);
    var wait := if e.before.applied.freqGen == visit.desired.freqGen then 0 else 1;
    var deadline := Deadline(w(e.before.scene.samples + wait).nowArt, IntervalCycles(clock.phc, LATE_MARGIN_NS));
    SymmetricWhenArmed(s, w, visit, e);
    assert PlanOf(w, visit, e) == ArmPlan(first, half, half, deadline, e.after.flopHigh);
    PlanWaveform(first, half, deadline, e.after.flopHigh, e.after.scene.m.engine);
  }

  lemma SymmetricWhenArmed(s: Schedule, w: World, visit: Visit, e: Entry)
    requires Accounted(s, w, visit, e) && e.before.phase == ArmPeriodic && e.after.phase == HardwarePeriodic
    ensures e.before.cadence.highNs == e.before.cadence.lowNs
  {
    hide WorkStray, Odd, PlanFor, ArmSucceeds, TimingFor, FlipScene;
  }

  // ----- software-driven outputs

  /** The clocks of a run's visits. */
  function Clocks(visits: seq<Visit>): (r: seq<Params>)
    ensures |r| == |visits|
  {
    seq(|visits|, i requires 0 <= i < |visits| => visits[i].clock.phc)
  }

  /**
   * Main result: over any run of successful software wakes the k-th programs the counter value of the
   * first edge plus an exact sum of intervals, and rising and falling edges alternate.
   */
  lemma {:induction false} SoftwareRunsProgramEveryEdge(s: Schedule, w: World, start: BlockView, visits: seq<Visit>,
                                                        log: seq<Entry>, k: nat)
    requires Logged(s, w, start, visits, log) && k < |log| == |visits|
    requires forall i :: 0 <= i < |log| ==> Steps(log[i].before, visits[i].desired) && log[i].ok
    ensures var edgeNs := WrapSigned(start.cadence.EdgeDue(k));
            && CompareArt(visits[k].clock.phc, edgeNs, visits[k].clock.offsetNs) == Ok(log[k].after.scene.m.engine.compv)
            && log[k].after.ep == (if visits[k].rearmToggle then Toggle
                                   else if start.cadence.rising != Odd(k) then Rising else Falling)
            && log[k].after.phase == ToggleStep && log[k].after.enabled == start.enabled
  {
    hide Logged, Accounted, WrapSigned, CompareArt, Odd;
    CadenceAdvances(s, w, start, visits, log, k);
    EdgesOnSchedule(start.cadence, Clocks(visits)[..k]);
    Rest(s, w, start, visits, log, k);
    StepProgramsEdge(s, w, visits[k], log[k]);
  }

  lemma StepProgramsEdge(s: Schedule, w: World, visit: Visit, e: Entry)
    requires Accounted(s, w, visit, e) && Steps(e.before, visit.desired) && e.ok
    ensures CompareArt(visit.clock.phc, e.before.cadence.nextEdgeNs, visit.clock.offsetNs) == Ok(e.after.scene.m.engine.compv)
    ensures e.after.ep == if visit.rearmToggle then Toggle else if e.before.cadence.rising then Rising else Falling
    ensures e.before.cadence.Next(visit.clock.phc) == Ok(e.after.cadence)
    ensures e.after.phase == ToggleStep && e.after.enabled == e.before.enabled
  {
    hide WorkStray, Odd, CompareArt, DeltaToRealNs, FlipScene;
  }

  // Before the k-th wake the cadence has advanced once per wake before it.
  lemma {:induction false} CadenceAdvances(s: Schedule, w: World, start: BlockView, visits: seq<Visit>, log: seq<Entry>, k: nat)
    requires Logged(s, w, start, visits, log) && k < |log| == |visits|
    requires forall i :: 0 <= i < |log| ==> Steps(log[i].before, visits[i].desired) && log[i].ok
    ensures start.cadence.Wakes(Clocks(visits)[..k]) == Ok(log[k].before.cadence)
    ensures log[k].before.enabled == start.enabled
  {
    hide Logged, Accounted;
    if k == 0 {
      First(s, w, start, visits, log);
    } else {
      CadenceAdvances(s, w, start, visits, log, k - 1);
      Follows(s, w, start, visits, log, k);
      Rest(s, w, start, visits, log, k - 1);
      StepProgramsEdge(s, w, visits[k - 1], log[k - 1]);
      var clocks := Clocks(visits)[..k];
      assert clocks[..|clocks| - 1] == Clocks(visits)[..k - 1] && clocks[|clocks| - 1] == visits[k - 1].clock.phc;
    }
  }

  lemma First(s: Schedule, w: World, start: BlockView, visits: seq<Visit>, log: seq<Entry>)
    requires Logged(s, w, start, visits, log) && log != []
    ensures log[0].before == Later(s, start)
  {
    hide Accounted, Later;
    assert log[..0] == [];
  }

  // ----- flips and the grid

  /** Rises are on the grid if the mirror is right, and half a period off if not. */
  predicate FollowsMirror(v: BlockView, start: int, half: int) {
    && v.Sane() && v.phase == HardwarePeriodic && 0 < half && v.interval == half
    && v.scene.m.engine.OnGrid(if v.settled then start else start + half, half)
  }

  /** A flip, if one is due, finds no edge in its window and room for the shift. */
  predicate CleanFlip(s: Schedule, w: World, v: BlockView, desired: Desired, clock: Clock)
    requires v.Sane()
  {
    && QuietFlip(s, w, v, desired, clock)
    && (v.phase == HardwarePeriodic && FlipDue(desired, v.applied) ==>
          Folded(s, true, Awaited(s, w, v.scene, clock, v.cadence.highNs, 50).m).seen.compv + v.interval <= U64_MAX)
  }

  lemma FlipKeepsGrid(s: Schedule, w: World, visit: Visit, e: Entry, start: int, half: int)
    requires Accounted(s, w, visit, e) && OnlyFlips(e.before, visit.desired)
    requires CleanFlip(s, w, e.before, visit.desired, visit.clock) && FollowsMirror(e.before, start, half)
    ensures FollowsMirror(e.after, start, half)
    ensures e.after.settled == (e.before.settled != FlipDue(visit.desired, e.before.applied))
  {
    hide Awaited, InvertWindow, InvertOverflows, AfterInvert, FollowsPlan;
    var v := e.before;
    if FlipDue(visit.desired, v.applied) {
      var awaited := Awaited(s, w, v.scene, visit.clock, v.cadence.highNs, 50).m;
      var free := Folded(s, true, awaited).seen;
      var at := if v.settled then start else start + half;
      AwaitedRuns(s, w, v.scene, visit.clock, v.cadence.highNs, 50);
      QuietInvertShifts(s, true, awaited, v.interval);
      RunOnGrid(v.scene.m.engine, awaited.engine, at, half);
      RunOnGrid(awaited.engine, free, at, half);
      ShiftByHalf(free, at, half);
    }
  }

  /**
   * Main result: over any run of work runs that at most flip, with clean flips, rises stay on the
   * grid the mirror promises; so one flip takes the rises of a wrong mirror back to the grid.
   */
  lemma {:induction false} FlipsFollowTheMirror(s: Schedule, w: World, from: BlockView, visits: seq<Visit>, log: seq<Entry>,
                                                start: int, half: int)
    requires Logged(s, w, from, visits, log) && FollowsMirror(from, start, half)
    requires forall i :: 0 <= i < |log| ==>
               && OnlyFlips(log[i].before, visits[i].desired) && log[i].before.Sane()
               && CleanFlip(s, w, log[i].before, visits[i].desired, visits[i].clock)
    ensures FollowsMirror(End(from, log), start, half)
    ensures End(from, log).settled == (from.settled == !Odd(End(from, log).applied.flipGen - from.applied.flipGen))
    decreases |log|
  {
    hide Logged, Accounted, CleanFlip;
    if log == [] {
      OddAdd(0, 0);
    } else {
      var k := |log| - 1;
      Shorten(s, w, from, visits, log);
      FlipsFollowTheMirror(s, w, from, visits[..k], log[..k], start, half);
      var previous := End(from, log[..k]);
      LaterFollows(s, previous, start, half);
      FlipKeepsGrid(s, w, visits[k], log[k], start, half);
      FlipIsApplied(s, w, visits[k], log[k]);
      OddAdd(previous.applied.flipGen - from.applied.flipGen, log[k].after.applied.flipGen - previous.applied.flipGen);
    }
  }

  lemma FlipIsApplied(s: Schedule, w: World, visit: Visit, e: Entry)
    requires Accounted(s, w, visit, e) && OnlyFlips(e.before, visit.desired)
    ensures e.after.applied.flipGen == visit.desired.flipGen
    ensures FlipDue(visit.desired, e.before.applied) == Odd(e.after.applied.flipGen - e.before.applied.flipGen)
  {
    hide WorkOutcome, WorkStray, FlipScene, FollowsPlan, Odd;
    OutcomeReconciles(s, w, e.before, visit.desired, visit.newest, visit.clock);
  }

  lemma LaterFollows(s: Schedule, v: BlockView, start: int, half: int)
    requires FollowsMirror(v, start, half)
    ensures FollowsMirror(Later(s, v), start, half)
  {
    TickRuns(s, true, v.scene.m);
    RunOnGrid(v.scene.m.engine, Later(s, v).scene.m.engine, if v.settled then start else start + half, half);
  }

  /** Main result: one clean flip repairs a wrong mirror for good: from it on every rise is on the grid. */
  lemma OneFlipRepairs(s: Schedule, w: World, from: BlockView, visits: seq<Visit>, log: seq<Entry>, start: int, half: int)
    requires Logged(s, w, from, visits, log) && 0 < |log| == |visits| && log[0].before.Sane()
    requires FollowsMirror(log[0].before, start, half) && !log[0].before.settled
    requires OnlyFlips(log[0].before, visits[0].desired) && FlipDue(visits[0].desired, log[0].before.applied)
    requires CleanFlip(s, w, log[0].before, visits[0].desired, visits[0].clock)
    requires forall i :: 0 < i < |log| ==> Idle(log[i].before, visits[i].desired)
    ensures var repaired, now := log[0].after.scene.m.engine, End(from, log).scene.m.engine;
            && repaired.count <= now.count && now.OnGrid(start, half)
            && now.edges.RisesOnGrid(now.count - repaired.count, start, 2 * half)
  {
    hide Logged, Accounted, CleanFlip;
    Rest(s, w, from, visits, log, 0);
    FlipKeepsGrid(s, w, visits[0], log[0], start, half);
    assert forall i :: 0 <= i < |log[1..]| ==> Idle(log[1..][i].before, visits[1..][i].desired);
    IdleRunsStayOnGrid(s, w, log[0].after, visits[1..], log[1..], start, half);
  }
}
