/**
 * Publishers, the worker, its timer and the teardown thread as one interleaved state machine.
 * Every step is one atomic action of one of them; a run is any sequence of enabled steps.
 */
module Reconciler {
  import opened Arith
  import opened LinuxSpec
  import StartTiming

  /**
   * The work item: idle, started but not yet looking, or acting on the snapshot it took. A duty invert
   * reads the request once more; until it does, the newest request it knows is its snapshot.
   */
  datatype Worker = Idle | Entered | Busy(snap: Desired, newest: Desired)

  /** Where the teardown thread is. */
  datatype Teardown =
    | Serving | StopPublished | PublishersGone
    | TimerCancelled | WorkCancelling | WorkCancelled
    | TimerCancelledAgain | WorkCancellingAgain | Quiet
  {
    function Rank(): nat {
      match this
      case Serving => 0
      case StopPublished => 1
      case PublishersGone => 2
      case TimerCancelled => 3
      case WorkCancelling => 4
      case WorkCancelled => 5
      case TimerCancelledAgain => 6
      case WorkCancellingAgain => 7
      case Quiet => 8
    }

    /** cancel_work_sync holds the pending bit until the worker has finished. */
    predicate Holds() {
      WorkCancelling? || WorkCancellingAgain?
    }
  }

  datatype State = State(
    desired: Desired,
    /** Publishers between their write and their schedule. */
    unscheduled: nat,
    queued: bool, worker: Worker,
    timerArmed: bool, timerFiring: bool,
    /** The worker's most recent snapshot. */
    last: Desired, applied: Generations,
    /** No arm and no edge has failed since a new configuration was last acted on successfully. */
    ok: bool,
    /** Inverts performed and requested so far. */
    inverts: nat, requests: nat,
    teardown: Teardown)

  /** How a publisher changes the request. */
  datatype Change =
    | Configure(mode: StartTiming.OutputMode, periodNs: u64, highNs: Span, lowNs: Span, firstEdgeNs: s64)
    | Disable
    | Resync
    | Frequency
    | Flip

  datatype Step =
    | Publish(change: Change)
    | Schedule
    | Dequeue
    | TakeSnapshot
    | Reread
    | ArmTimer
    | DropTimer
    | Finish(after: Generations, ok: bool)
    | Expire
    | FireTimer
    | Teardown

  function Next32(gen: u32): u32 {
    (gen + 1) % TWO32
  }

  function Stop(desired: Desired): Desired {
    Desired(Next32(desired.gen), desired.freqGen, desired.flipGen, Stopped, StartTiming.Software, 0, 0, 0, 0)
  }

  /** A step and a frequency change only concern a running output; a flip is recorded either way. */
  function Changed(desired: Desired, change: Change): Desired {
    match change
    case Configure(mode, periodNs, highNs, lowNs, firstEdgeNs) =>
      Desired(Next32(desired.gen), desired.freqGen, desired.flipGen, Running, mode, periodNs, highNs, lowNs, firstEdgeNs)
    case Disable => Stop(desired)
    case Resync => if desired.run == Running then desired.(gen := Next32(desired.gen)) else desired
    case Frequency => if desired.run == Running then desired.(freqGen := Next32(desired.freqGen)) else desired
    case Flip => desired.(flipGen := Next32(desired.flipGen))
  }

  /** A publisher that changed nothing does not schedule. */
  predicate Schedules(desired: Desired, change: Change) {
    (change.Resync? || change.Frequency?) ==> desired.run == Running
  }

  function Init(): State {
    var none := Desired(0, 0, 0, Stopped, StartTiming.Software, 0, 0, 0, 0);
    State(none, 0, false, Idle, false, false, none, Generations(0, 0, 0), true, 0, 0, Serving)
  }

  /** schedule_work does nothing while the item is queued already or being cancelled. */
  function Queue(s: State): State {
    if s.teardown.Holds() then s else s.(queued := true)
  }

  predicate Enabled(s: State, step: Step) {
    match step
    // Once teardown has begun only a disable can still be in progress, until publishers are drained.
    case Publish(change) => s.teardown == Serving || (s.teardown == StopPublished && change == Disable)
    case Schedule => 0 < s.unscheduled
    case Dequeue => s.queued && s.worker == Idle
    case TakeSnapshot => s.worker == Entered
    case Reread => s.worker.Busy? && FlipDue(s.worker.snap, s.applied)
    case ArmTimer => s.worker.Busy? && s.worker.snap.run == Running
    case DropTimer => s.worker.Busy? && !s.timerFiring
    case Finish(after, ok) => s.worker.Busy? && Reconciles(s.applied, s.worker.snap, s.worker.newest, after, ok)
    case Expire => s.timerArmed && !s.timerFiring
    case FireTimer => s.timerFiring
    case Teardown => TeardownReady(s)
  }

  /** What each teardown call waits for. */
  predicate TeardownReady(s: State) {
    match s.teardown
    case StopPublished => s.unscheduled == 0
    case PublishersGone | WorkCancelled => !s.timerFiring
    case WorkCancelling | WorkCancellingAgain => s.worker == Idle
    case Quiet => false
    case _ => true
  }

  function Do(s: State, step: Step): State
    requires Enabled(s, step)
  {
    match step
    case Publish(change) =>
      s.(desired := Changed(s.desired, change),
         unscheduled := s.unscheduled + (if Schedules(s.desired, change) then 1 else 0),
         requests := s.requests + (if change == Flip then 1 else 0))
    case Schedule => Queue(s.(unscheduled := s.unscheduled - 1))
    case Dequeue => s.(queued := false, worker := Entered)
    case TakeSnapshot => s.(worker := Busy(s.desired, s.desired), last := s.desired)
    case Reread => s.(worker := Busy(s.worker.snap, s.desired))
    case ArmTimer => s.(timerArmed := true)
    case DropTimer => s.(timerArmed := false)
    case Finish(after, ok) =>
      s.(worker := Idle, applied := after, ok := StillOk(s, ok),
         inverts := s.inverts + (if FlipDue(s.worker.snap, s.applied) then 1 else 0))
    case Expire => s.(timerArmed := false, timerFiring := true)
    case FireTimer => Queue(s.(timerFiring := false))
    case Teardown => TeardownStep(s)
  }

  /** A failure stays one until a work run with a new generation, which arms or stops afresh, fails nowhere. */
  predicate StillOk(s: State, ok: bool)
    requires s.worker.Busy?
  {
    ok && (s.ok || s.worker.snap.gen != s.applied.gen)
  }

  /** Publish STOPPED, drain publishers, then cancel timer, work, timer, work. */
  function TeardownStep(s: State): State
    requires TeardownReady(s)
  {
    match s.teardown
    case Serving => s.(teardown := StopPublished, desired := Stop(s.desired))
    case StopPublished => s.(teardown := PublishersGone)
    case PublishersGone => s.(teardown := TimerCancelled, timerArmed := false)
    case TimerCancelled => s.(teardown := WorkCancelling, queued := false)
    case WorkCancelling => s.(teardown := WorkCancelled)
    case WorkCancelled => s.(teardown := TimerCancelledAgain, timerArmed := false)
    case TimerCancelledAgain => s.(teardown := WorkCancellingAgain, queued := false)
    case WorkCancellingAgain => s.(teardown := Quiet)
  }

  /** Every step of the sequence is enabled when it is taken. */
  predicate Runs(s: State, steps: seq<Step>)
    decreases |steps|, 0
  {
    steps == [] || (Runs(s, steps[..|steps| - 1]) && Enabled(After(s, steps[..|steps| - 1]), steps[|steps| - 1]))
  }

  function After(s: State, steps: seq<Step>): State
    requires Runs(s, steps)
    decreases |steps|, 1
  {
    if steps == [] then s else Do(After(s, steps[..|steps| - 1]), steps[|steps| - 1])
  }

  // ----- teardown

  predicate TeardownInv(s: State) {
    var rank := s.teardown.Rank();
    && (1 <= rank ==> s.desired.run == Stopped)
    && (2 <= rank ==> s.unscheduled == 0)
    && (s.teardown.Holds() ==> !s.queued)
    // A worker that started before the first cancel finished may still act on an old snapshot; no later one does.
    && (5 <= rank && s.worker.Busy? ==> s.worker.snap.run == Stopped)
    && (6 <= rank ==> !s.timerArmed && !s.timerFiring)
    && (rank == 8 ==> !s.queued && s.worker == Idle)
  }

  predicate AtRest(s: State) {
    !s.timerArmed && !s.timerFiring && !s.queued && s.worker == Idle && s.unscheduled == 0
  }

  lemma StepKeepsTeardownInv(s: State, step: Step)
    requires TeardownInv(s) && Enabled(s, step)
    ensures TeardownInv(Do(s, step))
  {
  }

  /** Main result: whatever the interleaving, when teardown returns nothing is armed, queued or running. */
  lemma {:induction false} TeardownQuiesces(steps: seq<Step>)
    requires Runs(Init(), steps)
    ensures TeardownInv(After(Init(), steps))
    ensures After(Init(), steps).teardown == Quiet ==> AtRest(After(Init(), steps))
  {
    if steps != [] {
      TeardownQuiesces(steps[..|steps| - 1]);
      StepKeepsTeardownInv(After(Init(), steps[..|steps| - 1]), steps[|steps| - 1]);
    }
  }

  /** After teardown no step of anybody is possible any more. */
  lemma QuietIsFinal(steps: seq<Step>, step: Step)
    requires Runs(Init(), steps) && After(Init(), steps).teardown == Quiet
    ensures !Enabled(After(Init(), steps), step)
  {
    TeardownQuiesces(steps);
  }

  /** A first round cancelled both the timer and the work, and left the timer armed. */
  predicate LateArm(s: State) {
    s.teardown == WorkCancelled && s.timerArmed
  }

  function LateArmRun(config: Change): seq<Step>
    requires config.Configure?
  {
    [Publish(config), Schedule, Dequeue, TakeSnapshot, // the worker has seen a running output
     Step.Teardown, Step.Teardown, Step.Teardown, Step.Teardown, // STOPPED, publishers, timer, and the work cancel waits
     ArmTimer, Finish(Generations(1, 0, 0), true), Step.Teardown] // it arms late, and only then is the work cancelled
  }

  /** The worker acts on a running output; nothing else is going on. */
  function SawRunning(config: Change): State {
    var snap := Changed(Init().desired, config);
    Init().(desired := snap, last := snap, worker := Busy(snap, snap))
  }

  lemma WorkerSeesRunning(config: Change)
    requires config.Configure?
    ensures Runs(Init(), LateArmRun(config)[..4]) && After(Init(), LateArmRun(config)[..4]) == SawRunning(config)
  {
    hide Runs, After, Changed;
    var run := LateArmRun(config);
    AtStart(run);
    var s := Advance(run, 0);
    s := Advance(run, 1);
    s := Advance(run, 2);
    s := Advance(run, 3);
  }

  lemma TeardownWaitsForWorker(config: Change)
    requires config.Configure?
    ensures Runs(Init(), LateArmRun(config)[..8])
    ensures var s := After(Init(), LateArmRun(config)[..8]);
            && s.teardown == WorkCancelling && s.worker == SawRunning(config).worker
            && s.applied == Generations(0, 0, 0)
  {
    hide Runs, After, Changed;
    var run := LateArmRun(config);
    WorkerSeesRunning(config);
    var s := Advance(run, 4);
    s := Advance(run, 5);
    s := Advance(run, 6);
    s := Advance(run, 7);
  }

  /** One cancel round does not suffice, whatever was configured. */
  lemma OneRoundIsNotEnough(config: Change)
    requires config.Configure?
    ensures Runs(Init(), LateArmRun(config)) && LateArm(After(Init(), LateArmRun(config)))
  {
    hide Runs, After;
    var run := LateArmRun(config);
    TeardownWaitsForWorker(config);
    var s := Advance(run, 8);
    s := Advance(run, 9);
    s := Advance(run, 10);
    assert run[..11] == run;
  }

  lemma AtStart(run: seq<Step>)
    ensures Runs(Init(), run[..0]) && After(Init(), run[..0]) == Init()
  {
  }

  // One more step of a run from the start.
  lemma Advance(run: seq<Step>, k: nat) returns (s: State)
    requires k < |run| && Runs(Init(), run[..k]) && Enabled(After(Init(), run[..k]), run[k])
    ensures Runs(Init(), run[..k + 1])
    ensures s == After(Init(), run[..k + 1]) == Do(After(Init(), run[..k]), run[k])
  {
    assert run[..k + 1][..k] == run[..k];
    s := After(Init(), run[..k + 1]);
  }

  // ----- convergence

  /**
   * An armed wake is not lost: until a worker takes its next snapshot, the timer is armed or firing,
   * the work is queued, or the worker is on its way to that snapshot.
   */
  lemma {:induction false} WakesAreServed(s: State, steps: seq<Step>)
    requires Runs(s, steps) && After(s, steps).teardown == Serving
    requires s.timerArmed && s.worker == Idle && TakeSnapshot !in steps
    ensures var t := After(s, steps);
            (t.timerArmed || t.timerFiring || t.queued || t.worker == Entered) && !t.worker.Busy?
  {
    hide Changed, Reconciles, FlipDue;
    if steps != [] {
      var rest := steps[..|steps| - 1];
      assert TakeSnapshot !in rest && steps[|steps| - 1] != TakeSnapshot;
      WakesAreServed(s, rest);
    }
  }

  /** The worker has nothing to do and nobody is about to give it anything. */
  predicate Converged(s: State) {
    s.teardown == Serving && !s.queued && s.worker == Idle && s.unscheduled == 0
  }

  /** A request newer than the last snapshot always has a worker on its way to it. */
  predicate Noticed(s: State) {
    s.last == s.desired || s.queued || 0 < s.unscheduled || s.worker == Entered
  }

  predicate WorkerInv(s: State) {
    Follows(s) && FlipParities(s)
  }

  /** The worker acts on the last snapshot, and an idle one has done what it could for it. */
  predicate Follows(s: State) {
    && (s.teardown == Serving ==> Noticed(s))
    && (s.worker.Busy? ==> s.worker.snap == s.last)
    && (s.worker == Idle && s.last.run == Running ==> Caught(s.last, s.applied, s.ok))
  }

  predicate FlipParities(s: State) {
    Odd(s.requests) == Odd(s.desired.flipGen) && Odd(s.inverts) == Odd(s.applied.flipGen)
  }

  /** Every flip of the snapshot is applied, and its generations are unless an arm or an edge failed. */
  predicate Caught(snap: Desired, applied: Generations, ok: bool) {
    && applied.flipGen == snap.flipGen
    && (applied.gen == snap.gen ==> applied.freqGen == snap.freqGen)
    && (ok ==> applied.gen == snap.gen)
  }

  lemma StepKeepsWorkerInv(s: State, step: Step)
    requires WorkerInv(s) && Enabled(s, step)
    ensures WorkerInv(Do(s, step))
  {
    hide Follows, FlipParities, Enabled, Do;
    if step.Finish? {
      FinishFollows(s, step.after, step.ok);
    } else if step.Publish? {
      PublishFollows(s, step.change);
    } else if step == Step.Teardown {
      TeardownFollows(s);
    } else {
      StepFollows(s, step);
    }
    StepKeepsParities(s, step);
  }

  lemma FinishFollows(s: State, after: Generations, ok: bool)
    requires Follows(s) && Enabled(s, Finish(after, ok))
    ensures Follows(Do(s, Finish(after, ok)))
  {
    hide Odd, FlipDue;
  }

  lemma PublishFollows(s: State, change: Change)
    requires Follows(s) && Enabled(s, Publish(change))
    ensures Follows(Do(s, Publish(change)))
  {
    hide Odd, Next32, Caught;
  }

  lemma TeardownFollows(s: State)
    requires Follows(s) && Enabled(s, Step.Teardown)
    ensures Follows(Do(s, Step.Teardown))
  {
    hide Queue, Changed, Reconciles, FlipDue, Odd, Stop, Caught;
  }

  lemma StepFollows(s: State, step: Step)
    requires Follows(s) && Enabled(s, step) && !step.Finish? && !step.Publish? && step != Step.Teardown
    ensures Follows(Do(s, step))
  {
    hide Odd, Next32, FlipDue, Stop, Caught;
  }

  lemma StepKeepsParities(s: State, step: Step)
    requires FlipParities(s) && Enabled(s, step)
    ensures FlipParities(Do(s, step))
  {
    hide Odd, Next32;
    if step.Publish? {
      NextParity(s.desired.flipGen, s.requests);
    } else if step.Finish? {
      FinishParity(s.inverts, s.applied.flipGen, step.after.flipGen);
    }
  }

  lemma NextParity(gen: u32, requests: nat)
    ensures Odd(requests) == Odd(gen) ==> Odd(requests + 1) == Odd(Next32(gen))
  {
  }

  lemma FinishParity(inverts: nat, was: u32, now: u32)
    requires Odd(inverts) == Odd(was)
    ensures Odd(inverts + (if Odd(now - was) then 1 else 0)) == Odd(now)
  {
  }

  lemma {:induction false} EveryRunKeepsWorkerInv(steps: seq<Step>)
    requires Runs(Init(), steps)
    ensures WorkerInv(After(Init(), steps))
  {
    if steps != [] {
      EveryRunKeepsWorkerInv(steps[..|steps| - 1]);
      StepKeepsWorkerInv(After(Init(), steps[..|steps| - 1]), steps[|steps| - 1]);
    }
  }

  /**
   * Main result: in every reachable converged state the last snapshot is the current request. If it
   * is running, every flip is applied and the inverts performed have the parity of the inverts
   * requested, however they coalesced and even if some came while stopped; and if no arm and no edge
   * failed since a new configuration was last acted on, all three applied generations are the request's.
   */
  lemma Convergence(steps: seq<Step>)
    requires Runs(Init(), steps) && Converged(After(Init(), steps))
    ensures var s := After(Init(), steps);
            && s.last == s.desired
            && (s.desired.run == Running ==>
                  && s.applied.flipGen == s.desired.flipGen
                  && Odd(s.inverts) == Odd(s.requests)
                  && (s.ok ==> s.applied == Generations(s.desired.gen, s.desired.freqGen, s.desired.flipGen)))
  {
    EveryRunKeepsWorkerInv(steps);
  }

  /** The work run being finished found its generation applied already, so it did not arm. */
  predicate ArmsNothing(s: State, step: Step) {
    step.Finish? && s.worker.Busy? ==> s.worker.snap.gen == s.applied.gen
  }

  /** A block left disabled by a failure never counts as good again just because its generation is recorded. */
  lemma {:induction false} FailureSticks(s: State, steps: seq<Step>)
    requires Runs(s, steps) && !s.ok
    requires forall k :: 0 <= k < |steps| && Runs(s, steps[..k]) ==> ArmsNothing(After(s, steps[..k]), steps[k])
    ensures !After(s, steps).ok
  {
    hide Enabled, Do, ArmsNothing;
    if steps != [] {
      var front := steps[..|steps| - 1];
      assert forall k :: 0 <= k < |front| ==> front[..k] == steps[..k];
      FailureSticks(s, front);
      FailureStays(After(s, front), steps[|steps| - 1]);
    }
  }

  lemma FailureStays(s: State, step: Step)
    requires Enabled(s, step) && !s.ok && ArmsNothing(s, step)
    ensures !Do(s, step).ok
  {
    hide FlipDue, Reconciles, Changed, Stop;
  }

  /** Some request of the run carried this configuration and this frequency. */
  ghost predicate WasRequested(steps: seq<Step>, gen: u32, freqGen: u32)
    requires Runs(Init(), steps)
  {
    exists k: nat :: RequestedAt(steps, k, gen, freqGen)
  }

  predicate RequestedAt(steps: seq<Step>, k: nat, gen: u32, freqGen: u32) {
    && k <= |steps| && Runs(Init(), steps[..k])
    && After(Init(), steps[..k]).desired.gen == gen && After(Init(), steps[..k]).desired.freqGen == freqGen
  }

  /** What the worker holds, acts on and has applied. */
  ghost predicate OnlyRequests(steps: seq<Step>)
    requires Runs(Init(), steps)
  {
    var s := After(Init(), steps);
    && WasRequested(steps, s.applied.gen, s.applied.freqGen)
    && WasRequested(steps, s.desired.gen, s.desired.freqGen)
    && (s.worker.Busy? ==>
          && WasRequested(steps, s.worker.snap.gen, s.worker.snap.freqGen)
          && WasRequested(steps, s.worker.newest.gen, s.worker.newest.freqGen))
  }

  /** Whatever fails, the applied configuration and frequency are those of one request made during the run. */
  lemma {:induction false} AppliedWasRequested(steps: seq<Step>)
    requires Runs(Init(), steps)
    ensures OnlyRequests(steps)
  {
    hide Enabled, Do;
    assert steps[..|steps|] == steps;
    var s := After(Init(), steps);
    assert RequestedAt(steps, |steps|, s.desired.gen, s.desired.freqGen);
    if steps == [] {
      assert s == Init();
    } else {
      var front := steps[..|steps| - 1];
      AppliedWasRequested(front);
      forall gen, freqGen | WasRequested(front, gen, freqGen)
        ensures WasRequested(steps, gen, freqGen)
      {
        var k: nat :| RequestedAt(front, k, gen, freqGen);
        assert steps[..k] == front[..k];
        assert RequestedAt(steps, k, gen, freqGen);
      }
      StepTakesRequests(After(Init(), front), steps[|steps| - 1]);
    }
  }

  // Configuration and frequency only travel from the request to the worker and from there to the hardware.
  lemma StepTakesRequests(s: State, step: Step)
    requires Enabled(s, step)
    ensures var t := Do(s, step);
            && (|| (t.applied.gen == s.applied.gen && t.applied.freqGen == s.applied.freqGen)
                || (s.worker.Busy? &&
                    (|| (t.applied.gen == s.worker.snap.gen && t.applied.freqGen == s.worker.snap.freqGen)
                     || (t.applied.gen == s.worker.newest.gen && t.applied.freqGen == s.worker.newest.freqGen))))
            && (t.worker.Busy? ==>
                  && (t.worker.snap == s.desired || (s.worker.Busy? && t.worker.snap == s.worker.snap))
                  && (t.worker.newest == s.desired || (s.worker.Busy? && t.worker.newest == s.worker.newest)))
  {
    hide Odd, Changed, FlipDue, Schedules, Stop;
  }

  // ----- what was published, read off the steps alone

  /** Teardown publishes one stop, when it begins. */
  predicate BeginsTeardown(before: seq<Step>, step: Step) {
    step == Step.Teardown && Step.Teardown !in before
  }

  /** The last publication that decides whether and how the output runs. */
  function InForce(steps: seq<Step>): Change {
    if steps == [] then Disable
    else
      var front, step := steps[..|steps| - 1], steps[|steps| - 1];
      if step.Publish? && (step.change.Configure? || step.change.Disable?) then step.change
      else if BeginsTeardown(front, step) then Disable
      else InForce(front)
  }

  /** A publication asks for a new arm: any configuration or stop, and a clock step while running. */
  predicate AsksToArm(before: seq<Step>, step: Step) {
    || (step.Publish? && (step.change.Configure? || step.change.Disable?))
    || (step == Publish(Resync) && InForce(before).Configure?)
    || BeginsTeardown(before, step)
  }

  /** A publication asks to follow a new rate: a frequency change while running. */
  predicate AsksToFollow(before: seq<Step>, step: Step) {
    step == Publish(Frequency) && InForce(before).Configure?
  }

  datatype Aspect = Configuration | Rate

  /** How many publications asked for a new arm, or for a new rate. */
  function Asks(steps: seq<Step>, a: Aspect): nat {
    if steps == [] then 0
    else
      var front, step := steps[..|steps| - 1], steps[|steps| - 1];
      Asks(front, a) + if (if a == Configuration then AsksToArm(front, step) else AsksToFollow(front, step)) then 1 else 0
  }

  function Flips(steps: seq<Step>): nat {
    if steps == [] then 0 else Flips(steps[..|steps| - 1]) + if steps[|steps| - 1] == Publish(Flip) then 1 else 0
  }

  function Asked(a: Aspect, desired: Desired): u32 {
    if a == Configuration then desired.gen else desired.freqGen
  }

  function Has(a: Aspect, applied: Generations): u32 {
    if a == Configuration then applied.gen else applied.freqGen
  }

  /** The request carries exactly what is in force, and its generations count what was asked for. */
  predicate Carries(d: Desired, steps: seq<Step>) {
    && d.gen == Asks(steps, Configuration) % TWO32 && d.freqGen == Asks(steps, Rate) % TWO32
    && d.flipGen == Flips(steps) % TWO32
    && match InForce(steps)
       case Configure(mode, periodNs, highNs, lowNs, firstEdgeNs) =>
         && d.run == Running && d.mode == mode && d.periodNs == periodNs
         && d.highNs == highNs && d.lowNs == lowNs && d.firstEdgeNs == firstEdgeNs
       case _ => d.run == Stopped
  }

  /** Main result: whatever the interleaving, the request is what was published, and teardown stops it for good. */
  lemma {:induction false} RequestIsWhatWasPublished(steps: seq<Step>)
    requires Runs(Init(), steps)
    ensures Carries(After(Init(), steps).desired, steps)
    ensures After(Init(), steps).teardown == Serving <==> Step.Teardown !in steps
    ensures InForce(steps).Configure? || InForce(steps).Disable?
  {
    hide Odd, Do, Enabled;
    if steps == [] {
      NothingAsked();
    } else {
      var front, step := steps[..|steps| - 1], steps[|steps| - 1];
      RequestIsWhatWasPublished(front);
      assert steps == front + [step];
      PublishedStep(front, step, After(Init(), front));
      NextCount(Asks(front, Configuration));
      NextCount(Asks(front, Rate));
      NextCount(Flips(front));
    }
  }

  lemma NothingAsked()
    ensures Carries(Init().desired, [])
  {
  }

  lemma NextCount(n: nat)
    ensures (n + 1) % TWO32 == Next32(n % TWO32)
  {
  }

  lemma PublishedStep(front: seq<Step>, step: Step, s: State)
    requires Enabled(s, step) && Carries(s.desired, front)
    requires s.teardown == Serving <==> Step.Teardown !in front
    requires InForce(front).Configure? || InForce(front).Disable?
    ensures var d := Do(s, step).desired;
            && d.gen == (if AsksToArm(front, step) then Next32(s.desired.gen) else s.desired.gen)
            && d.freqGen == (if AsksToFollow(front, step) then Next32(s.desired.freqGen) else s.desired.freqGen)
            && d.flipGen == (if step == Publish(Flip) then Next32(s.desired.flipGen) else s.desired.flipGen)
            && (if step.Publish? && step.change.Configure?
                then && d.run == Running && d.mode == step.change.mode && d.periodNs == step.change.periodNs
                     && d.highNs == step.change.highNs && d.lowNs == step.change.lowNs
                     && d.firstEdgeNs == step.change.firstEdgeNs
                else if step == Publish(Disable) || BeginsTeardown(front, step) then d.run == Stopped
                else && d.run == s.desired.run && d.mode == s.desired.mode && d.periodNs == s.desired.periodNs
                     && d.highNs == s.desired.highNs && d.lowNs == s.desired.lowNs
                     && d.firstEdgeNs == s.desired.firstEdgeNs)
            && (Do(s, step).teardown == Serving <==> s.teardown == Serving && step != Step.Teardown)
  {
    hide Next32, Asks, Odd, Reconciles, InForce, Do, Enabled;
    if step.Publish? {
      PublishEffect(s, step.change);
    } else {
      OthersEffect(s, step);
    }
    if step == Publish(Resync) || step == Publish(Frequency) {
      RunsByForce(s.desired, front);
    }
  }

  lemma RunsByForce(d: Desired, steps: seq<Step>)
    requires Carries(d, steps) && (InForce(steps).Configure? || InForce(steps).Disable?)
    ensures InForce(steps).Configure? <==> d.run == Running
  {
    hide InForce, Asks, Flips;
  }

  lemma PublishEffect(s: State, change: Change)
    requires Enabled(s, Publish(change))
    ensures Do(s, Publish(change)).teardown == s.teardown
    ensures s.teardown == Serving || change == Disable
    ensures Do(s, Publish(change)).desired == Changed(s.desired, change)
  {
    hide Changed, Schedules;
  }

  lemma OthersEffect(s: State, step: Step)
    requires Enabled(s, step) && !step.Publish?
    ensures Do(s, step).desired == if step == Step.Teardown && s.teardown == Serving then Stop(s.desired) else s.desired
    ensures Do(s, step).teardown == Serving <==> s.teardown == Serving && step != Step.Teardown
  {
    hide Stop, Reconciles, FlipDue;
  }

  // ----- no publication is overlooked

  /** Generations only ever come from requests made before. */
  predicate Bounded(s: State, a: Aspect) {
    && Has(a, s.applied) <= Asked(a, s.desired)
    && (s.worker.Busy? ==> Asked(a, s.worker.snap) <= Asked(a, s.desired) && Asked(a, s.worker.newest) <= Asked(a, s.desired))
  }

  lemma StepKeepsBounded(s: State, step: Step, a: Aspect)
    requires Bounded(s, a) && Enabled(s, step) && Asked(a, s.desired) <= Asked(a, Do(s, step).desired)
    ensures Bounded(Do(s, step), a)
  {
    hide Odd, Changed, FlipDue, Schedules, Stop;
  }

  lemma {:induction false} RunKeepsBounded(steps: seq<Step>, a: Aspect)
    requires Runs(Init(), steps) && Asks(steps, a) < TWO32
    ensures Bounded(After(Init(), steps), a)
  {
    hide Bounded, Enabled, Do, Carries;
    if steps == [] {
      NothingIsBounded(a);
    } else {
      var front := steps[..|steps| - 1];
      RunKeepsBounded(front, a);
      AsksGrow(steps, a);
      CountsExactly(front, a);
      CountsExactly(steps, a);
      StepKeepsBounded(After(Init(), front), steps[|steps| - 1], a);
    }
  }

  lemma NothingIsBounded(a: Aspect)
    ensures Bounded(Init(), a)
  {
  }

  lemma AsksGrow(steps: seq<Step>, a: Aspect)
    requires steps != []
    ensures Asks(steps[..|steps| - 1], a) <= Asks(steps, a) <= Asks(steps[..|steps| - 1], a) + 1
  {
  }

  /** While the counters have not wrapped, the generation asked for is the number of publications that asked. */
  lemma CountsExactly(steps: seq<Step>, a: Aspect)
    requires Runs(Init(), steps) && Asks(steps, a) < TWO32
    ensures Asked(a, After(Init(), steps).desired) == Asks(steps, a)
  {
    RequestIsWhatWasPublished(steps);
  }

  /** A generation is asked for and not applied, and a work run is on its way to it. */
  predicate Awaits(s: State, a: Aspect, g: nat) {
    && s.teardown == Serving && s.desired.run == Running
    && Has(a, s.applied) < g <= Asked(a, s.desired)
    && (s.worker.Busy? && g <= Asked(a, s.worker.snap) ==> s.worker.snap.run == Running)
    && (s.queued || 0 < s.unscheduled || s.worker == Entered || (s.worker.Busy? && g <= Asked(a, s.worker.snap)))
  }

  /** The end of a work run that found an older generation applied and acted on this one or a newer one. */
  predicate ActsOn(s: State, step: Step, a: Aspect, g: nat) {
    && step.Finish? && s.worker.Busy? && s.worker.snap.run == Running
    && Has(a, s.applied) < g && (g <= Asked(a, s.worker.snap) || g <= Asked(a, s.worker.newest))
  }

  lemma StepAwaits(s: State, step: Step, a: Aspect, g: nat)
    requires Awaits(s, a, g) && Enabled(s, step) && step != Step.Teardown
    requires Asked(a, s.desired) <= Asked(a, Do(s, step).desired) && Do(s, step).desired.run == Running
    ensures Awaits(Do(s, step), a, g) || ActsOn(s, step, a, g)
  {
    hide Odd, Changed;
    if step.Finish? {
      FinishAwaits(s, step.after, step.ok, a, g);
    }
  }

  lemma FinishAwaits(s: State, after: Generations, ok: bool, a: Aspect, g: nat)
    requires Awaits(s, a, g) && Enabled(s, Finish(after, ok))
    ensures Awaits(Do(s, Finish(after, ok)), a, g) || ActsOn(s, Finish(after, ok), a, g)
  {
    hide Odd, FlipDue;
  }

  /** Step r of the run ends a work run that acts on this generation. */
  predicate ActedOnAt(steps: seq<Step>, r: nat, a: Aspect, g: nat) {
    r < |steps| && Runs(Init(), steps[..r]) && ActsOn(After(Init(), steps[..r]), steps[r], a, g)
  }

  /** The publication at step p asks for something new of a running output. */
  predicate Publishes(steps: seq<Step>, p: nat, a: Aspect) {
    && p < |steps| && steps[p].Publish? && steps[p].change != Disable
    && if a == Configuration then AsksToArm(steps[..p], steps[p]) else AsksToFollow(steps[..p], steps[p])
  }

  /**
   * Main result: no publication is overlooked. A configuration, a clock step or a frequency change on
   * a running output asks for a generation that was not applied before; and if no stop follows, in
   * every converged state a work run has ended since that found an older generation applied and
   * acted on this one or a newer one. Until a counter has wrapped.
   */
  lemma {:induction false} PublicationIsActedOn(steps: seq<Step>, p: nat, a: Aspect) returns (r: nat)
    requires Runs(Init(), steps) && Converged(After(Init(), steps)) && Asks(steps, a) < TWO32
    requires Publishes(steps, p, a)
    requires forall k :: p < k < |steps| ==> steps[k] != Publish(Disable)
    ensures Asks(steps[..p + 1], a) == Asks(steps[..p], a) + 1 && Runs(Init(), steps[..p + 1])
    ensures Has(a, After(Init(), steps[..p + 1]).applied) < Asks(steps[..p + 1], a)
    ensures p < r && ActedOnAt(steps, r, a, Asks(steps[..p + 1], a))
  {
    hide Enabled, Do, ActsOn, Awaits, Carries;
    RequestIsWhatWasPublished(steps);
    PrefixRuns(steps, p + 1);
    PublishedAwaits(steps, p, a);
    r := Await(steps, p, |steps|, a, Asks(steps[..p + 1], a));
    assert steps[..|steps|] == steps;
    if r == |steps| {
      NotAwaiting(After(Init(), steps), a, Asks(steps[..p + 1], a));
    }
  }

  lemma NotAwaiting(s: State, a: Aspect, g: nat)
    requires Converged(s)
    ensures !Awaits(s, a, g)
  {
  }

  lemma {:induction false} PrefixRuns(steps: seq<Step>, k: nat)
    requires Runs(Init(), steps) && k <= |steps|
    ensures Runs(Init(), steps[..k])
    ensures forall a :: Asks(steps[..k], a) <= Asks(steps, a)
    ensures k < |steps| ==> Enabled(After(Init(), steps[..k]), steps[k])
    ensures k < |steps| ==> Runs(Init(), steps[..k + 1])
                            && After(Init(), steps[..k + 1]) == Do(After(Init(), steps[..k]), steps[k])
    decreases |steps|
  {
    hide Enabled, Do;
    if k == |steps| {
      assert steps[..k] == steps;
    } else {
      var front := steps[..|steps| - 1];
      PrefixRuns(front, k);
      assert front[..k] == steps[..k];
      if k + 1 < |steps| {
        assert front[..k + 1] == steps[..k + 1];
      } else {
        assert steps[..k + 1] == steps && front == steps[..k];
      }
    }
  }

  lemma PublishedAwaits(steps: seq<Step>, p: nat, a: Aspect)
    requires Runs(Init(), steps) && Asks(steps, a) < TWO32 && Publishes(steps, p, a)
    requires Step.Teardown !in steps
    ensures Runs(Init(), steps[..p + 1]) && Asks(steps[..p + 1], a) == Asks(steps[..p], a) + 1
    ensures Awaits(After(Init(), steps[..p + 1]), a, Asks(steps[..p + 1], a)) && InForce(steps[..p + 1]).Configure?
    ensures Has(a, After(Init(), steps[..p + 1]).applied) < Asks(steps[..p + 1], a)
  {
    hide Odd, Runs, After, Changed;
    PrefixRuns(steps, p);
    PrefixRuns(steps, p + 1);
    assert steps[..p + 1][..p] == steps[..p] && steps[..p + 1][p] == steps[p];
    RunKeepsBounded(steps[..p], a);
    CountsExactly(steps[..p], a);
    CountsExactly(steps[..p + 1], a);
    RequestIsWhatWasPublished(steps[..p]);
    RequestIsWhatWasPublished(steps[..p + 1]);
  }

  // From the publication on, either it has been acted on or it is still awaited.
  lemma {:induction false} Await(steps: seq<Step>, p: nat, i: nat, a: Aspect, g: nat) returns (r: nat)
    requires Runs(Init(), steps) && Asks(steps, a) < TWO32 && p < i <= |steps| && Step.Teardown !in steps
    requires Runs(Init(), steps[..p + 1]) && Awaits(After(Init(), steps[..p + 1]), a, g)
    requires InForce(steps[..p + 1]).Configure?
    requires forall k :: p < k < |steps| ==> steps[k] != Publish(Disable)
    ensures Runs(Init(), steps[..i]) && InForce(steps[..i]).Configure?
    ensures p < r <= |steps|
    ensures r < |steps| ==> ActedOnAt(steps, r, a, g)
    ensures r == |steps| ==> Awaits(After(Init(), steps[..i]), a, g)
    decreases i
  {
    hide Enabled, Do, ActsOn, Awaits, Carries, Asks;
    if i == p + 1 {
      r := |steps|;
    } else {
      r := Await(steps, p, i - 1, a, g);
      PrefixRuns(steps, i - 1);
      PrefixRuns(steps, i);
      assert steps[..i][..i - 1] == steps[..i - 1] && steps[..i][i - 1] == steps[i - 1];
      StaysInForce(steps[..i]);
      if r == |steps| {
        var s := After(Init(), steps[..i - 1]);
        StillRunning(steps[..i], a);
        StepAwaits(s, steps[i - 1], a, g);
        if ActsOn(s, steps[i - 1], a, g) {
          r := i - 1;
        }
      }
    }
  }

  lemma StaysInForce(steps: seq<Step>)
    requires steps != [] && InForce(steps[..|steps| - 1]).Configure?
    requires steps[|steps| - 1] != Publish(Disable) && steps[|steps| - 1] != Step.Teardown
    ensures InForce(steps).Configure?
  {
  }

  lemma StillRunning(steps: seq<Step>, a: Aspect)
    requires Runs(Init(), steps) && steps != [] && Asks(steps, a) < TWO32 && InForce(steps).Configure?
    ensures Runs(Init(), steps[..|steps| - 1])
    ensures After(Init(), steps).desired.run == Running
    ensures Asked(a, After(Init(), steps[..|steps| - 1]).desired) <= Asked(a, After(Init(), steps).desired)
  {
    hide Enabled, Do;
    AsksGrow(steps, a);
    CountsExactly(steps[..|steps| - 1], a);
    CountsExactly(steps, a);
    RequestIsWhatWasPublished(steps);
  }

  /** At convergence the last snapshot carries what is in force, field by field, and the flips were all applied. */
  lemma ConvergedOnWhatIsInForce(steps: seq<Step>)
    requires Runs(Init(), steps) && Converged(After(Init(), steps))
    ensures Carries(After(Init(), steps).last, steps)
    ensures InForce(steps).Configure? ==> Odd(After(Init(), steps).inverts) == Odd(Flips(steps))
  {
    RequestIsWhatWasPublished(steps);
    Convergence(steps);
    EveryRunKeepsWorkerInv(steps);
    SameParity(Flips(steps));
  }

  lemma SameParity(n: nat)
    ensures Odd(n % TWO32) == Odd(n)
  {
  }

  /** Neither a publisher nor teardown moves. */
  predicate Undisturbed(steps: seq<Step>) {
    forall i :: 0 <= i < |steps| ==> !steps[i].Publish? && steps[i] != Step.Teardown
  }

  /** What is left to do when nobody publishes any more. */
  function Remaining(s: State): nat {
    5 * s.unscheduled + (if s.queued then 3 else 0) + (match s.worker case Idle => 0 case Entered => 2 case Busy(_, _) => 1)
  }

  /** A work run whose arm succeeds. */
  function Succeeds(applied: Generations, snap: Desired): Generations {
    if snap.run == Stopped then applied else Generations(snap.gen, snap.freqGen, snap.flipGen)
  }

  function NextWork(s: State): Step
    requires s.teardown == Serving && !Converged(s)
  {
    if 0 < s.unscheduled then Schedule
    else
      match s.worker
      case Idle => Dequeue
      case Entered => TakeSnapshot
      case Busy(snap, _) => Finish(Succeeds(s.applied, snap), true)
  }

  /** The steps that bring a request to the hardware. */
  predicate Advances(step: Step) {
    step.Schedule? || step.Dequeue? || step.TakeSnapshot? || step.Finish?
  }

  function Count(steps: seq<Step>, counts: Step -> bool): nat {
    if steps == [] then 0
    else Count(steps[..|steps| - 1], counts) + if counts(steps[|steps| - 1]) then 1 else 0
  }

  /**
   * Main result: once publishers pause, every schedule converges. The worker takes at most as many
   * advancing steps as are left, three more for each firing of the timer; it is out of them exactly
   * when it has converged; and whatever it looked at since is the request they left.
   */
  lemma {:induction false} EveryScheduleConverges(s: State, steps: seq<Step>)
    requires s.teardown == Serving && Undisturbed(steps) && Runs(s, steps)
    ensures var t := After(s, steps);
            && t.teardown == Serving && t.desired == s.desired
            && Count(steps, Advances) + Remaining(t) <= Remaining(s) + 3 * Count(steps, step => step == FireTimer)
            && (Converged(t) <==> forall step :: Advances(step) ==> !Enabled(t, step))
            && (TakeSnapshot in steps || s.last == s.desired ==> t.last == s.desired)
  {
    var t := After(s, steps);
    if steps != [] {
      var front, step := steps[..|steps| - 1], steps[|steps| - 1];
      EveryScheduleConverges(s, front);
      UndisturbedStep(After(s, front), step);
    }
    if !Converged(t) {
      assert Advances(NextWork(t)) && Enabled(t, NextWork(t));
    }
  }

  lemma UndisturbedStep(s: State, step: Step)
    requires s.teardown == Serving && Enabled(s, step) && !step.Publish? && step != Step.Teardown
    ensures var t := Do(s, step);
            && t.teardown == Serving && t.desired == s.desired
            && t.last == (if step == TakeSnapshot then s.desired else s.last)
            && (if Advances(step) then 1 else 0) + Remaining(t) <= Remaining(s) + if step == FireTimer then 3 else 0
  {
  }

  /** Once publishers pause there is a schedule, with arms that succeed, that converges on the request they left. */
  lemma {:induction false} ConvergesAlone(s: State) returns (steps: seq<Step>)
    requires s.teardown == Serving
    ensures Undisturbed(steps) && Runs(s, steps)
    ensures Converged(After(s, steps)) && After(s, steps).desired == s.desired
    decreases Remaining(s)
  {
    if Converged(s) {
      steps := [];
    } else {
      var step := NextWork(s);
      var rest := ConvergesAlone(Do(s, step));
      Prepend(s, step, rest);
      steps := [step] + rest;
    }
  }

  lemma {:induction false} Prepend(s: State, step: Step, rest: seq<Step>)
    requires Enabled(s, step) && Runs(Do(s, step), rest)
    ensures Runs(s, [step] + rest) && After(s, [step] + rest) == After(Do(s, step), rest)
    decreases |rest|
  {
    var steps := [step] + rest;
    if rest == [] {
      assert steps[..0] == [] && Runs(s, []) && After(s, []) == s;
    } else {
      Prepend(s, step, rest[..|rest| - 1]);
      assert steps[..|steps| - 1] == [step] + rest[..|rest| - 1];
    }
  }
}
