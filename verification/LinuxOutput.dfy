/**
 * The Linux driver's output routines over one register block: arm, re-arm, frequency refresh,
 * nudge, invert, duty service and stop, each proved for every interleaving with hardware edges.
 */
module LinuxOutput {
  import opened Arith
  import opened Arming
  import opened Interleaving
  import opened LinuxSpec
  import opened Nudge
  import opened PhcClock
  import opened Quantization
  import opened SoftwarePath
  import opened StartTiming
  import opened ToggleEngine
  import opened TogglePort

  class LinuxBlock {
    const port: Port
    const world: World
    /** How many times the clocks and the newest request have been consulted. */
    var samples: nat

    var phase: OutputPhase
    var highNs: Span
    var lowNs: Span
    var nextEdgeNs: s64
    var nextRising: bool
    var hwFirstArt: u64
    var wakeAt: s64
    var appliedGen: u32
    var appliedFreqGen: u32
    var appliedFlipGen: u32

    constructor (powerOnLevel: bool, schedule: Schedule, world: World)
      ensures Valid() && fresh(port) && !port.ctl.en && port.engine == Engine(0, 0, powerOnLevel, 0, Quiet)
      ensures port.schedule == schedule && this.world == world
      ensures (Settled() <==> !powerOnLevel) && phase == ToggleStep && Applied() == Generations(0, 0, 0)
      ensures port.flopHigh == false && samples == 0
    {
      port := new Port(powerOnLevel, schedule);
      this.world := world;
      samples := 0;
      phase, highNs, lowNs, nextEdgeNs, nextRising := ToggleStep, 0, 0, 0, false;
      hwFirstArt, wakeAt, appliedGen, appliedFreqGen, appliedFlipGen := 0, 0, 0, 0, 0;
      new;
    }

    ghost function Here(): Scene
      reads this`samples, port`engine, port`accesses
    {
      Scene(port.Now(), samples)
    }

    function Cadence(): Cadence
      reads this`nextEdgeNs, this`nextRising, this`wakeAt, this`highNs, this`lowNs
    {
      SoftwarePath.Cadence.Cadence(nextEdgeNs, nextRising, wakeAt, highNs, lowNs)
    }

    function Applied(): Generations
      reads this`appliedGen, this`appliedFreqGen, this`appliedFlipGen
    {
      Generations(appliedGen, appliedFreqGen, appliedFlipGen)
    }

    /** What a routine finds. */
    ghost function View(): BlockView
      reads this, port
    {
      BlockView(phase, port.ctl.en, Here(), port.hwPiv, Cadence(), Applied(), Settled(), port.flopHigh,
                port.ckptCompv, port.ckptEdge, port.ctl.ep)
    }

    /** What a routine leaves. */
    ghost function Left(ok: bool): Outcome
      reads this, port`ctl
    {
      Outcome(ok, phase, port.ctl.en, Applied(), Cadence())
    }

    /** The mirror is right as soon as the next fold finds what it expects. */
    ghost predicate Settled()
      reads this`phase, port
    {
      port.Right() == (phase == HwDuty || port.Faithful())
    }

    ghost predicate Valid()
      reads this`phase, port
    {
      && Foldable()
      && (phase.FreeRuns() ==> port.ctl.Live())
      && (phase == HwDuty ==> port.Tracks())
    }

    /** What a fold and a disable can start from, also halfway through arming. */
    ghost predicate Foldable()
      reads this`phase, port
    {
      && port.Valid()
      && (if phase.FreeRuns() then 0 < port.hwPiv else port.hwPiv == 0 && !port.ctl.pm)
      && (phase == HwDuty ==> port.Tracks() || (!port.ctl.Live() && port.Unfolded() == 0))
    }

    /** No duty waveform runs or is about to. */
    predicate Symmetric()
      reads this`phase, this`highNs, this`lowNs
    {
      phase != HwDuty && (phase == ArmPeriodic ==> highNs == lowNs)
    }

    /** Fold by phase. A symmetric output counts edges; a duty output assumes at most one. */
    method Fold() returns (ghost stray: nat)
      requires Foldable()
      modifies port`engine, port`accesses, port`base, port`flopHigh, port`ckptCompv, port`ckptEdge
      ensures Foldable() && Ran(old(port.engine), port.engine)
      ensures old(port.Tracks()) ==> phase == HwDuty ==> port.Tracks()
      ensures if old(port.ctl.Live()) then true else port.engine == old(port.engine) && port.Unfolded() == 0
      ensures port.hwPiv == 0 ==> port.flopHigh == old(port.flopHigh)
      ensures Settled() == (old(Settled()) == !Odd(stray))
      ensures phase != HwDuty ==> stray == 0 && port.Faithful()
      ensures phase == HardwarePeriodic && old(port.ctl.Live()) ==>
                && port.Steady() && old(port.engine.count) <= port.ckptEdge
                && port.Now() == Folded(port.schedule, true, old(port.Now())).after
                && port.ckptEdge == Folded(port.schedule, true, old(port.Now())).seen.count
      ensures phase == HwDuty && old(port.Tracks()) ==>
                stray == Excess(port.ckptEdge - old(port.ckptEdge)) && old(port.engine.count) <= port.ckptEdge
      ensures old(port.ckptEdge) <= port.ckptEdge
      ensures phase.FreeRuns() ==> old(port.accesses) < port.accesses
      ensures phase == HwDuty && !old(port.ctl.Live()) && old(port.Unfolded()) == 0 ==>
                stray == if port.engine.compv == old(port.ckptCompv) then 0 else 1
      ensures phase == HwDuty && !old(port.ctl.Live()) ==>
                port.flopHigh == (old(port.flopHigh) != (port.engine.compv != old(port.ckptCompv)))
      ensures phase == HwDuty && old(port.ctl.Live()) ==>
                old(View()).Sane() && View() == DrainStep(port.schedule, old(View()))
      ensures phase == HwDuty && old(port.ckptCompv <= port.base.compv) ==> old(port.ckptCompv) <= port.ckptCompv
    {
      stray := 0;
      if port.hwPiv == 0 {
        return;
      }
      if phase == HwDuty {
        ghost var moved, counted := port.FoldSingle();
        stray := if !moved then 0 else if counted == 0 then 1 else counted - 1;
        return;
      }
      if phase != HardwarePeriodic {
        return;
      }
      port.Fold();
    }

    /** Clear EN, then fold, then clear the registers: no edge can escape the count. */
    method Quiesce() returns (ctrl: Ctl, ghost stray: nat)
      requires Foldable()
      modifies port`ctl, port`engine, port`accesses, port`base, port`flopHigh, port`ckptCompv, port`ckptEdge
      ensures Foldable() && port.OldWaveform()
      ensures ctrl == old(port.ctl) && port.ctl == ctrl.(en := false)
      ensures port.engine.compv == 0 && port.engine.piv == 0 && port.Unfolded() == 0
      ensures port.hwPiv == 0 ==> port.flopHigh == old(port.flopHigh)
      ensures Settled() == (old(Settled()) == !Odd(stray))
      ensures phase != HwDuty ==> stray == 0 && port.Faithful()
      ensures phase == HwDuty && old(port.Tracks()) ==> stray == Excess(port.engine.count - old(port.ckptEdge))
      ensures phase == HwDuty && !old(port.ctl.Live()) && old(port.Unfolded()) == 0 ==>
                stray == if old(port.engine.compv) == old(port.ckptCompv) then 0 else 1
      ensures phase == HwDuty && old(port.ckptCompv <= port.base.compv) ==> old(port.ckptCompv) <= port.ckptCompv
      ensures phase == HwDuty && old(port.ctl.Live()) ==>
                port.flopHigh == StoppedLevel(port.schedule, old(port.Now()), old(port.ckptCompv), old(port.flopHigh))
      ensures old(port.ctl.Live()) ==> port.engine.count == Ticks(port.schedule, true, old(port.Now()), 2).engine.count
      ensures phase == HwDuty && old(port.ctl.Live()) ==>
                port.ckptCompv == Ticks(port.schedule, true, old(port.Now()), 2).engine.compv
    {
      hide Odd, Excess, Agree, Fits;
      ctrl := port.ClearEnable();
      RunShape(old(port.engine), port.engine);
      stray := Fold();
      port.WriteCompv(0);
      ghost var free := port.WritePiv(0);
    }

    method DisableOutputHw() returns (ghost stray: nat)
      requires Foldable()
      modifies this`phase, this`hwFirstArt, port
      ensures Valid() && port.OldWaveform()
      ensures phase == ToggleStep && !port.ctl.en && port.hwPiv == 0
      ensures port.engine.compv == 0 && port.engine.piv == 0
      ensures Settled() == (old(Settled()) == !Odd(stray))
      ensures old(phase) != HwDuty ==> stray == 0
      ensures old(phase) == HwDuty && old(port.Tracks()) ==> stray == Excess(port.engine.count - old(port.ckptEdge))
      ensures old(port.ctl.Live()) ==> port.engine.count == Ticks(port.schedule, true, old(port.Now()), 2).engine.count
      ensures old(phase) == HwDuty && !old(port.ctl.Live()) && old(port.Unfolded()) == 0 ==>
                stray == if old(port.engine.compv) == old(port.ckptCompv) then 0 else 1
    {
      var ctrl;
      ctrl, stray := Quiesce();
      port.WriteCtl(ctrl.(en := false, pm := false));
      phase := ToggleStep;
      hwFirstArt := 0;
      port.hwPiv := 0;
    }

    /** Program one edge of a software-driven output. A toggle compare is written before control. */
    method ProgramOutputEdge(clock: Clock, edgeNs: s64, ep: EdgePolarity) returns (ok: bool)
      requires port.Valid() && !port.ctl.pm && port.Unfolded() == 0
      modifies port`ctl, port`engine, port`accesses, port`base
      ensures port.Valid() && port.Unfolded() == 0 && port.Right() == old(port.Right())
      ensures port.engine.count == old(port.engine.count) && port.engine.edges == old(port.engine.edges)
      ensures ok == CompareArt(clock.phc, edgeNs, clock.offsetNs).Ok?
      ensures ok ==> port.engine.compv == CompareArt(clock.phc, edgeNs, clock.offsetNs).value
      ensures port.ctl == if ok then old(port.ctl).(ep := ep) else old(port.ctl)
      ensures !ok ==> port.engine == old(port.engine)
    {
      hide CompareArt;
      var art := CompareArt(clock.phc, edgeNs, clock.offsetNs);
      if art.Err? {
        return false;
      }
      var ctrl := port.ReadCtl();
      if ep == Toggle {
        port.WriteCompv(art.value);
        port.WriteCtl(ctrl.(ep := ep));
      } else {
        port.WriteCtl(ctrl.(ep := ep));
        port.WriteCompv(art.value);
      }
      return true;
    }

    /** Clear EN, fold, clear the registers and the mode bits: the common head of priming and arming. */
    method StopEngine() returns (ctrl: Ctl, ghost stray: nat)
      requires Foldable()
      modifies port`ctl, port`engine, port`accesses, port`base, port`flopHigh, port`ckptCompv, port`ckptEdge
      ensures Foldable() && port.OldWaveform()
      ensures ctrl == port.ctl == Ctl(false, false, Rising, false)
      ensures port.engine.compv == 0 && port.engine.piv == 0 && port.Unfolded() == 0
      ensures Settled() == (old(Settled()) == !Odd(stray))
      ensures phase != HwDuty ==> stray == 0 && port.Faithful()
      ensures phase == HwDuty && old(port.Tracks()) ==> stray == Excess(port.engine.count - old(port.ckptEdge))
      ensures port.hwPiv == 0 ==> port.flopHigh == old(port.flopHigh)
      ensures phase == HwDuty && old(port.ckptCompv <= port.base.compv) ==> old(port.ckptCompv) <= port.ckptCompv
      ensures phase == HwDuty && old(port.ctl.Live()) ==>
                port.flopHigh == StoppedLevel(port.schedule, old(port.Now()), old(port.ckptCompv), old(port.flopHigh))
      ensures old(port.ctl.Live()) ==> port.engine.count == Ticks(port.schedule, true, old(port.Now()), 2).engine.count
      ensures phase == HwDuty && old(port.ctl.Live()) ==>
                port.ckptCompv == Ticks(port.schedule, true, old(port.Now()), 2).engine.compv
    {
      ctrl, stray := Quiesce();
      ctrl := ctrl.(en := false, dir := false, ep := Rising, pm := false);
      port.WriteCtl(ctrl);
    }

    /** Arm the falling prime edge of a software-driven output, or give up and disable the block. */
    method PrimeSoftware(clock: Clock, primeNs: s64) returns (ok: bool, ghost stray: nat)
      requires Foldable() && !port.ctl.en && !port.ctl.pm && port.Unfolded() == 0 && port.engine.compv == 0
      modifies this`phase, this`hwFirstArt, port
      ensures Foldable() && port.Unfolded() == 0 && !port.ctl.en && !port.ctl.pm
      ensures port.engine.count == old(port.engine.count) && port.engine.edges == old(port.engine.edges)
      ensures ok == CompareArt(clock.phc, primeNs, clock.offsetNs).Ok?
      ensures ok ==> port.engine.compv == CompareArt(clock.phc, primeNs, clock.offsetNs).value
      ensures ok ==> port.ctl == old(port.ctl).(ep := Falling)
      ensures if ok then phase == old(phase) && port.Right() == old(port.Right()) && stray == 0
              else phase == ToggleStep && Valid() && Settled() == (old(Settled()) == !Odd(stray))
      ensures !ok ==> stray == if old(phase) == HwDuty && old(port.ckptCompv) != 0 then 1 else 0
    {
      hide CompareArt;
      stray := 0;
      ok := ProgramOutputEdge(clock, primeNs, Falling);
      if !ok {
        stray := DisableOutputHw();
      }
    }

    /** Record the primed waveform; a software-driven block is enabled at once. */
    method RecordPrime(firstNs: s64, high: Span, low: Span, mode: OutputMode)
      requires Foldable() && !port.ctl.en && !port.ctl.pm && port.Unfolded() == 0
      modifies this`phase, this`highNs, this`lowNs, this`nextEdgeNs, this`nextRising, this`hwFirstArt, port
      ensures Valid() && port.engine == old(port.engine) && Settled() == old(port.Right())
      ensures phase == if mode == Hardware then ArmPeriodic else FirstRising
      ensures highNs == high && lowNs == low && nextEdgeNs == firstNs && nextRising
      ensures port.ctl == old(port.ctl).(en := mode == Software) && port.flopHigh == old(port.flopHigh)
    {
      hide Odd, Agree, Tick, Ticks;
      highNs, lowNs := high, low;
      nextEdgeNs, nextRising := firstNs, true;
      phase := if mode == Hardware then ArmPeriodic else FirstRising;
      hwFirstArt := 0;
      port.hwPiv := 0;
      if mode != Hardware {
        var ctrl := port.ReadCtl();
        port.WriteCtl(ctrl.(en := true));
      }
    }

    /**
     * Prime the block. Stops and folds first, so no premise about edges is needed; but when the
     * software prime fails while the old waveform was a duty one, the second fold sees the cleared
     * compare as an edge unless the checkpoint was zero.
     */
    method ArmOutput(clock: Clock, firstNs: s64, primeNs: s64, high: Span, low: Span, mode: OutputMode)
      returns (ok: bool, ghost stray: nat, ghost ckpt: u64)
      requires Valid()
      modifies this`phase, this`highNs, this`lowNs, this`nextEdgeNs, this`nextRising, this`hwFirstArt, port
      ensures Valid() && port.OldWaveform()
      ensures ok == (mode == Hardware || CompareArt(clock.phc, primeNs, clock.offsetNs).Ok?)
      ensures phase == if !ok then ToggleStep else if mode == Hardware then ArmPeriodic else FirstRising
      ensures Cadence() == if ok then SoftwarePath.Cadence.Cadence(firstNs, true, wakeAt, high, low) else old(Cadence())
      ensures ok ==>
                port.ctl == if mode == Hardware then Ctl(false, false, Rising, false) else Ctl(true, false, Falling, false)
      ensures ok ==>
                port.engine.compv == if mode == Hardware then 0 else CompareArt(clock.phc, primeNs, clock.offsetNs).value
      ensures Settled() == (old(Settled()) == !Odd(stray))
      ensures old(phase) != HwDuty ==> stray == 0
      ensures old(port.hwPiv) == 0 && mode == Hardware ==> port.flopHigh == old(port.flopHigh)
      ensures old(phase) == HwDuty && mode == Hardware ==>
                port.flopHigh == StoppedLevel(port.schedule, old(port.Now()), old(port.ckptCompv), old(port.flopHigh))
      ensures old(phase) == HwDuty && ok ==> stray == Excess(port.engine.count - old(port.ckptEdge))
      ensures old(phase) == HwDuty && !ok ==>
                && stray == Excess(port.engine.count - old(port.ckptEdge)) + (if ckpt == 0 then 0 else 1)
                && old(port.ckptCompv) <= ckpt
      ensures old(phase) == HwDuty ==>
                && port.engine.count == Ticks(port.schedule, true, old(port.Now()), 2).engine.count
                && ckpt == Ticks(port.schedule, true, old(port.Now()), 2).engine.compv
    {
      hide CompareArt;
      var ctrl;
      ctrl, stray := StopEngine();
      ckpt := port.ckptCompv;
      ok := true;
      if mode != Hardware {
        ghost var more;
        ok, more := PrimeSoftware(clock, primeNs);
        OddAdd(stray, more);
        stray := stray + more;
      }
      if ok {
        RecordPrime(firstNs, high, low, mode);
      }
    }

    /**
     * Switch a primed block to free-running output. The tracked level picks the slot of the first
     * toggle and the interval it consumes; a late compare is pushed by whole periods.
     */
    method ArmHardwarePeriodic(clock: Clock, sample: Sample) returns (ok: bool)
      requires Valid() && phase == ArmPeriodic
      modifies this`phase, this`hwFirstArt, this`wakeAt, port
      ensures Valid() && port.engine.count == old(port.engine.count) && port.engine.edges == old(port.engine.edges)
      ensures Settled() == old(Settled()) && port.flopHigh == old(port.flopHigh)
      ensures var plan := PlanFor(clock, nextEdgeNs, highNs, lowNs, sample.nowArt, old(port.flopHigh));
              && ok == plan.Ok?
              && (ok ==> port.engine.compv == port.ckptCompv == hwFirstArt == plan.value.compare)
              && (ok ==> port.engine.piv == port.hwPiv == plan.value.interval)
              && (ok ==> phase == if highNs == lowNs then HardwarePeriodic else HwDuty)
      ensures ok ==> port.Steady() && port.Unfolded() == 0
      // No toggle is due before the counter just read plus two milliseconds.
      ensures ok && sample.nowArt.Ok? && IntervalCycles(clock.phc, 2_000_000).Ok?
                && sample.nowArt.value + IntervalCycles(clock.phc, 2_000_000).value <= U64_MAX ==>
                sample.nowArt.value + IntervalCycles(clock.phc, 2_000_000).value <= port.engine.compv
      ensures wakeAt == if ok && highNs != lowNs then WrapSigned(sample.nowReal + DUTY_SERVICE_DELAY_NS) else old(wakeAt)
      ensures !ok ==> phase == ArmPeriodic && !port.ctl.Live()
    {
      hide CompareArt, IntervalCycles, PushPast, WrapSigned;
      var first := CompareArt(clock.phc, nextEdgeNs, clock.offsetNs);
      var high := IntervalCycles(clock.phc, highNs);
      var low := IntervalCycles(clock.phc, lowNs);
      if first.Err? || high.Err? || low.Err? || BadCycles(high.value, low.value) {
        return false;
      }
      var ctrl;
      ghost var stray;
      ctrl, stray := StopEngine();
      var margin := IntervalCycles(clock.phc, LATE_MARGIN_NS);
      var compare := PushPast(SlotCompare(first.value, high.value, low.value, port.flopHigh),
                              Deadline(sample.nowArt, margin), high.value + low.value);
      if compare.Err? {
        return false;
      }
      NotLate(clock, sample.nowArt);
      phase := if highNs == lowNs then HardwarePeriodic else HwDuty;
      hwFirstArt := compare.value;
      port.Arm(ctrl, compare.value, if port.flopHigh then low.value else high.value);
      if highNs != lowNs {
        wakeAt := WrapSigned(sample.nowReal + DUTY_SERVICE_DELAY_NS);
      }
      ok := true;
    }

    lemma NotLate(clock: Clock, nowArt: Result<u64>)
      requires PlanFor(clock, nextEdgeNs, highNs, lowNs, nowArt, port.flopHigh).Ok?
      ensures nowArt.Ok? && IntervalCycles(clock.phc, 2_000_000).Ok?
                && nowArt.value + IntervalCycles(clock.phc, 2_000_000).value <= U64_MAX ==>
                nowArt.value + IntervalCycles(clock.phc, 2_000_000).value
                <= PlanFor(clock, nextEdgeNs, highNs, lowNs, nowArt, port.flopHigh).value.compare
    {
      hide PlanFor, IntervalCycles;
      if nowArt.Ok? && IntervalCycles(clock.phc, 2_000_000).Ok?
         && nowArt.value + IntervalCycles(clock.phc, 2_000_000).value <= U64_MAX {
        PlanIsNotLate(clock, nextEdgeNs, highNs, lowNs, nowArt, port.flopHigh);
      }
    }

    /** What the clocks and the newest request show at this moment. */
    method Consult() returns (sample: Sample)
      modifies this`samples
      ensures sample == world(old(samples)) && samples == old(samples) + 1
    {
      sample := world(samples);
      samples := samples + 1;
    }

    /**
     * The output waits for its first edge, a rising one where the request wants it by the clock last
     * consulted, and is woken one lead before.
     */
    ghost predicate ArmedAsRequested(desired: Desired, clock: Clock)
      reads this, port`ctl
    {
      && 0 < samples && world(samples - 1).now.Ok?
      && var sample := world(samples - 1);
         var smaller := Min(desired.highNs, desired.lowNs);
         && FirstEdgeFor(nextEdgeNs, sample.now.value, desired.mode, smaller, desired.periodNs, desired.firstEdgeNs)
         && nextRising && highNs == desired.highNs && lowNs == desired.lowNs
         && (clock.phc.Tame() ==>
               WakesAt(clock.phc, nextEdgeNs - LeadFor(desired.mode, smaller), sample.now.value, sample.nowReal, wakeAt))
         && phase == (if desired.mode == Hardware then ArmPeriodic else FirstRising)
         && port.ctl.en == (desired.mode == Software)
         && appliedGen == desired.gen && appliedFreqGen == desired.freqGen
    }

    /** Stop, prime and arm against the current clock, the first edge kept on the requested grid. */
    method ReconcileArm(desired: Desired, clock: Clock) returns (armed: bool, ghost stray: nat)
      requires Valid()
      modifies this, port
      ensures Valid() && port.OldWaveform()
      ensures samples == old(samples) + 1
      ensures armed == ArmSucceeds(desired, clock, world(old(samples)))
      ensures Left(armed) == ArmOutcome(old(View()), desired, clock, world(old(samples)))
      // The waveform is the requested one, and a software prime is a falling edge two leads before its first edge.
      ensures armed ==> ArmedAsRequested(desired, clock)
      ensures phase == FirstRising ==> ProgramsPrime(Cadence(), clock, port.engine.compv, port.ctl.ep)
      ensures old(phase) == HwDuty && desired.mode == Hardware && armed ==>
                port.flopHigh == StoppedLevel(port.schedule, old(port.Now()), old(port.ckptCompv), old(port.flopHigh))
      ensures Even(desired) ==> Symmetric()
      ensures Settled() == (old(Settled()) == !Odd(stray))
      ensures old(phase) != HwDuty ==> stray == 0
      ensures stray <= Excess(port.engine.count - old(port.ckptEdge)) + if armed || desired.mode == Hardware then 0 else 1
      ensures old(phase) == HwDuty && desired.mode == Hardware ==> stray == Excess(port.engine.count - old(port.ckptEdge))
      ensures old(phase) == HwDuty ==>
                stray == ArmStray(port.schedule, old(port.Now()), old(port.ckptEdge), desired, clock, world(old(samples)))
    {
      hide LeadFor, TimingFor, FirstEdgeFor, WakesAt, CompareArt, Odd, Excess, StoppedLevel, StopStray, Ticks,
           LinuxBlock.Settled, LinuxBlock.Foldable, Port.Valid, Generated;
      var sample := Consult();
      var timing := TimingFor(desired, clock, sample);
      if timing.Ok? {
        ArmedWhereRequested(desired, clock, sample);
      }
      armed, stray := ArmOrDisable(desired, clock, timing);
      if armed {
        appliedGen, appliedFreqGen := desired.gen, desired.freqGen;
        wakeAt := timing.value.timerStart;
      }
    }

    /** Prime and record the waveform, or disable the block if its timing or its prime edge cannot be computed. */
    method ArmOrDisable(desired: Desired, clock: Clock, timing: Result<Timing>) returns (armed: bool, ghost stray: nat)
      requires Valid()
      modifies this`phase, this`highNs, this`lowNs, this`nextEdgeNs, this`nextRising, this`hwFirstArt, port
      ensures Valid() && port.OldWaveform()
      ensures armed
           == (&& timing.Ok?
               && (desired.mode == Hardware || CompareArt(clock.phc, timing.value.primeEdgeNs, clock.offsetNs).Ok?))
      ensures phase == if !armed then ToggleStep else if desired.mode == Hardware then ArmPeriodic else FirstRising
      ensures Cadence() == if !armed then old(Cadence())
                           else SoftwarePath.Cadence.Cadence(timing.value.firstEdgeNs, true, wakeAt,
                                                             desired.highNs, desired.lowNs)
      ensures old(phase) == HwDuty && desired.mode == Hardware && armed ==>
                port.flopHigh == StoppedLevel(port.schedule, old(port.Now()), old(port.ckptCompv), old(port.flopHigh))
      ensures Settled() == (old(Settled()) == !Odd(stray))
      ensures old(phase) != HwDuty ==> stray == 0
      ensures stray <= Excess(port.engine.count - old(port.ckptEdge)) + if armed || desired.mode == Hardware then 0 else 1
      ensures old(phase) == HwDuty && desired.mode == Hardware ==> stray == Excess(port.engine.count - old(port.ckptEdge))
      ensures port.ctl.en == (armed && desired.mode == Software)
      ensures armed && desired.mode == Software ==>
                && port.engine.compv == CompareArt(clock.phc, timing.value.primeEdgeNs, clock.offsetNs).value
                && port.ctl.ep == Falling
      ensures old(phase) == HwDuty ==>
                stray == StopStray(port.schedule, old(port.Now()), old(port.ckptEdge)) +
                         if timing.Ok? && !armed && Ticks(port.schedule, true, old(port.Now()), 2).engine.compv != 0
                         then 1 else 0
    {
      hide CompareArt, Odd, Excess, StoppedLevel, LinuxBlock.Settled;
      armed, stray := false, 0;
      if timing.Ok? {
        ghost var ckpt;
        armed, stray, ckpt := ArmOutput(clock, timing.value.firstEdgeNs, timing.value.primeEdgeNs,
                                        desired.highNs, desired.lowNs, desired.mode);
      }
      if !armed {
        ghost var primed := port.engine;
        ghost var more := DisableOutputHw();
        if timing.Ok? {
          NoneSince(old(port.engine), primed, port.engine);
        }
        OddAdd(stray, more);
        stray := stray + more;
      }
    }

    /** Follow the servo rate: rewrite PIV while it runs, if only the low word differs. */
    method RefreshPiv(wanted: Result<u64>) returns (ghost stray: nat)
      requires Valid() && phase.FreeRuns()
      modifies port`engine, port`accesses, port`base, port`hwPiv
      ensures Valid() && Generated(old(port.engine), port.engine) && port.Right() == old(port.Right())
      ensures port.hwPiv == Refreshed(old(port.hwPiv), wanted)
      ensures port.Now() == RefreshedAt(port.schedule, old(port.Now()), old(port.hwPiv), port.hwPiv)
      ensures port.hwPiv == old(port.hwPiv) ==> port.engine == old(port.engine) && stray == 0
      ensures port.engine.count == port.ckptEdge ==> port.engine == old(port.engine).(piv := port.hwPiv)
      ensures old(port.Steady() && port.Faithful()) ==> Settled() == (old(Settled()) == !Odd(stray))
      ensures phase == HwDuty ==> stray == 0 && Settled() == old(Settled())
      ensures phase == HardwarePeriodic && port.hwPiv != old(port.hwPiv) ==>
                stray == WindowStray(port.engine.count - port.ckptEdge, old(port.hwPiv), port.hwPiv)
    {
      hide WindowStray, CountsParity;
      stray := 0;
      if wanted.Ok? && wanted.value != 0 && wanted.value != port.hwPiv && wanted.value / TWO32 == port.hwPiv / TWO32 {
        ghost var was := port.hwPiv;
        ghost var window := port.RefreshInterval(wanted.value);
        if phase == HardwarePeriodic {
          stray := WindowStray(window, was, port.hwPiv);
          if port.engine.compv == port.ckptCompv + window * was {
            WindowParity(port.engine, window, was, port.hwPiv, port.ckptCompv, port.ckptEdge);
          }
        }
      }
    }

    /** Rewrite the pending compare onto its slot; edges since the checkpoint are lost on the mirror. */
    method NudgePending(clock: Clock, alignedNs: s64) returns (ghost lost: nat)
      requires Valid() && phase == HardwarePeriodic
      modifies this`nextEdgeNs, port`ctl, port`engine, port`accesses, port`base, port`ckptCompv, port`ckptEdge
      ensures Valid() && port.OldWaveform() && port.ctl == old(port.ctl)
      ensures var art := CompareArt(clock.phc, alignedNs, clock.offsetNs);
              if art.Err? then lost == 0 && unchanged(port) && Settled() == old(Settled()) && nextEdgeNs == old(nextEdgeNs)
              else && lost == Ticks(port.schedule, true, old(port.Now()), 2).engine.count - old(port.ckptEdge)
                   && port.engine.compv == port.ckptCompv == art.value && nextEdgeNs == alignedNs
                   && lost == port.engine.count - old(port.ckptEdge)
                   && Settled() == (old(port.Right()) == !Odd(lost))
    {
      hide CompareArt;
      lost := 0;
      var art := CompareArt(clock.phc, alignedNs, clock.offsetNs);
      if art.Ok? {
        ghost var free;
        lost, free := port.WriteCompvPaused(art.value);
        RunShape(old(port.engine), free);
        nextEdgeNs := alignedNs;
      }
    }

    /** The live phase of the pending edge: an edge may fire meanwhile. */
    method ReadPhase(clock: Clock, gridStartNs: s64, halfNs: u64, sample: Sample) returns (pending: Result<Phase>)
      requires Valid()
      modifies port`engine, port`accesses
      ensures var read := Read64(port.schedule, port.ctl.Live(), old(port.Now()));
              && port.Now() == read.after && 0 <= read.seen.compv < TWO64
              && pending == PhaseGet(clock.phc, read.seen.compv, sample.now, gridStartNs, halfNs, clock.offsetNs)
      ensures Valid() && Ran(old(port.engine), port.engine)
      ensures Settled() == old(Settled()) && port.Right() == old(port.Right())
    {
      hide PhaseGet;
      var value, seen := port.ReadCompv();
      port.FreeRunKeepsMirror();
      pending := PhaseGet(clock.phc, value, sample.now, gridStartNs, halfNs, clock.offsetNs);
    }

    /**
     * Follow a frequency change on a running symmetric output: fold, refresh the interval, then
     * leave, nudge or restart the pending edge. Only edges between the fold and the last rewrite stray.
     */
    method ApplyFreq(desired: Desired, clock: Clock) returns (ok: bool, ghost stray: nat)
      requires Valid() && phase == HardwarePeriodic
      modifies this, port
      ensures Valid() && old(port.engine.count) <= port.engine.count
      ensures Left(ok) == FreqOutcome(port.schedule, world, old(View()), desired, clock)
      ensures ActedOnPhase(old(Here()), old(port.hwPiv), old(highNs), desired, clock, ok)
      ensures Settled() == (old(Settled()) == !Odd(stray))
      ensures stray == FreqStray(port.schedule, world, old(Here()), old(port.hwPiv), old(highNs), desired, clock)
      ensures phase == HardwarePeriodic ==> port.hwPiv == Refreshed(old(port.hwPiv), IntervalCycles(clock.phc, old(highNs)))
      ensures Even(desired) ==> Symmetric()
      ensures phase == FirstRising ==> ProgramsPrime(Cadence(), clock, port.engine.compv, port.ctl.ep)
    {
      hide Agree, Odd, ProgramsPrime, ArmSucceeds, TimingFor, IntervalCycles, WindowStray, CompareArt, Decide,
           PhaseGet, Refreshed, Ticks, Read64, LinuxBlock.ArmedAsRequested;
      RefreshedPositive(port.hwPiv, IntervalCycles(clock.phc, highNs));
      RefreshFits(port.schedule, port.Now(), port.hwPiv, Refreshed(port.hwPiv, IntervalCycles(clock.phc, highNs)));
      stray := FoldAndFollow(clock);
      ok, stray := Act(desired, clock, stray);
    }

    /** Fold, then follow the rate: edges in between are miscounted by the next fold. */
    method FoldAndFollow(clock: Clock) returns (ghost stray: nat)
      requires Valid() && phase == HardwarePeriodic
      modifies port`engine, port`accesses, port`base, port`flopHigh, port`ckptCompv, port`ckptEdge, port`hwPiv
      ensures Valid() && old(port.engine.count) <= port.ckptEdge <= port.engine.count
      ensures port.Right() == old(Settled()) && Settled() == (port.Right() == !Odd(stray))
      ensures port.hwPiv == Refreshed(old(port.hwPiv), IntervalCycles(clock.phc, highNs))
      ensures port.ckptEdge == Folded(port.schedule, true, old(port.Now())).seen.count
      ensures port.Now() == RefreshedAt(port.schedule, Folded(port.schedule, true, old(port.Now())).after,
                                        old(port.hwPiv), port.hwPiv)
      ensures stray == if port.hwPiv == old(port.hwPiv) then 0
                       else WindowStray(port.engine.count - port.ckptEdge, old(port.hwPiv), port.hwPiv)
    {
      hide IntervalCycles, WindowStray, Refreshed, Ticks, Read64, Agree;
      ghost var none := Fold();
      RefreshedPositive(port.hwPiv, IntervalCycles(clock.phc, highNs));
      stray := RefreshPiv(IntervalCycles(clock.phc, highNs));
    }

    /**
     * A frequency update acted on the phase it read from this scene: it left the free run alone,
     * armed for the request, or moved the pending edge to the counter value of its slot.
     */
    ghost predicate ActedOnPhase(sc: Scene, was: u64, half: Span, desired: Desired, clock: Clock, ok: bool)
      requires Fits(sc.m.engine, true) && 0 < was
      reads this, port
    {
      match FreqDecision(port.schedule, world, sc, was, half, desired, clock)
      case Keep => ok && phase == HardwarePeriodic
      case Rearm => ok ==> ArmedAsRequested(desired, clock)
      case Aim(slotNs) =>
        && ok && phase == HardwarePeriodic
        && (CompareArt(clock.phc, slotNs, clock.offsetNs).Ok? ==>
              CompareArt(clock.phc, slotNs, clock.offsetNs) == Ok(port.engine.compv) && nextEdgeNs == slotNs)
    }

    /** What each decision leaves: the free-running edge, the edge moved onto its slot, or a fresh prime if that succeeds. */
    twostate predicate Acted(desired: Desired, clock: Clock, decision: Decision, ok: bool)
      reads this, port
    {
      match decision
      case Keep =>
        && Left(ok) == old(View()).Leaves(true, HardwarePeriodic)
        && Ran(old(port.engine), port.engine) && port.ckptCompv == old(port.ckptCompv)
      case Rearm =>
        && Left(ok) == ArmOutcome(old(View()), desired, clock, world(old(samples) + 1))
        && (ok ==> ArmedAsRequested(desired, clock))
      case Aim(alignedNs) =>
        var art := CompareArt(clock.phc, alignedNs, clock.offsetNs);
        if art.Err? then Left(ok) == old(View()).Leaves(true, HardwarePeriodic)
        else && Left(ok) == old(View()).Leaves(true, HardwarePeriodic).(cadence := old(Cadence()).(nextEdgeNs := alignedNs))
             && port.engine.compv == port.ckptCompv == art.value
    }

    /** The nudge loop's decision, after the fold and the refresh. */
    method Act(desired: Desired, clock: Clock, ghost soFar: nat) returns (ok: bool, ghost stray: nat)
      requires Valid() && phase == HardwarePeriodic && Settled() == (port.Right() == !Odd(soFar))
      modifies this, port
      ensures Valid() && old(port.engine.count) <= port.engine.count
      ensures Settled() == (old(port.Right()) == !Odd(stray))
      ensures phase == HardwarePeriodic ==> port.hwPiv == old(port.hwPiv)
      ensures Even(desired) ==> Symmetric()
      ensures phase == FirstRising ==> ProgramsPrime(Cadence(), clock, port.engine.compv, port.ctl.ep)
      ensures var read := Read64(port.schedule, true, old(port.Now()));
              && 0 <= read.seen.compv < TWO64
              && var pending := PhaseGet(clock.phc, read.seen.compv, world(old(samples)).now,
                                         desired.firstEdgeNs, desired.highNs, clock.offsetNs);
                 var decision := Decide(pending, desired.highNs, clock.toleranceNs);
                 && Acted(desired, clock, decision, ok)
                 && stray == (if Moves(decision, clock)
                              then Ticks(port.schedule, true, read.after, 2).engine.count - old(port.ckptEdge) else soFar)
    {
      hide ProgramsPrime, FirstEdgeFor, Decide, CompareArt, PhaseGet, Read64, Ticks, ArmSucceeds, TimingFor,
           StoppedLevel, LinuxBlock.Settled, Engine.Fires;
      ok, stray := true, soFar;
      var sample := Consult();
      var pending := ReadPhase(clock, desired.firstEdgeNs, desired.highNs, sample);
      var decision := Decide(pending, desired.highNs, clock.toleranceNs);
      if decision == Rearm {
        ghost var none;
        ok, none := ReconcileArm(desired, clock);
      } else if decision.Aim? {
        ghost var lost := NudgePending(clock, decision.alignedNs);
        stray := if CompareArt(clock.phc, decision.alignedNs, clock.offsetNs).Ok? then lost else soFar;
      }
    }

    /** Wait, a bounded number of times, until the pending edge is far enough away to be moved. */
    method AwaitSafety(clock: Clock)
      requires Valid() && phase == HardwarePeriodic
      modifies port`engine, port`accesses, this`samples
      ensures Valid() && Ran(old(port.engine), port.engine)
      ensures Here() == Awaited(port.schedule, world, old(Here()), clock, highNs, 50)
      ensures Settled() == old(Settled())
    {
      hide Awaited, Ran;
      var i := 0;
      AwaitedRuns(port.schedule, world, Here(), clock, highNs, 50);
      while i < 50
        invariant 0 <= i <= 50 && Valid() && Settled() == old(Settled())
        invariant Awaited(port.schedule, world, Here(), clock, highNs, 50 - i)
               == Awaited(port.schedule, world, old(Here()), clock, highNs, 50)
      {
        AwaitedStep(port.schedule, world, Here(), clock, highNs, 50 - i);
        var done := AwaitOnce(clock);
        if done {
          return;
        }
        i := i + 1;
      }
      AwaitedStep(port.schedule, world, Here(), clock, highNs, 0);
    }

    method AwaitOnce(clock: Clock) returns (done: bool)
      requires Valid() && phase == HardwarePeriodic
      modifies port`engine, port`accesses, this`samples
      ensures Valid() && Settled() == old(Settled())
      ensures Here() == AwaitNext(port.schedule, old(Here()))
      ensures done == AwaitEnds(port.schedule, world, old(Here()), clock, highNs)
    {
      hide PhaseGet, Read64;
      var sample := Consult();
      var pending := ReadPhase(clock, sample.gridStartNs, highNs, sample);
      done := pending.Err? || pending.value.nudgeSafe;
    }

    /**
     * Flip the belief. A symmetric output also moves its pending edge one interval on, so rises
     * return to the grid; a duty output is re-armed against the newest request.
     */
    method Invert(newest: Desired, clock: Clock) returns (ok: bool, ghost stray: nat)
      requires Valid()
      modifies this, port
      ensures Valid() && port.OldWaveform()
      ensures Settled() == (old(Settled()) == Odd(stray))
      ensures old(phase) == HardwarePeriodic ==> Inverted(clock, stray)
      ensures old(phase) != HwDuty || newest.run != Running ==> ok && Left(ok) == old(View()).Leaves(true, old(phase))
      ensures old(phase) != HardwarePeriodic && (old(phase) != HwDuty || newest.run != Running) ==>
                && stray == 0 && Here() == old(Here()) && port.flopHigh != old(port.flopHigh)
                && port.hwPiv == old(port.hwPiv)
                && port.ckptCompv == old(port.ckptCompv) && port.ckptEdge == old(port.ckptEdge)
      // A duty output is armed again exactly if the newest request can be armed at this sample.
      ensures old(phase) == HwDuty && newest.run == Running ==>
                && ok == ArmSucceeds(newest, clock, world(old(samples))) && samples == old(samples) + 1
                && Left(ok) == ArmOutcome(old(View()), newest, clock, world(old(samples)))
                && (phase == ArmPeriodic ==>
                      port.flopHigh
                      == StoppedLevel(port.schedule, old(port.Now()), old(port.ckptCompv), !old(port.flopHigh)))
      ensures old(Symmetric()) ==> Symmetric()
      ensures old(phase) == HwDuty ==>
                stray <= Excess(port.engine.count - old(port.ckptEdge)) + (if newest.mode == Hardware then 0 else 1)
      ensures old(phase) == HwDuty && newest.run == Running ==>
                stray == ArmStray(port.schedule, old(port.Now()), old(port.ckptEdge), newest, clock, world(old(samples)))
    {
      hide WindowStray, ArmSucceeds, TimingFor, StoppedLevel, InvertWindow, AfterInvert, Awaited;
      port.flopHigh := !port.flopHigh;
      ok, stray := true, 0;
      if phase == HwDuty {
        if newest.run == Running {
          ok, stray := ReconcileArm(newest, clock);
        }
        return;
      }
      if phase != HardwarePeriodic || port.hwPiv == 0 {
        return;
      }
      stray := InvertPeriodic(clock);
    }

    /** Where an invert leaves a free-running block, and the edges it loses. */
    twostate predicate Inverted(clock: Clock, stray: nat)
      requires Fits(old(port.engine), true)
      reads this, port
    {
      var awaited := Awaited(port.schedule, world, old(Here()), clock, highNs, 50);
      && stray == InvertWindow(port.schedule, true, awaited.m, port.hwPiv)
      && Here() == Scene(AfterInvert(port.schedule, true, awaited.m, port.hwPiv), awaited.samples)
      && port.hwPiv == old(port.hwPiv)
    }

    method InvertPeriodic(clock: Clock) returns (ghost stray: nat)
      requires Valid() && phase == HardwarePeriodic
      modifies port, this`samples
      ensures Valid() && port.OldWaveform()
      ensures Settled() == (old(Settled()) == !Odd(stray))
      ensures Inverted(clock, stray)
    {
      hide InvertWindow, AfterInvert, Awaited;
      AwaitSafety(clock);
      ghost var waited := port.engine;
      RunShape(old(port.engine), waited);
      stray := port.InvertPending();
      GeneratedJoin(old(port.engine), waited, port.engine);
    }

    /** Let a high line fall before stopping: fold, and keep folding for a bounded time while it reads high. */
    method DrainLow() returns (ghost stray: nat)
      requires Valid()
      modifies port`engine, port`accesses, port`base, port`flopHigh, port`ckptCompv, port`ckptEdge
      ensures Valid() && Ran(old(port.engine), port.engine)
      ensures Settled() == (old(Settled()) == !Odd(stray))
      ensures phase != HwDuty ==> stray == 0
      ensures old(port.ckptEdge) <= port.ckptEdge && stray <= Excess(port.ckptEdge - old(port.ckptEdge))
      ensures phase.FreeRuns() ==> old(port.engine.count) <= port.ckptEdge
      // A level still high was looked at again thirty times; with a right mirror it was the level at the last look.
      ensures phase.FreeRuns() ==> old(port.accesses) + (if port.flopHigh then 31 else 1) <= port.accesses
      ensures phase == HardwarePeriodic ==> old(port.engine.count) <= port.base.count && Ran(port.base, port.engine)
      ensures phase == HardwarePeriodic && old(Settled()) ==> port.base.flop == port.flopHigh
      ensures phase == HwDuty ==>
                && old(View()).Sane()
                && var drained := DrainStep(port.schedule, old(View()));
                   stray + StopStray(port.schedule, port.Now(), port.ckptEdge)
                   == Excess(drained.ckptEdge - old(port.ckptEdge)) + DrainStray(port.schedule, drained, 30)
    {
      hide Folded, DutyLevel, StopStray, DrainStray, DrainStep, Engine.Fire;
      stray := 0;
      if !phase.FreeRuns() || port.hwPiv == 0 {
        return;
      }
      stray := Fold();
      ghost var folded := port.engine;
      ghost var more := FoldWhileHigh();
      RunsJoin(old(port.engine), folded, port.engine);
      OddAdd(stray, more);
      stray := stray + more;
      RunShape(port.base, port.engine);
    }

    method FoldWhileHigh() returns (ghost stray: nat)
      requires Valid() && phase.FreeRuns()
      modifies port`engine, port`accesses, port`base, port`flopHigh, port`ckptCompv, port`ckptEdge
      ensures Valid() && Ran(old(port.engine), port.engine)
      ensures Settled() == (old(Settled()) == !Odd(stray))
      ensures phase != HwDuty ==> stray == 0
      ensures phase == HardwarePeriodic && old(port.Steady() && port.Faithful()) ==> port.Steady() && port.Faithful()
      ensures old(port.ckptEdge) <= port.ckptEdge && stray <= Excess(port.ckptEdge - old(port.ckptEdge))
      ensures old(port.accesses) + (if port.flopHigh then 30 else 0) <= port.accesses
      ensures phase == HwDuty ==>
                && old(View()).Sane()
                && stray + StopStray(port.schedule, port.Now(), port.ckptEdge)
                   == DrainStray(port.schedule, old(View()), 30)
    {
      hide StopStray, DrainStray, DrainStep, Engine.Fire, LinuxBlock.Settled;
      stray := 0;
      StandingStill(port.engine);
      var i := 0;
      while port.flopHigh && i < 30
        invariant Valid() && Ran(old(port.engine), port.engine) && 0 <= i <= 30 && old(port.accesses) + i <= port.accesses
        invariant Settled() == (old(Settled()) == !Odd(stray))
        invariant phase != HwDuty ==> stray == 0
        invariant phase == HardwarePeriodic && old(port.Steady() && port.Faithful()) ==> port.Steady() && port.Faithful()
        invariant old(port.ckptEdge) <= port.ckptEdge && stray <= Excess(port.ckptEdge - old(port.ckptEdge))
        invariant phase == HwDuty ==>
                    && old(View()).Sane() && View().Sane()
                    && stray + DrainStray(port.schedule, View(), 30 - i) == DrainStray(port.schedule, old(View()), 30)
      {
        ghost var before := port.engine;
        if phase == HwDuty {
          DrainStrayStep(port.schedule, View(), 30 - i);
        }
        ghost var more := Fold();
        RunsJoin(old(port.engine), before, port.engine);
        OddAdd(stray, more);
        stray := stray + more;
        i := i + 1;
      }
      if phase == HwDuty {
        DrainStrayStep(port.schedule, View(), 30 - i);
      }
    }

    /**
     * Visit a duty output: fold, give the pending edge the interval it must consume, and ask to be
     * woken after it.
     */
    method DutyService(clock: Clock) returns (ok: bool, ghost stray: nat)
      requires Valid() && phase == HwDuty
      modifies this`phase, this`hwFirstArt, this`wakeAt, this`samples, port
      ensures Valid() && old(port.engine.count) <= port.engine.count
      ensures Settled() == (old(Settled()) == !Odd(stray))
      ensures stray <= Excess(port.engine.count - old(port.ckptEdge)) && old(port.ckptEdge) <= port.ckptEdge
      ensures ok ==> stray == Excess(port.ckptEdge - old(port.ckptEdge))
      ensures stray == VisitStray(port.schedule, old(View()), clock)
      ensures ok ==> View() == Serviced(port.schedule, world, old(View()), clock)
      ensures Left(ok) == DutyOutcome(port.schedule, world, old(View()), clock) && (!ok ==> !port.ctl.en)
      ensures ok ==>
                && port.hwPiv == DutyInterval(port.schedule, old(View()), clock)
                && port.flopHigh == DutyLevel(port.schedule, old(View()))
      // The next wake follows the pending edge just read, by the clocks of this visit.
      ensures ok && clock.phc.Tame() ==>
                var pending := ArtToNs(clock.phc, DutyPending(port.schedule, old(View()), clock) + 2);
                var sample := world(old(samples));
                pending.Ok? && sample.now.Ok? && RoomToWake(pending.value, sample.now.value, sample.nowReal) ==>
                  WakesAfter(clock.phc, pending.value, sample.now.value, sample.nowReal, wakeAt)
      ensures ok && (ArtToNs(clock.phc, DutyPending(port.schedule, old(View()), clock) + 2).Err?
                     || world(old(samples)).now.Err?) ==>
                wakeAt == WrapSigned(world(old(samples)).nowReal + 100_000_000)
      // Unless an edge intervenes it gives up only on a pending edge in the last counter values.
      ensures !ok && port.engine.count == old(port.engine.count) ==> U64_MAX - HW_DELAY_CYCLES < old(port.engine.compv)
      // One visit after each edge, none during it: exactly the interval of the pending edge is rewritten.
      ensures ok && old(port.Right() && port.Unfolded() <= 1) && port.engine.count == old(port.engine.count) ==>
                && port.engine == old(port.engine).(piv := port.hwPiv)
                && port.flopHigh == port.engine.flop && port.Unfolded() == 0
    {
      hide WrapSigned, IntervalCycles, ArtToNs, DutyDelay, DutyInterval, DutyLevel, DutyPending, Examined, Engine.Fires,
           WakesAfter, RoomToWake, LinuxBlock.Settled, Port.Tracks, Agree, Odd, Fits, Ticks;
      var compv;
      compv, stray := ReadAfterFold(clock);
      if compv > U64_MAX - HW_DELAY_CYCLES {
        ghost var more := DisableOutputHw();
        OddAdd(stray, more);
        stray := stray + more;
        return false, stray;
      }
      AskForWake(clock, compv);
      ok := true;
    }

    /** Ask for a visit ten milliseconds after the pending edge, or in 100 ms if that cannot be computed. */
    method AskForWake(clock: Clock, compv: u64)
      requires compv <= U64_MAX - HW_DELAY_CYCLES
      modifies this`wakeAt, this`samples
      ensures samples == old(samples) + 1
      ensures var pending, sample := ArtToNs(clock.phc, compv + 2), world(old(samples));
              && wakeAt == WrapSigned(sample.nowReal + DutyDelay(clock.phc, pending, sample.now))
              && (clock.phc.Tame() && pending.Ok? && sample.now.Ok?
                  && RoomToWake(pending.value, sample.now.value, sample.nowReal) ==>
                    WakesAfter(clock.phc, pending.value, sample.now.value, sample.nowReal, wakeAt))
              && (pending.Err? || sample.now.Err? ==> wakeAt == WrapSigned(sample.nowReal + 100_000_000))
    {
      hide WrapSigned, ArtToNs, DutyDelay, WakesAfter, RoomToWake;
      var sample := Consult();
      var pending := ArtToNs(clock.phc, compv + HW_DELAY_CYCLES);
      wakeAt := WrapSigned(sample.nowReal + DutyDelay(clock.phc, pending, sample.now));
      if clock.phc.Tame() && pending.Ok? && sample.now.Ok? && RoomToWake(pending.value, sample.now.value, sample.nowReal) {
        DutyWakesAfter(clock.phc, pending.value, sample.now.value, sample.nowReal);
      }
    }

    /** The hardware side of a visit: fold, refresh the interval, read the pending edge. */
    method ReadAfterFold(clock: Clock) returns (compv: u64, ghost stray: nat)
      requires Valid() && phase == HwDuty
      modifies port`engine, port`accesses, port`base, port`flopHigh, port`ckptCompv, port`ckptEdge, port`hwPiv
      ensures Valid() && old(port.engine.count) <= port.engine.count
      ensures Settled() == (old(Settled()) == !Odd(stray))
      ensures old(port.ckptEdge) <= port.ckptEdge && stray == Excess(port.ckptEdge - old(port.ckptEdge))
      ensures compv == DutyPending(port.schedule, old(View()), clock)
      ensures View() == Examined(port.schedule, old(View()), clock)
      ensures port.hwPiv == DutyInterval(port.schedule, old(View()), clock)
      ensures port.flopHigh == DutyLevel(port.schedule, old(View()))
      ensures port.engine.count == old(port.engine.count) ==>
                port.engine == old(port.engine).(piv := port.hwPiv) && compv == old(port.engine.compv)
      ensures old(port.Right() && port.Unfolded() <= 1) && port.engine.count == old(port.engine.count) ==>
                port.flopHigh == port.engine.flop && port.Unfolded() == 0
    {
      hide IntervalCycles, DutyInterval, DutyLevel, Read64, RefreshedAt, LinuxBlock.Settled;
      stray := FoldAndRefresh(clock);
      ghost var refreshed := port.engine;
      compv := ReadPending();
      RunShape(refreshed, port.engine);
    }

    method FoldAndRefresh(clock: Clock) returns (ghost stray: nat)
      requires Valid() && phase == HwDuty
      modifies port`engine, port`accesses, port`base, port`flopHigh, port`ckptCompv, port`ckptEdge, port`hwPiv
      ensures Valid() && old(port.engine.count) <= port.engine.count
      ensures Settled() == (old(Settled()) == !Odd(stray))
      ensures old(port.ckptEdge) <= port.ckptEdge && stray == Excess(port.ckptEdge - old(port.ckptEdge))
      ensures port.flopHigh == DutyLevel(port.schedule, old(View()))
      ensures var fold := Folded(port.schedule, true, old(port.Now())).seen;
              port.ckptCompv == fold.compv && port.ckptEdge == fold.count
      ensures port.hwPiv == DutyInterval(port.schedule, old(View()), clock)
      ensures port.Now() == RefreshedAt(port.schedule, Folded(port.schedule, true, old(port.Now())).after,
                                        old(port.hwPiv), port.hwPiv)
      ensures port.engine.count == old(port.engine.count) ==> port.engine == old(port.engine).(piv := port.hwPiv)
      ensures old(port.Right() && port.Unfolded() <= 1) && port.engine.count == old(port.engine.count) ==>
                port.flopHigh == port.engine.flop && port.Unfolded() == 0
    {
      hide IntervalCycles;
      stray := Fold();
      RunShape(old(port.engine), port.engine);
      ghost var none := RefreshPiv(IntervalCycles(clock.phc, if port.flopHigh then lowNs else highNs));
    }

    method ReadPending() returns (compv: u64)
      requires Valid()
      modifies port`engine, port`accesses
      ensures Valid() && Ran(old(port.engine), port.engine) && Settled() == old(Settled())
      ensures compv == Read64(port.schedule, port.ctl.Live(), old(port.Now())).seen.compv <= port.engine.compv
      ensures port.engine.count == old(port.engine.count) ==> compv == port.engine.compv
      ensures port.Now() == Read64(port.schedule, port.ctl.Live(), old(port.Now())).after
    {
      hide Read64;
      ghost var seen;
      compv, seen := port.ReadCompv();
      port.FreeRunKeepsMirror();
      RunShape(old(port.engine), seen);
      RunAdvances(seen, port.engine);
    }

    /** One wake of a software-driven output, or a disabled block when the edge or the interval cannot be computed. */
    method SoftwareStep(clock: Clock, rearmToggle: bool) returns (ok: bool)
      requires Valid() && !phase.FreeRuns()
      modifies this`phase, this`hwFirstArt, this`nextEdgeNs, this`nextRising, this`wakeAt, port
      ensures Valid() && Settled() == old(Settled()) && port.engine.count == old(port.engine.count)
      ensures Left(ok) == StepOutcome(old(View()), clock)
      ensures ok ==> ProgramsEdge(old(Cadence()), clock, rearmToggle, port.engine.compv, port.ctl.ep)
      ensures ok ==>
                port.ctl == old(port.ctl).(ep := if rearmToggle then Toggle else if old(nextRising) then Rising else Falling)
      ensures !ok ==> !port.ctl.en
    {
      hide CompareArt, DeltaToRealNs, WrapSigned, Agree, Engine.Fire;
      var ep := if rearmToggle then Toggle else if nextRising then Rising else Falling;
      var next := Cadence().Next(clock.phc);
      ok := ProgramOutputEdge(clock, nextEdgeNs, ep);
      if !ok || next.Err? {
        ghost var none := DisableOutputHw();
        return false;
      }
      nextEdgeNs, nextRising, wakeAt := next.value.nextEdgeNs, next.value.rising, next.value.wakeAt;
      phase := ToggleStep;
    }

    /** The part of a work run that follows the polarity flip, for a running output. */
    method Progress(desired: Desired, clock: Clock, rearmToggle: bool) returns (ok: bool, ghost stray: nat)
      requires Valid() && desired.run == Running
      modifies this, port
      ensures Valid() && old(port.engine.count) <= port.engine.count
      ensures Settled() == (old(Settled()) == !Odd(stray))
      ensures Left(ok) == ProgressOutcome(port.schedule, world, old(View()), desired, clock)
      ensures old(appliedGen == desired.gen && appliedFreqGen != desired.freqGen) ==>
                (old(phase) == HwDuty ==> unchanged(port) && phase == HwDuty)
      ensures old(phase) == phase == HardwarePeriodic ==>
                port.hwPiv == if old(appliedFreqGen) == desired.freqGen then old(port.hwPiv)
                              else Refreshed(old(port.hwPiv), IntervalCycles(clock.phc, old(highNs)))
      ensures old(appliedGen == desired.gen && appliedFreqGen == desired.freqGen && phase == HardwarePeriodic) ==>
                unchanged(port) && samples == old(samples)
      ensures old(phase) == ArmPeriodic && phase.FreeRuns() ==>
                Planned(clock, old(samples) + if old(appliedFreqGen) == desired.freqGen then 0 else 1)
      ensures (old(phase) == FirstRising || old(phase) == ToggleStep) && old(appliedGen) == desired.gen && ok ==>
                ProgramsEdge(old(Cadence()), clock, rearmToggle, port.engine.compv, port.ctl.ep)
      ensures old(appliedGen) != desired.gen && ok ==> ArmedAsRequested(desired, clock)
      ensures Postponed(world, old(View()), desired) ==>
                ok && phase == ArmPeriodic && port.engine == old(port.engine) && Cadence() == old(Cadence())
      ensures old(FreqDue(desired)) ==> ActedOnPhase(old(Here()), old(port.hwPiv), old(highNs), desired, clock, ok)
      ensures phase == FirstRising ==> ProgramsPrime(Cadence(), clock, port.engine.compv, port.ctl.ep)
      ensures old(Symmetric()) && Even(desired) ==> Symmetric()
      ensures old(phase) != HwDuty ==>
                stray == if !old(FreqDue(desired)) then 0
                         else FreqStray(port.schedule, world, old(Here()), old(port.hwPiv), old(highNs), desired, clock)
      ensures old(phase) == HwDuty ==>
                stray <= Excess(port.engine.count - old(port.ckptEdge))
                         + if old(appliedGen) != desired.gen && desired.mode == Software then 1 else 0
      ensures old(phase) == HwDuty && phase == HwDuty ==> stray == Excess(port.ckptEdge - old(port.ckptEdge))
      ensures old(phase) == HwDuty ==>
                stray == if old(appliedGen) != desired.gen
                         then ArmStray(port.schedule, old(port.Now()), old(port.ckptEdge), desired, clock, world(old(samples)))
                         else if old(appliedFreqGen) != desired.freqGen then 0
                         else VisitStray(port.schedule, old(View()), clock)
    {
      hide LinuxBlock.ActedOnPhase, LinuxBlock.ArmedAsRequested, ArmStray, VisitStray, ArmSucceeds, TimingFor,
           IntervalCycles, FreqStray, CompareArt, FreqOutcome, StepOutcome, StartOutcome, DutyOutcome, ProgramsEdge,
           ProgramsPrime, FirstEdgeFor;
      ok, stray := true, 0;
      if desired.gen != appliedGen {
        ok, stray := ReconcileArm(desired, clock);
        return;
      }
      if desired.freqGen != appliedFreqGen {
        ok, stray := FollowRate(desired, clock, rearmToggle);
        return;
      }
      ok, stray := Continue(clock, rearmToggle);
    }

    /** A frequency change: refresh a free-running output, leave a duty one to its service, and let a primed one wait. */
    method FollowRate(desired: Desired, clock: Clock, rearmToggle: bool) returns (ok: bool, ghost stray: nat)
      requires Valid() && desired.gen == appliedGen && desired.freqGen != appliedFreqGen
      modifies this, port
      ensures Valid() && old(port.engine.count) <= port.engine.count
      ensures Settled() == (old(Settled()) == !Odd(stray))
      ensures Left(ok) == ProgressOutcome(port.schedule, world, old(View()), desired, clock)
      ensures old(phase) == HwDuty ==> unchanged(port) && stray == 0
      ensures Postponed(world, old(View()), desired) ==>
                ok && phase == ArmPeriodic && port.engine == old(port.engine) && Cadence() == old(Cadence())
      ensures old(phase) == HardwarePeriodic ==>
                ActedOnPhase(old(Here()), old(port.hwPiv), old(highNs), desired, clock, ok)
      ensures old(phase) == phase == HardwarePeriodic ==>
                port.hwPiv == Refreshed(old(port.hwPiv), IntervalCycles(clock.phc, old(highNs)))
      ensures old(phase) == ArmPeriodic && phase.FreeRuns() ==> Planned(clock, old(samples) + 1)
      ensures (old(phase) == FirstRising || old(phase) == ToggleStep) && ok ==>
                ProgramsEdge(old(Cadence()), clock, rearmToggle, port.engine.compv, port.ctl.ep)
      ensures phase == FirstRising ==> ProgramsPrime(Cadence(), clock, port.engine.compv, port.ctl.ep)
      ensures old(Symmetric()) && Even(desired) ==> Symmetric()
      ensures old(phase) != HwDuty ==>
                stray == if old(phase) != HardwarePeriodic then 0
                         else FreqStray(port.schedule, world, old(Here()), old(port.hwPiv), old(highNs), desired, clock)
    {
      hide LinuxBlock.ActedOnPhase, LinuxBlock.ArmedAsRequested, ArmSucceeds, TimingFor, IntervalCycles, FreqStray,
           CompareArt, FreqOutcome, PlanFor, Refreshed, StepOutcome, StartOutcome, DutyOutcome, ProgramsEdge,
           ProgramsPrime;
      ok, stray := true, 0;
      appliedFreqGen := desired.freqGen;
      if phase == HardwarePeriodic {
        ok, stray := ApplyFreq(desired, clock);
        return;
      }
      if phase == HwDuty {
        return;
      }
      if phase == ArmPeriodic {
        var sample := Consult();
        if sample.nowReal < wakeAt {
          return;
        }
      }
      ok, stray := Continue(clock, rearmToggle);
    }

    /** A frequency change the hardware has not seen, on a free-running symmetric output. */
    predicate FreqDue(desired: Desired)
      reads this`phase, this`appliedGen, this`appliedFreqGen
    {
      phase == HardwarePeriodic && desired.gen == appliedGen && desired.freqGen != appliedFreqGen
    }

    /** The engine follows the plan made at this consultation, and the mirror is right exactly if it equals the flop. */
    twostate predicate Planned(clock: Clock, sample: nat)
      reads this, port
    {
      var plan := PlanFor(clock, old(nextEdgeNs), old(highNs), old(lowNs), world(sample).nowArt, port.flopHigh);
      && plan.Ok? && port.engine.compv == plan.value.compare && port.engine.piv == plan.value.interval
      && port.engine.count == old(port.engine.count)
      && Settled() == (port.engine.flop == port.flopHigh)
    }

    /** Start a primed waveform, or disable the block. */
    method StartPrimed(clock: Clock) returns (ok: bool)
      requires Valid() && phase == ArmPeriodic
      modifies this`phase, this`hwFirstArt, this`wakeAt, this`samples, port
      ensures Valid() && port.engine.count == old(port.engine.count) && Settled() == old(Settled())
      ensures Left(ok) == StartOutcome(old(View()), clock, world(old(samples)))
      ensures ok ==> Planned(clock, old(samples))
    {
      hide CompareArt, IntervalCycles, WrapSigned, PlanFor;
      var sample := Consult();
      ok := ArmHardwarePeriodic(clock, sample);
      if !ok {
        ghost var none := DisableOutputHw();
      }
    }

    /** The per-edge step: arm the hardware, service a duty output, or program the next software edge. */
    method Continue(clock: Clock, rearmToggle: bool) returns (ok: bool, ghost stray: nat)
      requires Valid()
      modifies this`phase, this`hwFirstArt, this`nextEdgeNs, this`nextRising, this`wakeAt, this`samples, port
      ensures Valid() && old(port.engine.count) <= port.engine.count
      ensures Settled() == (old(Settled()) == !Odd(stray))
      ensures !ok ==> !port.ctl.en
      ensures old(phase) != HwDuty ==> stray == 0 && port.engine.count == old(port.engine.count)
      ensures old(phase) == HwDuty ==>
                && stray <= Excess(port.engine.count - old(port.ckptEdge)) && old(port.ckptEdge) <= port.ckptEdge
                && (ok ==> stray == Excess(port.ckptEdge - old(port.ckptEdge)))
                && stray == VisitStray(port.schedule, old(View()), clock)
      ensures Left(ok) == ContinueOutcome(port.schedule, world, old(View()), clock)
      ensures old(phase) == HardwarePeriodic ==> unchanged(port) && samples == old(samples)
      ensures old(phase) == HwDuty && ok ==>
                && port.hwPiv == DutyInterval(port.schedule, old(View()), clock)
                && port.flopHigh == DutyLevel(port.schedule, old(View()))
      ensures old(phase) == ArmPeriodic && ok ==> Planned(clock, old(samples))
      ensures (old(phase) == FirstRising || old(phase) == ToggleStep) && ok ==>
                ProgramsEdge(old(Cadence()), clock, rearmToggle, port.engine.compv, port.ctl.ep)
      ensures old(Symmetric()) ==> Symmetric()
    {
      hide CompareArt, IntervalCycles, DeltaToRealNs, WrapSigned, Refreshed, PlanFor, DutyOutcome, StepOutcome,
           DutyInterval, DutyLevel, VisitStray, PlanAt, WakesAfter, RoomToWake, ArtToNs, ProgramsEdge;
      ok, stray := true, 0;
      if phase == ArmPeriodic {
        ok := StartPrimed(clock);
      } else if phase == HwDuty {
        ok, stray := DutyService(clock);
      } else if phase != HardwarePeriodic {
        ok := SoftwareStep(clock, rearmToggle);
      }
    }

    method ApplyFlip(desired: Desired, newest: Desired, clock: Clock) returns (ok: bool, ghost stray: nat)
      requires Valid() && desired.run == Running
      modifies this, port
      ensures Valid() && old(port.engine.count) <= port.engine.count
      ensures ok == FlipSucceeds(world, old(View()), desired, newest, clock)
      ensures old(phase) != HwDuty ==> ok
      ensures View().Sane() && Alike(View(), AfterFlip(port.schedule, world, old(View()), desired, newest, clock))
      ensures !old(FlipDue(desired, Applied())) ==> stray == 0 && unchanged(port) && Here() == old(Here())
      ensures old(phase) != HwDuty || !old(FlipDue(desired, Applied())) ==>
                && phase == old(phase) && Cadence() == old(Cadence())
                && Applied() == Generations(old(appliedGen), old(appliedFreqGen), desired.flipGen)
      ensures old(phase) == HwDuty && phase != HwDuty ==> !phase.FreeRuns()
      ensures Settled() == (old(Settled()) == (Odd(stray) == old(FlipDue(desired, Applied()))))
      ensures old(phase) != HwDuty ==> stray == FlipStray(port.schedule, world, old(View()), desired, clock)
      ensures old(phase) == HardwarePeriodic ==> Here() == FlipScene(port.schedule, world, old(View()), desired, clock)
      ensures old(phase) == HardwarePeriodic || phase == HwDuty ==> port.hwPiv == old(port.hwPiv)
      ensures !old(phase).FreeRuns() ==> stray == 0 && port.engine == old(port.engine) && samples == old(samples)
      ensures phase == HwDuty ==> stray == 0 && Here() == old(Here()) && port.ckptEdge == old(port.ckptEdge)
      ensures old(Symmetric()) ==> Symmetric()
      ensures old(phase) == HwDuty ==>
                stray <= Excess(port.engine.count - old(port.ckptEdge)) + (if newest.mode == Hardware then 0 else 1)
      ensures old(phase) == HwDuty ==>
                stray == if !FlipRearms(old(View()), desired, newest) then 0
                         else ArmStray(port.schedule, old(port.Now()), old(port.ckptEdge), newest, clock, world(old(samples)))
      ensures FlipRearms(old(View()), desired, newest) ==>
                phase != HwDuty && (appliedGen == old(appliedGen) || appliedGen == newest.gen)
      ensures !FlipRearms(old(View()), desired, newest) ==>
                phase == old(phase) && appliedGen == old(appliedGen) && appliedFreqGen == old(appliedFreqGen)
      ensures old(phase) == HwDuty && phase == HwDuty ==> samples == old(samples)
    {
      hide ArmStray, ArmSucceeds, TimingFor, StoppedLevel, Awaited, InvertWindow, AfterInvert;
      ok, stray := true, 0;
      if FlipDue(desired, Applied()) {
        ok, stray := Invert(newest, clock);
      }
      appliedFlipGen := desired.flipGen;
    }

    /**
     * The block was stopped from a moment at which the last look showed the line low, unless it had
     * been looked at thirty times more; no look is older than the request to stop.
     */
    twostate predicate DrainedFirst(looked: Engine, at: Moment)
      reads port
    {
      && old(port.engine.count) <= looked.count && Ran(looked, at.engine) && Ran(old(port.engine), at.engine)
      && old(port.accesses) < at.at && (looked.flop ==> old(port.accesses) + 31 <= at.at)
      && port.engine.count == Ticks(port.schedule, true, at, 2).engine.count
    }

    /** A stopped request: drain, then disable. */
    method StopWork() returns (ghost stray: nat)
      requires Valid()
      modifies this`phase, this`hwFirstArt, port
      ensures Valid() && old(port.engine.count) <= port.engine.count && !port.ctl.en
      ensures Left(true) == Outcome(true, ToggleStep, false, old(Applied()), old(Cadence()))
      ensures Settled() == (old(Settled()) == !Odd(stray))
      ensures old(phase) != HwDuty ==> stray == 0
      ensures old(phase) == HwDuty ==> stray <= Excess(port.engine.count - old(port.ckptEdge))
      ensures old(phase) == HwDuty ==>
                && old(View()).Sane()
                && var drained := DrainStep(port.schedule, old(View()));
                   stray == Excess(drained.ckptEdge - old(port.ckptEdge)) + DrainStray(port.schedule, drained, 30)
      // With a right mirror a line still high is waited for.
      ensures old(phase == HardwarePeriodic && Settled()) ==> exists looked, at :: DrainedFirst(looked, at)
    {
      hide Odd, Agree;
      stray := DrainLow();
      ghost var looked, at := port.base, port.Now();
      ghost var more := DisableOutputHw();
      OddAdd(stray, more);
      stray := stray + more;
      if old(phase == HardwarePeriodic && Settled()) {
        assert DrainedFirst(looked, at);
      }
    }

    /** A running request: apply the pending flip, then bring the hardware to the snapshot. */
    method RunWork(desired: Desired, newest: Desired, clock: Clock, rearmToggle: bool) returns (ok: bool, ghost stray: nat)
      requires Valid() && desired.run == Running
      modifies this, port
      ensures Valid() && old(port.engine.count) <= port.engine.count
      ensures Settled() == (old(Settled()) == !Odd(stray + desired.flipGen - old(appliedFlipGen)))
      ensures stray == WorkStray(port.schedule, world, old(View()), desired, newest, clock)
      ensures old(phase) == HardwarePeriodic && old(appliedGen == desired.gen && appliedFreqGen == desired.freqGen) ==>
                && Here() == FlipScene(port.schedule, world, old(View()), desired, clock)
                && port.hwPiv == old(port.hwPiv)
      ensures old(phase) == HardwarePeriodic && phase == HardwarePeriodic ==>
                port.hwPiv == if old(appliedFreqGen) == desired.freqGen then old(port.hwPiv)
                              else Refreshed(old(port.hwPiv), IntervalCycles(clock.phc, old(highNs)))
      ensures old(phase) == HwDuty ==>
                stray <= Excess(port.engine.count - old(port.ckptEdge))
                         + if desired.mode == Software || newest.mode == Software then 1 else 0
      ensures old(phase) == HwDuty && !old(FlipDue(desired, Applied())) && phase == HwDuty ==>
                stray == Excess(port.ckptEdge - old(port.ckptEdge))
      ensures Left(ok) == WorkOutcome(port.schedule, world, old(View()), desired, newest, clock)
      ensures old(phase) == ArmPeriodic && phase.FreeRuns() ==>
                Planned(clock, old(samples) + if old(appliedFreqGen) == desired.freqGen then 0 else 1)
      ensures (old(phase) == FirstRising || old(phase) == ToggleStep) && old(appliedGen) == desired.gen && ok ==>
                ProgramsEdge(old(Cadence()), clock, rearmToggle, port.engine.compv, port.ctl.ep)
      ensures ArmsSnapshot(old(View()), desired, newest) && ok ==> ArmedAsRequested(desired, clock)
      ensures Postponed(world, old(View()), desired) ==>
                ok && phase == ArmPeriodic && port.engine == old(port.engine) && Cadence() == old(Cadence())
      ensures old(FreqDue(desired)) ==>
                ActedOnPhase(FlipScene(port.schedule, world, old(View()), desired, clock), old(port.hwPiv), old(highNs),
                             desired, clock, ok)
      ensures phase == FirstRising ==> ProgramsPrime(Cadence(), clock, port.engine.compv, port.ctl.ep)
      ensures Idle(old(View()), desired) ==> unchanged(port)
      ensures old(Symmetric()) && Even(desired) ==> Symmetric()
    {
      hide LinuxBlock.ActedOnPhase, Odd, FreqStray, InvertWindow, AfterInvert, Awaited, Agree, ProgressOutcome,
           AfterFlip, FlipSucceeds, PlanFor, FlipStray, LinuxBlock.Settled, ArmStray, VisitStray, FlipScene, Refreshed,
           IntervalCycles, ProgramsEdge, ProgramsPrime, LinuxBlock.ArmedAsRequested;
      ghost var flipped := AfterFlip(port.schedule, world, View(), desired, newest, clock);
      ok, stray := ApplyFlip(desired, newest, clock);
      AlikeProgress(port.schedule, world, View(), flipped, desired, clock);
      if phase == HwDuty {
        AlikeStray(port.schedule, View(), flipped, clock);
      }
      var progressed;
      ghost var more;
      progressed, more := Progress(desired, clock, rearmToggle);
      ThreeParities(stray, more, desired.flipGen - old(appliedFlipGen));
      ok, stray := ok && progressed, stray + more;
    }

    /** The worker: bring the hardware to the snapshot it took. */
    method OutputWork(desired: Desired, newest: Desired, clock: Clock, rearmToggle: bool)
      returns (ok: bool, ghost stray: nat)
      requires Valid()
      modifies this, port
      ensures Valid() && old(port.engine.count) <= port.engine.count
      // Conservation: only applied flips and stray edges change whether the mirror is right.
      ensures Settled() == (old(Settled()) == !Odd(stray + appliedFlipGen - old(appliedFlipGen)))
      // Of a symmetric output exactly the edges in the windows of an invert and of a frequency update stray,
      // of a duty output those a fold finds beyond one, and one more if a software prime fails on top of it.
      ensures stray == WorkStray(port.schedule, world, old(View()), desired, newest, clock)
      ensures old(phase) == HwDuty ==>
                stray <= Excess(port.engine.count - old(port.ckptEdge))
                         + if desired.mode == Software || newest.mode == Software then 1 else 0
      ensures old(phase) == HwDuty && !old(FlipDue(desired, Applied())) && phase == HwDuty ==>
                stray == Excess(port.ckptEdge - old(port.ckptEdge))
      // Whether anything failed, the phase, the applied generations and the cadence, for every path.
      ensures Left(ok) == WorkOutcome(port.schedule, world, old(View()), desired, newest, clock)
      ensures Reconciles(old(Applied()), desired, newest, Applied(), ok)
      // An invert alone leaves the free run, shifted; a frequency update refreshes the interval.
      ensures desired.run == Running && old(phase) == HardwarePeriodic
                && old(appliedGen == desired.gen && appliedFreqGen == desired.freqGen) ==>
                && Here() == FlipScene(port.schedule, world, old(View()), desired, clock)
                && port.hwPiv == old(port.hwPiv)
      ensures old(phase) == HardwarePeriodic && phase == HardwarePeriodic ==>
                port.hwPiv == if old(appliedFreqGen) == desired.freqGen then old(port.hwPiv)
                              else Refreshed(old(port.hwPiv), IntervalCycles(clock.phc, old(highNs)))
      ensures old(phase) == ArmPeriodic && phase.FreeRuns() ==>
                Planned(clock, old(samples) + if old(appliedFreqGen) == desired.freqGen then 0 else 1)
      // A stop waits for a line that is still high, a bounded number of times.
      ensures desired.run == Stopped && old(phase == HardwarePeriodic && Settled()) ==>
                exists looked, at :: DrainedFirst(looked, at)
      // An output armed for its snapshot is armed as it asks.
      ensures ArmsSnapshot(old(View()), desired, newest) && ok ==> ArmedAsRequested(desired, clock)
      // A frequency update leaves a primed output to its wake, and acts on the phase of a running one.
      ensures Postponed(world, old(View()), desired) ==>
                ok && phase == ArmPeriodic && port.engine == old(port.engine) && Cadence() == old(Cadence())
      ensures desired.run == Running && old(FreqDue(desired)) ==>
                ActedOnPhase(FlipScene(port.schedule, world, old(View()), desired, clock), old(port.hwPiv), old(highNs),
                             desired, clock, ok)
      // A software wake programs the edge that was due, and a software prime its falling edge.
      ensures (old(phase) == FirstRising || old(phase) == ToggleStep) && desired.run == Running
                && old(appliedGen) == desired.gen && ok ==>
                ProgramsEdge(old(Cadence()), clock, rearmToggle, port.engine.compv, port.ctl.ep)
      ensures phase == FirstRising ==> ProgramsPrime(Cadence(), clock, port.engine.compv, port.ctl.ep)
      ensures Idle(old(View()), desired) ==> unchanged(port)
      ensures old(Symmetric()) && (desired.run == Running ==> Even(desired)) ==> Symmetric()
    {
      hide LinuxBlock.ActedOnPhase, Odd, PlanFor, FlipStray, FreqStray, ArmStray, VisitStray, FlipScene, Refreshed,
           IntervalCycles, ProgressOutcome, AfterFlip, FlipSucceeds, LinuxBlock.Settled, ProgramsEdge, ProgramsPrime,
           LinuxBlock.ArmedAsRequested;
      OutcomeReconciles(port.schedule, world, View(), desired, newest, clock);
      if desired.run == Stopped {
        stray := StopWork();
        return true, stray;
      }
      ok, stray := RunWork(desired, newest, clock, rearmToggle);
    }
  }
}
