/** The Windows hardware layer: one block and the routines its requests run. */
module WindowsDriver {
  import opened Arith
  import opened Arming
  import opened Interleaving
  import opened ToggleEngine
  import opened TogglePort

  datatype Mode = Off | Input | Output

  datatype Status = Success | InvalidParameter | NotSupported | IntegerOverflow

  datatype Request =
    | SetInput(enable: bool, ep: EdgePolarity)
    | StartOutput(high: u64, low: u64, firstEdgeArt: u64, nowArt: u64, autoStart: u64, margin: u64)
    | StopOutput
    | InvertOutput
    | GetBlock
  {
    /** The compare value a start asks for. */
    function Requested(): u64
      requires StartOutput?
    {
      WithoutDelay(if firstEdgeArt == 0 then Wrap(nowArt + autoStart) else firstEdgeArt)
    }

    function Deadline(): u64
      requires StartOutput?
    {
      Wrap(nowArt + margin)
    }
  }

  lemma StartIsRequested(start: Request, flopHigh: bool)
    requires start.StartOutput? && !BadCycles(start.high, start.low)
    requires PushPast(SlotCompare(start.Requested(), start.high, start.low, flopHigh),
                      start.Deadline(), start.high + start.low).Ok?
    ensures var compare := PushPast(SlotCompare(start.Requested(), start.high, start.low, flopHigh),
                                    start.Deadline(), start.high + start.low).value;
            var at := if start.firstEdgeArt == 0 then (start.nowArt + start.autoStart) % TWO64 else start.firstEdgeArt;
            var requested := if at > 2 then at - 2 else at;
            && (FirstRise(compare, start.low, flopHigh) - requested) % (start.high + start.low) == 0
            && (start.nowArt + start.margin <= U64_MAX ==> start.nowArt + start.margin <= compare)
  {
    hide PushPast, SlotCompare;
    ArmedOnGrid(start.Requested(), start.high, start.low, flopHigh, start.Deadline());
    if start.nowArt + start.margin <= U64_MAX {
      WrapIdentity(start.nowArt + start.margin);
    }
  }

  class WindowsBlock {
    const port: Port
    var mode: Mode
    var highCycles: u64
    var lowCycles: u64

    constructor (powerOnLevel: bool, schedule: Schedule)
      ensures Valid() && fresh(port) && port.engine == Engine(0, 0, powerOnLevel, 0, Quiet)
      ensures port.schedule == schedule && port.accesses == 0
      ensures port.Right() <==> !powerOnLevel
      ensures !port.ctl.Live()
    {
      port := new Port(powerOnLevel, schedule);
      mode, highCycles, lowCycles := Off, 0, 0;
      new;
    }

    ghost predicate Valid()
      reads this, port
    {
      port.Valid() && port.Faithful()
    }

    /** Clear EN, then fold, then clear the registers: the common head of starting and stopping. */
    method Quiesce() returns (ctrl: Ctl)
      requires Valid()
      modifies port
      ensures port.Valid() && port.OldWaveform()
      ensures ctrl == old(port.ctl) && port.ctl == ctrl.(en := false)
      ensures port.engine.compv == 0 && port.engine.piv == 0 && port.hwPiv == old(port.hwPiv)
      ensures port.Unfolded() == 0 && port.Faithful()
      ensures port.Right() == old(port.Right())
    {
      ctrl := port.ClearEnable();
      RunShape(old(port.engine), port.engine);
      port.Fold();
      port.WriteCompv(0);
      ghost var free := port.WritePiv(0);
    }

    /** What a start leaves behind, as a function of the tracked level it folded to. */
    ghost predicate Started(start: Request, status: Status)
      requires start.StartOutput? && !BadCycles(start.high, start.low)
      reads this, port
    {
      var first := SlotCompare(start.Requested(), start.high, start.low, port.flopHigh);
      match PushPast(first, start.Deadline(), start.high + start.low)
      case Err(_) => status == IntegerOverflow && !port.ctl.Live()
      case Ok(compare) =>
        && status == Success
        && port.ctl == Ctl(true, false, Toggle, true)
        && port.engine.compv == compare && port.ckptCompv == compare && port.Unfolded() == 0
        && port.engine.piv == port.hwPiv == (if port.flopHigh then start.low else start.high)
        && highCycles == start.high && lowCycles == start.low
    }

    method HwStartOutput(start: Request) returns (status: Status)
      requires Valid() && start.StartOutput?
      modifies port, this`highCycles, this`lowCycles
      ensures Valid() && port.OldWaveform()
      ensures port.Right() == old(port.Right())
      ensures status == InvalidParameter <==> BadCycles(start.high, start.low)
      ensures status == InvalidParameter ==> unchanged(port)
      ensures status != InvalidParameter ==> Started(start, status)
      // Whatever the level, the first rise is on the requested grid and no toggle is due before now plus the margin.
      ensures status == Success ==>
                var at := if start.firstEdgeArt == 0 then (start.nowArt + start.autoStart) % TWO64 else start.firstEdgeArt;
                var requested := if at > 2 then at - 2 else at;
                (FirstRise(port.engine.compv, start.low, port.flopHigh) - requested) % (start.high + start.low) == 0
      ensures status == Success && start.nowArt + start.margin <= U64_MAX ==>
                start.nowArt + start.margin <= port.engine.compv
      ensures status == Success ==>
                port.ctl.Live() && port.engine.piv == port.hwPiv == if port.flopHigh then start.low else start.high
    {
      hide PushPast;
      if start.high == 0 || start.low == 0 || start.high > U64_MAX / 4 || start.low > U64_MAX / 4 {
        return InvalidParameter;
      }
      var ctrl := Quiesce();
      status := ArmFromQuiet(ctrl.(en := false), start);
      if status == Success {
        StartIsRequested(start, port.flopHigh);
      }
    }

    method ArmFromQuiet(ctl: Ctl, start: Request) returns (status: Status)
      requires port.Valid() && port.Faithful() && start.StartOutput? && !BadCycles(start.high, start.low)
      requires port.ctl == ctl && !ctl.en && port.Unfolded() == 0 && port.engine.compv == 0
      modifies port, this`highCycles, this`lowCycles
      ensures Valid() && port.Right() == old(port.Right())
      ensures port.engine.edges == old(port.engine.edges) && port.engine.count == old(port.engine.count)
      ensures Started(start, status) && status != InvalidParameter
    {
      var ctrl := ctl.(dir := false, ep := Rising, pm := false);
      port.WriteCtl(ctrl);
      var first := SlotCompare(start.Requested(), start.high, start.low, port.flopHigh);
      var pushed := PushPast(first, start.Deadline(), start.high + start.low);
      if pushed.Err? {
        return IntegerOverflow;
      }
      var initialPiv := if port.flopHigh then start.low else start.high;
      highCycles := start.high;
      lowCycles := start.low;
      port.Arm(ctrl, pushed.value, initialPiv);
      return Success;
    }

    method HwStopOutput()
      requires Valid()
      modifies port
      ensures Valid() && port.OldWaveform()
      ensures port.Right() == old(port.Right())
      ensures !port.ctl.en && port.hwPiv == 0 && port.engine.compv == 0 && port.engine.piv == 0
      ensures port.Right() ==> port.flopHigh == port.engine.flop
    {
      var ctrl := Quiesce();
      port.WriteCtl(ctrl.(en := false, pm := false));
      port.hwPiv := 0;
      port.ckptCompv := 0;
    }

    /**
     * Flip the belief and shift the pending compare by one interval. The belief is corrected if and
     * only if an even number of edges fired between the fold's last low-word read and the pause.
     */
    method HwInvertOutput()
      requires Valid()
      modifies port
      ensures Valid() && port.OldWaveform()
      ensures port.Right()
           == (old(port.Right()) == Odd(InvertWindow(port.schedule, old(port.ctl.Live()), old(port.Now()), old(port.hwPiv))))
      ensures port.Now() == AfterInvert(port.schedule, old(port.ctl.Live()), old(port.Now()), old(port.hwPiv))
      ensures port.ctl == old(port.ctl) && port.hwPiv == old(port.hwPiv) && port.engine.piv == old(port.engine.piv)
    {
      hide InvertWindow, AfterInvert;
      port.flopHigh := !port.flopHigh;
      if port.hwPiv == 0 {
        WindowIsForward(port.schedule, port.ctl.Live(), port.Now(), 0);
        NothingToInvert(port.schedule, port.ctl.Live(), port.Now());
        StandingStill(port.engine);
        RunShape(port.engine, port.engine);
        return;
      }
      ghost var lost := port.InvertPending();
    }

    method HwSetInput(enable: bool, ep: EdgePolarity)
      requires Valid()
      modifies port
      ensures Valid() && port.OldWaveform()
      ensures port.Right() == old(port.Right()) && port.hwPiv == old(port.hwPiv)
      ensures !port.ctl.Live() && port.ctl.en == enable
      ensures enable ==> port.ctl.dir && port.ctl.ep == ep
    {
      var ctrl := port.ClearEnable();
      RunShape(old(port.engine), port.engine);
      if enable {
        ctrl := ctrl.(en := false, ep := ep, dir := true);
        port.WriteCtl(ctrl);
        port.WriteCtl(ctrl.(en := true));
      }
    }

    /** Folding on demand, then reading everything for the status report. */
    method HwGetBlock() returns (level: bool)
      requires Valid()
      modifies port
      ensures Valid() && port.OldWaveform() && port.ctl == old(port.ctl)
      ensures Ran(old(port.engine), port.engine) && port.hwPiv == old(port.hwPiv)
      ensures port.Right() == old(port.Right())
      ensures level == port.flopHigh
    {
      port.Fold();
      label folded:
      ghost var first := port.engine;
      var control, compare := port.ReadBack();
      port.FreeRunKeepsMirror@folded();
      RunsJoin(old(port.engine), first, port.engine);
      RunShape(old(port.engine), port.engine);
      level := port.flopHigh;
    }
  }
}
