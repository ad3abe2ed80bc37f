/**
 * One output register block: the registers, the toggle engine behind them, and the software mirror
 * of the engine's level flop. A schedule, arbitrary but fixed, says how many edges fire before each
 * 32-bit access, so each routine is proved for every interleaving and says what it makes of each.
 */
module TogglePort {
  import opened Arith
  import opened Interleaving
  import opened ToggleEngine

  datatype EdgePolarity = Rising | Falling | Toggle

  datatype Ctl = Ctl(en: bool, dir: bool, ep: EdgePolarity, pm: bool) {
    /** Only the periodic toggle engine of an enabled output generates edges. */
    predicate Live() {
      en && pm && ep == Toggle && !dir
    }
  }

  /** What the hardware holds: a compare within its width, and a positive interval while it runs. */
  predicate Sound(ctl: Ctl, engine: Engine) {
    Fits(engine, ctl.Live())
  }

  /** Edges a fold would count although none fired, or miss when negative. */
  function Strays(base: Engine, ckptCompv: int, ckptEdge: int, hwPiv: int): int
    requires hwPiv != 0
  {
    (base.compv - ckptCompv) / hwPiv - (base.count - ckptEdge)
  }

  predicate CountsParity(base: Engine, ckptCompv: int, ckptEdge: int, hwPiv: int) {
    || (base.compv == ckptCompv && base.count == ckptEdge)
    || hwPiv == 0 || base.compv < ckptCompv
    || !Odd(Strays(base, ckptCompv, ckptEdge, hwPiv))
  }

  class Port {
    const schedule: Schedule
    /** How many accesses have been made. */
    var accesses: nat

    var ctl: Ctl
    /** The hardware behind COMPV and PIV. The driver reads and writes its compare and interval only. */
    var engine: Engine
    /** The engine as it was last re-programmed or checkpointed; it has run freely since. */
    ghost var base: Engine

    var flopHigh: bool
    var hwPiv: u64
    var ckptCompv: u64
    /** How many edges had been generated at the last checkpoint. */
    ghost var ckptEdge: nat

    constructor (powerOnLevel: bool, schedule: Schedule)
      ensures Valid() && Faithful() && ctl == Ctl(false, false, Rising, false)
      ensures this.schedule == schedule && accesses == 0
      ensures engine == Engine(0, 0, powerOnLevel, 0, Quiet)
      ensures Right() <==> !powerOnLevel
      ensures hwPiv == 0
    {
      this.schedule := schedule;
      accesses := 0;
      ctl := Ctl(false, false, Rising, false);
      engine := Engine(0, 0, powerOnLevel, 0, Quiet);
      base := Engine(0, 0, powerOnLevel, 0, Quiet);
      flopHigh, hwPiv, ckptCompv, ckptEdge := false, 0, 0, 0;
    }

    ghost function Now(): Moment
      reads `engine, `accesses
    {
      Moment(engine, accesses)
    }

    /** What n accesses from the old state on see, if none of them re-programs anything. */
    twostate function Later(n: nat): Moment
      reads this
    {
      Ticks(schedule, old(ctl.Live()), old(Now()), n)
    }

    /** Edges the mirror has not counted yet. */
    ghost function Unfolded(): int
      reads `engine, `ckptEdge
    {
      engine.count - ckptEdge
    }

    /** Flop, mirror and the parity of the unfolded edges agree: folding exactly would yield the true level. */
    ghost predicate Right()
      reads `engine, `flopHigh, `ckptEdge
    {
      Agree(engine.flop, flopHigh, engine.count - ckptEdge)
    }

    /** The checkpoint is the free-running engine's own starting point. */
    ghost predicate Steady()
      reads `base, `ckptCompv, `ckptEdge
    {
      base.compv == ckptCompv && base.count == ckptEdge
    }

    /** COMPV has moved past the checkpoint exactly if an edge was generated since. */
    ghost predicate Tracks()
      reads `base, `ckptCompv, `ckptEdge
    {
      base.compv == ckptCompv <==> base.count == ckptEdge
    }

    /** The count a fold would make has the parity of the unfolded edges. */
    ghost predicate Faithful()
      reads `base, `ckptCompv, `ckptEdge, `hwPiv
    {
      CountsParity(base, ckptCompv, ckptEdge, hwPiv)
    }

    ghost predicate Valid()
      reads `ctl, `engine, `ckptCompv, `ckptEdge, `hwPiv, `base
    {
      && Sound(ctl, engine)
      && ckptEdge <= base.count && Ran(base, engine)
      && (ctl.Live() ==> hwPiv == engine.piv && ckptCompv <= base.compv)
      && (hwPiv == 0 || base.compv < ckptCompv ==> ckptEdge == engine.count)
      && (base.piv == hwPiv || base.count == engine.count)
    }

    /** Since the old state the engine ran freely: nothing was re-programmed. */
    twostate predicate Advanced()
      reads `engine, `base
    {
      && base == old(base) && Ran(old(engine), engine)
      && (!old(ctl.Live()) ==> engine == old(engine))
    }

    /** Every edge generated during a call came from the waveform that was running when it began. */
    twostate predicate OldWaveform()
      reads `engine
    {
      && Generated(old(engine), engine)
      && (!old(ctl.Live()) ==> engine.count == old(engine.count))
    }

    twostate predicate MirrorUntouched()
      reads `flopHigh, `hwPiv, `ckptCompv, `ckptEdge
    {
      && flopHigh == old(flopHigh) && hwPiv == old(hwPiv)
      && ckptCompv == old(ckptCompv) && ckptEdge == old(ckptEdge)
    }

    // ----- the hardware

    /** The edges the schedule has before this access, none past the horizon of the 64-bit counter. */
    method HardwareRuns()
      requires Sound(ctl, engine)
      modifies `engine, `accesses
      ensures Advanced() && Sound(ctl, engine)
      ensures Now() == Tick(schedule, ctl.Live(), old(Now()))
    {
      var budget := schedule(accesses);
      ghost var reached := Burst(engine, budget);
      if ctl.Live() {
        BurstRuns(engine, budget);
        while 0 < budget && engine.compv + engine.piv < TWO64
          invariant Burst(engine, budget) == reached && accesses == old(accesses)
          decreases budget
        {
          engine := engine.Fire();
          budget := budget - 1;
        }
      } else {
        StandingStill(engine);
      }
      accesses := accesses + 1;
    }

    // ----- register accesses

    method ReadCtl() returns (value: Ctl)
      requires Sound(ctl, engine)
      modifies `engine, `accesses
      ensures Advanced() && Sound(ctl, engine)
      ensures Now() == Tick(schedule, ctl.Live(), old(Now()))
      ensures value == ctl
    {
      HardwareRuns();
      value := ctl;
    }

    method WriteCtl(value: Ctl)
      requires Sound(ctl, engine)
      requires value.Live() ==> 0 < engine.piv
      modifies `ctl, `engine, `accesses
      ensures Advanced() && Sound(ctl, engine)
      ensures Now() == Tick(schedule, old(ctl.Live()), old(Now()))
      ensures ctl == value
    {
      HardwareRuns();
      RunShape(old(engine), engine);
      ctl := value;
    }

    method ReadCompvHigh() returns (word: u32)
      requires Sound(ctl, engine)
      modifies `engine, `accesses
      ensures Advanced() && Sound(ctl, engine)
      ensures Now() == Tick(schedule, ctl.Live(), old(Now()))
      ensures word == engine.compv / TWO32
    {
      HardwareRuns();
      word := engine.compv / TWO32;
    }

    method ReadCompvLow() returns (word: u32)
      requires Sound(ctl, engine)
      modifies `engine, `accesses
      ensures Advanced() && Sound(ctl, engine)
      ensures Now() == Tick(schedule, ctl.Live(), old(Now()))
      ensures word == engine.compv % TWO32
    {
      HardwareRuns();
      word := engine.compv % TWO32;
    }

    /** Two stores, high word first. Only done while the engine cannot reload. */
    method WriteCompv(value: u64)
      requires !ctl.Live() && Sound(ctl, engine)
      modifies `engine, `base, `accesses
      ensures engine == old(engine).(compv := value) == base && accesses == old(accesses) + 2
    {
      HardwareRuns();
      engine := engine.(compv := value / TWO32 * TWO32 + engine.compv % TWO32);
      HardwareRuns();
      engine := engine.(compv := engine.compv / TWO32 * TWO32 + value % TWO32);
      base := engine;
    }

    /** Two stores, high word first. On a running engine the high word must not change. `free` is the engine just before. */
    method WritePiv(value: u64) returns (ghost free: Engine)
      requires Sound(ctl, engine)
      requires ctl.Live() ==> 0 < value && value / TWO32 == engine.piv / TWO32
      modifies `engine, `base, `accesses
      ensures Sound(ctl, engine) && Ran(old(engine), free) && (!old(ctl.Live()) ==> free == old(engine))
      ensures Moment(free, accesses) == Later(2) && accesses == old(accesses) + 2
      ensures engine == free.(piv := value) == base
    {
      HardwareRuns();
      ghost var first := engine;
      RunShape(old(engine), first);
      engine := engine.(piv := value / TWO32 * TWO32 + engine.piv % TWO32);
      assert ctl.Live() ==> engine == first;
      HardwareRuns();
      free := if ctl.Live() then engine else first;
      if ctl.Live() {
        RunsJoin(old(engine), first, free);
        RunShape(first, free);
      }
      TwoTicks(schedule, ctl.Live(), old(Now()));
      engine := engine.(piv := engine.piv / TWO32 * TWO32 + value % TWO32);
      base := engine;
    }

    /**
     * Torn-read safety: whatever edges fire between the word reads, the retry loop returns the
     * value COMPV held at its last low-word read, when the engine was at `seen`. Each retry has
     * seen a strictly higher high word.
     */
    method ReadCompv() returns (value: u64, ghost seen: Engine)
      requires Sound(ctl, engine)
      modifies `engine, `accesses
      ensures Advanced() && Sound(ctl, engine)
      ensures Ran(old(engine), seen) && Ran(seen, engine)
      ensures Reading(seen, Now()) == Read64(schedule, ctl.Live(), old(Now()))
      ensures value == seen.compv && old(accesses) < accesses
    {
      hide Ran;
      ghost var live := ctl.Live();
      var hi := ReadCompvHigh();
      ReadRuns(schedule, live, old(Now()));
      var lo;
      var prevHi;
      while true
        invariant Sound(ctl, engine) && hi == engine.compv / TWO32
        invariant Rounds(schedule, live, Now()) == Read64(schedule, live, old(Now()))
        decreases TWO32 - hi
      {
        prevHi := hi;
        ghost var first := engine;
        lo := ReadCompvLow();
        seen := engine;
        hi := ReadCompvHigh();
        WordReads(first, seen, engine);
        if hi == prevHi {
          value := hi * TWO32 + lo;
          return;
        }
      }
    }

    /** Control, compare and interval, read for a report. */
    method ReadBack() returns (control: Ctl, compare: u64)
      requires Sound(ctl, engine)
      modifies `engine, `accesses
      ensures Advanced() && Sound(ctl, engine)
      ensures control == ctl
    {
      control := ReadCtl();
      ghost var first := engine;
      ghost var seen;
      compare, seen := ReadCompv();
      RunsJoin(old(engine), first, engine);
    }

    /** Read control and write it back without EN: no edge fires afterwards, and the mirror is as right as before. */
    method ClearEnable() returns (ctrl: Ctl)
      requires Valid()
      modifies `ctl, `engine, `accesses
      ensures Valid() && Ran(old(engine), engine) && (!old(ctl.Live()) ==> engine == old(engine))
      ensures Now() == Later(2)
      ensures ctrl == old(ctl) && ctl == ctrl.(en := false)
      ensures Right() == old(Right())
    {
      ctrl := ReadCtl();
      ghost var read := engine;
      WriteCtl(ctrl.(en := false));
      RunsJoin(old(engine), read, engine);
      FreeRunKeepsMirror();
      TwoTicks(schedule, old(ctl.Live()), old(Now()));
    }

    /** Read control and write it back without PM: the line holds its level and the comparator stops. */
    method Pause() returns (ctrl: Ctl)
      requires Valid()
      modifies `ctl, `engine, `accesses
      ensures Valid() && Ran(old(engine), engine) && (!old(ctl.Live()) ==> engine == old(engine))
      ensures Now() == Later(2) && accesses == old(accesses) + 2
      ensures ctrl == old(ctl) && ctl == ctrl.(pm := false)
      ensures Right() == old(Right())
    {
      ctrl := ReadCtl();
      ghost var read := engine;
      WriteCtl(ctrl.(pm := false));
      RunsJoin(old(engine), read, engine);
      FreeRunKeepsMirror();
      TwoTicks(schedule, old(ctl.Live()), old(Now()));
    }

    // ----- the mirror

    /**
     * Fold the edges generated since the checkpoint into the mirror, by how far COMPV moved.
     * The mirror stays right, or stays wrong, exactly when the count is faithful.
     */
    method Fold()
      requires Valid()
      modifies `engine, `accesses, `base, `flopHigh, `ckptCompv, `ckptEdge
      ensures Valid() && Ran(old(engine), engine)
      ensures !old(ctl.Live()) ==> engine == old(engine)
      ensures Right() == (old(Right()) == old(Faithful()))
      ensures Faithful()
      ensures if old(ctl.Live()) then Steady() && old(engine.count) <= ckptEdge else Unfolded() == 0
      ensures var read := Read64(schedule, old(ctl.Live()), old(Now()));
              && Now() == (if hwPiv == 0 then old(Now()) else read.after)
              && (hwPiv != 0 ==> ckptEdge == read.seen.count && old(accesses) < accesses)
    {
      if hwPiv == 0 {
        return;
      }
      hide Read64;
      var value, seen := ReadCompv();
      FreeRunKeepsMirror();
      RunsJoin(base, old(engine), seen);
      if value < ckptCompv {
        RunAdvances(base, seen);
        RunShape(old(engine), seen);
        return;
      }
      RunShape(base, seen);
      Credit(value, seen);
    }

    /**
     * Fold assuming at most one edge since the checkpoint: any movement of COMPV flips the mirror.
     * `counted` edges had really been generated when `moved` was decided.
     */
    method FoldSingle() returns (ghost moved: bool, ghost counted: nat)
      requires Valid() && hwPiv != 0
      modifies `engine, `accesses, `base, `flopHigh, `ckptCompv, `ckptEdge
      ensures Valid() && Ran(old(engine), engine)
      ensures !old(ctl.Live()) ==> engine == old(engine) && moved == (engine.compv != old(ckptCompv))
      ensures !old(ctl.Live()) ==> counted == old(Unfolded())
      ensures old(Unfolded()) <= counted <= engine.count - old(ckptEdge)
      ensures Now() == Read64(schedule, ctl.Live(), old(Now())).after && old(accesses) < accesses
      ensures moved == (Read64(schedule, ctl.Live(), old(Now())).seen.compv != old(ckptCompv))
      ensures flopHigh == (old(flopHigh) != moved)
      ensures ckptCompv == Read64(schedule, ctl.Live(), old(Now())).seen.compv
      ensures old(Tracks()) ==> ckptEdge == Read64(schedule, ctl.Live(), old(Now())).seen.count
      ensures old(Tracks()) ==> Tracks() && moved == (0 < counted)
      ensures moved ==> ckptEdge == old(ckptEdge) + counted && Steady()
      ensures old(ckptCompv <= base.compv) ==> old(ckptCompv) <= ckptCompv
      ensures !moved ==> ckptEdge == old(ckptEdge)
      ensures Right() == (old(Right()) == (!moved || Odd(counted)))
    {
      hide Read64, Engine.Fires;
      var value, seen := ReadCompv();
      FreeRunKeepsMirror();
      RunsJoin(base, old(engine), seen);
      RunAdvances(base, seen);
      moved, counted := value != ckptCompv, seen.count - ckptEdge;
      if value != ckptCompv {
        SingleParity(engine.flop, flopHigh, counted, engine.count - seen.count);
        RunShape(base, seen);
        RunShape(seen, engine);
        flopHigh := !flopHigh;
        ckptCompv, ckptEdge, base := value, seen.count, seen;
      }
    }

    /** The mirror's interval register follows a hot rewrite of PIV; edges after the checkpoint are mistaken for new ones. */
    method RefreshInterval(value: u64) returns (ghost window: nat)
      requires Valid() && ctl.Live() && 0 < value && value / TWO32 == hwPiv / TWO32
      modifies `engine, `accesses, `base, `hwPiv
      ensures Valid() && Right() == old(Right()) && Generated(old(engine), engine)
      ensures window == engine.count - ckptEdge
      ensures Now() == Moment(Later(2).engine.(piv := value), old(accesses) + 2)
      ensures window == 0 ==> engine == old(engine).(piv := value)
      ensures hwPiv == value && base == engine
      ensures old(Steady()) ==> engine.compv == ckptCompv + window * old(hwPiv)
      ensures old(Tracks()) ==> Tracks()
    {
      hide Ticks;
      ghost var before := base;
      ghost var free := WritePiv(value);
      RunShape(old(engine), free);
      RunsJoin(before, old(engine), free);
      RunAdvances(before, free);
      window := free.count - ckptEdge;
      if before.compv == ckptCompv && before.count == ckptEdge {
        RunCompv(before, free);
      }
      hwPiv := value;
    }

    /** Count the edges up to the read that returned `value`, when the engine was at `seen`. */
    method Credit(value: u64, ghost seen: Engine)
      requires Valid() && hwPiv != 0 && ckptCompv <= value
      requires value == seen.compv && Ran(base, seen) && Ran(seen, engine)
      modifies `base, `flopHigh, `ckptCompv, `ckptEdge
      ensures Valid() && Steady() && ckptEdge == seen.count
      ensures Right() == (old(Right()) == old(Faithful()))
    {
      hide Engine.Fires;
      var events := (value - ckptCompv) / hwPiv;
      RunShape(base, seen);
      RunShape(seen, engine);
      RunCompv(base, seen);
      FoldCount(base.compv, base.piv, value, seen.count - base.count, ckptCompv, hwPiv);
      FoldParity(engine.flop, flopHigh, (base.compv - ckptCompv) / hwPiv, base.count - ckptEdge,
                 seen.count - base.count, engine.count - seen.count);
      if Odd(events) {
        flopHigh := !flopHigh;
      }
      ckptCompv, ckptEdge, base := value, seen.count, seen;
    }

    /**
     * Rewrite the pending compare with the engine paused: clearing PM, EN kept, stops the comparator
     * for the stores. Edges that fired since the checkpoint and before the pause are lost on the mirror.
     */
    method WriteCompvPaused(value: u64) returns (ghost lost: nat, ghost free: Engine)
      requires Valid()
      modifies `ctl, `engine, `accesses, `base, `ckptCompv, `ckptEdge
      ensures Valid() && ctl == old(ctl)
      ensures Ran(old(engine), free) && engine == free.(compv := value)
      ensures !old(ctl.Live()) ==> free == old(engine)
      ensures free == Later(2).engine && Now() == Rewritten(schedule, ctl.Live(), old(Now()), value)
      ensures lost == engine.count - old(ckptEdge)
      ensures ckptCompv == value && Unfolded() == 0 && Steady()
      ensures Right() == (old(Right()) == !Odd(lost))
    {
      hide Ticks;
      var ctrl := Pause();
      free := engine;
      RunShape(old(engine), free);
      lost := engine.count - ckptEdge;
      PauseParity(engine.flop, flopHigh, lost);
      WriteCompv(value);
      WriteCtl(ctrl);
      ckptCompv := value;
      ckptEdge := engine.count;
    }

    /** Move the pending compare one interval on; edges since the checkpoint are lost if the move happens. */
    method ShiftPending() returns (ghost lost: nat, ghost free: Engine)
      requires Valid() && hwPiv != 0
      modifies `ctl, `engine, `accesses, `base, `ckptCompv, `ckptEdge
      ensures Valid() && (old(Faithful()) ==> Faithful())
      ensures Right() == (old(Right()) == !Odd(lost))
      ensures ctl == old(ctl) && engine.piv == old(engine.piv)
      ensures Ran(old(engine), free) && (!old(ctl.Live()) ==> free == old(engine))
      ensures lost == 0 || lost == engine.count - old(ckptEdge)
      ensures Now() == ShiftedFrom(schedule, ctl.Live(), old(Now()), hwPiv)
      ensures lost == ShiftLoss(schedule, ctl.Live(), old(Now()), hwPiv, old(ckptEdge))
      ensures lost == 0 ==> engine == Shifted(free, hwPiv)
      ensures exists compare :: engine == free.(compv := compare)
    {
      hide Read64, Ticks;
      var compare, seen := ReadCompv();
      FreeRunKeepsMirror();
      if compare > U64_MAX - hwPiv {
        RunShape(old(engine), seen);
        RunAdvances(seen, engine);
        return 0, engine;
      }
      ghost var first := engine;
      lost, free := WriteCompvPaused(compare + hwPiv);
      RunsJoin(old(engine), first, free);
    }

    /**
     * An invert's register half: fold, then move the pending compare one interval on. The edges
     * between the fold's last low-word read and the pause are lost, and no others.
     */
    method InvertPending() returns (ghost lost: nat)
      requires Valid() && hwPiv != 0
      modifies `ctl, `engine, `accesses, `base, `flopHigh, `ckptCompv, `ckptEdge
      ensures Valid() && Faithful() && OldWaveform()
      ensures lost == InvertWindow(schedule, old(ctl.Live()), old(Now()), hwPiv)
      ensures Now() == AfterInvert(schedule, old(ctl.Live()), old(Now()), hwPiv)
      ensures Right() == ((old(Right()) == old(Faithful())) == !Odd(lost))
      ensures ctl == old(ctl) && engine.piv == old(engine.piv)
    {
      hide ShiftLoss, ShiftedFrom, Odd;
      Fold();
      ghost var folded := engine;
      ghost var free;
      lost, free := ShiftPending();
      RunsJoin(old(engine), folded, free);
      RunShape(old(engine), free);
    }

    /**
     * Program a stopped block and enable it: mode, then interval, then compare, then the mirror's
     * bookkeeping, and EN last. No edge can fire before EN is set.
     */
    method Arm(ctrl: Ctl, compare: u64, interval: u64)
      requires Sound(ctl, engine) && !ctl.Live() && !ctrl.en && !ctrl.dir && 0 < interval
      requires Unfolded() == 0
      modifies `ctl, `engine, `accesses, `base, `hwPiv, `ckptCompv, `ckptEdge
      ensures Valid() && Steady() && Unfolded() == 0
      ensures ctl == ctrl.(en := true, ep := Toggle, pm := true)
      ensures ckptCompv == compare && hwPiv == interval
      ensures engine == old(engine).(compv := compare, piv := interval) && accesses == old(accesses) + 6
    {
      var running := ctrl.(ep := Toggle, pm := true);
      WriteCtl(running);
      ghost var stopped := WritePiv(interval);
      WriteCompv(compare);
      hwPiv := interval;
      ckptCompv := compare;
      ckptEdge := engine.count;
      WriteCtl(running.(en := true));
    }

    /** The level a fold would arrive at now, from what the driver can read. */
    function FoldedLevel(): bool
      reads `engine, `flopHigh, `hwPiv, `ckptCompv
    {
      if hwPiv == 0 || engine.compv < ckptCompv then flopHigh
      else flopHigh != Odd((engine.compv - ckptCompv) / hwPiv)
    }

    /** What being right comes to: with a faithful count, the next fold arrives at the true level. */
    lemma NextFoldIsTrue()
      requires Valid()
      ensures (engine.flop == FoldedLevel()) == (Right() == Faithful())
    {
      hide Engine.Fires, Ran;
      RunShape(base, engine);
      if hwPiv != 0 {
        RunAdvances(base, engine);
        if ckptCompv <= engine.compv {
          RunCompv(base, engine);
          FoldCount(base.compv, base.piv, engine.compv, engine.count - base.count, ckptCompv, hwPiv);
          FoldParity(engine.flop, flopHigh, (base.compv - ckptCompv) / hwPiv, base.count - ckptEdge,
                     engine.count - base.count, 0);
        }
      }
    }

    /** Letting the hardware run changes neither what a fold would conclude nor whether it is right. */
    twostate lemma FreeRunKeepsMirror()
      requires old(Valid()) && Advanced() && MirrorUntouched() && Sound(ctl, engine)
      requires ctl.Live() ==> old(ctl.Live())
      ensures Valid() && Right() == old(Right())
    {
      RunsJoin(base, old(engine), engine);
      RunShape(base, engine);
      RunShape(old(engine), engine);
      RunParity(old(engine.flop), flopHigh, old(Unfolded()), engine.count - old(engine.count));
    }
  }

  /** The engine with its pending compare one interval on, if there is an interval and it fits. */
  function Shifted(e: Engine, interval: int): Engine {
    if interval == 0 || e.compv + interval > U64_MAX then e else e.(compv := e.compv + interval)
  }

  // Three word reads of one free run: equal high words pin the low word between them.
  lemma WordReads(first: Engine, second: Engine, third: Engine)
    requires Ran(first, second) && Ran(second, third)
    requires 0 < first.piv || first == second == third
    requires 0 <= first.compv
    ensures first.compv / TWO32 <= third.compv / TWO32
    ensures first.compv / TWO32 == third.compv / TWO32 ==>
              second.compv == third.compv / TWO32 * TWO32 + second.compv % TWO32
  {
    RunShape(first, second);
    RunAdvances(first, second);
    RunAdvances(second, third);
    HighWordOrder(first.compv, second.compv, third.compv);
  }

  lemma HighWordOrder(a: int, b: int, c: int)
    requires a <= b <= c
    ensures a / TWO32 <= b / TWO32 <= c / TWO32
    ensures a / TWO32 == c / TWO32 ==> b == c / TWO32 * TWO32 + b % TWO32
  {
    DivLe(a, b, TWO32);
    DivLe(b, c, TWO32);
  }

  lemma FoldCount(start: int, piv: int, value: int, n: nat, ckpt: int, hwPiv: int)
    requires 0 < hwPiv && (piv == hwPiv || n == 0)
    requires value == start + n * piv
    ensures (value - ckpt) / hwPiv == (start - ckpt) / hwPiv + n
    ensures start == ckpt ==> (start - ckpt) / hwPiv == 0
  {
    DivUnique(0, hwPiv, 0);
    DivAddMultiple(start - ckpt, n, hwPiv);
  }

  /** A level, its mirror and the number of edges the mirror has not seen. */
  predicate Agree(flop: bool, mirror: bool, unfolded: int) {
    flop == (mirror != Odd(unfolded))
  }

  lemma RunParity(flop: bool, mirror: bool, k: int, n: int)
    ensures Agree(flop != Odd(n), mirror, k + n) == Agree(flop, mirror, k)
  {
  }

  // A checkpoint that forgets n edges.
  lemma PauseParity(flop: bool, mirror: bool, n: int)
    ensures Agree(flop, mirror, 0) == (Agree(flop, mirror, n) == !Odd(n))
  {
  }

  // Parities of a single fold: n edges before the read and m after it.
  lemma SingleParity(flop: bool, mirror: bool, n: nat, m: int)
    ensures Agree(flop, !mirror, m) == (Agree(flop, mirror, n + m) == Odd(n))
  {
  }

  // Parities of a fold: d counted before the base, n before the read and m after it.
  lemma FoldParity(flop: bool, mirror: bool, d: int, skew: int, n: int, m: int)
    ensures Agree(flop, mirror != Odd(d + n), m) == (Agree(flop, mirror, skew + n + m) == !Odd(d - skew))
  {
  }
}
