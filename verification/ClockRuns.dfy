/**
 * The PTP clock callbacks and the rate refinement as one device: each adjustment re-anchors the
 * clock at the ART value it sampled. What that does to reported time over whole runs.
 */
module ClockRuns {
  import opened Arith
  import opened PhcClock

  datatype Op =
    | GetTime(art: u64)
    | SetTime(art: u64, sec: s64, nsec: s64)
    | AdjTime(art: u64, delta: s64)
    | AdjFine(art: u64, scaledPpm: s64)
    | Refine(art: u64, baseArtHz: u64, scaledPpm: s64)

  /** The kernel's conversion: saturates in the last representable second. */
  function TimespecToNs(sec: nat, nsec: nat): nat {
    if sec >= S64_MAX / NSEC_PER_SEC then S64_MAX else sec * NSEC_PER_SEC + nsec
  }

  /** One callback: the clock afterwards, and the time reported or installed. */
  function Step(phc: Params, op: Op): (Params, Result<s64>) {
    match op
    case GetTime(art) =>
      (phc, match ArtToNs(phc, art)
            case Err(e) => Err(e)
            case Ok(now) => if now < 0 then Err(OutOfRange) else Ok(now))
    case SetTime(art, sec, nsec) =>
      if sec < 0 || nsec < 0 || nsec >= NSEC_PER_SEC then (phc, Err(Invalid))
      else if sec > S64_MAX / NSEC_PER_SEC then (phc, Err(OutOfRange))
      else (Params(art, TimespecToNs(sec, nsec), phc.baseArtHz, phc.scaledPpm), Ok(TimespecToNs(sec, nsec)))
    case AdjTime(art, delta) =>
      (match ArtToNs(phc, art)
       case Err(_) => (phc, Err(OutOfRange))
       case Ok(now) =>
         match AddS64(now, delta)
         case Err(_) => (phc, Err(OutOfRange))
         case Ok(adjusted) =>
           if adjusted < 0 then (phc, Err(OutOfRange))
           else (Params(art, adjusted, phc.baseArtHz, phc.scaledPpm), Ok(adjusted)))
    case AdjFine(art, scaledPpm) =>
      if !InServoRange(ScaledPpmToPpb(scaledPpm)) then (phc, Err(OutOfRange))
      else
        (match ArtToNs(phc, art)
         case Err(_) => (phc, Err(OutOfRange))
         case Ok(now) => (Params(art, now, phc.baseArtHz, scaledPpm), Ok(now)))
    case Refine(art, baseArtHz, scaledPpm) =>
      if baseArtHz == 0 || (baseArtHz == phc.baseArtHz && scaledPpm == phc.scaledPpm) then (phc, Err(Invalid))
      else
        (match ArtToNs(phc, art)
         case Err(e) => (phc, Err(e))
         case Ok(now) => (Params(art, now, baseArtHz, scaledPpm), Ok(now)))
  }

  /** The clock state the callbacks share; each one re-anchors in place. */
  class PhcDevice {
    var phc: Params

    constructor (initial: Params)
      ensures phc == initial
    {
      phc := initial;
    }

    method Get(art: Result<u64>) returns (r: Result<s64>)
      ensures art.Err? ==> r == Err(art.error)
      ensures art.Ok? ==> (phc, r) == Step(phc, GetTime(art.value))
    {
      if art.Err? {
        return Err(art.error);
      }
      var now := ArtToNs(phc, art.value);
      if now.Err? {
        return Err(now.error);
      }
      if now.value < 0 {
        return Err(OutOfRange);
      }
      return Ok(now.value);
    }

    method Set(art: Result<u64>, sec: s64, nsec: s64) returns (r: Result<s64>)
      modifies this
      ensures art.Ok? ==> (phc, r) == Step(old(phc), SetTime(art.value, sec, nsec))
      ensures art.Err? ==> phc == old(phc)
      ensures art.Err? ==> r == Err(if sec < 0 || nsec < 0 || nsec >= NSEC_PER_SEC then Invalid
                                    else if sec > S64_MAX / NSEC_PER_SEC then OutOfRange else NoDevice)
    {
      if sec < 0 || nsec < 0 || nsec >= NSEC_PER_SEC {
        return Err(Invalid);
      }
      if sec > S64_MAX / NSEC_PER_SEC {
        return Err(OutOfRange);
      }
      var ns := TimespecToNs(sec, nsec);
      if art.Err? {
        return Err(NoDevice);
      }
      phc := Params(art.value, ns, phc.baseArtHz, phc.scaledPpm);
      return Ok(ns);
    }

    method Adjust(art: Result<u64>, delta: s64) returns (r: Result<s64>)
      modifies this
      ensures art.Ok? ==> (phc, r) == Step(old(phc), AdjTime(art.value, delta))
      ensures art.Err? ==> phc == old(phc) && r == Err(NoDevice)
    {
      if art.Err? {
        return Err(NoDevice);
      }
      var now := ArtToNs(phc, art.value);
      if now.Err? {
        return Err(OutOfRange);
      }
      var adjusted := AddS64(now.value, delta);
      if adjusted.Err? || adjusted.value < 0 {
        return Err(OutOfRange);
      }
      phc := Params(art.value, adjusted.value, phc.baseArtHz, phc.scaledPpm);
      return adjusted;
    }

    method AdjustFine(art: Result<u64>, scaledPpm: s64) returns (r: Result<s64>)
      modifies this
      ensures art.Ok? ==> (phc, r) == Step(old(phc), AdjFine(art.value, scaledPpm))
      ensures art.Err? ==> phc == old(phc)
      ensures art.Err? ==> r == Err(if InServoRange(ScaledPpmToPpb(scaledPpm)) then NoDevice else OutOfRange)
    {
      var ppb := ScaledPpmToPpb(scaledPpm);
      if ppb > MAX_ADJ_PPB || ppb < -MAX_ADJ_PPB {
        return Err(OutOfRange);
      }
      if art.Err? {
        return Err(NoDevice);
      }
      var now := ArtToNs(phc, art.value);
      if now.Err? {
        return Err(OutOfRange);
      }
      phc := Params(art.value, now.value, phc.baseArtHz, scaledPpm);
      return now;
    }

    method ApplyRefinement(art: u64, baseArtHz: u64, scaledPpm: s64) returns (r: Result<s64>)
      modifies this
      ensures (phc, r) == Step(old(phc), Refine(art, baseArtHz, scaledPpm))
    {
      if baseArtHz == 0 || (phc.baseArtHz == baseArtHz && phc.scaledPpm == scaledPpm) {
        return Err(Invalid);
      }
      var now := ArtToNs(phc, art);
      if now.Err? {
        return now;
      }
      phc := Params(art, now.value, baseArtHz, scaledPpm);
      return now;
    }
  }

  // ----- what is asked for, independently of the clock

  /** The rate offset a servo asks for, in whole parts per billion. */
  function RequestedPpb(scaledPpm: int): int {
    TruncDiv(scaledPpm * 1000, 65536)
  }

  /** It is the requested fraction rounded toward zero. */
  lemma RequestedPpbPinned(scaledPpm: s64)
    ensures 65536 * Mag(RequestedPpb(scaledPpm)) <= 1000 * Mag(scaledPpm) < 65536 * Mag(RequestedPpb(scaledPpm)) + 65536
    ensures Mag(65536 * RequestedPpb(scaledPpm) - 1000 * scaledPpm) < 65536
    ensures InServoRange(ScaledPpmToPpb(scaledPpm)) <==> InServoRange(RequestedPpb(scaledPpm))
    ensures InServoRange(RequestedPpb(scaledPpm)) ==> ScaledPpmToPpb(scaledPpm) == RequestedPpb(scaledPpm)
  {
    DivBounds(Mag(scaledPpm * 1000), 65536);
  }

  /** The time settime asks for, and the one exception: the last representable second saturates. */
  lemma TimespecExact(sec: nat, nsec: nat)
    requires nsec < NSEC_PER_SEC
    ensures TimespecToNs(sec, nsec) == if sec < 9_223_372_036 then sec * 1_000_000_000 + nsec else S64_MAX
  {
  }

  /**
   * Exactly when a callback is accepted, and the time it then reports or installs: the one set, or
   * the reading of the clock plus what adjtime adds. A refused one leaves the clock alone.
   */
  lemma AcceptedExactly(phc: Params, op: Op)
    ensures Step(phc, op).1.Ok? <==>
            match op
            case GetTime(art) => ArtToNs(phc, art).Ok? && 0 <= ArtToNs(phc, art).value
            case SetTime(_, sec, nsec) => 0 <= sec <= 9_223_372_036 && 0 <= nsec < 1_000_000_000
            case AdjTime(art, delta) => ArtToNs(phc, art).Ok? && 0 <= ArtToNs(phc, art).value + delta <= S64_MAX
            case AdjFine(art, scaledPpm) =>
              -100_000_000 <= RequestedPpb(scaledPpm) <= 100_000_000 && ArtToNs(phc, art).Ok?
            case Refine(art, baseArtHz, scaledPpm) =>
              baseArtHz != 0 && (baseArtHz != phc.baseArtHz || scaledPpm != phc.scaledPpm) && ArtToNs(phc, art).Ok?
    ensures Step(phc, op).1.Err? || op.GetTime? ==> Step(phc, op).0 == phc
    ensures Step(phc, op).1.Ok? ==>
              var value := Step(phc, op).1.value;
              if op.SetTime? then value == if op.sec < 9_223_372_036 then op.sec * 1_000_000_000 + op.nsec else S64_MAX
              else ArtToNs(phc, op.art).Ok? &&
                   value == ArtToNs(phc, op.art).value + if op.AdjTime? then op.delta else 0
  {
    if op.AdjFine? {
      RequestedPpbPinned(op.scaledPpm);
    }
  }

  // ----- single steps

  /** A refinement measures a plausible rate and folds in a trim inside the servo range. */
  predicate TameOp(op: Op) {
    op.Refine? ==> op.baseArtHz <= HZ_LIMIT && InServoRange(ScaledPpmToPpb(op.scaledPpm))
  }

  lemma StepStaysTame(phc: Params, op: Op)
    requires phc.Tame() && TameOp(op)
    ensures Step(phc, op).0.Tame()
  {
  }

  /** Every re-anchoring is phase-continuous at its sample; adjtime shifts the reading by exactly delta. */
  lemma ReanchorsExactly(phc: Params, op: Op)
    requires phc.Tame() && TameOp(op)
    requires Step(phc, op).1.Ok? && !op.GetTime?
    ensures ArtToNs(Step(phc, op).0, op.art) == Step(phc, op).1
    ensures op.AdjFine? || op.Refine? ==> ArtToNs(Step(phc, op).0, op.art) == ArtToNs(phc, op.art)
    ensures op.AdjTime? ==> ArtToNs(phc, op.art).Ok?
    ensures op.AdjTime? ==> ArtToNs(Step(phc, op).0, op.art) == Ok(ArtToNs(phc, op.art).value + op.delta)
  {
    AnchorReadsBack(Step(phc, op).0);
  }

  // ----- whole runs

  function Run(phc: Params, ops: seq<Op>): Params
    decreases |ops|
  {
    if ops == [] then phc else Run(Step(phc, ops[0]).0, ops[1..])
  }

  /** ART only moves forward from one callback to the next. */
  predicate Ordered(art: u64, ops: seq<Op>)
    decreases |ops|
  {
    ops == [] || (art <= ops[0].art && TameOp(ops[0]) && Ordered(ops[0].art, ops[1..]))
  }

  /** Everything gettime reported, in order. */
  function Reports(phc: Params, ops: seq<Op>): seq<int>
    decreases |ops|
  {
    if ops == [] then [] else Report(phc, ops[0]) + Reports(Step(phc, ops[0]).0, ops[1..])
  }

  function Report(phc: Params, op: Op): seq<int> {
    if op.GetTime? && Step(phc, op).1.Ok? then [Step(phc, op).1.value] else []
  }

  /** Nothing in the run steps the clock back: no settime and no negative adjtime. */
  predicate NoBackwardStep(ops: seq<Op>) {
    forall i :: 0 <= i < |ops| ==> !ops[i].SetTime? && (ops[i].AdjTime? ==> 0 <= ops[i].delta)
  }

  /** From `art` on the clock never reads below `v`. */
  ghost predicate Floor(phc: Params, art: u64, v: int) {
    forall a: u64 :: art <= a && ArtToNs(phc, a).Ok? ==> v <= ArtToNs(phc, a).value
  }

  lemma StepKeepsFloor(phc: Params, art: u64, op: Op, v: int)
    requires phc.Tame() && TameOp(op) && art <= op.art
    requires !op.SetTime? && (op.AdjTime? ==> 0 <= op.delta)
    requires Floor(phc, art, v)
    ensures Floor(Step(phc, op).0, op.art, v)
    ensures op.GetTime? && Step(phc, op).1.Ok? ==>
              v <= Step(phc, op).1.value && Floor(Step(phc, op).0, op.art, Step(phc, op).1.value)
  {
    var (next, r) := Step(phc, op);
    StepStaysTame(phc, op);
    if r.Ok? {
      if !op.GetTime? {
        ReanchorsExactly(phc, op);
      }
      forall a: u64 | op.art <= a && ArtToNs(next, a).Ok?
        ensures r.value <= ArtToNs(next, a).value
      {
        ArtToNsMonotone(next, op.art, a);
      }
    }
  }

  lemma {:induction false} ReportsAboveFloor(phc: Params, art: u64, ops: seq<Op>, v: int)
    requires phc.Tame() && Ordered(art, ops) && NoBackwardStep(ops)
    requires Floor(phc, art, v)
    ensures forall i :: 0 <= i < |Reports(phc, ops)| ==> v <= Reports(phc, ops)[i]
    decreases |ops|
  {
    if ops != [] {
      StepKeepsFloor(phc, art, ops[0], v);
      StepStaysTame(phc, ops[0]);
      ReportsAboveFloor(Step(phc, ops[0]).0, ops[0].art, ops[1..], v);
    }
  }

  /**
   * Main result: across any run of readings, servo updates, refinements and forward steps, reported
   * time never goes backwards.
   */
  lemma {:induction false} TimeNeverGoesBack(phc: Params, art: u64, ops: seq<Op>)
    requires phc.Tame() && Ordered(art, ops) && NoBackwardStep(ops)
    ensures forall i, j :: 0 <= i < j < |Reports(phc, ops)| ==> Reports(phc, ops)[i] <= Reports(phc, ops)[j]
    decreases |ops|
  {
    if ops != [] {
      var (next, r) := Step(phc, ops[0]);
      StepStaysTame(phc, ops[0]);
      TimeNeverGoesBack(next, ops[0].art, ops[1..]);
      if ops[0].GetTime? && r.Ok? {
        assert Floor(phc, ops[0].art, r.value) by {
          forall a: u64 | ops[0].art <= a && ArtToNs(phc, a).Ok?
            ensures r.value <= ArtToNs(phc, a).value
          {
            ArtToNsMonotone(phc, ops[0].art, a);
          }
        }
        ReportsAboveFloor(next, ops[0].art, ops[1..], r.value);
      }
    }
  }

  // ----- accuracy against the exact integral of the rate

  type Hz = x: int | 0 < x witness 1

  /**
   * The exact time at a counter value, the rate asked for from there on, and how many changes it went
   * through since the time was last set.
   */
  datatype Ideal = Ideal(time: real, art: int, hz: Hz, ppb: int, segments: nat)

  /** The exact integral of the rate in force. */
  function IdealAt(ideal: Ideal, art: int): real {
    ideal.time + ((art - ideal.art) * (NSEC_PER_SEC + ideal.ppb)) as real / ideal.hz as real
  }

  /** What an accepted operation asks for; nothing but the operation and the ideal time enters. */
  function IdealStep(ideal: Ideal, op: Op, accepted: bool): Ideal {
    if !accepted then ideal
    else
      match op
      case GetTime(_) => ideal
      case SetTime(art, sec, nsec) =>
        var ns := if sec < 9_223_372_036 then sec * 1_000_000_000 + nsec else S64_MAX;
        ideal.(time := ns as real, art := art, segments := 0)
      case AdjTime(art, delta) =>
        ideal.(time := IdealAt(ideal, art) + delta as real, art := art, segments := ideal.segments + 1)
      case AdjFine(art, scaledPpm) =>
        ideal.(time := IdealAt(ideal, art), art := art, ppb := RequestedPpb(scaledPpm), segments := ideal.segments + 1)
      case Refine(art, baseArtHz, scaledPpm) =>
        Ideal(IdealAt(ideal, art), art, if baseArtHz == 0 then ideal.hz else baseArtHz, RequestedPpb(scaledPpm),
              ideal.segments + 1)
  }

  function IdealRun(ideal: Ideal, ops: seq<Op>, accepted: seq<bool>): Ideal
    requires |ops| == |accepted|
    decreases |ops|
  {
    if ops == [] then ideal else IdealRun(IdealStep(ideal, ops[0], accepted[0]), ops[1..], accepted[1..])
  }

  /** Which operations of a run were accepted. */
  function Accepted(phc: Params, ops: seq<Op>): (r: seq<bool>)
    ensures |r| == |ops|
    decreases |ops|
  {
    if ops == [] then [] else [Step(phc, ops[0]).1.Ok?] + Accepted(Step(phc, ops[0]).0, ops[1..])
  }

  /** The clock runs at the rate asked for, and less than 3 ns off for every segment behind its anchor. */
  predicate Close(phc: Params, ideal: Ideal) {
    && phc.anchorArt == ideal.art && phc.baseArtHz == ideal.hz && phc.Ppb() == ideal.ppb
    && -3.0 * ideal.segments as real <= phc.anchorNs as real - ideal.time <= 3.0 * ideal.segments as real
  }

  lemma SegmentBounds(phc: Params, c: nat)
    requires phc.Tame()
    ensures c * phc.Rate() - 3 * phc.baseArtHz < ElapsedMag(phc, c) * phc.baseArtHz < c * phc.Rate() + phc.baseArtHz
  {
    var hz, d := phc.baseArtHz, phc.Rate();
    var base := BaseNs(hz, c);
    var a := AdjustedMag(base, phc.Ppb());
    DivBounds(c * NSEC_PER_SEC, hz);
    AdjustedBounds(base, phc.Ppb());
    SegmentArithmetic(c, hz, d, base, a);
  }

  lemma SegmentArithmetic(c: nat, hz: nat, d: nat, base: nat, a: nat)
    requires 0 < hz && 0 < d <= NSEC_PER_SEC + MAX_ADJ_PPB
    requires base * hz <= c * NSEC_PER_SEC < base * hz + hz
    requires (a - 1) * NSEC_PER_SEC < base * d < (a + 1) * NSEC_PER_SEC
    ensures c * d - 3 * hz < a * hz < c * d + hz
  {
    MulLe(base * hz, c * NSEC_PER_SEC, d);
    MulLe(c * NSEC_PER_SEC, base * hz + hz, d);
    MulLt((a - 1) * NSEC_PER_SEC, base * d, hz);
    MulLt(base * d, (a + 1) * NSEC_PER_SEC, hz);
    MulLe(d, NSEC_PER_SEC + MAX_ADJ_PPB, hz);
    Regroup(base, hz, d, c, a);
  }

  lemma Regroup(base: nat, hz: nat, d: nat, c: nat, a: nat)
    ensures base * hz * d == base * d * hz
    ensures (base * hz + hz) * d == base * d * hz + hz * d
    ensures c * NSEC_PER_SEC * d == c * d * NSEC_PER_SEC
    ensures (a - 1) * NSEC_PER_SEC * hz == (a * hz) * NSEC_PER_SEC - hz * NSEC_PER_SEC
    ensures (a + 1) * NSEC_PER_SEC * hz == (a * hz) * NSEC_PER_SEC + hz * NSEC_PER_SEC
    ensures d * hz == hz * d
  {
  }

  // An integer bracket over a common denominator, read as a bracket of reals.
  lemma RealBracket(x: int, y: int, h: int, lo: int, hi: int)
    requires 0 < h
    requires y + lo * h < x * h < y + hi * h
    ensures lo as real < x as real - y as real / h as real < hi as real
  {
    var q := y as real / h as real;
    assert q * h as real == y as real;
    assert (x * h) as real == x as real * h as real;
    assert (lo * h) as real == lo as real * h as real;
    assert (hi * h) as real == hi as real * h as real;
    RealCancel(q + lo as real, x as real, h as real);
    RealCancel(x as real, q + hi as real, h as real);
  }

  lemma RealCancel(x: real, y: real, h: real)
    requires 0.0 < h && x * h < y * h
    ensures x < y
  {
  }

  /** The reading at `art` is within 3 ns per segment, its own included, of the exact time. */
  predicate ReadsWithin(phc: Params, ideal: Ideal, art: u64) {
    && ArtToNs(phc, art).Ok?
    && -3.0 * (ideal.segments + 1) as real
       < ArtToNs(phc, art).value as real - IdealAt(ideal, art)
       < 3.0 * (ideal.segments + 1) as real
  }

  /** A reading is off by less than 3 ns more than its anchor. */
  lemma ReadingError(phc: Params, ideal: Ideal, art: u64)
    requires phc.Tame() && phc.anchorArt <= art
    requires ArtToNs(phc, art).Ok? && Close(phc, ideal)
    ensures ReadsWithin(phc, ideal, art)
  {
    var c := art - phc.anchorArt;
    ArtToNsExact(phc, art);
    SegmentBounds(phc, c);
    RealBracket(ElapsedMag(phc, c), c * phc.Rate(), phc.baseArtHz, -3, 1);
  }

  lemma StepKeepsClose(phc: Params, ideal: Ideal, op: Op)
    requires phc.Tame() && TameOp(op) && phc.anchorArt <= op.art && Close(phc, ideal)
    ensures Close(Step(phc, op).0, IdealStep(ideal, op, Step(phc, op).1.Ok?))
    ensures Step(phc, op).0.anchorArt <= op.art
  {
    hide ReadsWithin, IdealAt, ArtToNs, RequestedPpb, ScaledPpmToPpb, TimespecToNs;
    if ArtToNs(phc, op.art).Ok? {
      ReadingError(phc, ideal, op.art);
      ReadsClose(phc, ideal, op.art);
    }
    if op.AdjFine? || op.Refine? {
      RequestedPpbPinned(op.scaledPpm);
    }
    if op.SetTime? && Step(phc, op).1.Ok? {
      TimespecExact(op.sec, op.nsec);
    }
  }

  lemma ReadsClose(phc: Params, ideal: Ideal, art: u64)
    requires ReadsWithin(phc, ideal, art)
    ensures ArtToNs(phc, art).Ok?
    ensures -3.0 * (ideal.segments + 1) as real
            < ArtToNs(phc, art).value as real - IdealAt(ideal, art)
            < 3.0 * (ideal.segments + 1) as real
  {
  }

  lemma {:induction false} RunKeepsClose(phc: Params, ideal: Ideal, ops: seq<Op>)
    requires phc.Tame() && Ordered(phc.anchorArt, ops) && Close(phc, ideal)
    ensures Run(phc, ops).Tame()
    ensures Close(Run(phc, ops), IdealRun(ideal, ops, Accepted(phc, ops)))
    decreases |ops|
  {
    hide Close, Step, IdealStep;
    if ops != [] {
      var next := Step(phc, ops[0]).0;
      StepStaysTame(phc, ops[0]);
      StepKeepsClose(phc, ideal, ops[0]);
      OrderedFromEarlier(next.anchorArt, ops[0].art, ops[1..]);
      RunKeepsClose(next, IdealStep(ideal, ops[0], Step(phc, ops[0]).1.Ok?), ops[1..]);
      assert Accepted(phc, ops)[1..] == Accepted(next, ops[1..]);
    }
  }

  lemma OrderedFromEarlier(earlier: u64, art: u64, ops: seq<Op>)
    requires earlier <= art && Ordered(art, ops)
    ensures Ordered(earlier, ops)
  {
  }

  /** The ideal time of a clock as it starts. */
  function StartOf(phc: Params): Ideal
    requires phc.Tame()
  {
    Ideal(phc.anchorNs as real, phc.anchorArt, phc.baseArtHz, phc.Ppb(), 0)
  }

  /**
   * Main result: after any ordered run of callbacks from a freshly anchored clock, a reading differs
   * by less than 3 ns for each segment since the clock was last set from the exact integral of the
   * rates asked for, plus the adjtime deltas. The integral follows from the operations alone.
   */
  lemma RunAccuracy(phc: Params, ops: seq<Op>, art: u64)
    requires phc.Tame() && Ordered(phc.anchorArt, ops + [GetTime(art)])
    requires ArtToNs(Run(phc, ops), art).Ok?
    ensures Run(phc, ops).Tame()
    ensures ReadsWithin(Run(phc, ops), IdealRun(StartOf(phc), ops, Accepted(phc, ops)), art)
  {
    hide Ordered, Run, IdealRun, ArtToNs, ReadsWithin, Accepted;
    OrderedPrefix(phc.anchorArt, ops, GetTime(art));
    RunKeepsClose(phc, StartOf(phc), ops);
    RunAnchorBefore(phc, ops, art);
    ReadingError(Run(phc, ops), IdealRun(StartOf(phc), ops, Accepted(phc, ops)), art);
  }

  /** A new rate takes hold: from an accepted adjfine on a reading advances by cycles at the rate asked for. */
  lemma ServoRateTakesHold(phc: Params, at: u64, scaledPpm: s64, later: u64)
    requires phc.Tame() && at <= later
    requires Step(phc, AdjFine(at, scaledPpm)).1.Ok? && ArtToNs(Step(phc, AdjFine(at, scaledPpm)).0, later).Ok?
    ensures ArtToNs(phc, at).Ok?
    ensures var advance := ArtToNs(Step(phc, AdjFine(at, scaledPpm)).0, later).value - ArtToNs(phc, at).value;
            var exact := (later - at) * (NSEC_PER_SEC + RequestedPpb(scaledPpm));
            exact - 3 * phc.baseArtHz < advance * phc.baseArtHz < exact + phc.baseArtHz
  {
    var next := Step(phc, AdjFine(at, scaledPpm)).0;
    StepStaysTame(phc, AdjFine(at, scaledPpm));
    RequestedPpbPinned(scaledPpm);
    ArtToNsExact(next, later);
    SegmentBounds(next, later - at);
  }

  lemma {:induction false} OrderedPrefix(art: u64, ops: seq<Op>, last: Op)
    requires Ordered(art, ops + [last])
    ensures Ordered(art, ops) && art <= last.art
    ensures ops != [] ==> Ordered(ops[0].art, ops[1..] + [last])
    decreases |ops|
  {
    if ops != [] {
      assert (ops + [last])[1..] == ops[1..] + [last];
      OrderedPrefix(ops[0].art, ops[1..], last);
    }
  }

  lemma {:induction false} RunAnchorBefore(phc: Params, ops: seq<Op>, art: u64)
    requires Ordered(phc.anchorArt, ops + [GetTime(art)])
    ensures Run(phc, ops).anchorArt <= art
    decreases |ops|
  {
    OrderedPrefix(phc.anchorArt, ops, GetTime(art));
    if ops != [] {
      var next := Step(phc, ops[0]).0;
      OrderedFromEarlier(next.anchorArt, ops[0].art, ops[1..] + [GetTime(art)]);
      RunAnchorBefore(next, ops[1..], art);
    }
  }
}
