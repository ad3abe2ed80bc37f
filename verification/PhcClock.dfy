/**
 * The anchored clock model: PHC time is an anchor plus the ART cycles since it, rescaled to
 * nanoseconds and corrected by a frequency offset in parts per billion. Functions are the
 * machine computations; the lemmas tie them to exact quotients and to each other.
 */
module PhcClock {
  import opened Arith
  import opened Rescale

  const MAX_ADJ_PPB: int := 100_000_000
  /** Largest rate for which neither direction of the rescale can wrap. */
  const HZ_LIMIT: int := 18_446_744_073

  datatype Params = Params(anchorArt: u64, anchorNs: s64, baseArtHz: u64, scaledPpm: s64) {
    function Ppb(): s64 {
      ScaledPpmToPpb(scaledPpm)
    }

    /** Nanoseconds shown per base second. */
    function Rate(): int {
      NSEC_PER_SEC + Ppb()
    }

    /** What adjfine's range check and the calibration keep true of a clock. */
    predicate Tame() {
      0 < baseArtHz <= HZ_LIMIT && InServoRange(Ppb())
    }
  }

  predicate InServoRange(ppb: int) {
    -MAX_ADJ_PPB <= ppb <= MAX_ADJ_PPB
  }

  // ----- the machine computations

  /** Two's complement negation. */
  function Negate(x: s64): s64 {
    if x == S64_MIN then S64_MIN else -x
  }

  function AddS64(lhs: s64, rhs: s64): Result<s64> {
    if rhs > 0 && lhs > S64_MAX - rhs then Err(OutOfRange)
    else if rhs < 0 && lhs < S64_MIN - rhs then Err(OutOfRange)
    else Ok(lhs + rhs)
  }

  /** Division rounding toward zero. */
  function TruncDiv(a: int, d: int): int
    requires 0 < d
  {
    Signed(a, Mag(a) / d)
  }

  function ScaledPpmToPpb(scaledPpm: s64): s64 {
    if scaledPpm > S64_MAX / 1000 then S64_MAX
    else if scaledPpm < TruncDiv(S64_MIN, 1000) then S64_MIN
    else TruncDiv(scaledPpm * 1000, 65536)
  }

  function SignedResult(like: int, magnitude: Result<u64>): Result<s64> {
    match magnitude
    case Err(e) => Err(e)
    case Ok(v) => if v > S64_MAX then Err(OutOfRange) else Ok(Signed(like, v))
  }

  function CyclesDeltaToNs(cycles: s64, hz: u64, nearest: bool): Result<s64> {
    SignedResult(cycles, RescaleCommon(Mag(cycles), hz, NSEC_PER_SEC, nearest))
  }

  function NsDeltaToCycles(ns: s64, hz: u64, nearest: bool): Result<s64> {
    SignedResult(ns, RescaleCommon(Mag(ns), NSEC_PER_SEC, hz, nearest))
  }

  function ApplyPpbToNs(ns: s64, ppb: s64): s64 {
    if ns == 0 || ppb == 0 then 0
    else
      var seconds := Mag(ns) / NSEC_PER_SEC;
      var rem := Mag(ns) % NSEC_PER_SEC;
      var correction := Wrap(Wrap(seconds * Mag(ppb)) + Wrap(rem * Mag(ppb)) / NSEC_PER_SEC);
      var clipped := Min(correction, S64_MAX);
      if (ns < 0) != (ppb < 0) then -clipped else clipped
  }

  function BaseToAdjusted(baseNs: s64, ppb: s64): Result<s64> {
    AddS64(baseNs, ApplyPpbToNs(baseNs, ppb))
  }

  function AdjustedToBase(adjustedNs: s64, ppb: s64): Result<s64> {
    var denominator := NSEC_PER_SEC + ppb;
    // The signed 64-bit sum is negative when it overflows.
    if denominator <= 0 || denominator > S64_MAX then Err(OutOfRange)
    else
      var quotient := Mag(adjustedNs) / denominator;
      var rem := Mag(adjustedNs) % denominator;
      if quotient > S64_MAX / NSEC_PER_SEC then Err(OutOfRange)
      else
        var absBase := Wrap(Wrap(quotient * NSEC_PER_SEC) + Wrap(rem * NSEC_PER_SEC) / denominator);
        if absBase > S64_MAX then Err(OutOfRange) else Ok(Signed(adjustedNs, absBase))
  }

  function ArtToNs(phc: Params, art: u64): Result<s64> {
    var cycles := art - phc.anchorArt;
    if Mag(cycles) > S64_MAX then Err(OutOfRange)
    else
      match CyclesDeltaToNs(cycles, phc.baseArtHz, false)
      case Err(e) => Err(e)
      case Ok(base) =>
        match BaseToAdjusted(base, phc.Ppb())
        case Err(e) => Err(e)
        case Ok(adjusted) => AddS64(phc.anchorNs, adjusted)
  }

  /** Move an ART value by a signed number of cycles. */
  function OffsetArt(anchorArt: u64, cycles: s64): Result<u64> {
    if cycles >= 0 then
      var art := Wrap(anchorArt + cycles);
      if art < anchorArt then Err(OutOfRange) else Ok(art)
    else if Mag(cycles) > anchorArt then Err(OutOfRange)
    else Ok(anchorArt - Mag(cycles))
  }

  function NsToArt(phc: Params, phcNs: s64): Result<u64> {
    match AddS64(phcNs, Negate(phc.anchorNs))
    case Err(e) => Err(e)
    case Ok(delta) =>
      match AdjustedToBase(delta, phc.Ppb())
      case Err(e) => Err(e)
      case Ok(base) =>
        match NsDeltaToCycles(base, phc.baseArtHz, true)
        case Err(e) => Err(e)
        case Ok(cycles) => OffsetArt(phc.anchorArt, cycles)
  }

  function DeltaToRealNs(phc: Params, deltaNs: s64): Result<u64> {
    if deltaNs <= 0 then Ok(0)
    else
      match AdjustedToBase(deltaNs, phc.Ppb())
      case Err(_) => Err(OutOfRange)
      case Ok(base) => if base < 0 then Err(OutOfRange) else Ok(base)
  }

  function DeltaToArtCycles(phc: Params, deltaNs: s64): Result<u64> {
    if deltaNs <= 0 then Ok(0)
    else
      match AdjustedToBase(deltaNs, phc.Ppb())
      case Err(_) => Err(OutOfRange)
      case Ok(base) =>
        if base < 0 then Err(OutOfRange)
        else
          match NsDeltaToCycles(base, phc.baseArtHz, true)
          case Err(e) => Err(e)
          case Ok(cycles) => if cycles < 0 then Err(OutOfRange) else Ok(cycles)
  }

  function ArtCyclesToDeltaNs(phc: Params, cycles: u64): Result<u64> {
    if cycles > S64_MAX then Err(OutOfRange)
    else
      match CyclesDeltaToNs(cycles, phc.baseArtHz, true)
      case Err(e) => Err(e)
      case Ok(base) =>
        match BaseToAdjusted(base, phc.Ppb())
        case Err(_) => Err(OutOfRange)
        case Ok(adjusted) => if adjusted < 0 then Err(OutOfRange) else Ok(adjusted)
  }

  // ----- reference magnitudes, on unbounded integers

  /** A base magnitude seen through a clock running at 1e9 + ppb: the correction truncates toward zero. */
  function AdjustedMag(n: nat, ppb: int): nat
    requires InServoRange(ppb)
  {
    CorrectionBelow(n, ppb);
    if ppb >= 0 then n + n * ppb / NSEC_PER_SEC else n - n * (-ppb) / NSEC_PER_SEC
  }

  function BaseMag(m: nat, ppb: int): nat
    requires InServoRange(ppb)
  {
    DivNonNegative(m * NSEC_PER_SEC, NSEC_PER_SEC + ppb);
    m * NSEC_PER_SEC / (NSEC_PER_SEC + ppb)
  }

  lemma CorrectionBelow(n: nat, ppb: int)
    requires InServoRange(ppb)
    ensures 0 <= n * Mag(ppb) / NSEC_PER_SEC <= n
  {
    MulLe(Mag(ppb), NSEC_PER_SEC, n);
    DivLe(n * Mag(ppb), n * NSEC_PER_SEC, NSEC_PER_SEC);
    DivUnique(n * NSEC_PER_SEC, NSEC_PER_SEC, n);
  }

  /** Truncating the correction floors the product when speeding up and rounds it up when slowing down. */
  lemma AdjustedBounds(n: nat, ppb: int)
    requires InServoRange(ppb)
    ensures ppb >= 0 ==>
              AdjustedMag(n, ppb) * NSEC_PER_SEC <= n * (NSEC_PER_SEC + ppb) < AdjustedMag(n, ppb) * NSEC_PER_SEC + NSEC_PER_SEC
    ensures ppb < 0 ==>
              AdjustedMag(n, ppb) * NSEC_PER_SEC - NSEC_PER_SEC < n * (NSEC_PER_SEC + ppb) <= AdjustedMag(n, ppb) * NSEC_PER_SEC
  {
    assert n * (NSEC_PER_SEC + ppb) == n * NSEC_PER_SEC + n * ppb;
    assert n * (-ppb) == -(n * ppb);
    DivBounds(n * Mag(ppb), NSEC_PER_SEC);
  }

  lemma BaseBounds(m: nat, ppb: int)
    requires InServoRange(ppb)
    ensures BaseMag(m, ppb) * (NSEC_PER_SEC + ppb) <= m * NSEC_PER_SEC
          < BaseMag(m, ppb) * (NSEC_PER_SEC + ppb) + (NSEC_PER_SEC + ppb)
  {
    DivBounds(m * NSEC_PER_SEC, NSEC_PER_SEC + ppb);
  }

  /** Base to adjusted to base is off by at most one nanosecond, and only in the direction of the rounding. */
  lemma BaseAfterAdjusted(n: nat, ppb: int)
    requires InServoRange(ppb)
    ensures ppb >= 0 ==> n - 1 <= BaseMag(AdjustedMag(n, ppb), ppb) <= n
    ensures ppb <= 0 ==> n <= BaseMag(AdjustedMag(n, ppb), ppb) <= n + 1
  {
    var a := AdjustedMag(n, ppb);
    AdjustedBounds(n, ppb);
    BaseBounds(a, ppb);
    if ppb >= 0 {
      BackFromFloor(n, a, BaseMag(a, ppb), NSEC_PER_SEC + ppb);
    } else {
      BackFromCeiling(n, a, BaseMag(a, ppb), NSEC_PER_SEC + ppb);
    }
    if ppb == 0 {
      assert AdjustedMag(n, 0) == n && BaseMag(n, 0) == n;
    }
  }

  lemma BackFromFloor(n: nat, a: nat, b: nat, d: nat)
    requires NSEC_PER_SEC <= d
    requires a * NSEC_PER_SEC <= n * d < a * NSEC_PER_SEC + NSEC_PER_SEC
    requires b * d <= a * NSEC_PER_SEC < b * d + d
    ensures n - 1 <= b <= n
  {
    MulCancelLe(b, n, d);
    assert n * d < (b + 2) * d;
    MulCancelLt(n, b + 2, d);
  }

  lemma BackFromCeiling(n: nat, a: nat, b: nat, d: nat)
    requires NSEC_PER_SEC <= 2 * d
    requires a * NSEC_PER_SEC - NSEC_PER_SEC < n * d <= a * NSEC_PER_SEC
    requires b * d <= a * NSEC_PER_SEC < b * d + d
    ensures n <= b <= n + 1
  {
    assert n * d < (b + 1) * d;
    MulCancelLt(n, b + 1, d);
    assert b * d < (n + 2) * d;
    MulCancelLt(b, n + 2, d);
  }

  /** Adjusted to base to adjusted loses nothing when slowed down and at most two nanoseconds when sped up. */
  lemma AdjustedAfterBase(m: nat, ppb: int)
    requires InServoRange(ppb)
    ensures ppb <= 0 ==> AdjustedMag(BaseMag(m, ppb), ppb) == m
    ensures ppb > 0 ==> m - 2 <= AdjustedMag(BaseMag(m, ppb), ppb) <= m
  {
    var b := BaseMag(m, ppb);
    AdjustedBounds(b, ppb);
    BaseBounds(m, ppb);
  }

  lemma AdjustedMonotone(n: nat, m: nat, ppb: int)
    requires InServoRange(ppb) && n <= m
    ensures AdjustedMag(n, ppb) <= AdjustedMag(m, ppb)
  {
    AdjustedBounds(n, ppb);
    AdjustedBounds(m, ppb);
    MulLe(n, m, NSEC_PER_SEC + ppb);
  }

  lemma BaseMonotone(n: nat, m: nat, ppb: int)
    requires InServoRange(ppb) && n <= m
    ensures BaseMag(n, ppb) <= BaseMag(m, ppb)
  {
    DivLe(n * NSEC_PER_SEC, m * NSEC_PER_SEC, NSEC_PER_SEC + ppb);
  }

  // ----- machine = reference

  lemma ApplyPpbExact(ns: s64, ppb: s64)
    requires InServoRange(ppb)
    ensures ApplyPpbToNs(ns, ppb)
         == (if (ns < 0) != (ppb < 0) then -(Mag(ns) * Mag(ppb) / NSEC_PER_SEC)
             else Mag(ns) * Mag(ppb) / NSEC_PER_SEC)
  {
    hide Wrap;
    var n, p := Mag(ns), Mag(ppb);
    var seconds, rem := n / NSEC_PER_SEC, n % NSEC_PER_SEC;
    SplitProduct(n, p, NSEC_PER_SEC);
    CorrectionFits(seconds, rem, p);
  }

  lemma CorrectionFits(seconds: nat, rem: nat, p: nat)
    requires seconds <= 9_223_372_036 && rem < NSEC_PER_SEC && p <= MAX_ADJ_PPB
    ensures Wrap(Wrap(seconds * p) + Wrap(rem * p) / NSEC_PER_SEC) == seconds * p + rem * p / NSEC_PER_SEC <= S64_MAX
  {
    MulLe(seconds, 9_223_372_036, p);
    LeftoverBelow(rem, p, NSEC_PER_SEC);
    MulLe(rem, NSEC_PER_SEC, p);
    WrapIdentity(seconds * p);
    WrapIdentity(rem * p);
  }

  /** The two's complement range check on a mathematical integer. */
  function Ranged(x: int): Result<s64> {
    if S64_MIN <= x <= S64_MAX then Ok(x) else Err(OutOfRange)
  }

  lemma BaseToAdjustedExact(baseNs: s64, ppb: s64)
    requires InServoRange(ppb)
    ensures BaseToAdjusted(baseNs, ppb) == Ranged(Signed(baseNs, AdjustedMag(Mag(baseNs), ppb)))
  {
    ApplyPpbExact(baseNs, ppb);
  }

  lemma AdjustedToBaseExact(adjustedNs: s64, ppb: s64)
    requires InServoRange(ppb)
    ensures AdjustedToBase(adjustedNs, ppb)
         == if BaseMag(Mag(adjustedNs), ppb) > S64_MAX then Err(OutOfRange)
            else Ok(Signed(adjustedNs, BaseMag(Mag(adjustedNs), ppb)))
  {
    var d := NSEC_PER_SEC + ppb;
    var quotient, rem := Mag(adjustedNs) / d, Mag(adjustedNs) % d;
    SplitProduct(Mag(adjustedNs), NSEC_PER_SEC, d);
    LeftoverBelow(rem, NSEC_PER_SEC, d);
    DivNonNegative(Mag(adjustedNs), d);
    if quotient <= S64_MAX / NSEC_PER_SEC {
      BaseFits(quotient, rem, d);
    }
  }

  lemma BaseFits(quotient: nat, rem: nat, d: nat)
    requires quotient <= S64_MAX / NSEC_PER_SEC && rem < d <= NSEC_PER_SEC + MAX_ADJ_PPB
    ensures Wrap(Wrap(quotient * NSEC_PER_SEC) + Wrap(rem * NSEC_PER_SEC) / d)
         == quotient * NSEC_PER_SEC + rem * NSEC_PER_SEC / d
  {
    LeftoverBelow(rem, NSEC_PER_SEC, d);
    WrapIdentity(quotient * NSEC_PER_SEC);
    WrapIdentity(rem * NSEC_PER_SEC);
  }

  lemma CyclesDeltaToNsExact(cycles: s64, hz: u64, nearest: bool)
    requires 0 < hz <= HZ_LIMIT
    ensures CyclesDeltaToNs(cycles, hz, nearest)
         == if ExactQuotient(Mag(cycles), hz, NSEC_PER_SEC, nearest) > S64_MAX then Err(OutOfRange)
            else Ok(Signed(cycles, ExactQuotient(Mag(cycles), hz, NSEC_PER_SEC, nearest)))
  {
    RescaleIsExact(Mag(cycles), hz, NSEC_PER_SEC, nearest);
  }

  lemma NsDeltaToCyclesExact(ns: s64, hz: u64, nearest: bool)
    requires 0 < hz <= HZ_LIMIT
    ensures NsDeltaToCycles(ns, hz, nearest)
         == if ExactQuotient(Mag(ns), NSEC_PER_SEC, hz, nearest) > S64_MAX then Err(OutOfRange)
            else Ok(Signed(ns, ExactQuotient(Mag(ns), NSEC_PER_SEC, hz, nearest)))
  {
    RescaleIsExact(Mag(ns), NSEC_PER_SEC, hz, nearest);
  }

  /** Base nanoseconds in a number of ART cycles, rounded down. */
  function BaseNs(hz: nat, cycles: nat): nat
    requires 0 < hz
  {
    DivNonNegative(cycles * NSEC_PER_SEC, hz);
    cycles * NSEC_PER_SEC / hz
  }

  /** Nanoseconds a clock shows for a number of ART cycles since its anchor. */
  function ElapsedMag(phc: Params, cycles: nat): nat
    requires phc.Tame()
  {
    AdjustedMag(BaseNs(phc.baseArtHz, cycles), phc.Ppb())
  }

  lemma ArtToNsExact(phc: Params, art: u64)
    requires phc.Tame()
    ensures var c := art - phc.anchorArt;
            var elapsed := Signed(c, ElapsedMag(phc, Mag(c)));
            && (ArtToNs(phc, art).Ok? <==>
                  && Mag(c) <= S64_MAX && BaseNs(phc.baseArtHz, Mag(c)) <= S64_MAX
                  && S64_MIN <= elapsed <= S64_MAX && S64_MIN <= phc.anchorNs + elapsed <= S64_MAX)
            && (ArtToNs(phc, art).Ok? ==> ArtToNs(phc, art).value == phc.anchorNs + elapsed)
            && (ArtToNs(phc, art).Err? ==> ArtToNs(phc, art).error == OutOfRange)
  {
    var c := art - phc.anchorArt;
    if Mag(c) <= S64_MAX {
      CyclesDeltaToNsExact(c, phc.baseArtHz, false);
      var base := BaseNs(phc.baseArtHz, Mag(c));
      if base <= S64_MAX {
        BaseToAdjustedExact(Signed(c, base), phc.Ppb());
        if c < 0 && base == 0 {
          assert AdjustedMag(0, phc.Ppb()) == 0;
        }
      }
    }
  }

  lemma OffsetArtExact(anchorArt: u64, cycles: s64)
    ensures OffsetArt(anchorArt, cycles)
         == if 0 <= anchorArt + cycles <= U64_MAX then Ok(anchorArt + cycles) else Err(OutOfRange)
  {
    if cycles >= 0 {
      if anchorArt + cycles > U64_MAX {
        DivUnique(anchorArt + cycles, TWO64, 1);
      } else {
        WrapIdentity(anchorArt + cycles);
      }
    }
  }

  /** Cycles in a base magnitude, rounded half up. */
  function NearestCycles(hz: nat, baseNs: nat): nat {
    ExactQuotient(baseNs, NSEC_PER_SEC, hz, true)
  }

  /** Cycles the inverse counts for a magnitude of clock nanoseconds. */
  function CyclesMag(phc: Params, m: nat): nat
    requires phc.Tame()
  {
    NearestCycles(phc.baseArtHz, BaseMag(m, phc.Ppb()))
  }

  lemma NsToArtExact(phc: Params, ns: s64)
    requires phc.Tame() && phc.anchorNs != S64_MIN
    ensures NsToArt(phc, ns)
         == var delta := ns - phc.anchorNs;
            if !(S64_MIN <= delta <= S64_MAX) || BaseMag(Mag(delta), phc.Ppb()) > S64_MAX
               || CyclesMag(phc, Mag(delta)) > S64_MAX
               || !(0 <= phc.anchorArt + Signed(delta, CyclesMag(phc, Mag(delta))) <= U64_MAX) then
              Err(OutOfRange)
            else Ok(phc.anchorArt + Signed(delta, CyclesMag(phc, Mag(delta))))
  {
    var delta := ns - phc.anchorNs;
    if S64_MIN <= delta <= S64_MAX {
      assert AddS64(ns, Negate(phc.anchorNs)) == Ok(delta);
      AdjustedToBaseExact(delta, phc.Ppb());
      var b := BaseMag(Mag(delta), phc.Ppb());
      if b <= S64_MAX {
        SignedCycles(delta, b, phc.baseArtHz);
        var c := CyclesMag(phc, Mag(delta));
        if c <= S64_MAX {
          OffsetArtExact(phc.anchorArt, Signed(delta, c));
        }
      }
    }
  }

  lemma SignedCycles(delta: s64, b: nat, hz: u64)
    requires b <= S64_MAX && 0 < hz <= HZ_LIMIT
    ensures NsDeltaToCycles(Signed(delta, b), hz, true)
         == if NearestCycles(hz, b) > S64_MAX then Err(OutOfRange) else Ok(Signed(delta, NearestCycles(hz, b)))
  {
    NsDeltaToCyclesExact(Signed(delta, b), hz, true);
    if b == 0 {
      assert NearestCycles(hz, 0) == 0;
    }
  }

  lemma NsToArtOk(phc: Params, ns: s64)
    requires phc.Tame() && phc.anchorNs != S64_MIN
    requires NsToArt(phc, ns).Ok?
    ensures NsToArt(phc, ns).value - phc.anchorArt
         == Signed(ns - phc.anchorNs, CyclesMag(phc, Mag(ns - phc.anchorNs)))
  {
    NsToArtExact(phc, ns);
  }

  /** A clock read at its own anchor shows the anchor. */
  lemma AnchorReadsBack(phc: Params)
    requires 0 < phc.baseArtHz <= HZ_LIMIT
    ensures ArtToNs(phc, phc.anchorArt) == Ok(phc.anchorNs)
  {
    RescaleIsExact(0, phc.baseArtHz, NSEC_PER_SEC, false);
  }

  /** Later ART never reads as earlier time. */
  lemma ArtToNsMonotone(phc: Params, a: u64, b: u64)
    requires phc.Tame() && a <= b
    requires ArtToNs(phc, a).Ok? && ArtToNs(phc, b).Ok?
    ensures ArtToNs(phc, a).value <= ArtToNs(phc, b).value
  {
    ArtToNsExact(phc, a);
    ArtToNsExact(phc, b);
    if phc.anchorArt <= a {
      ElapsedMonotone(phc, a - phc.anchorArt, b - phc.anchorArt);
    } else if b < phc.anchorArt {
      ElapsedMonotone(phc, phc.anchorArt - b, phc.anchorArt - a);
    }
  }

  lemma ElapsedMonotone(phc: Params, c: nat, d: nat)
    requires phc.Tame() && c <= d
    ensures ElapsedMag(phc, c) <= ElapsedMag(phc, d)
  {
    DivLe(c * NSEC_PER_SEC, d * NSEC_PER_SEC, phc.baseArtHz);
    AdjustedMonotone(BaseNs(phc.baseArtHz, c), BaseNs(phc.baseArtHz, d), phc.Ppb());
  }
}
