/** Where a newly armed output puts its first edge, and the order of the wakes before it. */
module StartTiming {
  import opened Arith
  import opened PhcClock

  const OUTPUT_SAFE_TIME_NS: int := 20_000_000

  datatype OutputMode = Software | Hardware

  datatype Timing = Timing(firstEdgeNs: s64, primeEdgeNs: s64, timerStartNs: s64, timerStart: s64)

  /** A stale request moves forward by whole periods; with no usable period it becomes the earliest time. */
  function AlignFirstEdge(requestedNs: s64, minFirstNs: s64, periodNs: u64): s64 {
    if requestedNs >= minFirstNs then requestedNs
    else if periodNs == 0 || periodNs > S64_MAX || requestedNs < 0 then minFirstNs
    else
      var delta := minFirstNs - requestedNs;
      var periods := delta / periodNs + (if delta % periodNs != 0 then 1 else 0);
      if periods > S64_MAX / periodNs then minFirstNs
      else
        match Ranged(requestedNs + periods * periodNs)
        case Err(_) => minFirstNs
        case Ok(aligned) => aligned
  }

  /** The earliest point of the request's own grid that is not before `minFirstNs`. */
  predicate EarliestOnGrid(firstNs: int, requestedNs: int, minFirstNs: int, periodNs: int)
    requires 0 < periodNs
  {
    && requestedNs <= firstNs && minFirstNs <= firstNs
    && (firstNs - requestedNs) % periodNs == 0
    && (firstNs == requestedNs || firstNs - periodNs < minFirstNs)
  }

  /** No grid point in range: the request is negative, or the next grid point overflows. */
  predicate FallsBack(requestedNs: s64, minFirstNs: s64, periodNs: u64)
    requires 0 < periodNs <= S64_MAX
  {
    && requestedNs < minFirstNs
    && (requestedNs < 0 || requestedNs + GridPeriods(minFirstNs - requestedNs, periodNs) * periodNs > S64_MAX)
  }

  /** Whole periods that cover a distance. */
  function GridPeriods(delta: nat, periodNs: nat): nat
    requires 0 < periodNs
  {
    DivNonNegative(delta + periodNs - 1, periodNs);
    (delta + periodNs - 1) / periodNs
  }

  lemma CeilingCovers(delta: nat, period: nat)
    requires 0 < period
    ensures GridPeriods(delta, period) == delta / period + (if delta % period != 0 then 1 else 0)
    ensures delta <= GridPeriods(delta, period) * period < delta + period
  {
    var q, r := delta / period, delta % period;
    assert delta == q * period + r;
    if r == 0 {
      DivUnique(delta + period - 1, period, q);
    } else {
      assert (q + 1) * period == q * period + period;
      DivUnique(delta + period - 1, period, q + 1);
    }
  }

  /**
   * Main result: the first edge is the earliest grid point, except exactly in the fallback, where
   * it is the earliest time.
   */
  lemma AlignmentIsEarliest(requestedNs: s64, minFirstNs: s64, periodNs: u64)
    requires 0 < periodNs <= S64_MAX
    ensures FallsBack(requestedNs, minFirstNs, periodNs) ==>
              AlignFirstEdge(requestedNs, minFirstNs, periodNs) == minFirstNs
    ensures !FallsBack(requestedNs, minFirstNs, periodNs) ==>
              EarliestOnGrid(AlignFirstEdge(requestedNs, minFirstNs, periodNs), requestedNs, minFirstNs, periodNs)
  {
    if 0 <= requestedNs < minFirstNs {
      GridPointReached(requestedNs, minFirstNs, periodNs);
    } else if minFirstNs <= requestedNs {
      assert 0 % periodNs == 0;
    }
  }

  lemma GridPointReached(requestedNs: s64, minFirstNs: s64, periodNs: u64)
    requires 0 < periodNs <= S64_MAX && 0 <= requestedNs < minFirstNs
    ensures var point := requestedNs + GridPeriods(minFirstNs - requestedNs, periodNs) * periodNs;
            && EarliestOnGrid(point, requestedNs, minFirstNs, periodNs)
            && AlignFirstEdge(requestedNs, minFirstNs, periodNs) == if point > S64_MAX then minFirstNs else point
  {
    var k := GridPeriods(minFirstNs - requestedNs, periodNs);
    CeilingCovers(minFirstNs - requestedNs, periodNs);
    PeriodsGuard(k, periodNs);
    DivAddMultiple(0, k, periodNs);
    assert requestedNs + k * periodNs - requestedNs == 0 + k * periodNs;
  }

  lemma PeriodsGuard(periods: nat, periodNs: nat)
    requires 0 < periodNs
    ensures periods > S64_MAX / periodNs <==> periods * periodNs > S64_MAX
  {
    DivBounds(S64_MAX, periodNs);
    if periods > S64_MAX / periodNs {
      MulLe(S64_MAX / periodNs + 1, periods, periodNs);
    } else {
      MulLe(periods, S64_MAX / periodNs, periodNs);
    }
  }

  /** Two points of one grid are whole periods apart. */
  lemma SameClass(a: int, b: int, requestedNs: int, periodNs: int)
    requires 0 < periodNs
    requires (a - requestedNs) % periodNs == 0 && (b - requestedNs) % periodNs == 0
    ensures (a - b) % periodNs == 0
  {
    var i, j := (a - requestedNs) / periodNs, (b - requestedNs) / periodNs;
    assert a - b == 0 + (i - j) * periodNs;
    DivAddMultiple(0, i - j, periodNs);
  }

  /** Main result: whatever steps the clock makes, re-arming from one request keeps every first edge in one residue class. */
  lemma RearmsKeepTheGrid(requestedNs: s64, minFirsts: seq<s64>, periodNs: u64)
    requires 0 < periodNs <= S64_MAX
    requires forall i :: 0 <= i < |minFirsts| ==> !FallsBack(requestedNs, minFirsts[i], periodNs)
    ensures forall i, j :: 0 <= i < |minFirsts| && 0 <= j < |minFirsts| ==>
              (AlignFirstEdge(requestedNs, minFirsts[i], periodNs)
               - AlignFirstEdge(requestedNs, minFirsts[j], periodNs)) % periodNs == 0
  {
    forall i, j | 0 <= i < |minFirsts| && 0 <= j < |minFirsts|
      ensures (AlignFirstEdge(requestedNs, minFirsts[i], periodNs)
               - AlignFirstEdge(requestedNs, minFirsts[j], periodNs)) % periodNs == 0
    {
      AlignmentIsEarliest(requestedNs, minFirsts[i], periodNs);
      AlignmentIsEarliest(requestedNs, minFirsts[j], periodNs);
      SameClass(AlignFirstEdge(requestedNs, minFirsts[i], periodNs),
                AlignFirstEdge(requestedNs, minFirsts[j], periodNs), requestedNs, periodNs);
    }
  }

  function LeadTime(intervalNs: u64): u64 {
    var lead := Min(OUTPUT_SAFE_TIME_NS, intervalNs / 4);
    if lead == 0 then 1 else lead
  }

  function Lead(mode: OutputMode, minIntervalNs: u64): u64 {
    if mode == Hardware then OUTPUT_SAFE_TIME_NS else LeadTime(minIntervalNs)
  }

  /** Two's complement wrap of a sum of two signed values. */
  function WrapSigned(x: int): s64 {
    if Wrap(x) > S64_MAX then Wrap(x) - TWO64 else Wrap(x)
  }

  lemma WrapSignedAdd(a: int, b: int)
    ensures WrapSigned(WrapSigned(a) + b) == WrapSigned(a + b)
  {
    DivBounds(a, TWO64);
    var k := if Wrap(a) > S64_MAX then a / TWO64 + 1 else a / TWO64;
    assert WrapSigned(a) + b == a + b + (-k) * TWO64;
    DivAddMultiple(a + b, -k, TWO64);
  }

  lemma WrapSignedIdentity(x: int)
    requires S64_MIN <= x <= S64_MAX
    ensures WrapSigned(x) == x
  {
    if x < 0 {
      DivUnique(x, TWO64, -1);
    } else {
      WrapIdentity(x);
    }
  }

  function PrepareTiming(phc: Params, now: Result<s64>, nowReal: s64, minIntervalNs: u64, periodNs: u64,
                         mode: OutputMode, requestedNs: s64): Result<Timing> {
    if now.Err? then Err(NoDevice)
    else if now.value < 0 then Err(OutOfRange)
    else
      var lead := Lead(mode, minIntervalNs);
      match Ranged(now.value + 3 * lead)
      case Err(e) => Err(e)
      case Ok(minFirst) =>
        var first := AlignFirstEdge(requestedNs, minFirst, periodNs);
        match Ranged(first - 2 * lead)
        case Err(_) => Err(OutOfRange)
        case Ok(prime) =>
          match Ranged(first - lead)
          case Err(_) => Err(OutOfRange)
          case Ok(timerStartNs) =>
            match Ranged(timerStartNs - now.value)
            case Err(_) => Err(OutOfRange)
            case Ok(delay) =>
              match DeltaToRealNs(phc, delay)
              case Err(_) => Err(NoDevice)
              case Ok(realDelay) =>
                var start := WrapSigned(nowReal + realDelay);
                Ok(Timing(first, prime, timerStartNs, if start < nowReal then nowReal else start))
  }

  /**
   * Main result: an accepted timing leaves a full lead between now, the prime edge, the wake and
   * the first edge, in that order, and the real-time wake is never later than the clock-time one.
   */
  lemma WakesPrecedeTheEdge(phc: Params, now: s64, nowReal: s64, minIntervalNs: u64, periodNs: u64,
                            mode: OutputMode, requestedNs: s64)
    requires phc.Tame()
    requires PrepareTiming(phc, Ok(now), nowReal, minIntervalNs, periodNs, mode, requestedNs).Ok?
    ensures var t := PrepareTiming(phc, Ok(now), nowReal, minIntervalNs, periodNs, mode, requestedNs).value;
            var lead := Lead(mode, minIntervalNs);
            && now + lead <= t.primeEdgeNs
            && t.primeEdgeNs + lead == t.timerStartNs
            && t.timerStartNs + lead == t.firstEdgeNs
            && 1 <= lead <= OUTPUT_SAFE_TIME_NS
            && nowReal <= t.timerStart
            && (t.timerStart - nowReal) * phc.Rate() <= (t.timerStartNs - now) * NSEC_PER_SEC
            && (nowReal + 2 * (t.timerStartNs - now) <= S64_MAX ==>
                  (t.timerStartNs - now) * NSEC_PER_SEC < (t.timerStart - nowReal + 1) * phc.Rate())
            && (0 < periodNs <= S64_MAX && !FallsBack(requestedNs, now + 3 * lead, periodNs) ==>
                  EarliestOnGrid(t.firstEdgeNs, requestedNs, now + 3 * lead, periodNs))
  {
    hide DeltaToRealNs;
    var t := PrepareTiming(phc, Ok(now), nowReal, minIntervalNs, periodNs, mode, requestedNs).value;
    var lead := Lead(mode, minIntervalNs);
    var delay := t.timerStartNs - now;
    if 0 < periodNs <= S64_MAX {
      AlignmentIsEarliest(requestedNs, now + 3 * lead, periodNs);
    }
    AlignNotBefore(requestedNs, now + 3 * lead, periodNs);
    RealDelayShort(phc, delay);
    var realDelay := DeltaToRealNs(phc, delay).value;
    WakeWrap(nowReal, realDelay);
    MulLe(t.timerStart - nowReal, realDelay, phc.Rate());
    if nowReal + 2 * delay <= S64_MAX {
      WakeFits(realDelay, delay, phc.Rate());
      WrapSignedIdentity(nowReal + realDelay);
    }
  }

  lemma WakeFits(realDelay: nat, delay: nat, rate: int)
    requires 900_000_000 <= rate && realDelay * rate <= delay * NSEC_PER_SEC
    ensures realDelay <= 2 * delay
  {
    MulLe(900_000_000, rate, realDelay);
  }

  lemma RealDelayShort(phc: Params, delayNs: s64)
    requires phc.Tame() && 0 < delayNs && DeltaToRealNs(phc, delayNs).Ok?
    ensures DeltaToRealNs(phc, delayNs).value <= S64_MAX
    ensures DeltaToRealNs(phc, delayNs).value * phc.Rate() <= delayNs * NSEC_PER_SEC
    ensures delayNs * NSEC_PER_SEC < (DeltaToRealNs(phc, delayNs).value + 1) * phc.Rate()
  {
    AdjustedToBaseExact(delayNs, phc.Ppb());
    BaseBounds(delayNs, phc.Ppb());
  }

  lemma AlignNotBefore(requestedNs: s64, minFirstNs: s64, periodNs: u64)
    ensures minFirstNs <= AlignFirstEdge(requestedNs, minFirstNs, periodNs)
  {
    if 0 < periodNs <= S64_MAX {
      AlignmentIsEarliest(requestedNs, minFirstNs, periodNs);
    }
  }

  lemma WakeWrap(nowReal: s64, realDelay: nat)
    requires realDelay <= S64_MAX
    ensures var start := WrapSigned(nowReal + realDelay);
            var wake := if start < nowReal then nowReal else start;
            nowReal <= wake <= nowReal + realDelay
  {
    var sum := nowReal + realDelay;
    if sum < 0 {
      DivUnique(sum, TWO64, -1);
    } else {
      WrapIdentity(sum);
    }
  }

  /** How far apart wakes and edges are: 20 ms in hardware, otherwise a quarter of the smaller half, from 1 ns to 20 ms. */
  function LeadFor(mode: OutputMode, smallerHalfNs: nat): nat {
    if mode == Hardware || 80_000_000 <= smallerHalfNs then 20_000_000
    else if smallerHalfNs < 8 then 1
    else smallerHalfNs / 4
  }

  /**
   * What a first edge has to do with its request: with room for three leads from now, it is the
   * earliest point of the request's own grid, or the earliest time at all if there is no such point.
   */
  predicate FirstEdgeFor(firstNs: int, now: s64, mode: OutputMode, smallerHalfNs: nat, periodNs: u64, requestedNs: s64) {
    var earliest := now + 3 * LeadFor(mode, smallerHalfNs);
    && S64_MIN <= earliest <= S64_MAX
    && if 0 < periodNs <= S64_MAX && !FallsBack(requestedNs, earliest, periodNs)
       then EarliestOnGrid(firstNs, requestedNs, earliest, periodNs)
       else firstNs == if earliest <= requestedNs then requestedNs else earliest
  }

  /** By the clock a real-time wake comes at `dueNs`, rounded down by less than one real nanosecond where it fits. */
  predicate WakesAt(phc: Params, dueNs: int, now: s64, nowReal: s64, wakeAt: s64) {
    && nowReal <= wakeAt && (wakeAt - nowReal) * phc.Rate() <= (dueNs - now) * NSEC_PER_SEC
    && (nowReal + 2 * (dueNs - now) <= S64_MAX ==> (dueNs - now) * NSEC_PER_SEC < (wakeAt - nowReal + 1) * phc.Rate())
  }

  /** An accepted timing puts its first edge where the request wants it, primes two leads before and wakes one before. */
  lemma FirstEdgeIsRequested(phc: Params, now: s64, nowReal: s64, minIntervalNs: u64, periodNs: u64,
                             mode: OutputMode, requestedNs: s64)
    requires PrepareTiming(phc, Ok(now), nowReal, minIntervalNs, periodNs, mode, requestedNs).Ok?
    ensures var t := PrepareTiming(phc, Ok(now), nowReal, minIntervalNs, periodNs, mode, requestedNs).value;
            && FirstEdgeFor(t.firstEdgeNs, now, mode, minIntervalNs, periodNs, requestedNs)
            && t.primeEdgeNs == t.firstEdgeNs - 2 * LeadFor(mode, minIntervalNs)
            && t.timerStartNs == t.firstEdgeNs - LeadFor(mode, minIntervalNs)
            && (phc.Tame() ==> WakesAt(phc, t.firstEdgeNs - LeadFor(mode, minIntervalNs), now, nowReal, t.timerStart))
  {
    hide DeltaToRealNs, FallsBack, EarliestOnGrid;
    var lead := Lead(mode, minIntervalNs);
    assert lead == LeadFor(mode, minIntervalNs);
    if phc.Tame() {
      WakesPrecedeTheEdge(phc, now, nowReal, minIntervalNs, periodNs, mode, requestedNs);
    }
    if 0 < periodNs <= S64_MAX {
      AlignmentIsEarliest(requestedNs, now + 3 * lead, periodNs);
    }
  }
}
