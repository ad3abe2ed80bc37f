/**
 * The phase of a free-running output against its half-period grid, and the decision a frequency
 * update takes from it: leave the pending edge, nudge it onto the grid, or restart on the grid.
 */
module Nudge {
  import opened Arith
  import opened Arming
  import opened PhcClock
  import opened RoundTrip
  import opened StartTiming

  datatype Phase = Phase(pendingNs: s64, errorNs: int, nudgeSafe: bool)

  datatype Decision = Keep | Rearm | Aim(alignedNs: s64)

  /** The compare value for a logical edge time: shift by the calibration offset, then pre-subtract the delay. */
  function CompareArt(phc: Params, edgeNs: s64, offsetNs: s64): Result<u64> {
    match AddS64(edgeNs, offsetNs)
    case Err(e) => Err(e)
    case Ok(shifted) =>
      match NsToArt(phc, shifted)
      case Err(e) => Err(e)
      case Ok(art) => Ok(WithoutDelay(art))
  }

  /** Signed distance to the nearest grid point; a tie counts as early. */
  function GridError(distance: nat, halfNs: nat): int
    requires 0 < halfNs
  {
    var rem := distance % halfNs;
    if rem >= halfNs - rem then rem - halfNs else rem
  }

  /** The phase once the pending compare has been converted: back into the logical edge domain, range-checked. */
  function PhaseOf(edge: Result<s64>, now: Result<s64>, gridStartNs: s64, halfNs: u64, offsetNs: s64): Result<Phase>
    requires 0 < halfNs
  {
    if edge.Err? || now.Err? || now.value < 0 then Err(OutOfRange)
    else
      match AddS64(edge.value, Negate(offsetNs))
      case Err(_) => Err(OutOfRange)
      case Ok(pending) =>
        if pending < gridStartNs || pending < now.value - halfNs || pending - now.value > 4 * halfNs then Err(OutOfRange)
        else Ok(Phase(pending, GridError(pending - gridStartNs, halfNs), pending >= now.value + OUTPUT_SAFE_TIME_NS))
  }

  function PhaseGet(phc: Params, compv: u64, now: Result<s64>, gridStartNs: s64, halfNs: u64, offsetNs: s64): Result<Phase> {
    if halfNs == 0 || halfNs > S64_MAX / 4 || gridStartNs < 0 then Err(Invalid)
    else if compv == 0 || compv > U64_MAX - HW_DELAY_CYCLES then Err(OutOfRange)
    else PhaseOf(ArtToNs(phc, compv + HW_DELAY_CYCLES), now, gridStartNs, halfNs, offsetNs)
  }

  /** Exactly when the phase can be read: a usable half, a live compare, readable clocks, and an edge that is not stale. */
  lemma PhaseReadsExactly(phc: Params, compv: u64, now: Result<s64>, gridStartNs: s64, halfNs: u64, offsetNs: s64)
    requires offsetNs != S64_MIN
    ensures PhaseGet(phc, compv, now, gridStartNs, halfNs, offsetNs).Ok?
       <==> && 0 < halfNs <= S64_MAX / 4 && 0 <= gridStartNs && 0 < compv <= U64_MAX - 2
            && now.Ok? && 0 <= now.value && ArtToNs(phc, compv + 2).Ok?
            && var pending := ArtToNs(phc, compv + 2).value - offsetNs;
               gridStartNs <= pending <= S64_MAX && now.value - halfNs <= pending <= now.value + 4 * halfNs
    ensures PhaseGet(phc, compv, now, gridStartNs, halfNs, offsetNs).Ok? ==>
              PhaseGet(phc, compv, now, gridStartNs, halfNs, offsetNs).value.pendingNs
              == ArtToNs(phc, compv + 2).value - offsetNs
  {
    hide ArtToNs, GridError;
  }

  function Decide(phase: Result<Phase>, halfNs: u64, toleranceNs: int): Decision {
    match phase
    case Err(_) => Keep
    case Ok(p) =>
      if Mag(p.errorNs) > halfNs / 4 then Rearm
      else if -toleranceNs < p.errorNs < toleranceNs then Keep
      else if !p.nudgeSafe then Keep
      else Aim(WrapSigned(p.pendingNs - p.errorNs))
  }

  /** One ART cycle in nanoseconds, rounded to nearest: the floor of the dead-band. */
  function TickNs(hz: nat): nat
    requires 0 < hz
  {
    DivNonNegative(NSEC_PER_SEC + hz / 2, hz);
    (NSEC_PER_SEC + hz / 2) / hz
  }

  /** The dead-band is wider than half a cycle and the conversion losses. */
  predicate DeadBandCovers(hz: nat, rate: int, toleranceNs: int) {
    rate * NSEC_PER_SEC <= 2 * hz * ((toleranceNs - 1) * NSEC_PER_SEC - 2 * rate)
  }

  /** Fastest ART counter for which one tick is enough of a dead-band. */
  const NUDGE_HZ: int := 120_000_000

  lemma GridErrorBounds(distance: nat, halfNs: nat)
    requires 0 < halfNs
    ensures (distance - GridError(distance, halfNs)) % halfNs == 0
    ensures 2 * Mag(GridError(distance, halfNs)) <= halfNs
  {
    var q, r := distance / halfNs, distance % halfNs;
    if r >= halfNs - r {
      assert distance - GridError(distance, halfNs) == 0 + (q + 1) * halfNs;
      DivAddMultiple(0, q + 1, halfNs);
    } else {
      assert distance - GridError(distance, halfNs) == 0 + q * halfNs;
      DivAddMultiple(0, q, halfNs);
    }
  }

  // Close to a grid point, the error is the plain difference.
  lemma GridErrorNear(slot: nat, distance: nat, halfNs: nat)
    requires 0 < halfNs && slot % halfNs == 0
    requires 2 * Mag(distance - slot) < halfNs
    ensures GridError(distance, halfNs) == distance - slot
  {
    var k := slot / halfNs;
    assert slot == k * halfNs;
    if slot <= distance {
      DivUnique(distance, halfNs, k);
      DivBounds(distance, halfNs);
    } else {
      assert (k - 1) * halfNs == slot - halfNs;
      DivUnique(distance, halfNs, k - 1);
    }
  }

  /** Up to 120 MHz every tolerance the driver accepts is such a dead-band: its floor is one tick. */
  lemma TickCovers(hz: nat, rate: int, toleranceNs: int)
    requires 0 < hz <= NUDGE_HZ && 0 < rate <= NSEC_PER_SEC + MAX_ADJ_PPB
    requires TickNs(hz) <= toleranceNs
    ensures DeadBandCovers(hz, rate, toleranceNs)
  {
    var r := TickNs(hz);
    DivBounds(NSEC_PER_SEC + hz / 2, hz);
    assert 2 * (r * hz) >= 2 * NSEC_PER_SEC - hz;
    MulLe(r, toleranceNs, 2 * hz);
    assert r * (2 * hz) == 2 * (r * hz);
    TickArithmetic(hz, rate, toleranceNs);
  }

  lemma TickArithmetic(hz: nat, rate: nat, error: nat)
    requires hz <= NUDGE_HZ && 0 < rate <= NSEC_PER_SEC + MAX_ADJ_PPB
    requires error * (2 * hz) >= 2 * NSEC_PER_SEC - hz
    ensures 2 * hz * ((error - 1) * NSEC_PER_SEC - 2 * rate) >= rate * NSEC_PER_SEC
  {
    assert 2 * hz * ((error - 1) * NSEC_PER_SEC - 2 * rate)
        == (error * (2 * hz)) * NSEC_PER_SEC - 2 * hz * NSEC_PER_SEC - 4 * (hz * rate);
    MulLe(rate, NSEC_PER_SEC + MAX_ADJ_PPB, hz);
    assert rate * hz == hz * rate;
  }

  lemma ErrorInsideDeadBand(hz: nat, rate: int, error: nat, toleranceNs: int)
    requires WithinHalfCycle(hz, rate, error) && DeadBandCovers(hz, rate, toleranceNs)
    ensures error < toleranceNs
  {
    if toleranceNs <= error {
      MulLe((toleranceNs - 1) * NSEC_PER_SEC - 2 * rate, (error - 1) * NSEC_PER_SEC - 2 * rate, 2 * hz);
    }
  }

  /**
   * Where a programmed edge comes out: two cycles after its compare, within half a cycle and the
   * conversion losses of the time asked for plus the offset. A compare not above two cycles is not moved.
   */
  lemma CompareComesOut(phc: Params, edgeNs: s64, offsetNs: s64)
    requires phc.Tame() && phc.anchorNs != S64_MIN && CompareArt(phc, edgeNs, offsetNs).Ok?
    ensures var compare := CompareArt(phc, edgeNs, offsetNs).value;
            && S64_MIN <= edgeNs + offsetNs <= S64_MAX && NsToArt(phc, edgeNs + offsetNs).Ok?
            && var art := NsToArt(phc, edgeNs + offsetNs).value;
               && (if 2 < art then compare + 2 == art else compare == art)
               && (ArtToNs(phc, art).Ok? ==>
                     WithinHalfCycle(phc.baseArtHz, phc.Rate(), Mag(ArtToNs(phc, art).value - (edgeNs + offsetNs))))
  {
    hide ArtToNs, NsToArt;
    if ArtToNs(phc, NsToArt(phc, edgeNs + offsetNs).value).Ok? {
      NsRoundTrip(phc, edgeNs + offsetNs);
    }
  }

  // The offset and the delay cancel: what is read back differs from the aimed edge by conversion error alone.
  lemma ReadBackNearAim(phc: Params, alignedNs: s64, offsetNs: s64, compare: u64, toleranceNs: int)
    requires phc.Tame() && phc.anchorNs != S64_MIN && offsetNs != S64_MIN
    requires DeadBandCovers(phc.baseArtHz, phc.Rate(), toleranceNs)
    requires CompareArt(phc, alignedNs, offsetNs) == Ok(compare)
    requires HW_DELAY_CYCLES < NsToArt(phc, alignedNs + offsetNs).value
    requires ArtToNs(phc, compare + HW_DELAY_CYCLES).Ok?
    ensures Mag(ArtToNs(phc, compare + HW_DELAY_CYCLES).value - offsetNs - alignedNs) < toleranceNs
  {
    NsRoundTrip(phc, alignedNs + offsetNs);
    ErrorInsideDeadBand(phc.baseArtHz, phc.Rate(),
                        Mag(ArtToNs(phc, compare + HW_DELAY_CYCLES).value - (alignedNs + offsetNs)), toleranceNs);
  }

  // A phase read close to a grid slot keeps that slot and stays in the dead-band.
  lemma NearSlotIsKept(edge: Result<s64>, later: Result<s64>, gridStartNs: s64, halfNs: u64, offsetNs: s64,
                       alignedNs: s64, toleranceNs: int)
    requires 0 < halfNs && offsetNs != S64_MIN && 0 <= gridStartNs
    requires gridStartNs - halfNs < alignedNs && (alignedNs - gridStartNs) % halfNs == 0
    requires 4 * toleranceNs <= halfNs
    requires edge.Ok? ==> Mag(edge.value - offsetNs - alignedNs) < toleranceNs
    ensures var after := PhaseOf(edge, later, gridStartNs, halfNs, offsetNs);
            && (after.Ok? ==> after.value.pendingNs - after.value.errorNs == alignedNs)
            && (after.Ok? ==> -toleranceNs < after.value.errorNs < toleranceNs)
            && Decide(after, halfNs, toleranceNs) == Keep
  {
    var after := PhaseOf(edge, later, gridStartNs, halfNs, offsetNs);
    NotBelowGrid(alignedNs - gridStartNs, halfNs);
    if after.Ok? {
      GridErrorNear(alignedNs - gridStartNs, after.value.pendingNs - gridStartNs, halfNs);
    }
  }

  lemma NotBelowGrid(x: int, halfNs: int)
    requires 0 < halfNs && -halfNs < x && x % halfNs == 0
    ensures 0 <= x
  {
    if x < 0 {
      DivUnique(x, halfNs, -1);
    }
  }

  /** A nudge from this reading, aimed at a time that can be converted; `compare` is what it writes. */
  predicate Nudges(phc: Params, phase: Result<Phase>, halfNs: u64, offsetNs: s64, toleranceNs: int, compare: u64) {
    && Decide(phase, halfNs, toleranceNs).Aim?
    && S64_MIN <= phase.value.pendingNs - phase.value.errorNs <= S64_MAX
    && CompareArt(phc, phase.value.pendingNs - phase.value.errorNs, offsetNs) == Ok(compare)
  }

  /** The counter value a nudge aims at, before the delay is subtracted. */
  function AimedArt(phc: Params, alignedNs: s64, offsetNs: s64): u64
    requires CompareArt(phc, alignedNs, offsetNs).Ok?
  {
    NsToArt(phc, alignedNs + offsetNs).value
  }

  /**
   * Main result: a nudge aims at the nearest half-grid slot and is a fixed point. Any later reading
   * of the rewritten edge, at any time and with the clock unchanged, sees the same slot with an
   * error inside the dead-band, so no second nudge and no restart follows. It holds unless the aimed
   * counter value is 1 or 2.
   */
  lemma NudgeIsFixedPoint(phc: Params, compv: u64, now: Result<s64>, later: Result<s64>,
                          gridStartNs: s64, halfNs: u64, offsetNs: s64, toleranceNs: int, compare: u64)
    requires phc.Tame() && phc.anchorNs != S64_MIN && offsetNs != S64_MIN
    requires DeadBandCovers(phc.baseArtHz, phc.Rate(), toleranceNs)
    requires var phase := PhaseGet(phc, compv, now, gridStartNs, halfNs, offsetNs);
             && Nudges(phc, phase, halfNs, offsetNs, toleranceNs, compare)
             && !(1 <= AimedArt(phc, phase.value.pendingNs - phase.value.errorNs, offsetNs) <= HW_DELAY_CYCLES)
    ensures var before := PhaseGet(phc, compv, now, gridStartNs, halfNs, offsetNs);
            var after := PhaseGet(phc, compare, later, gridStartNs, halfNs, offsetNs);
            var aligned := Decide(before, halfNs, toleranceNs).alignedNs;
            && (aligned - gridStartNs) % halfNs == 0
            && 4 * Mag(before.value.pendingNs - aligned) <= halfNs
            && (after.Ok? ==> after.value.pendingNs - after.value.errorNs == aligned)
            && (after.Ok? ==> -toleranceNs < after.value.errorNs < toleranceNs)
            && Decide(after, halfNs, toleranceNs) == Keep
  {
    hide ArtToNs, NsToArt, DeadBandCovers;
    var phase := PhaseGet(phc, compv, now, gridStartNs, halfNs, offsetNs);
    var aligned: s64 := phase.value.pendingNs - phase.value.errorNs;
    AimedSlot(phase, phase.value.pendingNs - gridStartNs, gridStartNs, halfNs, toleranceNs);
    if 0 < compare <= U64_MAX - HW_DELAY_CYCLES {
      var edge := ArtToNs(phc, compare + HW_DELAY_CYCLES);
      assert edge.Ok? ==> Mag(edge.value - offsetNs - aligned) < toleranceNs by {
        if edge.Ok? {
          ReadBackNearAim(phc, aligned, offsetNs, compare, toleranceNs);
        }
      }
      NearSlotIsKept(edge, later, gridStartNs, halfNs, offsetNs, aligned, toleranceNs);
    }
  }

  /** When the edge read as `edgeNs` can be compared with the clock at all. */
  predicate Live(edgeNs: s64, later: Result<s64>, gridStartNs: s64, halfNs: u64, offsetNs: s64) {
    && later.Ok? && 0 <= later.value
    && gridStartNs <= edgeNs - offsetNs <= S64_MAX
    && later.value - halfNs <= edgeNs - offsetNs <= later.value + 4 * halfNs
  }

  /** How far from its slot an edge reads, and whether that is worth another correction at this time. */
  predicate Strayed(edgeNs: s64, later: s64, gridStartNs: s64, halfNs: u64, offsetNs: s64, toleranceNs: int)
    requires 0 < halfNs && gridStartNs <= edgeNs - offsetNs
  {
    var error := Mag(GridError(edgeNs - offsetNs - gridStartNs, halfNs));
    halfNs / 4 < error || (toleranceNs <= error && later + OUTPUT_SAFE_TIME_NS <= edgeNs - offsetNs)
  }

  /**
   * Main result: exactly when a nudge is followed by another correction, for any counter. The aimed
   * counter value is 1 or 2, so the delay was not subtracted, and the edge then read two cycles late
   * is live and has strayed from its slot.
   */
  lemma NudgeRepeatsIff(phc: Params, compv: u64, now: Result<s64>, later: Result<s64>,
                        gridStartNs: s64, halfNs: u64, offsetNs: s64, toleranceNs: int, compare: u64)
    requires phc.Tame() && phc.anchorNs != S64_MIN && offsetNs != S64_MIN
    requires DeadBandCovers(phc.baseArtHz, phc.Rate(), toleranceNs)
    requires Nudges(phc, PhaseGet(phc, compv, now, gridStartNs, halfNs, offsetNs), halfNs, offsetNs, toleranceNs, compare)
    ensures var phase := PhaseGet(phc, compv, now, gridStartNs, halfNs, offsetNs);
            var art := AimedArt(phc, phase.value.pendingNs - phase.value.errorNs, offsetNs);
            Decide(PhaseGet(phc, compare, later, gridStartNs, halfNs, offsetNs), halfNs, toleranceNs) != Keep
            <==> 1 <= art <= HW_DELAY_CYCLES &&
                 var edge := ArtToNs(phc, art + HW_DELAY_CYCLES);
                 && edge.Ok? && Live(edge.value, later, gridStartNs, halfNs, offsetNs)
                 && Strayed(edge.value, later.value, gridStartNs, halfNs, offsetNs, toleranceNs)
  {
    hide ArtToNs, NsToArt, DeadBandCovers, GridError;
    var phase := PhaseGet(phc, compv, now, gridStartNs, halfNs, offsetNs);
    var aligned: s64 := phase.value.pendingNs - phase.value.errorNs;
    if 1 <= AimedArt(phc, aligned, offsetNs) <= HW_DELAY_CYCLES {
      assert WithoutDelay(AimedArt(phc, aligned, offsetNs)) == compare == AimedArt(phc, aligned, offsetNs);
      DecidesAgain(ArtToNs(phc, compare + HW_DELAY_CYCLES), later, gridStartNs, halfNs, offsetNs, toleranceNs);
    } else {
      NudgeIsFixedPoint(phc, compv, now, later, gridStartNs, halfNs, offsetNs, toleranceNs, compare);
    }
  }

  lemma DecidesAgain(edge: Result<s64>, later: Result<s64>, gridStartNs: s64, halfNs: u64, offsetNs: s64, toleranceNs: int)
    requires 0 < halfNs && offsetNs != S64_MIN && 0 <= gridStartNs
    ensures Decide(PhaseOf(edge, later, gridStartNs, halfNs, offsetNs), halfNs, toleranceNs) != Keep
       <==> && edge.Ok? && Live(edge.value, later, gridStartNs, halfNs, offsetNs)
            && Strayed(edge.value, later.value, gridStartNs, halfNs, offsetNs, toleranceNs)
  {
    hide GridError;
  }

  /** An edge displaced by at most a quarter half-period strays by its displacement, and the nudge aims at the same slot. */
  lemma StraysByDisplacement(edge: Result<s64>, later: Result<s64>, gridStartNs: s64, halfNs: u64, offsetNs: s64,
                             alignedNs: s64, toleranceNs: int)
    requires 0 < halfNs && offsetNs != S64_MIN && 0 <= gridStartNs
    requires gridStartNs <= alignedNs && (alignedNs - gridStartNs) % halfNs == 0
    requires edge.Ok? && Live(edge.value, later, gridStartNs, halfNs, offsetNs)
    requires 4 * Mag(edge.value - offsetNs - alignedNs) <= halfNs
    ensures Strayed(edge.value, later.value, gridStartNs, halfNs, offsetNs, toleranceNs)
       <==> && toleranceNs <= Mag(edge.value - offsetNs - alignedNs)
            && later.value + OUTPUT_SAFE_TIME_NS <= edge.value - offsetNs
    ensures Strayed(edge.value, later.value, gridStartNs, halfNs, offsetNs, toleranceNs) ==>
              Decide(PhaseOf(edge, later, gridStartNs, halfNs, offsetNs), halfNs, toleranceNs) == Aim(alignedNs)
  {
    GridErrorNear(alignedNs - gridStartNs, edge.value - offsetNs - gridStartNs, halfNs);
    WrapSignedIdentity(alignedNs);
  }

  // What an aimed phase says about its slot, independently of the clock.
  lemma AimedSlot(phase: Result<Phase>, distance: nat, gridStartNs: s64, halfNs: u64, toleranceNs: int)
    requires 0 < halfNs && Decide(phase, halfNs, toleranceNs).Aim?
    requires phase.value.pendingNs == gridStartNs + distance
    requires phase.value.errorNs == GridError(distance, halfNs)
    requires phase.value.pendingNs - phase.value.errorNs <= S64_MAX && 0 <= gridStartNs
    ensures Decide(phase, halfNs, toleranceNs).alignedNs == phase.value.pendingNs - phase.value.errorNs
    ensures (phase.value.pendingNs - phase.value.errorNs - gridStartNs) % halfNs == 0
    ensures gridStartNs - halfNs < phase.value.pendingNs - phase.value.errorNs
    ensures 4 * Mag(phase.value.errorNs) <= halfNs && 4 * toleranceNs <= halfNs
  {
    GridErrorBounds(distance, halfNs);
    WrapSignedIdentity(phase.value.pendingNs - phase.value.errorNs);
  }

  /**
   * It does happen: an output shifted 80 ms early by its calibration offset, on a counter read just
   * as it starts. The nudge to counter value 1 is read two cycles late and asked for again.
   */
  lemma NudgeRepeatsAtCounterStart()
    ensures var phc := Params(0, 0, 38_400_000, 0);
            var now := ArtToNs(phc, 0);
            && phc.Tame() && TickNs(phc.baseArtHz) == 26 && now == Ok(0)
            && Decide(PhaseGet(phc, 100, now, 0, 40_000_000, -79_999_974), 40_000_000, 26) == Aim(80_000_000)
            && CompareArt(phc, 80_000_000, -79_999_974) == Ok(1)
            && Decide(PhaseGet(phc, 1, now, 0, 40_000_000, -79_999_974), 40_000_000, 26) == Aim(80_000_000)
  {
    ReadsAt(0, 0);
    ReadsAt(102, 2656);
    ReadsAt(3, 78);
    AimsAtSecondSlot(2656);
    AimsAtSecondSlot(78);
    SecondSlotCompare();
  }

  lemma AimsAtSecondSlot(edge: s64)
    requires 52 <= edge <= 10_000
    ensures Decide(PhaseOf(Ok(edge), Ok(0), 0, 40_000_000, -79_999_974), 40_000_000, 26) == Aim(80_000_000)
  {
    DivUnique(edge + 79_999_974, 40_000_000, 2);
    WrapSignedIdentity(80_000_000);
  }

  lemma SecondSlotCompare()
    ensures CompareArt(Params(0, 0, 38_400_000, 0), 80_000_000, -79_999_974) == Ok(1)
  {
    var phc := Params(0, 0, 38_400_000, 0);
    assert phc.Ppb() == 0;
    assert BaseMag(26, 0) == 26;
    assert NearestCycles(38_400_000, 26) == 1;
    NsToArtExact(phc, 26);
  }

  lemma ReadsAt(art: u64, elapsed: nat)
    requires art <= 1000 && elapsed == art * NSEC_PER_SEC / 38_400_000
    ensures ArtToNs(Params(0, 0, 38_400_000, 0), art) == Ok(elapsed)
  {
    assert Params(0, 0, 38_400_000, 0).Ppb() == 0;
    CyclesDeltaToNsExact(art, 38_400_000, false);
    BaseToAdjustedExact(elapsed, 0);
    assert AdjustedMag(elapsed, 0) == elapsed;
  }
}
