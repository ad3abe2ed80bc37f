/** How far a requested half period is from the whole number of ART cycles that realizes it. */
module Quantization {
  import opened Arith
  import opened Rescale
  import opened PhcClock

  datatype HalfPeriod = HalfPeriod(
    artHalfCycles: u64, actualHalfNs: u64, actualPeriodNs: u64,
    halfErrorNs: int, periodErrorNs: s64, splitErrorNs: int)

  /** The model-clock conversion of an interval; zero cycles is not an interval. */
  function IntervalCycles(phc: Params, intervalNs: s64): Result<u64> {
    match DeltaToArtCycles(phc, intervalNs)
    case Err(e) => Err(e)
    case Ok(cycles) => if cycles == 0 then Err(OutOfRange) else Ok(cycles)
  }

  function Quantize(phc: Params, periodNs: u64, halfNs: s64): Result<HalfPeriod> {
    match IntervalCycles(phc, halfNs)
    case Err(e) => Err(e)
    case Ok(cycles) =>
      match ArtCyclesToDeltaNs(phc, cycles)
      case Err(e) => Err(e)
      case Ok(actual) =>
        if actual > S64_MAX then Err(OutOfRange)
        else
          var split := if Odd(periodNs) then -1 else 0;
          var halfError := actual - halfNs;
          match Ranged(halfError + halfError)
          case Err(e) => Err(e)
          case Ok(doubled) =>
            match AddS64(doubled, split)
            case Err(e) => Err(e)
            case Ok(periodError) =>
              Ok(HalfPeriod(cycles, actual, Wrap(actual * 2), halfError, periodError, split))
  }

  /** The half period read back from its cycles, on magnitudes. */
  function ReadBackMag(phc: Params, halfNs: nat): nat
    requires phc.Tame()
  {
    AdjustedMag(ExactQuotient(CyclesMag(phc, halfNs), phc.baseArtHz, NSEC_PER_SEC, true), phc.Ppb())
  }

  lemma IntervalCyclesExact(phc: Params, intervalNs: s64)
    requires phc.Tame() && 0 < intervalNs
    requires IntervalCycles(phc, intervalNs).Ok?
    ensures IntervalCycles(phc, intervalNs).value == CyclesMag(phc, intervalNs) <= S64_MAX
  {
    AdjustedToBaseExact(intervalNs, phc.Ppb());
    NsDeltaToCyclesExact(BaseMag(intervalNs, phc.Ppb()), phc.baseArtHz, true);
  }

  lemma ReadBackExact(phc: Params, cycles: u64)
    requires phc.Tame() && ArtCyclesToDeltaNs(phc, cycles).Ok?
    ensures ArtCyclesToDeltaNs(phc, cycles).value
         == AdjustedMag(ExactQuotient(cycles, phc.baseArtHz, NSEC_PER_SEC, true), phc.Ppb())
  {
    CyclesDeltaToNsExact(cycles, phc.baseArtHz, true);
    BaseToAdjustedExact(ExactQuotient(cycles, phc.baseArtHz, NSEC_PER_SEC, true), phc.Ppb());
  }

  /** error < rate / (2 * hz) + 3 */
  predicate WithinQuantum(hz: nat, rate: int, error: nat) {
    2 * hz * (error - 3) < rate
  }

  // b, c and nb are the base magnitude, its cycles, and the base magnitude read back from them.
  lemma QuantumArithmetic(hz: nat, d: nat, h: nat, b: nat, c: nat, nb: nat, a: nat)
    requires 0 < hz && 0 < d <= NSEC_PER_SEC + MAX_ADJ_PPB
    requires b * d <= h * NSEC_PER_SEC < b * d + d
    requires 2 * (c * NSEC_PER_SEC) <= 2 * (b * hz) + NSEC_PER_SEC < 2 * (c * NSEC_PER_SEC) + 2 * NSEC_PER_SEC
    requires nb * (2 * hz) <= 2 * (c * NSEC_PER_SEC) + hz < nb * (2 * hz) + 2 * hz
    requires (a - 1) * NSEC_PER_SEC < nb * d < (a + 1) * NSEC_PER_SEC
    ensures WithinQuantum(hz, d, Mag(a - h))
  {
    var s := NSEC_PER_SEC + hz;
    assert 2 * (b * hz) - s < nb * (2 * hz) <= 2 * (b * hz) + s;
    MulLe(nb * (2 * hz), 2 * (b * hz) + s, d);
    MulLt(2 * (b * hz) - s, nb * (2 * hz), d);
    Reassociate(hz, d, b, nb, s);
    QuantumGather(2 * hz, d, h, a, b * d, nb * d, s);
  }

  lemma Reassociate(hz: nat, d: nat, b: nat, nb: nat, s: nat)
    ensures nb * (2 * hz) * d == (2 * hz) * (nb * d)
    ensures (2 * (b * hz) + s) * d == (2 * hz) * (b * d) + s * d
    ensures (2 * (b * hz) - s) * d == (2 * hz) * (b * d) - s * d
  {
  }

  lemma QuantumGather(k: nat, d: nat, h: nat, a: nat, bd: nat, nbd: nat, s: nat)
    requires 0 < k && 0 < d <= NSEC_PER_SEC + MAX_ADJ_PPB && 2 * s == 2 * NSEC_PER_SEC + k
    requires k * nbd <= k * bd + s * d && k * bd - s * d < k * nbd
    requires bd <= h * NSEC_PER_SEC < bd + d
    requires (a - 1) * NSEC_PER_SEC < nbd < (a + 1) * NSEC_PER_SEC
    ensures k * (Mag(a - h) - 3) < d
  {
    MulLt((a - 1) * NSEC_PER_SEC, nbd, k);
    MulLt(nbd, (a + 1) * NSEC_PER_SEC, k);
    MulLe(bd, h * NSEC_PER_SEC, k);
    MulLe(h * NSEC_PER_SEC, bd + d, k);
    MulLe(d, NSEC_PER_SEC + MAX_ADJ_PPB, k);
    assert 2 * (s * d) == 2 * NSEC_PER_SEC * d + k * d by {
      assert (2 * s) * d == (2 * NSEC_PER_SEC + k) * d;
    }
    ExpandScaled(k, a, h, bd, d);
    QuantumSum(k * a, k * h, k * bd, k * nbd, k * d, s * d, k, d);
    MulCancelLt(k * (a - h - 3), d, NSEC_PER_SEC);
    MulCancelLt(k * (h - a - 3), d, NSEC_PER_SEC);
  }

  // The same bracket with every product named: all that is left is linear.
  lemma QuantumSum(ka: int, kh: int, kbd: int, knbd: int, kd: int, sd: int, k: int, d: int)
    requires knbd <= kbd + sd && kbd - sd < knbd
    requires 2 * sd == 2 * NSEC_PER_SEC * d + kd && kd <= (NSEC_PER_SEC + MAX_ADJ_PPB) * k && 0 < k
    requires kbd <= kh * NSEC_PER_SEC <= kbd + kd
    requires ka * NSEC_PER_SEC - k * NSEC_PER_SEC < knbd < ka * NSEC_PER_SEC + k * NSEC_PER_SEC
    ensures (ka - kh - 3 * k) * NSEC_PER_SEC < d * NSEC_PER_SEC
    ensures (kh - ka - 3 * k) * NSEC_PER_SEC < d * NSEC_PER_SEC
  {
  }

  lemma ExpandScaled(k: nat, a: nat, h: nat, bd: nat, d: nat)
    ensures k * ((a - 1) * NSEC_PER_SEC) == (k * a) * NSEC_PER_SEC - k * NSEC_PER_SEC
    ensures (a - 1) * NSEC_PER_SEC * k == (k * a) * NSEC_PER_SEC - k * NSEC_PER_SEC
    ensures (a + 1) * NSEC_PER_SEC * k == (k * a) * NSEC_PER_SEC + k * NSEC_PER_SEC
    ensures h * NSEC_PER_SEC * k == (k * h) * NSEC_PER_SEC
    ensures (bd + d) * k == k * bd + k * d
    ensures bd * k == k * bd && d * k == k * d
    ensures k * (a - h - 3) == k * a - k * h - 3 * k
    ensures k * (h - a - 3) == k * h - k * a - 3 * k
  {
  }

  lemma ReadBackWithin(phc: Params, halfNs: nat)
    requires phc.Tame()
    ensures WithinQuantum(phc.baseArtHz, phc.Rate(), Mag(ReadBackMag(phc, halfNs) - halfNs))
  {
    var hz, d := phc.baseArtHz, phc.Rate();
    var b := BaseMag(halfNs, phc.Ppb());
    var c := NearestCycles(hz, b);
    var nb := ExactQuotient(c, hz, NSEC_PER_SEC, true);
    BaseBounds(halfNs, phc.Ppb());
    DivBounds(2 * (b * hz) + NSEC_PER_SEC, 2 * NSEC_PER_SEC);
    DivBounds(2 * (c * NSEC_PER_SEC) + hz, 2 * hz);
    AdjustedBounds(nb, phc.Ppb());
    QuantumArithmetic(hz, d, halfNs, b, c, nb, AdjustedMag(nb, phc.Ppb()));
  }

  // At the nominal rate nothing but the two roundings is left.
  lemma ReadBackNominal(phc: Params, halfNs: nat)
    requires phc.Tame() && phc.Ppb() == 0
    ensures 2 * phc.baseArtHz * Mag(ReadBackMag(phc, halfNs) - halfNs) <= NSEC_PER_SEC + phc.baseArtHz
  {
    var hz := phc.baseArtHz;
    assert BaseMag(halfNs, 0) == halfNs;
    var c := NearestCycles(hz, halfNs);
    var nb := ExactQuotient(c, hz, NSEC_PER_SEC, true);
    assert AdjustedMag(nb, 0) == nb;
    DivBounds(2 * (halfNs * hz) + NSEC_PER_SEC, 2 * NSEC_PER_SEC);
    DivBounds(2 * (c * NSEC_PER_SEC) + hz, 2 * hz);
    NominalArithmetic(hz, halfNs, c, nb);
  }

  lemma NominalArithmetic(hz: nat, h: nat, c: nat, nb: nat)
    requires 2 * (c * NSEC_PER_SEC) <= 2 * (h * hz) + NSEC_PER_SEC < 2 * (c * NSEC_PER_SEC) + 2 * NSEC_PER_SEC
    requires nb * (2 * hz) <= 2 * (c * NSEC_PER_SEC) + hz < nb * (2 * hz) + 2 * hz
    ensures 2 * hz * Mag(nb - h) <= NSEC_PER_SEC + hz
  {
    assert 2 * hz * (nb - h) == nb * (2 * hz) - 2 * (h * hz);
    assert 2 * hz * (h - nb) == 2 * (h * hz) - nb * (2 * hz);
  }

  /**
   * Main result: the half period read back differs from the request by less than half a cycle
   * plus 3 ns, at the nominal rate by at most half a cycle plus half a nanosecond; and when the
   * half is half of the period, the reported period error is the realized period less the request.
   */
  lemma QuantizationBound(phc: Params, periodNs: u64, halfNs: s64)
    requires phc.Tame() && 0 < halfNs
    requires Quantize(phc, periodNs, halfNs).Ok?
    ensures var q := Quantize(phc, periodNs, halfNs).value;
            && WithinQuantum(phc.baseArtHz, phc.Rate(), Mag(q.halfErrorNs))
            && (phc.Ppb() == 0 ==> 2 * phc.baseArtHz * Mag(q.halfErrorNs) <= NSEC_PER_SEC + phc.baseArtHz)
            && q.actualHalfNs == halfNs + q.halfErrorNs
            && q.actualPeriodNs == 2 * q.actualHalfNs
            && (halfNs == periodNs / 2 ==> q.periodErrorNs == q.actualPeriodNs - periodNs)
  {
    var q := Quantize(phc, periodNs, halfNs).value;
    IntervalCyclesExact(phc, halfNs);
    ReadBackExact(phc, q.artHalfCycles);
    ReadBackWithin(phc, halfNs);
    if phc.Ppb() == 0 {
      ReadBackNominal(phc, halfNs);
    }
    WrapIdentity(q.actualHalfNs * 2);
  }
}
