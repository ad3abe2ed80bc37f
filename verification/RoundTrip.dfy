/** Converting ART to nanoseconds and back, and nanoseconds to ART and back. */
module RoundTrip {
  import opened Arith
  import opened Rescale
  import opened PhcClock

  /** Fastest ART counter for which one nanosecond still separates neighbouring counts both ways. */
  const EXACT_HZ: int := 250_000_000

  lemma BaseNsBounds(hz: nat, cycles: nat)
    requires 0 < hz
    ensures BaseNs(hz, cycles) * hz <= cycles * NSEC_PER_SEC < BaseNs(hz, cycles) * hz + hz
  {
    DivBounds(cycles * NSEC_PER_SEC, hz);
  }

  lemma NearestCyclesBounds(hz: nat, baseNs: nat)
    ensures 2 * (NearestCycles(hz, baseNs) * NSEC_PER_SEC) <= 2 * (baseNs * hz) + NSEC_PER_SEC
          < 2 * (NearestCycles(hz, baseNs) * NSEC_PER_SEC) + 2 * NSEC_PER_SEC
  {
    DivBounds(2 * (baseNs * hz) + NSEC_PER_SEC, 2 * NSEC_PER_SEC);
  }

  // Magnitudes: one lost nanosecond on either leg still rounds to the cycle it came from.
  lemma CyclesSurvive(hz: nat, cycles: nat, back: nat)
    requires 0 < hz <= EXACT_HZ
    requires BaseNs(hz, cycles) - 1 <= back <= BaseNs(hz, cycles) + 1
    ensures NearestCycles(hz, back) == cycles
  {
    var n := BaseNs(hz, cycles);
    BaseNsBounds(hz, cycles);
    MulLe(n - 1, back, hz);
    MulLe(back, n + 1, hz);
    assert (n - 1) * hz == n * hz - hz && (n + 1) * hz == n * hz + hz;
    assert cycles * (2 * NSEC_PER_SEC) == 2 * (cycles * NSEC_PER_SEC);
    DivUnique(2 * (back * hz) + NSEC_PER_SEC, 2 * NSEC_PER_SEC, cycles);
  }

  /** The base magnitude the inverse computes from what the clock showed. */
  function BaseReadBack(phc: Params, cycles: nat): nat
    requires phc.Tame()
  {
    BaseMag(ElapsedMag(phc, cycles), phc.Ppb())
  }

  /**
   * Main result, ART to nanoseconds and back: whatever ART value the clock can show, before or
   * after the anchor, the inverse returns that value. The one exception is a range error, exactly
   * when the base magnitude read back leaves the signed range.
   */
  lemma ArtRoundTrip(phc: Params, art: u64)
    requires phc.Tame() && phc.baseArtHz <= EXACT_HZ
    requires phc.anchorNs != S64_MIN
    requires ArtToNs(phc, art).Ok?
    ensures NsToArt(phc, ArtToNs(phc, art).value)
         == if BaseReadBack(phc, Mag(art - phc.anchorArt)) > S64_MAX then Err(OutOfRange) else Ok(art)
  {
    var c := art - phc.anchorArt;
    ArtToNsExact(phc, art);
    MagnitudesSurvive(phc, Mag(c));
    ElapsedZero(phc, Mag(c));
    NsToArtExact(phc, ArtToNs(phc, art).value);
  }

  lemma MagnitudesSurvive(phc: Params, n: nat)
    requires phc.Tame() && phc.baseArtHz <= EXACT_HZ
    ensures CyclesMag(phc, ElapsedMag(phc, n)) == n
  {
    BaseAfterAdjusted(BaseNs(phc.baseArtHz, n), phc.Ppb());
    CyclesSurvive(phc.baseArtHz, n, BaseReadBack(phc, n));
  }

  // No cycle goes unseen, so the sign of the difference is never lost.
  lemma ElapsedZero(phc: Params, n: nat)
    requires phc.Tame() && phc.baseArtHz <= EXACT_HZ
    ensures ElapsedMag(phc, n) == 0 <==> n == 0
  {
    if n == 0 {
      assert BaseNs(phc.baseArtHz, 0) == 0;
    }
    MagnitudesSurvive(phc, n);
    assert BaseMag(0, phc.Ppb()) == 0 && NearestCycles(phc.baseArtHz, 0) == 0;
  }

  /** The exception needs a slowed clock read exactly 2^63 - 1 base nanoseconds from its anchor. */
  lemma ExceptionOnlyAtTheEnd(phc: Params, art: u64)
    requires phc.Tame()
    requires ArtToNs(phc, art).Ok?
    requires BaseReadBack(phc, Mag(art - phc.anchorArt)) > S64_MAX
    ensures BaseNs(phc.baseArtHz, Mag(art - phc.anchorArt)) == S64_MAX && phc.Ppb() < 0
  {
    ArtToNsExact(phc, art);
    BaseAfterAdjusted(BaseNs(phc.baseArtHz, Mag(art - phc.anchorArt)), phc.Ppb());
  }

  /** A 38.4 MHz counter that reaches the exception: the inverse refuses a time the clock itself showed. */
  lemma ExceptionExists()
    ensures var phc := Params(0, 0, 38_400_000, -3_041_592);
            && phc.Tame() && phc.baseArtHz <= EXACT_HZ
            && ArtToNs(phc, 354_177_486_215_223_391) == Ok(9_222_943_970_935_173_341)
            && NsToArt(phc, 9_222_943_970_935_173_341) == Err(OutOfRange)
  {
    var phc := Params(0, 0, 38_400_000, -3_041_592);
    assert phc.Ppb() == -46_411;
    RescaleIsExact(354_177_486_215_223_391, 38_400_000, NSEC_PER_SEC, false);
    assert CyclesDeltaToNs(354_177_486_215_223_391, 38_400_000, false) == Ok(S64_MAX);
    ApplyPpbExact(S64_MAX, -46_411);
    assert BaseToAdjusted(S64_MAX, -46_411) == Ok(9_222_943_970_935_173_341);
    AdjustedToBaseExact(9_222_943_970_935_173_341, -46_411);
    assert AdjustedToBase(9_222_943_970_935_173_341, -46_411) == Err(OutOfRange);
  }

  /**
   * distance < rate / (2 * hz) + 4, and more sharply distance < rate / (2 * hz) + 1 + 2 * rate / 1e9:
   * half a cycle of rounding, one nanosecond, and two base nanoseconds at the corrected rate.
   */
  predicate WithinHalfCycle(hz: nat, rate: int, distance: nat) {
    && 2 * hz * (distance - 4) < rate
    && 2 * hz * ((distance - 1) * NSEC_PER_SEC - 2 * rate) < rate * NSEC_PER_SEC
  }

  /** Main result, nanoseconds to ART and back: the time moves by less than half a cycle plus four nanoseconds. */
  lemma NsRoundTrip(phc: Params, ns: s64)
    requires phc.Tame() && phc.anchorNs != S64_MIN
    requires NsToArt(phc, ns).Ok? && ArtToNs(phc, NsToArt(phc, ns).value).Ok?
    ensures WithinHalfCycle(phc.baseArtHz, phc.Rate(), Mag(ArtToNs(phc, NsToArt(phc, ns).value).value - ns))
  {
    var m := Mag(ns - phc.anchorNs);
    ElapsedWithin(phc, m);
    ReadBackMag(phc, ns);
  }

  lemma ElapsedWithin(phc: Params, m: nat)
    requires phc.Tame()
    ensures WithinHalfCycle(phc.baseArtHz, phc.Rate(), Mag(ElapsedMag(phc, CyclesMag(phc, m)) - m))
  {
    ElapsedNearMag(phc, m);
    MagBound(phc.baseArtHz, phc.Rate(), m, ElapsedMag(phc, CyclesMag(phc, m)));
  }

  // Both legs are odd, so the two times differ by what their magnitudes differ.
  lemma ReadBackMag(phc: Params, ns: s64)
    requires phc.Tame() && phc.anchorNs != S64_MIN
    requires NsToArt(phc, ns).Ok? && ArtToNs(phc, NsToArt(phc, ns).value).Ok?
    ensures var m := Mag(ns - phc.anchorNs);
            Mag(ArtToNs(phc, NsToArt(phc, ns).value).value - ns) == Mag(ElapsedMag(phc, CyclesMag(phc, m)) - m)
  {
    var delta := ns - phc.anchorNs;
    var c := CyclesMag(phc, Mag(delta));
    var art := NsToArt(phc, ns).value;
    NsToArtOk(phc, ns);
    var e := ShownOffset(phc, art, Signed(delta, c), c);
    SignedDistance(delta, c, e);
  }

  lemma ShownOffset(phc: Params, art: u64, offset: int, c: nat) returns (e: nat)
    requires phc.Tame() && ArtToNs(phc, art).Ok?
    requires offset == art - phc.anchorArt && Mag(offset) == c
    ensures e == ElapsedMag(phc, c)
    ensures ArtToNs(phc, art).value == phc.anchorNs + Signed(offset, e)
    ensures c == 0 ==> e == 0
  {
    e := ElapsedMag(phc, c);
    ArtToNsExact(phc, art);
    if c == 0 {
      assert BaseNs(phc.baseArtHz, 0) == 0;
    }
  }

  lemma SignedDistance(delta: int, c: nat, e: nat)
    requires c == 0 ==> e == 0
    ensures Mag(Signed(Signed(delta, c), e) - delta) == Mag(e - Mag(delta))
  {
  }

  predicate Bracketed(hz: nat, d: int, m: nat, a2: nat) {
    && 2 * hz * ((a2 - m - 1) * NSEC_PER_SEC) < d * NSEC_PER_SEC
    && 2 * hz * ((m - a2 - 1) * NSEC_PER_SEC - 2 * d) < d * NSEC_PER_SEC
  }

  // The magnitude shown for the nearest cycle, bracketed on the common denominator 2 * hz * 1e9.
  lemma ElapsedNearMag(phc: Params, m: nat)
    requires phc.Tame()
    ensures Bracketed(phc.baseArtHz, phc.Rate(), m, ElapsedMag(phc, CyclesMag(phc, m)))
  {
    var hz, d := phc.baseArtHz, phc.Rate();
    var b := BaseMag(m, phc.Ppb());
    var c := NearestCycles(hz, b);
    var b2 := BaseNs(hz, c);
    BaseBounds(m, phc.Ppb());
    NearestCyclesBounds(hz, b);
    BaseNsBounds(hz, c);
    AdjustedBounds(b2, phc.Ppb());
    // Half a cycle either way, and one base nanosecond down.
    Scale(b2, b, hz, d);
    Gather(2 * hz, d, m, AdjustedMag(b2, phc.Ppb()), b * d, b2 * d);
  }

  lemma Scale(b2: nat, b: nat, hz: nat, d: nat)
    requires 2 * (b2 * hz) <= 2 * (b * hz) + NSEC_PER_SEC
    requires 2 * (b * hz) - NSEC_PER_SEC < 2 * (b2 * hz) + 2 * hz
    requires 0 < d
    ensures 2 * hz * (b2 * d) <= 2 * hz * (b * d) + NSEC_PER_SEC * d
    ensures 2 * hz * (b * d) - NSEC_PER_SEC * d < 2 * hz * (b2 * d) + 2 * hz * d
  {
    MulLe(2 * (b2 * hz), 2 * (b * hz) + NSEC_PER_SEC, d);
    MulLt(2 * (b * hz) - NSEC_PER_SEC, 2 * (b2 * hz) + 2 * hz, d);
    assert 2 * (b2 * hz) * d == 2 * hz * (b2 * d);
    assert 2 * (b * hz) * d == 2 * hz * (b * d);
  }

  // h is twice the rate; bd and b2d are the base magnitudes times the clock rate.
  lemma Gather(h: nat, d: nat, m: nat, a2: nat, bd: nat, b2d: nat)
    requires 0 < h
    requires h * b2d <= h * bd + NSEC_PER_SEC * d
    requires h * bd - NSEC_PER_SEC * d < h * b2d + h * d
    requires bd <= m * NSEC_PER_SEC < bd + d
    requires (a2 - 1) * NSEC_PER_SEC < b2d < (a2 + 1) * NSEC_PER_SEC
    ensures h * ((a2 - m - 1) * NSEC_PER_SEC) < d * NSEC_PER_SEC
    ensures h * ((m - a2 - 1) * NSEC_PER_SEC - 2 * d) < d * NSEC_PER_SEC
  {
    MulLt((a2 - 1) * NSEC_PER_SEC, b2d, h);
    MulLe(bd, m * NSEC_PER_SEC, h);
    Distribute(h, (a2 - 1) * NSEC_PER_SEC, -(m * NSEC_PER_SEC));
    MulLt(b2d, (a2 + 1) * NSEC_PER_SEC, h);
    MulLt(m * NSEC_PER_SEC, bd + d, h);
    Distribute(h, bd, d);
    Distribute(h, m * NSEC_PER_SEC, -((a2 + 1) * NSEC_PER_SEC));
    Distribute(h, (m - a2 - 1) * NSEC_PER_SEC, -2 * d);
  }

  lemma Distribute(h: int, x: int, y: int)
    ensures h * (x + y) == h * x + h * y
    ensures h * (x + y) == x * h + y * h
  {
  }

  lemma MagBound(hz: nat, d: nat, m: nat, a2: nat)
    requires 0 < hz && 0 < d <= NSEC_PER_SEC + MAX_ADJ_PPB
    requires Bracketed(hz, d, m, a2)
    ensures WithinHalfCycle(hz, d, Mag(a2 - m))
  {
    var h, g := 2 * hz, NSEC_PER_SEC;
    var e := Mag(a2 - m);
    assert h * ((e - 1) * g - 2 * d) < d * g by {
      if m < a2 {
        MulLe((e - 1) * g - 2 * d, (e - 1) * g, h);
      }
    }
    MulLe((e - 4) * g, (e - 1) * g - 2 * d, h);
    assert h * (e - 4) * g == h * ((e - 4) * g);
    MulCancelLt(h * (e - 4), d, g);
  }

  // ----- the frequency correction on its own, with its range errors

  /** Base to adjusted to base moves by at most one nanosecond. */
  lemma BaseDeltaRoundTrip(baseNs: s64, ppb: s64)
    requires InServoRange(ppb)
    requires BaseToAdjusted(baseNs, ppb).Ok?
    requires AdjustedToBase(BaseToAdjusted(baseNs, ppb).value, ppb).Ok?
    ensures Mag(AdjustedToBase(BaseToAdjusted(baseNs, ppb).value, ppb).value - baseNs) <= 1
  {
    var a := AdjustedMag(Mag(baseNs), ppb);
    BaseToAdjustedExact(baseNs, ppb);
    AdjustedToBaseExact(Signed(baseNs, a), ppb);
    BaseAfterAdjusted(Mag(baseNs), ppb);
    if a == 0 {
      assert BaseMag(0, ppb) == 0;
    }
  }

  /** Adjusted to base to adjusted always succeeds again; slowed down it is the identity. */
  lemma AdjustedDeltaRoundTrip(adjustedNs: s64, ppb: s64)
    requires InServoRange(ppb)
    requires AdjustedToBase(adjustedNs, ppb).Ok?
    ensures var back := BaseToAdjusted(AdjustedToBase(adjustedNs, ppb).value, ppb);
            && back.Ok?
            && (ppb <= 0 ==> back.value == adjustedNs)
            && (ppb > 0 ==> Mag(adjustedNs) - 2 <= Signed(adjustedNs, back.value) <= Mag(adjustedNs))
  {
    var b := BaseMag(Mag(adjustedNs), ppb);
    AdjustedToBaseExact(adjustedNs, ppb);
    BaseToAdjustedExact(Signed(adjustedNs, b), ppb);
    AdjustedAfterBase(Mag(adjustedNs), ppb);
    if b == 0 {
      assert AdjustedMag(0, ppb) == 0;
    }
  }

  /** Both maps keep the order of signed intervals. */
  lemma CorrectionMonotone(x: s64, y: s64, ppb: s64)
    requires InServoRange(ppb) && x <= y
    ensures BaseToAdjusted(x, ppb).Ok? && BaseToAdjusted(y, ppb).Ok? ==>
              BaseToAdjusted(x, ppb).value <= BaseToAdjusted(y, ppb).value
    ensures AdjustedToBase(x, ppb).Ok? && AdjustedToBase(y, ppb).Ok? ==>
              AdjustedToBase(x, ppb).value <= AdjustedToBase(y, ppb).value
  {
    BaseToAdjustedExact(x, ppb);
    BaseToAdjustedExact(y, ppb);
    AdjustedToBaseExact(x, ppb);
    AdjustedToBaseExact(y, ppb);
    if Mag(x) <= Mag(y) {
      AdjustedMonotone(Mag(x), Mag(y), ppb);
      BaseMonotone(Mag(x), Mag(y), ppb);
    } else {
      AdjustedMonotone(Mag(y), Mag(x), ppb);
      BaseMonotone(Mag(y), Mag(x), ppb);
    }
  }

  /** Both maps are odd, range errors included, but for the one result that has no negation. */
  lemma CorrectionOdd(x: s64, ppb: s64)
    requires InServoRange(ppb) && x != S64_MIN
    ensures AdjustedToBase(-x, ppb).Ok? <==> AdjustedToBase(x, ppb).Ok?
    ensures AdjustedToBase(x, ppb).Ok? ==> AdjustedToBase(-x, ppb).value == -AdjustedToBase(x, ppb).value
    ensures BaseToAdjusted(x, ppb).Ok? && BaseToAdjusted(x, ppb).value != S64_MIN <==>
            BaseToAdjusted(-x, ppb).Ok? && BaseToAdjusted(-x, ppb).value != S64_MIN
    ensures BaseToAdjusted(x, ppb).Ok? && BaseToAdjusted(-x, ppb).Ok? ==>
              BaseToAdjusted(-x, ppb).value == -BaseToAdjusted(x, ppb).value
  {
    hide AdjustedToBase, BaseToAdjusted, AdjustedMag, BaseMag;
    AdjustedToBaseExact(x, ppb);
    AdjustedToBaseExact(-x, ppb);
    BaseToAdjustedExact(x, ppb);
    BaseToAdjustedExact(-x, ppb);
    ZeroStays(ppb);
  }

  lemma ZeroStays(ppb: s64)
    requires InServoRange(ppb)
    ensures AdjustedMag(0, ppb) == 0 && BaseMag(0, ppb) == 0
  {
  }
}
