/** Duty visits in time: when a wake is served soon enough, exactly one edge precedes every visit. */
module DutyTiming {
  import opened Arith
  import opened ClockRuns
  import opened Duty
  import opened DutyRuns
  import opened Interleaving
  import opened LinuxRuns
  import opened LinuxSpec
  import opened Nudge
  import opened PhcClock
  import opened Quantization
  import opened RoundTrip
  import opened ToggleEngine

  // ----- what two readings say about the counter between them

  lemma ReadingBounds(phc: Params, art: u64)
    requires phc.Tame() && ArtToNs(phc, art).Ok?
    ensures var c, r := art - phc.anchorArt, ArtToNs(phc, art).value - phc.anchorNs;
            c * phc.Rate() - 3 * phc.baseArtHz < r * phc.baseArtHz < c * phc.Rate() + 3 * phc.baseArtHz
  {
    hide ArtToNs, ElapsedMag, Params.Rate;
    var c := art - phc.anchorArt;
    ArtToNsExact(phc, art);
    SegmentBounds(phc, Mag(c));
    Negated(Mag(c), phc.Rate(), ElapsedMag(phc, Mag(c)), phc.baseArtHz);
  }

  lemma Negated(c: int, rate: int, x: int, hz: int)
    ensures (-c) * rate == -(c * rate) && (-x) * hz == -(x * hz)
  {
  }

  /** Readings are apart by what the cycles between them are worth, to within 6 ns. */
  lemma Spread(phc: Params, a: u64, b: u64)
    requires phc.Tame() && ArtToNs(phc, a).Ok? && ArtToNs(phc, b).Ok?
    ensures (b - a) * phc.Rate() < (ArtToNs(phc, b).value - ArtToNs(phc, a).value + 6) * phc.baseArtHz
  {
    ReadingBounds(phc, a);
    ReadingBounds(phc, b);
    Differences(b - phc.anchorArt, a - phc.anchorArt, phc.Rate(),
                ArtToNs(phc, b).value - phc.anchorNs, ArtToNs(phc, a).value - phc.anchorNs, phc.baseArtHz);
  }

  lemma Differences(c: int, d: int, rate: int, x: int, y: int, hz: int)
    ensures c * rate - d * rate == (c - d) * rate
    ensures x * hz - y * hz + 6 * hz == (x - y + 6) * hz
  {
  }

  /** The cycles of a half are worth no less than the half, but for a cycle and two nanoseconds. */
  lemma CyclesCover(phc: Params, halfNs: nat)
    requires phc.Tame()
    ensures halfNs * phc.baseArtHz < CyclesMag(phc, halfNs) * phc.Rate() + phc.Rate() + 2 * phc.baseArtHz
  {
    var hz, d, b := phc.baseArtHz, phc.Rate(), BaseMag(halfNs, phc.Ppb());
    BaseBounds(halfNs, phc.Ppb());
    NearestCyclesBounds(hz, b);
    CoverArithmetic(hz, d, halfNs, b, CyclesMag(phc, halfNs));
  }

  lemma CoverArithmetic(hz: nat, d: nat, h: nat, b: nat, c: nat)
    requires 0 < hz && 0 < d <= NSEC_PER_SEC + MAX_ADJ_PPB
    requires h * NSEC_PER_SEC < b * d + d
    requires 2 * (b * hz) + NSEC_PER_SEC < 2 * (c * NSEC_PER_SEC) + 2 * NSEC_PER_SEC
    ensures h * hz < c * d + d + 2 * hz
  {
    MulLt(h * NSEC_PER_SEC, b * d + d, hz);
    MulLt(2 * (b * hz), 2 * (c * NSEC_PER_SEC) + NSEC_PER_SEC, d);
    MulLe(d, NSEC_PER_SEC + MAX_ADJ_PPB, hz);
    Regrouped(hz, d, h, b, c);
    CoverLinear(h * hz, c * d, b * d * hz, d * hz, d, hz);
  }

  lemma Regrouped(hz: nat, d: nat, h: nat, b: nat, c: nat)
    ensures h * NSEC_PER_SEC * hz == (h * hz) * NSEC_PER_SEC
    ensures (b * d + d) * hz == b * d * hz + d * hz
    ensures 2 * (b * hz) * d == 2 * (b * d * hz)
    ensures (2 * (c * NSEC_PER_SEC) + NSEC_PER_SEC) * d == 2 * ((c * d) * NSEC_PER_SEC) + d * NSEC_PER_SEC
  {
  }

  // Every product named: what is left is linear.
  lemma CoverLinear(hh: int, cd: int, bdh: int, dh: int, d: int, hz: int)
    requires hh * NSEC_PER_SEC < bdh + dh && 2 * bdh < 2 * (cd * NSEC_PER_SEC) + d * NSEC_PER_SEC
    requires dh <= (NSEC_PER_SEC + MAX_ADJ_PPB) * hz && 0 < hz && 0 < d
    ensures hh < cd + d + 2 * hz
  {
  }

  // ----- one service in time

  /** Between two readings clock time and real time ran together at the clock's rate, to within a microsecond. */
  predicate Together(phc: Params, now: s64, nowReal: s64, later: s64, laterReal: s64) {
    Mag((later - now) * NSEC_PER_SEC - (laterReal - nowReal) * phc.Rate()) <= 1000 * NSEC_PER_SEC
  }

  /** The counter value is passed no earlier than the wake and at most `latencyNs` of real time after it. */
  predicate InTime(phc: Params, asked: Sample, wakeAt: s64, latencyNs: nat, art: u64, realNs: s64) {
    && asked.now.Ok? && ArtToNs(phc, art).Ok?
    && Together(phc, asked.now.value, asked.nowReal, ArtToNs(phc, art).value, realNs)
    && wakeAt <= realNs <= wakeAt + latencyNs
  }

  /** A half leaves room for the service delay, the latency, three cycles and some rounding. */
  predicate Roomy(phc: Params, halfNs: nat, latencyNs: nat) {
    latencyNs * phc.Rate() * phc.baseArtHz + 3 * phc.Rate() * NSEC_PER_SEC
    <= (halfNs - 10_001_020) * NSEC_PER_SEC * phc.baseArtHz
  }

  /** The shortest half the driver accepts leaves room for 30 ms of latency. */
  lemma ShortestHalfIsRoomy(phc: Params, halfNs: nat)
    requires phc.Tame() && 1000 <= phc.baseArtHz && 50_000_000 <= halfNs
    ensures Roomy(phc, halfNs, 30_000_000)
  {
    MulLe(phc.Rate(), NSEC_PER_SEC + MAX_ADJ_PPB, 30_000_000);
    MulLe(30_000_000 * phc.Rate(), 30_000_000 * (NSEC_PER_SEC + MAX_ADJ_PPB), phc.baseArtHz);
    MulLe(39_998_980 * NSEC_PER_SEC, (halfNs - 10_001_020) * NSEC_PER_SEC, phc.baseArtHz);
  }

  /** Served in time, an edge reads as past, and by no more than the delay and the latency. */
  lemma ReadsPast(phc: Params, pending: s64, asked: Sample, wakeAt: s64, latencyNs: nat, art: u64, realNs: s64)
    requires phc.Tame() && InTime(phc, asked, wakeAt, latencyNs, art, realNs)
    requires asked.now.value <= pending && WakesAfter(phc, pending, asked.now.value, asked.nowReal, wakeAt)
    ensures pending < ArtToNs(phc, art).value
    ensures (ArtToNs(phc, art).value - pending) * NSEC_PER_SEC <= 10_001_000 * NSEC_PER_SEC + latencyNs * phc.Rate()
  {
    hide ArtToNs;
    MulLe(wakeAt - asked.nowReal, realNs - asked.nowReal, phc.Rate());
    MulLe(realNs - asked.nowReal, wakeAt - asked.nowReal + latencyNs, phc.Rate());
    assert (wakeAt - asked.nowReal + 1) * phc.Rate() == (wakeAt - asked.nowReal) * phc.Rate() + phc.Rate();
    assert (wakeAt - asked.nowReal + latencyNs) * phc.Rate()
        == (wakeAt - asked.nowReal) * phc.Rate() + latencyNs * phc.Rate();
  }

  /** So the counter is past the pending edge and short of the one that follows it. */
  lemma BeforeTheNextEdge(phc: Params, compv: u64, halfNs: nat, latencyNs: nat, art: u64)
    requires phc.Tame() && Roomy(phc, halfNs, latencyNs) && compv <= U64_MAX - 2
    requires ArtToNs(phc, compv + 2).Ok? && ArtToNs(phc, art).Ok?
    requires ArtToNs(phc, compv + 2).value < ArtToNs(phc, art).value
    requires (ArtToNs(phc, art).value - ArtToNs(phc, compv + 2).value) * NSEC_PER_SEC
          <= 10_001_000 * NSEC_PER_SEC + latencyNs * phc.Rate()
    ensures compv < art < compv + CyclesMag(phc, halfNs)
  {
    hide ArtToNs, CyclesMag;
    var gap := ArtToNs(phc, art).value - ArtToNs(phc, compv + 2).value;
    var hz, d, piv := phc.baseArtHz, phc.Rate(), CyclesMag(phc, halfNs);
    if art <= compv + 2 {
      ArtToNsMonotone(phc, art, compv + 2);
    }
    if compv + piv <= art {
      Spread(phc, compv + 2, art);
      CyclesCover(phc, halfNs);
      MulLe(piv - 2, art - compv - 2, d);
      assert (piv - 2) * d == piv * d - 2 * d;
      MulLe(gap * NSEC_PER_SEC, 10_001_000 * NSEC_PER_SEC + latencyNs * d, hz);
      TooLate(halfNs, gap, hz, d, latencyNs);
    }
  }

  lemma TooLate(halfNs: nat, gap: nat, hz: nat, d: nat, latencyNs: nat)
    requires halfNs * hz < (gap + 6) * hz + 2 * d + d + 2 * hz
    requires gap * NSEC_PER_SEC * hz <= (10_001_000 * NSEC_PER_SEC + latencyNs * d) * hz
    requires 0 < hz
    ensures (halfNs - 10_001_020) * NSEC_PER_SEC * hz < latencyNs * d * hz + 3 * d * NSEC_PER_SEC
  {
    assert gap * NSEC_PER_SEC * hz == (gap * hz) * NSEC_PER_SEC;
    assert (10_001_000 * NSEC_PER_SEC + latencyNs * d) * hz == 10_001_000 * NSEC_PER_SEC * hz + latencyNs * d * hz;
    assert (halfNs - 10_001_020) * NSEC_PER_SEC * hz == (halfNs * hz) * NSEC_PER_SEC - 10_001_020 * NSEC_PER_SEC * hz;
    assert (gap + 6) * hz == gap * hz + 6 * hz;
  }

  // ----- runs served in time

  /** `now` is the waveform at the counter value: every edge due by then has fired, and none that is not. */
  ghost predicate UpTo(e: Engine, now: Engine, art: int) {
    Ran(e, now) && art < now.compv && (now.count == e.count || now.compv - now.piv <= art)
  }

  lemma ExactlyOne(e: Engine, now: Engine, art: int)
    requires UpTo(e, now, art) && 0 < e.piv && e.compv <= art < e.compv + e.piv
    ensures now == e.Fire()
  {
    RunShape(e, now);
    RunCompv(e, now);
    var n := now.count - e.count;
    assert (n - 1) * e.piv == n * e.piv - e.piv;
    if 2 <= n {
      MulLe(1, n - 1, e.piv);
    }
    if n == 1 {
      OneEdge(e, now);
    }
  }

  /** Counter and real time when a visit begins and when it has ended. */
  datatype Service = Service(begin: u64, end: u64, beginReal: s64, endReal: s64)

  /** The sample by which the wake of the next visit was asked for. */
  function AskedAt(s: Schedule, w: World, v: BlockView, clock: Clock, k: nat, from: Sample): Sample
    requires v.Sane() && v.phase == HwDuty
  {
    if k == 0 then from else w(Edged(s, w, v, clock, k - 1).scene.samples)
  }

  /** The wake was asked for by this sample, after the edge pending then. */
  predicate AskedFor(phc: Params, compv: int, asked: Sample, wakeAt: s64) {
    && 0 <= compv <= U64_MAX - 2 && ArtToNs(phc, compv + 2).Ok? && asked.now.Ok?
    && WakesAfter(phc, ArtToNs(phc, compv + 2).value, asked.now.value, asked.nowReal, wakeAt)
  }

  /** The k-th visit is served in time, and edges fire when their compare is reached. */
  ghost predicate Served(s: Schedule, w: World, v: BlockView, clock: Clock, k: nat, from: Sample, latencyNs: nat,
                         at: Service)
    requires v.Sane() && v.phase == HwDuty
  {
    var before, edged, asked := Visits(s, w, v, clock, k), Edged(s, w, v, clock, k), AskedAt(s, w, v, clock, k, from);
    var e := before.scene.m.engine;
    && 0 <= e.compv <= U64_MAX - 2 && ArtToNs(clock.phc, e.compv + 2).Ok? && asked.now.Ok?
    && asked.now.value <= ArtToNs(clock.phc, e.compv + 2).value
    && RoomToWake(ArtToNs(clock.phc, e.compv + 2).value, asked.now.value, asked.nowReal)
    && InTime(clock.phc, asked, before.cadence.wakeAt, latencyNs, at.begin, at.beginReal)
    && InTime(clock.phc, asked, before.cadence.wakeAt, latencyNs, at.end, at.endReal)
    && UpTo(e, edged.scene.m.engine, at.begin)
    && (Visits(s, w, v, clock, k + 1).scene.m.engine.count == edged.scene.m.engine.count
        || edged.scene.m.engine.compv <= at.end)
  }

  /**
   * Main result: if every wake is served in time, exactly one edge precedes every visit and none
   * falls into one, so the mirror never strays and every edge consumes its own half. Each wake comes
   * from the visit before it.
   */
  lemma {:induction false} ServedInTime(s: Schedule, w: World, v: BlockView, clock: Clock, n: nat, high: u64, low: u64,
                                        from: Sample, latencyNs: nat, at: nat -> Service)
    requires clock.phc.Tame() && v.Sane() && v.phase == HwDuty && InStep(v)
    requires 0 < v.cadence.highNs && 0 < v.cadence.lowNs && 0 < high && 0 < low
    requires IntervalCycles(clock.phc, v.cadence.highNs) == Ok(high)
    requires IntervalCycles(clock.phc, v.cadence.lowNs) == Ok(low)
    requires high / TWO32 == low / TWO32 && v.scene.m.engine.piv == Wanted(v.scene.m.engine, high, low)
    requires Roomy(clock.phc, v.cadence.highNs, latencyNs) && Roomy(clock.phc, v.cadence.lowNs, latencyNs)
    requires forall k: nat :: k < n ==> Served(s, w, v, clock, k, from, latencyNs, at(k))
    requires AskedFor(clock.phc, v.scene.m.engine.compv, from, v.cadence.wakeAt)
    ensures OnePerVisit(s, w, v, clock, n)
  {
    hide Served, IntervalCycles, ArtToNs, Roomy, AskedFor, InStep, OnePerVisit, Visits, Edged, Visited, Refreshed;
    OneMoreVisit(s, w, v, clock, n);
    if 0 < n {
      ServedInTime(s, w, v, clock, n - 1, high, low, from, latencyNs, at);
      OnePerVisitIsExact(s, w, v, clock, n - 1, high, low);
      SameWordIsExact(v.scene.m.engine, high, low, n - 1);
      WakeIsAsked(s, w, v, clock, n - 1, high, low, from, latencyNs, at(n - 1));
      ServiceIsExact(s, w, v, clock, n - 1, high, low, from, latencyNs, at(n - 1));
    }
  }

  lemma OneMoreVisit(s: Schedule, w: World, v: BlockView, clock: Clock, n: nat)
    requires v.Sane() && v.phase == HwDuty
    ensures OnePerVisit(s, w, v, clock, n)
         <==> n == 0 || (&& OnePerVisit(s, w, v, clock, n - 1)
                         && Edged(s, w, v, clock, n - 1).scene.m.engine.count
                            == Visits(s, w, v, clock, n - 1).scene.m.engine.count + 1
                         && Visits(s, w, v, clock, n).scene.m.engine.count
                            == Edged(s, w, v, clock, n - 1).scene.m.engine.count)
  {
    hide Visits, Edged;
  }

  // The wake of a visit follows the edge that was pending when it was asked for.
  lemma WakeIsAsked(s: Schedule, w: World, v: BlockView, clock: Clock, k: nat, high: u64, low: u64,
                    from: Sample, latencyNs: nat, at: Service)
    requires clock.phc.Tame() && v.Sane() && v.phase == HwDuty && InStep(v) && OnePerVisit(s, w, v, clock, k)
    requires IntervalCycles(clock.phc, v.cadence.highNs) == Ok(high)
    requires IntervalCycles(clock.phc, v.cadence.lowNs) == Ok(low)
    requires Served(s, w, v, clock, k, from, latencyNs, at)
    requires AskedFor(clock.phc, v.scene.m.engine.compv, from, v.cadence.wakeAt)
    ensures var before := Visits(s, w, v, clock, k);
            AskedFor(clock.phc, before.scene.m.engine.compv, AskedAt(s, w, v, clock, k, from), before.cadence.wakeAt)
  {
    hide IntervalCycles, ArtToNs, WakesAfter, InStep, InTime, UpTo, RoomToWake, DutyOutcome, DutyPending, Later,
         OnePerVisit;
    if 0 < k {
      OnePerVisitIsExact(s, w, v, clock, k, high, low);
      VisitAsksForTheEdge(s, w, Edged(s, w, v, clock, k - 1), clock);
    }
  }

  lemma ServiceIsExact(s: Schedule, w: World, v: BlockView, clock: Clock, k: nat, high: u64, low: u64,
                       from: Sample, latencyNs: nat, at: Service)
    requires clock.phc.Tame() && v.Sane() && v.phase == HwDuty
    requires 0 < v.cadence.highNs && 0 < v.cadence.lowNs && 0 < high && 0 < low
    requires IntervalCycles(clock.phc, v.cadence.highNs) == Ok(high)
    requires IntervalCycles(clock.phc, v.cadence.lowNs) == Ok(low)
    requires Roomy(clock.phc, v.cadence.highNs, latencyNs) && Roomy(clock.phc, v.cadence.lowNs, latencyNs)
    requires Served(s, w, v, clock, k, from, latencyNs, at)
    requires var before := Visits(s, w, v, clock, k);
             && before.scene.m.engine.piv == Wanted(before.scene.m.engine, high, low)
             && AskedFor(clock.phc, before.scene.m.engine.compv, AskedAt(s, w, v, clock, k, from), before.cadence.wakeAt)
    ensures Edged(s, w, v, clock, k).scene.m.engine.count == Visits(s, w, v, clock, k).scene.m.engine.count + 1
    ensures Visits(s, w, v, clock, k + 1).scene.m.engine.count == Edged(s, w, v, clock, k).scene.m.engine.count
  {
    hide IntervalCycles, ArtToNs, WakesAfter, InTime, UpTo, RoomToWake, Roomy, Visits, Edged, CyclesMag;
    var before, asked := Visits(s, w, v, clock, k), AskedAt(s, w, v, clock, k, from);
    var e := before.scene.m.engine;
    var halfNs := if e.flop then v.cadence.lowNs else v.cadence.highNs;
    var pending := ArtToNs(clock.phc, e.compv + 2).value;
    IntervalCyclesExact(clock.phc, halfNs);
    ReadsPast(clock.phc, pending, asked, before.cadence.wakeAt, latencyNs, at.begin, at.beginReal);
    ReadsPast(clock.phc, pending, asked, before.cadence.wakeAt, latencyNs, at.end, at.endReal);
    BothReadable(clock.phc, asked, before.cadence.wakeAt, latencyNs, at);
    BeforeTheNextEdge(clock.phc, e.compv, halfNs, latencyNs, at.begin);
    BeforeTheNextEdge(clock.phc, e.compv, halfNs, latencyNs, at.end);
    ExactlyOne(e, Edged(s, w, v, clock, k).scene.m.engine, at.begin);
  }

  lemma BothReadable(phc: Params, asked: Sample, wakeAt: s64, latencyNs: nat, at: Service)
    requires InTime(phc, asked, wakeAt, latencyNs, at.begin, at.beginReal)
    requires InTime(phc, asked, wakeAt, latencyNs, at.end, at.endReal)
    ensures ArtToNs(phc, at.begin).Ok? && ArtToNs(phc, at.end).Ok?
  {
  }
}
