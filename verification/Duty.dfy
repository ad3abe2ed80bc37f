/** An asymmetric waveform: the service rewrites the interval after every edge. */
module Duty {
  import opened Arith
  import opened Arming
  import opened LinuxSpec
  import opened PhcClock
  import opened SoftwarePath
  import opened StartTiming
  import opened ToggleEngine

  /** The interval the pending edge must consume: a rise the high time, a fall the low time. */
  function Wanted(e: Engine, high: u64, low: u64): u64 {
    if e.flop then low else high
  }

  /** One visit with a right mirror, at constant rate. */
  function Visit(e: Engine, high: u64, low: u64): Engine
    requires 0 <= e.piv < TWO64
  {
    e.(piv := Refreshed(e.piv, Ok(Wanted(e, high, low))))
  }

  /** The engine after n edges, visited once after each. */
  function Visited(e: Engine, high: u64, low: u64, n: nat): (r: Engine)
    requires 0 <= e.piv < TWO64
    ensures 0 <= r.piv < TWO64
  {
    if n == 0 then e else Visit(Visited(e, high, low, n - 1).Fire(), high, low)
  }

  /** Every edge of a visited run consumes the half that follows it. */
  ghost predicate Exact(e: Engine, high: u64, low: u64)
    requires 0 <= e.piv < TWO64
  {
    forall n: nat :: Visited(e, high, low, n).piv == Wanted(Visited(e, high, low, n), high, low)
  }

  lemma {:induction false} SameWordIsExact(e: Engine, high: u64, low: u64, n: nat)
    requires 0 < high && 0 < low && e.piv == Wanted(e, high, low)
    requires high / TWO32 == low / TWO32
    ensures Visited(e, high, low, n).piv == Wanted(Visited(e, high, low, n), high, low)
  {
    if 0 < n {
      SameWordIsExact(e, high, low, n - 1);
    }
  }

  /**
   * Main result: a duty waveform is exact forever if and only if both halves share the high word of
   * the interval register. Otherwise the first visit already fails to rewrite it.
   */
  lemma ExactIff(e: Engine, high: u64, low: u64)
    requires 0 < high && 0 < low && high != low && e.piv == Wanted(e, high, low)
    ensures Exact(e, high, low) <==> high / TWO32 == low / TWO32
  {
    if high / TWO32 == low / TWO32 {
      forall n: nat ensures Visited(e, high, low, n).piv == Wanted(Visited(e, high, low, n), high, low) {
        SameWordIsExact(e, high, low, n);
      }
    } else {
      assert Visited(e, high, low, 0) == e;
      assert Visited(e, high, low, 1) == Visit(e.Fire(), high, low);
      assert Visited(e, high, low, 1).piv != Wanted(Visited(e, high, low, 1), high, low);
    }
  }

  /** In an exact run consecutive edges are a high time apart after a rise and a low time apart after a fall. */
  lemma {:induction false} HalvesAreExact(e: Engine, high: u64, low: u64, k: nat)
    requires 0 < high && 0 < low && e.piv == Wanted(e, high, low) && !e.flop
    requires high / TWO32 == low / TWO32
    ensures Visited(e, high, low, 2 * k).compv == e.compv + k * (high + low) && !Visited(e, high, low, 2 * k).flop
    ensures Visited(e, high, low, 2 * k + 1).compv == e.compv + k * (high + low) + high
    ensures Visited(e, high, low, 2 * k + 1).flop
  {
    hide Refreshed;
    if 0 < k {
      HalvesAreExact(e, high, low, k - 1);
      SameWordIsExact(e, high, low, 2 * k - 1);
      MulStep(k, high + low);
      assert Visited(e, high, low, 2 * k) == Visit(Visited(e, high, low, 2 * k - 1).Fire(), high, low);
    }
    SameWordIsExact(e, high, low, 2 * k);
    assert Visited(e, high, low, 2 * k + 1) == Visit(Visited(e, high, low, 2 * k).Fire(), high, low);
  }

  /** From either level, every rise of a visited run is on the grid of the first one. */
  lemma {:induction false} DutyRisesOnGrid(e: Engine, high: u64, low: u64, start: int, n: nat)
    requires 0 < high && 0 < low && e.piv == Wanted(e, high, low) && high / TWO32 == low / TWO32
    requires (FirstRise(e.compv, low, e.flop) - start) % (high + low) == 0
    ensures var now := Visited(e, high, low, n);
            && (FirstRise(now.compv, low, now.flop) - start) % (high + low) == 0
            && now.edges.RisesOnGrid(n, start, high + low)
  {
    hide Refreshed;
    if 0 < n {
      DutyRisesOnGrid(e, high, low, start, n - 1);
      SameWordIsExact(e, high, low, n - 1);
      var before, now := Visited(e, high, low, n - 1), Visited(e, high, low, n);
      assert now == Visit(before.Fire(), high, low);
      var k := if before.flop then 0 else 1;
      assert FirstRise(now.compv, low, now.flop) - start
          == FirstRise(before.compv, low, before.flop) - start + k * (high + low);
      DivAddMultiple(FirstRise(before.compv, low, before.flop) - start, k, high + low);
    }
  }

  /**
   * The next visit lands after the pending edge and at most the service delay later, by the clock;
   * every half is at least five times that long.
   */
  lemma VisitFollowsTheEdge(phc: Params, pending: s64, now: s64)
    requires phc.Tame() && now <= pending && pending - now + DUTY_SERVICE_DELAY_NS <= S64_MAX
    requires DeltaToRealNs(phc, pending - now + DUTY_SERVICE_DELAY_NS).Ok?
    ensures var shown := DutyDelay(phc, Ok(pending), Ok(now)) * phc.Rate();
            (pending - now) * NSEC_PER_SEC < shown <= (pending - now + DUTY_SERVICE_DELAY_NS) * NSEC_PER_SEC
  {
    hide DeltaToRealNs, WrapSigned;
    WrapSignedIdentity(pending - now);
    WrapSignedIdentity(pending - now + DUTY_SERVICE_DELAY_NS);
    RealWithinOne(phc, pending - now + DUTY_SERVICE_DELAY_NS);
  }
}
