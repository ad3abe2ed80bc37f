/** The software-driven output: one edge per worker wake, each wake scheduled from the previous one. */
module SoftwarePath {
  import opened Arith
  import opened PhcClock
  import opened StartTiming

  datatype Cadence = Cadence(nextEdgeNs: s64, rising: bool, wakeAt: s64, highNs: Span, lowNs: Span) {

    /** The interval that follows the edge being programmed. */
    function Interval(): Span {
      if rising then highNs else lowNs
    }

    /** One wake: program the pending edge, then advance the edge and the wake from their own past. */
    function Next(phc: Params): Result<Cadence> {
      match DeltaToRealNs(phc, Interval())
      case Err(e) => Err(e)
      case Ok(realNs) =>
        if realNs == 0 then Err(OutOfRange)
        else Ok(Cadence(WrapSigned(nextEdgeNs + Interval()), !rising, WrapSigned(wakeAt + realNs), highNs, lowNs))
    }

    /** The state after one wake per clock reading; the rate may differ each time. */
    function Wakes(clocks: seq<Params>): Result<Cadence> {
      if clocks == [] then Ok(this)
      else
        match Wakes(clocks[..|clocks| - 1])
        case Err(e) => Err(e)
        case Ok(before) => before.Next(clocks[|clocks| - 1])
    }

    /** When the k-th edge after this one is due, on unbounded integers. */
    function EdgeDue(k: nat): int {
      if k == 0 then nextEdgeNs
      else EdgeDue(k - 1) + (if rising != Odd(k - 1) then highNs else lowNs)
    }

    /** When the k-th wake after this one is due at a constant rate, on unbounded integers. */
    function WakeDue(phc: Params, k: nat): int {
      if k == 0 then wakeAt
      else
        var interval: Span := if rising != Odd(k - 1) then highNs else lowNs;
        match DeltaToRealNs(phc, interval)
        case Err(_) => WakeDue(phc, k - 1)
        case Ok(realNs) => WakeDue(phc, k - 1) + realNs
    }
  }

  /** Edges alternate and every edge is due an exact sum of intervals after the first, whatever the rate did. */
  lemma {:induction false} EdgesOnSchedule(c: Cadence, clocks: seq<Params>)
    requires c.Wakes(clocks).Ok?
    ensures var now := c.Wakes(clocks).value;
            && now.rising == (c.rising != Odd(|clocks|))
            && now.highNs == c.highNs && now.lowNs == c.lowNs
            && now.nextEdgeNs == WrapSigned(c.EdgeDue(|clocks|))
  {
    hide DeltaToRealNs, WrapSigned;
    if clocks == [] {
      WrapSignedIdentity(c.nextEdgeNs);
    } else {
      EdgesOnSchedule(c, clocks[..|clocks| - 1]);
      var before := c.Wakes(clocks[..|clocks| - 1]).value;
      WrapSignedAdd(c.EdgeDue(|clocks| - 1), before.Interval());
    }
  }

  /** The k-th rise is due first + k * (high + low), and the k-th fall a high time later: no drift. */
  lemma {:induction false} NoDrift(c: Cadence, k: nat)
    requires c.rising
    ensures c.EdgeDue(2 * k) == c.nextEdgeNs + k * (c.highNs + c.lowNs)
    ensures c.EdgeDue(2 * k + 1) == c.EdgeDue(2 * k) + c.highNs
  {
    if 0 < k {
      NoDrift(c, k - 1);
      MulStep(k, c.highNs + c.lowNs);
      assert c.EdgeDue(2 * k) == c.EdgeDue(2 * (k - 1) + 1) + c.lowNs;
    }
  }

  /** At a constant rate the k-th wake happens when WakeDue says. */
  lemma {:induction false} WakesOnSchedule(c: Cadence, phc: Params, clocks: seq<Params>)
    requires forall i :: 0 <= i < |clocks| ==> clocks[i] == phc
    requires c.Wakes(clocks).Ok?
    ensures c.Wakes(clocks).value.wakeAt == WrapSigned(c.WakeDue(phc, |clocks|))
  {
    hide DeltaToRealNs, WrapSigned;
    if clocks == [] {
      WrapSignedIdentity(c.wakeAt);
    } else {
      var rest := clocks[..|clocks| - 1];
      WakesOnSchedule(c, phc, rest);
      EdgesOnSchedule(c, rest);
      var before := c.Wakes(rest).value;
      WrapSignedAdd(c.WakeDue(phc, |clocks| - 1), DeltaToRealNs(phc, before.Interval()).value);
    }
  }

  /**
   * How long the k-th wake precedes its edge, relative to the first, in units of 1/Rate real
   * nanoseconds: elapsed clock time costs 1e9 / Rate of real time.
   */
  function LeadGain(c: Cadence, phc: Params, k: nat): int {
    (c.EdgeDue(k) - c.nextEdgeNs) * NSEC_PER_SEC - (c.WakeDue(phc, k) - c.wakeAt) * phc.Rate()
  }

  /** Main result: the lead never shrinks and grows by less than one real nanosecond per half. */
  lemma LeadNeverShrinks(c: Cadence, phc: Params, k: nat)
    requires phc.Tame()
    requires DeltaToRealNs(phc, c.highNs).Ok? && DeltaToRealNs(phc, c.lowNs).Ok?
    ensures LeadGain(c, phc, k) <= LeadGain(c, phc, k + 1) < LeadGain(c, phc, k) + phc.Rate()
  {
    hide DeltaToRealNs, Params.Ppb, Params.Rate;
    var interval: Span := if c.rising != Odd(k) then c.highNs else c.lowNs;
    var realNs := DeltaToRealNs(phc, interval).value;
    RealWithinOne(phc, interval);
    var e, w := c.EdgeDue(k) - c.nextEdgeNs, c.WakeDue(phc, k) - c.wakeAt;
    assert c.EdgeDue(k + 1) - c.nextEdgeNs == e + interval;
    assert c.WakeDue(phc, k + 1) - c.wakeAt == w + realNs;
    assert (w + realNs) * phc.Rate() == w * phc.Rate() + realNs * phc.Rate();
  }

  lemma RealWithinOne(phc: Params, interval: Span)
    requires phc.Tame() && DeltaToRealNs(phc, interval).Ok?
    ensures var realNs := DeltaToRealNs(phc, interval).value;
            realNs * phc.Rate() <= interval * NSEC_PER_SEC < realNs * phc.Rate() + phc.Rate()
  {
    AdjustedToBaseExact(interval, phc.Ppb());
    BaseBounds(interval, phc.Ppb());
  }

  /** Over k halves the lead gains less than k real nanoseconds and never loses any. */
  lemma {:induction false} LeadBounded(c: Cadence, phc: Params, k: nat)
    requires phc.Tame()
    requires DeltaToRealNs(phc, c.highNs).Ok? && DeltaToRealNs(phc, c.lowNs).Ok?
    ensures 0 <= LeadGain(c, phc, k) <= k * phc.Rate()
    ensures 0 < k ==> LeadGain(c, phc, k) < k * phc.Rate()
  {
    if 0 < k {
      LeadBounded(c, phc, k - 1);
      LeadNeverShrinks(c, phc, k - 1);
      MulStep(k, phc.Rate());
    }
  }
}
