/** The realtime-rate estimate: a ring of recent counter/clock samples and the ratio published from it. */
module RateRing {
  import opened Arith
  import opened StartTiming

  const RING: int := 8
  const MIN_WINDOW_NS: int := 4_000_000_000

  /** The counter and CLOCK_REALTIME at one instant, and how often the clock had been set. */
  datatype Sample = Sample(art: u64, realNs: s64, setSeq: u32)

  datatype Rate = Rate(artCycles: u64, realNs: u64)

  const NO_RATE: Rate := Rate(0, 0)

  /** What a new sample means against the oldest one retained. */
  datatype Verdict = Fresh | ClockSet | WentBack | TooShort | Publish(rate: Rate)

  /** The samples kept since the last reset, oldest first, and the rate in force. */
  datatype Estimate = Estimate(kept: seq<Sample>, rate: Rate) {

    function Judge(sample: Sample): Verdict {
      if kept == [] then Fresh
      else
        var oldest := kept[0];
        if sample.setSeq != oldest.setSeq then ClockSet
        else if sample.art <= oldest.art || sample.realNs <= oldest.realNs then WentBack
        else if WrapSigned(sample.realNs - oldest.realNs) < MIN_WINDOW_NS then TooShort
        else Publish(Rate(sample.art - oldest.art, WrapSigned(sample.realNs - oldest.realNs)))
    }

    /** A step drops the samples and keeps the rate; a counter or clock going back drops both. */
    function Add(sample: Sample): Estimate {
      match Judge(sample)
      case Fresh => Estimate([sample], rate)
      case ClockSet => Estimate([sample], rate)
      case WentBack => Estimate([sample], NO_RATE)
      case TooShort => Estimate(Last(kept + [sample]), rate)
      case Publish(published) => Estimate(Last(kept + [sample]), published)
    }

    function AddAll(samples: seq<Sample>): Estimate {
      if samples == [] then this
      else AddAll(samples[..|samples| - 1]).Add(samples[|samples| - 1])
    }

    /** No sample of these drops the ones before it. */
    predicate Unbroken(samples: seq<Sample>) {
      samples == [] ||
      (Unbroken(samples[..|samples| - 1]) && !Resets(AddAll(samples[..|samples| - 1]).Judge(samples[|samples| - 1])))
    }
  }

  function Last(samples: seq<Sample>): seq<Sample> {
    if |samples| <= RING then samples else samples[|samples| - RING..]
  }

  lemma LastAt(samples: seq<Sample>, sample: Sample)
    requires |samples| <= RING
    ensures var next := Last(samples + [sample]);
            if |samples| < RING then next == samples + [sample]
            else next == samples[1..] + [sample]
  {
  }

  lemma LastStep(samples: seq<Sample>, sample: Sample)
    ensures Last(Last(samples) + [sample]) == Last(samples + [sample])
  {
  }

  /** A ring whose next free slot is `head` holds these samples, the oldest first. */
  predicate Holds(slots: seq<Sample>, head: nat, kept: seq<Sample>) {
    && |slots| == RING && head < RING && |kept| <= RING
    && (if |kept| < RING then head == |kept| && kept == slots[..head] else kept == slots[head..] + slots[..head])
  }

  lemma StoreHolds(slots: seq<Sample>, head: nat, kept: seq<Sample>, sample: Sample)
    requires Holds(slots, head, kept)
    ensures head < |slots| && |kept| <= RING
    ensures Holds(slots[head := sample], (head + 1) % RING, Last(kept + [sample]))
  {
    hide Last;
    LastAt(kept, sample);
    SetSplits(slots, head, sample);
    if |kept| == RING {
      DropFirst(slots, head);
      assert Last(kept + [sample]) == kept[1..] + [sample];
    }
    var after := slots[head := sample];
    assert after[RING..] + after[..RING] == after[0..] + after[..0];
  }

  lemma SetSplits(slots: seq<Sample>, head: nat, sample: Sample)
    requires head < |slots|
    ensures var after := slots[head := sample];
            after[..head + 1] == slots[..head] + [sample] && after[head + 1..] == slots[head + 1..]
  {
  }

  lemma DropFirst(slots: seq<Sample>, head: nat)
    requires head < |slots|
    ensures (slots[head..] + slots[..head])[1..] == slots[head + 1..] + slots[..head]
  {
  }

  class Ring {
    const slots: array<Sample>
    var head: nat
    var count: nat
    var rate: Rate
    ghost var kept: seq<Sample>

    constructor ()
      ensures Valid() && Contents() == Estimate([], NO_RATE) && fresh(slots)
    {
      slots := new Sample[RING](i => Sample(0, 0, 0));
      head, count, rate, kept := 0, 0, NO_RATE, [];
    }

    ghost predicate Valid()
      reads this, slots
    {
      slots.Length == RING && count == |kept| && Holds(slots[..], head, kept)
    }

    ghost function Contents(): Estimate
      reads this
    {
      Estimate(kept, rate)
    }

    /** One refinement tick with a usable sample. */
    method Push(sample: Sample)
      requires Valid()
      modifies this, slots
      ensures Valid() && Contents() == old(Contents()).Add(sample)
    {
      hide WrapSigned, Holds;
      if count != 0 {
        var oldest := Oldest();
        var delta := WrapSigned(sample.realNs - oldest.realNs);
        if sample.setSeq != oldest.setSeq {
          Reset();
        } else if sample.art <= oldest.art || sample.realNs <= oldest.realNs {
          Reset();
          rate := NO_RATE;
        } else if delta >= MIN_WINDOW_NS {
          rate := Rate(sample.art - oldest.art, delta);
        }
      }
      Store(sample);
    }

    /** The earliest sample retained. */
    method Oldest() returns (sample: Sample)
      requires Valid() && count != 0
      ensures sample == kept[0]
    {
      sample := slots[if count < RING then 0 else head];
    }

    method Reset()
      requires Valid()
      modifies this`count, this`head, this`kept
      ensures Valid() && kept == []
    {
      count, head, kept := 0, 0, [];
    }

    method Store(sample: Sample)
      requires Valid()
      modifies this`head, this`count, this`kept, slots
      ensures Valid() && kept == Last(old(kept) + [sample])
    {
      hide Last, Holds;
      StoreHolds(slots[..], head, kept, sample);
      LastAt(kept, sample);
      slots[head] := sample;
      kept := Last(kept + [sample]);
      head := (head + 1) % RING;
      if count < RING {
        count := count + 1;
      }
    }
  }

  /** The estimate after every usable sample so far. */
  function After(samples: seq<Sample>): Estimate {
    Estimate([], NO_RATE).AddAll(samples)
  }

  /** Samples i and j, at most a ring apart and with no clock step between, span the published window. */
  predicate Measured(samples: seq<Sample>, i: nat, j: nat, rate: Rate) {
    && i < j < |samples| && j <= i + RING
    && samples[i].setSeq == samples[j].setSeq
    && 0 < rate.artCycles == samples[j].art - samples[i].art
    && MIN_WINDOW_NS <= rate.realNs == samples[j].realNs - samples[i].realNs
  }

  ghost predicate Sound(samples: seq<Sample>, e: Estimate) {
    && |e.kept| <= |samples| && |e.kept| <= RING && (samples != [] ==> e.kept != [])
    && e.kept == samples[|samples| - |e.kept|..]
    && (forall k :: 0 <= k < |e.kept| ==> e.kept[k].setSeq == e.kept[0].setSeq)
    && (e.rate == NO_RATE || exists i: nat, j: nat :: Measured(samples, i, j, e.rate))
  }

  /**
   * What each sample does to the published rate: it is the counter's and the clock's advance since the
   * oldest sample kept, if both advanced under one setting for four seconds or more; it is dropped if
   * either went back; and otherwise it stays. The samples are dropped if either went back or the
   * clock was set; otherwise the latest eight stay.
   */
  lemma PublishesTheAdvance(e: Estimate, sample: Sample)
    ensures var next := e.Add(sample);
            if e.kept == [] || sample.setSeq != e.kept[0].setSeq then next.rate == e.rate
            else
              var cycles, ns := sample.art - e.kept[0].art, sample.realNs - e.kept[0].realNs;
              && (cycles <= 0 || ns <= 0 ==> next.rate == NO_RATE)
              && (0 < cycles && 4_000_000_000 <= ns <= S64_MAX ==> next.rate == Rate(cycles, ns))
              && (0 < cycles && 0 < ns < 4_000_000_000 ==> next.rate == e.rate)
    ensures var dropped := e.kept == [] || sample.setSeq != e.kept[0].setSeq
                           || sample.art <= e.kept[0].art || sample.realNs <= e.kept[0].realNs;
            e.Add(sample).kept == if dropped then [sample]
                                  else if |e.kept| < 8 then e.kept + [sample]
                                  else (e.kept + [sample])[|e.kept| - 7..]
  {
    if e.kept != [] && 0 < sample.realNs - e.kept[0].realNs <= S64_MAX {
      WrapSignedIdentity(sample.realNs - e.kept[0].realNs);
    }
  }

  /**
   * Main result: at any time the ring holds the latest samples, no more than eight, all taken under
   * one clock setting; and a published rate is the positive ratio of two samples of one setting at
   * most eight apart that span at least four seconds.
   */
  lemma {:induction false} EveryRateIsMeasured(samples: seq<Sample>)
    ensures Sound(samples, After(samples))
  {
    hide Sound, Estimate.Add;
    if samples == [] {
      NothingIsSound();
    } else {
      var rest, sample := samples[..|samples| - 1], samples[|samples| - 1];
      EveryRateIsMeasured(rest);
      AddIsSound(rest, After(rest), sample);
      assert rest + [sample] == samples;
    }
  }

  lemma NothingIsSound()
    ensures Sound([], After([]))
  {
  }

  lemma AddIsSound(samples: seq<Sample>, e: Estimate, sample: Sample)
    requires Sound(samples, e)
    ensures Sound(samples + [sample], e.Add(sample))
  {
    hide Estimate.Add, Last, Measured;
    KeptIsSuffix(samples, e, sample);
    KeptHasOneSetting(e, sample);
    RateIsMeasured(samples, e, sample);
  }

  lemma KeptIsSuffix(samples: seq<Sample>, e: Estimate, sample: Sample)
    requires |e.kept| <= |samples| && |e.kept| <= RING && e.kept == samples[|samples| - |e.kept|..]
    ensures var more, next := samples + [sample], e.Add(sample).kept;
            0 < |next| <= |more| && |next| <= RING && next == more[|more| - |next|..]
  {
    hide Last;
    Suffix(samples, e.kept, sample);
    if e.kept != [] && !Resets(e.Judge(sample)) {
      AddKeepsLast(e, sample);
      LastAt(e.kept, sample);
      if |e.kept| == RING {
        Suffix(samples, e.kept[1..], sample);
      }
    } else {
      Suffix(samples, [], sample);
      assert [] + [sample] == [sample];
    }
  }

  lemma KeptHasOneSetting(e: Estimate, sample: Sample)
    requires |e.kept| <= RING && forall k :: 0 <= k < |e.kept| ==> e.kept[k].setSeq == e.kept[0].setSeq
    ensures var next := e.Add(sample).kept;
            forall k :: 0 <= k < |next| ==> next[k].setSeq == next[0].setSeq
  {
    hide Last;
    if e.kept != [] && !Resets(e.Judge(sample)) {
      AddKeepsLast(e, sample);
      LastAt(e.kept, sample);
    }
  }

  // A suffix of the samples, extended by the next one.
  lemma Suffix(samples: seq<Sample>, kept: seq<Sample>, sample: Sample)
    requires |kept| <= |samples| && kept == samples[|samples| - |kept|..]
    ensures kept + [sample] == (samples + [sample])[|samples| - |kept|..]
  {
  }

  lemma RateIsMeasured(samples: seq<Sample>, e: Estimate, sample: Sample)
    requires Sound(samples, e)
    ensures var more, rate := samples + [sample], e.Add(sample).rate;
            rate == NO_RATE || exists i: nat, j: nat :: Measured(more, i, j, rate)
  {
    hide Last;
    var more := samples + [sample];
    if e.rate != NO_RATE {
      var i: nat, j: nat :| Measured(samples, i, j, e.rate);
      assert Measured(more, i, j, e.rate);
    }
    if e.Judge(sample).Publish? {
      DeltaIsExact(sample.realNs - e.kept[0].realNs);
      assert samples[|samples| - |e.kept|] == e.kept[0];
      assert Measured(more, |samples| - |e.kept|, |samples|, e.Add(sample).rate);
    }
  }

  lemma DeltaIsExact(d: int)
    requires 0 < d < TWO64
    ensures 0 <= WrapSigned(d) ==> WrapSigned(d) == d
  {
    WrapIdentity(d);
  }

  /** Until the next reset the ring holds exactly the last eight samples since the previous one. */
  lemma {:induction false} HoldsTheLastEight(e: Estimate, samples: seq<Sample>)
    requires e.kept != [] && |e.kept| <= RING && e.Unbroken(samples)
    ensures e.AddAll(samples).kept == Last(e.kept + samples) && e.AddAll(samples).kept != []
  {
    if samples == [] {
      assert e.kept + samples == e.kept;
    } else {
      hide Last, Estimate.Judge;
      var rest, sample := samples[..|samples| - 1], samples[|samples| - 1];
      HoldsTheLastEight(e, rest);
      AddKeepsLast(e.AddAll(rest), sample);
      LastStep(e.kept + rest, sample);
      SplitLast(e.kept, samples);
    }
  }

  lemma SplitLast(a: seq<Sample>, b: seq<Sample>)
    requires b != []
    ensures a + b[..|b| - 1] + [b[|b| - 1]] == a + b
  {
  }

  lemma AddKeepsLast(e: Estimate, sample: Sample)
    requires e.kept != [] && !Resets(e.Judge(sample))
    ensures e.Add(sample).kept == Last(e.kept + [sample]) && e.Add(sample).kept != []
  {
  }

  predicate Resets(verdict: Verdict) {
    verdict.ClockSet? || verdict.WentBack?
  }
}
