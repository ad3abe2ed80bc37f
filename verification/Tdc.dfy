/** Time-to-digital pairing: captures on two inputs become signed start-to-stop durations. */
module Tdc {
  import opened Arith
  import opened PhcClock
  import opened StartTiming

  const MAX_SANE_DELTA: int := 4096

  /** A capture: the input it came from, its counter value, the event counter's advance, and the clock then. */
  datatype Capture = Capture(block: bool, art: u64, eventDelta: u64, phc: Params)

  // ----- the trace specification

  /** Capture j completes a pair with the capture right before it, which was still waiting. */
  predicate Completes(captures: seq<Capture>, j: nat)
    requires j < |captures|
  {
    0 < j && captures[j].block != captures[j - 1].block && !Completes(captures, j - 1)
  }

  /** The last capture is waiting for one on the other input. */
  predicate Waiting(captures: seq<Capture>) {
    captures != [] && !Completes(captures, |captures| - 1)
  }

  /** Stop minus start, if the clock can express it. */
  function Duration(firstArt: u64, second: Capture, start: bool): Result<s64> {
    var startArt := if second.block == start then second.art else firstArt;
    var stopArt := if second.block == start then firstArt else second.art;
    Directed(stopArt - startArt, ArtCyclesToDeltaNs(second.phc, Mag(stopArt - startArt)))
  }

  function Directed(difference: int, magnitude: Result<u64>): Result<s64> {
    match magnitude
    case Err(e) => Err(e)
    case Ok(ns) => if ns > S64_MAX then Err(OutOfRange) else Ok(Signed(difference, ns))
  }

  /** Every recorded measurement, in order. A pair whose duration cannot be converted is dropped. */
  function Measurements(captures: seq<Capture>, start: bool): seq<s64> {
    if captures == [] then []
    else
      var j := |captures| - 1;
      var before := Measurements(captures[..j], start);
      if Completes(captures, j) && Duration(captures[j - 1].art, captures[j], start).Ok?
      then before + [Duration(captures[j - 1].art, captures[j], start).value] else before
  }

  function Sum(values: seq<s64>): int {
    if values == [] then 0 else Sum(values[..|values| - 1]) + values[|values| - 1]
  }

  predicate Bounds(values: seq<s64>, low: s64, high: s64) {
    && (forall i :: 0 <= i < |values| ==> low <= values[i] <= high)
    && low in values && high in values
  }

  /** Events the hardware counted beyond the captures, ignoring counter restarts. */
  function Lost(captures: seq<Capture>): nat {
    if captures == [] then 0
    else
      var delta := captures[|captures| - 1].eventDelta;
      Lost(captures[..|captures| - 1]) + if 1 < delta <= MAX_SANE_DELTA then delta - 1 else 0
  }

  class Pairing {
    /** Which input is the start. */
    const start: bool
    var pending: bool
    var pendingBlock: bool
    var pendingArt: u64
    var count: nat
    var lastCycles: u64
    var lastNs: s64
    var minNs: s64
    var maxNs: s64
    var sumNs: s64
    var lost: nat
    ghost var captures: seq<Capture>

    constructor (start: bool)
      ensures Valid() && this.start == start && captures == []
    {
      this.start := start;
      pending, pendingBlock, pendingArt := false, false, 0;
      count, lastCycles, lastNs, minNs, maxNs, sumNs, lost := 0, 0, 0, 0, 0, 0, 0;
      captures := [];
    }

    /** The fields are what the trace of captures says. */
    ghost predicate Valid()
      reads this
    {
      && pending == Waiting(captures)
      && (pending ==> pendingBlock == captures[|captures| - 1].block && pendingArt == captures[|captures| - 1].art)
      && lost == Lost(captures)
      && Recorded(Measurements(captures, start))
    }

    ghost predicate Recorded(values: seq<s64>)
      reads this`count, this`lastNs, this`minNs, this`maxNs, this`sumNs
    {
      && count == |values| && sumNs == WrapSigned(Sum(values))
      && (values != [] ==> lastNs == values[|values| - 1] && Bounds(values, minNs, maxNs))
    }

    /** One capture with the pairing switched on. */
    method Record(capture: Capture)
      requires Valid()
      modifies this
      ensures Valid() && captures == old(captures) + [capture]
    {
      hide Completes, Waiting, Measurements, Lost, Duration, Recorded;
      var delta := capture.eventDelta;
      if delta > 1 && delta <= MAX_SANE_DELTA {
        lost := lost + (delta - 1);
      }
      ghost var earlier := captures;
      captures := captures + [capture];
      Extend(earlier, capture, start);
      if !pending || pendingBlock == capture.block {
        pending, pendingBlock, pendingArt := true, capture.block, capture.art;
        return;
      }
      Complete(capture, Measurements(earlier, start));
    }

    /** Measure from the waiting capture to this one. */
    method Complete(capture: Capture, ghost values: seq<s64>)
      requires Recorded(values)
      modifies this`pending, this`count, this`lastCycles, this`lastNs, this`minNs, this`maxNs, this`sumNs
      ensures !pending
      ensures var duration := Duration(old(pendingArt), capture, start);
              Recorded(if duration.Ok? then values + [duration.value] else values)
    {
      hide ArtCyclesToDeltaNs;
      var startArt, stopArt;
      if capture.block == start {
        startArt, stopArt := capture.art, pendingArt;
      } else {
        startArt, stopArt := pendingArt, capture.art;
      }
      pending := false;
      var negative := stopArt < startArt;
      var cycles := if negative then startArt - stopArt else stopArt - startArt;
      var duration := ArtCyclesToDeltaNs(capture.phc, cycles);
      if duration.Err? || duration.value > S64_MAX {
        return;
      }
      Add(cycles, if negative then -duration.value else duration.value, values);
    }

    method Add(cycles: u64, signedNs: s64, ghost values: seq<s64>)
      requires Recorded(values)
      modifies this`count, this`lastCycles, this`lastNs, this`minNs, this`maxNs, this`sumNs
      ensures Recorded(values + [signedNs]) && lastCycles == cycles
    {
      assert (values + [signedNs])[..|values|] == values;
      WrapSignedAdd(Sum(values), signedNs);
      count := count + 1;
      lastCycles := cycles;
      lastNs := signedNs;
      if count == 1 || signedNs < minNs {
        minNs := signedNs;
      }
      if count == 1 || signedNs > maxNs {
        maxNs := signedNs;
      }
      sumNs := WrapSigned(sumNs + signedNs);
    }
  }

  // What one more capture does to the trace functions.
  lemma Extend(captures: seq<Capture>, capture: Capture, start: bool)
    ensures var more := captures + [capture];
            && Lost(more) == Lost(captures) +
                 (if 1 < capture.eventDelta <= MAX_SANE_DELTA then capture.eventDelta - 1 else 0)
            && Completes(more, |captures|) == (Waiting(captures) && captures[|captures| - 1].block != capture.block)
            && Waiting(more) == !Completes(more, |captures|)
            && Measurements(more, start) ==
                 if Completes(more, |captures|) && Duration(captures[|captures| - 1].art, capture, start).Ok?
                 then Measurements(captures, start) + [Duration(captures[|captures| - 1].art, capture, start).value]
                 else Measurements(captures, start)
  {
    hide Duration;
    var more := captures + [capture];
    assert more[..|captures|] == captures;
    forall j: nat | j < |captures| ensures Completes(more, j) == Completes(captures, j) {
      CompletesPrefix(captures, capture, j);
    }
  }

  lemma {:induction false} CompletesPrefix(captures: seq<Capture>, capture: Capture, j: nat)
    requires j < |captures|
    ensures Completes(captures + [capture], j) == Completes(captures, j)
  {
    if 0 < j {
      CompletesPrefix(captures, capture, j - 1);
    }
  }

  // ----- what the trace specification promises

  /** How many captures up to j alternate inputs without a break. */
  function Alternating(captures: seq<Capture>, j: nat): nat
    requires j < |captures|
  {
    if j == 0 || captures[j].block == captures[j - 1].block then 0 else Alternating(captures, j - 1) + 1
  }

  /** A capture completes a pair exactly at every second one of an alternating stretch. */
  lemma {:induction false} CompletesEverySecond(captures: seq<Capture>, j: nat)
    requires j < |captures|
    ensures Completes(captures, j) <==> Odd(Alternating(captures, j))
  {
    if 0 < j {
      CompletesEverySecond(captures, j - 1);
    }
  }

  function Pairs(captures: seq<Capture>): nat {
    if captures == [] then 0
    else Pairs(captures[..|captures| - 1]) + if Completes(captures, |captures| - 1) then 1 else 0
  }

  /** Captures that replaced a waiting one of the same input. */
  function Rearms(captures: seq<Capture>): nat {
    if captures == [] then 0
    else
      var j := |captures| - 1;
      Rearms(captures[..j]) + if 0 < j && !Completes(captures, j) && !Completes(captures, j - 1) then 1 else 0
  }

  /** Every capture is one half of a pair, was replaced, or is still waiting. */
  lemma {:induction false} CapturesAreConserved(captures: seq<Capture>)
    ensures |captures| == 2 * Pairs(captures) + Rearms(captures) + (if Waiting(captures) then 1 else 0)
  {
    if captures != [] {
      var j := |captures| - 1;
      var rest := captures[..j];
      CapturesAreConserved(rest);
      assert rest + [captures[j]] == captures;
      if 0 < j {
        CompletesPrefix(rest, captures[j], j - 1);
      }
    }
  }

  /** A dropped duration still consumes its pair: never more measurements than pairs. */
  lemma {:induction false} NoMoreThanPairs(captures: seq<Capture>, start: bool)
    ensures |Measurements(captures, start)| <= Pairs(captures)
  {
    hide Duration;
    if captures != [] {
      NoMoreThanPairs(captures[..|captures| - 1], start);
    }
  }

  /** Nothing but a duration the clock cannot express is dropped. */
  lemma {:induction false} NothingElseIsDropped(captures: seq<Capture>, start: bool)
    requires forall j :: 0 < j < |captures| && Completes(captures, j) ==>
               Duration(captures[j - 1].art, captures[j], start).Ok?
    ensures |Measurements(captures, start)| == Pairs(captures)
  {
    hide Duration;
    if captures != [] {
      var j := |captures| - 1;
      assert captures[..j] + [captures[j]] == captures;
      forall i | 0 < i < j && Completes(captures[..j], i)
        ensures Duration(captures[..j][i - 1].art, captures[..j][i], start).Ok?
      {
        CompletesPrefix(captures[..j], captures[j], i);
      }
      NothingElseIsDropped(captures[..j], start);
    }
  }

  /** The events the hardware counted over the captures. */
  function Events(captures: seq<Capture>): nat {
    if captures == [] then 0 else Events(captures[..|captures| - 1]) + captures[|captures| - 1].eventDelta
  }

  /** While the event counter advances plausibly, every event was captured or counts as lost. */
  lemma {:induction false} EventsAreConserved(captures: seq<Capture>)
    requires forall c :: c in captures ==> 1 <= c.eventDelta <= 4096
    ensures Events(captures) == |captures| + Lost(captures)
  {
    if captures != [] {
      EventsAreConserved(captures[..|captures| - 1]);
      assert captures[|captures| - 1] in captures;
    }
  }

  function Negated(values: seq<int>): seq<int> {
    if values == [] then [] else Negated(values[..|values| - 1]) + [-values[|values| - 1]]
  }

  /** A duration is what the cycles between start and stop are worth, positive when the stop comes after its start. */
  lemma StopAfterStart(firstArt: u64, second: Capture, start: bool)
    requires Duration(firstArt, second, start).Ok?
    ensures var d := Duration(firstArt, second, start).value;
            var later := if second.block != start then firstArt <= second.art else second.art <= firstArt;
            var apart := ArtCyclesToDeltaNs(second.phc, Mag(second.art - firstArt));
            && (later ==> 0 <= d) && (!later ==> d <= 0)
            && apart == Ok(Mag(d))
  {
    hide ArtCyclesToDeltaNs;
    assert Mag(second.art - firstArt) == Mag(firstArt - second.art);
  }

  /** Swapping the roles of the inputs negates every measurement and changes nothing else. */
  lemma {:induction false} SwappedRolesNegate(captures: seq<Capture>)
    ensures Measurements(captures, true) == Negated(Measurements(captures, false))
  {
    hide Duration;
    if captures != [] {
      var j := |captures| - 1;
      SwappedRolesNegate(captures[..j]);
      if 0 < j {
        SwappedDuration(captures[j - 1].art, captures[j]);
      }
    }
  }

  lemma SwappedDuration(firstArt: u64, second: Capture)
    ensures var on, off := Duration(firstArt, second, true), Duration(firstArt, second, false);
            on.Ok? == off.Ok? && (on.Ok? ==> on.value == -off.value)
  {
    if firstArt == second.art {
      ZeroTakesNoTime(second.phc);
    }
    hide ArtCyclesToDeltaNs;
    assert Mag(firstArt - second.art) == Mag(second.art - firstArt);
  }

  lemma ZeroTakesNoTime(phc: Params)
    ensures ArtCyclesToDeltaNs(phc, 0).Ok? ==> ArtCyclesToDeltaNs(phc, 0).value == 0
  {
  }

  /** The sum of the measurements lies between count times the extremes. */
  lemma {:induction false} SumBetweenExtremes(values: seq<s64>, low: s64, high: s64)
    requires forall i :: 0 <= i < |values| ==> low <= values[i] <= high
    ensures |values| * low <= Sum(values) <= |values| * high
  {
    if values != [] {
      SumBetweenExtremes(values[..|values| - 1], low, high);
      MulStep(|values|, low);
      MulStep(|values|, high);
    }
  }
}
