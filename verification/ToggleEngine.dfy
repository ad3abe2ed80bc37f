/**
 * The hardware's periodic toggle engine as a value: the pending compare, the interval it reloads,
 * the level flop nobody can read, and every edge generated so far.
 */
module ToggleEngine {
  import opened Arith

  /** An edge: the compare value that produced it and whether the line went high. */
  datatype Edge = Edge(at: int, rising: bool)

  datatype History = Quiet | Then(past: History, last: Edge) {

    /** Of the last n edges every rise has a compare congruent to the requested one. */
    predicate RisesOnGrid(n: nat, start: int, period: int)
      requires 0 < period
    {
      n == 0 || (Then? && (last.rising ==> (last.at - start) % period == 0) && past.RisesOnGrid(n - 1, start, period))
    }
  }

  datatype Engine = Engine(compv: int, piv: int, flop: bool, count: nat, edges: History) {

    /** One edge: the flop toggles and the compare advances by the interval. */
    function Fire(): Engine {
      Engine(compv + piv, piv, !flop, count + 1, Then(edges, Edge(compv, !flop)))
    }

    function Fires(n: nat): Engine {
      if n == 0 then this else Fires(n - 1).Fire()
    }

    /** The next rise, whether it is the pending edge or the one after it. */
    function NextRise(): int {
      if flop then compv + piv else compv
    }

    /** A symmetric waveform whose rises fall on start + k * 2 * half. */
    predicate OnGrid(start: int, half: int)
      requires 0 < half
    {
      piv == half && (NextRise() - start) % (2 * half) == 0
    }

    lemma {:induction false} FiresShape(n: nat)
      ensures Fires(n).piv == piv
      ensures Fires(n).compv == compv + n * piv
      ensures Fires(n).flop == (flop != Odd(n))
      ensures Fires(n).count == count + n
    {
      if 0 < n {
        FiresShape(n - 1);
        MulStep(n, piv);
      }
    }

    lemma {:induction false} FiresCompose(a: nat, b: nat)
      ensures Fires(a).Fires(b) == Fires(a + b)
    {
      if 0 < b {
        FiresCompose(a, b - 1);
      }
    }

    /** Between re-programmings the engine stays on its grid. */
    lemma {:induction false} FiresOnGrid(n: nat, start: int, half: int)
      requires 0 < half && OnGrid(start, half)
      ensures Fires(n).OnGrid(start, half)
    {
      if 0 < n {
        var before := Fires(n - 1);
        FiresOnGrid(n - 1, start, half);
        assert before.Fire().NextRise() == before.NextRise() + (if before.flop then 0 else 2 * half);
        DivAddMultiple(before.NextRise() - start, 1, 2 * half);
      }
    }
  }

  /** Every rise a symmetric waveform generates is on its grid. */
  lemma {:induction false} RisesStayOnGrid(e: Engine, n: nat, start: int, half: int)
    requires 0 < half && e.OnGrid(start, half)
    ensures e.Fires(n).edges.RisesOnGrid(n, start, 2 * half)
  {
    if 0 < n {
      RisesStayOnGrid(e, n - 1, start, half);
      e.FiresOnGrid(n - 1, start, half);
    }
  }

  /** `now` is what `e` becomes by running freely. */
  ghost predicate Ran(e: Engine, now: Engine) {
    e.count <= now.count && now == e.Fires(now.count - e.count)
  }

  /** Every edge between `e` and `now` came from the waveform running at `e`. */
  ghost predicate Generated(e: Engine, now: Engine) {
    e.count <= now.count && now.edges == e.Fires(now.count - e.count).edges
  }

  lemma RunsJoin(e: Engine, mid: Engine, now: Engine)
    requires Ran(e, mid) && Ran(mid, now)
    ensures Ran(e, now)
  {
    e.FiresCompose(mid.count - e.count, now.count - mid.count);
  }

  // Nothing was generated in the second stretch, whatever its registers were.
  lemma NoneSince(e: Engine, mid: Engine, now: Engine)
    requires Generated(e, mid) && Generated(mid, now) && mid.count == now.count
    ensures Generated(e, now)
  {
  }

  lemma GeneratedJoin(e: Engine, mid: Engine, now: Engine)
    requires Ran(e, mid) && Generated(mid, now)
    ensures Generated(e, now)
  {
    e.FiresCompose(mid.count - e.count, now.count - mid.count);
    e.FiresShape(mid.count - e.count);
  }

  lemma RunShape(e: Engine, now: Engine)
    requires Ran(e, now)
    ensures now.piv == e.piv
    ensures now.flop == (e.flop != Odd(now.count - e.count))
    ensures now.count == e.count ==> now == e
    ensures Generated(e, now)
  {
    e.FiresShape(now.count - e.count);
  }

  lemma RunCompv(e: Engine, now: Engine)
    requires Ran(e, now)
    ensures now.compv == e.compv + (now.count - e.count) * e.piv
  {
    e.FiresShape(now.count - e.count);
  }

  /** The compare of a free-running engine never goes back, and moves with every edge. */
  lemma RunAdvances(e: Engine, now: Engine)
    requires Ran(e, now) && (e.count < now.count ==> 0 < e.piv)
    ensures e.compv <= now.compv
    ensures e.compv == now.compv <==> e.count == now.count
  {
    RunShape(e, now);
    RunCompv(e, now);
    if e.count < now.count {
      MulLe(1, now.count - e.count, e.piv);
    }
  }

  lemma RunOnGrid(e: Engine, now: Engine, start: int, half: int)
    requires Ran(e, now) && 0 < half && e.OnGrid(start, half)
    ensures now.OnGrid(start, half)
  {
    e.FiresOnGrid(now.count - e.count, start, half);
  }

  /** Shifting the pending compare by one half moves every later rise to the other slot. */
  lemma ShiftByHalf(e: Engine, start: int, half: int)
    requires 0 < half && e.OnGrid(start, half)
    ensures e.(compv := e.compv + half).OnGrid(start + half, half)
    ensures e.(compv := e.compv + half).OnGrid(start - half, half)
  {
    DivAddMultiple(e.NextRise() - start, 1, 2 * half);
  }
}
