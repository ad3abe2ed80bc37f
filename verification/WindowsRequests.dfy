/** The serialized request queue over one Windows block, and what holds over every run of it. */
module WindowsRequests {
  import opened Arith
  import opened Arming
  import opened Interleaving
  import opened ToggleEngine
  import opened TogglePort
  import opened WindowsDriver

  // ----- what is promised about edges

  /** The grid in force when an edge was generated; none while the mirror is wrong. */
  datatype Promise = NoPromise | Grid(start: int, half: int) {

    predicate KeptBy(edge: Edge) {
      Grid? && edge.rising ==> 0 < half && (edge.at - start) % (2 * half) == 0
    }
  }

  /** One promise per generated edge. */
  datatype Ledger = Empty | Also(past: Ledger, promise: Promise) {

    function Extend(n: nat, more: Promise): Ledger {
      if n == 0 then this else Also(Extend(n - 1, more), more)
    }

    predicate KeptBy(edges: History) {
      if Empty? then edges.Quiet?
      else edges.Then? && promise.KeptBy(edges.last) && past.KeptBy(edges.past)
    }

    /** The last n edges were all promised a grid. */
    predicate Promised(n: nat) {
      n == 0 || (Also? && promise.Grid? && past.Promised(n - 1))
    }
  }

  /** The grid of the last start; no longer sure after an invert that lost an edge or ran off the counter. */
  datatype Target = Target(start: int, half: int, sure: bool)

  /** What a request finds and leaves. */
  datatype View = View(live: bool, now: Moment, interval: int, flopHigh: bool, right: bool, target: Target) {

    predicate Sane() {
      Fits(now.engine, live)
    }

    /** Rises are on the target grid if the mirror is right, and half a period off if not. */
    predicate FollowsMirror() {
      live && target.sure ==>
        && 0 < target.half
        && now.engine.OnGrid(if right then target.start else target.start + target.half, target.half)
    }

    /** What the edges generated from here on are promised, until something is re-programmed. */
    function InForce(): Promise {
      if live && right && target.sure then Grid(target.start, target.half) else NoPromise
    }
  }

  // ----- what one request does

  /** Edges lost by a request: only an invert can lose any. */
  function Window(s: Schedule, v: View, request: Request): int
    requires v.Sane()
  {
    if request.InvertOutput? then InvertWindow(s, v.live, v.now, v.interval) else 0
  }

  predicate Clean(s: Schedule, v: View, request: Request)
    requires v.Sane()
  {
    request.InvertOutput? ==>
      Window(s, v, request) == 0 && !InvertOverflows(s, v.live, v.now, v.interval)
  }

  function NextTarget(s: Schedule, v: View, request: Request, status: Status): Target
    requires v.Sane()
  {
    if request.StartOutput? && status == Success then Target(request.Requested(), request.high, true)
    else if Clean(s, v, request) then v.target
    else v.target.(sure := false)
  }

  /** The effect of one request, for the edges the schedule has in it. */
  ghost predicate Answered(s: Schedule, before: View, request: Request, status: Status, after: View) {
    && before.Sane() && after.Sane()
    && after.right == (before.right == (Odd(Window(s, before, request)) == request.InvertOutput?))
    && after.target == NextTarget(s, before, request, status)
    && Generated(before.now.engine, after.now.engine)
    && (!before.live ==> after.now.engine.count == before.now.engine.count)
    && match request
       case StartOutput(_, _, _, _, _, _) => StartAnswered(before, request, status, after)
       case InvertOutput =>
         && status == Success && after.live == before.live && after.interval == before.interval
         && after.now == AfterInvert(s, before.live, before.now, before.interval)
       case SetInput(_, _) => status == Success && !after.live
       case StopOutput => status == Success && !after.live && after.interval == 0
       case GetBlock =>
         && status == Success && after.live == before.live && after.interval == before.interval
         && Ran(before.now.engine, after.now.engine)
  }

  /** Refused without touching anything, or armed by the slot and push rules, or off the counter and stopped. */
  ghost predicate StartAnswered(before: View, request: Request, status: Status, after: View)
    requires request.StartOutput?
  {
    if request.high == 0 then status == InvalidParameter && after == before
    else if request.low != 0 && request.low != request.high then status == NotSupported && after == before
    else if BadCycles(request.high, request.high) then status == InvalidParameter && after == before
    else
      match PushPast(SlotCompare(request.Requested(), request.high, request.high, after.flopHigh),
                     request.Deadline(), request.high + request.high)
      case Err(_) => status == IntegerOverflow && !after.live
      case Ok(compare) =>
        && status == Success && after.live && after.interval == request.high
        && after.now.engine.compv == compare && after.now.engine.piv == request.high
  }

  class RequestQueue {
    const block: WindowsBlock
    ghost var target: Target
    ghost var ledger: Ledger

    constructor (powerOnLevel: bool, schedule: Schedule)
      ensures Valid() && fresh(block) && fresh(block.port) && block.port.schedule == schedule
      ensures block.port.engine == Engine(0, 0, powerOnLevel, 0, Quiet) && ledger == Empty
      ensures Current().right == !powerOnLevel && !Current().live && Current().target.sure
    {
      block := new WindowsBlock(powerOnLevel, schedule);
      target, ledger := Target(0, 0, true), Empty;
    }

    ghost function Current(): View
      reads this, block, block.port
    {
      View(block.port.ctl.Live(), block.port.Now(), block.port.hwPiv, block.port.flopHigh,
           block.port.Right(), target)
    }

    ghost predicate Valid()
      reads this, block, block.port
    {
      block.Valid() && Current().FollowsMirror() && ledger.KeptBy(block.port.engine.edges)
    }

    method ServeStart(request: Request) returns (status: Status)
      requires Valid() && request.StartOutput?
      modifies block, block.port, this`target
      ensures block.Valid() && Current().FollowsMirror()
      ensures Answered(block.port.schedule, old(Current()), request, status, Current())
      ensures status == InvalidParameter || status == NotSupported ==> unchanged(block.port)
      ensures status == NotSupported <==> request.high != 0 && request.low != 0 && request.low != request.high
      ensures status == InvalidParameter <==>
                request.high == 0 || (request.low in {0, request.high} && 4 * request.high > U64_MAX)
      // A started output rises on the grid of the requested edge, and not before now plus the margin.
      ensures status == Success ==>
                var at := if request.firstEdgeArt == 0 then (request.nowArt + request.autoStart) % TWO64
                          else request.firstEdgeArt;
                var rise := FirstRise(block.port.engine.compv, request.high, block.port.flopHigh);
                (rise - if at > 2 then at - 2 else at) % (2 * request.high) == 0
      ensures status == Success && request.nowArt + request.margin <= U64_MAX ==>
                request.nowArt + request.margin <= block.port.engine.compv
    {
      hide PushPast, SlotCompare;
      StandingStill(block.port.engine);
      RunShape(block.port.engine, block.port.engine);
      if request.high == 0 {
        return InvalidParameter;
      }
      var low := if request.low == 0 then request.high else request.low;
      if low != request.high {
        return NotSupported;
      }
      status := StartSymmetric(request);
    }

    method StartSymmetric(request: Request) returns (status: Status)
      requires Valid() && request.StartOutput? && 0 < request.high && (request.low == 0 || request.low == request.high)
      modifies block, block.port, this`target
      ensures block.Valid() && Current().FollowsMirror()
      ensures Answered(block.port.schedule, old(Current()), request, status, Current())
      ensures status == InvalidParameter ==> unchanged(block.port)
      ensures status != NotSupported && (status == InvalidParameter <==> 4 * request.high > U64_MAX)
      ensures status == Success ==>
                var at := if request.firstEdgeArt == 0 then (request.nowArt + request.autoStart) % TWO64
                          else request.firstEdgeArt;
                var rise := FirstRise(block.port.engine.compv, request.high, block.port.flopHigh);
                (rise - if at > 2 then at - 2 else at) % (2 * request.high) == 0
      ensures status == Success && request.nowArt + request.margin <= U64_MAX ==>
                request.nowArt + request.margin <= block.port.engine.compv
    {
      hide PushPast, SlotCompare, FirstRise, InvertWindow, Odd, Engine.Fires, Wrap;
      StandingStill(block.port.engine);
      RunShape(block.port.engine, block.port.engine);
      var start := request.(low := request.high);
      status := block.HwStartOutput(start);
      block.mode := if status == Success then Output else Off;
      if status == Success {
        target := Target(start.Requested(), start.high, true);
        StartFollowsMirror(block.port.engine, block.port.flopHigh, start.Requested(), start.high, start.Deadline());
      }
    }

    method ServeInvert() returns (status: Status)
      requires Valid()
      modifies block, block.port, this`target
      ensures block.Valid() && Current().FollowsMirror()
      ensures Answered(block.port.schedule, old(Current()), InvertOutput, status, Current())
    {
      ghost var before := Current();
      block.HwInvertOutput();
      InvertKeepsTarget(block.port.schedule, before, Current());
      target := NextTarget(block.port.schedule, before, InvertOutput, Success);
      return Success;
    }

    method ServeInput(enable: bool, ep: EdgePolarity) returns (status: Status)
      requires Valid()
      modifies block, block.port
      ensures block.Valid() && Current().FollowsMirror()
      ensures Answered(block.port.schedule, old(Current()), SetInput(enable, ep), status, Current())
      ensures block.mode == (if enable then Input else Off)
      ensures old(block.mode) == Output ==> block.port.hwPiv == 0
    {
      if block.mode == Output {
        block.HwStopOutput();
      }
      block.HwSetInput(enable, ep);
      block.mode := if enable then Input else Off;
      return Success;
    }

    method ServeStop() returns (status: Status)
      requires Valid()
      modifies block, block.port
      ensures block.Valid() && Current().FollowsMirror()
      ensures Answered(block.port.schedule, old(Current()), StopOutput, status, Current())
      ensures block.mode == Off && !block.port.ctl.en
    {
      block.HwStopOutput();
      block.mode := Off;
      return Success;
    }

    method ServeGetBlock() returns (status: Status)
      requires Valid()
      modifies block.port
      ensures block.Valid() && Current().FollowsMirror()
      ensures Answered(block.port.schedule, old(Current()), GetBlock, status, Current())
    {
      ghost var start := if block.port.Right() then target.start else target.start + target.half;
      var level := block.HwGetBlock();
      if target.sure && block.port.ctl.Live() {
        RunOnGrid(old(block.port.engine), block.port.engine, start, target.half);
      }
      return Success;
    }

    method Dispatch(request: Request) returns (status: Status)
      requires Valid()
      modifies block, block.port, this`target
      ensures block.Valid() && Current().FollowsMirror()
      ensures Answered(block.port.schedule, old(Current()), request, status, Current())
      ensures Generated(old(block.port.engine), block.port.engine)
    {
      hide Answered, View.FollowsMirror;
      if request.StartOutput? {
        status := ServeStart(request);
      } else if request.InvertOutput? {
        status := ServeInvert();
      } else if request.SetInput? {
        status := ServeInput(request.enable, request.ep);
      } else if request.StopOutput? {
        status := ServeStop();
      } else {
        status := ServeGetBlock();
      }
      EdgesOfRequest(block.port.schedule, old(Current()), request, status, Current());
    }

    /**
     * One request. What it does is a function of the schedule and the view, and every edge fired
     * meanwhile keeps the promise in force when it began.
     */
    method Handle(request: Request) returns (status: Status)
      requires Valid()
      modifies block, block.port, this`target, this`ledger
      ensures Valid()
      ensures Answered(block.port.schedule, old(Current()), request, status, Current())
      ensures ledger == Promises(old(ledger), [old(Current()), Current()])
    {
      hide Answered, View.FollowsMirror, View.InForce;
      ghost var before := Current();
      status := Dispatch(request);
      ghost var n := block.port.engine.count - before.now.engine.count;
      KeptByWaveform(before, n, ledger);
      ledger := ledger.Extend(n, before.InForce());
      OneMore(old(ledger), [before], Current());
    }

    /** Any number of requests, one at a time. */
    method Serve(requests: seq<Request>) returns (statuses: seq<Status>, ghost views: seq<View>)
      requires Valid()
      modifies block, block.port, this`target, this`ledger
      ensures Valid()
      ensures Chain(block.port.schedule, views, requests, statuses)
      ensures views[0] == old(Current()) && views[|requests|] == Current()
      ensures ledger == Promises(old(ledger), views)
    {
      hide Answered, View.InForce;
      statuses := [];
      views := [Current()];
      var i := 0;
      while i < |requests|
        invariant 0 <= i == |statuses| <= |requests| && Valid()
        invariant Chain(block.port.schedule, views, requests[..i], statuses)
        invariant views[0] == old(Current()) && views[i] == Current()
        invariant ledger == Promises(old(ledger), views)
      {
        ghost var was := ledger;
        var status := Handle(requests[i]);
        OneMore(old(ledger), views, Current());
        OneMore(was, [views[i]], Current());
        views := views + [Current()];
        statuses := statuses + [status];
        assert requests[..i + 1] == requests[..i] + [requests[i]];
        i := i + 1;
      }
      assert requests[..i] == requests;
    }
  }

  lemma EdgesOfRequest(s: Schedule, before: View, request: Request, status: Status, after: View)
    requires Answered(s, before, request, status, after)
    ensures Generated(before.now.engine, after.now.engine)
  {
  }

  /** Consecutive views of a run, one before each request and one after the last. */
  ghost predicate Chain(s: Schedule, views: seq<View>, requests: seq<Request>, statuses: seq<Status>) {
    && |views| == |requests| + 1 && |statuses| == |requests|
    && (forall i :: 0 <= i < |views| ==> views[i].Sane())
    && forall i :: 0 <= i < |requests| ==> Answered(s, views[i], requests[i], statuses[i], views[i + 1])
  }

  /** Each edge is promised what was in force at the beginning of the request it fired in. */
  function Promises(ledger: Ledger, views: seq<View>): Ledger {
    if |views| <= 1 then ledger
    else
      var before, now := views[|views| - 2], views[|views| - 1];
      Promises(ledger, views[..|views| - 1]).Extend(Since(before, now), before.InForce())
  }

  function Since(before: View, now: View): nat {
    if now.now.engine.count < before.now.engine.count then 0 else now.now.engine.count - before.now.engine.count
  }

  lemma OneMore(ledger: Ledger, views: seq<View>, now: View)
    requires views != []
    ensures Promises(ledger, views + [now])
         == Promises(ledger, views).Extend(Since(views[|views| - 1], now), views[|views| - 1].InForce())
  {
    assert (views + [now])[..|views|] == views;
  }

  // The edges of a free run keep the promise that was in force.
  lemma {:induction false} KeptByWaveform(v: View, n: nat, ledger: Ledger)
    requires v.FollowsMirror() && ledger.KeptBy(v.now.engine.edges)
    ensures ledger.Extend(n, v.InForce()).KeptBy(v.now.engine.Fires(n).edges)
  {
    if 0 < n {
      KeptByWaveform(v, n - 1, ledger);
      if v.InForce().Grid? {
        v.now.engine.FiresOnGrid(n - 1, v.target.start, v.target.half);
      }
    }
  }

  // The invert's effect on the target: kept if it was clean, and nothing to keep otherwise.
  lemma InvertKeepsTarget(s: Schedule, before: View, now: View)
    requires before.Sane() && before.FollowsMirror()
    requires now.live == before.live && now.interval == before.interval
    requires now.live ==> now.interval == before.now.engine.piv
    requires now.right == (before.right == Odd(Window(s, before, InvertOutput)))
    requires now.now == AfterInvert(s, before.live, before.now, before.interval)
    ensures now.(target := NextTarget(s, before, InvertOutput, Success)).FollowsMirror()
  {
    hide InvertWindow, InvertOverflows, AfterInvert;
    if Clean(s, before, InvertOutput) && before.live && before.target.sure {
      var start := if before.right then before.target.start else before.target.start + before.target.half;
      var free := Folded(s, before.live, before.now).seen;
      QuietInvert(s, before.live, before.now, before.interval);
      RunOnGrid(before.now.engine, free, start, before.target.half);
      ShiftByHalf(free, start, before.target.half);
    }
  }

  // ----- whole runs

  function Inverts(requests: seq<Request>): nat {
    if requests == [] then 0
    else Inverts(requests[..|requests| - 1]) + (if requests[|requests| - 1].InvertOutput? then 1 else 0)
  }

  /** All edges lost in a run: those inside the windows of its inverts. */
  function Windows(s: Schedule, views: seq<View>, requests: seq<Request>): int
    requires |requests| < |views| && forall i :: 0 <= i < |requests| ==> views[i].Sane()
  {
    if requests == [] then 0
    else
      var i := |requests| - 1;
      Windows(s, views, requests[..i]) + Window(s, views[i], requests[i])
  }

  /**
   * Main result: over any run, whatever the schedule, the mirror's rightness changes with the parity
   * of the inverts and of the edges inside their windows, and with nothing else.
   */
  lemma {:induction false} RightnessOverRuns(s: Schedule, views: seq<View>, requests: seq<Request>, statuses: seq<Status>)
    requires Chain(s, views, requests, statuses)
    ensures views[|requests|].right == (views[0].right == !Odd(Inverts(requests) + Windows(s, views, requests)))
  {
    hide Answered, Window, Odd;
    if requests == [] {
      ParityStep(0, 0, false);
    } else {
      var i := |requests| - 1;
      var shorter := views[..i + 1];
      RightnessOfRequest(s, views[i], requests[i], statuses[i], views[i + 1]);
      RightnessOverRuns(s, shorter, requests[..i], statuses[..i]);
      WindowsOfPrefix(s, views, shorter, requests[..i]);
      ParityStep(Inverts(requests[..i]) + Windows(s, views, requests[..i]), Window(s, views[i], requests[i]),
                 requests[i].InvertOutput?);
    }
  }

  lemma RightnessOfRequest(s: Schedule, before: View, request: Request, status: Status, after: View)
    requires Answered(s, before, request, status, after)
    ensures before.Sane() && after.right == (before.right == (Odd(Window(s, before, request)) == request.InvertOutput?))
  {
  }

  lemma {:induction false} WindowsOfPrefix(s: Schedule, views: seq<View>, shorter: seq<View>, requests: seq<Request>)
    requires |requests| < |shorter| <= |views| && shorter == views[..|shorter|]
    requires forall i :: 0 <= i < |requests| ==> views[i].Sane()
    ensures Windows(s, views, requests) == Windows(s, shorter, requests)
  {
    if requests != [] {
      WindowsOfPrefix(s, views, shorter, requests[..|requests| - 1]);
    }
  }

  lemma ParityStep(k: int, window: int, inverted: bool)
    ensures Odd(k + window + (if inverted then 1 else 0)) == (Odd(k) != (Odd(window) != inverted))
    ensures !Odd(0)
  {
  }

  /** With no edge in any window, one invert repairs a wrong mirror and every invert flips it, forever. */
  lemma {:induction false} QuietInvertsFlip(s: Schedule, views: seq<View>, requests: seq<Request>, statuses: seq<Status>)
    requires Chain(s, views, requests, statuses)
    requires forall i :: 0 <= i < |requests| ==> Window(s, views[i], requests[i]) == 0
    ensures views[|requests|].right == (views[0].right == !Odd(Inverts(requests)))
  {
    RightnessOverRuns(s, views, requests, statuses);
    NoWindows(s, views, requests);
  }

  lemma {:induction false} NoWindows(s: Schedule, views: seq<View>, requests: seq<Request>)
    requires |requests| < |views| && forall i :: 0 <= i < |requests| ==> views[i].Sane()
    requires forall i :: 0 <= i < |requests| ==> Window(s, views[i], requests[i]) == 0
    ensures Windows(s, views, requests) == 0
  {
    if requests != [] {
      NoWindows(s, views, requests[..|requests| - 1]);
    }
  }

  /** The grid the last successful start asked for. */
  function LastStart(initial: Target, requests: seq<Request>, statuses: seq<Status>): Target
    requires |requests| == |statuses|
  {
    if requests == [] then initial
    else
      var i := |requests| - 1;
      if requests[i].StartOutput? && statuses[i] == Success then Target(requests[i].Requested(), requests[i].high, true)
      else LastStart(initial, requests[..i], statuses[..i])
  }

  /** Main result: while inverts are clean, what is promised at any time is the grid of the last successful start. */
  lemma {:induction false} TargetIsLastStart(s: Schedule, views: seq<View>, requests: seq<Request>, statuses: seq<Status>)
    requires Chain(s, views, requests, statuses)
    requires forall i :: 0 <= i < |requests| ==> Clean(s, views[i], requests[i])
    ensures views[|requests|].target == LastStart(views[0].target, requests, statuses)
  {
    if requests != [] {
      var i := |requests| - 1;
      TargetIsLastStart(s, views[..i + 1], requests[..i], statuses[..i]);
    }
  }

  /**
   * Main result: in a run without inverts that begins with a right mirror, every edge fired is
   * promised the grid of the last successful start before it; so every rise is on it.
   */
  lemma {:induction false} EveryEdgeIsPromised(s: Schedule, views: seq<View>, requests: seq<Request>, statuses: seq<Status>,
                                               ledger: Ledger)
    requires Chain(s, views, requests, statuses)
    requires Inverts(requests) == 0 && views[0].right && views[0].target.sure
    ensures views[|requests|].right && views[|requests|].target == LastStart(views[0].target, requests, statuses)
    ensures views[|requests|].target.sure && 0 <= Since(views[0], views[|requests|])
    ensures Promises(ledger, views).Promised(Since(views[0], views[|requests|]))
    ensures views[0].now.engine.count <= views[|requests|].now.engine.count
  {
    if requests == [] {
      assert views == [views[0]];
    } else {
      hide StartAnswered, AfterInvert, View.Sane, Ledger.Extend;
      var i := |requests| - 1;
      var shorter := views[..i + 1];
      EveryEdgeIsPromised(s, shorter, requests[..i], statuses[..i], ledger);
      assert Answered(s, views[i], requests[i], statuses[i], views[i + 1]);
      assert views == shorter + [views[i + 1]];
      OneMore(ledger, shorter, views[i + 1]);
      StillPromised(Promises(ledger, shorter), Since(views[0], views[i]), Since(views[i], views[i + 1]), views[i].InForce());
    }
  }

  lemma {:induction false} StillPromised(ledger: Ledger, k: nat, n: nat, promise: Promise)
    requires ledger.Promised(k) && (promise.Grid? || n == 0)
    ensures ledger.Extend(n, promise).Promised(k + n)
  {
    if 0 < n {
      StillPromised(ledger, k, n - 1, promise);
    }
  }
}
