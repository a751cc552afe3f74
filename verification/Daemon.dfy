/** The life cycle of the recursion daemon: its flags, the count of admitted dispatches and its counters. */
module Daemon {

  datatype Route = Reject | Deterministic | LlmRequired | AgentRequired

  datatype Stats = Stats(received: nat, reject: nat, deterministic: nat, llmRequired: nat, agentRequired: nat,
                         dispatched: nat, deterministicUsed: nat, llmInvoked: nat)

  const NO_STATS := Stats(0, 0, 0, 0, 0, 0, 0, 0)

  /** The fields of the daemon as one value. */
  datatype View = View(running: bool, ready: bool, draining: bool, inflight: int, stats: Stats)

  function Started(v: View): View {
    if v.running then v else v.(running := true, draining := false, ready := true)
  }

  /** What `stop` does before it waits. */
  function DrainBegun(v: View): View {
    if v.running && !v.draining then v.(draining := true, ready := false) else v
  }

  /** What `stop` does after it waited, whatever happened meanwhile. */
  function Stopped(v: View): View {
    v.(running := false, ready := false, draining := false)
  }

  predicate Admits(v: View) {
    v.running && !v.draining
  }

  function Entered(v: View): View {
    v.(inflight := v.inflight + 1)
  }

  function Left(v: View): View {
    v.(inflight := if v.inflight - 1 > 0 then v.inflight - 1 else 0)
  }

  function Recorded(s: Stats, r: Route): Stats {
    var t := s.(received := s.received + 1);
    match r
    case Reject => t.(reject := t.reject + 1)
    case Deterministic => t.(deterministic := t.deterministic + 1)
    case LlmRequired => t.(llmRequired := t.llmRequired + 1)
    case AgentRequired => t.(agentRequired := t.agentRequired + 1)
  }

  /** Only two routes count that they were taken. */
  function Used(s: Stats, r: Route): Stats {
    match r
    case Deterministic => s.(deterministicUsed := s.deterministicUsed + 1)
    case LlmRequired => s.(llmInvoked := s.llmInvoked + 1)
    case _ => s
  }

  datatype Outcome = NotRunning | IsDraining | NoHandler | Failed | Done

  class RecursionDaemon {
    var running: bool
    var ready: bool
    var draining: bool
    var inflight: int
    var stats: Stats

    function State(): View
      reads this
    {
      View(running, ready, draining, inflight, stats)
    }

    constructor ()
      ensures State() == View(false, false, false, 0, NO_STATS)
    {
      running, ready, draining, inflight, stats := false, false, false, 0, NO_STATS;
    }

    method Start()
      modifies this
      ensures State() == Started(old(State()))
    {
      if running { return; }
      running := true;
      draining := false;
      ready := false;
      ready := true;
    }

    /** The first part of `stop`, up to the point where it waits for dispatches to finish. */
    method BeginStop() returns (waits: bool)
      modifies this
      ensures State() == if old(running && inflight <= 0) then Stopped(old(State())) else DrainBegun(old(State()))
      ensures waits == old(running && inflight > 0)
    {
      if !running { return false; }
      if !draining {
        draining := true;
        ready := false;
      }
      waits := inflight > 0;
      if !waits { FinishStop(); }
    }

    /** The rest of `stop`, when nothing is in flight any more or its time is up. */
    method FinishStop()
      modifies this
      ensures State() == Stopped(old(State()))
    {
      running := false;
      ready := false;
      draining := false;
    }

    method EnterDispatch() returns (refused: Outcome)
      modifies this
      ensures refused == if !old(running) then NotRunning else if old(draining) then IsDraining else Done
      ensures State() == if Admits(old(State())) then Entered(old(State())) else old(State())
    {
      if !running { return NotRunning; }
      if draining { return IsDraining; }
      inflight := inflight + 1;
      refused := Done;
    }

    method LeaveDispatch()
      modifies this
      ensures State() == Left(old(State()))
    {
      inflight := if inflight - 1 > 0 then inflight - 1 else 0;
    }

    /** `dispatch_sync` with nothing interleaved; `succeeds` says whether the work for the route returns or raises. */
    method DispatchSync(route: Route, hasHandler: bool, succeeds: bool) returns (outcome: Outcome)
      requires inflight >= 0
      modifies this
      ensures running == old(running) && ready == old(ready) && draining == old(draining) && inflight == old(inflight)
      ensures outcome in {NotRunning, IsDraining, NoHandler} ==> stats == old(stats)
      ensures outcome in {Failed, Done} ==>
        var dispatched := old(stats).dispatched + if outcome == Done then 1 else 0;
        stats == Used(Recorded(old(stats), route), route).(dispatched := dispatched)
      ensures outcome == Done <==>
        old(running) && !old(draining) && (route in {LlmRequired, AgentRequired} ==> hasHandler)
        && (route == Reject || succeeds)
    {
      outcome := EnterDispatch();
      if outcome != Done { return; }
      if route in {LlmRequired, AgentRequired} && !hasHandler {
        outcome := NoHandler;
      } else {
        stats := Recorded(stats, route);
        stats := Used(stats, route);
        if route == Reject || succeeds {
          stats := stats.(dispatched := stats.dispatched + 1);
        } else {
          outcome := Failed;
        }
      }
      LeaveDispatch();
    }
  }
}
