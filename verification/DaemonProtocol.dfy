/** All interleavings of `start`, `stop`, and any number of dispatches, as a state machine over the locked sections. */
module DaemonProtocol {
  import opened Daemon

  /** Where an admitted call is.  `Over`: it will only leave. */
  datatype Call = Admitted | Received(route: Route) | Working(route: Route) | Over

  /** `waiting`: the stoppers that wait, with the number of starts they have seen; `failed`: received calls that
      raised. */
  datatype State = State(view: View, calls: map<string, Call>, waiting: map<string, nat>, starts: nat, failed: nat)

  datatype Step =
    | Start
    | BeginStop(stopper: string)
    | FinishStop(stopper: string)
    | Enter(call: string)
    | Receive(call: string, route: Route)
    | Use(call: string)
    | Dispatch(call: string)
    | Fail(call: string)
    | Leave(call: string)

  const START := State(View(false, false, false, 0, NO_STATS), map[], map[], 0, 0)

  predicate Enabled(s: State, step: Step) {
    match step
    case Start => true
    case BeginStop(k) => s.view.running && k !in s.waiting
    case FinishStop(k) => k in s.waiting
    case Enter(c) => Admits(s.view) && c !in s.calls
    case Receive(c, r) => c in s.calls && s.calls[c] == Admitted
    case Use(c) => c in s.calls && s.calls[c].Received?
    case Dispatch(c) => c in s.calls && s.calls[c].Working?
    case Fail(c) => c in s.calls && (s.calls[c] == Admitted || (s.calls[c].Working? && s.calls[c].route != Reject))
    case Leave(c) => c in s.calls && (s.calls[c] == Over || s.calls[c] == Admitted)
  }

  function WithStats(s: State, stats: Stats, c: string, call: Call): State {
    s.(view := s.view.(stats := stats), calls := s.calls[c := call])
  }

  function After(s: State, step: Step): State
    requires Enabled(s, step)
  {
    match step
    case Start => s.(view := Started(s.view), starts := if s.view.running then s.starts else s.starts + 1)
    case BeginStop(k) =>
      if s.view.inflight > 0 then s.(view := DrainBegun(s.view), waiting := s.waiting[k := s.starts])
      else s.(view := Stopped(s.view))
    case FinishStop(k) => s.(view := Stopped(s.view), waiting := s.waiting - {k})
    case Enter(c) => s.(view := Entered(s.view), calls := s.calls[c := Admitted])
    case Receive(c, r) => WithStats(s, Recorded(s.view.stats, r), c, Received(r))
    case Use(c) => WithStats(s, Used(s.view.stats, s.calls[c].route), c, Working(s.calls[c].route))
    case Dispatch(c) => WithStats(s, s.view.stats.(dispatched := s.view.stats.dispatched + 1), c, Over)
    case Fail(c) => s.(calls := s.calls[c := Over], failed := if s.calls[c].Working? then s.failed + 1 else s.failed)
    case Leave(c) => s.(view := Left(s.view), calls := s.calls - {c})
  }

  // ---- counting calls ----

  function Where(calls: map<string, Call>, p: Call -> bool): set<string> {
    set c | c in calls && p(calls[c])
  }

  function One(b: bool): nat {
    if b then 1 else 0
  }

  /** Two sets that differ at most in `c`. */
  lemma {:induction false} SizeBut(before: set<string>, after: set<string>, c: string)
    requires before - {c} == after - {c}
    ensures |after| == |before| - One(c in before) + One(c in after)
  {
    assert before == before - {c} + if c in before then {c} else {};
    assert after == before - {c} + if c in after then {c} else {};
  }

  lemma {:induction false} WhereSet(calls: map<string, Call>, c: string, v: Call, p: Call -> bool)
    ensures |Where(calls[c := v], p)| == |Where(calls, p)| - One(c in calls && p(calls[c])) + One(p(v))
  {
    var before, after := Where(calls, p), Where(calls[c := v], p);
    assert before - {c} == after - {c};
    SizeBut(before, after, c);
  }

  lemma {:induction false} WhereRemove(calls: map<string, Call>, c: string, p: Call -> bool)
    requires c in calls
    ensures |Where(calls - {c}, p)| == |Where(calls, p)| - One(p(calls[c]))
  {
    var before, after := Where(calls, p), Where(calls - {c}, p);
    assert before - {c} == after - {c};
    SizeBut(before, after, c);
  }

  predicate InProgress(c: Call) {
    c.Received? || c.Working?
  }

  predicate AwaitsUse(r: Route, c: Call) {
    c == Received(r)
  }

  /** How many calls were received on a route and have not been counted as used. */
  function Unused(calls: map<string, Call>, r: Route): nat {
    |Where(calls, c => AwaitsUse(r, c))|
  }

  function Busy(calls: map<string, Call>): nat {
    |Where(calls, InProgress)|
  }

  // ---- the invariant ----

  /** `ready` says exactly that dispatches are admitted, and only a running daemon drains. */
  ghost predicate GoodFlags(v: View) {
    (v.ready <==> v.running && !v.draining) && (v.draining ==> v.running)
  }

  /** A running daemon drains exactly while a stopper waits that began since the last start. */
  ghost predicate GoodStoppers(s: State) {
    && (forall k :: k in s.waiting ==> s.waiting[k] <= s.starts)
    && (s.view.draining ==> exists k :: k in s.waiting && s.waiting[k] == s.starts)
    && (s.view.running && !s.view.draining ==> forall k :: k in s.waiting ==> s.waiting[k] < s.starts)
  }

  ghost predicate GoodRoutes(st: Stats) {
    st.received == st.reject + st.deterministic + st.llmRequired + st.agentRequired
  }

  ghost predicate GoodProgress(s: State) {
    s.view.stats.received == s.view.stats.dispatched + s.failed + Busy(s.calls)
  }

  ghost predicate GoodUses(s: State) {
    && s.view.stats.deterministic == s.view.stats.deterministicUsed + Unused(s.calls, Deterministic)
    && s.view.stats.llmRequired == s.view.stats.llmInvoked + Unused(s.calls, LlmRequired)
  }

  ghost predicate GoodCounters(s: State) {
    GoodRoutes(s.view.stats) && GoodProgress(s) && GoodUses(s)
  }

  ghost predicate Inv(s: State) {
    s.view.inflight == |s.calls| && GoodFlags(s.view) && GoodStoppers(s) && GoodCounters(s)
  }

  /** A step of one call, other than leaving. */
  predicate Moves(step: Step, c: string) {
    step == Enter(c) || step == Use(c) || step == Dispatch(c) || step == Fail(c) || (step.Receive? && step.call == c)
  }

  lemma {:induction false} MovesSets(s: State, step: Step, c: string)
    requires Enabled(s, step) && Moves(step, c)
    ensures c in After(s, step).calls && After(s, step).calls == s.calls[c := After(s, step).calls[c]]
  {
  }

  lemma {:induction false} RoutesKept(s: State, step: Step, c: string)
    requires GoodRoutes(s.view.stats) && Enabled(s, step) && Moves(step, c)
    ensures GoodRoutes(After(s, step).view.stats)
  {
  }

  lemma {:induction false} ProgressKept(s: State, step: Step, c: string)
    requires GoodProgress(s) && Enabled(s, step) && Moves(step, c)
    ensures GoodProgress(After(s, step))
  {
    MovesSets(s, step, c);
    WhereSet(s.calls, c, After(s, step).calls[c], InProgress);
  }

  lemma {:induction false} UnusedSet(calls: map<string, Call>, c: string, v: Call, r: Route)
    ensures Unused(calls[c := v], r) == Unused(calls, r) - One(c in calls && calls[c] == Received(r)) +
      One(v == Received(r))
  {
    WhereSet(calls, c, v, x => AwaitsUse(r, x));
  }

  lemma {:induction false} UsesKept(s: State, step: Step, c: string)
    requires GoodUses(s) && Enabled(s, step) && Moves(step, c)
    ensures GoodUses(After(s, step))
  {
    MovesSets(s, step, c);
    UnusedSet(s.calls, c, After(s, step).calls[c], Deterministic);
    UnusedSet(s.calls, c, After(s, step).calls[c], LlmRequired);
  }

  lemma {:induction false} CallStepKeeps(s: State, step: Step, c: string)
    requires Inv(s) && Enabled(s, step) && Moves(step, c)
    ensures GoodCounters(After(s, step))
  {
    RoutesKept(s, step, c);
    ProgressKept(s, step, c);
    UsesKept(s, step, c);
  }

  lemma {:induction false} LeaveKeeps(s: State, c: string)
    requires Inv(s) && Enabled(s, Leave(c))
    ensures GoodCounters(After(s, Leave(c))) && |s.calls - {c}| == |s.calls| - 1
  {
    WhereRemove(s.calls, c, InProgress);
    WhereRemove(s.calls, c, x => AwaitsUse(Deterministic, x));
    WhereRemove(s.calls, c, x => AwaitsUse(LlmRequired, x));
    assert (s.calls - {c}).Keys == s.calls.Keys - {c};
    assert |(s.calls - {c}).Keys| == |s.calls.Keys| - 1;
  }

  lemma {:induction false} SizeSet(calls: map<string, Call>, c: string, v: Call)
    ensures |calls[c := v]| == |calls| + One(c !in calls)
  {
    assert calls[c := v].Keys == calls.Keys + {c};
    assert |calls[c := v].Keys| == |calls.Keys| + One(c !in calls);
  }

  lemma {:induction false} StopperKeeps(s: State, k: string)
    requires Inv(s)
    ensures Enabled(s, BeginStop(k)) ==> Inv(After(s, BeginStop(k)))
    ensures Enabled(s, FinishStop(k)) ==> Inv(After(s, FinishStop(k)))
  {
    if Enabled(s, BeginStop(k)) && s.view.inflight > 0 {
      var s' := After(s, BeginStop(k));
      assert k in s'.waiting && s'.waiting[k] == s'.starts;
    }
  }

  lemma {:induction false} StepKeeps(s: State, step: Step)
    requires Inv(s) && Enabled(s, step)
    ensures Inv(After(s, step))
  {
    match step
    case Start =>
    case BeginStop(k) => StopperKeeps(s, k);
    case FinishStop(k) => StopperKeeps(s, k);
    case Enter(c) => CallStepKeeps(s, step, c); SizeSet(s.calls, c, Admitted);
    case Receive(c, r) => CallStepKeeps(s, step, c); SizeSet(s.calls, c, Received(r));
    case Use(c) => CallStepKeeps(s, step, c); SizeSet(s.calls, c, Working(s.calls[c].route));
    case Dispatch(c) => CallStepKeeps(s, step, c); SizeSet(s.calls, c, Over);
    case Fail(c) => CallStepKeeps(s, step, c); SizeSet(s.calls, c, Over);
    case Leave(c) => LeaveKeeps(s, c);
  }

  // ---- runs ----

  predicate Possible(steps: seq<Step>)
    decreases |steps|, 0
  {
    steps == [] || (Possible(steps[..|steps| - 1]) && Enabled(Final(steps[..|steps| - 1]), steps[|steps| - 1]))
  }

  function Final(steps: seq<Step>): State
    requires Possible(steps)
    decreases |steps|, 1
  {
    if steps == [] then START else After(Final(steps[..|steps| - 1]), steps[|steps| - 1])
  }

  /** Over every run: the count of dispatches in flight is that of the calls admitted and not yet left, the flags agree,
      and every received call is in one route counter and is dispatched, failed or in progress. */
  lemma {:induction false} RunKeeps(steps: seq<Step>)
    requires Possible(steps)
    ensures Inv(Final(steps))
    decreases |steps|
  {
    if steps != [] {
      RunKeeps(steps[..|steps| - 1]);
      StepKeeps(Final(steps[..|steps| - 1]), steps[|steps| - 1]);
    }
  }

  /** How many steps of a run are of one kind. */
  function Count(steps: seq<Step>, p: Step -> bool): nat {
    if steps == [] then 0 else Count(steps[..|steps| - 1], p) + One(p(steps[|steps| - 1]))
  }

  predicate Receives(step: Step, r: Route) {
    step.Receive? && step.route == r
  }

  /** Over every run: each route counter is the number of calls received on that route, and `inflight` the number of
      calls that entered and have not left. */
  lemma {:induction false} CountersAre(steps: seq<Step>)
    requires Possible(steps)
    ensures var st := Final(steps).view.stats;
      && st.received == Count(steps, (x: Step) => x.Receive?)
      && st.reject == Count(steps, x => Receives(x, Reject))
      && st.deterministic == Count(steps, x => Receives(x, Deterministic))
      && st.llmRequired == Count(steps, x => Receives(x, LlmRequired))
      && st.agentRequired == Count(steps, x => Receives(x, AgentRequired))
      && st.dispatched == Count(steps, (x: Step) => x.Dispatch?)
    ensures Final(steps).view.inflight == Count(steps, (x: Step) => x.Enter?) - Count(steps, (x: Step) => x.Leave?)
    decreases |steps|
  {
    if steps != [] {
      var front, last := steps[..|steps| - 1], steps[|steps| - 1];
      CountersAre(front);
      if last.Leave? { ClampNeverBites(front, last.call); }
    }
  }

  /** The clamp at zero never bites: whoever leaves had been counted. */
  lemma {:induction false} ClampNeverBites(steps: seq<Step>, c: string)
    requires Possible(steps) && Enabled(Final(steps), Leave(c))
    ensures Left(Final(steps).view).inflight == Final(steps).view.inflight - 1
  {
    RunKeeps(steps);
    LeaveKeeps(Final(steps), c);
  }

  /** While the daemon drains nobody is admitted. */
  lemma {:induction false} DrainOnlyShrinks(s: State, step: Step)
    requires Inv(s) && Enabled(s, step) && s.view.draining
    ensures After(s, step).calls.Keys <= s.calls.Keys && After(s, step).view.inflight <= s.view.inflight
  {
    StepKeeps(s, step);
    match step
    case Enter(c) =>
    case Leave(c) => assert (s.calls - {c}).Keys == s.calls.Keys - {c};
    case _ =>
  }

  /** A stop that ended because nothing was in flight leaves no admitted call behind. */
  lemma {:induction false} CleanStop(steps: seq<Step>)
    requires Possible(steps) && Final(steps).view.inflight == 0
    ensures Final(steps).calls == map[]
  {
    RunKeeps(steps);
  }

  /** A stopper ends a daemon that is ready exactly when the daemon was started again after the stopper began and
      nobody is stopping it now. */
  lemma {:induction false} StopsReadyDaemon(steps: seq<Step>, k: string)
    requires Possible(steps) && k in Final(steps).waiting && Final(steps).view.running
    ensures var s := Final(steps); s.view.ready <==> forall j :: j in s.waiting ==> s.waiting[j] < s.starts
  {
    RunKeeps(steps);
  }

  lemma {:induction false} Extend(steps: seq<Step>, step: Step) returns (longer: seq<Step>)
    requires Possible(steps) && Enabled(Final(steps), step)
    ensures longer == steps + [step] && Possible(longer) && Final(longer) == After(Final(steps), step)
  {
    longer := steps + [step];
    assert longer[..|steps|] == steps;
  }

  /** It happens: of two overlapping stops one times out, the daemon is started again, and the other stop, still waiting
      for the old dispatch, then stops the restarted daemon. */
  lemma {:induction false} StaleStopper() returns (before: seq<Step>)
    ensures Possible(before)
    ensures var s := Final(before);
      s.view.ready && Enabled(s, FinishStop("b")) && !After(s, FinishStop("b")).view.running
  {
    before := Extend([], Start);
    before := Extend(before, Enter("c"));
    var s := Final(before);
    assert s.view.inflight == 1;
    before := Extend(before, BeginStop("a"));
    before := Extend(before, BeginStop("b"));
    before := Extend(before, FinishStop("a"));
    before := Extend(before, Start);
  }
}
