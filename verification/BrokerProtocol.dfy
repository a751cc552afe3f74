/** All interleavings of the calls in the sandbox, the broker, the network and the poller, as a state machine.
    A step is one locked section of the broker or one move of the poller; a call may give up waiting at any moment,
    and a posted answer may arrive, arrive late, or never arrive. */
module BrokerProtocol {
  import opened Wrappers
  import opened Broker

  type Counts = map<string, nat>

  function Count(m: Counts, id: string): nat {
    if id in m then m[id] else 0
  }

  function Plus1(m: Counts, id: string): Counts {
    m[id := Count(m, id) + 1]
  }

  datatype Message = Message(id: string, answer: Answer)

  type Items = seq<(string, Request)>

  /** The loop of `_poll_broker`.  `Waiting`: message `serial` was posted and its reply is awaited. */
  datatype Poller =
    | Sleeping
    | Batch(todo: Items)
    | Holding(id: string, answer: Answer, todo: Items)
    | Waiting(serial: nat, id: string, arrived: bool, todo: Items)

  /** `requests` and `returned` hold every call ever made and what it returned; `handled` counts the answers computed
      for a call, `inTime` those that reached the broker while the poller waited for the reply, and `abandoned` those
      the poller gave up on before they had arrived; `reached` holds the calls an answer reached before they
      returned. */
  datatype State = State(pending: Pending, poller: Poller, flight: map<nat, Message>, next: nat,
                         requests: map<string, Request>, returned: map<string, Option<Answer>>,
                         handled: Counts, inTime: Counts, abandoned: Counts, reached: set<string>)

  datatype Step =
    | Enqueue(id: string, request: Request)
    | Return(id: string)
    | Poll(items: Items)
    | Handle(answer: Answer)
    | HandleFails
    | Post
    | Arrive(serial: nat)
    | Lose(serial: nat)
    | Proceed
    | GiveUp
    | EndBatch

  /** Which answers an LLM may compute for a request. */
  type Computes = (Request, Answer) -> bool

  const START := State(map[], Sleeping, map[], 0, map[], map[], map[], map[], map[], {})

  ghost predicate Enabled(s: State, step: Step, computes: Computes) {
    match step
    case Enqueue(id, request) => id !in s.requests
    case Return(id) => id in s.pending
    case Poll(items) => s.poller.Sleeping? && Lists(items, s.pending)
    case Handle(answer) => s.poller.Batch? && s.poller.todo != [] && computes(s.poller.todo[0].1, answer)
    case HandleFails => s.poller.Batch? && s.poller.todo != []
    case Post => s.poller.Holding?
    case Arrive(k) => k in s.flight
    case Lose(k) => k in s.flight
    case Proceed => s.poller.Waiting? && s.poller.arrived
    case GiveUp => s.poller.Waiting?
    case EndBatch => s.poller.Batch? && s.poller.todo == []
  }

  predicate Awaited(s: State, k: nat) {
    s.poller.Waiting? && s.poller.serial == k && !s.poller.arrived
  }

  /** A response for a call that is gone is refused. */
  function Responded(pending: Pending, id: string, response: Option<Answer>): Pending {
    if id in pending then pending[id := pending[id].(response := response)] else pending
  }

  function Arrived(s: State, k: nat): State
    requires k in s.flight
  {
    var m := s.flight[k];
    s.(pending := Responded(s.pending, m.id, Some(m.answer)),
       flight := s.flight - {k},
       reached := if m.id in s.pending then s.reached + {m.id} else s.reached,
       poller := if Awaited(s, k) then s.poller.(arrived := true) else s.poller,
       inTime := if Awaited(s, k) then Plus1(s.inTime, m.id) else s.inTime)
  }

  function After(s: State, step: Step, ghost computes: Computes): State
    requires Enabled(s, step, computes)
  {
    match step
    case Enqueue(id, request) =>
      s.(pending := s.pending[id := Entry(request, None)],
         requests := s.requests[id := request])
    case Return(id) => s.(pending := s.pending - {id}, returned := s.returned[id := Outcome(s.pending, id)])
    case Poll(items) => s.(poller := Batch(items))
    case Handle(answer) =>
      var id := s.poller.todo[0].0;
      s.(poller := Holding(id, answer, s.poller.todo[1..]), handled := Plus1(s.handled, id))
    case HandleFails => s.(poller := Sleeping)
    case Post =>
      s.(poller := Waiting(s.next, s.poller.id, false, s.poller.todo),
         flight := s.flight[s.next := Message(s.poller.id, s.poller.answer)], next := s.next + 1)
    case Arrive(k) => Arrived(s, k)
    case Lose(k) => s.(flight := s.flight - {k})
    case Proceed => s.(poller := Batch(s.poller.todo))
    case GiveUp =>
      s.(poller := Sleeping, abandoned := if s.poller.arrived then s.abandoned else Plus1(s.abandoned, s.poller.id))
    case EndBatch => s.(poller := Sleeping)
  }

  // ---- the invariant ----

  /** The pending dictionary holds exactly the calls that have not returned, with their own requests. */
  ghost predicate Live(s: State) {
    && (forall id :: id in s.pending <==> id in s.requests && id !in s.returned)
    && (forall id :: id in s.returned ==> id in s.requests)
    && forall id :: id in s.pending ==> s.pending[id].request == s.requests[id]
  }

  ghost predicate Own(s: State, id: string, answer: Answer, computes: Computes) {
    id in s.requests && computes(s.requests[id], answer)
  }

  /** Every answer anywhere was computed from the request of the call it is for. */
  ghost predicate OwnAnswers(s: State, computes: Computes) {
    && (forall id :: id in s.pending && s.pending[id].response.Some? ==>
      Own(s, id, s.pending[id].response.value, computes))
    && (forall id :: id in s.returned && s.returned[id].Some? ==> Own(s, id, s.returned[id].value, computes))
    && (forall k :: k in s.flight ==> Own(s, s.flight[k].id, s.flight[k].answer, computes))
    && (s.poller.Holding? ==> Own(s, s.poller.id, s.poller.answer, computes))
  }

  function Todo(p: Poller): Items {
    if p.Sleeping? then [] else p.todo
  }

  ghost predicate Ahead(p: Poller, id: string) {
    exists i :: 0 <= i < |Todo(p)| && Todo(p)[i].0 == id
  }

  /** The answer for `id` is in the poller's hands, or on its way with the poller waiting. */
  predicate Busy(p: Poller, id: string) {
    (p.Holding? && p.id == id) || (p.Waiting? && !p.arrived && p.id == id)
  }

  /** The rest of the batch are distinct calls with their own requests, and what is in hand is not among them. */
  ghost predicate GoodBatch(s: State) {
    var todo := Todo(s.poller);
    && (forall i :: 0 <= i < |todo| ==> todo[i].0 in s.requests && s.requests[todo[i].0] == todo[i].1)
    && (forall i, j :: 0 <= i < j < |todo| ==> todo[i].0 != todo[j].0)
    && forall id :: Busy(s.poller, id) ==> !Ahead(s.poller, id)
  }

  ghost predicate GoodFlight(s: State) {
    && (forall k :: k in s.flight ==> k < s.next)
    && (s.poller.Waiting? ==> s.poller.serial < s.next && s.poller.id in s.requests)
    && (s.poller.Waiting? && s.poller.serial in s.flight ==>
      s.flight[s.poller.serial].id == s.poller.id && !s.poller.arrived)
  }

  ghost predicate Counted(s: State, id: string) {
    && Count(s.handled, id) == Count(s.inTime, id) + Count(s.abandoned, id) + (if Busy(s.poller, id) then 1 else 0)
    && Count(s.inTime, id) <= 1
    && (Count(s.inTime, id) == 1 ==>
         id in s.requests && !Busy(s.poller, id) && !Ahead(s.poller, id)
           && (id in s.pending ==> s.pending[id].response.Some?))
  }

  ghost predicate AllCounted(s: State) {
    forall id :: Counted(s, id)
  }

  /** A call has a response exactly when an answer reached it before it returned. */
  ghost predicate Reaches(s: State) {
    && (forall id :: id in s.reached ==> id in s.requests)
    && (forall id :: id in s.pending ==> (s.pending[id].response.Some? <==> id in s.reached))
    && forall id :: id in s.returned ==> (s.returned[id].Some? <==> id in s.reached)
  }

  ghost predicate Inv(s: State, computes: Computes) {
    Live(s) && OwnAnswers(s, computes) && GoodBatch(s) && GoodFlight(s) && AllCounted(s) && Reaches(s)
  }

  // ---- every step keeps it ----

  lemma {:induction false} TailBatch(s: State, p: Poller)
    requires GoodBatch(s) && s.poller.Batch? && s.poller.todo != []
    requires !p.Sleeping? && p.todo == s.poller.todo[1..]
    ensures var todo := Todo(p);
      && (forall i :: 0 <= i < |todo| ==> todo[i] == s.poller.todo[i + 1])
      && (forall id :: Ahead(p, id) ==> Ahead(s.poller, id) && id != s.poller.todo[0].0)
  {
    forall id | Ahead(p, id) ensures Ahead(s.poller, id) && id != s.poller.todo[0].0 {
      var i :| 0 <= i < |Todo(p)| && Todo(p)[i].0 == id;
      assert s.poller.todo[i + 1].0 == id;
    }
  }

  lemma {:induction false} HandleKeeps(s: State, answer: Answer, computes: Computes)
    requires Inv(s, computes) && Enabled(s, Handle(answer), computes)
    ensures Inv(After(s, Handle(answer), computes), computes)
  {
    var s' := After(s, Handle(answer), computes);
    var id := s.poller.todo[0].0;
    TailBatch(s, s'.poller);
    assert Ahead(s.poller, id);
    forall x { HandleCounts(s, answer, computes, x); }
  }

  lemma {:induction false} HandleCounts(s: State, answer: Answer, computes: Computes, x: string)
    requires Inv(s, computes) && Enabled(s, Handle(answer), computes)
    ensures Counted(After(s, Handle(answer), computes), x)
  {
    TailBatch(s, After(s, Handle(answer), computes).poller);
    assert Ahead(s.poller, s.poller.todo[0].0);
    assert Counted(s, x);
  }

  lemma {:induction false} EnqueueKeeps(s: State, id: string, request: Request, computes: Computes)
    requires Inv(s, computes) && Enabled(s, Enqueue(id, request), computes)
    ensures Inv(After(s, Enqueue(id, request), computes), computes)
  {
    EnqueueOwn(s, id, request, computes);
    EnqueueBatch(s, id, request, computes);
    forall x { EnqueueCounts(s, id, request, computes, x); }
  }

  lemma {:induction false} EnqueueOwn(s: State, id: string, request: Request, computes: Computes)
    requires Inv(s, computes) && Enabled(s, Enqueue(id, request), computes)
    ensures var s' := After(s, Enqueue(id, request), computes);
      Live(s') && OwnAnswers(s', computes)
  {
  }

  lemma {:induction false} EnqueueBatch(s: State, id: string, request: Request, computes: Computes)
    requires Inv(s, computes) && Enabled(s, Enqueue(id, request), computes)
    ensures var s' := After(s, Enqueue(id, request), computes); GoodBatch(s') && GoodFlight(s') && Reaches(s')
  {
  }

  lemma {:induction false} EnqueueCounts(s: State, id: string, request: Request, computes: Computes, x: string)
    requires Inv(s, computes) && Enabled(s, Enqueue(id, request), computes)
    ensures Counted(After(s, Enqueue(id, request), computes), x)
  {
    assert Counted(s, x);
  }

  lemma {:induction false} ReturnKeeps(s: State, id: string, computes: Computes)
    requires Inv(s, computes) && Enabled(s, Return(id), computes)
    ensures Inv(After(s, Return(id), computes), computes)
  {
    var s' := After(s, Return(id), computes);
    forall x ensures Counted(s', x) { assert Counted(s, x); }
  }

  lemma {:induction false} PollKeeps(s: State, items: Items, computes: Computes)
    requires Inv(s, computes) && Enabled(s, Poll(items), computes)
    ensures Inv(After(s, Poll(items), computes), computes)
  {
    forall x { PollCounts(s, items, computes, x); }
  }

  lemma {:induction false} PollCounts(s: State, items: Items, computes: Computes, x: string)
    requires Inv(s, computes) && Enabled(s, Poll(items), computes)
    ensures Counted(After(s, Poll(items), computes), x)
  {
    assert Counted(s, x);
    if Ahead(Batch(items), x) {
      var i :| 0 <= i < |items| && items[i].0 == x;
      assert x in Unanswered(s.pending);
    }
  }

  lemma {:induction false} PostKeeps(s: State, computes: Computes)
    requires Inv(s, computes) && Enabled(s, Post, computes)
    ensures Inv(After(s, Post, computes), computes)
  {
    var s' := After(s, Post, computes);
    forall x ensures Busy(s'.poller, x) == Busy(s.poller, x) && Ahead(s'.poller, x) == Ahead(s.poller, x) {
      assert Todo(s'.poller) == Todo(s.poller);
    }
    forall x ensures Counted(s', x) { assert Counted(s, x); }
  }

  lemma {:induction false} ArriveCounts(s: State, k: nat, computes: Computes, x: string)
    requires Inv(s, computes) && k in s.flight
    ensures Counted(Arrived(s, k), x)
  {
    var s' := Arrived(s, k);
    assert Todo(s'.poller) == Todo(s.poller);
    assert Counted(s, x);
    if Awaited(s, k) { assert Busy(s.poller, s.flight[k].id) && Counted(s, s.flight[k].id); }
  }

  lemma {:induction false} ArriveOwn(s: State, k: nat, computes: Computes)
    requires Inv(s, computes) && k in s.flight
    ensures Live(Arrived(s, k)) && OwnAnswers(Arrived(s, k), computes)
  {
  }

  lemma {:induction false} ArriveFlight(s: State, k: nat, computes: Computes)
    requires Inv(s, computes) && k in s.flight
    ensures Reaches(Arrived(s, k)) && GoodFlight(Arrived(s, k))
  {
  }

  lemma {:induction false} ArriveBatch(s: State, k: nat, computes: Computes)
    requires Inv(s, computes) && k in s.flight
    ensures GoodBatch(Arrived(s, k))
  {
    var s' := Arrived(s, k);
    assert Todo(s'.poller) == Todo(s.poller);
    forall x ensures Ahead(s'.poller, x) == Ahead(s.poller, x) && (Busy(s'.poller, x) ==> Busy(s.poller, x)) { }
  }

  lemma {:induction false} ArriveKeeps(s: State, k: nat, computes: Computes)
    requires Inv(s, computes) && Enabled(s, Arrive(k), computes)
    ensures Inv(After(s, Arrive(k), computes), computes)
  {
    ArriveOwn(s, k, computes);
    ArriveFlight(s, k, computes);
    ArriveBatch(s, k, computes);
    forall x { ArriveCounts(s, k, computes, x); }
  }

  /** What the poller has in hand becomes less. */
  lemma {:induction false} FewerAhead(s: State, p: Poller, id: string)
    requires Todo(p) == [] || Todo(p) == Todo(s.poller)
    ensures Ahead(p, id) ==> Ahead(s.poller, id)
  {
  }

  predicate Stops(step: Step) {
    step.HandleFails? || step.GiveUp? || step.EndBatch? || step.Proceed?
  }

  lemma {:induction false} StopCounts(s: State, step: Step, computes: Computes, x: string)
    requires Inv(s, computes) && Enabled(s, step, computes) && Stops(step)
    ensures Counted(After(s, step, computes), x)
  {
    var s' := After(s, step, computes);
    assert Counted(s, x);
    FewerAhead(s, s'.poller, x);
  }

  lemma {:induction false} StopKeeps(s: State, step: Step, computes: Computes)
    requires Inv(s, computes) && Enabled(s, step, computes) && Stops(step)
    ensures Inv(After(s, step, computes), computes)
  {
    forall x { StopCounts(s, step, computes, x); }
    StopBatch(s, step, computes);
  }

  lemma {:induction false} StopBatch(s: State, step: Step, computes: Computes)
    requires Inv(s, computes) && Enabled(s, step, computes) && Stops(step)
    ensures GoodBatch(After(s, step, computes))
  {
    var s' := After(s, step, computes);
    assert s'.poller == Sleeping || s'.poller == Batch(s.poller.todo);
    assert GoodBatch(s) && s'.requests == s.requests;
    if !s'.poller.Sleeping? { assert Todo(s'.poller) == Todo(s.poller); }
    assert forall id :: !Busy(s'.poller, id);
  }

  lemma {:induction false} LoseKeeps(s: State, k: nat, computes: Computes)
    requires Inv(s, computes) && Enabled(s, Lose(k), computes)
    ensures Inv(After(s, Lose(k), computes), computes)
  {
    var s' := After(s, Lose(k), computes);
    forall x ensures Counted(s', x) { assert Counted(s, x); }
  }

  lemma {:induction false} StepKeeps(s: State, step: Step, computes: Computes)
    requires Inv(s, computes) && Enabled(s, step, computes)
    ensures Inv(After(s, step, computes), computes)
  {
    match step
    case Enqueue(id, request) => EnqueueKeeps(s, id, request, computes);
    case Return(id) => ReturnKeeps(s, id, computes);
    case Poll(items) => PollKeeps(s, items, computes);
    case Handle(answer) => HandleKeeps(s, answer, computes);
    case HandleFails => StopKeeps(s, step, computes);
    case Post => PostKeeps(s, computes);
    case Arrive(k) => ArriveKeeps(s, k, computes);
    case Lose(k) => LoseKeeps(s, k, computes);
    case Proceed => StopKeeps(s, step, computes);
    case GiveUp => StopKeeps(s, step, computes);
    case EndBatch => StopKeeps(s, step, computes);
  }

  // ---- runs ----

  ghost predicate Reachable(s: State, steps: seq<Step>, computes: Computes)
    decreases |steps|
  {
    if steps == [] then s == START
    else
      var front, last := steps[..|steps| - 1], steps[|steps| - 1];
      exists before :: Leads(before, last, s, computes) && Reachable(before, front, computes)
  }

  ghost predicate Leads(before: State, step: Step, after: State, computes: Computes) {
    Enabled(before, step, computes) && after == After(before, step, computes)
  }

  lemma {:induction false} RunKeeps(s: State, steps: seq<Step>, computes: Computes)
    requires Reachable(s, steps, computes)
    ensures Inv(s, computes)
    decreases |steps|
  {
    if steps == [] {
      forall id ensures Counted(s, id) { }
    } else {
      var before :| Reachable(before, steps[..|steps| - 1], computes) && Leads(before, steps[|steps| - 1], s, computes);
      RunKeeps(before, steps[..|steps| - 1], computes);
      StepKeeps(before, steps[|steps| - 1], computes);
    }
  }

  /** In every interleaving, a call that returns an answer returns one computed from its own request, and it times out
      exactly when no answer had reached it. */
  lemma {:induction false} AnswersAreOwn(s: State, steps: seq<Step>, computes: Computes, id: string)
    requires Reachable(s, steps, computes) && id in s.returned
    ensures s.returned[id].Some? ==> id in s.requests && computes(s.requests[id], s.returned[id].value)
    ensures s.returned[id].Some? <==> id in s.reached
  {
    RunKeeps(s, steps, computes);
  }

  /** The broker holds exactly the calls that have not returned. */
  lemma {:induction false} PendingAreOpen(s: State, steps: seq<Step>, computes: Computes)
    requires Reachable(s, steps, computes)
    ensures s.pending.Keys == s.requests.Keys - s.returned.Keys
  {
    RunKeeps(s, steps, computes);
  }

  /** An answer that arrives after its call has returned changes nothing for any call. */
  lemma {:induction false} LateAnswerIgnored(s: State, steps: seq<Step>, computes: Computes, k: nat)
    requires Reachable(s, steps, computes) && k in s.flight && s.flight[k].id in s.returned
    ensures var s' := After(s, Arrive(k), computes);
      s'.pending == s.pending && s'.returned == s.returned && s'.reached == s.reached
  {
    RunKeeps(s, steps, computes);
  }

  /** A call is handled more than once only as often as the poller gave up on an answer that had not arrived. */
  lemma {:induction false} HandledOncePlusAbandoned(s: State, steps: seq<Step>, computes: Computes, id: string)
    requires Reachable(s, steps, computes)
    ensures Count(s.handled, id) <= 1 + Count(s.abandoned, id)
  {
    RunKeeps(s, steps, computes);
    assert Counted(s, id);
  }

  /** How often a call was handled, exactly: once for an answer that arrived in time, once for each answer the poller
      gave up on, and once for the answer it is busy with; at most one answer arrives in time. */
  lemma {:induction false} HandledExactly(s: State, steps: seq<Step>, computes: Computes, id: string)
    requires Reachable(s, steps, computes)
    ensures Count(s.handled, id) == Count(s.inTime, id) + Count(s.abandoned, id) + (if Busy(s.poller, id) then 1 else 0)
    ensures Count(s.inTime, id) <= 1 && (Busy(s.poller, id) ==> Count(s.inTime, id) == 0)
  {
    RunKeeps(s, steps, computes);
    assert Counted(s, id);
  }

  lemma {:induction false} Extend(s: State, steps: seq<Step>, step: Step, computes: Computes)
    returns (s': State, steps': seq<Step>)
    requires Reachable(s, steps, computes) && Enabled(s, step, computes)
    ensures s' == After(s, step, computes) && Reachable(s', steps', computes) && steps' == steps + [step]
  {
    s', steps' := After(s, step, computes), steps + [step];
    assert steps'[..|steps|] == steps && Leads(s, step, s', computes);
  }

  /** A call is made, polled and handled, and its answer is posted. */
  lemma {:induction false} OncePosted(id: string, request: Request, answer: Answer, computes: Computes)
    returns (s: State, steps: seq<Step>)
    requires computes(request, answer)
    ensures Reachable(s, steps, computes) && forall k :: Lose(k) !in steps
    ensures s == State(map[id := Entry(request, None)], Waiting(0, id, false, []), map[0 := Message(id, answer)], 1,
                       map[id := request], map[], map[id := 1], map[], map[], {})
  {
    s, steps := START, [];
    s, steps := Extend(s, steps, Enqueue(id, request), computes);
    s, steps := Once(s, steps, id, request, answer, computes);
    s, steps := Extend(s, steps, Post, computes);
  }

  /** The bound is met: one lost answer, and the call is handled twice. */
  lemma {:induction false} HandledTwice(id: string, request: Request, answer: Answer, computes: Computes)
    returns (s: State, steps: seq<Step>)
    requires computes(request, answer)
    ensures Reachable(s, steps, computes) && Count(s.handled, id) == 2 && Count(s.abandoned, id) == 1
  {
    s, steps := OncePosted(id, request, answer, computes);
    s, steps := Extend(s, steps, Lose(0), computes);
    s, steps := Extend(s, steps, GiveUp, computes);
    s, steps := Once(s, steps, id, request, answer, computes);
  }

  /** It takes no lost answer: the poller gives up on one that is still on its way, and the call is handled twice. */
  lemma {:induction false} HandledTwiceNoneLost(id: string, request: Request, answer: Answer, computes: Computes)
    returns (s: State, steps: seq<Step>)
    requires computes(request, answer)
    ensures Reachable(s, steps, computes) && Count(s.handled, id) == 2
    ensures (forall k :: Lose(k) !in steps) && 0 in s.flight && s.flight[0] == Message(id, answer)
  {
    s, steps := OncePosted(id, request, answer, computes);
    s, steps := Extend(s, steps, GiveUp, computes);
    s, steps := Once(s, steps, id, request, answer, computes);
  }

  /** The only pending call is polled and handled. */
  lemma {:induction false} Once(s: State, steps: seq<Step>, id: string, request: Request, answer: Answer,
                                computes: Computes)
    returns (s': State, steps': seq<Step>)
    requires Reachable(s, steps, computes) && computes(request, answer)
    requires s.poller.Sleeping? && s.pending == map[id := Entry(request, None)]
    ensures Reachable(s', steps', computes)
    ensures s' == s.(poller := Holding(id, answer, []), handled := Plus1(s.handled, id))
    ensures steps' == steps + [Poll([(id, request)]), Handle(answer)]
  {
    var items := [(id, request)];
    assert items[0].0 == id;
    s', steps' := Extend(s, steps, Poll(items), computes);
    assert items[1..] == [];
    s', steps' := Extend(s', steps', Handle(answer), computes);
  }
}
