/** The sliding-window rate limiter of the gateway: a pruned queue of accepted calls for each chat. */
module RateLimit {

  /** A call as it gets the lock, with the time it read before. */
  datatype Call = Call(chat: int, now: real)

  type Queues = map<int, seq<real>>

  function Queue(qs: Queues, chat: int): seq<real> {
    if chat in qs then qs[chat] else []
  }

  /** `while q and q[0] < cutoff: q.popleft()`. */
  function Pruned(q: seq<real>, cutoff: real): seq<real> {
    if q != [] && q[0] < cutoff then Pruned(q[1..], cutoff) else q
  }

  // ---- the limiter over a whole history of calls ----

  datatype Limit = Limit(max: int, window: real)

  /** A call is accepted when its pruned queue has room; the queue is kept either way. */
  function Stored(q: seq<real>, now: real, max: int): seq<real> {
    if |q| < max then q + [now] else q
  }

  /** The queues after the calls, in the order in which they got the lock. */
  function QueuesAfter(l: Limit, calls: seq<Call>): Queues {
    if calls == [] then map[]
    else
      var before, c := QueuesAfter(l, calls[..|calls| - 1]), calls[|calls| - 1];
      before[c.chat := Stored(Pruned(Queue(before, c.chat), c.now - l.window), c.now, l.max)]
  }

  /** The answer to call `c` after `calls`. */
  predicate Decides(l: Limit, calls: seq<Call>, c: Call) {
    |Pruned(Queue(QueuesAfter(l, calls), c.chat), c.now - l.window)| < l.max
  }

  class RateLimiter {
    const limit: Limit
    var queues: Queues
    ghost var calls: seq<Call>

    ghost predicate Valid()
      reads this
    {
      queues == QueuesAfter(limit, calls)
    }

    constructor (max: int, window: real)
      ensures Valid() && limit == Limit(max, window) && calls == []
    {
      limit, queues, calls := Limit(max, window), map[], [];
    }

    method Allow(chat: int, now: real) returns (ok: bool)
      requires Valid()
      modifies this
      ensures Valid() && calls == old(calls) + [Call(chat, now)]
      ensures ok == Decides(limit, old(calls), Call(chat, now))
      ensures forall other :: other != chat ==> Queue(queues, other) == Queue(old(queues), other)
    {
      ghost var before := calls;
      calls := calls + [Call(chat, now)];
      assert calls[..|before|] == before;
      var q := Queue(queues, chat);
      var cutoff := now - limit.window;
      while q != [] && q[0] < cutoff
        invariant Pruned(q, cutoff) == Pruned(Queue(queues, chat), cutoff)
      {
        q := q[1..];
      }
      ok := |q| < limit.max;
      if ok { q := q + [now]; }
      queues := queues[chat := q];
    }
  }

  // ---- the specification: counting accepted calls ----

  /** The times of the accepted calls of one chat. */
  function Accepted(l: Limit, calls: seq<Call>, chat: int): seq<real> {
    if calls == [] then []
    else
      var front, c := calls[..|calls| - 1], calls[|calls| - 1];
      Accepted(l, front, chat) + if c.chat == chat && Decides(l, front, c) then [c.now] else []
  }

  /** How many of the times lie in the closed interval from `a` to `b`. */
  function Within(ts: seq<real>, a: real, b: real): nat {
    if ts == [] then 0 else Within(ts[..|ts| - 1], a, b) + if a <= ts[|ts| - 1] <= b then 1 else 0
  }

  /** It is their number, each place counted. */
  lemma {:induction false} WithinCounts(ts: seq<real>, a: real, b: real)
    ensures Within(ts, a, b) == |set i | 0 <= i < |ts| && a <= ts[i] && ts[i] <= b|
  {
    var all := set i | 0 <= i < |ts| && a <= ts[i] && ts[i] <= b;
    if ts != [] {
      var last, front := |ts| - 1, ts[..|ts| - 1];
      WithinCounts(front, a, b);
      var before := set i | 0 <= i < |front| && a <= front[i] && front[i] <= b;
      assert all == before + if a <= ts[last] <= b then {last} else {};
    } else {
      assert all == {};
    }
  }

  ghost predicate Monotone(calls: seq<Call>) {
    forall i, j :: 0 <= i < j < |calls| ==> calls[i].now <= calls[j].now
  }

  ghost predicate UpTo(ts: seq<real>, t: real) {
    forall i :: 0 <= i < |ts| ==> ts[i] <= t
  }

  ghost predicate Ascending(ts: seq<real>) {
    forall i, j :: 0 <= i < j < |ts| ==> ts[i] <= ts[j]
  }

  lemma {:induction false} WithinAppend(ts: seq<real>, t: real, a: real, b: real)
    ensures Within(ts + [t], a, b) == Within(ts, a, b) + if a <= t <= b then 1 else 0
  {
    assert (ts + [t])[..|ts|] == ts;
  }

  lemma {:induction false} WithinConcat(s: seq<real>, t: seq<real>, a: real, b: real)
    ensures Within(s + t, a, b) == Within(s, a, b) + Within(t, a, b)
  {
    if t == [] {
      assert s + t == s;
    } else {
      WithinConcat(s, t[..|t| - 1], a, b);
      assert s + t == s + t[..|t| - 1] + [t[|t| - 1]];
      WithinAppend(s + t[..|t| - 1], t[|t| - 1], a, b);
    }
  }

  lemma {:induction false} AllWithin(ts: seq<real>, a: real, b: real)
    requires forall i :: 0 <= i < |ts| ==> a <= ts[i] <= b
    ensures Within(ts, a, b) == |ts|
  {
    if ts != [] { AllWithin(ts[..|ts| - 1], a, b); }
  }

  lemma {:induction false} WithinCons(t: real, ts: seq<real>, a: real, b: real)
    ensures Within([t] + ts, a, b) == (if a <= t <= b then 1 else 0) + Within(ts, a, b)
  {
    WithinConcat([t], ts, a, b);
    WithinAppend([], t, a, b);
    assert [] + [t] == [t];
  }

  /** Pruning an ascending queue drops only times before the cutoff, and all of them. */
  lemma {:induction false} PrunedRecent(q: seq<real>, cutoff: real)
    requires Ascending(q)
    ensures Ascending(Pruned(q, cutoff)) && forall i :: 0 <= i < |Pruned(q, cutoff)| ==> Pruned(q, cutoff)[i] >= cutoff
    ensures forall t :: UpTo(q, t) ==> UpTo(Pruned(q, cutoff), t)
  {
    if q != [] && q[0] < cutoff {
      assert forall i :: 0 <= i < |q| - 1 ==> q[1..][i] == q[i + 1];
      PrunedRecent(q[1..], cutoff);
    }
  }

  lemma {:induction false} PrunedWithin(q: seq<real>, cutoff: real, a: real, b: real)
    requires a >= cutoff
    ensures Within(Pruned(q, cutoff), a, b) == Within(q, a, b)
  {
    if q != [] && q[0] < cutoff {
      PrunedWithin(q[1..], cutoff, a, b);
      WithinCons(q[0], q[1..], a, b);
      assert q == [q[0]] + q[1..];
    }
  }

  /** From the cutoff on, the queue holds the same times as the accepted calls. */
  ghost predicate Agrees(q: seq<real>, accepted: seq<real>, cutoff: real) {
    forall a, b :: a >= cutoff ==> Within(q, a, b) == Within(accepted, a, b)
  }

  /** With a clock that does not go back: the queue of a chat is in order and agrees with its accepted calls on all
      that can still count. */
  ghost predicate Faithful(q: seq<real>, accepted: seq<real>, l: Limit, now: real) {
    match l
    case Limit(_, window) =>
      Ascending(q) && UpTo(q, now) && UpTo(accepted, now) && Agrees(q, accepted, now - window)
  }

  lemma {:induction false} PrunedAgrees(q: seq<real>, accepted: seq<real>, cutoff: real)
    requires Agrees(q, accepted, cutoff)
    ensures Agrees(Pruned(q, cutoff), accepted, cutoff)
  {
    forall a, b | a >= cutoff { PrunedWithin(q, cutoff, a, b); }
  }

  lemma {:induction false} AgreesGrows(q: seq<real>, accepted: seq<real>, cutoff: real, t: real)
    requires Agrees(q, accepted, cutoff)
    ensures Agrees(q + [t], accepted + [t], cutoff)
  {
    forall a, b | a >= cutoff ensures Within(q + [t], a, b) == Within(accepted + [t], a, b) {
      WithinAppend(q, t, a, b);
      WithinAppend(accepted, t, a, b);
    }
  }

  lemma {:induction false} FaithfulLater(q: seq<real>, accepted: seq<real>, l: Limit, t: real, now: real)
    requires Faithful(q, accepted, l, t) && t <= now
    ensures Faithful(q, accepted, l, now)
  {
  }

  /** Pruning keeps the agreement, and then the length of the queue is the number of calls in the window. */
  lemma {:induction false} FaithfulPruned(q: seq<real>, accepted: seq<real>, l: Limit, t: real)
    requires Faithful(q, accepted, l, t)
    ensures Faithful(Pruned(q, t - l.window), accepted, l, t)
    ensures Within(accepted, t - l.window, t) == |Pruned(q, t - l.window)|
  {
    PrunedRecent(q, t - l.window);
    PrunedAgrees(q, accepted, t - l.window);
    AllWithin(Pruned(q, t - l.window), t - l.window, t);
  }

  lemma {:induction false} FaithfulCounts(q: seq<real>, accepted: seq<real>, l: Limit, t: real)
    requires Faithful(q, accepted, l, t)
    ensures Within(accepted, t - l.window, t) == |Pruned(q, t - l.window)|
  {
    FaithfulPruned(q, accepted, l, t);
  }

  lemma {:induction false} FaithfulGrows(q: seq<real>, accepted: seq<real>, l: Limit, t: real)
    requires Faithful(q, accepted, l, t)
    ensures Faithful(q + [t], accepted + [t], l, t)
  {
    AgreesGrows(q, accepted, t - l.window, t);
  }

  /** What one more call does to the queue and the accepted calls of a chat. */
  lemma {:induction false} NextCall(l: Limit, front: seq<Call>, c: Call, chat: int)
    ensures var q, a, calls := Queue(QueuesAfter(l, front), chat), Accepted(l, front, chat), front + [c];
      var q', a' := Queue(QueuesAfter(l, calls), chat), Accepted(l, calls, chat);
      if c.chat != chat then q' == q && a' == a
      else if Decides(l, front, c) then q' == Pruned(q, c.now - l.window) + [c.now] && a' == a + [c.now]
      else q' == Pruned(q, c.now - l.window) && a' == a
  {
    assert (front + [c])[..|front|] == front;
  }

  /** What one more call at time `t` can do to the queue and the accepted calls of a chat. */
  ghost predicate Moves(q: seq<real>, a: seq<real>, q': seq<real>, a': seq<real>, window: real, t: real) {
    || (q' == q && a' == a)
    || (q' == Pruned(q, t - window) && a' == a)
    || (q' == Pruned(q, t - window) + [t] && a' == a + [t])
  }

  lemma {:induction false} NextMoves(l: Limit, front: seq<Call>, c: Call, chat: int)
    ensures Moves(Queue(QueuesAfter(l, front), chat), Accepted(l, front, chat),
                  Queue(QueuesAfter(l, front + [c]), chat), Accepted(l, front + [c], chat), l.window, c.now)
  {
    NextCall(l, front, c, chat);
  }

  lemma {:induction false} QueueFaithful(l: Limit, calls: seq<Call>, chat: int, now: real)
    requires Monotone(calls) && forall i :: 0 <= i < |calls| ==> calls[i].now <= now
    ensures Faithful(Queue(QueuesAfter(l, calls), chat), Accepted(l, calls, chat), l, now)
  {
    if calls != [] {
      var front, c := calls[..|calls| - 1], calls[|calls| - 1];
      assert calls == front + [c];
      MonotonePrefix(front, c);
      QueueFaithful(l, front, chat, c.now);
      FaithfulNext(l, front, c, chat, now);
    }
  }

  lemma {:induction false} FaithfulNext(l: Limit, front: seq<Call>, c: Call, chat: int, now: real)
    requires Faithful(Queue(QueuesAfter(l, front), chat), Accepted(l, front, chat), l, c.now) && c.now <= now
    ensures Faithful(Queue(QueuesAfter(l, front + [c]), chat), Accepted(l, front + [c], chat), l, now)
  {
    NextMoves(l, front, c, chat);
    FaithfulMoves(Queue(QueuesAfter(l, front), chat), Accepted(l, front, chat),
                  Queue(QueuesAfter(l, front + [c]), chat), Accepted(l, front + [c], chat), l, c.now, now);
  }

  lemma {:induction false} FaithfulMoves(q: seq<real>, a: seq<real>, q': seq<real>, a': seq<real>, l: Limit,
                                         t: real, now: real)
    requires Faithful(q, a, l, t) && t <= now && Moves(q, a, q', a', l.window, t)
    ensures Faithful(q', a', l, now)
  {
    FaithfulPruned(q, a, l, t);
    FaithfulGrows(Pruned(q, t - l.window), a, l, t);
    FaithfulLater(q', a', l, t, now);
  }

  // ---- the main results ----

  lemma {:induction false} MonotonePrefix(calls: seq<Call>, c: Call)
    requires Monotone(calls + [c])
    ensures Monotone(calls) && forall i :: 0 <= i < |calls| ==> calls[i].now <= c.now
  {
    var all := calls + [c];
    assert all[|calls|] == c && forall i :: 0 <= i < |calls| ==> all[i] == calls[i];
  }

  lemma {:induction false} QueueCounts(l: Limit, calls: seq<Call>, chat: int, now: real)
    requires Monotone(calls) && forall i :: 0 <= i < |calls| ==> calls[i].now <= now
    ensures Within(Accepted(l, calls, chat), now - l.window, now) ==
      |Pruned(Queue(QueuesAfter(l, calls), chat), now - l.window)|
  {
    QueueFaithful(l, calls, chat, now);
    FaithfulCounts(Queue(QueuesAfter(l, calls), chat), Accepted(l, calls, chat), l, now);
  }

  lemma {:induction false} DecidesByCount(l: Limit, calls: seq<Call>, c: Call)
    requires Monotone(calls) && forall i :: 0 <= i < |calls| ==> calls[i].now <= c.now
    ensures Decides(l, calls, c) <==> Within(Accepted(l, calls, c.chat), c.now - l.window, c.now) < l.max
  {
    QueueCounts(l, calls, c.chat, c.now);
  }

  /** Calls of one chat decide as if they were the only ones. */
  lemma {:induction false} ChatsApart(l: Limit, calls: seq<Call>, chat: int)
    ensures Queue(QueuesAfter(l, calls), chat) == Queue(QueuesAfter(l, OfChat(calls, chat)), chat)
    ensures Accepted(l, calls, chat) == Accepted(l, OfChat(calls, chat), chat)
  {
    if calls != [] {
      var front, c := calls[..|calls| - 1], calls[|calls| - 1];
      assert calls == front + [c];
      ChatsApart(l, front, chat);
      NextCall(l, front, c, chat);
      if c.chat == chat { NextCall(l, OfChat(front, chat), c, chat); }
    }
  }

  function OfChat(calls: seq<Call>, chat: int): seq<Call> {
    if calls == [] then []
    else
      var front, c := OfChat(calls[..|calls| - 1], chat), calls[|calls| - 1];
      if c.chat == chat then front + [c] else front
  }

  lemma {:induction false} OfChatNext(calls: seq<Call>, c: Call)
    ensures OfChat(calls + [c], c.chat) == OfChat(calls, c.chat) + [c]
  {
    assert (calls + [c])[..|calls|] == calls;
  }

  /** If the clock does not go back for a chat, a call is accepted exactly when fewer than `max` accepted calls of its
      own chat lie in the window that ends now; calls of other chats, and their times, play no part. */
  lemma {:induction false} AcceptsExactlyWhen(l: Limit, calls: seq<Call>, c: Call)
    requires Monotone(OfChat(calls + [c], c.chat))
    ensures Decides(l, calls, c) <==> Within(Accepted(l, calls, c.chat), c.now - l.window, c.now) < l.max
  {
    var own := OfChat(calls, c.chat);
    OfChatNext(calls, c);
    MonotonePrefix(own, c);
    DecidesByCount(l, own, c);
    ChatsApart(l, calls, c.chat);
  }

  // ---- the bound, for clocks that may lag ----

  /** Every call is at most `d` behind each earlier one. */
  ghost predicate Lagging(calls: seq<Call>, d: real) {
    forall i, j :: 0 <= i < j < |calls| ==> calls[i].now - d <= calls[j].now
  }

  lemma {:induction false} LaggingPrefix(calls: seq<Call>, c: Call, d: real)
    requires Lagging(calls + [c], d)
    ensures Lagging(calls, d) && forall i :: 0 <= i < |calls| ==> calls[i].now <= c.now + d
  {
    var all := calls + [c];
    assert all[|calls|] == c && forall i :: 0 <= i < |calls| ==> all[i] == calls[i];
  }

  lemma {:induction false} AgreesPruned(q: seq<real>, accepted: seq<real>, cutoff: real, later: real)
    requires Agrees(q, accepted, later) && cutoff <= later
    ensures Agrees(Pruned(q, cutoff), accepted, later)
  {
    forall a, b | a >= later { PrunedWithin(q, cutoff, a, b); }
  }

  lemma {:induction false} AgreesMoves(q: seq<real>, a: seq<real>, q': seq<real>, a': seq<real>, window: real, t: real,
                                       m: real)
    requires Agrees(q, a, m - window) && t <= m && Moves(q, a, q', a', window, t)
    ensures Agrees(q', a', m - window)
  {
    AgreesPruned(q, a, t - window, m - window);
    AgreesGrows(Pruned(q, t - window), a, m - window, t);
  }

  /** In whatever order the calls come: nothing that is less than a window older than the latest of them was pruned. */
  lemma {:induction false} QueueAgrees(l: Limit, calls: seq<Call>, chat: int, m: real)
    requires forall i :: 0 <= i < |calls| ==> calls[i].now <= m
    ensures Agrees(Queue(QueuesAfter(l, calls), chat), Accepted(l, calls, chat), m - l.window)
  {
    if calls != [] {
      var front, c := calls[..|calls| - 1], calls[|calls| - 1];
      assert calls == front + [c];
      QueueAgrees(l, front, chat, m);
      NextMoves(l, front, c, chat);
      AgreesMoves(Queue(QueuesAfter(l, front), chat), Accepted(l, front, chat),
                  Queue(QueuesAfter(l, calls), chat), Accepted(l, calls, chat), l.window, c.now, m);
    }
  }

  lemma {:induction false} WithinAtMost(ts: seq<real>, a: real, b: real)
    ensures Within(ts, a, b) <= |ts|
  {
    if ts != [] { WithinAtMost(ts[..|ts| - 1], a, b); }
  }

  /** An accepted call finds room: the accepted calls of a short enough interval around it are all in its queue. */
  lemma {:induction false} RoomIn(q: seq<real>, accepted: seq<real>, window: real, t: real, d: real, a: real)
    requires Agrees(q, accepted, t + d - window) && d >= 0.0 && t <= a + (window - d)
    ensures Within(accepted, a, a + (window - d)) <= |Pruned(q, t - window)|
  {
    var b := a + (window - d);
    assert a >= t + d - window;
    PrunedWithin(q, t - window, a, b);
    WithinAtMost(Pruned(q, t - window), a, b);
  }

  lemma {:induction false} RoomLeft(l: Limit, front: seq<Call>, c: Call, d: real, a: real)
    requires forall i :: 0 <= i < |front| ==> front[i].now <= c.now + d
    requires d >= 0.0 && Decides(l, front, c) && c.now <= a + (l.window - d)
    ensures Within(Accepted(l, front, c.chat), a, a + (l.window - d)) < l.max
  {
    QueueRoom(l, front, c.chat, c.now, d, a);
  }

  lemma {:induction false} QueueRoom(l: Limit, front: seq<Call>, chat: int, now: real, d: real, a: real)
    requires forall i :: 0 <= i < |front| ==> front[i].now <= now + d
    requires d >= 0.0 && now <= a + (l.window - d)
    ensures Within(Accepted(l, front, chat), a, a + (l.window - d)) <=
      |Pruned(Queue(QueuesAfter(l, front), chat), now - l.window)|
  {
    QueueAgrees(l, front, chat, now + d);
    RoomIn(Queue(QueuesAfter(l, front), chat), Accepted(l, front, chat), l.window, now, d, a);
  }

  lemma {:induction false} NextAccepted(l: Limit, front: seq<Call>, c: Call, chat: int)
    ensures Accepted(l, front + [c], chat) == Accepted(l, front, chat) +
      if c.chat == chat && Decides(l, front, c) then [c.now] else []
  {
    assert (front + [c])[..|front|] == front;
  }

  lemma {:induction false} BoundNext(l: Limit, front: seq<Call>, c: Call, chat: int, d: real, a: real)
    requires d >= 0.0 && forall i :: 0 <= i < |front| ==> front[i].now <= c.now + d
    requires Within(Accepted(l, front, chat), a, a + (l.window - d)) <= if l.max >= 0 then l.max else 0
    ensures Within(Accepted(l, front + [c], chat), a, a + (l.window - d)) <= if l.max >= 0 then l.max else 0
  {
    var before, b := Accepted(l, front, chat), a + (l.window - d);
    NextAccepted(l, front, c, chat);
    if c.chat == chat && Decides(l, front, c) {
      WithinAppend(before, c.now, a, b);
      if a <= c.now <= b { RoomLeft(l, front, c, d, a); }
    } else {
      assert before + [] == before;
    }
  }

  lemma {:induction false} OwnBound(l: Limit, own: seq<Call>, chat: int, d: real, a: real)
    requires Lagging(own, d) && d >= 0.0
    ensures Within(Accepted(l, own, chat), a, a + (l.window - d)) <= if l.max >= 0 then l.max else 0
  {
    if own != [] {
      var front, c := own[..|own| - 1], own[|own| - 1];
      assert own == front + [c];
      LaggingPrefix(front, c, d);
      OwnBound(l, front, chat, d, a);
      BoundNext(l, front, c, chat, d, a);
    }
  }

  /** If every call of a chat is at most `d` behind each earlier call of that chat, no closed interval that is shorter
      than the window by `d` holds more than `max` accepted calls of the chat. */
  lemma {:induction false} LagBound(l: Limit, calls: seq<Call>, chat: int, d: real, a: real)
    requires Lagging(OfChat(calls, chat), d) && d >= 0.0
    ensures Within(Accepted(l, calls, chat), a, a + (l.window - d)) <= if l.max >= 0 then l.max else 0
  {
    OwnBound(l, OfChat(calls, chat), chat, d, a);
    ChatsApart(l, calls, chat);
  }

  /** If the clock does not go back for a chat, no closed interval as long as the window holds more than `max` accepted
      calls of it. */
  lemma {:induction false} WindowBound(l: Limit, calls: seq<Call>, chat: int, a: real)
    requires Monotone(OfChat(calls, chat))
    ensures Within(Accepted(l, calls, chat), a, a + l.window) <= if l.max >= 0 then l.max else 0
  {
    LagBound(l, calls, chat, 0.0, a);
  }

  /** The time is read before the lock is taken, so calls can get the lock in another order than their times, and then
      the bound of the whole window fails.  What `LagBound` leaves is sharp: however little longer the interval is,
      with two calls allowed it can hold three. */
  lemma {:induction false} OutOfOrderBreaksBound(window: real, d: real, e: real) returns (calls: seq<Call>)
    requires 0.0 < e <= d <= window
    ensures Lagging(OfChat(calls, 7), d)
    ensures Within(Accepted(Limit(2, window), calls, 7), 0.0, window - d + e) == 3
  {
    var late, last := window + e, window - d + e;
    calls := [Call(7, 0.0), Call(7, 0.0), Call(7, late), Call(7, last)];
    FourCalls(Limit(2, window), late, last);
    AllOfChat(calls, 7);
    ThreeWithin(late, last);
  }

  /** The queue and the accepted calls of chat 7. */
  ghost predicate Stands(l: Limit, calls: seq<Call>, q: seq<real>, accepted: seq<real>) {
    Queue(QueuesAfter(l, calls), 7) == q && Accepted(l, calls, 7) == accepted
  }

  lemma {:induction false} FourCalls(l: Limit, late: real, last: real)
    requires l.max == 2 && 0.0 <= l.window < late && last <= late <= last + l.window
    ensures Accepted(l, [Call(7, 0.0), Call(7, 0.0), Call(7, late), Call(7, last)], 7) == [0.0, 0.0, late, last]
  {
    TwoCalls(l);
    ThirdCall(l, late);
    FourthCall(l, late, last);
  }

  lemma {:induction false} TwoCalls(l: Limit)
    requires l.max == 2 && l.window >= 0.0
    ensures Stands(l, [Call(7, 0.0), Call(7, 0.0)], [0.0, 0.0], [0.0, 0.0])
  {
    OneMore(l, [], 0.0, [], [], []);
    assert [] + [Call(7, 0.0)] == [Call(7, 0.0)] && [] + [0.0] == [0.0];
    OneMore(l, [Call(7, 0.0)], 0.0, [0.0], [0.0], [0.0]);
    assert [Call(7, 0.0)] + [Call(7, 0.0)] == [Call(7, 0.0), Call(7, 0.0)] && [0.0] + [0.0] == [0.0, 0.0];
  }

  lemma {:induction false} ThirdCall(l: Limit, late: real)
    requires l.max == 2 && 0.0 <= l.window < late && Stands(l, [Call(7, 0.0), Call(7, 0.0)], [0.0, 0.0], [0.0, 0.0])
    ensures Stands(l, [Call(7, 0.0), Call(7, 0.0), Call(7, late)], [late], [0.0, 0.0, late])
  {
    var c := Call(7, 0.0);
    TwoPrunedAway(late - l.window);
    OneMore(l, [c, c], late, [0.0, 0.0], [], [0.0, 0.0]);
    assert [] + [late] == [late];
    assert [c, c] + [Call(7, late)] == [c, c, Call(7, late)] && [0.0, 0.0] + [late] == [0.0, 0.0, late];
  }

  lemma {:induction false} FourthCall(l: Limit, late: real, last: real)
    requires l.max == 2 && 0.0 <= l.window && last <= late <= last + l.window
    requires Stands(l, [Call(7, 0.0), Call(7, 0.0), Call(7, late)], [late], [0.0, 0.0, late])
    ensures Stands(l, [Call(7, 0.0), Call(7, 0.0), Call(7, late), Call(7, last)], [late, last], [0.0, 0.0, late, last])
  {
    var calls := [Call(7, 0.0), Call(7, 0.0), Call(7, late)];
    OneMore(l, calls, last, [late], [late], [0.0, 0.0, late]);
    assert calls + [Call(7, last)] == [Call(7, 0.0), Call(7, 0.0), Call(7, late), Call(7, last)];
    assert [late] + [last] == [late, last] && [0.0, 0.0, late] + [last] == [0.0, 0.0, late, last];
  }

  lemma {:induction false} TwoPrunedAway(cutoff: real)
    requires 0.0 < cutoff
    ensures Pruned([0.0, 0.0], cutoff) == []
  {
    PrunedAway(0.0, [0.0], cutoff);
    PrunedAway(0.0, [], cutoff);
    assert [0.0] + [] == [0.0] && [0.0] + [0.0] == [0.0, 0.0];
  }

  lemma {:induction false} PrunedAway(t: real, rest: seq<real>, cutoff: real)
    requires t < cutoff
    ensures Pruned([t] + rest, cutoff) == Pruned(rest, cutoff)
  {
    assert ([t] + rest)[1..] == rest;
  }

  lemma {:induction false} ThreeWithin(late: real, last: real)
    requires 0.0 <= last < late
    ensures Within([0.0, 0.0, late, last], 0.0, last) == 3
  {
    assert [] + [0.0] == [0.0] && [0.0] + [0.0] == [0.0, 0.0] && [0.0, 0.0] + [late] == [0.0, 0.0, late];
    assert [0.0, 0.0, late] + [last] == [0.0, 0.0, late, last];
    WithinAppend([], 0.0, 0.0, last);
    WithinAppend([0.0], 0.0, 0.0, last);
    WithinAppend([0.0, 0.0], late, 0.0, last);
    WithinAppend([0.0, 0.0, late], last, 0.0, last);
  }

  lemma {:induction false} AllOfChat(calls: seq<Call>, chat: int)
    requires forall i :: 0 <= i < |calls| ==> calls[i].chat == chat
    ensures OfChat(calls, chat) == calls
  {
    if calls != [] { AllOfChat(calls[..|calls| - 1], chat); }
  }

  lemma {:induction false} OneMore(l: Limit, calls: seq<Call>, now: real, q: seq<real>, kept: seq<real>,
                                   accepted: seq<real>)
    requires Stands(l, calls, q, accepted) && Pruned(q, now - l.window) == kept && |kept| < l.max
    ensures Stands(l, calls + [Call(7, now)], kept + [now], accepted + [now])
  {
    var c := Call(7, now);
    assert Decides(l, calls, c);
    NextCall(l, calls, c, 7);
  }
}
