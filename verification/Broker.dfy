/** The request broker that runs inside the sandbox: a dictionary of pending calls under a lock. */
module Broker {
  import opened Wrappers

  type Request = string
  type Answer = string

  datatype Entry = Entry(request: Request, response: Option<Answer>)

  type Pending = map<string, Entry>

  function Unanswered(pending: Pending): map<string, Request> {
    map id | id in pending && pending[id].response.None? :: pending[id].request
  }

  /** `items` lists the calls that have no response yet, each once. */
  ghost predicate Lists(items: seq<(string, Request)>, pending: Pending) {
    && (forall i :: 0 <= i < |items| ==>
      items[i].0 in Unanswered(pending) && Unanswered(pending)[items[i].0] == items[i].1)
    && (forall i, j :: 0 <= i < j < |items| ==> items[i].0 != items[j].0)
    && forall id :: id in Unanswered(pending) ==> exists i :: 0 <= i < |items| && items[i].0 == id
  }

  /** What `enqueue` returns when it takes its entry out: the response, or `None` for a time-out. */
  function Outcome(pending: Pending, id: string): Option<Answer> {
    if id in pending then pending[id].response else None
  }

  class BrokerServer {
    var pending: Pending

    constructor ()
      ensures pending == map[]
    {
      pending := map[];
    }

    /** The first half of `enqueue`, before it waits: the poller will find the call with its request, a call that gave
        up now would get a time-out, and the other calls keep their requests and what they have been answered. */
    method Enqueue(id: string, request: Request)
      modifies this
      ensures Unanswered(pending) == Unanswered(old(pending))[id := request] && Outcome(pending, id) == None
      ensures pending - {id} == old(pending) - {id}
    {
      pending := pending[id := Entry(request, None)];
    }

    /** The second half of `enqueue`, after its event was set or its time was up. */
    method TakeOut(id: string) returns (outcome: Option<Answer>)
      modifies this
      ensures outcome == Outcome(old(pending), id) && pending == old(pending) - {id}
    {
      outcome := None;
      if id in pending {
        outcome := pending[id].response;
        pending := pending - {id};
      }
    }

    method GetPending() returns (items: seq<(string, Request)>)
      ensures Lists(items, pending)
    {
      items := [];
      var todo := pending.Keys;
      while todo != {}
        invariant todo <= pending.Keys
        invariant forall i :: 0 <= i < |items| ==> items[i].0 !in todo
        invariant forall i :: 0 <= i < |items| ==>
          items[i].0 in Unanswered(pending) && Unanswered(pending)[items[i].0] == items[i].1
        invariant forall i, j :: 0 <= i < j < |items| ==> items[i].0 != items[j].0
        invariant forall id :: id in Unanswered(pending) && id !in todo ==>
          exists i :: 0 <= i < |items| && items[i].0 == id
        decreases todo
      {
        var id :| id in todo;
        ghost var before := items;
        todo := todo - {id};
        if pending[id].response.None? { items := items + [(id, pending[id].request)]; }
        forall x | x in Unanswered(pending) && x !in todo ensures exists i :: 0 <= i < |items| && items[i].0 == x {
          if x == id {
            assert items[|before|].0 == id;
          } else {
            var i :| 0 <= i < |before| && before[i].0 == x;
            assert items[i].0 == x;
          }
        }
      }
    }

    /** A response for a call that is gone is refused.  Otherwise the call will return it, the poller will not find
        the call again, and the other calls stay as they were. */
    method Respond(id: string, response: Option<Answer>) returns (ok: bool)
      modifies this
      ensures ok <==> id in old(pending)
      ensures pending.Keys == old(pending).Keys && pending - {id} == old(pending) - {id}
      ensures ok ==> Outcome(pending, id) == response && pending[id].request == old(pending)[id].request
      ensures ok && response.Some? ==> Unanswered(pending) == Unanswered(old(pending)) - {id}
    {
      ok := id in pending;
      if ok { pending := pending[id := pending[id].(response := response)]; }
    }
  }
}
