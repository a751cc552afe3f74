/** The hypergraph with its node index, and the loops that walk it. */
module GraphIndex {
  import opened Sums
  import opened Sorting
  import opened HyperGraph
  import opened Spreading

  // ---- one edge at a time ----

  lemma {:induction false} CountAppend(ms: seq<string>, x: string, q: string)
    ensures multiset(ms + [x])[q] == multiset(ms)[q] + if q == x then 1 else 0
    ensures q in ms + [x] <==> q in ms || q == x
    ensures q in ms <==> multiset(ms)[q] > 0
  {
    assert q in ms <==> q in multiset(ms);
  }

  lemma {:induction false} FanStep(ms: seq<string>, x: string, p: string, c: real)
    ensures Fan(ms + [x], p, c) == if x == p then Fan(ms, p, c) else Bump(Fan(ms, p, c), x, c)
  {
    var l, r := Fan(ms + [x], p, c), if x == p then Fan(ms, p, c) else Bump(Fan(ms, p, c), x, c);
    forall q ensures q in l <==> q in r { CountAppend(ms, x, q); }
    forall q | q in l ensures l[q] == r[q] {
      CountAppend(ms, x, q);
      var n := multiset(ms)[q];
      assert Times(c, n + 1) == c + Times(c, n) && Times(c, 0) == 0.0;
    }
  }

  lemma {:induction false} PlusBump(a: Front, b: Front, k: string, v: real)
    ensures Plus(a, Bump(b, k, v)) == Bump(Plus(a, b), k, v)
  {
  }

  lemma {:induction false} PlusNothing(a: Front)
    ensures Plus(a, map[]) == a
  {
  }

  // ---- runs ----

  lemma {:induction false} NextActivation(fronts: seq<Front>, all: seq<Front>, edges: Edges, seeds: Front, decay: real,
                                          h: nat)
    requires h < |fronts| && fronts <= all
    requires Activation(all, edges, seeds, decay, h) == Activation(fronts, edges, seeds, decay, h)
    ensures Activation(all, edges, seeds, decay, h + 1) == Activation(fronts, edges, seeds, decay, h + 1)
  {
    assert all[h] == fronts[h];
  }

  lemma {:induction false} ActivationPrefix(fronts: seq<Front>, all: seq<Front>, edges: Edges, seeds: Front,
                                            decay: real)
    requires fronts <= all
    ensures Activation(all, edges, seeds, decay, |fronts|) == Activation(fronts, edges, seeds, decay, |fronts|)
  {
    for i := 0 to |fronts|
      invariant Activation(all, edges, seeds, decay, i) == Activation(fronts, edges, seeds, decay, i)
    {
      NextActivation(fronts, all, edges, seeds, decay, i);
    }
  }

  lemma {:induction false} RunGrows(fronts: seq<Front>, front: Front, edges: Edges, seeds: Front, decay: real, k: int)
    requires Run(fronts, edges, seeds, decay, k)
    requires if fronts == [] then front == seeds
      else Truncated(front, Push(edges, seeds.Keys, fronts[|fronts| - 1], decay), k)
    ensures Run(fronts + [front], edges, seeds, decay, k)
  {
    var all := fronts + [front];
    forall h | 0 < h < |all| ensures Truncated(all[h], Push(edges, seeds.Keys, all[h - 1], decay), k) {
      if h < |fronts| {
        assert all[h] == fronts[h] && all[h - 1] == fronts[h - 1];
      }
    }
  }

  lemma {:induction false} ActivationAppend(fronts: seq<Front>, front: Front, edges: Edges, seeds: Front, decay: real)
    ensures var all := fronts + [front];
      Activation(all, edges, seeds, decay, |all|)
        == Plus(Activation(fronts, edges, seeds, decay, |fronts|), Push(edges, seeds.Keys, front, decay))
  {
    var all := fronts + [front];
    ActivationPrefix(fronts, all, edges, seeds, decay);
    ActivationNext(all, edges, seeds, decay, |fronts|);
    assert all[|fronts|] == front;
  }

  /** `front` may be the next frontier of the run. */
  ghost predicate Continues(fronts: seq<Front>, front: Front, edges: Edges, seeds: Front, decay: real, k: int) {
    if fronts == [] then front == seeds else Truncated(front, Push(edges, seeds.Keys, fronts[|fronts| - 1], decay), k)
  }

  lemma {:induction false} RunAppend(fronts: seq<Front>, front: Front, edges: Edges, seeds: Front, decay: real, k: int)
    requires Run(fronts, edges, seeds, decay, k) && Continues(fronts, front, edges, seeds, decay, k)
    ensures Run(fronts + [front], edges, seeds, decay, k)
    ensures var all := fronts + [front];
      Activation(all, edges, seeds, decay, |all|)
        == Plus(Activation(fronts, edges, seeds, decay, |fronts|), Push(edges, seeds.Keys, front, decay))
  {
    RunGrows(fronts, front, edges, seeds, decay, k);
    ActivationAppend(fronts, front, edges, seeds, decay);
  }

  /** Once a hop reaches nothing, all later hops reach nothing. */
  lemma {:induction false} RunPad(fronts: seq<Front>, edges: Edges, seeds: Front, decay: real, k: int, n: nat)
    returns (padded: seq<Front>)
    requires Run(fronts, edges, seeds, decay, k) && 0 < |fronts| <= n
    requires Push(edges, seeds.Keys, fronts[|fronts| - 1], decay) == map[]
    ensures Run(padded, edges, seeds, decay, k) && |padded| == n
    ensures Activation(padded, edges, seeds, decay, n) == Activation(fronts, edges, seeds, decay, |fronts|)
  {
    padded := fronts;
    while |padded| < n
      invariant 0 < |padded| <= n && Run(padded, edges, seeds, decay, k)
      invariant Push(edges, seeds.Keys, padded[|padded| - 1], decay) == map[]
      invariant Activation(padded, edges, seeds, decay, |padded|) == Activation(fronts, edges, seeds, decay, |fronts|)
    {
      EmptyPush(edges, seeds.Keys, decay);
      RunAppend(padded, map[], edges, seeds, decay, k);
      PlusNothing(Activation(padded, edges, seeds, decay, |padded|));
      padded := padded + [map[]];
    }
  }

  lemma {:induction false} EmptyPush(edges: Edges, seeds: set<string>, decay: real)
    ensures Push(edges, seeds, map[], decay) == map[]
  {
  }

  /** The state of `expand` after the hops whose frontiers are `fronts`. */
  ghost predicate Expanding(activation: Front, frontier: Front, fronts: seq<Front>, edges: Edges, seeds: Front,
                            decay: real, k: int)
  {
    && Run(fronts, edges, seeds, decay, k) && Continues(fronts, frontier, edges, seeds, decay, k)
    && activation == Activation(fronts, edges, seeds, decay, |fronts|)
  }

  lemma {:induction false} ExpandingNext(activation: Front, frontier: Front, fronts: seq<Front>, activation': Front,
                                         next: Front, edges: Edges, seeds: Front, decay: real, k: int)
    requires Expanding(activation, frontier, fronts, edges, seeds, decay, k)
    requires next == Push(edges, seeds.Keys, frontier, decay) && activation' == Plus(activation, next)
    ensures var all := fronts + [frontier];
      && Run(all, edges, seeds, decay, k) && activation' == Activation(all, edges, seeds, decay, |all|)
      && all[|all| - 1] == frontier
      && forall small :: Truncated(small, next, k) ==> Continues(all, small, edges, seeds, decay, k)
  {
    RunAppend(fronts, frontier, edges, seeds, decay, k);
  }

  /** The result of `expand`; `fronts` are the frontiers of its hops. */
  ghost predicate Expanded(activation: Front, fronts: seq<Front>, edges: Edges, seeds: Front, hops: int, decay: real,
                           k: int)
  {
    && |fronts| == (if hops > 0 then hops else 0) && Run(fronts, edges, seeds, decay, k)
    && activation == Activation(fronts, edges, seeds, decay, |fronts|)
  }

  class Graph {
    const edges: Edges
    var nodeEdges: map<string, seq<nat>>

    ghost predicate Valid()
      reads this
    {
      nodeEdges == NodeEdges(edges, |edges|)
    }

    constructor (edges: Edges)
      ensures Valid() && this.edges == edges
    {
      this.edges := edges;
      this.nodeEdges := map[];
      new;
      for i := 0 to |edges|
        invariant nodeEdges == NodeEdges(edges, i)
      {
        nodeEdges := Enter(nodeEdges, edges, i);
      }
    }

    /** The inner loop of the constructor: edge `i` is entered under each of its members. */
    static method Enter(before: map<string, seq<nat>>, edges: Edges, i: nat) returns (after: map<string, seq<nat>>)
      requires i < |edges| && before == NodeEdges(edges, i)
      ensures after == NodeEdges(edges, i + 1)
    {
      after := before;
      EnteringStarts(after, edges, i);
      for k := 0 to |edges[i].members|
        invariant Entering(after, edges, i, k)
      {
        var member := edges[i].members[k];
        EnteringStep(after, edges, i, k);
        after := after[member := (if member in after then after[member] else []) + [i]];
      }
      EnteringEnds(after, edges, i);
    }

    /** `neighbors`: the weights of all notes that share an edge with `path`. */
    method NeighborsOf(path: string) returns (out: map<string, real>)
      requires Valid()
      ensures out == Neighbors(edges, path)
    {
      var idxs := if path in nodeEdges then nodeEdges[path] else [];
      if path !in nodeEdges { AbsentIncidence(edges, |edges|, path); }
      IncidenceBound(edges, |edges|, path);
      out := map[];
      ghost var seen: seq<nat> := [];
      for k := 0 to |idxs|
        invariant seen == idxs[..k] && Within(seen, |edges|)
        invariant out == FanOut(edges, seen, path)
      {
        out := AddEdge(out, edges[idxs[k]], path);
        FanOutAppend(edges, seen, idxs[k], path);
        seen := seen + [idxs[k]];
      }
      assert seen == idxs;
    }

    static method AddEdge(before: map<string, real>, edge: HyperEdge, path: string) returns (out: map<string, real>)
      ensures out == Plus(before, Fan(edge.members, path, Share(edge)))
    {
      var contrib := Share(edge);
      out := before;
      ghost var ms: seq<string> := [];
      assert Fan([], path, contrib) == map[];
      PlusNothing(before);
      for k := 0 to |edge.members|
        invariant ms == edge.members[..k] && out == Plus(before, Fan(ms, path, contrib))
      {
        var member := edge.members[k];
        FanStep(ms, member, path, contrib);
        if member != path {
          PlusBump(before, Fan(ms, path, contrib), member, contrib);
          out := Bump(out, member, contrib);
        }
        ms := ms + [member];
      }
      assert ms == edge.members;
    }

    /** `expand`: activation spreads from the seeds for `hops` hops. */
    method Expand(seeds: map<string, real>, hops: int, decay: real, maxNeighbors: int)
      returns (activation: map<string, real>)
      requires Valid()
      ensures exists fronts :: Expanded(activation, fronts, edges, seeds, hops, decay, maxNeighbors)
    {
      activation := map[];
      ghost var fronts: seq<Front> := [];
      var frontier := seeds;
      var n := if hops > 0 then hops else 0;
      var h := 0;
      while h < n
        invariant h <= n && h == |fronts|
        invariant Expanding(activation, frontier, fronts, edges, seeds, decay, maxNeighbors)
      {
        var next;
        ghost var before, last := activation, frontier;
        activation, next := Hop(activation, frontier, seeds, decay);
        ExpandingNext(before, last, fronts, activation, next, edges, seeds, decay, maxNeighbors);
        fronts := fronts + [last];
        if next == map[] {
          fronts := RunPad(fronts, edges, seeds, decay, maxNeighbors, n);
          assert Expanded(activation, fronts, edges, seeds, hops, decay, maxNeighbors);
          return;
        }
        frontier := Truncate(next, maxNeighbors);
        h := h + 1;
      }
      assert Expanded(activation, fronts, edges, seeds, hops, decay, maxNeighbors);
    }

    /** One pass over the frontier; the order of the pass does not matter. */
    method Hop(activation: map<string, real>, frontier: map<string, real>, seeds: map<string, real>, decay: real)
      returns (activation': map<string, real>, next: map<string, real>)
      requires Valid()
      ensures next == Push(edges, seeds.Keys, frontier, decay) && activation' == Plus(activation, next)
    {
      activation', next := activation, map[];
      var todo := frontier.Keys;
      ghost var done: set<string> := {};
      assert PushFrom(edges, seeds.Keys, frontier, {}, decay) == map[];
      PlusNothing(activation);
      while todo != {}
        invariant todo !! done && todo + done == frontier.Keys
        invariant next == PushFrom(edges, seeds.Keys, frontier, done, decay)
        invariant activation' == Plus(activation, next)
        decreases todo
      {
        var path :| path in todo;
        var neighbors := NeighborsOf(path);
        ghost var gain := Gain(edges, seeds.Keys, path, frontier[path], decay);
        PushStep(edges, seeds.Keys, frontier, done, path, decay);
        Regather(activation, next, gain);
        activation', next := PassOn(activation', next, neighbors, frontier[path], seeds, decay, path);
        todo, done := todo - {path}, done + {path};
      }
      assert done == frontier.Keys;
    }

    /** The inner loop of `expand`: one note passes its weight on to its neighbours. */
    method PassOn(activation: map<string, real>, next: map<string, real>, neighbors: map<string, real>, weight: real,
                  seeds: map<string, real>, decay: real, ghost path: string)
      returns (activation': map<string, real>, next': map<string, real>)
      requires neighbors == Neighbors(edges, path)
      ensures next' == Plus(next, Gain(edges, seeds.Keys, path, weight, decay))
      ensures activation' == Plus(activation, Gain(edges, seeds.Keys, path, weight, decay))
    {
      activation', next' := activation, next;
      ghost var all, passed: Front := Gain(edges, seeds.Keys, path, weight, decay), map[];
      var todo := neighbors.Keys;
      PlusNothing(activation);
      PlusNothing(next);
      while todo != {}
        invariant todo <= neighbors.Keys
        invariant passed == all - todo
        invariant next' == Plus(next, passed) && activation' == Plus(activation, passed)
        decreases todo
      {
        var neigh :| neigh in todo;
        ghost var more := all - (todo - {neigh});
        RestGrows(all, todo, neigh);
        if neigh !in seeds {
          var gain := weight * neighbors[neigh] * decay;
          assert gain == Passed(weight, neighbors[neigh], decay) == all[neigh];
          PlusBump(activation, passed, neigh, gain);
          PlusBump(next, passed, neigh, gain);
          activation' := Bump(activation', neigh, gain);
          next' := Bump(next', neigh, gain);
        }
        passed, todo := more, todo - {neigh};
      }
      NoneLeft(all);
    }

    /** Keeps the strongest entries of the next frontier. */
    static method Truncate(next: map<string, real>, maxNeighbors: int) returns (small: map<string, real>)
      ensures Truncated(small, next, maxNeighbors)
    {
      var order := Ranked(next);
      var kept := Head(order, maxNeighbors);
      small := map[];
      assert HoldsFirst(small, order, 0);
      for i := 0 to |kept|
        invariant HoldsFirst(small, order, i)
      {
        HoldsNext(small, order, i);
        small := small[kept[i].0 := kept[i].1];
      }
      HeadTruncates(small, next, order, |kept|);
      assert |next| == |order|;
    }
  }

  ghost predicate DistinctKeys(order: seq<(string, real)>) {
    forall i, j :: 0 <= i < j < |order| ==> order[i].0 != order[j].0
  }

  /** `small` has the first `n` entries of `order` ... */
  ghost predicate HasFirst(small: Front, order: seq<(string, real)>, n: nat) {
    n <= |order| && forall i :: 0 <= i < n ==> order[i].0 in small && small[order[i].0] == order[i].1
  }

  /** ... and no others. */
  ghost predicate OnlyFirst(small: Front, order: seq<(string, real)>, n: nat) {
    n <= |order| && forall q :: q in small ==> exists i :: 0 <= i < n && order[i].0 == q
  }

  ghost predicate HoldsFirst(small: Front, order: seq<(string, real)>, n: nat) {
    HasFirst(small, order, n) && OnlyFirst(small, order, n) && |small| == n
  }

  lemma {:induction false} OnlyNext(small: Front, order: seq<(string, real)>, i: nat)
    requires i < |order| && OnlyFirst(small, order, i)
    ensures OnlyFirst(small[order[i].0 := order[i].1], order, i + 1)
  {
    var small' := small[order[i].0 := order[i].1];
    forall q | q in small' ensures exists j :: 0 <= j < i + 1 && order[j].0 == q {
      if q in small {
        var j :| 0 <= j < i && order[j].0 == q;
        assert 0 <= j < i + 1;
      } else {
        assert order[i].0 == q;
      }
    }
  }

  lemma {:induction false} NotHeld(small: Front, order: seq<(string, real)>, i: nat)
    requires i < |order| && OnlyFirst(small, order, i) && DistinctKeys(order)
    ensures order[i].0 !in small
  {
  }

  lemma {:induction false} SizeGrows(small: Front, k: string, v: real)
    requires k !in small
    ensures |small[k := v]| == |small| + 1
  {
    assert small[k := v].Keys == small.Keys + {k};
    assert |small[k := v].Keys| == |small.Keys| + 1;
  }

  lemma {:induction false} HoldsNext(small: Front, order: seq<(string, real)>, i: nat)
    requires i < |order| && HoldsFirst(small, order, i) && DistinctKeys(order)
    ensures HoldsFirst(small[order[i].0 := order[i].1], order, i + 1)
  {
    NotHeld(small, order, i);
    SizeGrows(small, order[i].0, order[i].1);
    OnlyNext(small, order, i);
  }

  lemma {:induction false} HeldValue(small: Front, next: Front, order: seq<(string, real)>, n: nat, q: string)
    returns (i: nat)
    requires Lists(order, next) && HoldsFirst(small, order, n) && q in small
    ensures i < n && order[i].0 == q && q in next && small[q] == next[q] == order[i].1
  {
    i :| 0 <= i < n && order[i].0 == q;
  }

  lemma {:induction false} HeadTruncates(small: Front, next: Front, order: seq<(string, real)>, n: nat)
    requires Lists(order, next) && Descending(order) && HoldsFirst(small, order, n)
    ensures small.Keys <= next.Keys && |small| == n
    ensures forall q :: q in small ==> small[q] == next[q]
    ensures forall q, r :: q in small && r in next && r !in small ==> next[q] >= next[r]
  {
    forall q | q in small ensures q in next && small[q] == next[q] {
      var i := HeldValue(small, next, order, n, q);
    }
    forall q, r | q in small && r in next && r !in small ensures next[q] >= next[r] {
      var i := HeldValue(small, next, order, n, q);
      LeftLater(small, next, order, n, i, r);
    }
  }

  lemma {:induction false} LeftLater(small: Front, next: Front, order: seq<(string, real)>, n: nat, i: nat, r: string)
    requires Lists(order, next) && Descending(order) && HasFirst(small, order, n) && i < n && r in next && r !in small
    ensures order[i].1 >= next[r]
  {
    var j :| 0 <= j < |order| && order[j].0 == r;
  }

  lemma {:induction false} RestGrows(all: Front, todo: set<string>, x: string)
    requires x in todo
    ensures all - (todo - {x}) == if x in all then Bump(all - todo, x, all[x]) else all - todo
  {
    var l, r := all - (todo - {x}), if x in all then Bump(all - todo, x, all[x]) else all - todo;
    assert forall q :: q in l <==> q in r;
    assert forall q :: q in l ==> l[q] == r[q];
  }

  lemma {:induction false} NoneLeft(all: Front)
    ensures all - {} == all
  {
  }

  lemma {:induction false} Regather(a: Front, next: Front, gain: Front)
    ensures Plus(Plus(a, next), gain) == Plus(a, Plus(next, gain))
  {
  }
}
