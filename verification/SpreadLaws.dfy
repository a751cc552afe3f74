/** How much activation one hop passes on, to the last bit. */
module SpreadLaws {
  import opened Sorting
  import opened Sums
  import opened HyperGraph
  import opened Spreading

  /** Each edge that holds two notes adds its weight, divided by the number of its other members, to the weight between
      them. */
  lemma {:induction false} SharedEdgeAdds(edges: Edges, n: nat, p: string, q: string)
    requires n < |edges| && Distinct(edges[n].members) && |edges[n].members| >= 2
    ensures LinkWeight(edges, n + 1, p, q) == LinkWeight(edges, n, p, q) +
      if p in edges[n].members && q in edges[n].members then edges[n].weight / (|edges[n].members| - 1) as real else 0.0
  {
    var e := edges[n];
    DistinctMultiset(e.members);
    assert p in e.members <==> multiset(e.members)[p] == 1;
    assert q in e.members <==> multiset(e.members)[q] == 1;
    assert Times(Share(e), 1) == Share(e) + Times(Share(e), 0);
    assert Times(0.0, 1) == 0.0 + Times(0.0, 0);
  }

  /** What reaches `q` from each neighbour in the frontier, before decay. */
  ghost function Received(edges: Edges, front: Front, q: string): Front {
    map p | p in front && q in Neighbors(edges, p) :: Prod(front[p], Neighbors(edges, p)[q])
  }

  lemma {:induction false} InflowDecays(edges: Edges, front: Front, q: string, decay: real)
    ensures Inflow(edges, front, front.Keys, q, decay) == Scale(decay, Received(edges, front, q))
  {
    var m, r := Inflow(edges, front, front.Keys, q, decay), Scale(decay, Received(edges, front, q));
    forall p ensures (p in m <==> p in r) && (p in m ==> m[p] == r[p]) { InflowDecaysAt(edges, front, q, decay, p); }
    MapSame(r, m);
  }

  lemma {:induction false} InflowDecaysAt(edges: Edges, front: Front, q: string, decay: real, p: string)
    ensures var m, r := Inflow(edges, front, front.Keys, q, decay), Scale(decay, Received(edges, front, q));
      (p in m <==> p in r) && (p in m ==> m[p] == r[p])
  {
    if p in front && q in Neighbors(edges, p) { LinkDecays(front[p], Neighbors(edges, p)[q], decay); }
  }

  lemma {:induction false} LinkDecays(w: real, c: real, decay: real)
    ensures Passed(w, c, decay) == Prod(decay, Prod(w, c))
  {
  }

  lemma {:induction false} HopProduct(edges: Edges, seeds: set<string>, front: Front, decay: real, q: string)
    requires q !in seeds
    ensures Get(Push(edges, seeds, front, decay), q) == Prod(decay, Total(Received(edges, front, q)))
  {
    InflowDecays(edges, front, q, decay);
    TotalScale(decay, Received(edges, front, q));
    if q !in Targets(edges, seeds, front, front.Keys) { NoInflow(edges, seeds, front, front.Keys, q, decay); }
  }

  /** A note that is no seed gets from one hop `decay` times the sum, over its neighbours in the frontier, of their
      activation times the weight between the two. */
  lemma {:induction false} HopValue(edges: Edges, seeds: set<string>, front: Front, decay: real, q: string)
    requires q !in seeds
    ensures Get(Push(edges, seeds, front, decay), q) == decay * Total(Received(edges, front, q))
    ensures q in Push(edges, seeds, front, decay) <==> Received(edges, front, q) != map[]
  {
    HopProduct(edges, seeds, front, decay, q);
    ProdIs(decay, Total(Received(edges, front, q)));
    ReceivedTargets(edges, seeds, front, q);
  }

  lemma {:induction false} ReceivedTargets(edges: Edges, seeds: set<string>, front: Front, q: string)
    requires q !in seeds
    ensures q in Targets(edges, seeds, front, front.Keys) <==> Received(edges, front, q) != map[]
  {
    var r := Received(edges, front, q);
    if p :| p in r { assert p in front.Keys; }
    if p :| p in front.Keys && p in front && q in Neighbors(edges, p) && q !in seeds { assert p in r; }
  }

  lemma {:induction false} ProdIs(x: real, y: real)
    ensures Prod(x, y) == x * y
  {
  }

  /** From a single note every neighbour gets its activation times the weight between the two times `decay`. */
  lemma {:induction false} OneSourceHop(edges: Edges, seeds: set<string>, p: string, w: real, decay: real, q: string)
    requires q !in seeds && p != q
    ensures Get(Push(edges, seeds, map[p := w], decay), q) == Passed(w, LinkWeight(edges, |edges|, p, q), decay)
  {
    HopProduct(edges, seeds, map[p := w], decay, q);
    NeighborsAre(edges, p, q);
    ReceivedFromOne(edges, p, w, q);
    LinkDecays(w, LinkWeight(edges, |edges|, p, q), decay);
  }

  lemma {:induction false} ReceivedFromOne(edges: Edges, p: string, w: real, q: string)
    ensures Total(Received(edges, map[p := w], q)) == Prod(w, Get(Neighbors(edges, p), q))
  {
    var front: Front := map[p := w];
    var r := Received(edges, front, q);
    if q in Neighbors(edges, p) {
      var none: Front := map[];
      TotalAdd(none, p, Prod(w, Neighbors(edges, p)[q]));
      assert r == none[p := Prod(w, Neighbors(edges, p)[q])];
    } else {
      assert r == map[];
      ProdIs(w, 0.0);
    }
  }

  /** What each note of the frontier gives away if no neighbour is a seed. */
  ghost function GivenAway(edges: Edges, front: Front, decay: real): Front {
    map p | p in front :: Passed(front[p], Total(Neighbors(edges, p)), decay)
  }

  lemma {:induction false} WholeGain(edges: Edges, p: string, w: real, decay: real)
    ensures Total(Gain(edges, {}, p, w, decay)) == Passed(w, Total(Neighbors(edges, p)), decay)
  {
    var ns := Neighbors(edges, p);
    forall q | q in ns ensures Passed(w, ns[q], decay) == Prod(w * decay, ns[q]) { PassedScales(w, ns[q], decay); }
    assert Gain(edges, {}, p, w, decay) == Scale(w * decay, ns);
    TotalScale(w * decay, ns);
    PassedScales(w, Total(ns), decay);
  }

  lemma {:induction false} PassedScales(w: real, c: real, decay: real)
    ensures Passed(w, c, decay) == Prod(w * decay, c)
  {
  }

  ghost function GivenBy(edges: Edges, front: Front, done: set<string>, decay: real): Front {
    map p | p in front && p in done :: Passed(front[p], Total(Neighbors(edges, p)), decay)
  }

  lemma {:induction false} GivenByAdd(edges: Edges, front: Front, done: set<string>, p: string, decay: real)
    requires p in front && p !in done
    ensures Total(GivenBy(edges, front, done + {p}, decay)) ==
      Total(GivenBy(edges, front, done, decay)) + Passed(front[p], Total(Neighbors(edges, p)), decay)
  {
    var m, m' := GivenBy(edges, front, done, decay), GivenBy(edges, front, done + {p}, decay);
    var v := Passed(front[p], Total(Neighbors(edges, p)), decay);
    assert forall u :: u in done + {p} <==> u in done || u == p;
    MapAdded(m, m', p, v);
    TotalAdd(m, p, v);
  }

  /** Without seeds among the neighbours nothing is lost or made: all that arrives is what was given away, each note its
      activation times its weighted degree times `decay`. */
  lemma {:induction false} HopConserves(edges: Edges, front: Front, decay: real)
    ensures Total(Push(edges, {}, front, decay)) == Total(GivenAway(edges, front, decay))
  {
    var done: set<string> := {};
    NothingPushed(edges, {}, front, decay, 0.0);
    assert GivenBy(edges, front, {}, decay) == map[];
    while done != front.Keys
      invariant done <= front.Keys
      invariant Total(PushFrom(edges, {}, front, done, decay)) == Total(GivenBy(edges, front, done, decay))
      decreases front.Keys - done
    {
      var p := Next(front.Keys, done);
      PushAdd(edges, {}, front, done, p, decay);
      GivenByAdd(edges, front, done, p, decay);
      WholeGain(edges, p, front[p], decay);
      done := done + {p};
    }
    MapSame(GivenBy(edges, front, front.Keys, decay), GivenAway(edges, front, decay));
  }

  lemma {:induction false} GivenAwayIs(edges: Edges, front: Front, decay: real, p: string)
    requires p in front
    ensures GivenAway(edges, front, decay)[p] == front[p] * Total(Neighbors(edges, p)) * decay
  {
  }

  // ---- the bound in closed form ----

  lemma {:induction false} NextTerm(s: real, rate: real, g: real, d: real)
    requires g * (1.0 - rate) == rate * (s - d)
    ensures (g + rate * d) * (1.0 - rate) == rate * (s - rate * d)
  {
    assert (g + rate * d) * (1.0 - rate) == g * (1.0 - rate) + (rate * d) * (1.0 - rate);
    assert rate * (s - d) + (rate * d) * (1.0 - rate) == rate * (s - rate * d);
  }

  /** The geometric sum of the bounds: `s * rate * (1 - rate^h) / (1 - rate)`, and so below `s * rate / (1 - rate)` when
      the rate is below 1. */
  lemma {:induction false} GeometricSumIs(s: real, rate: real, h: nat)
    ensures GeometricSum(s, rate, h) * (1.0 - rate) == rate * (s - Decayed(s, rate, h))
  {
    if h > 0 {
      GeometricSumIs(s, rate, h - 1);
      NextTerm(s, rate, GeometricSum(s, rate, h - 1), Decayed(s, rate, h - 1));
    }
  }

  lemma {:induction false} GeometricSumFlat(s: real, h: nat)
    ensures GeometricSum(s, 1.0, h) == s * h as real
  {
    if h > 0 {
      GeometricSumFlat(s, h - 1);
      NoDecay(s, h);
    }
  }

  lemma {:induction false} NoDecay(s: real, h: nat)
    ensures Decayed(s, 1.0, h) == s
  {
    if h > 0 { NoDecay(s, h - 1); }
  }
}
