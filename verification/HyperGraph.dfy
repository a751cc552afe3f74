/** The hypergraph of a vault: edges join sets of notes, a note's neighbours are weighted by the edges they
    share. */
module HyperGraph {
  import opened Sums
  import opened Sorting
  import Text

  datatype HyperEdge = HyperEdge(id: string, kind: string, caption: string, members: seq<string>, weight: real)

  type Edges = seq<HyperEdge>

  /** Python's `len(members) - 1 or 1`: large edges dilute their signal. */
  function Share(e: HyperEdge): real {
    var d := |e.members| - 1;
    e.weight / if d == 0 then 1.0 else d as real
  }

  // ---- node -> edges ----

  function Repeat(i: nat, n: nat): seq<nat> {
    if n == 0 then [] else Repeat(i, n - 1) + [i]
  }

  /** The numbers of the first `n` edges that hold `p`, once per occurrence. */
  function Incidence(edges: Edges, n: nat, p: string): seq<nat>
    requires n <= |edges|
  {
    if n == 0 then [] else Incidence(edges, n - 1, p) + Repeat(n - 1, multiset(edges[n - 1].members)[p])
  }

  ghost predicate Within(idxs: seq<nat>, n: nat) {
    forall k :: 0 <= k < |idxs| ==> idxs[k] < n
  }

  function Nodes(edges: Edges, n: nat): set<string>
    requires n <= |edges|
  {
    set i, p | 0 <= i < n && p in edges[i].members :: p
  }

  function NodeEdges(edges: Edges, n: nat): map<string, seq<nat>>
    requires n <= |edges|
  {
    map p | p in Nodes(edges, n) :: Incidence(edges, n, p)
  }

  // ---- neighbours ----

  /** What the members `ms` of one edge add to the neighbours of `p`. */
  ghost function Fan(ms: seq<string>, p: string, c: real): map<string, real> {
    map q | q in ms && q != p :: Times(c, multiset(ms)[q])
  }

  ghost function FanOut(edges: Edges, idxs: seq<nat>, p: string): map<string, real>
    requires Within(idxs, |edges|)
  {
    if idxs == [] then map[]
    else
      var e := edges[idxs[|idxs| - 1]];
      Plus(FanOut(edges, idxs[..|idxs| - 1], p), Fan(e.members, p, Share(e)))
  }

  lemma {:induction false} IncidenceBound(edges: Edges, n: nat, p: string)
    requires n <= |edges|
    ensures Within(Incidence(edges, n, p), n)
  {
    if n > 0 {
      IncidenceBound(edges, n - 1, p);
      RepeatOnly(n - 1, multiset(edges[n - 1].members)[p]);
    }
  }

  lemma {:induction false} RepeatOnly(i: nat, n: nat)
    ensures |Repeat(i, n)| == n && forall j :: 0 <= j < n ==> Repeat(i, n)[j] == i
  {
    if n > 0 { RepeatOnly(i, n - 1); }
  }

  ghost function Neighbors(edges: Edges, p: string): map<string, real> {
    IncidenceBound(edges, |edges|, p);
    FanOut(edges, Incidence(edges, |edges|, p), p)
  }

  /** The weight between two notes, summed over the first `n` edges that hold both. */
  ghost function LinkWeight(edges: Edges, n: nat, p: string, q: string): real
    requires n <= |edges|
  {
    if n == 0 then 0.0
    else
      var ms := multiset(edges[n - 1].members);
      LinkWeight(edges, n - 1, p, q) + Times(Times(Share(edges[n - 1]), ms[q]), ms[p])
  }

  ghost predicate Linked(edges: Edges, n: nat, p: string, q: string)
    requires n <= |edges|
  {
    exists i :: 0 <= i < n && p in edges[i].members && q in edges[i].members
  }

  lemma {:induction false} TimesSwap(c: real, m: nat, n: nat)
    ensures Times(Times(c, m), n) == Times(Times(c, n), m)
  {
    TimesIsProduct(c, m);
    TimesIsProduct(c, n);
    TimesIsProduct(c * m as real, n);
    TimesIsProduct(c * n as real, m);
    Exchange(c, m as real, n as real);
  }

  lemma {:induction false} Exchange(x: real, y: real, z: real)
    ensures x * y * z == x * z * y
  {
  }

  lemma {:induction false} FanOutAppend(edges: Edges, idxs: seq<nat>, i: nat, p: string)
    requires Within(idxs, |edges|) && i < |edges|
    ensures Within(idxs + [i], |edges|)
    ensures FanOut(edges, idxs + [i], p) == Plus(FanOut(edges, idxs, p), Fan(edges[i].members, p, Share(edges[i])))
  {
    assert (idxs + [i])[..|idxs|] == idxs;
  }

  lemma {:induction false} FanOnce(edges: Edges, idxs: seq<nat>, i: nat, p: string, q: string)
    requires Within(idxs, |edges|) && i < |edges| && q != p
    ensures Within(idxs + [i], |edges|)
    ensures var a, b := FanOut(edges, idxs, p), FanOut(edges, idxs + [i], p);
      && Get(b, q) == Get(a, q) + Times(Share(edges[i]), multiset(edges[i].members)[q])
      && (q in b <==> q in a || q in edges[i].members)
  {
    FanOutAppend(edges, idxs, i, p);
    FanValue(edges[i], p, q);
    PlusAt(FanOut(edges, idxs, p), Fan(edges[i].members, p, Share(edges[i])), q);
  }

  /** One edge counted `k` times over. */
  lemma {:induction false} FanRepeat(edges: Edges, idxs: seq<nat>, i: nat, k: nat, p: string, q: string)
    requires Within(idxs, |edges|) && i < |edges| && q != p
    ensures Within(idxs + Repeat(i, k), |edges|)
    ensures var a, b := FanOut(edges, idxs, p), FanOut(edges, idxs + Repeat(i, k), p);
      && Get(b, q) == Get(a, q) + Times(Times(Share(edges[i]), multiset(edges[i].members)[q]), k)
      && (q in b <==> q in a || (k > 0 && q in edges[i].members))
  {
    var all := idxs;
    var c := Times(Share(edges[i]), multiset(edges[i].members)[q]);
    assert idxs + Repeat(i, 0) == idxs;
    for j := 0 to k
      invariant all == idxs + Repeat(i, j) && Within(all, |edges|)
      invariant Get(FanOut(edges, all, p), q) == Get(FanOut(edges, idxs, p), q) + Times(c, j)
      invariant q in FanOut(edges, all, p) <==> q in FanOut(edges, idxs, p) || (j > 0 && q in edges[i].members)
    {
      FanOnce(edges, all, i, p, q);
      TimesNext(c, j);
      RepeatNext(idxs, i, j);
      all := all + [i];
    }
  }

  lemma {:induction false} TimesNext(c: real, n: nat)
    ensures Times(c, n + 1) == c + Times(c, n)
  {
  }

  lemma {:induction false} RepeatNext(idxs: seq<nat>, i: nat, n: nat)
    ensures idxs + Repeat(i, n + 1) == idxs + Repeat(i, n) + [i]
  {
    assert Repeat(i, n + 1) == Repeat(i, n) + [i];
  }

  lemma {:induction false} FanValue(e: HyperEdge, p: string, q: string)
    requires q != p
    ensures var f := Fan(e.members, p, Share(e));
      (q in f <==> q in e.members) && Get(f, q) == Times(Share(e), multiset(e.members)[q])
  {
    assert q in multiset(e.members) <==> q in e.members;
  }

  /** What the edges `idxs` give `q` is what the first `i` edges give it. */
  ghost predicate LinksUpTo(edges: Edges, idxs: seq<nat>, i: nat, p: string, q: string) {
    && i <= |edges| && Within(idxs, |edges|)
    && Get(FanOut(edges, idxs, p), q) == LinkWeight(edges, i, p, q)
    && (q in FanOut(edges, idxs, p) <==> Linked(edges, i, p, q))
  }

  lemma {:induction false} FanOutLinks(edges: Edges, n: nat, p: string, q: string)
    requires n <= |edges| && q != p
    ensures LinksUpTo(edges, Incidence(edges, n, p), n, p, q)
  {
    if n > 0 {
      FanOutLinks(edges, n - 1, p, q);
      LinksStep(edges, Incidence(edges, n - 1, p), n - 1, p, q);
    }
  }

  lemma {:induction false} LinksStep(edges: Edges, idxs: seq<nat>, i: nat, p: string, q: string)
    requires i < |edges| && q != p && LinksUpTo(edges, idxs, i, p, q)
    ensures LinksUpTo(edges, idxs + Repeat(i, multiset(edges[i].members)[p]), i + 1, p, q)
  {
    var ms := edges[i].members;
    FanRepeat(edges, idxs, i, multiset(ms)[p], p, q);
    assert p in multiset(ms) <==> p in ms;
    LinkedStep(edges, i + 1, p, q);
  }

  lemma {:induction false} LinkedStep(edges: Edges, n: nat, p: string, q: string)
    requires 0 < n <= |edges|
    ensures Linked(edges, n, p, q) <==>
      Linked(edges, n - 1, p, q) || (p in edges[n - 1].members && q in edges[n - 1].members)
  {
    if Linked(edges, n, p, q) {
      var i :| 0 <= i < n && p in edges[i].members && q in edges[i].members;
      if i < n - 1 { assert Linked(edges, n - 1, p, q); }
    }
    if Linked(edges, n - 1, p, q) {
      var i :| 0 <= i < n - 1 && p in edges[i].members && q in edges[i].members;
    }
  }

  lemma {:induction false} NoSelf(edges: Edges, idxs: seq<nat>, p: string)
    requires Within(idxs, |edges|)
    ensures p !in FanOut(edges, idxs, p)
  {
    if idxs != [] { NoSelf(edges, idxs[..|idxs| - 1], p); }
  }

  /** A note's neighbours are the notes it shares an edge with, weighted by `LinkWeight`. */
  lemma {:induction false} NeighborsAre(edges: Edges, p: string, q: string)
    ensures q in Neighbors(edges, p) <==> q != p && Linked(edges, |edges|, p, q)
    ensures q != p ==> Get(Neighbors(edges, p), q) == LinkWeight(edges, |edges|, p, q)
  {
    IncidenceBound(edges, |edges|, p);
    NoSelf(edges, Incidence(edges, |edges|, p), p);
    if q != p { FanOutLinks(edges, |edges|, p, q); }
  }

  lemma {:induction false} LinkWeightSymmetric(edges: Edges, n: nat, p: string, q: string)
    requires n <= |edges|
    ensures LinkWeight(edges, n, p, q) == LinkWeight(edges, n, q, p)
  {
    if n > 0 {
      LinkWeightSymmetric(edges, n - 1, p, q);
      var ms := multiset(edges[n - 1].members);
      TimesSwap(Share(edges[n - 1]), ms[q], ms[p]);
    }
  }

  /** Being neighbours, and how strongly, is mutual. */
  lemma {:induction false} NeighborsSymmetric(edges: Edges, p: string, q: string)
    ensures q in Neighbors(edges, p) <==> p in Neighbors(edges, q)
    ensures Get(Neighbors(edges, p), q) == Get(Neighbors(edges, q), p)
  {
    NeighborsAre(edges, p, q);
    NeighborsAre(edges, q, p);
    LinkWeightSymmetric(edges, |edges|, p, q);
    if Linked(edges, |edges|, p, q) {
      var i :| 0 <= i < |edges| && p in edges[i].members && q in edges[i].members;
      assert Linked(edges, |edges|, q, p);
    }
    if Linked(edges, |edges|, q, p) {
      var i :| 0 <= i < |edges| && q in edges[i].members && p in edges[i].members;
      assert Linked(edges, |edges|, p, q);
    }
  }

  // ---- flow conservation ----

  ghost predicate DistinctMembers(edges: Edges) {
    forall i :: 0 <= i < |edges| ==> Distinct(edges[i].members)
  }

  /** Total weight of the first `n` edges that hold `p` and at least one other note. */
  function IncidentWeight(edges: Edges, n: nat, p: string): real
    requires n <= |edges|
  {
    if n == 0 then 0.0
    else
      var e := edges[n - 1];
      IncidentWeight(edges, n - 1, p) + if p in e.members && |e.members| >= 2 then e.weight else 0.0
  }

  lemma {:induction false} DistinctSetSize(ms: seq<string>)
    requires Distinct(ms)
    ensures |set q | q in ms| == |ms|
  {
    if ms == [] {
      assert (set q | q in ms) == {};
    } else {
      var front, last := ms[..|ms| - 1], ms[|ms| - 1];
      DistinctSetSize(front);
      assert ms == front + [last];
      assert (set q | q in ms) == (set q | q in front) + {last};
    }
  }

  lemma {:induction false} FanSize(e: HyperEdge, p: string)
    requires Distinct(e.members) && p in e.members
    ensures |Fan(e.members, p, Share(e))| == |e.members| - 1
  {
    var f := Fan(e.members, p, Share(e));
    DistinctSetSize(e.members);
    assert f.Keys == (set q | q in e.members) - {p};
    assert |f| == |f.Keys|;
  }

  lemma {:induction false} MemberOnce(ms: seq<string>, p: string)
    requires Distinct(ms)
    ensures multiset(ms)[p] == if p in ms then 1 else 0
  {
    DistinctCount(ms, p);
    assert p in multiset(ms) <==> p in ms;
  }

  lemma {:induction false} FanConstant(e: HyperEdge, p: string)
    requires Distinct(e.members)
    ensures var f := Fan(e.members, p, Share(e)); forall q :: q in f ==> f[q] == Share(e)
  {
    var c := Share(e);
    assert Times(c, 1) == c + Times(c, 0);
    forall q | q in e.members ensures Times(c, multiset(e.members)[q]) == c { MemberOnce(e.members, q); }
  }

  /** An edge spreads its whole weight over its other members. */
  lemma {:induction false} FanTotal(e: HyperEdge, p: string)
    requires Distinct(e.members) && p in e.members
    ensures Total(Fan(e.members, p, Share(e))) == if |e.members| >= 2 then e.weight else 0.0
  {
    FanConstant(e, p);
    TotalConstant(Fan(e.members, p, Share(e)), Share(e));
    FanSize(e, p);
    ShareWhole(e, |e.members| - 1);
  }

  lemma {:induction false} ShareWhole(e: HyperEdge, k: nat)
    requires k == |e.members| - 1
    ensures Times(Share(e), k) == if k > 0 then e.weight else 0.0
  {
    TimesIsProduct(Share(e), k);
    if k > 0 {
      assert Share(e) == e.weight / (k as real);
      DivideMultiply(e.weight, k as real);
    }
  }

  lemma {:induction false} DivideMultiply(w: real, k: real)
    requires k > 0.0
    ensures w / k * k == w
  {
  }

  lemma {:induction false} IncidenceStep(edges: Edges, n: nat, p: string)
    requires 0 < n <= |edges| && Distinct(edges[n - 1].members)
    ensures Incidence(edges, n, p) == Incidence(edges, n - 1, p) + if p in edges[n - 1].members then [n - 1] else []
  {
    MemberOnce(edges[n - 1].members, p);
    assert Repeat(n - 1, 1) == Repeat(n - 1, 0) + [n - 1] == [n - 1];
  }

  /** The weights of a note's neighbours add up to the weight of the edges it shares with others. */
  lemma {:induction false} FlowUpTo(edges: Edges, n: nat, p: string)
    requires n <= |edges| && DistinctMembers(edges)
    ensures Within(Incidence(edges, n, p), |edges|)
    ensures Total(FanOut(edges, Incidence(edges, n, p), p)) == IncidentWeight(edges, n, p)
  {
    var idxs: seq<nat> := [];
    for i := 0 to n
      invariant idxs == Incidence(edges, i, p) && Within(idxs, |edges|)
      invariant Total(FanOut(edges, idxs, p)) == IncidentWeight(edges, i, p)
    {
      IncidenceStep(edges, i + 1, p);
      FlowStep(edges, idxs, i, p);
      idxs := idxs + if p in edges[i].members then [i] else [];
    }
  }

  lemma {:induction false} FlowStep(edges: Edges, idxs: seq<nat>, i: nat, p: string)
    requires Within(idxs, |edges|) && i < |edges| && Distinct(edges[i].members)
    ensures var e := edges[i]; var idxs' := idxs + if p in e.members then [i] else [];
      && Within(idxs', |edges|)
      && Total(FanOut(edges, idxs', p)) == Total(FanOut(edges, idxs, p)) +
        if p in e.members && |e.members| >= 2 then e.weight else 0.0
  {
    var e := edges[i];
    if p in e.members {
      FanOutAppend(edges, idxs, i, p);
      TotalPlus(FanOut(edges, idxs, p), Fan(e.members, p, Share(e)));
      FanTotal(e, p);
    } else {
      assert idxs + [] == idxs;
    }
  }

  lemma {:induction false} FlowConserved(edges: Edges, p: string)
    requires DistinctMembers(edges)
    ensures Total(Neighbors(edges, p)) == IncidentWeight(edges, |edges|, p)
  {
    FlowUpTo(edges, |edges|, p);
  }

  ghost predicate NonNegativeWeights(edges: Edges) {
    forall i :: 0 <= i < |edges| ==> edges[i].weight >= 0.0
  }

  lemma {:induction false} TimesNonNegative(c: real, n: nat)
    requires c >= 0.0
    ensures Times(c, n) >= 0.0
  {
    if n > 0 { TimesNonNegative(c, n - 1); }
  }

  lemma {:induction false} FanOutNonNegative(edges: Edges, idxs: seq<nat>, p: string)
    requires Within(idxs, |edges|) && NonNegativeWeights(edges)
    requires forall k :: 0 <= k < |idxs| ==> p in edges[idxs[k]].members
    ensures NonNegative(FanOut(edges, idxs, p))
  {
    if idxs != [] {
      var e := edges[idxs[|idxs| - 1]];
      FanOutNonNegative(edges, idxs[..|idxs| - 1], p);
      assert |e.members| >= 1;
      forall n: nat ensures Times(Share(e), n) >= 0.0 { TimesNonNegative(Share(e), n); }
    }
  }

  lemma {:induction false} IncidenceHolds(edges: Edges, n: nat, p: string)
    requires n <= |edges|
    ensures var ns := Incidence(edges, n, p);
      Within(ns, |edges|) && forall k :: 0 <= k < |ns| ==> p in edges[ns[k]].members
  {
    IncidenceBound(edges, n, p);
    if n > 0 {
      IncidenceHolds(edges, n - 1, p);
      RepeatOnly(n - 1, multiset(edges[n - 1].members)[p]);
    }
  }

  lemma {:induction false} NeighborsNonNegative(edges: Edges, p: string)
    requires NonNegativeWeights(edges)
    ensures NonNegative(Neighbors(edges, p))
  {
    IncidenceHolds(edges, |edges|, p);
    FanOutNonNegative(edges, Incidence(edges, |edges|, p), p);
  }

  // ---- the index ----

  lemma {:induction false} NodesStep(edges: Edges, n: nat, p: string)
    requires 0 < n <= |edges|
    ensures p in Nodes(edges, n) <==> p in Nodes(edges, n - 1) || p in edges[n - 1].members
  {
    if p in Nodes(edges, n) {
      var i :| 0 <= i < n && p in edges[i].members;
      if i < n - 1 { assert p in Nodes(edges, n - 1); }
    }
    if p in Nodes(edges, n - 1) {
      var i :| 0 <= i < n - 1 && p in edges[i].members;
    }
  }

  /** The index when the first `k` members of edge `n` have been entered. */
  ghost predicate Entering(m: map<string, seq<nat>>, edges: Edges, n: nat, k: nat)
    requires n < |edges| && k <= |edges[n].members|
  {
    var ms := edges[n].members[..k];
    && (forall p :: p in m <==> p in Nodes(edges, n) || p in ms)
    && forall p :: p in m ==> m[p] == Incidence(edges, n, p) + Repeat(n, multiset(ms)[p])
  }

  lemma {:induction false} AbsentIncidence(edges: Edges, n: nat, p: string)
    requires n <= |edges| && p !in Nodes(edges, n)
    ensures Incidence(edges, n, p) == []
  {
    if n > 0 {
      NodesStep(edges, n, p);
      AbsentIncidence(edges, n - 1, p);
      assert p !in multiset(edges[n - 1].members);
    }
  }

  lemma {:induction false} EnteringStarts(m: map<string, seq<nat>>, edges: Edges, n: nat)
    requires n < |edges| && m == NodeEdges(edges, n)
    ensures Entering(m, edges, n, 0)
  {
    forall p | p in m ensures m[p] == Incidence(edges, n, p) + Repeat(n, 0) {
      assert Incidence(edges, n, p) + [] == Incidence(edges, n, p);
    }
  }

  lemma {:induction false} EnteringStep(m: map<string, seq<nat>>, edges: Edges, n: nat, k: nat)
    requires n < |edges| && k < |edges[n].members| && Entering(m, edges, n, k)
    ensures var x := edges[n].members[k]; var ns := if x in m then m[x] else [];
      Entering(m[x := ns + [n]], edges, n, k + 1)
  {
    var ms, x := edges[n].members[..k], edges[n].members[k];
    assert edges[n].members[..k + 1] == ms + [x];
    EnterMember(m, edges, n, ms, x);
  }

  lemma {:induction false} EnterMember(m: map<string, seq<nat>>, edges: Edges, n: nat, ms: seq<string>, x: string)
    requires n < |edges| && (forall q :: q in m <==> q in Nodes(edges, n) || q in ms)
    requires forall q :: q in m ==> m[q] == Incidence(edges, n, q) + Repeat(n, multiset(ms)[q])
    ensures var m' := m[x := (if x in m then m[x] else []) + [n]];
      && (forall q :: q in m' <==> q in Nodes(edges, n) || q in ms + [x])
      && forall q :: q in m' ==> m'[q] == Incidence(edges, n, q) + Repeat(n, multiset(ms + [x])[q])
  {
    var m' := m[x := (if x in m then m[x] else []) + [n]];
    forall p | p in m' ensures m'[p] == Incidence(edges, n, p) + Repeat(n, multiset(ms + [x])[p]) {
      EnterOne(m, edges, n, ms, x, p);
    }
  }

  lemma {:induction false} EnterOne(m: map<string, seq<nat>>, edges: Edges, n: nat, ms: seq<string>, x: string,
                                    p: string)
    requires n < |edges| && (forall q :: q in m <==> q in Nodes(edges, n) || q in ms)
    requires forall q :: q in m ==> m[q] == Incidence(edges, n, q) + Repeat(n, multiset(ms)[q])
    requires p in m || p == x
    ensures (if p == x then (if x in m then m[x] else []) + [n] else m[p]) == Incidence(edges, n, p) +
      Repeat(n, multiset(ms + [x])[p])
  {
    assert multiset(ms + [x])[p] == multiset(ms)[p] + if p == x then 1 else 0;
    if p == x {
      var before, c := Incidence(edges, n, x), multiset(ms)[x];
      if x !in m {
        AbsentIncidence(edges, n, x);
        assert x !in multiset(ms);
      }
      Text.Associate(before, Repeat(n, c), [n]);
      assert Repeat(n, c + 1) == Repeat(n, c) + [n];
    }
  }

  lemma {:induction false} EnteringEnds(m: map<string, seq<nat>>, edges: Edges, n: nat)
    requires n < |edges| && Entering(m, edges, n, |edges[n].members|)
    ensures m == NodeEdges(edges, n + 1)
  {
    var ms := edges[n].members;
    assert ms[..|ms|] == ms;
    forall p ensures p in m <==> p in Nodes(edges, n + 1) { NodesStep(edges, n + 1, p); }
  }
}
