/** Spreading activation as mathematics: what one hop does to a frontier, the layers it gives without any
    truncation, and the bounds that hold with it. */
module Spreading {
  import opened Sums
  import opened Sorting
  import opened HyperGraph

  type Front = map<string, real>

  /** The gain that weight `w` gives across a link of weight `c`. */
  ghost function Passed(w: real, c: real, decay: real): real {
    w * c * decay
  }

  /** What one note of the frontier passes on to its neighbours that are not seeds. */
  ghost function Gain(edges: Edges, seeds: set<string>, p: string, w: real, decay: real): Front {
    var ns := Neighbors(edges, p);
    map q | q in ns && q !in seeds :: Passed(w, ns[q], decay)
  }

  /** What reaches `q` from the notes `done` of the frontier. */
  ghost function Inflow(edges: Edges, front: Front, done: set<string>, q: string, decay: real): Front {
    map p | p in done && p in front && q in Neighbors(edges, p) :: Passed(front[p], Neighbors(edges, p)[q], decay)
  }

  ghost function Targets(edges: Edges, seeds: set<string>, front: Front, done: set<string>): set<string> {
    set p, q | p in done && p in front && q in Neighbors(edges, p) && q !in seeds :: q
  }

  ghost function PushFrom(edges: Edges, seeds: set<string>, front: Front, done: set<string>, decay: real): Front {
    map q | q in Targets(edges, seeds, front, done) :: Total(Inflow(edges, front, done, q, decay))
  }

  /** One hop: every note of the frontier passes on its gain. */
  ghost function Push(edges: Edges, seeds: set<string>, front: Front, decay: real): Front {
    PushFrom(edges, seeds, front, front.Keys, decay)
  }

  lemma {:induction false} InflowStep(edges: Edges, front: Front, done: set<string>, p: string, q: string, decay: real)
    requires p in front && p !in done
    ensures Total(Inflow(edges, front, done + {p}, q, decay))
         == Total(Inflow(edges, front, done, q, decay))
            + if q in Neighbors(edges, p) then Passed(front[p], Neighbors(edges, p)[q], decay) else 0.0
  {
    var m, m' := Inflow(edges, front, done, q, decay), Inflow(edges, front, done + {p}, q, decay);
    InflowKeys(edges, front, done, p, q, decay);
    if q in Neighbors(edges, p) {
      TotalAdd(m, p, Passed(front[p], Neighbors(edges, p)[q], decay));
    }
  }

  lemma {:induction false} InflowKeys(edges: Edges, front: Front, done: set<string>, p: string, q: string, decay: real)
    requires p in front && p !in done
    ensures var m, m' := Inflow(edges, front, done, q, decay), Inflow(edges, front, done + {p}, q, decay);
      && p !in m
      && m' == if q in Neighbors(edges, p) then m[p := Passed(front[p], Neighbors(edges, p)[q], decay)] else m
  {
    var m, m' := Inflow(edges, front, done, q, decay), Inflow(edges, front, done + {p}, q, decay);
    forall u { InflowAt(edges, front, done, p, q, decay, u); }
    if q in Neighbors(edges, p) {
      MapAdded(m, m', p, Passed(front[p], Neighbors(edges, p)[q], decay));
    } else {
      MapSame(m, m');
    }
  }

  lemma {:induction false} InflowAt(edges: Edges, front: Front, done: set<string>, p: string, q: string, decay: real,
                                    u: string)
    requires p in front && p !in done
    ensures var m, m' := Inflow(edges, front, done, q, decay), Inflow(edges, front, done + {p}, q, decay);
      && (u in m' <==> u in m || (u == p && q in Neighbors(edges, p)))
      && (u in m' ==> m'[u] == if u == p then Passed(front[p], Neighbors(edges, p)[q], decay) else m[u])
  {
    assert u in done + {p} <==> u in done || u == p;
  }

  lemma {:induction false} MapAdded(m: Front, m': Front, p: string, v: real)
    requires forall u :: u in m' <==> u in m || u == p
    requires forall u :: u in m' ==> m'[u] == if u == p then v else m[u]
    ensures m' == m[p := v]
  {
  }

  lemma {:induction false} MapSame(m: Front, m': Front)
    requires (forall u :: u in m' <==> u in m) && forall u :: u in m' ==> m'[u] == m[u]
    ensures m' == m
  {
  }

  lemma {:induction false} TargetsStep(edges: Edges, seeds: set<string>, front: Front, done: set<string>, p: string,
                                       q: string)
    requires p in front
    ensures q in Targets(edges, seeds, front, done + {p})
      <==> q in Targets(edges, seeds, front, done) || (q in Neighbors(edges, p) && q !in seeds)
  {
    if q in Targets(edges, seeds, front, done) {
      var u :| u in done && u in front && q in Neighbors(edges, u) && q !in seeds;
      assert u in done + {p};
    }
    if q in Neighbors(edges, p) && q !in seeds { assert p in done + {p}; }
  }

  lemma {:induction false} NoInflow(edges: Edges, seeds: set<string>, front: Front, done: set<string>, q: string,
                                    decay: real)
    requires q !in Targets(edges, seeds, front, done) && q !in seeds
    ensures Total(Inflow(edges, front, done, q, decay)) == 0.0
  {
    assert Inflow(edges, front, done, q, decay) == map[];
  }

  /** Handling one more note of the frontier adds its gain. */
  lemma {:induction false} PushStep(edges: Edges, seeds: set<string>, front: Front, done: set<string>, p: string,
                                    decay: real)
    requires p in front && p !in done
    ensures PushFrom(edges, seeds, front, done + {p}, decay)
         == Plus(PushFrom(edges, seeds, front, done, decay), Gain(edges, seeds, p, front[p], decay))
  {
    var l, a, b := PushFrom(edges, seeds, front, done + {p}, decay), PushFrom(edges, seeds, front, done, decay),
                   Gain(edges, seeds, p, front[p], decay);
    forall q ensures q in l <==> q in a || q in b { TargetsStep(edges, seeds, front, done, p, q); }
    forall q | q in l ensures l[q] == Get(a, q) + Get(b, q) {
      InflowStep(edges, front, done, p, q, decay);
      if q !in a { NoInflow(edges, seeds, front, done, q, decay); }
    }
    PlusIs(l, a, b);
  }

  // ---- layers ----

  /** What arrives after exactly `h` hops when nothing is cut off. */
  ghost function Layer(edges: Edges, seeds: Front, decay: real, h: nat): Front {
    if h == 0 then seeds else Push(edges, seeds.Keys, Layer(edges, seeds, decay, h - 1), decay)
  }

  /** The activation after `h` hops when nothing is cut off. */
  ghost function FullActivation(edges: Edges, seeds: Front, decay: real, h: nat): Front {
    if h == 0 then map[] else Plus(FullActivation(edges, seeds, decay, h - 1), Layer(edges, seeds, decay, h))
  }

  /** A frontier cut to its strongest entries, as `sorted(...)[:k]` cuts it. */
  ghost predicate Truncated(small: Front, all: Front, k: int) {
    && small.Keys <= all.Keys && |small| == SliceEnd(|all|, k)
    && (forall q :: q in small ==> small[q] == all[q])
    && forall q, r :: q in small && r in all && r !in small ==> all[q] >= all[r]
  }

  /** The frontiers of a run of `expand`. */
  ghost predicate Run(fronts: seq<Front>, edges: Edges, seeds: Front, decay: real, k: int) {
    && (fronts != [] ==> fronts[0] == seeds)
    && forall h :: 0 < h < |fronts| ==> Truncated(fronts[h], Push(edges, seeds.Keys, fronts[h - 1], decay), k)
  }

  /** The activation a run has collected after `h` hops. */
  ghost function Activation(fronts: seq<Front>, edges: Edges, seeds: Front, decay: real, h: nat): Front
    requires h <= |fronts|
  {
    if h == 0 then map[]
    else Plus(Activation(fronts, edges, seeds, decay, h - 1), Push(edges, seeds.Keys, fronts[h - 1], decay))
  }

  // ---- seeds are never activated ----

  lemma {:induction false} ActivationNext(fronts: seq<Front>, edges: Edges, seeds: Front, decay: real, h: nat)
    requires h < |fronts|
    ensures Activation(fronts, edges, seeds, decay, h + 1)
         == Plus(Activation(fronts, edges, seeds, decay, h), Push(edges, seeds.Keys, fronts[h], decay))
  {
  }

  lemma {:induction false} FullNext(edges: Edges, seeds: Front, decay: real, h: nat)
    ensures FullActivation(edges, seeds, decay, h + 1) ==
      Plus(FullActivation(edges, seeds, decay, h), Layer(edges, seeds, decay, h + 1))
    ensures Layer(edges, seeds, decay, h + 1) == Push(edges, seeds.Keys, Layer(edges, seeds, decay, h), decay)
  {
  }

  lemma {:induction false} NoSeedNext(fronts: seq<Front>, edges: Edges, seeds: Front, decay: real, h: nat)
    requires h < |fronts| && Activation(fronts, edges, seeds, decay, h).Keys !! seeds.Keys
    ensures Activation(fronts, edges, seeds, decay, h + 1).Keys !! seeds.Keys
  {
    ActivationNext(fronts, edges, seeds, decay, h);
    NoSeedPushed(edges, seeds.Keys, fronts[h], decay);
    PlusKeys(Activation(fronts, edges, seeds, decay, h), Push(edges, seeds.Keys, fronts[h], decay));
  }

  lemma {:induction false} NoSeedActivated(fronts: seq<Front>, edges: Edges, seeds: Front, decay: real, h: nat)
    requires h <= |fronts|
    ensures Activation(fronts, edges, seeds, decay, h).Keys !! seeds.Keys
  {
    for i := 0 to h
      invariant Activation(fronts, edges, seeds, decay, i).Keys !! seeds.Keys
    {
      NoSeedNext(fronts, edges, seeds, decay, i);
    }
  }

  lemma {:induction false} NoSeedPushed(edges: Edges, seeds: set<string>, front: Front, decay: real)
    ensures Push(edges, seeds, front, decay).Keys !! seeds
  {
  }

  lemma {:induction false} PlusKeys(a: Front, b: Front)
    ensures Plus(a, b).Keys == a.Keys + b.Keys
  {
  }

  // ---- truncation ----

  lemma {:induction false} PushKeysMonotone(edges: Edges, seeds: set<string>, f: Front, g: Front, decay: real)
    requires f.Keys <= g.Keys
    ensures Push(edges, seeds, f, decay).Keys <= Push(edges, seeds, g, decay).Keys
  {
    forall q | q in Push(edges, seeds, f, decay) ensures q in Push(edges, seeds, g, decay) {
      var p :| p in f.Keys && p in f && q in Neighbors(edges, p) && q !in seeds;
      assert p in g.Keys;
    }
  }

  /** Every run activates only what the untruncated layers activate. */
  lemma {:induction false} RunKeys(fronts: seq<Front>, edges: Edges, seeds: Front, decay: real, k: int, h: nat)
    requires Run(fronts, edges, seeds, decay, k) && h <= |fronts|
    ensures h < |fronts| ==> fronts[h].Keys <= Layer(edges, seeds, decay, h).Keys
    ensures Activation(fronts, edges, seeds, decay, h).Keys <= FullActivation(edges, seeds, decay, h).Keys
  {
    if h > 0 {
      RunKeys(fronts, edges, seeds, decay, k, h - 1);
      PushKeysMonotone(edges, seeds.Keys, fronts[h - 1], Layer(edges, seeds, decay, h - 1), decay);
    }
  }

  lemma {:induction false} NotTruncated(small: Front, all: Front, k: int)
    requires Truncated(small, all, k) && |all| <= k
    ensures small == all
  {
    SubsetSize(small.Keys, all.Keys);
  }

  lemma {:induction false} SubsetSize<T>(a: set<T>, b: set<T>)
    requires a <= b && |a| == |b|
    ensures a == b
  {
    assert |b - a| == |b| - |a|;
  }

  /** After `h` hops the frontier and the activation are what they are without truncation. */
  ghost predicate OnTrack(fronts: seq<Front>, edges: Edges, seeds: Front, decay: real, h: nat) {
    && h <= |fronts| && (h < |fronts| ==> fronts[h] == Layer(edges, seeds, decay, h))
    && Activation(fronts, edges, seeds, decay, h) == FullActivation(edges, seeds, decay, h)
  }

  lemma {:induction false} TrackNext(fronts: seq<Front>, edges: Edges, seeds: Front, decay: real, k: int, h: nat,
                                     n: nat)
    requires Run(fronts, edges, seeds, decay, k) && n == h + 1 <= |fronts| && OnTrack(fronts, edges, seeds, decay, h)
    requires n < |fronts| ==> |Layer(edges, seeds, decay, n)| <= k
    ensures OnTrack(fronts, edges, seeds, decay, n)
  {
    ActivationNext(fronts, edges, seeds, decay, h);
    FullNext(edges, seeds, decay, h);
    if n < |fronts| {
      assert Truncated(fronts[n], Push(edges, seeds.Keys, fronts[h], decay), k);
      NotTruncated(fronts[n], Layer(edges, seeds, decay, n), k);
    }
  }

  /** When no layer exceeds the limit, a run computes exactly the untruncated activation. */
  lemma {:induction false} RunExact(fronts: seq<Front>, edges: Edges, seeds: Front, decay: real, k: int, h: nat)
    requires Run(fronts, edges, seeds, decay, k) && h <= |fronts|
    requires forall i :: 0 < i < |fronts| ==> |Layer(edges, seeds, decay, i)| <= k
    ensures h < |fronts| ==> fronts[h] == Layer(edges, seeds, decay, h)
    ensures Activation(fronts, edges, seeds, decay, h) == FullActivation(edges, seeds, decay, h)
  {
    for i := 0 to h
      invariant OnTrack(fronts, edges, seeds, decay, i)
    {
      TrackNext(fronts, edges, seeds, decay, k, i, i + 1);
    }
  }

  // ---- monotonicity ----

  lemma {:induction false} ProductMonotone(a: real, b: real, c: real)
    requires 0.0 <= a <= b && c >= 0.0
    ensures 0.0 <= a * c <= b * c
  {
  }

  lemma {:induction false} PushMonotone(edges: Edges, seeds: set<string>, f: Front, g: Front, decay: real)
    requires NonNegativeWeights(edges) && decay >= 0.0 && NonNegative(f) && NonNegative(g) && Below(f, g)
    ensures Below(Push(edges, seeds, f, decay), Push(edges, seeds, g, decay))
    ensures NonNegative(Push(edges, seeds, g, decay))
  {
    PushKeysMonotone(edges, seeds, f, g, decay);
    forall q { InflowMonotone(edges, f, g, q, decay); }
  }

  lemma {:induction false} PassedMonotone(w: real, x: real, c: real, decay: real)
    requires 0.0 <= w <= x && c >= 0.0 && decay >= 0.0
    ensures 0.0 <= Passed(w, c, decay) <= Passed(x, c, decay)
  {
    ProductMonotone(w, x, c);
    ProductMonotone(w * c, x * c, decay);
  }

  lemma {:induction false} InflowMonotone(edges: Edges, f: Front, g: Front, q: string, decay: real)
    requires NonNegativeWeights(edges) && decay >= 0.0 && NonNegative(f) && NonNegative(g) && Below(f, g)
    ensures Total(Inflow(edges, f, f.Keys, q, decay)) <= Total(Inflow(edges, g, g.Keys, q, decay))
    ensures Total(Inflow(edges, g, g.Keys, q, decay)) >= 0.0
  {
    var a, b := Inflow(edges, f, f.Keys, q, decay), Inflow(edges, g, g.Keys, q, decay);
    forall p | p in b ensures b[p] >= 0.0 && (p in a ==> a[p] <= b[p]) {
      NeighborsNonNegative(edges, p);
      PassedMonotone(if p in f then f[p] else 0.0, g[p], Neighbors(edges, p)[q], decay);
    }
    TotalMonotone(a, b);
    TotalNonNegative(b);
  }

  lemma {:induction false} PushNonNegative(edges: Edges, seeds: set<string>, f: Front, decay: real)
    requires NonNegativeWeights(edges) && decay >= 0.0 && NonNegative(f)
    ensures NonNegative(Push(edges, seeds, f, decay))
  {
    PushMonotone(edges, seeds, f, f, decay);
  }

  lemma {:induction false} TruncatedBelow(small: Front, all: Front, bound: Front, k: int)
    requires Truncated(small, all, k) && NonNegative(all) && Below(all, bound)
    ensures NonNegative(small) && Below(small, bound)
  {
  }

  lemma {:induction false} PlusBelow(a: Front, b: Front, x: Front, y: Front)
    requires Below(a, x) && Below(b, y) && NonNegative(x) && NonNegative(y)
    ensures Below(Plus(a, b), Plus(x, y)) && NonNegative(Plus(x, y))
  {
  }

  ghost predicate Dissipative(edges: Edges, seeds: Front, decay: real) {
    NonNegativeWeights(edges) && decay >= 0.0 && NonNegative(seeds)
  }

  lemma {:induction false} NextLayerNonNegative(edges: Edges, seeds: Front, decay: real, h: nat)
    requires Dissipative(edges, seeds, decay) && NonNegative(Layer(edges, seeds, decay, h))
    ensures NonNegative(Layer(edges, seeds, decay, h + 1))
  {
    PushNonNegative(edges, seeds.Keys, Layer(edges, seeds, decay, h), decay);
  }

  lemma {:induction false} LayerNonNegative(edges: Edges, seeds: Front, decay: real, h: nat)
    requires Dissipative(edges, seeds, decay)
    ensures NonNegative(Layer(edges, seeds, decay, h))
  {
    for i := 0 to h
      invariant NonNegative(Layer(edges, seeds, decay, i))
    {
      NextLayerNonNegative(edges, seeds, decay, i);
    }
  }

  /** After `h` hops frontier and activation are at most what they are without truncation. */
  ghost predicate Damped(fronts: seq<Front>, edges: Edges, seeds: Front, decay: real, h: nat) {
    && h <= |fronts|
    && (h < |fronts| ==> NonNegative(fronts[h]) && Below(fronts[h], Layer(edges, seeds, decay, h)))
    && Below(Activation(fronts, edges, seeds, decay, h), FullActivation(edges, seeds, decay, h))
    && NonNegative(FullActivation(edges, seeds, decay, h))
  }

  lemma {:induction false} DampedNext(fronts: seq<Front>, edges: Edges, seeds: Front, decay: real, k: int, h: nat,
                                      n: nat)
    requires Run(fronts, edges, seeds, decay, k) && n == h + 1 <= |fronts| && Dissipative(edges, seeds, decay)
    requires Damped(fronts, edges, seeds, decay, h)
    ensures Damped(fronts, edges, seeds, decay, n)
  {
    var f, g := fronts[h], Layer(edges, seeds, decay, h);
    var pushed := Push(edges, seeds.Keys, f, decay);
    LayerNonNegative(edges, seeds, decay, h);
    PushMonotone(edges, seeds.Keys, f, g, decay);
    PushNonNegative(edges, seeds.Keys, f, decay);
    ActivationNext(fronts, edges, seeds, decay, h);
    FullNext(edges, seeds, decay, h);
    if n < |fronts| {
      assert Truncated(fronts[n], pushed, k);
      TruncatedBelow(fronts[n], pushed, Layer(edges, seeds, decay, n), k);
    }
    PlusBelow(Activation(fronts, edges, seeds, decay, h), pushed, FullActivation(edges, seeds, decay, h),
      Layer(edges, seeds, decay, n));
  }

  /** Cutting the frontier never increases any activation. */
  lemma {:induction false} RunBelow(fronts: seq<Front>, edges: Edges, seeds: Front, decay: real, k: int, h: nat)
    requires Run(fronts, edges, seeds, decay, k) && h <= |fronts| && Dissipative(edges, seeds, decay)
    ensures h < |fronts| ==> NonNegative(fronts[h]) && Below(fronts[h], Layer(edges, seeds, decay, h))
    ensures Below(Activation(fronts, edges, seeds, decay, h), FullActivation(edges, seeds, decay, h))
    ensures NonNegative(FullActivation(edges, seeds, decay, h))
  {
    for i := 0 to h
      invariant Damped(fronts, edges, seeds, decay, i)
    {
      DampedNext(fronts, edges, seeds, decay, k, i, i + 1);
    }
  }

  // ---- the bound on the total ----

  /** No note passes on more than `rate` times its own weight. */
  ghost predicate PassBound(edges: Edges, decay: real, rate: real) {
    rate >= 0.0 && forall p :: Total(Scale(decay, Neighbors(edges, p))) <= rate
  }

  lemma {:induction false} Reorder(w: real, decay: real, x: real)
    ensures Prod(w, Prod(decay, x)) == Passed(w, x, decay)
  {
  }

  lemma {:induction false} GainScaled(edges: Edges, seeds: set<string>, p: string, w: real, decay: real)
    requires NonNegativeWeights(edges) && w >= 0.0 && decay >= 0.0
    ensures var bound := Scale(w, Scale(decay, Neighbors(edges, p)));
      Below(Gain(edges, seeds, p, w, decay), bound) && NonNegative(bound)
  {
    var ns := Neighbors(edges, p);
    NeighborsNonNegative(edges, p);
    forall q | q in ns ensures Prod(w, Prod(decay, ns[q])) == Passed(w, ns[q], decay)
      && Passed(w, ns[q], decay) >= 0.0 {
      Reorder(w, decay, ns[q]);
      PassedMonotone(w, w, ns[q], decay);
    }
  }

  lemma {:induction false} GainBound(edges: Edges, seeds: set<string>, p: string, w: real, decay: real, rate: real)
    requires NonNegativeWeights(edges) && w >= 0.0 && decay >= 0.0 && PassBound(edges, decay, rate)
    ensures Total(Gain(edges, seeds, p, w, decay)) <= Prod(rate, w)
  {
    var m := Scale(decay, Neighbors(edges, p));
    GainScaled(edges, seeds, p, w, decay);
    TotalMonotone(Gain(edges, seeds, p, w, decay), Scale(w, m));
    TotalScale(w, m);
    ProdMonotone(w, Total(m), rate);
    assert Prod(w, rate) == Prod(rate, w);
  }

  /** `rate` times the weights of the notes `done` of the frontier. */
  ghost function Budget(front: Front, done: set<string>, rate: real): Front {
    map p | p in front && p in done :: Prod(rate, front[p])
  }

  lemma {:induction false} BudgetAdd(front: Front, done: set<string>, p: string, rate: real)
    requires p in front && p !in done
    ensures Total(Budget(front, done + {p}, rate)) == Total(Budget(front, done, rate)) + Prod(rate, front[p])
  {
    var m, m' := Budget(front, done, rate), Budget(front, done + {p}, rate);
    assert forall u :: u in done + {p} <==> u in done || u == p;
    assert m' == m[p := Prod(rate, front[p])];
    TotalAdd(m, p, Prod(rate, front[p]));
  }

  lemma {:induction false} PushAdd(edges: Edges, seeds: set<string>, front: Front, done: set<string>, p: string,
                                   decay: real)
    requires p in front && p !in done
    ensures Total(PushFrom(edges, seeds, front, done + {p}, decay))
         == Total(PushFrom(edges, seeds, front, done, decay)) + Total(Gain(edges, seeds, p, front[p], decay))
  {
    PushStep(edges, seeds, front, done, p, decay);
    TotalPlus(PushFrom(edges, seeds, front, done, decay), Gain(edges, seeds, p, front[p], decay));
  }

  lemma {:induction false} NothingPushed(edges: Edges, seeds: set<string>, front: Front, decay: real, rate: real)
    ensures Total(PushFrom(edges, seeds, front, {}, decay)) == 0.0 && Total(Budget(front, {}, rate)) == 0.0
  {
    assert PushFrom(edges, seeds, front, {}, decay) == map[] && Budget(front, {}, rate) == map[];
  }

  lemma {:induction false} PushWithinBudget(edges: Edges, seeds: set<string>, front: Front, decay: real, rate: real)
    requires NonNegativeWeights(edges) && PassBound(edges, decay, rate) && NonNegative(front) && decay >= 0.0
    ensures Total(Push(edges, seeds, front, decay)) <= Total(Budget(front, front.Keys, rate))
  {
    var done: set<string> := {};
    NothingPushed(edges, seeds, front, decay, rate);
    while done != front.Keys
      invariant done <= front.Keys
      invariant Total(PushFrom(edges, seeds, front, done, decay)) <= Total(Budget(front, done, rate))
      decreases front.Keys - done
    {
      var p := Next(front.Keys, done);
      PushAdd(edges, seeds, front, done, p, decay);
      BudgetAdd(front, done, p, rate);
      GainBound(edges, seeds, p, front[p], decay, rate);
      done := done + {p};
    }
  }

  lemma {:induction false} Next(all: set<string>, done: set<string>) returns (p: string)
    requires done <= all && done != all
    ensures p in all && p !in done
  {
    p :| p in all && p !in done;
  }

  /** One hop multiplies the total by at most `rate`. */
  lemma {:induction false} PushBound(edges: Edges, seeds: set<string>, front: Front, decay: real, rate: real)
    requires NonNegativeWeights(edges) && PassBound(edges, decay, rate) && NonNegative(front) && decay >= 0.0
    ensures Total(Push(edges, seeds, front, decay)) <= Prod(rate, Total(front))
  {
    PushWithinBudget(edges, seeds, front, decay, rate);
    assert Budget(front, front.Keys, rate) == Scale(rate, front);
    TotalScale(rate, front);
  }

  /** s * rate^h */
  ghost function Decayed(s: real, rate: real, h: nat): real {
    if h == 0 then s else Prod(rate, Decayed(s, rate, h - 1))
  }

  /** s * rate + s * rate^2 + ... + s * rate^h */
  ghost function GeometricSum(s: real, rate: real, h: nat): real {
    if h == 0 then 0.0 else GeometricSum(s, rate, h - 1) + Decayed(s, rate, h)
  }

  lemma {:induction false} NextLayerBound(edges: Edges, seeds: Front, decay: real, rate: real, h: nat)
    requires Dissipative(edges, seeds, decay) && PassBound(edges, decay, rate)
    requires Total(Layer(edges, seeds, decay, h)) <= Decayed(Total(seeds), rate, h)
    ensures Total(Layer(edges, seeds, decay, h + 1)) <= Decayed(Total(seeds), rate, h + 1)
  {
    var f := Layer(edges, seeds, decay, h);
    LayerNonNegative(edges, seeds, decay, h);
    PushBound(edges, seeds.Keys, f, decay, rate);
    ProdMonotone(rate, Total(f), Decayed(Total(seeds), rate, h));
  }

  lemma {:induction false} LayerBound(edges: Edges, seeds: Front, decay: real, rate: real, h: nat)
    requires Dissipative(edges, seeds, decay) && PassBound(edges, decay, rate)
    ensures Total(Layer(edges, seeds, decay, h)) <= Decayed(Total(seeds), rate, h)
  {
    for i := 0 to h
      invariant Total(Layer(edges, seeds, decay, i)) <= Decayed(Total(seeds), rate, i)
    {
      NextLayerBound(edges, seeds, decay, rate, i);
    }
  }

  lemma {:induction false} NextActivationTotal(edges: Edges, seeds: Front, decay: real, h: nat)
    ensures Total(FullActivation(edges, seeds, decay, h + 1))
         == Total(FullActivation(edges, seeds, decay, h)) + Total(Layer(edges, seeds, decay, h + 1))
  {
    TotalPlus(FullActivation(edges, seeds, decay, h), Layer(edges, seeds, decay, h + 1));
  }

  /** The activation without truncation is at most a geometric sum over the hops. */
  lemma {:induction false} FullActivationBound(edges: Edges, seeds: Front, decay: real, rate: real, h: nat)
    requires Dissipative(edges, seeds, decay) && PassBound(edges, decay, rate)
    ensures Total(FullActivation(edges, seeds, decay, h)) <= GeometricSum(Total(seeds), rate, h)
  {
    for i := 0 to h
      invariant Total(FullActivation(edges, seeds, decay, i)) <= GeometricSum(Total(seeds), rate, i)
    {
      LayerBound(edges, seeds, decay, rate, i + 1);
      NextActivationTotal(edges, seeds, decay, i);
    }
  }

  /** No note's neighbour weights add up to more than `d`. */
  ghost predicate DegreeBound(edges: Edges, d: real) {
    forall p :: Total(Neighbors(edges, p)) <= d
  }

  lemma {:induction false} DegreePassBound(edges: Edges, decay: real, d: real)
    requires NonNegativeWeights(edges) && DegreeBound(edges, d) && decay >= 0.0
    ensures PassBound(edges, decay, Prod(decay, d))
  {
    forall p ensures Total(Scale(decay, Neighbors(edges, p))) <= Prod(decay, d) {
      TotalScale(decay, Neighbors(edges, p));
      ProdMonotone(decay, Total(Neighbors(edges, p)), d);
    }
    NeighborsNonNegative(edges, "");
    TotalNonNegative(Neighbors(edges, ""));
    ProdNonNegative(decay, d);
  }

  /** The main bound: whatever is cut off, the activation is at most the geometric sum of the seeds' total at
      rate decay times the largest weighted degree. */
  lemma {:induction false} RunBound(fronts: seq<Front>, edges: Edges, seeds: Front, decay: real, k: int, d: real,
                                    h: nat)
    requires Run(fronts, edges, seeds, decay, k) && h <= |fronts|
    requires Dissipative(edges, seeds, decay) && DegreeBound(edges, d)
    ensures Total(Activation(fronts, edges, seeds, decay, h)) <= GeometricSum(Total(seeds), Prod(decay, d), h)
  {
    RunBelow(fronts, edges, seeds, decay, k, h);
    TotalMonotone(Activation(fronts, edges, seeds, decay, h), FullActivation(edges, seeds, decay, h));
    DegreePassBound(edges, decay, d);
    FullActivationBound(edges, seeds, decay, Prod(decay, d), h);
  }

  // ---- what is reached ----

  ghost predicate Steps(edges: Edges, seeds: set<string>, p: string, q: string) {
    q in Neighbors(edges, p) && q !in seeds
  }

  /** A walk from a seed over neighbours, on notes that are not seeds after the first. */
  ghost predicate Walk(edges: Edges, seeds: set<string>, w: seq<string>) {
    && w != [] && w[0] in seeds
    && forall i, j :: 0 <= i < |w| && j == i + 1 < |w| ==> Steps(edges, seeds, w[i], w[j])
  }

  /** `q` is at the end of a walk of `h` steps. */
  ghost predicate ReachedIn(edges: Edges, seeds: set<string>, h: nat, q: string) {
    exists w :: Walk(edges, seeds, w) && |w| == h + 1 && w[h] == q
  }

  lemma {:induction false} WalkBack(edges: Edges, seeds: set<string>, h: nat, q: string) returns (p: string)
    requires ReachedIn(edges, seeds, h + 1, q)
    ensures ReachedIn(edges, seeds, h, p) && Steps(edges, seeds, p, q)
  {
    var w :| Walk(edges, seeds, w) && |w| == h + 2 && w[h + 1] == q;
    p := w[h];
    assert Walk(edges, seeds, w[..h + 1]) && w[..h + 1][h] == p;
  }

  lemma {:induction false} WalkOn(edges: Edges, seeds: set<string>, h: nat, p: string, q: string)
    requires ReachedIn(edges, seeds, h, p) && Steps(edges, seeds, p, q)
    ensures ReachedIn(edges, seeds, h + 1, q)
  {
    var w :| Walk(edges, seeds, w) && |w| == h + 1 && w[h] == p;
    assert Walk(edges, seeds, w + [q]) && (w + [q])[h + 1] == q;
  }

  lemma {:induction false} PushReaches(edges: Edges, seeds: set<string>, f: Front, decay: real, q: string)
    ensures q in Push(edges, seeds, f, decay) <==> exists p :: p in f && Steps(edges, seeds, p, q)
  {
    if q in Push(edges, seeds, f, decay) {
      var p :| p in f.Keys && p in f && q in Neighbors(edges, p) && q !in seeds;
      assert Steps(edges, seeds, p, q);
    }
    if p :| p in f && Steps(edges, seeds, p, q) {
      assert p in f.Keys;
    }
  }

  lemma {:induction false} LayerStep(edges: Edges, seeds: Front, decay: real, h: nat, q: string)
    ensures q in Layer(edges, seeds, decay, h + 1) <==>
      exists p :: p in Layer(edges, seeds, decay, h) && Steps(edges, seeds.Keys, p, q)
  {
    PushReaches(edges, seeds.Keys, Layer(edges, seeds, decay, h), decay, q);
  }

  lemma {:induction false} SeedReached(edges: Edges, seeds: set<string>, q: string)
    ensures q in seeds <==> ReachedIn(edges, seeds, 0, q)
  {
    if q in seeds { assert Walk(edges, seeds, [q]) && [q][0] == q; }
  }

  ghost predicate LayerIsReach(edges: Edges, seeds: Front, decay: real, h: nat) {
    forall q :: q in Layer(edges, seeds, decay, h) <==> ReachedIn(edges, seeds.Keys, h, q)
  }

  lemma {:induction false} NextLayerReaches(edges: Edges, seeds: Front, decay: real, h: nat, q: string)
    requires LayerIsReach(edges, seeds, decay, h)
    ensures q in Layer(edges, seeds, decay, h + 1) <==> ReachedIn(edges, seeds.Keys, h + 1, q)
  {
    LayerStep(edges, seeds, decay, h, q);
    if p :| p in Layer(edges, seeds, decay, h) && Steps(edges, seeds.Keys, p, q) {
      WalkOn(edges, seeds.Keys, h, p, q);
    }
    if ReachedIn(edges, seeds.Keys, h + 1, q) {
      var p := WalkBack(edges, seeds.Keys, h, q);
    }
  }

  lemma {:induction false} NextLayerIsReach(edges: Edges, seeds: Front, decay: real, h: nat, n: nat)
    requires LayerIsReach(edges, seeds, decay, h) && n == h + 1
    ensures LayerIsReach(edges, seeds, decay, n)
  {
    var next := Layer(edges, seeds, decay, n);
    forall q ensures q in next <==> ReachedIn(edges, seeds.Keys, n, q) { NextLayerReaches(edges, seeds, decay, h, q); }
  }

  /** A layer holds exactly the notes at the end of walks of its length. */
  lemma {:induction false} LayerReaches(edges: Edges, seeds: Front, decay: real, h: nat)
    ensures LayerIsReach(edges, seeds, decay, h)
  {
    forall q { SeedReached(edges, seeds.Keys, q); }
    for i := 0 to h
      invariant LayerIsReach(edges, seeds, decay, i)
    {
      NextLayerIsReach(edges, seeds, decay, i, i + 1);
    }
  }

  ghost predicate ReachedWithin(edges: Edges, seeds: set<string>, h: nat, q: string) {
    exists i :: 1 <= i <= h && ReachedIn(edges, seeds, i, q)
  }

  lemma {:induction false} WithinStep(edges: Edges, seeds: set<string>, h: nat, q: string)
    ensures ReachedWithin(edges, seeds, h + 1, q) <==>
      ReachedWithin(edges, seeds, h, q) || ReachedIn(edges, seeds, h + 1, q)
  {
    if ReachedWithin(edges, seeds, h, q) {
      var i :| 1 <= i <= h && ReachedIn(edges, seeds, i, q);
    }
  }

  lemma {:induction false} NextActivationReaches(edges: Edges, seeds: Front, decay: real, h: nat, q: string)
    requires q in FullActivation(edges, seeds, decay, h) <==> ReachedWithin(edges, seeds.Keys, h, q)
    ensures q in FullActivation(edges, seeds, decay, h + 1) <==> ReachedWithin(edges, seeds.Keys, h + 1, q)
  {
    LayerReaches(edges, seeds, decay, h + 1);
    WithinStep(edges, seeds.Keys, h, q);
    PlusAt(FullActivation(edges, seeds, decay, h), Layer(edges, seeds, decay, h + 1), q);
  }

  /** Without truncation exactly the notes within `h` steps of a seed, through notes that are not seeds, are
      activated. */
  lemma {:induction false} ActivationReaches(edges: Edges, seeds: Front, decay: real, h: nat, q: string)
    ensures q in FullActivation(edges, seeds, decay, h) <==> ReachedWithin(edges, seeds.Keys, h, q)
  {
    for i := 0 to h
      invariant q in FullActivation(edges, seeds, decay, i) <==> ReachedWithin(edges, seeds.Keys, i, q)
    {
      NextActivationReaches(edges, seeds, decay, i, q);
    }
  }
}
