/** What a BM25 score means: rare terms, frequent occurrences and short documents count more. */
module ScoreLaws {
  import opened Sums
  import opened BM25

  // ---- quotients ----

  lemma {:induction false} Undo(x: real, y: real)
    requires y != 0.0
    ensures x / y * y == x
  {
  }

  lemma {:induction false} TimesLess(c: real, x: real, y: real)
    requires c > 0.0 && x < y
    ensures c * x < c * y
  {
  }

  lemma {:induction false} TimesAtMost(c: real, x: real, y: real)
    requires c >= 0.0 && x <= y
    ensures c * x <= c * y
  {
  }

  /** a / b < c / d when a * d < c * b. */
  lemma {:induction false} CrossLess(a: real, b: real, c: real, d: real)
    requires b > 0.0 && d > 0.0 && a * d < c * b
    ensures a / b < c / d
  {
    var x, y := a / b, c / d;
    Undo(a, b);
    Undo(c, d);
    assert x * b == a && y * d == c;
    Swap(x, b, d);
    Swap(y, d, b);
    if x >= y { TimesAtMost(b * d, y, x); }
  }

  lemma {:induction false} Swap(x: real, y: real, z: real)
    ensures x * y * z == (y * z) * x && (y * z) * x == (z * y) * x
  {
  }

  lemma {:induction false} CrossAtMost(a: real, b: real, c: real, d: real)
    requires b > 0.0 && d > 0.0 && a * d <= c * b
    ensures a / b <= c / d
  {
    var x, y := a / b, c / d;
    Undo(a, b);
    Undo(c, d);
    assert x * b == a && y * d == c;
    Swap(x, b, d);
    Swap(y, d, b);
    if x > y { TimesLess(b * d, y, x); }
  }

  // ---- the rarity of a term ----

  /** (n + 1) / (d + 0.5), for `n` documents of which `d` hold the term. */
  lemma {:induction false} IdfIs(n: nat, d: nat)
    ensures IdfArgument(n, d) * (d as real + 0.5) == n as real + 1.0
  {
    Undo(n as real - d as real + 0.5, d as real + 0.5);
  }

  /** The rarer a term, the more it counts. */
  lemma {:induction false} RarerCountsMore(n: nat, d: nat, e: nat)
    requires d < e
    ensures IdfArgument(n, d) > IdfArgument(n, e)
  {
    var c, x, y := n as real + 1.0, d as real + 0.5, e as real + 0.5;
    IdfIs(n, d);
    IdfIs(n, e);
    QuotientOf(IdfArgument(n, d), x, c);
    QuotientOf(IdfArgument(n, e), y, c);
    TimesLess(c, x, y);
    CrossLess(c, y, c, x);
  }

  lemma {:induction false} QuotientOf(q: real, x: real, c: real)
    requires x > 0.0 && q * x == c
    ensures q == c / x
  {
  }

  // ---- one term in one document ----

  /** The part of the denominator that does not depend on the frequency: `k1 * (1 - b + b * dl / avgdl)`. */
  ghost function Damping(p: Params, dl: nat, avgdl: real): real {
    Prod(p.k1, 1.0 - p.b + LengthPart(p, dl, avgdl))
  }

  /** `freq * (k1 + 1) / (freq + k)` */
  ghost function Saturated(c: real, freq: real, k: real): real
    requires freq + k > 0.0
  {
    freq * c / (freq + k)
  }

  lemma {:induction false} DampingNonNegative(p: Params, dl: nat, avgdl: real)
    requires UsualParams(p) && avgdl >= 0.0
    ensures Damping(p, dl, avgdl) >= 0.0
    ensures p.k1 > 0.0 && p.b < 1.0 ==> Damping(p, dl, avgdl) > 0.0
  {
    LengthPartNonNegative(p, dl, avgdl);
    ProdSign(p.k1, 1.0 - p.b + LengthPart(p, dl, avgdl));
  }

  lemma {:induction false} ProdSign(x: real, y: real)
    requires x >= 0.0 && y >= 0.0
    ensures Prod(x, y) >= 0.0 && (x > 0.0 && y > 0.0 ==> Prod(x, y) > 0.0)
  {
  }

  lemma {:induction false} ProdLess(w: real, x: real, y: real)
    requires w >= 0.0 && x <= y
    ensures Prod(w, x) <= Prod(w, y) && (w > 0.0 && x < y ==> Prod(w, x) < Prod(w, y))
  {
  }

  lemma {:induction false} DenominatorIs(p: Params, freq: nat, dl: nat, avgdl: real)
    ensures Denominator(p, freq, dl, avgdl) == freq as real + Damping(p, dl, avgdl)
  {
  }

  lemma {:induction false} WeightIsProduct(p: Params, idf: real, freq: nat, dl: nat, avgdl: real, k: real)
    requires UsualParams(p) && freq > 0 && avgdl >= 0.0 && k == Damping(p, dl, avgdl)
    ensures k >= 0.0 && TermWeight(p, idf, freq, dl, avgdl) == Prod(idf, Saturated(p.k1 + 1.0, freq as real, k))
  {
    DampingNonNegative(p, dl, avgdl);
    DenominatorIs(p, freq, dl, avgdl);
  }

  /** The weight of a term times `freq + k1 * (1 - b + b * dl / avgdl)` is its idf times `freq * (k1 + 1)`. */
  lemma {:induction false} WeightIs(p: Params, idf: real, freq: nat, dl: nat, avgdl: real)
    requires UsualParams(p) && freq > 0 && avgdl > 0.0
    ensures TermWeight(p, idf, freq, dl, avgdl) * (freq as real + p.k1 * (1.0 - p.b + p.b * dl as real / avgdl)) ==
      idf * (freq as real * (p.k1 + 1.0))
  {
    var k := Damping(p, dl, avgdl);
    WeightIsProduct(p, idf, freq, dl, avgdl, k);
    TimesDenominator(idf, p.k1 + 1.0, freq as real, k);
  }

  lemma {:induction false} TimesDenominator(idf: real, c: real, f: real, k: real)
    requires f + k > 0.0
    ensures Prod(idf, Saturated(c, f, k)) * (f + k) == idf * (f * c)
  {
    Undo(f * c, f + k);
    Regroup(idf, f * c / (f + k), f + k);
  }

  lemma {:induction false} Regroup(a: real, b: real, c: real)
    ensures a * b * c == a * (b * c)
  {
  }

  /** A term that occurs once in a document of average length weighs its idf. */
  lemma {:induction false} AverageWeighsIdf(p: Params, idf: real, dl: nat)
    requires UsualParams(p) && dl > 0
    ensures TermWeight(p, idf, 1, dl, dl as real) == idf
  {
    WeightIsProduct(p, idf, 1, dl, dl as real, Damping(p, dl, dl as real));
    Undo(p.b, dl as real);
    OwnPart(p.b, dl as real);
    OnceAverage(idf, p.k1 + 1.0);
  }

  lemma {:induction false} OwnPart(b: real, l: real)
    requires l > 0.0
    ensures b * l / l == b
  {
  }

  lemma {:induction false} OnceAverage(idf: real, c: real)
    requires c >= 1.0
    ensures Prod(idf, Saturated(c, 1.0, c - 1.0)) == idf
  {
    assert 1.0 * c / c == 1.0;
  }

  /** It never weighs more than `k1 + 1` times its idf, however often it occurs. */
  lemma {:induction false} WeightBounded(p: Params, idf: real, freq: nat, dl: nat, avgdl: real)
    requires UsualParams(p) && idf >= 0.0 && freq > 0 && avgdl >= 0.0
    ensures TermWeight(p, idf, freq, dl, avgdl) <= idf * (p.k1 + 1.0)
  {
    var k := Damping(p, dl, avgdl);
    WeightIsProduct(p, idf, freq, dl, avgdl, k);
    SaturatedBounded(p.k1 + 1.0, freq as real, k);
    TimesAtMost(idf, Saturated(p.k1 + 1.0, freq as real, k), p.k1 + 1.0);
  }

  lemma {:induction false} SaturatedBounded(c: real, f: real, k: real)
    requires c > 0.0 && f > 0.0 && k >= 0.0
    ensures Saturated(c, f, k) <= c
  {
    Product(c, k);
    assert f * c * 1.0 <= c * (f + k);
    CrossAtMost(f * c, f + k, c, 1.0);
  }

  /** It weighs more the oftener it occurs, and more in a shorter document. */
  lemma {:induction false} WeightGrows(p: Params, idf: real, f: nat, g: nat, dl: nat, ml: nat, avgdl: real)
    requires UsualParams(p) && idf >= 0.0 && 0 < f <= g && ml <= dl && avgdl >= 0.0
    ensures TermWeight(p, idf, f, dl, avgdl) <= TermWeight(p, idf, g, ml, avgdl)
    ensures idf > 0.0 && p.k1 > 0.0 && p.b < 1.0 && f < g && ml == dl ==>
      TermWeight(p, idf, f, dl, avgdl) < TermWeight(p, idf, g, ml, avgdl)
    ensures idf > 0.0 && p.k1 > 0.0 && p.b > 0.0 && f == g && ml < dl ==>
      TermWeight(p, idf, f, dl, avgdl) < TermWeight(p, idf, g, ml, avgdl)
  {
    var k, j := Damping(p, dl, avgdl), Damping(p, ml, avgdl);
    ShorterDamped(p, ml, dl, avgdl);
    WeightIsProduct(p, idf, f, dl, avgdl, k);
    WeightIsProduct(p, idf, g, ml, avgdl, j);
    ScaledGrows(idf, p.k1 + 1.0, f as real, g as real, k, j);
  }

  lemma {:induction false} ScaledGrows(idf: real, c: real, x: real, y: real, k: real, j: real)
    requires idf >= 0.0 && c > 0.0 && 0.0 < x <= y && 0.0 <= j <= k
    ensures Prod(idf, Saturated(c, x, k)) <= Prod(idf, Saturated(c, y, j))
    ensures idf > 0.0 && ((x < y && j == k > 0.0) || (x == y && j < k)) ==>
      Prod(idf, Saturated(c, x, k)) < Prod(idf, Saturated(c, y, j))
  {
    SaturationGrows(c, x, y, k, j);
    ProdLess(idf, Saturated(c, x, k), Saturated(c, y, j));
  }

  lemma {:induction false} SaturationGrows(c: real, x: real, y: real, k: real, j: real)
    requires c > 0.0 && 0.0 < x <= y && 0.0 <= j <= k
    ensures Saturated(c, x, k) <= Saturated(c, y, j)
    ensures (x < y && j == k > 0.0) || (x == y && j < k) ==> Saturated(c, x, k) < Saturated(c, y, j)
  {
    Crossed(c, x, y, k, j);
    CrossAtMost(x * c, x + k, y * c, y + j);
    if (x < y && j == k > 0.0) || (x == y && j < k) { CrossLess(x * c, x + k, y * c, y + j); }
  }

  lemma {:induction false} Crossed(c: real, x: real, y: real, k: real, j: real)
    requires c > 0.0 && 0.0 < x <= y && 0.0 <= j <= k
    ensures x * c * (y + j) <= y * c * (x + k)
    ensures (x < y && j == k > 0.0) || (x == y && j < k) ==> x * c * (y + j) < y * c * (x + k)
  {
    TimesAtMost(x, j, k);
    TimesAtMost(k, x, y);
    Expand(c, x, y, j);
    Expand(c, y, x, k);
    assert x * j <= y * k by { assert k * x == x * k && k * y == y * k; }
    TimesAtMost(c, x * y + x * j, x * y + y * k);
    if x < y && j == k > 0.0 {
      TimesLess(k, x, y);
      TimesLess(c, x * y + x * j, x * y + y * k);
    } else if x == y && j < k {
      TimesLess(x, j, k);
      TimesLess(c, x * y + x * j, x * y + y * k);
    }
  }

  lemma {:induction false} Expand(c: real, x: real, y: real, j: real)
    ensures x * c * (y + j) == c * (x * y + x * j) && x * y == y * x
  {
  }

  lemma {:induction false} ShorterDamped(p: Params, ml: nat, dl: nat, avgdl: real)
    requires UsualParams(p) && ml <= dl && avgdl >= 0.0
    ensures 0.0 <= Damping(p, ml, avgdl) <= Damping(p, dl, avgdl)
    ensures p.k1 > 0.0 && p.b < 1.0 ==> Damping(p, ml, avgdl) > 0.0
    ensures p.k1 > 0.0 && p.b > 0.0 && ml < dl ==> Damping(p, ml, avgdl) < Damping(p, dl, avgdl)
  {
    var x, y := 1.0 - p.b + LengthPart(p, ml, avgdl), 1.0 - p.b + LengthPart(p, dl, avgdl);
    DampingNonNegative(p, ml, avgdl);
    PartLess(p, ml, dl, avgdl);
    ProdLess(p.k1, x, y);
  }

  lemma {:induction false} PartLess(p: Params, ml: nat, dl: nat, avgdl: real)
    requires UsualParams(p) && ml <= dl && avgdl >= 0.0
    ensures LengthPart(p, ml, avgdl) <= LengthPart(p, dl, avgdl)
    ensures p.b > 0.0 && ml < dl ==> LengthPart(p, ml, avgdl) < LengthPart(p, dl, avgdl)
  {
    TimesAtMost(p.b, ml as real, dl as real);
    if p.b > 0.0 && ml < dl { TimesLess(p.b, ml as real, dl as real); }
    DivideLess(p.b * ml as real, p.b * dl as real, OrOne(avgdl));
  }

  lemma {:induction false} DivideLess(x: real, y: real, a: real)
    requires x <= y && a > 0.0
    ensures x / a <= y / a && (x < y ==> x / a < y / a)
  {
    TimesAtMost(a, x, y);
    CrossAtMost(x, a, y, a);
    if x < y {
      TimesLess(a, x, y);
      CrossLess(x, a, y, a);
    }
  }

  // ---- documents ----

  lemma {:induction false} AverageNonNegative(toks: Tokens)
    ensures AverageLength(toks) >= 0.0
    ensures toks != [] ==> AverageLength(toks) * |toks| as real == LengthSum(toks, |toks|) as real
  {
    if toks != [] {
      Ratio(LengthSum(toks, |toks|) as real, |toks| as real);
      Undo(LengthSum(toks, |toks|) as real, |toks| as real);
    }
  }

  lemma {:induction false} IdfPositive(p: Params, toks: Tokens, t: string)
    requires UsualParams(p)
    ensures p.ln(IdfArgument(|toks|, DocFreq(toks, |toks|, t))) > 0.0
  {
    IdfArgumentAboveOne(toks, t);
  }

  /** How often `t` occurs in document `d`. */
  ghost function Times(toks: Tokens, d: nat, t: string): nat
    requires d < |toks|
  {
    multiset(toks[d])[t]
  }

  lemma {:induction false} BetterWeight(p: Params, toks: Tokens, d: nat, e: nat, t: string)
    requires UsualParams(p) && d < |toks| && e < |toks| && |toks[e]| <= |toks[d]|
    requires t in toks[d] && Times(toks, d, t) <= Times(toks, e, t)
    ensures t in toks[e] && 0.0 <= NaiveWeight(p, toks, d, t) <= NaiveWeight(p, toks, e, t)
  {
    var idf := p.ln(IdfArgument(|toks|, DocFreq(toks, |toks|, t)));
    IdfPositive(p, toks, t);
    AverageNonNegative(toks);
    assert t in multiset(toks[d]) && t in multiset(toks[e]);
    WeightGrows(p, idf, Times(toks, d, t), Times(toks, e, t), |toks[d]|, |toks[e]|, AverageLength(toks));
    WeightPositive(p, idf, Times(toks, d, t), |toks[d]|, AverageLength(toks));
  }

  ghost function Weights(p: Params, toks: Tokens, d: nat, terms: set<string>): map<string, real>
    requires d < |toks|
  {
    map t | t in terms && t in toks[d] :: NaiveWeight(p, toks, d, t)
  }

  lemma {:induction false} WeightsPositive(p: Params, toks: Tokens, d: nat, terms: set<string>)
    requires UsualParams(p) && d < |toks|
    ensures NonNegative(Weights(p, toks, d, terms)) && Score(p, toks, d, terms) == Total(Weights(p, toks, d, terms))
  {
    forall t | t in Weights(p, toks, d, terms) ensures NaiveWeight(p, toks, d, t) >= 0.0 {
      BetterWeight(p, toks, d, d, t);
    }
  }

  /** A document that is no longer and holds every query term at least as often scores at least as high. */
  lemma {:induction false} BetterMatch(p: Params, toks: Tokens, d: nat, e: nat, terms: set<string>)
    requires UsualParams(p) && d < |toks| && e < |toks| && |toks[e]| <= |toks[d]|
    requires forall t :: t in terms ==> Times(toks, d, t) <= Times(toks, e, t)
    ensures Score(p, toks, d, terms) <= Score(p, toks, e, terms)
  {
    WeightsPositive(p, toks, d, terms);
    WeightsPositive(p, toks, e, terms);
    forall t | t in Weights(p, toks, d, terms)
      ensures t in Weights(p, toks, e, terms) && Weights(p, toks, d, terms)[t] <= Weights(p, toks, e, terms)[t]
    {
      BetterWeight(p, toks, d, e, t);
    }
    TotalMonotone(Weights(p, toks, d, terms), Weights(p, toks, e, terms));
  }

  // ---- rare terms ----

  ghost predicate Rising(ln: real -> real) {
    forall x, y :: 0.0 < x < y ==> ln(x) < ln(y)
  }

  lemma {:induction false} RarerWeight(p: Params, idf: real, idf': real, freq: nat, dl: nat, avgdl: real)
    requires UsualParams(p) && freq > 0 && avgdl >= 0.0 && idf > idf'
    ensures TermWeight(p, idf, freq, dl, avgdl) > TermWeight(p, idf', freq, dl, avgdl)
  {
    var k := Damping(p, dl, avgdl);
    WeightIsProduct(p, idf, freq, dl, avgdl, k);
    WeightIsProduct(p, idf', freq, dl, avgdl, k);
    SaturatedPositive(p.k1 + 1.0, freq as real, k);
    TimesLess(Saturated(p.k1 + 1.0, freq as real, k), idf', idf);
  }

  lemma {:induction false} SaturatedPositive(c: real, f: real, k: real)
    requires c > 0.0 && f > 0.0 && k >= 0.0
    ensures Saturated(c, f, k) > 0.0
  {
    Product(f, c);
    Ratio(f * c, f + k);
  }

  lemma {:induction false} RarerTermWeight(p: Params, toks: Tokens, d: nat, e: nat, a: string, b: string)
    requires UsualParams(p) && Rising(p.ln) && d < |toks| && e < |toks| && |toks[d]| == |toks[e]|
    requires a in toks[d] && b in toks[e] && Times(toks, d, a) == Times(toks, e, b)
    requires DocFreq(toks, |toks|, a) < DocFreq(toks, |toks|, b)
    ensures NaiveWeight(p, toks, d, a) > NaiveWeight(p, toks, e, b)
  {
    var n, x, y := |toks|, DocFreq(toks, |toks|, a), DocFreq(toks, |toks|, b);
    RarerCountsMore(n, x, y);
    IdfArgumentAboveOne(toks, b);
    AverageNonNegative(toks);
    assert a in multiset(toks[d]);
    RarerWeight(p, p.ln(IdfArgument(n, x)), p.ln(IdfArgument(n, y)), Times(toks, d, a), |toks[d]|, AverageLength(toks));
  }

  /** Two documents of one length that match a query alike, but that one holds the rarer of two of its terms where the
      other holds the commoner, equally often: the first scores higher. */
  lemma {:induction false} RarerTermWins(p: Params, toks: Tokens, d: nat, e: nat, terms: set<string>, a: string,
                                         b: string)
    requires UsualParams(p) && Rising(p.ln) && d < |toks| && e < |toks| && |toks[d]| == |toks[e]|
    requires a in terms && b in terms && a in toks[d] && b !in toks[d] && b in toks[e] && a !in toks[e]
    requires Times(toks, d, a) == Times(toks, e, b)
    requires forall t :: t in terms && t != a && t != b ==> Times(toks, d, t) == Times(toks, e, t)
    requires DocFreq(toks, |toks|, a) < DocFreq(toks, |toks|, b)
    ensures Score(p, toks, d, terms) > Score(p, toks, e, terms)
  {
    var m, m' := Weights(p, toks, d, terms), Weights(p, toks, e, terms);
    WeightsPositive(p, toks, d, terms);
    WeightsPositive(p, toks, e, terms);
    RarerTermWeight(p, toks, d, e, a, b);
    SameRest(p, toks, d, e, terms, a, b);
    TotalRemove(m, a);
    TotalRemove(m', b);
  }

  lemma {:induction false} SameRest(p: Params, toks: Tokens, d: nat, e: nat, terms: set<string>, a: string, b: string)
    requires d < |toks| && e < |toks| && |toks[d]| == |toks[e]| && b !in toks[d] && a !in toks[e]
    requires forall t :: t in terms && t != a && t != b ==> Times(toks, d, t) == Times(toks, e, t)
    ensures Weights(p, toks, d, terms) - {a} == Weights(p, toks, e, terms) - {b}
  {
    var m, m' := Weights(p, toks, d, terms) - {a}, Weights(p, toks, e, terms) - {b};
    forall t ensures (t in m <==> t in m') && (t in m ==> m[t] == m'[t]) {
      SameTerm(p, toks, d, e, terms, a, b, t);
    }
  }

  lemma {:induction false} SameTerm(p: Params, toks: Tokens, d: nat, e: nat, terms: set<string>, a: string, b: string,
                                    t: string)
    requires d < |toks| && e < |toks| && |toks[d]| == |toks[e]| && b !in toks[d] && a !in toks[e]
    requires t in terms && t != a && t != b ==> Times(toks, d, t) == Times(toks, e, t)
    ensures var m, m' := Weights(p, toks, d, terms) - {a}, Weights(p, toks, e, terms) - {b};
      (t in m <==> t in m') && (t in m ==> m[t] == m'[t])
  {
    assert t in toks[d] <==> Times(toks, d, t) > 0;
    assert t in toks[e] <==> Times(toks, e, t) > 0;
  }
}
