/** The lexical index: an inverted index with document frequencies, and the search that accumulates scores
    over postings.  `Score` is the definition the index is proved against; it uses no index at all. */
module BM25 {
  import opened Sums
  import opened Sorting

  // ---- the collection, as token lists ----

  type Tokens = seq<seq<string>>

  function Tokenized(docs: seq<(string, string)>, tokenize: string -> seq<string>): Tokens {
    seq(|docs|, i requires 0 <= i < |docs| => tokenize(docs[i].1))
  }

  /** The number of documents among the first `n` that contain `t`. */
  function DocFreq(toks: Tokens, n: nat, t: string): (f: nat)
    requires n <= |toks|
    ensures f <= n
  {
    if n == 0 then 0 else DocFreq(toks, n - 1, t) + if t in toks[n - 1] then 1 else 0
  }

  function LengthSum(toks: Tokens, n: nat): nat
    requires n <= |toks|
  {
    if n == 0 then 0 else LengthSum(toks, n - 1) + |toks[n - 1]|
  }

  function AverageLength(toks: Tokens): real {
    if |toks| == 0 then 0.0 else LengthSum(toks, |toks|) as real / |toks| as real
  }

  function OrOne(x: real): real {
    if x == 0.0 then 1.0 else x
  }

  function IdfArgument(n: nat, d: nat): real {
    1.0 + (n as real - d as real + 0.5) / (d as real + 0.5)
  }

  /** Every document frequency is at most the number of documents, so the logarithm is positive. */
  lemma {:induction false} IdfArgumentAboveOne(toks: Tokens, t: string)
    ensures IdfArgument(|toks|, DocFreq(toks, |toks|, t)) > 1.0
  {
    var n, d := |toks| as real, DocFreq(toks, |toks|, t) as real;
    assert n - d + 0.5 > 0.0 && d + 0.5 > 0.0;
  }

  /** The two free parameters of BM25 and the natural logarithm. */
  datatype Params = Params(k1: real, b: real, ln: real -> real)

  /** The contribution of one term to one document, from its frequency and the length of the document. */
  function TermWeight(p: Params, idf: real, freq: nat, dl: nat, avgdl: real): real {
    idf * (freq as real * (p.k1 + 1.0) / OrOne(Denominator(p, freq, dl, avgdl)))
  }

  function Denominator(p: Params, freq: nat, dl: nat, avgdl: real): real {
    Damped(freq as real, p.k1, p.b, LengthPart(p, dl, avgdl))
  }

  function LengthPart(p: Params, dl: nat, avgdl: real): real {
    p.b * dl as real / OrOne(avgdl)
  }

  function Damped(freq: real, k1: real, b: real, part: real): real {
    freq + k1 * (1.0 - b + part)
  }

  /** The BM25 term of document `d` for `t`, straight from the collection. */
  function NaiveWeight(p: Params, toks: Tokens, d: nat, t: string): real
    requires d < |toks|
  {
    TermWeight(p, p.ln(IdfArgument(|toks|, DocFreq(toks, |toks|, t))), multiset(toks[d])[t], |toks[d]|,
      AverageLength(toks))
  }

  ghost predicate Matches(toks: Tokens, d: nat, terms: set<string>) {
    d < |toks| && exists t :: t in terms && t in toks[d]
  }

  /** The score of a document: the sum of its BM25 terms over the distinct query terms it contains. */
  ghost function Score(p: Params, toks: Tokens, d: nat, terms: set<string>): real
    requires d < |toks|
  {
    Total(map t | t in terms && t in toks[d] :: NaiveWeight(p, toks, d, t))
  }

  ghost function Scores(p: Params, toks: Tokens, terms: set<string>): map<nat, real> {
    map d: nat | d < |toks| && Matches(toks, d, terms) :: Score(p, toks, d, terms)
  }

  // ---- postings ----

  /** The postings of `t` over the first `n` documents. */
  function Postings(toks: Tokens, n: nat, t: string): seq<(nat, nat)>
    requires n <= |toks|
  {
    if n == 0 then []
    else Postings(toks, n - 1, t) + if t in toks[n - 1] then [(n - 1, multiset(toks[n - 1])[t])] else []
  }

  /** One entry per containing document, in increasing order, with the exact count. */
  lemma {:induction false} PostingsExact(toks: Tokens, n: nat, t: string)
    requires n <= |toks|
    ensures var ps := Postings(toks, n, t);
      && |ps| == DocFreq(toks, n, t)
      && (forall i :: 0 <= i < |ps| ==> ps[i].0 < n && t in toks[ps[i].0] && ps[i].1 == multiset(toks[ps[i].0])[t])
      && (forall i, j :: 0 <= i < j < |ps| ==> ps[i].0 < ps[j].0)
      && (forall d: nat :: d < n && t in toks[d] ==> (d, multiset(toks[d])[t]) in ps)
  {
    if n > 0 { PostingsExact(toks, n - 1, t); }
  }

  function Vocabulary(toks: Tokens, n: nat): set<string>
    requires n <= |toks|
  {
    set d, t | 0 <= d < n && t in toks[d] :: t
  }

  // ---- counting every token once ----

  function FreqSum(ps: seq<(nat, nat)>): nat {
    if ps == [] then 0 else FreqSum(ps[..|ps| - 1]) + ps[|ps| - 1].1
  }

  ghost function Frequencies(toks: Tokens, n: nat): map<string, real>
    requires n <= |toks|
  {
    map t | t in Vocabulary(toks, n) :: FreqSum(Postings(toks, n, t)) as real
  }

  ghost function Counter(ts: seq<string>): map<string, real> {
    map t | t in ts :: multiset(ts)[t] as real
  }

  lemma {:induction false} CounterTotal(ts: seq<string>)
    ensures Total(Counter(ts)) == |ts| as real
  {
    if ts == [] {
      assert Counter(ts) == map[];
    } else {
      var front, last := ts[..|ts| - 1], ts[|ts| - 1];
      assert ts == front + [last];
      CounterTotal(front);
      CounterAppend(front, last);
      TotalBump(Counter(front), last, 1.0);
    }
  }

  lemma {:induction false} CounterAppend(ts: seq<string>, t: string)
    ensures Counter(ts + [t]) == Bump(Counter(ts), t, 1.0)
  {
    var l, r := Counter(ts + [t]), Bump(Counter(ts), t, 1.0);
    assert multiset(ts + [t]) == multiset(ts) + multiset{t};
    forall u ensures u in l <==> u in r {
      assert u in ts + [t] <==> u in ts || u == t;
    }
    forall u | u in l ensures l[u] == r[u] {
      assert u in multiset(ts) <==> u in ts;
    }
  }

  /** All posting frequencies together count every token of the collection once. */
  lemma {:induction false} FrequenciesTotal(toks: Tokens, n: nat)
    requires n <= |toks|
    ensures Total(Frequencies(toks, n)) == LengthSum(toks, n) as real
  {
    if n == 0 {
      assert Frequencies(toks, n) == map[];
    } else {
      FrequenciesTotal(toks, n - 1);
      NextTotal(toks, n);
    }
  }

  lemma {:induction false} NextTotal(toks: Tokens, n: nat)
    requires 0 < n <= |toks|
    ensures Total(Frequencies(toks, n)) == Total(Frequencies(toks, n - 1)) + |toks[n - 1]| as real
  {
    CounterTotal(toks[n - 1]);
    TotalPlus(Frequencies(toks, n - 1), Counter(toks[n - 1]));
    FrequenciesStep(toks, n);
  }

  lemma {:induction false} FrequenciesStep(toks: Tokens, n: nat)
    requires 0 < n <= |toks|
    ensures Frequencies(toks, n) == Plus(Frequencies(toks, n - 1), Counter(toks[n - 1]))
  {
    var a, c := Frequencies(toks, n - 1), Counter(toks[n - 1]);
    var l, r := Frequencies(toks, n), Plus(a, c);
    forall t ensures t in l <==> t in r { VocabularyStep(toks, n, t); }
    forall t | t in l ensures l[t] == r[t] {
      VocabularyStep(toks, n, t);
      FreqStep(toks, n, t);
    }
  }

  lemma {:induction false} VocabularyStep(toks: Tokens, n: nat, t: string)
    requires 0 < n <= |toks|
    ensures t in Vocabulary(toks, n) <==> t in Vocabulary(toks, n - 1) || t in toks[n - 1]
  {
    if t in Vocabulary(toks, n) {
      var d :| 0 <= d < n && t in toks[d];
      if d < n - 1 { assert t in Vocabulary(toks, n - 1); }
    }
    if t in Vocabulary(toks, n - 1) {
      var d :| 0 <= d < n - 1 && t in toks[d];
    }
  }

  lemma {:induction false} FreqSumAppend(ps: seq<(nat, nat)>, d: nat, f: nat)
    ensures FreqSum(ps + [(d, f)]) == FreqSum(ps) + f
  {
    assert (ps + [(d, f)])[..|ps|] == ps;
  }

  lemma {:induction false} PostingsNext(toks: Tokens, n: nat, t: string)
    requires 0 < n <= |toks|
    ensures FreqSum(Postings(toks, n, t)) as real == FreqSum(Postings(toks, n - 1, t)) as real +
      Get(Counter(toks[n - 1]), t)
  {
    var before := Postings(toks, n - 1, t);
    if t in toks[n - 1] {
      FreqSumAppend(before, n - 1, multiset(toks[n - 1])[t]);
    } else {
      assert Postings(toks, n, t) == before;
    }
  }

  lemma {:induction false} FreqStep(toks: Tokens, n: nat, t: string)
    requires 0 < n <= |toks|
    ensures FreqSum(Postings(toks, n, t)) as real == Get(Frequencies(toks, n - 1), t) + Get(Counter(toks[n - 1]), t)
  {
    PostingsNext(toks, n, t);
    if t !in Vocabulary(toks, n - 1) { AbsentPostings(toks, n - 1, t); }
  }

  lemma {:induction false} AbsentPostings(toks: Tokens, n: nat, t: string)
    requires n <= |toks| && t !in Vocabulary(toks, n)
    ensures Postings(toks, n, t) == []
  {
    if n > 0 {
      VocabularyStep(toks, n, t);
      AbsentPostings(toks, n - 1, t);
    }
  }

  // ---- the index ----

  function PostingsMap(toks: Tokens, n: nat): map<string, seq<(nat, nat)>>
    requires n <= |toks|
  {
    map t | t in Vocabulary(toks, n) :: Postings(toks, n, t)
  }

  function FreqMap(toks: Tokens, n: nat): map<string, nat>
    requires n <= |toks|
  {
    map t | t in Vocabulary(toks, n) :: DocFreq(toks, n, t)
  }

  function Sum(ls: seq<nat>): nat {
    if ls == [] then 0 else Sum(ls[..|ls| - 1]) + ls[|ls| - 1]
  }

  function Lengths(toks: Tokens, n: nat): seq<nat>
    requires n <= |toks|
  {
    seq(n, i requires 0 <= i < n => |toks[i]|)
  }

  lemma {:induction false} SumLengths(toks: Tokens, n: nat)
    requires n <= |toks|
    ensures Sum(Lengths(toks, n)) == LengthSum(toks, n)
  {
    if n > 0 {
      SumLengths(toks, n - 1);
      assert Lengths(toks, n)[..n - 1] == Lengths(toks, n - 1);
    }
  }

  function Ids(docs: seq<(string, string)>, n: nat): seq<string>
    requires n <= |docs|
  {
    seq(n, i requires 0 <= i < n => docs[i].0)
  }

  /** Postings and frequencies when the terms `done` of document `n` have been added. */
  ghost predicate Adding(postings: map<string, seq<(nat, nat)>>, df: map<string, nat>, toks: Tokens, n: nat,
                         done: set<string>)
    requires n < |toks|
  {
    AddingPostings(postings, toks, n, done) && AddingFreqs(df, toks, n, done)
  }

  ghost predicate AddingPostings(postings: map<string, seq<(nat, nat)>>, toks: Tokens, n: nat, done: set<string>)
    requires n < |toks|
  {
    && postings.Keys == Vocabulary(toks, n) + done
    && forall t :: t in postings ==> postings[t] == if t in done then Postings(toks, n + 1, t) else Postings(toks, n, t)
  }

  ghost predicate AddingFreqs(df: map<string, nat>, toks: Tokens, n: nat, done: set<string>)
    requires n < |toks|
  {
    && df.Keys == Vocabulary(toks, n) + done
    && forall t :: t in df ==> df[t] == if t in done then DocFreq(toks, n + 1, t) else DocFreq(toks, n, t)
  }

  lemma {:induction false} AddingStarts(postings: map<string, seq<(nat, nat)>>, df: map<string, nat>, toks: Tokens,
                                        n: nat)
    requires n < |toks| && postings == PostingsMap(toks, n) && df == FreqMap(toks, n)
    ensures Adding(postings, df, toks, n, {})
  {
    assert Vocabulary(toks, n) + {} == Vocabulary(toks, n);
  }

  lemma {:induction false} PostingAdded(toks: Tokens, n: nat, t: string)
    requires n < |toks| && t in toks[n]
    ensures Postings(toks, n + 1, t) == Postings(toks, n, t) + [(n, multiset(toks[n])[t])]
    ensures DocFreq(toks, n + 1, t) == DocFreq(toks, n, t) + 1
    ensures t !in Vocabulary(toks, n) ==> Postings(toks, n, t) == [] && DocFreq(toks, n, t) == 0
  {
    if t !in Vocabulary(toks, n) {
      AbsentPostings(toks, n, t);
      PostingsExact(toks, n, t);
    }
  }

  lemma {:induction false} AddPosting(postings: map<string, seq<(nat, nat)>>, toks: Tokens, n: nat, done: set<string>,
                                      t: string)
    requires n < |toks| && AddingPostings(postings, toks, n, done) && t in toks[n] && t !in done
    ensures var old_ := if t in postings then postings[t] else [];
      AddingPostings(postings[t := old_ + [(n, multiset(toks[n])[t])]], toks, n, done + {t})
  {
    PostingAdded(toks, n, t);
  }

  lemma {:induction false} AddFreq(df: map<string, nat>, toks: Tokens, n: nat, done: set<string>, t: string)
    requires n < |toks| && AddingFreqs(df, toks, n, done) && t in toks[n] && t !in done
    ensures AddingFreqs(df[t := (if t in df then df[t] else 0) + 1], toks, n, done + {t})
  {
    PostingAdded(toks, n, t);
  }

  lemma {:induction false} AddingStep(postings: map<string, seq<(nat, nat)>>, df: map<string, nat>, toks: Tokens,
                                      n: nat, done: set<string>, t: string)
    requires n < |toks| && Adding(postings, df, toks, n, done) && t in toks[n] && t !in done
    ensures var old_ := if t in postings then postings[t] else [];
      Adding(postings[t := old_ + [(n, multiset(toks[n])[t])]], df[t := (if t in df then df[t] else 0) + 1], toks, n,
        done + {t})
  {
    AddPosting(postings, toks, n, done, t);
    AddFreq(df, toks, n, done, t);
  }

  lemma {:induction false} VocabularyGrows(toks: Tokens, n: nat, done: set<string>)
    requires n < |toks| && forall t :: t in done <==> t in toks[n]
    ensures Vocabulary(toks, n + 1) == Vocabulary(toks, n) + done
  {
    forall t ensures t in Vocabulary(toks, n + 1) <==> t in Vocabulary(toks, n) + done {
      VocabularyStep(toks, n + 1, t);
    }
  }

  lemma {:induction false} PostingsEnd(postings: map<string, seq<(nat, nat)>>, toks: Tokens, n: nat, done: set<string>)
    requires n < |toks| && postings.Keys == Vocabulary(toks, n + 1)
    requires forall t :: t in done <==> t in toks[n]
    requires forall t :: t in postings ==> postings[t] == if t in done then Postings(toks, n + 1, t)
      else Postings(toks, n, t)
    ensures postings == PostingsMap(toks, n + 1)
  {
    forall t | t in postings ensures postings[t] == Postings(toks, n + 1, t) { NextDocument(toks, n, t); }
  }

  lemma {:induction false} FreqsEnd(df: map<string, nat>, toks: Tokens, n: nat, done: set<string>)
    requires n < |toks| && df.Keys == Vocabulary(toks, n + 1)
    requires forall t :: t in done <==> t in toks[n]
    requires forall t :: t in df ==> df[t] == if t in done then DocFreq(toks, n + 1, t) else DocFreq(toks, n, t)
    ensures df == FreqMap(toks, n + 1)
  {
    forall t | t in df ensures df[t] == DocFreq(toks, n + 1, t) { NextDocument(toks, n, t); }
  }

  lemma {:induction false} AddingEnds(postings: map<string, seq<(nat, nat)>>, df: map<string, nat>, toks: Tokens,
                                      n: nat, done: set<string>)
    requires n < |toks| && Adding(postings, df, toks, n, done) && forall t :: t in done <==> t in toks[n]
    ensures postings == PostingsMap(toks, n + 1) && df == FreqMap(toks, n + 1)
  {
    VocabularyGrows(toks, n, done);
    PostingsEnd(postings, toks, n, done);
    FreqsEnd(df, toks, n, done);
  }

  lemma {:induction false} NextDocument(toks: Tokens, n: nat, t: string)
    requires n < |toks|
    ensures t !in toks[n] ==>
      Postings(toks, n + 1, t) == Postings(toks, n, t) && DocFreq(toks, n + 1, t) == DocFreq(toks, n, t)
  {
  }

  // ---- accumulating over postings ----

  /** The contributions of `t` to the documents below `limit` that contain it. */
  ghost function TermScores(p: Params, toks: Tokens, t: string, limit: nat): map<nat, real> {
    map d: nat | d < limit && d < |toks| && t in toks[d] :: NaiveWeight(p, toks, d, t)
  }

  ghost function Limit(ps: seq<(nat, nat)>, k: nat): nat
    requires k <= |ps|
  {
    if k == 0 then 0 else ps[k - 1].0 + 1
  }

  lemma {:induction false} PostingGap(toks: Tokens, t: string, k: nat, d: nat)
    requires var ps := Postings(toks, |toks|, t);
      k <= |ps| && Limit(ps, k) <= d < |toks| && (k < |ps| ==> d < ps[k].0)
    ensures t !in toks[d]
  {
    PostingsExact(toks, |toks|, t);
    PostingFor(toks, t, d);
  }

  lemma {:induction false} PostingFor(toks: Tokens, t: string, d: nat)
    requires d < |toks|
    ensures var ps := Postings(toks, |toks|, t); t in toks[d] ==> exists i :: 0 <= i < |ps| && ps[i].0 == d
  {
    var ps := Postings(toks, |toks|, t);
    PostingsExact(toks, |toks|, t);
    if t in toks[d] {
      var i :| 0 <= i < |ps| && ps[i] == (d, multiset(toks[d])[t]);
      assert ps[i].0 == d;
    }
  }

  lemma {:induction false} PostingAt(toks: Tokens, t: string, k: nat)
    requires k < |Postings(toks, |toks|, t)|
    ensures var ps := Postings(toks, |toks|, t); var d := ps[k].0;
      d < |toks| && t in toks[d] && ps[k].1 == multiset(toks[d])[t] && Limit(ps, k) <= d
  {
    var ps := Postings(toks, |toks|, t);
    PostingsExact(toks, |toks|, t);
    assert k > 0 ==> ps[k - 1].0 < ps[k].0;
  }

  lemma {:induction false} TermScoresGrow(p: Params, toks: Tokens, t: string, from: nat, d: nat)
    requires from <= d < |toks| && t in toks[d] && forall e: nat :: from <= e < d ==> t !in toks[e]
    ensures d !in TermScores(p, toks, t, from)
    ensures TermScores(p, toks, t, d + 1) == TermScores(p, toks, t, from)[d := NaiveWeight(p, toks, d, t)]
  {
  }

  /** One posting adds one document to the contributions seen. */
  lemma {:induction false} TermScoresStep(p: Params, toks: Tokens, t: string, k: nat)
    requires k < |Postings(toks, |toks|, t)|
    ensures var ps := Postings(toks, |toks|, t); var d := ps[k].0;
      && d < |toks| && t in toks[d] && ps[k].1 == multiset(toks[d])[t]
      && d !in TermScores(p, toks, t, Limit(ps, k))
      && TermScores(p, toks, t, Limit(ps, k + 1)) ==
        TermScores(p, toks, t, Limit(ps, k))[d := NaiveWeight(p, toks, d, t)]
  {
    var ps := Postings(toks, |toks|, t);
    PostingAt(toks, t, k);
    forall e: nat | Limit(ps, k) <= e < ps[k].0 ensures t !in toks[e] { PostingGap(toks, t, k, e); }
    TermScoresGrow(p, toks, t, Limit(ps, k), ps[k].0);
  }

  lemma {:induction false} TermScoresEnd(p: Params, toks: Tokens, t: string)
    ensures var ps := Postings(toks, |toks|, t);
      TermScores(p, toks, t, Limit(ps, |ps|)) == TermScores(p, toks, t, |toks|)
  {
    var ps := Postings(toks, |toks|, t);
    PostingsExact(toks, |toks|, t);
    forall e: nat | Limit(ps, |ps|) <= e < |toks| ensures t !in toks[e] { PostingGap(toks, t, |ps|, e); }
  }

  lemma {:induction false} PlusUpdate(a: map<nat, real>, b: map<nat, real>, d: nat, w: real)
    requires d !in b
    ensures Plus(a, b[d := w]) == Bump(Plus(a, b), d, w)
  {
  }

  lemma {:induction false} ScoreStep(p: Params, toks: Tokens, d: nat, done: set<string>, t: string)
    requires d < |toks| && t !in done
    ensures Score(p, toks, d, done + {t}) == Score(p, toks, d, done) +
      if t in toks[d] then NaiveWeight(p, toks, d, t) else 0.0
  {
    var m := map u | u in done && u in toks[d] :: NaiveWeight(p, toks, d, u);
    var m' := map u | u in done + {t} && u in toks[d] :: NaiveWeight(p, toks, d, u);
    if t in toks[d] {
      TotalAdd(m, t, NaiveWeight(p, toks, d, t));
      assert m' == m[t := NaiveWeight(p, toks, d, t)];
    } else {
      assert m' == m;
    }
  }

  /** One more query term adds its contribution to every document that contains it. */
  lemma {:induction false} ScoresStep(p: Params, toks: Tokens, done: set<string>, t: string)
    requires t !in done
    ensures Scores(p, toks, done + {t}) == Plus(Scores(p, toks, done), TermScores(p, toks, t, |toks|))
  {
    var l, a, b := Scores(p, toks, done + {t}), Scores(p, toks, done), TermScores(p, toks, t, |toks|);
    forall d: nat ensures d in l <==> d in a || d in b { MatchesStep(toks, d, done, t); }
    forall d | d in l ensures l[d] == Get(a, d) + Get(b, d) {
      ScoreStep(p, toks, d, done, t);
      if d !in a { NoMatchNoScore(p, toks, d, done); }
    }
    PlusIs(l, a, b);
  }

  lemma {:induction false} MatchesStep(toks: Tokens, d: nat, done: set<string>, t: string)
    ensures Matches(toks, d, done + {t}) <==> Matches(toks, d, done) || (d < |toks| && t in toks[d])
  {
    if Matches(toks, d, done) {
      var u :| u in done && u in toks[d];
      assert u in done + {t};
    }
    if d < |toks| && t in toks[d] { assert t in done + {t}; }
  }

  lemma {:induction false} NoMatchNoScore(p: Params, toks: Tokens, d: nat, terms: set<string>)
    requires d < |toks| && !Matches(toks, d, terms)
    ensures Score(p, toks, d, terms) == 0.0
  {
    assert (map u | u in terms && u in toks[d] :: NaiveWeight(p, toks, d, u)) == map[];
  }

  /** A term outside the vocabulary contributes nothing. */
  lemma {:induction false} UnknownTerm(p: Params, toks: Tokens, done: set<string>, t: string)
    requires t !in done && t !in Vocabulary(toks, |toks|)
    ensures Scores(p, toks, done + {t}) == Scores(p, toks, done)
  {
    ScoresStep(p, toks, done, t);
    assert TermScores(p, toks, t, |toks|) == map[];
    assert Plus(Scores(p, toks, done), map[]) == Scores(p, toks, done);
  }

  lemma {:induction false} ScoresBelow(p: Params, toks: Tokens, terms: set<string>)
    ensures forall d :: d in Scores(p, toks, terms) ==> d < |toks|
  {
  }

  /** Ranked document numbers with the ids of the documents. */
  function Named(ranked: seq<(nat, real)>, ids: seq<string>): (hits: seq<(string, real)>)
    requires forall i :: 0 <= i < |ranked| ==> ranked[i].0 < |ids|
    ensures |hits| == |ranked|
  {
    seq(|ranked|, i requires 0 <= i < |ranked| => (ids[ranked[i].0], ranked[i].1))
  }

  /** `hits` are the first documents of a ranking of `scores`, as `[:topK]` cuts it. */
  ghost predicate TopHits(hits: seq<(string, real)>, ranked: seq<(nat, real)>, scores: map<nat, real>,
                          docs: seq<(string, string)>, topK: int)
  {
    && Lists(ranked, scores) && Descending(ranked) && (forall d :: d in scores ==> d < |docs|)
    && |hits| == SliceEnd(|ranked|, topK)
    && forall i :: 0 <= i < |hits| ==> hits[i] == (docs[ranked[i].0].0, ranked[i].1)
  }

  /** No document left out of the hits scores higher than one returned, and returned scores do not increase. */
  lemma {:induction false} TopHitsBest(hits: seq<(string, real)>, ranked: seq<(nat, real)>, scores: map<nat, real>,
                    docs: seq<(string, string)>, topK: int, i: nat, d: nat)
    requires TopHits(hits, ranked, scores, docs, topK) && i < |hits| && d in scores
    requires forall j :: 0 <= j < |hits| ==> ranked[j].0 != d
    ensures scores[d] <= hits[i].1
  {
    var j :| 0 <= j < |ranked| && ranked[j].0 == d;
  }

  // ---- scores are positive ----

  ghost predicate UsualParams(p: Params) {
    p.k1 >= 0.0 && 0.0 <= p.b <= 1.0 && forall x :: x > 1.0 ==> p.ln(x) > 0.0
  }

  lemma {:induction false} Ratio(x: real, y: real)
    requires x >= 0.0 && y > 0.0
    ensures x / y >= 0.0 && (x > 0.0 ==> x / y > 0.0)
  {
  }

  lemma {:induction false} Product(x: real, y: real)
    requires x >= 0.0 && y >= 0.0
    ensures x * y >= 0.0 && (x > 0.0 && y > 0.0 ==> x * y > 0.0)
  {
  }

  lemma {:induction false} SumPositive(freq: real, k1: real, b: real, part: real)
    requires freq > 0.0 && k1 >= 0.0 && 0.0 <= b <= 1.0 && part >= 0.0
    ensures Damped(freq, k1, b, part) > 0.0
  {
    Product(k1, 1.0 - b + part);
  }

  lemma {:induction false} LengthPartNonNegative(p: Params, dl: nat, avgdl: real)
    requires UsualParams(p) && avgdl >= 0.0
    ensures LengthPart(p, dl, avgdl) >= 0.0
  {
    Product(p.b, dl as real);
    Ratio(p.b * dl as real, OrOne(avgdl));
  }

  lemma {:induction false} DenominatorPositive(p: Params, freq: nat, dl: nat, avgdl: real)
    requires UsualParams(p) && freq > 0 && avgdl >= 0.0
    ensures Denominator(p, freq, dl, avgdl) > 0.0
  {
    LengthPartNonNegative(p, dl, avgdl);
    SumPositive(freq as real, p.k1, p.b, LengthPart(p, dl, avgdl));
  }

  lemma {:induction false} QuotientPositive(idf: real, x: real, y: real, denom: real)
    requires idf > 0.0 && x > 0.0 && y > 0.0 && denom > 0.0
    ensures idf * (x * y / denom) > 0.0
  {
    Product(x, y);
    Ratio(x * y, denom);
    Product(idf, x * y / denom);
  }

  lemma {:induction false} WeightPositive(p: Params, idf: real, freq: nat, dl: nat, avgdl: real)
    requires UsualParams(p) && idf > 0.0 && freq > 0 && avgdl >= 0.0
    ensures TermWeight(p, idf, freq, dl, avgdl) > 0.0
  {
    var denom := Denominator(p, freq, dl, avgdl);
    DenominatorPositive(p, freq, dl, avgdl);
    QuotientPositive(idf, freq as real, p.k1 + 1.0, denom);
  }

  /** Every hit has a positive score. */
  lemma {:induction false} ScorePositive(p: Params, toks: Tokens, d: nat, terms: set<string>)
    requires UsualParams(p) && Matches(toks, d, terms)
    ensures Score(p, toks, d, terms) > 0.0
  {
    var m := map u | u in terms && u in toks[d] :: NaiveWeight(p, toks, d, u);
    forall u | u in m ensures m[u] > 0.0 {
      IdfArgumentAboveOne(toks, u);
      if |toks| > 0 { Ratio(LengthSum(toks, |toks|) as real, |toks| as real); }
      WeightPositive(p, p.ln(IdfArgument(|toks|, DocFreq(toks, |toks|, u))), multiset(toks[d])[u], |toks[d]|,
        AverageLength(toks));
    }
    var t :| t in terms && t in toks[d];
    TotalRemove(m, t);
    TotalNonNegative(m - {t});
  }

  lemma {:induction false} DoneGrows(all: set<string>, todo: set<string>, x: string)
    requires x in todo && todo <= all
    ensures all - (todo - {x}) == all - todo + {x}
  {
  }

  class BM25Index {
    const params: Params
    const tokenize: string -> seq<string>
    var docIds: seq<string>
    var docLen: seq<nat>
    var avgdl: real
    var postings: map<string, seq<(nat, nat)>>
    var idf: map<string, real>

    /** The fields are the index of exactly this collection. */
    ghost predicate Indexes(docs: seq<(string, string)>)
      reads this
    {
      var toks := Tokenized(docs, tokenize);
      && docIds == Ids(docs, |docs|)
      && docLen == Lengths(toks, |toks|)
      && avgdl == AverageLength(toks)
      && postings == PostingsMap(toks, |toks|)
      && idf == map t | t in Vocabulary(toks, |toks|) :: params.ln(IdfArgument(|toks|, DocFreq(toks, |toks|, t)))
    }

    /** The scores of all documents for a query, without any index. */
    ghost function NaiveScores(docs: seq<(string, string)>, query: string): map<nat, real> {
      Scores(params, Tokenized(docs, tokenize), set t | t in tokenize(query))
    }

    constructor (params: Params, tokenize: string -> seq<string>)
      ensures this.params == params && this.tokenize == tokenize
      ensures Indexes([])
    {
      this.params, this.tokenize := params, tokenize;
      docIds, docLen, avgdl, postings, idf := [], [], 0.0, map[], map[];
    }

    method Build(docs: seq<(string, string)>)
      modifies this
      ensures Indexes(docs)
    {
      var df := AddAll(docs);
      ghost var toks := Tokenized(docs, tokenize);
      var n := |docIds|;
      SumLengths(toks, |toks|);
      avgdl := if n > 0 then Sum(docLen) as real / n as real else 0.0;
      idf := map t | t in df :: params.ln(IdfArgument(n, df[t]));
    }

    /** The loop of `build` over the documents; it leaves the document frequencies. */
    method AddAll(docs: seq<(string, string)>) returns (df: map<string, nat>)
      modifies this`docIds, this`docLen, this`postings
      ensures var toks := Tokenized(docs, tokenize);
        && docIds == Ids(docs, |docs|) && docLen == Lengths(toks, |toks|)
        && postings == PostingsMap(toks, |toks|) && df == FreqMap(toks, |toks|)
    {
      ghost var toks := Tokenized(docs, tokenize);
      docIds, docLen, postings := [], [], map[];
      df := map[];
      for i := 0 to |docs|
        invariant docIds == Ids(docs, i) && docLen == Lengths(toks, i)
        invariant postings == PostingsMap(toks, i) && df == FreqMap(toks, i)
      {
        var tokens := tokenize(docs[i].1);
        docIds := docIds + [docs[i].0];
        docLen := docLen + [|tokens|];
        df := AddDocument(tokens, df, toks, i);
      }
    }

    /** The inner loop of `build`: one posting and one document count for every distinct token. */
    method AddDocument(tokens: seq<string>, df: map<string, nat>, ghost toks: Tokens, ghost n: nat)
      returns (df': map<string, nat>)
      requires n < |toks| && toks[n] == tokens && |docIds| == n + 1
      requires postings == PostingsMap(toks, n) && df == FreqMap(toks, n)
      modifies this`postings
      ensures postings == PostingsMap(toks, n + 1) && df' == FreqMap(toks, n + 1)
    {
      var tf, todo := multiset(tokens), set t | t in tokens;
      ghost var all := todo;
      var docIndex := |docIds| - 1;
      df' := df;
      AddingStarts(postings, df, toks, n);
      assert all - todo == {};
      while todo != {}
        invariant todo <= all && Adding(postings, df', toks, n, all - todo)
        decreases todo
      {
        var term :| term in todo;
        AddingStep(postings, df', toks, n, all - todo, term);
        DoneGrows(all, todo, term);
        var entries := if term in postings then postings[term] else [];
        postings := postings[term := entries + [(docIndex, tf[term])]];
        df' := df'[term := (if term in df' then df'[term] else 0) + 1];
        todo := todo - {term};
      }
      AddingEnds(postings, df', toks, n, all - todo);
    }

    method Search(query: string, topK: int, ghost docs: seq<(string, string)>) returns (hits: seq<(string, real)>)
      requires Indexes(docs)
      ensures exists ranked :: TopHits(hits, ranked, NaiveScores(docs, query), docs, topK)
    {
      ghost var toks := Tokenized(docs, tokenize);
      var qTerms := tokenize(query);
      if qTerms == [] || docIds == [] {
        assert NaiveScores(docs, query) == map[];
        assert TopHits([], [], map[], docs, topK);
        return [];
      }
      var scores := ScoreTerms((set t | t in qTerms), docs);
      var ranked := Ranked(scores);
      hits := Named(Head(ranked, topK), docIds);
      ScoresBelow(params, toks, set t | t in qTerms);
      assert TopHits(hits, ranked, NaiveScores(docs, query), docs, topK);
    }

    /** The outer loop of `search`, over the distinct query terms in any order. */
    method ScoreTerms(terms: set<string>, ghost docs: seq<(string, string)>) returns (scores: map<nat, real>)
      requires Indexes(docs)
      ensures scores == Scores(params, Tokenized(docs, tokenize), terms)
    {
      ghost var toks := Tokenized(docs, tokenize);
      var todo := terms;
      scores := map[];
      assert terms - todo == {} && Scores(params, toks, {}) == map[];
      while todo != {}
        invariant todo <= terms && scores == Scores(params, toks, terms - todo)
        decreases todo
      {
        var term :| term in todo;
        assert terms - (todo - {term}) == (terms - todo) + {term};
        if term in idf {
          ScoresStep(params, toks, terms - todo, term);
          scores := AddTerm(term, scores, docs);
        } else {
          UnknownTerm(params, toks, terms - todo, term);
        }
        todo := todo - {term};
      }
      assert terms - {} == terms;
    }

    /** The inner loop of `search`: every posting of the term adds to the score of its document. */
    method AddTerm(term: string, scores: map<nat, real>, ghost docs: seq<(string, string)>)
      returns (scores': map<nat, real>)
      requires Indexes(docs) && term in idf
      ensures var toks := Tokenized(docs, tokenize); scores' == Plus(scores, TermScores(params, toks, term, |toks|))
    {
      ghost var toks := Tokenized(docs, tokenize);
      var entries := postings[term];
      scores' := scores;
      assert Plus(scores, TermScores(params, toks, term, 0)) == scores;
      for k := 0 to |entries|
        invariant scores' == Plus(scores, TermScores(params, toks, term, Limit(entries, k)))
      {
        var (docIndex, freq) := entries[k];
        TermScoresStep(params, toks, term, k);
        ghost var seen := TermScores(params, toks, term, Limit(entries, k));
        PlusUpdate(scores, seen, docIndex, NaiveWeight(params, toks, docIndex, term));
        var dl := docLen[docIndex];
        scores' := Bump(scores', docIndex, TermWeight(params, idf[term], freq, dl, avgdl));
      }
      TermScoresEnd(params, toks, term);
    }
  }
}
