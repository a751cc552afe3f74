/** What the numbers of a retrieval mean: how the three signals make a score, how a matching chunk makes a signal, and
    which notes a query is sure to find. */
module RetrievalLaws {
  import opened Models
  import opened Sums
  import opened BM25
  import opened HyperGraph
  import opened Spreading
  import opened GraphIndex
  import opened SpreadLaws
  import opened Index
  import opened Retriever
  import ScoreLaws
  import VaultCache

  // ---- the score of a note ----

  /** The score of a note is the sum of its three signals, each times its own weight. */
  ghost predicate ScoredBy(n: RetrievedNote, o: Options) {
    match n
    case RetrievedNote(_, _, score, lexical, graph, semantic, _, _, _) =>
      score == o.lexicalWeight * lexical + o.semanticWeight * semantic + o.graphWeight * graph
  }

  lemma {:induction false} FairScore(n: RetrievedNote, byPath: map<string, Note>, sig: Signals, o: Options)
    requires FairNote(n, byPath, sig, Totals(sig, o), o)
    ensures ScoredBy(n, o)
  {
  }

  /** So it is for every note of a pack. */
  lemma {:induction false} ScoreIs(pack: Pack, t: Trace, chunks: Chunks, byPath: map<string, Note>, o: Options, i: nat)
    requires PackStage(pack, t, chunks, byPath, o) && i < |pack|
    ensures ScoredBy(pack[i], o)
  {
    PackNote(pack, t, chunks, byPath, o, i);
    FairScore(pack[i], byPath, t.signals, o);
  }

  /** A note that one signal alone has found scores that signal times its weight. */
  lemma {:induction false} OneSignalScore(sig: Signals, o: Options, p: string)
    requires p in Totals(sig, o)
    ensures Get(sig.semantic, p) == 0.0 && Get(sig.graph, p) == 0.0 ==>
      Totals(sig, o)[p] == o.lexicalWeight * Get(sig.lexical, p)
    ensures Get(sig.lexical, p) == 0.0 && Get(sig.graph, p) == 0.0 ==>
      Totals(sig, o)[p] == o.semanticWeight * Get(sig.semantic, p)
    ensures Get(sig.lexical, p) == 0.0 && Get(sig.semantic, p) == 0.0 ==>
      Totals(sig, o)[p] == o.graphWeight * Get(sig.graph, p)
  {
  }

  lemma {:induction false} CombineRaised(o: Options, l: real, s: real, g: real, x: real)
    ensures Combine(o, l + x, s, g) == Combine(o, l, s, g) + o.lexicalWeight * x
    ensures Combine(o, l, s + x, g) == Combine(o, l, s, g) + o.semanticWeight * x
    ensures Combine(o, l, s, g + x) == Combine(o, l, s, g) + o.graphWeight * x
  {
  }

  lemma {:induction false} TotalAt(sig: Signals, o: Options, p: string, l: real, s: real, g: real)
    requires p in Totals(sig, o) && l == Get(sig.lexical, p) && s == Get(sig.semantic, p) && g == Get(sig.graph, p)
    ensures Totals(sig, o)[p] == Combine(o, l, s, g)
  {
  }

  lemma {:induction false} OneRaised(sig: Signals, sig': Signals, o: Options, p: string, v: real)
    requires p in Totals(sig, o) && p in Totals(sig', o) && Totals(sig', o)[p] == Totals(sig, o)[p] + v
    requires sig'.lexical - {p} == sig.lexical - {p} && sig'.semantic - {p} == sig.semantic - {p}
    requires sig'.graph - {p} == sig.graph - {p}
    ensures Totals(sig', o) == Totals(sig, o)[p := Totals(sig, o)[p] + v]
  {
    var a, b := Totals(sig, o), Totals(sig', o);
    forall q ensures (q in b <==> q in a) && (q in b && q != p ==> b[q] == a[q]) {
      if q != p {
        SameSignal(sig.lexical, sig'.lexical, p, q);
        SameSignal(sig.semantic, sig'.semantic, p, q);
        SameSignal(sig.graph, sig'.graph, p, q);
      }
    }
  }

  lemma {:induction false} SameSignal(m: Scores, m': Scores, p: string, q: string)
    requires m - {p} == m' - {p} && q != p
    ensures (q in m <==> q in m') && Get(m, q) == Get(m', q)
  {
    assert q in m <==> q in m - {p};
    assert q in m' <==> q in m' - {p};
    if q in m { assert (m - {p})[q] == m[q] && (m' - {p})[q] == m'[q]; }
  }

  /** A signal that is stronger by `x` raises the score of its note by `x` times the weight of that signal, and no other
      score. */
  lemma {:induction false} StrongerLexical(sig: Signals, o: Options, p: string, x: real)
    requires p in Totals(sig, o)
    ensures var lexical := sig.lexical[p := Get(sig.lexical, p) + x];
      Totals(sig.(lexical := lexical), o) == Totals(sig, o)[p := Totals(sig, o)[p] + o.lexicalWeight * x]
  {
    var sig' := sig.(lexical := sig.lexical[p := Get(sig.lexical, p) + x]);
    var l, s, g := Get(sig.lexical, p), Get(sig.semantic, p), Get(sig.graph, p);
    TotalAt(sig, o, p, l, s, g);
    TotalAt(sig', o, p, l + x, s, g);
    CombineRaised(o, l, s, g, x);
    OneRaised(sig, sig', o, p, o.lexicalWeight * x);
  }

  lemma {:induction false} StrongerSemantic(sig: Signals, o: Options, p: string, x: real)
    requires p in Totals(sig, o)
    ensures var semantic := sig.semantic[p := Get(sig.semantic, p) + x];
      Totals(sig.(semantic := semantic), o) == Totals(sig, o)[p := Totals(sig, o)[p] + o.semanticWeight * x]
  {
    var sig' := sig.(semantic := sig.semantic[p := Get(sig.semantic, p) + x]);
    var l, s, g := Get(sig.lexical, p), Get(sig.semantic, p), Get(sig.graph, p);
    TotalAt(sig, o, p, l, s, g);
    TotalAt(sig', o, p, l, s + x, g);
    CombineRaised(o, l, s, g, x);
    OneRaised(sig, sig', o, p, o.semanticWeight * x);
  }

  lemma {:induction false} StrongerGraph(sig: Signals, o: Options, p: string, x: real)
    requires p in Totals(sig, o)
    ensures var graph := sig.graph[p := Get(sig.graph, p) + x];
      Totals(sig.(graph := graph), o) == Totals(sig, o)[p := Totals(sig, o)[p] + o.graphWeight * x]
  {
    var sig' := sig.(graph := sig.graph[p := Get(sig.graph, p) + x]);
    var l, s, g := Get(sig.lexical, p), Get(sig.semantic, p), Get(sig.graph, p);
    TotalAt(sig, o, p, l, s, g);
    TotalAt(sig', o, p, l, s, g + x);
    CombineRaised(o, l, s, g, x);
    OneRaised(sig, sig', o, p, o.graphWeight * x);
  }

  // ---- seeds and normalised scores ----

  /** Every note with a lexical or semantic score is a seed, with the better of the two. */
  lemma {:induction false} SeedsAre(lexical: Scores, semantic: Scores, p: string)
    ensures p in Seeds(lexical, semantic) <==> p in lexical || p in semantic
    ensures p in Seeds(lexical, semantic) ==>
      var v := Seeds(lexical, semantic)[p];
      v >= Get(lexical, p) && v >= Get(semantic, p) && (v == Get(lexical, p) || v == Get(semantic, p))
  {
  }

  /** Normalised scores are the scores divided by the best one, or all 0. */
  lemma {:induction false} NormalizedShares(norm: Scores, scores: Scores, top: real, k: string)
    requires Normalized(norm, scores) && NonNegative(scores) && IsTop(top, scores) && k in scores
    ensures k in norm && norm[k] * top == scores[k] && (top == 0.0 ==> norm[k] == 0.0)
  {
    var top' :| IsTop(top', scores) && norm == Divided(scores, top');
    OneTop(top, top', scores);
    DividedBack(scores[k], top);
  }

  /** So they stand to each other as the scores do. */
  lemma {:induction false} NormalizedInOrder(norm: Scores, scores: Scores, j: string, k: string)
    requires Normalized(norm, scores) && NonNegative(scores) && j in scores && k in scores && scores[j] < scores[k]
    ensures j in norm && k in norm && norm[j] < norm[k]
  {
    var top :| IsTop(top, scores) && norm == Divided(scores, top);
    DividedLess(scores[j], scores[k], top);
  }

  lemma {:induction false} DividedLess(x: real, y: real, top: real)
    requires 0.0 <= x < y <= top
    ensures x / OrOne(top) < y / OrOne(top)
  {
    ScoreLaws.DivideLess(x, y, top);
  }

  lemma {:induction false} DividedPositive(x: real, top: real)
    requires 0.0 < x <= top
    ensures x / OrOne(top) > 0.0
  {
    DividedLess(0.0, x, top);
  }

  lemma {:induction false} OneTop(a: real, b: real, scores: Scores)
    requires IsTop(a, scores) && IsTop(b, scores)
    ensures a == b
  {
    var j :| j in scores && scores[j] == a;
    var k :| k in scores && scores[k] == b;
  }

  lemma {:induction false} DividedBack(x: real, top: real)
    requires 0.0 <= x <= top
    ensures x / OrOne(top) * top == x && (top == 0.0 ==> x / OrOne(top) == 0.0)
  {
    if top != 0.0 { ScoreLaws.Undo(x, top); }
  }

  // ---- from chunks to notes ----

  lemma {:induction false} PathHitsAre(hits: Hits, chunks: Chunks, p: string, v: real)
    ensures (p, v) in PathHits(hits, chunks) <==>
      exists h :: h in hits && h.0 in chunks && chunks[h.0].notePath == p && h.1 == v
  {
    if hits != [] {
      var front, last := hits[..|hits| - 1], hits[|hits| - 1];
      PathHitsAre(front, chunks, p, v);
      assert hits == front + [last];
    }
  }

  /** The hits filed under a note are those on its chunks. */
  lemma {:induction false} HitsOfAre(hits: Hits, chunks: Chunks, p: string, h: (string, real))
    ensures h in HitsOf(hits, chunks, p) <==> h in hits && h.0 in chunks && chunks[h.0].notePath == p
  {
    if hits != [] {
      var front, last := hits[..|hits| - 1], hits[|hits| - 1];
      HitsOfAre(front, chunks, p, h);
      assert hits == front + [last] && last == (last.0, last.1);
    }
  }

  lemma {:induction false} PeakAtLeast(hits: Hits, h: (string, real))
    requires h in hits
    ensures h.0 in Peaks(hits) && Peaks(hits)[h.0] >= h.1
  {
    PeaksAre(hits, h.0);
    var i :| 0 <= i < |hits| && hits[i] == h;
    assert hits[i].0 == h.0;
  }

  lemma {:induction false} PeakMakesSignal(norm: Scores, peaks: Scores, p: string)
    requires Normalized(norm, peaks) && p in peaks && peaks[p] > 0.0
    ensures Get(norm, p) > 0.0
  {
    var top :| IsTop(top, peaks) && norm == Divided(peaks, top);
    DividedPositive(peaks[p], top);
  }

  /** The signal of a note is positive when one of its chunks has a positive hit. */
  lemma {:induction false} HitMakesSignal(norm: Scores, hits: Hits, chunks: Chunks, h: (string, real))
    requires Normalized(norm, Peaks(PathHits(hits, chunks))) && h in hits && h.0 in chunks && h.1 > 0.0
    ensures Get(norm, chunks[h.0].notePath) > 0.0
  {
    var p := chunks[h.0].notePath;
    PathHitsAre(hits, chunks, p, h.1);
    PeakAtLeast(PathHits(hits, chunks), (p, h.1));
    PeakMakesSignal(norm, Peaks(PathHits(hits, chunks)), p);
  }

  /** Only notes with a hit on one of their chunks have a signal. */
  lemma {:induction false} SignalNeedsHit(norm: Scores, hits: Hits, chunks: Chunks, p: string)
    requires Normalized(norm, Peaks(PathHits(hits, chunks))) && p in norm
    ensures exists h :: h in hits && h.0 in chunks && chunks[h.0].notePath == p
  {
    PeaksAre(PathHits(hits, chunks), p);
    var i :| 0 <= i < |PathHits(hits, chunks)| && PathHits(hits, chunks)[i].0 == p;
    PathHitsAre(hits, chunks, p, PathHits(hits, chunks)[i].1);
  }

  // ---- from texts to hits ----

  ghost predicate Shares(text: string, query: string, tokenize: string -> seq<string>) {
    exists u :: u in tokenize(text) && u in tokenize(query)
  }

  /** What the lexical index scores: the texts of the chunks against the query. */
  ghost function QueryScores(cs: seq<Chunk>, query: string, p: Params,
                             tokenize: string -> seq<string>): map<nat, real>
  {
    BM25.Scores(p, Tokenized(Docs(cs), tokenize), set u | u in tokenize(query))
  }

  lemma {:induction false} ScoredExactlyWhen(cs: seq<Chunk>, query: string, p: Params, tokenize: string -> seq<string>,
                                             k: nat)
    requires UsualParams(p) && k < |cs|
    ensures k in QueryScores(cs, query, p, tokenize) <==> Shares(cs[k].text, query, tokenize)
    ensures k in QueryScores(cs, query, p, tokenize) ==> QueryScores(cs, query, p, tokenize)[k] > 0.0
  {
    var toks, terms := Tokenized(Docs(cs), tokenize), set u | u in tokenize(query);
    assert toks[k] == tokenize(cs[k].text);
    if Matches(toks, k, terms) { ScorePositive(p, toks, k, terms); }
  }

  /** A chunk whose text shares a token with the query is a hit, with a positive score, unless the pool is full. */
  lemma {:induction false} ChunkFound(t: Trace, chunks: Chunks, cs: seq<Chunk>, query: string, p: Params,
                                      tokenize: string -> seq<string>, pool: int, k: nat)
    requires LexicalStage(t, chunks, Docs(cs), QueryScores(cs, query, p, tokenize), pool)
    requires UsualParams(p) && k < |cs| && Shares(cs[k].text, query, tokenize) && |t.lexical| < pool
    ensures exists h :: h in t.lexical && h.0 == cs[k].chunkId && h.1 > 0.0
  {
    var scores := QueryScores(cs, query, p, tokenize);
    ScoredExactlyWhen(cs, query, p, tokenize, k);
    HitOf(t.lexical, t.lexicalRanking, t.signals.lexical, chunks, Docs(cs), scores, pool, k);
  }

  lemma {:induction false} HitOf(hits: Hits, ranking: seq<(nat, real)>, norm: Scores, chunks: Chunks,
                                 docs: seq<(string, string)>, scores: map<nat, real>, pool: int, k: nat)
    requires LexicalSignal(hits, ranking, norm, chunks, docs, scores, pool) && k in scores && |hits| < pool
    ensures (docs[k].0, scores[k]) in hits
  {
    var j :| 0 <= j < |ranking| && ranking[j].0 == k;
    assert hits[j] == (docs[k].0, scores[k]);
  }

  /** Every hit is such a chunk. */
  lemma {:induction false} HitShares(t: Trace, chunks: Chunks, cs: seq<Chunk>, query: string, p: Params,
                                     tokenize: string -> seq<string>, pool: int, h: (string, real))
    requires LexicalStage(t, chunks, Docs(cs), QueryScores(cs, query, p, tokenize), pool)
    requires UsualParams(p) && h in t.lexical
    ensures exists k :: 0 <= k < |cs| && cs[k].chunkId == h.0 && Shares(cs[k].text, query, tokenize)
  {
    var k := HitIndex(t.lexical, t.lexicalRanking, t.signals.lexical, chunks, Docs(cs),
                      QueryScores(cs, query, p, tokenize), pool, h);
    ScoredExactlyWhen(cs, query, p, tokenize, k);
  }

  lemma {:induction false} HitIndex(hits: Hits, ranking: seq<(nat, real)>, norm: Scores, chunks: Chunks,
                                    docs: seq<(string, string)>, scores: map<nat, real>, pool: int, h: (string, real))
    returns (k: nat)
    requires LexicalSignal(hits, ranking, norm, chunks, docs, scores, pool) && h in hits
    requires forall j :: j in scores ==> j < |docs|
    ensures k in scores && docs[k].0 == h.0
  {
    var i :| 0 <= i < |hits| && hits[i] == h;
    k := ranking[i].0;
  }

  /** The query is scored against the chunks of these notes. */
  ghost predicate Scored(t: Trace, notes: seq<Note>, query: string, p: Params, tokenize: string -> seq<string>,
                         pool: int)
  {
    LexicalStage(t, ById(AllChunks(notes)), Docs(AllChunks(notes)), QueryScores(AllChunks(notes), query, p, tokenize),
      pool)
  }

  ghost predicate Matching(notes: seq<Note>, n: Note, c: Chunk, query: string, tokenize: string -> seq<string>) {
    Parsed(notes) && n in notes && c in n.chunks && Shares(c.text, query, tokenize)
  }

  lemma {:induction false} MatchingHit(t: Trace, notes: seq<Note>, query: string, p: Params,
                                       tokenize: string -> seq<string>, pool: int, n: Note, c: Chunk)
    returns (h: (string, real))
    requires Scored(t, notes, query, p, tokenize, pool) && UsualParams(p)
    requires Matching(notes, n, c, query, tokenize) && |t.lexical| < pool
    ensures h in t.lexical && h.1 > 0.0
    ensures h.0 in ById(AllChunks(notes)) && ById(AllChunks(notes))[h.0].notePath == n.path
  {
    var cs := AllChunks(notes);
    ChunkListed(notes, n, c);
    var k :| 0 <= k < |cs| && cs[k] == c;
    ChunkIdsDistinct(notes);
    ByIdKeepsAll(cs);
    ChunkFound(t, ById(cs), cs, query, p, tokenize, pool, k);
    h :| h in t.lexical && h.0 == cs[k].chunkId && h.1 > 0.0;
  }

  /** In a parsed vault, a note with a chunk that shares a token with the query has a positive lexical signal, unless
      the pool is full. */
  lemma {:induction false} MatchingNoteFound(t: Trace, notes: seq<Note>, query: string, p: Params,
                                             tokenize: string -> seq<string>, pool: int, n: Note, c: Chunk)
    requires Scored(t, notes, query, p, tokenize, pool) && UsualParams(p)
    requires Matching(notes, n, c, query, tokenize) && |t.lexical| < pool
    ensures Get(t.signals.lexical, n.path) > 0.0
  {
    var h := MatchingHit(t, notes, query, p, tokenize, pool, n, c);
    HitMakesSignal(t.signals.lexical, t.lexical, ById(AllChunks(notes)), h);
  }

  lemma {:induction false} ChunkListed(notes: seq<Note>, n: Note, c: Chunk)
    requires n in notes && c in n.chunks
    ensures c in AllChunks(notes)
  {
    if n != notes[|notes| - 1] { ChunkListed(notes[..|notes| - 1], n, c); }
  }

  /** Only such notes have a lexical signal. */
  lemma {:induction false} FoundNoteMatches(t: Trace, notes: seq<Note>, query: string, p: Params,
                                            tokenize: string -> seq<string>, pool: int, path: string)
    requires Scored(t, notes, query, p, tokenize, pool) && UsualParams(p) && Parsed(notes)
    requires path in t.signals.lexical
    ensures exists c :: c in AllChunks(notes) && c.notePath == path && Shares(c.text, query, tokenize)
  {
    var cs := AllChunks(notes);
    SignalNeedsHit(t.signals.lexical, t.lexical, ById(cs), path);
    var h :| h in t.lexical && h.0 in ById(cs) && ById(cs)[h.0].notePath == path;
    HitShares(t, ById(cs), cs, query, p, tokenize, pool, h);
    var k :| 0 <= k < |cs| && cs[k].chunkId == h.0 && Shares(cs[k].text, query, tokenize);
    ChunkIdsDistinct(notes);
    ByIdKeepsAll(cs);
  }

  // ---- the graph signal ----

  /** With one hop, a note that is no seed gets half of the sum, over the seeds next to it, of their scores times the
      weight between the two. */
  lemma {:induction false} OneHopSignal(t: Trace, edges: Edges, o: Options, q: string)
    requires GraphStage(t, edges, o) && o.hops == 1 && q !in t.signals.lexical && q !in t.signals.semantic
    ensures var seeds := Seeds(t.signals.lexical, t.signals.semantic);
      Get(t.signals.graph, q) == 0.5 * Total(Received(edges, seeds, q))
  {
    var seeds := Seeds(t.signals.lexical, t.signals.semantic);
    OneHop(t.signals.graph, t.fronts, edges, seeds, DECAY, MAX_NEIGHBORS);
    HopValue(edges, seeds.Keys, seeds, DECAY, q);
  }

  lemma {:induction false} OneHop(graph: Front, fronts: seq<Front>, edges: Edges, seeds: Front, decay: real, k: int)
    requires Expanded(graph, fronts, edges, seeds, 1, decay, k)
    ensures graph == Push(edges, seeds.Keys, seeds, decay)
  {
    ActivationNext(fronts, edges, seeds, decay, 0);
    var none: Front := map[];
    PlusIs(Push(edges, seeds.Keys, seeds, decay), none, Push(edges, seeds.Keys, seeds, decay));
  }

  /** As long as no hop activates more than 64 notes, nothing is cut off. */
  lemma {:induction false} GraphExact(t: Trace, edges: Edges, o: Options)
    requires GraphStage(t, edges, o) && o.hops >= 0
    requires var seeds := Seeds(t.signals.lexical, t.signals.semantic);
      forall h :: 0 < h < o.hops ==> |Layer(edges, seeds, 0.5, h)| <= 64
    ensures var seeds := Seeds(t.signals.lexical, t.signals.semantic);
      t.signals.graph == FullActivation(edges, seeds, 0.5, o.hops)
  {
    var seeds := Seeds(t.signals.lexical, t.signals.semantic);
    RunExact(t.fronts, edges, seeds, DECAY, MAX_NEIGHBORS, o.hops);
  }

  // ---- what a note shows ----

  /** A note shows all chunks there are to pick for it, or the next one would have gone over the budget. */
  lemma {:induction false} ShowsWhatFits(pack: Pack, t: Trace, chunks: Chunks, byPath: map<string, Note>, o: Options,
                                         i: nat)
    requires PackStage(pack, t, chunks, byPath, o) && Homed(chunks, byPath) && i < |pack|
    ensures var hits := HitsOf(t.lexical + t.semantic, chunks, pack[i].path);
      || |pack[i].chunks| == PickCount(byPath, pack[i].path, hits, o.chunksPerNote)
      || exists c: Chunk :: c in byPath[pack[i].path].chunks
           && PackSize(pack[..i]) + Size(pack[i].chunks) + |c.text| > o.maxChars
  {
    var path := pack[i].path;
    var hits, found := t.lexical + t.semantic, FoundFor(t.noteChunks, path);
    PackNote(pack, t, chunks, byPath, o, i);
    assert Chosen(pack[i].chunks, chunks, byPath, path, found, PackSize(pack[..i]), o);
    var order: Hits, picked: Picked :| Picks(picked, order, chunks, byPath, path, found, o.chunksPerNote)
      && Fits(pack[i].chunks, picked, PackSize(pack[..i]), o.maxChars);
    assert found == HitsOf(hits, chunks, path);
    PicksOwn(picked, order, chunks, byPath, path, hits, o.chunksPerNote);
    if |pack[i].chunks| < |picked| { assert picked[|pack[i].chunks|].0 in byPath[path].chunks; }
  }

  lemma {:induction false} FoundIsFruitful(t: Trace, chunks: Chunks, byPath: map<string, Note>, path: string,
                                           h: (string, real), limit: int)
    requires Gathers(t.noteChunks, t.lexical + t.semantic, chunks) && path in byPath && limit >= 1
    requires h in t.lexical && h.0 in chunks && chunks[h.0].notePath == path
    ensures !Barren(byPath, t.noteChunks, path, limit)
  {
    HitsOfAre(t.lexical + t.semantic, chunks, path, h);
    assert FoundFor(t.noteChunks, path) == HitsOf(t.lexical + t.semantic, chunks, path);
    PeakAtLeast(FoundFor(t.noteChunks, path), h);
    assert |Peaks(FoundFor(t.noteChunks, path))| >= 1;
  }

  /** From query to pack: a note with a chunk that shares a token with the query is in the pack, unless the pool of hits
      is full, or the pack is full of notes that score no less. */
  lemma {:induction false} MatchingNoteShown(pack: Pack, t: Trace, notes: seq<Note>, query: string, p: Params,
                                             tokenize: string -> seq<string>, o: Options, n: Note, c: Chunk)
    requires Scored(t, notes, query, p, tokenize, o.chunkPool) && UsualParams(p)
    requires PackStage(pack, t, ById(AllChunks(notes)), VaultCache.ByPath(notes), o) && o.chunksPerNote >= 1
    requires Matching(notes, n, c, query, tokenize) && |t.lexical| < o.chunkPool
    ensures n.path in Totals(t.signals, o)
    ensures (exists i :: 0 <= i < |pack| && pack[i].path == n.path)
      || (Full(pack, o) && forall i :: 0 <= i < |pack| ==> pack[i].score >= Totals(t.signals, o)[n.path])
  {
    var byPath := VaultCache.ByPath(notes);
    var h := MatchingHit(t, notes, query, p, tokenize, o.chunkPool, n, c);
    HitMakesSignal(t.signals.lexical, t.lexical, ById(AllChunks(notes)), h);
    assert n.path in t.signals.lexical;
    VaultCache.ByPathOf(notes);
    FoundIsFruitful(t, ById(AllChunks(notes)), byPath, n.path, h, o.chunksPerNote);
    if forall i :: 0 <= i < |pack| ==> pack[i].path != n.path {
      LeftOut(pack, t, ById(AllChunks(notes)), byPath, o, n.path);
    }
  }
}
