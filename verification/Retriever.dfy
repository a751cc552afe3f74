/** `retrieve`: from a query to a pack of notes and chunks within a budget of characters. */
module Retriever {
  import opened Models
  import opened Sums
  import opened Sorting
  import opened BM25
  import opened HyperGraph
  import opened Spreading
  import opened GraphIndex
  import opened Index
  import opened Wrappers
  import opened BuiltGraph
  import Parser
  import Vectors

  type Hits = seq<(string, real)>
  type Scores = map<string, real>
  type Chunks = map<string, Chunk>

  function Max(a: real, b: real): real {
    if a >= b then a else b
  }

  // ---- the best score per key ----

  /** `m[k] = max(m.get(k, 0.0), v)`. */
  function Raise(m: Scores, k: string, v: real): Scores {
    m[k := Max(Get(m, k), v)]
  }

  function Peaks(hits: Hits): Scores {
    if hits == [] then map[] else Raise(Peaks(hits[..|hits| - 1]), hits[|hits| - 1].0, hits[|hits| - 1].1)
  }

  lemma {:induction false} PeaksAppend(hits: Hits, k: string, v: real)
    ensures Peaks(hits + [(k, v)]) == Raise(Peaks(hits), k, v)
  {
    assert (hits + [(k, v)])[..|hits|] == hits;
  }

  /** A peak is at least every score of its key and at least 0, and it is one of them or 0. */
  lemma {:induction false} PeaksAre(hits: Hits, k: string)
    ensures k in Peaks(hits) <==> exists i :: 0 <= i < |hits| && hits[i].0 == k
    ensures forall i :: 0 <= i < |hits| && hits[i].0 == k ==> Get(Peaks(hits), k) >= hits[i].1
    ensures Get(Peaks(hits), k) == 0.0 || exists i :: 0 <= i < |hits| && hits[i] == (k, Get(Peaks(hits), k))
    ensures Get(Peaks(hits), k) >= 0.0
  {
    if hits != [] {
      var front, last := hits[..|hits| - 1], hits[|hits| - 1];
      PeaksAre(front, k);
      assert forall i :: 0 <= i < |front| ==> hits[i] == front[i];
    }
  }

  /** The hits whose chunk is still in the index, under the path of its note. */
  function PathHits(hits: Hits, chunks: Chunks): Hits {
    if hits == [] then []
    else
      var (id, score) := hits[|hits| - 1];
      PathHits(hits[..|hits| - 1], chunks) + if id in chunks then [(chunks[id].notePath, score)] else []
  }

  /** The hits on chunks of one note. */
  function HitsOf(hits: Hits, chunks: Chunks, path: string): Hits {
    if hits == [] then []
    else
      var (id, score) := hits[|hits| - 1];
      HitsOf(hits[..|hits| - 1], chunks, path)
        + if id in chunks && chunks[id].notePath == path then [(id, score)] else []
  }

  lemma {:induction false} HitsAppend(hits: Hits, h: (string, real), chunks: Chunks)
    ensures PathHits(hits + [h], chunks) == PathHits(hits, chunks) +
      if h.0 in chunks then [(chunks[h.0].notePath, h.1)] else []
    ensures forall p ::
      HitsOf(hits + [h], chunks, p) == HitsOf(hits, chunks, p) +
        if h.0 in chunks && chunks[h.0].notePath == p then [h] else []
  {
    assert (hits + [h])[..|hits|] == hits;
  }

  ghost predicate Gathers(noteChunks: map<string, Hits>, hits: Hits, chunks: Chunks) {
    && (forall p :: p in noteChunks <==> HitsOf(hits, chunks, p) != [])
    && forall p :: p in noteChunks ==> noteChunks[p] == HitsOf(hits, chunks, p)
  }

  lemma {:induction false} HitsOfOwn(hits: Hits, chunks: Chunks, path: string)
    ensures forall i :: 0 <= i < |HitsOf(hits, chunks, path)| ==>
      var id := HitsOf(hits, chunks, path)[i].0; id in chunks && chunks[id].notePath == path
  {
    if hits != [] { HitsOfOwn(hits[..|hits| - 1], chunks, path); }
  }

  /** The scores of notes and the filed hits, after the hits `seen`. */
  ghost predicate Aggregated(best: Scores, noteChunks: map<string, Hits>, before: Hits, seen: Hits, chunks: Chunks) {
    best == Peaks(PathHits(seen, chunks)) && Gathers(noteChunks, before + seen, chunks)
  }

  /** The loop that turns chunk hits into note scores and files the hits under their note. */
  method Aggregate(hits: Hits, chunks: Chunks, noteChunks: map<string, Hits>, ghost before: Hits)
    returns (best: Scores, noteChunks': map<string, Hits>)
    requires Gathers(noteChunks, before, chunks)
    ensures Aggregated(best, noteChunks', before, hits, chunks)
  {
    best, noteChunks' := map[], noteChunks;
    ghost var seen: Hits := [];
    NothingSeen(noteChunks, before, chunks);
    for i := 0 to |hits|
      invariant seen == hits[..i] && Aggregated(best, noteChunks', before, seen, chunks)
    {
      best, noteChunks' := AddHit(best, noteChunks', hits[i], chunks, before, seen);
      seen := seen + [hits[i]];
    }
    assert seen == hits;
  }

  lemma {:induction false} NothingSeen(noteChunks: map<string, Hits>, before: Hits, chunks: Chunks)
    requires Gathers(noteChunks, before, chunks)
    ensures Aggregated(map[], noteChunks, before, [], chunks)
  {
    assert before + [] == before;
  }

  method AddHit(best: Scores, noteChunks: map<string, Hits>, hit: (string, real), chunks: Chunks, ghost before: Hits,
                ghost seen: Hits)
    returns (best': Scores, noteChunks': map<string, Hits>)
    requires Aggregated(best, noteChunks, before, seen, chunks)
    ensures Aggregated(best', noteChunks', before, seen + [hit], chunks)
  {
    var (id, score) := hit;
    best', noteChunks' := best, noteChunks;
    if id in chunks {
      var path := chunks[id].notePath;
      best' := Raise(best, path, score);
      noteChunks' := noteChunks[path := (if path in noteChunks then noteChunks[path] else []) + [hit]];
    }
    PeaksNext(seen, hit, chunks);
    GatherStep(noteChunks, noteChunks', before + seen, hit, chunks);
    assert before + seen + [hit] == before + (seen + [hit]);
  }

  lemma {:induction false} PeaksNext(seen: Hits, hit: (string, real), chunks: Chunks)
    ensures Peaks(PathHits(seen + [hit], chunks)) ==
      if hit.0 in chunks then Raise(Peaks(PathHits(seen, chunks)), chunks[hit.0].notePath, hit.1)
        else Peaks(PathHits(seen, chunks))
  {
    HitsAppend(seen, hit, chunks);
    assert PathHits(seen, chunks) + [] == PathHits(seen, chunks);
    if hit.0 in chunks { PeaksAppend(PathHits(seen, chunks), chunks[hit.0].notePath, hit.1); }
  }

  lemma {:induction false} GatherStep(m: map<string, Hits>, m': map<string, Hits>, hits: Hits, h: (string, real),
                                      chunks: Chunks)
    requires Gathers(m, hits, chunks)
    requires m' == if h.0 !in chunks then m
      else var p := chunks[h.0].notePath; m[p := (if p in m then m[p] else []) + [h]]
    ensures Gathers(m', hits + [h], chunks)
  {
    HitsAppend(hits, h, chunks);
  }

  // ---- normalisation ----

  ghost predicate IsTop(top: real, scores: Scores) {
    (exists k :: k in scores && scores[k] == top) && forall k :: k in scores ==> scores[k] <= top
  }

  function Divided(scores: Scores, top: real): Scores {
    map k | k in scores :: scores[k] / OrOne(top)
  }

  ghost predicate Normalized(norm: Scores, scores: Scores) {
    if scores == map[] then norm == map[] else exists top :: IsTop(top, scores) && norm == Divided(scores, top)
  }

  method Normalize(scores: Scores) returns (norm: Scores)
    ensures Normalized(norm, scores)
  {
    if scores == map[] { return map[]; }
    var first :| first in scores.Keys;
    var top, todo := scores[first], scores.Keys - {first};
    while todo != {}
      invariant todo <= scores.Keys && (exists k :: k in scores && scores[k] == top)
      invariant forall k :: k in scores && k !in todo ==> scores[k] <= top
      decreases todo
    {
      var k :| k in todo;
      if scores[k] > top { top := scores[k]; }
      todo := todo - {k};
    }
    norm := Divided(scores, top);
  }

  lemma {:induction false} Fraction(x: real, y: real)
    requires 0.0 <= x <= y && y > 0.0
    ensures 0.0 <= x / y <= 1.0 && (x == y ==> x / y == 1.0)
  {
  }

  /** Normalised scores lie between 0 and 1, and if any score is positive the best one is 1. */
  lemma {:induction false} NormalizedRange(norm: Scores, scores: Scores)
    requires Normalized(norm, scores) && NonNegative(scores)
    ensures norm.Keys == scores.Keys && forall k :: k in norm ==> 0.0 <= norm[k] <= 1.0
    ensures (exists k :: k in scores && scores[k] > 0.0) ==> exists k :: k in norm && norm[k] == 1.0
  {
    if scores != map[] {
      var top :| IsTop(top, scores) && norm == Divided(scores, top);
      var best :| best in scores && scores[best] == top;
      forall k | k in norm ensures 0.0 <= norm[k] <= 1.0 {
        if top > 0.0 { Fraction(scores[k], top); }
      }
      if top > 0.0 {
        Fraction(top, top);
        assert norm[best] == 1.0;
      }
    }
  }

  // ---- the chunks of one note ----

  type Picked = seq<(Chunk, real)>

  /** The entries of a ranking whose chunk is in the index. */
  function Present(order: Hits, chunks: Chunks): Picked {
    if order == [] then []
    else
      var (id, score) := order[|order| - 1];
      Present(order[..|order| - 1], chunks) + if id in chunks then [(chunks[id], score)] else []
  }

  lemma {:induction false} PresentAll(order: Hits, chunks: Chunks)
    requires forall i :: 0 <= i < |order| ==> order[i].0 in chunks
    ensures |Present(order, chunks)| == |order|
    ensures forall i :: 0 <= i < |order| ==> Present(order, chunks)[i] == (chunks[order[i].0], order[i].1)
  {
    if order != [] {
      var front := order[..|order| - 1];
      assert forall i :: 0 <= i < |front| ==> front[i] == order[i];
      PresentAll(front, chunks);
    }
  }

  /** The first chunks of a note, with score 0. */
  function Opening(chunks: seq<Chunk>): Picked {
    seq(|chunks|, i requires 0 <= i < |chunks| => (chunks[i], 0.0))
  }

  /** `_pick_chunks`: the best chunks found, or the opening of a note nothing was found in. */
  ghost predicate Picks(picked: Picked, order: Hits, chunks: Chunks, byPath: map<string, Note>, path: string,
                        found: Hits, limit: int)
  {
    if found != [] then
      Lists(order, Peaks(found)) && Descending(order) && picked == Present(Head(order, limit), chunks)
    else
      picked == if path in byPath then Opening(Head(byPath[path].chunks, limit)) else []
  }

  method PickChunks(chunks: Chunks, byPath: map<string, Note>, path: string, found: Hits, limit: int)
    returns (picked: Picked)
    ensures exists order :: Picks(picked, order, chunks, byPath, path, found, limit)
  {
    if found != [] {
      var best := BestOf(found);
      var order := Ranked(best);
      picked := Fetch(Head(order, limit), chunks);
      assert Picks(picked, order, chunks, byPath, path, found, limit);
      return;
    }
    picked := if path in byPath then Opening(Head(byPath[path].chunks, limit)) else [];
    assert Picks(picked, [], chunks, byPath, path, found, limit);
  }

  method BestOf(found: Hits) returns (best: Scores)
    ensures best == Peaks(found)
  {
    best := map[];
    ghost var seen: Hits := [];
    for i := 0 to |found|
      invariant seen == found[..i] && best == Peaks(seen)
    {
      PeaksAppend(seen, found[i].0, found[i].1);
      assert found[i] == (found[i].0, found[i].1);
      best := Raise(best, found[i].0, found[i].1);
      seen := seen + [found[i]];
    }
    assert seen == found;
  }

  method Fetch(order: Hits, chunks: Chunks) returns (picked: Picked)
    ensures picked == Present(order, chunks)
  {
    picked := [];
    ghost var seen: Hits := [];
    for i := 0 to |order|
      invariant seen == order[..i] && picked == Present(seen, chunks)
    {
      assert (seen + [order[i]])[..|seen|] == seen;
      if order[i].0 in chunks { picked := picked + [(chunks[order[i].0], order[i].1)]; }
      seen := seen + [order[i]];
    }
    assert seen == order;
  }

  /** Distinct chunks of the note, at most `limit` of them when `limit` is not negative. */
  ghost predicate OwnChunks(picked: Picked, note: Note, limit: int) {
    && (limit >= 0 ==> |picked| <= limit)
    && (forall i :: 0 <= i < |picked| ==> picked[i].0 in note.chunks)
    && forall i, j :: 0 <= i < j < |picked| ==> picked[i].0.chunkId != picked[j].0.chunkId
  }

  /** How many chunks there are to pick. */
  function PickCount(byPath: map<string, Note>, path: string, found: Hits, limit: int): nat {
    if found != [] then SliceEnd(|Peaks(found)|, limit)
    else if path in byPath then SliceEnd(|byPath[path].chunks|, limit)
    else 0
  }

  lemma {:induction false} HeadPresent(order: Hits, found: Hits, chunks: Chunks, path: string, hits: Hits, limit: int)
    requires found == HitsOf(hits, chunks, path) && Lists(order, Peaks(found))
    ensures var head, picked := Head(order, limit), Present(Head(order, limit), chunks);
      |picked| == |head| && forall i :: 0 <= i < |head| ==>
        head[i].0 in chunks && picked[i] == (chunks[head[i].0], head[i].1)
  {
    var head := Head(order, limit);
    forall i | 0 <= i < |head| ensures head[i].0 in chunks {
      PeaksAre(found, head[i].0);
      HitsOfOwn(hits, chunks, path);
    }
    PresentAll(head, chunks);
  }

  lemma {:induction false} HeadOwn(order: Hits, found: Hits, chunks: Chunks, byPath: map<string, Note>, path: string,
                                   hits: Hits, limit: int)
    requires Homed(chunks, byPath) && path in byPath && found == HitsOf(hits, chunks, path)
      && Lists(order, Peaks(found))
    ensures OwnChunks(Present(Head(order, limit), chunks), byPath[path], limit)
  {
    var head := Head(order, limit);
    HeadPresent(order, found, chunks, path, hits, limit);
    HitsOfOwn(hits, chunks, path);
    forall i | 0 <= i < |head| ensures chunks[head[i].0].notePath == path { PeaksAre(found, head[i].0); }
  }

  lemma {:induction false} OpeningOwn(n: Note, limit: int)
    requires OwnIds(n)
    ensures OwnChunks(Opening(Head(n.chunks, limit)), n, limit)
  {
    var picked := Opening(Head(n.chunks, limit));
    forall i, j | 0 <= i < j < |picked| ensures picked[i].0.chunkId != picked[j].0.chunkId {
      DistinctWithin(n, i, j);
    }
  }

  lemma {:induction false} PicksOwn(picked: Picked, order: Hits, chunks: Chunks, byPath: map<string, Note>,
                                    path: string, hits: Hits, limit: int)
    requires Homed(chunks, byPath) && path in byPath
    requires Picks(picked, order, chunks, byPath, path, HitsOf(hits, chunks, path), limit)
    ensures OwnChunks(picked, byPath[path], limit)
      && |picked| == PickCount(byPath, path, HitsOf(hits, chunks, path), limit)
  {
    var found := HitsOf(hits, chunks, path);
    if found != [] {
      HeadOwn(order, found, chunks, byPath, path, hits, limit);
      HeadPresent(order, found, chunks, path, hits, limit);
    } else {
      OpeningOwn(byPath[path], limit);
    }
  }

  // ---- the budget ----

  function Size(picked: Picked): nat {
    if picked == [] then 0 else Size(picked[..|picked| - 1]) + |picked[|picked| - 1].0.text|
  }

  lemma {:induction false} SizeAppend(picked: Picked, c: (Chunk, real))
    ensures Size(picked + [c]) == Size(picked) + |c.0.text|
  {
    assert (picked + [c])[..|picked|] == picked;
  }

  /** The chunks that are kept: the first one always, and further ones while they fit. */
  ghost predicate Fits(kept: Picked, picked: Picked, used: nat, maxChars: int) {
    && kept <= picked && (picked != [] ==> kept != [])
    && (|kept| >= 2 ==> used + Size(kept) <= maxChars)
    && (|kept| < |picked| ==> used + Size(kept) + |picked[|kept|].0.text| > maxChars)
  }

  method KeepWithin(picked: Picked, used: nat, maxChars: int) returns (kept: Picked, noteChars: nat)
    ensures Fits(kept, picked, used, maxChars) && noteChars == Size(kept)
  {
    kept, noteChars := [], 0;
    for i := 0 to |picked|
      invariant kept == picked[..i] && noteChars == Size(kept)
      invariant |kept| >= 2 ==> used + noteChars <= maxChars
    {
      var rc := picked[i];
      if used + noteChars + |rc.0.text| > maxChars && kept != [] { return; }
      SizeAppend(kept, rc);
      kept := kept + [rc];
      noteChars := noteChars + |rc.0.text|;
    }
  }

  // ---- combining the signals ----

  datatype Options = Options(topNotes: int, chunkPool: int, chunksPerNote: int, hops: int,
                             lexicalWeight: real, graphWeight: real, semanticWeight: real, maxChars: int)

  /** The normalised lexical and semantic scores of notes and their graph activation. */
  datatype Signals = Signals(lexical: Scores, semantic: Scores, graph: Scores)

  function Seeds(lexical: Scores, semantic: Scores): Scores {
    map p | p in lexical.Keys + semantic.Keys :: Max(Get(lexical, p), Get(semantic, p))
  }

  function Combine(o: Options, lexical: real, semantic: real, graph: real): real {
    o.lexicalWeight * lexical + o.semanticWeight * semantic + o.graphWeight * graph
  }

  function Totals(sig: Signals, o: Options): Scores {
    map p | p in sig.lexical.Keys + sig.semantic.Keys + sig.graph.Keys ::
      Combine(o, Get(sig.lexical, p), Get(sig.semantic, p), Get(sig.graph, p))
  }

  datatype RetrievedNote = RetrievedNote(path: string, title: string, score: real, lexical: real, graph: real,
                                         semantic: real, tags: seq<string>, wikilinks: seq<string>, chunks: Picked)

  type Pack = seq<RetrievedNote>

  /** All characters of the chunks in the pack. */
  function PackSize(pack: Pack): nat {
    if pack == [] then 0 else PackSize(pack[..|pack| - 1]) + Size(pack[|pack| - 1].chunks)
  }

  lemma {:induction false} PackSizeAppend(pack: Pack, n: RetrievedNote)
    ensures PackSize(pack + [n]) == PackSize(pack) + Size(n.chunks)
  {
    assert (pack + [n])[..|pack|] == pack;
  }

  /** A note of the pack carries the data of its note, the signals of its path, and some of its own chunks. */
  ghost predicate FairNote(n: RetrievedNote, byPath: map<string, Note>, sig: Signals, totals: Scores, o: Options) {
    && n.path in byPath && n.path in totals && n.score == totals[n.path]
    && n.lexical == Get(sig.lexical, n.path) && n.graph == Get(sig.graph, n.path)
      && n.semantic == Get(sig.semantic, n.path)
    && n.title == byPath[n.path].title && n.tags == byPath[n.path].tags && n.wikilinks == byPath[n.path].wikilinks
    && n.chunks != [] && OwnChunks(n.chunks, byPath[n.path], o.chunksPerNote)
  }

  /** Within the budget, or over it by no more than part of one chunk that was needed to say anything about its note. */
  ghost predicate InBudget(pack: Pack, maxChars: int) {
    PackSize(pack) == 0 || PackSize(pack) <= maxChars
      || exists i :: 0 <= i < |pack| && |pack[i].chunks| == 1 && PackSize(pack) < maxChars + |pack[i].chunks[0].0.text|
  }

  /** `picks` says which entries of the ranking were selected. */
  ghost predicate Follows(pack: Pack, picks: seq<nat>, ranking: Hits, n: nat) {
    && |picks| == |pack| && n <= |ranking|
    && (forall k :: 0 <= k < |pack| ==>
      picks[k] < n && pack[k].path == ranking[picks[k]].0 && pack[k].score == ranking[picks[k]].1)
    && forall j, k :: 0 <= j < k < |pack| ==> picks[j] < picks[k]
  }

  function FoundFor(noteChunks: map<string, Hits>, path: string): Hits {
    if path in noteChunks then noteChunks[path] else []
  }

  ghost predicate Barren(byPath: map<string, Note>, noteChunks: map<string, Hits>, path: string, limit: int) {
    path !in byPath || PickCount(byPath, path, FoundFor(noteChunks, path), limit) == 0
  }

  /** Every entry of the first `n` that was not selected had nothing to show. */
  ghost predicate PassedOver(picks: seq<nat>, ranking: Hits, n: nat, byPath: map<string, Note>,
                             noteChunks: map<string, Hits>, limit: int)
    requires n <= |ranking|
  {
    forall i :: 0 <= i < n && i !in picks ==> Barren(byPath, noteChunks, ranking[i].0, limit)
  }

  ghost predicate Full(pack: Pack, o: Options) {
    |pack| >= o.topNotes || PackSize(pack) >= o.maxChars
  }

  /** The chunks kept for a note are the first picks for it, as many as fit after `used` characters. */
  ghost predicate Chosen(kept: Picked, chunks: Chunks, byPath: map<string, Note>, path: string, found: Hits, used: nat,
                         o: Options)
  {
    exists order, picked :: Picks(picked, order, chunks, byPath, path, found, o.chunksPerNote)
      && Fits(kept, picked, used, o.maxChars)
  }

  ghost predicate AllChosen(pack: Pack, chunks: Chunks, byPath: map<string, Note>, noteChunks: map<string, Hits>,
                            o: Options)
  {
    forall k :: 0 <= k < |pack| ==>
      Chosen(pack[k].chunks, chunks, byPath, pack[k].path, FoundFor(noteChunks, pack[k].path), PackSize(pack[..k]), o)
  }

  ghost predicate Assembled(pack: Pack, picks: seq<nat>, ranking: Hits, n: nat, chunks: Chunks,
                            byPath: map<string, Note>, noteChunks: map<string, Hits>, sig: Signals, totals: Scores,
                            o: Options)
  {
    && Follows(pack, picks, ranking, n) && PassedOver(picks, ranking, n, byPath, noteChunks, o.chunksPerNote)
    && (forall k :: 0 <= k < |pack| ==> FairNote(pack[k], byPath, sig, totals, o))
    && AllChosen(pack, chunks, byPath, noteChunks, o)
    && InBudget(pack, o.maxChars) && (|pack| > 0 ==> |pack| <= o.topNotes)
  }

  /** The loop that fills the pack; `noteChunks` holds the hits on the chunks of each note. */
  method Assemble(ranking: Hits, chunks: Chunks, byPath: map<string, Note>, noteChunks: map<string, Hits>,
                  ghost hits: Hits, sig: Signals, totals: Scores, o: Options)
    returns (pack: Pack, ghost picks: seq<nat>, ghost n: nat)
    requires Homed(chunks, byPath) && Gathers(noteChunks, hits, chunks) && Lists(ranking, totals)
    ensures Assembled(pack, picks, ranking, n, chunks, byPath, noteChunks, sig, totals, o)
    ensures n < |ranking| ==> Full(pack, o)
  {
    pack, picks, n := [], [], 0;
    var used := 0;
    for i := 0 to |ranking|
      invariant n == i && Assembled(pack, picks, ranking, n, chunks, byPath, noteChunks, sig, totals, o)
      invariant used == PackSize(pack)
    {
      if |pack| >= o.topNotes || used >= o.maxChars { return; }
      pack, used, picks := Consider(pack, used, picks, ranking, i, chunks, byPath, noteChunks, hits, sig, totals, o);
      n := i + 1;
    }
  }

  /** One candidate: its note enters the pack with the chunks that are kept, or it is passed over. */
  method Consider(pack: Pack, used: nat, ghost picks: seq<nat>, ranking: Hits, i: nat, chunks: Chunks,
                  byPath: map<string, Note>, noteChunks: map<string, Hits>, ghost hits: Hits, sig: Signals,
                  ghost totals: Scores, o: Options)
    returns (pack': Pack, used': nat, ghost picks': seq<nat>)
    requires Homed(chunks, byPath) && Gathers(noteChunks, hits, chunks) && Lists(ranking, totals) && i < |ranking|
    requires used == PackSize(pack) && !Full(pack, o)
      && Assembled(pack, picks, ranking, i, chunks, byPath, noteChunks, sig, totals, o)
    ensures Assembled(pack', picks', ranking, i + 1, chunks, byPath, noteChunks, sig, totals, o)
      && used' == PackSize(pack')
  {
    var (path, total) := ranking[i];
    var kept, noteChars := KeepChunks(path, chunks, byPath, noteChunks, hits, used, o);
    if kept == [] {
      SkipStep(pack, picks, ranking, i, chunks, byPath, noteChunks, sig, totals, o);
      return pack, used, picks;
    }
    var note := byPath[path];
    var entry := RetrievedNote(path, note.title, total, Get(sig.lexical, path), Get(sig.graph, path),
                               Get(sig.semantic, path), note.tags, note.wikilinks, kept);
    assert FairNote(entry, byPath, sig, totals, o);
    SelectStep(pack, picks, ranking, i, chunks, byPath, noteChunks, sig, totals, o, entry);
    PackSizeAppend(pack, entry);
    pack', used', picks' := pack + [entry], used + noteChars, picks + [i];
  }

  /** The chunks one note contributes; none when there is no such note or nothing to pick. */
  method KeepChunks(path: string, chunks: Chunks, byPath: map<string, Note>, noteChunks: map<string, Hits>,
                    ghost hits: Hits, used: nat, o: Options)
    returns (kept: Picked, noteChars: nat)
    requires Homed(chunks, byPath) && Gathers(noteChunks, hits, chunks)
    ensures kept == [] <==> Barren(byPath, noteChunks, path, o.chunksPerNote)
    ensures kept != [] ==> path in byPath && OwnChunks(kept, byPath[path], o.chunksPerNote)
    ensures kept != [] ==> Chosen(kept, chunks, byPath, path, FoundFor(noteChunks, path), used, o)
    ensures noteChars == Size(kept)
  {
    kept, noteChars := [], 0;
    if path in byPath {
      var found := FoundFor(noteChunks, path);
      var best := PickChunks(chunks, byPath, path, found, o.chunksPerNote);
      ghost var order :| Picks(best, order, chunks, byPath, path, found, o.chunksPerNote);
      kept, noteChars := KeepWithin(best, used, o.maxChars);
      PicksOwn(best, order, chunks, byPath, path, hits, o.chunksPerNote);
      KeptOwn(kept, best, byPath[path], o.chunksPerNote);
    }
  }

  lemma {:induction false} SkipStep(pack: Pack, picks: seq<nat>, ranking: Hits, i: nat, chunks: Chunks,
                                    byPath: map<string, Note>, noteChunks: map<string, Hits>, sig: Signals,
                                    totals: Scores, o: Options)
    requires i < |ranking| && Assembled(pack, picks, ranking, i, chunks, byPath, noteChunks, sig, totals, o)
    requires Barren(byPath, noteChunks, ranking[i].0, o.chunksPerNote)
    ensures Assembled(pack, picks, ranking, i + 1, chunks, byPath, noteChunks, sig, totals, o)
  {
    assert Follows(pack, picks, ranking, i + 1);
  }

  lemma {:induction false} FollowsStep(pack: Pack, picks: seq<nat>, ranking: Hits, i: nat, n: RetrievedNote)
    requires i < |ranking| && Follows(pack, picks, ranking, i) && n.path == ranking[i].0 && n.score == ranking[i].1
    ensures Follows(pack + [n], picks + [i], ranking, i + 1)
  {
    var pack', picks' := pack + [n], picks + [i];
    assert pack'[|pack|] == n && picks'[|pack|] == i;
    assert forall k :: 0 <= k < |pack| ==> pack'[k] == pack[k] && picks'[k] == picks[k];
  }

  lemma {:induction false} PassedOverStep(picks: seq<nat>, ranking: Hits, i: nat, byPath: map<string, Note>,
                                          noteChunks: map<string, Hits>, limit: int)
    requires i < |ranking| && PassedOver(picks, ranking, i, byPath, noteChunks, limit)
    ensures PassedOver(picks + [i], ranking, i + 1, byPath, noteChunks, limit)
  {
    assert i in picks + [i];
    assert forall j :: j !in picks + [i] ==> j !in picks;
  }

  lemma {:induction false} BudgetStep(pack: Pack, n: RetrievedNote, picked: Picked, maxChars: int)
    requires PackSize(pack) < maxChars && n.chunks != [] && Fits(n.chunks, picked, PackSize(pack), maxChars)
    ensures InBudget(pack + [n], maxChars)
  {
    PackSizeAppend(pack, n);
    assert (pack + [n])[|pack|] == n;
    if |n.chunks| == 1 {
      SizeAppend([], n.chunks[0]);
      assert n.chunks == [] + [n.chunks[0]];
    }
  }

  lemma {:induction false} ChosenStep(pack: Pack, n: RetrievedNote, chunks: Chunks, byPath: map<string, Note>,
                                      noteChunks: map<string, Hits>, o: Options)
    requires AllChosen(pack, chunks, byPath, noteChunks, o)
    requires Chosen(n.chunks, chunks, byPath, n.path, FoundFor(noteChunks, n.path), PackSize(pack), o)
    ensures AllChosen(pack + [n], chunks, byPath, noteChunks, o)
  {
    var all := pack + [n];
    assert all[..|pack|] == pack && all[|pack|] == n;
    assert forall k :: 0 <= k < |pack| ==> all[k] == pack[k] && all[..k] == pack[..k];
  }

  lemma {:induction false} SelectStep(pack: Pack, picks: seq<nat>, ranking: Hits, i: nat, chunks: Chunks,
                                      byPath: map<string, Note>, noteChunks: map<string, Hits>, sig: Signals,
                                      totals: Scores, o: Options, n: RetrievedNote)
    requires i < |ranking| && Assembled(pack, picks, ranking, i, chunks, byPath, noteChunks, sig, totals, o)
      && !Full(pack, o)
    requires n.path == ranking[i].0 && n.score == ranking[i].1 && FairNote(n, byPath, sig, totals, o)
    requires Chosen(n.chunks, chunks, byPath, n.path, FoundFor(noteChunks, n.path), PackSize(pack), o)
    ensures Assembled(pack + [n], picks + [i], ranking, i + 1, chunks, byPath, noteChunks, sig, totals, o)
  {
    FollowsStep(pack, picks, ranking, i, n);
    PassedOverStep(picks, ranking, i, byPath, noteChunks, o.chunksPerNote);
    ChosenStep(pack, n, chunks, byPath, noteChunks, o);
    ChosenInBudget(pack, n, chunks, byPath, noteChunks, o);
    FairStep(pack, n, byPath, sig, totals, o);
  }

  lemma {:induction false} ChosenInBudget(pack: Pack, n: RetrievedNote, chunks: Chunks, byPath: map<string, Note>,
                                          noteChunks: map<string, Hits>, o: Options)
    requires PackSize(pack) < o.maxChars && n.chunks != []
    requires Chosen(n.chunks, chunks, byPath, n.path, FoundFor(noteChunks, n.path), PackSize(pack), o)
    ensures InBudget(pack + [n], o.maxChars)
  {
    var order, picked :| Picks(picked, order, chunks, byPath, n.path, FoundFor(noteChunks, n.path), o.chunksPerNote)
      && Fits(n.chunks, picked, PackSize(pack), o.maxChars);
    BudgetStep(pack, n, picked, o.maxChars);
  }

  lemma {:induction false} FairStep(pack: Pack, n: RetrievedNote, byPath: map<string, Note>, sig: Signals,
                                    totals: Scores, o: Options)
    requires forall k :: 0 <= k < |pack| ==> FairNote(pack[k], byPath, sig, totals, o)
    requires FairNote(n, byPath, sig, totals, o)
    ensures forall k :: 0 <= k < |pack + [n]| ==> FairNote((pack + [n])[k], byPath, sig, totals, o)
  {
    assert forall k :: 0 <= k < |pack| ==> (pack + [n])[k] == pack[k];
  }

  lemma {:induction false} KeptOwn(kept: Picked, picked: Picked, note: Note, limit: int)
    requires OwnChunks(picked, note, limit) && kept <= picked
    ensures OwnChunks(kept, note, limit)
  {
    assert forall i :: 0 <= i < |kept| ==> kept[i] == picked[i];
  }

  // ---- the semantic signal ----

  /** The vectors of the chunks, the vector of the query and the similarity. */
  datatype Semantic = Semantic(vectors: map<string, Vectors.Vec>, query: Vectors.Vec,
                               cosine: (Vectors.Vec, Vectors.Vec) -> real)

  function Similarities(s: Semantic): Scores {
    map id | id in s.vectors :: s.cosine(s.query, s.vectors[id])
  }

  function Positive(hits: Hits): Hits {
    if hits == [] then []
    else Positive(hits[..|hits| - 1]) + if hits[|hits| - 1].1 > 0.0 then [hits[|hits| - 1]] else []
  }

  /** The hits are the positive ones among the `topK` most similar chunks. */
  ghost predicate MostSimilar(hits: Hits, ranked: Hits, s: Semantic, topK: int) {
    Lists(ranked, Similarities(s)) && Descending(ranked) && hits == Positive(Head(ranked, topK))
  }

  lemma {:induction false} PositiveAre(hits: Hits, h: (string, real))
    ensures h in Positive(hits) <==> h in hits && h.1 > 0.0
  {
    if hits != [] {
      var front, last := hits[..|hits| - 1], hits[|hits| - 1];
      assert hits == front + [last];
      PositiveAre(front, h);
    }
  }

  lemma {:induction false} AllPositive(hits: Hits)
    requires forall h :: h in hits ==> h.1 > 0.0
    ensures Positive(hits) == hits
  {
    if hits != [] {
      var front, last := hits[..|hits| - 1], hits[|hits| - 1];
      assert hits == front + [last];
      assert last in hits && forall h :: h in front ==> h in hits;
      AllPositive(front);
    }
  }

  /** Every hit is the positive similarity of a chunk, and a chunk that is similar and left out is no more similar
      than any of a full list of hits. */
  lemma {:induction false} MostSimilarAre(hits: Hits, ranked: Hits, s: Semantic, topK: int)
    requires MostSimilar(hits, ranked, s, topK)
    ensures forall h :: h in hits ==> h.1 > 0.0 && h.0 in s.vectors && h.1 == s.cosine(s.query, s.vectors[h.0])
    ensures forall id :: id in s.vectors ==>
      var c := s.cosine(s.query, s.vectors[id]);
      c <= 0.0 || (id, c) in hits || (|hits| == |Head(ranked, topK)| && forall h :: h in hits ==> h.1 >= c)
  {
    var head := Head(ranked, topK);
    forall h | h in hits ensures h.1 > 0.0 && h.0 in s.vectors && h.1 == s.cosine(s.query, s.vectors[h.0]) {
      PositiveAre(head, h);
      var i :| 0 <= i < |head| && head[i] == h;
      assert ranked[i] == h;
    }
    forall id | id in s.vectors ensures var c := s.cosine(s.query, s.vectors[id]);
      c <= 0.0 || (id, c) in hits || (|hits| == |head| && forall h :: h in hits ==> h.1 >= c)
    {
      LeftOutBelow(hits, ranked, s, topK, id);
    }
  }

  lemma {:induction false} LeftOutBelow(hits: Hits, ranked: Hits, s: Semantic, topK: int, id: string)
    requires MostSimilar(hits, ranked, s, topK) && id in s.vectors
    ensures var c := s.cosine(s.query, s.vectors[id]);
      c <= 0.0 || (id, c) in hits || (|hits| == |Head(ranked, topK)| && forall h :: h in hits ==> h.1 >= c)
  {
    var head, c := Head(ranked, topK), s.cosine(s.query, s.vectors[id]);
    assert id in Similarities(s);
    var i :| 0 <= i < |ranked| && ranked[i].0 == id;
    assert ranked[i] == (id, c);
    if i < |head| {
      assert head[i] == (id, c);
      PositiveAre(head, (id, c));
    } else if c > 0.0 {
      forall h | h in head ensures h.1 >= c {
        var j :| 0 <= j < |head| && head[j] == h;
        assert ranked[j] == h;
      }
      AllPositive(head);
    }
  }

  method SemanticHits(s: Semantic, topK: int) returns (hits: Hits)
    ensures exists ranked :: MostSimilar(hits, ranked, s, topK)
  {
    var ranked := Ranked(Similarities(s));
    hits := Positive(Head(ranked, topK));
    assert MostSimilar(hits, ranked, s, topK);
  }

  // ---- retrieve ----

  const DECAY := 0.5
  const MAX_NEIGHBORS := 64

  /** What a call computed on the way to its pack. */
  datatype Trace = Trace(lexical: Hits, lexicalRanking: seq<(nat, real)>, semantic: Hits, semanticRanking: Hits,
                         fronts: seq<Front>, signals: Signals, noteChunks: map<string, Hits>, ranking: Hits,
                         picks: seq<nat>, considered: nat)

  ghost predicate LexicalSignal(hits: Hits, ranking: seq<(nat, real)>, norm: Scores, chunks: Chunks,
                                docs: seq<(string, string)>, scores: map<nat, real>, pool: int)
  {
    TopHits(hits, ranking, scores, docs, pool) && Normalized(norm, Peaks(PathHits(hits, chunks)))
  }

  ghost predicate LexicalStage(t: Trace, chunks: Chunks, docs: seq<(string, string)>, scores: map<nat, real>,
                               pool: int)
  {
    LexicalSignal(t.lexical, t.lexicalRanking, t.signals.lexical, chunks, docs, scores, pool)
  }

  /** Without an embedder, or with a weight that is not positive, there is no semantic signal. */
  ghost predicate SemanticSignal(hits: Hits, ranking: Hits, norm: Scores, chunks: Chunks, semantic: Option<Semantic>,
                                 o: Options)
  {
    && (if semantic.Some? && o.semanticWeight > 0.0 then MostSimilar(hits, ranking, semantic.value, o.chunkPool)
      else hits == [])
    && Normalized(norm, Peaks(PathHits(hits, chunks)))
  }

  ghost predicate SemanticStage(t: Trace, chunks: Chunks, semantic: Option<Semantic>, o: Options) {
    SemanticSignal(t.semantic, t.semanticRanking, t.signals.semantic, chunks, semantic, o)
  }

  ghost predicate GraphStage(t: Trace, edges: Edges, o: Options) {
    var seeds := Seeds(t.signals.lexical, t.signals.semantic);
    Expanded(t.signals.graph, t.fronts, edges, seeds, o.hops, DECAY, MAX_NEIGHBORS)
  }

  ghost predicate PackStage(pack: Pack, t: Trace, chunks: Chunks, byPath: map<string, Note>, o: Options) {
    var totals := Totals(t.signals, o);
    && Gathers(t.noteChunks, t.lexical + t.semantic, chunks)
    && Lists(t.ranking, totals) && Descending(t.ranking)
    && Assembled(pack, t.picks, t.ranking, t.considered, chunks, byPath, t.noteChunks, t.signals, totals, o)
    && (t.considered < |t.ranking| ==> Full(pack, o))
  }

  /** The pack of a query: lexical hits, semantic hits, spreading from their notes, and the pack made from all three. */
  ghost predicate Answers(pack: Pack, t: Trace, chunks: Chunks, byPath: map<string, Note>, docs: seq<(string, string)>,
                          scores: map<nat, real>, edges: Edges, semantic: Option<Semantic>, o: Options)
  {
    && LexicalStage(t, chunks, docs, scores, o.chunkPool) && SemanticStage(t, chunks, semantic, o)
    && GraphStage(t, edges, o) && PackStage(pack, t, chunks, byPath, o)
  }

  lemma {:induction false} NoneGathered(chunks: Chunks)
    ensures Gathers(map[], [], chunks)
  {
  }

  lemma {:induction false} AllGathered(best: Scores, noteChunks: map<string, Hits>, hits: Hits, chunks: Chunks)
    requires Aggregated(best, noteChunks, [], hits, chunks)
    ensures best == Peaks(PathHits(hits, chunks)) && Gathers(noteChunks, hits, chunks)
  {
    assert [] + hits == hits;
  }

  method WeighLexical(index: VaultIndex, query: string, pool: int, ghost docs: seq<(string, string)>)
    returns (hits: Hits, norm: Scores, noteChunks: map<string, Hits>)
    requires index.Valid() && docs == Docs(AllChunks(index.notes))
    ensures Gathers(noteChunks, hits, index.chunksById)
    ensures exists ranking ::
      LexicalSignal(hits, ranking, norm, index.chunksById, docs, index.bm25.NaiveScores(docs, query), pool)
  {
    hits := index.bm25.Search(query, pool, docs);
    ghost var ranking :| TopHits(hits, ranking, index.bm25.NaiveScores(docs, query), docs, pool);
    NoneGathered(index.chunksById);
    var best;
    best, noteChunks := Aggregate(hits, index.chunksById, map[], []);
    AllGathered(best, noteChunks, hits, index.chunksById);
    norm := Normalize(best);
    assert LexicalSignal(hits, ranking, norm, index.chunksById, docs, index.bm25.NaiveScores(docs, query), pool);
  }

  method WeighSemantic(chunks: Chunks, semantic: Option<Semantic>, o: Options, lexChunks: map<string, Hits>,
                       ghost lexHits: Hits)
    returns (hits: Hits, norm: Scores, noteChunks: map<string, Hits>)
    requires Gathers(lexChunks, lexHits, chunks)
    ensures Gathers(noteChunks, lexHits + hits, chunks)
    ensures exists ranking :: SemanticSignal(hits, ranking, norm, chunks, semantic, o)
  {
    hits := [];
    ghost var ranking: Hits := [];
    if semantic.Some? && o.semanticWeight > 0.0 {
      hits := SemanticHits(semantic.value, o.chunkPool);
      ranking :| MostSimilar(hits, ranking, semantic.value, o.chunkPool);
    }
    var best;
    best, noteChunks := Aggregate(hits, chunks, lexChunks, lexHits);
    norm := Normalize(best);
    assert SemanticSignal(hits, ranking, norm, chunks, semantic, o);
  }

  /** The three signals, with the hits on the chunks of each note. */
  method Weigh(index: VaultIndex, query: string, semantic: Option<Semantic>, o: Options,
               ghost docs: seq<(string, string)>)
    returns (sig: Signals, noteChunks: map<string, Hits>, ghost t: Trace)
    requires index.Valid() && docs == Docs(AllChunks(index.notes))
    ensures sig == t.signals && noteChunks == t.noteChunks
      && Gathers(noteChunks, t.lexical + t.semantic, index.chunksById)
    ensures LexicalStage(t, index.chunksById, docs, index.bm25.NaiveScores(docs, query), o.chunkPool)
    ensures SemanticStage(t, index.chunksById, semantic, o) && GraphStage(t, index.graph.edges, o)
  {
    ghost var scores := index.bm25.NaiveScores(docs, query);
    var lexHits, lexical, lexChunks := WeighLexical(index, query, o.chunkPool, docs);
    ghost var lexRanking :| LexicalSignal(lexHits, lexRanking, lexical, index.chunksById, docs, scores, o.chunkPool);
    var semHits, sem;
    semHits, sem, noteChunks := WeighSemantic(index.chunksById, semantic, o, lexChunks, lexHits);
    ghost var semRanking :| SemanticSignal(semHits, semRanking, sem, index.chunksById, semantic, o);
    var seeds := Seeds(lexical, sem);
    var graph := index.graph.Expand(seeds, o.hops, DECAY, MAX_NEIGHBORS);
    ghost var fronts :| Expanded(graph, fronts, index.graph.edges, seeds, o.hops, DECAY, MAX_NEIGHBORS);
    sig := Signals(lexical, sem, graph);
    t := Trace(lexHits, lexRanking, semHits, semRanking, fronts, sig, noteChunks, [], [], 0);
  }

  method Retrieve(index: VaultIndex, query: string, semantic: Option<Semantic>, o: Options) returns (pack: Pack)
    requires index.Valid() && Parsed(index.notes)
    ensures var docs := Docs(AllChunks(index.notes));
      exists t :: Answers(pack, t, index.chunksById, index.byPath, docs, index.bm25.NaiveScores(docs, query),
        index.graph.edges, semantic, o)
  {
    ghost var docs := Docs(AllChunks(index.notes));
    var sig, noteChunks, t := Weigh(index, query, semantic, o, docs);
    var totals := Totals(sig, o);
    var ranking := Ranked(totals);
    ParsedHomed(index.notes);
    ghost var picks, considered;
    pack, picks, considered :=
      Assemble(ranking, index.chunksById, index.byPath, noteChunks, t.lexical + t.semantic, sig, totals, o);
    ghost var full := t.(ranking := ranking, picks := picks, considered := considered);
    assert Answers(pack, full, index.chunksById, index.byPath, docs, index.bm25.NaiveScores(docs, query),
      index.graph.edges, semantic, o);
  }

  // ---- what a pack is ----

  /** With the vectors that `ensure_vectors` promises, every semantic hit carries the similarity of the query and
      the text of its own chunk; and a similar chunk that is left out is no more similar than any of a full list of
      hits. */
  lemma {:induction false} SemanticHitsRight(t: Trace, chunks: Chunks, s: Semantic, o: Options, query: string,
                                             name: string, embedding: Vectors.Embedding)
    requires SemanticStage(t, chunks, Some(s), o) && o.semanticWeight > 0.0
    requires Vectors.Right(s.vectors, chunks, name, embedding) && s.query == embedding(name, query)
    ensures forall h :: h in t.semantic ==>
      h.1 > 0.0 && h.0 in chunks && h.1 == s.cosine(embedding(name, query), embedding(name, chunks[h.0].text))
    ensures forall id :: id in chunks ==>
      var c := s.cosine(embedding(name, query), embedding(name, chunks[id].text));
      c <= 0.0 || (id, c) in t.semantic
      || (|t.semantic| == |Head(t.semanticRanking, o.chunkPool)| && forall h :: h in t.semantic ==> h.1 >= c)
  {
    MostSimilarAre(t.semantic, t.semanticRanking, s, o.chunkPool);
    assert forall id :: id in chunks ==> id in s.vectors;
  }

  /** At most `topNotes` notes, all different, best score first, each with between one and `chunksPerNote` distinct
      chunks of its own. */
  lemma {:induction false} PackIsFair(pack: Pack, t: Trace, chunks: Chunks, byPath: map<string, Note>, o: Options)
    requires PackStage(pack, t, chunks, byPath, o)
    ensures |pack| <= if o.topNotes >= 0 then o.topNotes else 0
    ensures forall i, j :: 0 <= i < j < |pack| ==> pack[i].score >= pack[j].score && pack[i].path != pack[j].path
    ensures forall i :: 0 <= i < |pack| ==>
      pack[i].path in byPath && pack[i].chunks != [] && OwnChunks(pack[i].chunks, byPath[pack[i].path], o.chunksPerNote)
  {
    RankedApart(pack, t.picks, t.ranking, Totals(t.signals, o), t.considered);
    forall i | 0 <= i < |pack|
      ensures pack[i].path in byPath && pack[i].chunks != []
        && OwnChunks(pack[i].chunks, byPath[pack[i].path], o.chunksPerNote)
    {
      assert FairNote(pack[i], byPath, t.signals, Totals(t.signals, o), o);
    }
  }

  lemma {:induction false} RankedApart(pack: Pack, picks: seq<nat>, ranking: Hits, totals: Scores, n: nat)
    requires Follows(pack, picks, ranking, n) && Lists(ranking, totals) && Descending(ranking)
    ensures forall i, j :: 0 <= i < j < |pack| ==> pack[i].score >= pack[j].score && pack[i].path != pack[j].path
  {
    forall i, j | 0 <= i < j < |pack| ensures pack[i].score >= pack[j].score && pack[i].path != pack[j].path {
      assert picks[i] < picks[j];
    }
  }

  /** The chunks shown are the best ones by these scores, best first. */
  ghost predicate BestFirst(shown: Picked, scores: Scores) {
    && (forall i :: 0 <= i < |shown| ==> shown[i].0.chunkId in scores && shown[i].1 == scores[shown[i].0.chunkId])
    && (forall i, j :: 0 <= i < j < |shown| ==> shown[i].1 >= shown[j].1)
    && forall id :: id in scores ==> Shows(shown, id) || forall i :: 0 <= i < |shown| ==> shown[i].1 >= scores[id]
  }

  ghost predicate Shows(shown: Picked, id: string) {
    exists i :: 0 <= i < |shown| && shown[i].0.chunkId == id
  }

  lemma {:induction false} RankedBest(shown: Picked, order: Hits, scores: Scores)
    requires Lists(order, scores) && Descending(order) && |shown| <= |order|
    requires forall i :: 0 <= i < |shown| ==> shown[i].0.chunkId == order[i].0 && shown[i].1 == order[i].1
    ensures BestFirst(shown, scores)
  {
    forall id | id in scores ensures Shows(shown, id) || forall i :: 0 <= i < |shown| ==> shown[i].1 >= scores[id] {
      var j :| 0 <= j < |order| && order[j].0 == id;
      if j < |shown| { assert shown[j].0.chunkId == id; }
    }
  }

  lemma {:induction false} PicksBest(kept: Picked, picked: Picked, order: Hits, chunks: Chunks,
                                     byPath: map<string, Note>, path: string, hits: Hits, limit: int)
    requires Homed(chunks, byPath) && HitsOf(hits, chunks, path) != [] && kept <= picked
    requires Picks(picked, order, chunks, byPath, path, HitsOf(hits, chunks, path), limit)
    ensures BestFirst(kept, Peaks(HitsOf(hits, chunks, path)))
  {
    var found := HitsOf(hits, chunks, path);
    HeadPresent(order, found, chunks, path, hits, limit);
    assert forall i :: 0 <= i < |kept| ==>
      kept[i] == picked[i] && kept[i].0.chunkId == order[i].0 && kept[i].1 == order[i].1;
    RankedBest(kept, order, Peaks(found));
  }

  /** Each note of the pack shows its best chunks, best first, if anything in it was found, and its opening
      otherwise. */
  lemma {:induction false} ShowsBest(pack: Pack, t: Trace, chunks: Chunks, byPath: map<string, Note>, o: Options,
                                     k: nat)
    requires PackStage(pack, t, chunks, byPath, o) && Homed(chunks, byPath) && k < |pack|
    ensures var found := HitsOf(t.lexical + t.semantic, chunks, pack[k].path);
      if found != [] then BestFirst(pack[k].chunks, Peaks(found))
      else pack[k].path in byPath && pack[k].chunks <= Opening(byPath[pack[k].path].chunks)
  {
    var path, hits := pack[k].path, t.lexical + t.semantic;
    var found := FoundFor(t.noteChunks, path);
    assert Chosen(pack[k].chunks, chunks, byPath, path, found, PackSize(pack[..k]), o);
    var order, picked :| Picks(picked, order, chunks, byPath, path, found, o.chunksPerNote)
      && Fits(pack[k].chunks, picked, PackSize(pack[..k]), o.maxChars);
    if HitsOf(hits, chunks, path) != [] {
      PicksBest(pack[k].chunks, picked, order, chunks, byPath, path, hits, o.chunksPerNote);
    } else {
      PackNote(pack, t, chunks, byPath, o, k);
      OpeningHead(byPath[path].chunks, o.chunksPerNote);
    }
  }

  lemma {:induction false} OpeningHead(cs: seq<Chunk>, limit: int)
    ensures Opening(Head(cs, limit)) <= Opening(cs)
  {
  }

  ghost predicate ChunksUpTo(byPath: map<string, Note>, longest: nat) {
    forall p, c :: p in byPath && c in byPath[p].chunks ==> |c.text| <= longest
  }

  /** The chunks of a pack have fewer characters than the budget and the longest chunk of the vault together. */
  lemma {:induction false} PackInBudget(pack: Pack, t: Trace, chunks: Chunks, byPath: map<string, Note>, o: Options,
                                        longest: nat)
    requires PackStage(pack, t, chunks, byPath, o) && ChunksUpTo(byPath, longest) && longest >= 1
    ensures PackSize(pack) == 0 || PackSize(pack) < o.maxChars + longest
  {
    if i :| 0 <= i < |pack| && |pack[i].chunks| == 1 && PackSize(pack) < o.maxChars + |pack[i].chunks[0].0.text| {
      assert FairNote(pack[i], byPath, t.signals, Totals(t.signals, o), o);
    }
  }

  /** The bound of `chunk_body` is the bound the budget needs. */
  lemma {:induction false} SplitterBound(byPath: map<string, Note>, maxChunkChars: nat)
    requires forall p :: p in byPath ==>
      Parser.GoodChunks(byPath[p].chunks, p, Parser.Lines(byPath[p].body), maxChunkChars)
    ensures ChunksUpTo(byPath, maxChunkChars)
  {
    forall p, c | p in byPath && c in byPath[p].chunks ensures |c.text| <= maxChunkChars {
      var i :| 0 <= i < |byPath[p].chunks| && byPath[p].chunks[i] == c;
      assert Parser.GoodChunk(c, i, p, Parser.Lines(byPath[p].body), maxChunkChars);
    }
  }

  lemma {:induction false} NoSignal(t: Trace, edges: Edges, o: Options, p: string)
    requires GraphStage(t, edges, o) && p in t.signals.graph
    ensures Get(t.signals.lexical, p) == 0.0 && Get(t.signals.semantic, p) == 0.0
  {
    var seeds := Seeds(t.signals.lexical, t.signals.semantic);
    NoSeedActivated(t.fronts, edges, seeds, DECAY, |t.fronts|);
    assert p !in seeds;
  }

  /** Its whole score is its graph signal times the weight of that signal. */
  ghost predicate FromGraph(n: RetrievedNote, o: Options) {
    match n
    case RetrievedNote(_, _, score, lexical, graph, semantic, _, _, _) =>
      lexical == 0.0 && semantic == 0.0 && score == o.graphWeight * graph
  }

  lemma {:induction false} FromGraphOnly(n: RetrievedNote, byPath: map<string, Note>, t: Trace, edges: Edges,
                                         o: Options)
    requires FairNote(n, byPath, t.signals, Totals(t.signals, o), o) && GraphStage(t, edges, o) && n.graph != 0.0
    ensures FromGraph(n, o)
  {
    NoSignal(t, edges, o, n.path);
    FairFromGraph(n, byPath, t.signals, o);
  }

  lemma {:induction false} FairFromGraph(n: RetrievedNote, byPath: map<string, Note>, sig: Signals, o: Options)
    requires FairNote(n, byPath, sig, Totals(sig, o), o) && n.lexical == 0.0 && n.semantic == 0.0
    ensures FromGraph(n, o)
  {
  }

  lemma {:induction false} PackNote(pack: Pack, t: Trace, chunks: Chunks, byPath: map<string, Note>, o: Options, i: nat)
    requires PackStage(pack, t, chunks, byPath, o) && i < |pack|
    ensures FairNote(pack[i], byPath, t.signals, Totals(t.signals, o), o)
  {
  }

  /** A note the graph contributes to is no seed: it has no lexical and no semantic score. */
  lemma {:induction false} GraphScoreAlone(pack: Pack, t: Trace, chunks: Chunks, byPath: map<string, Note>,
                                           edges: Edges, o: Options, i: nat)
    requires PackStage(pack, t, chunks, byPath, o) && GraphStage(t, edges, o) && i < |pack| && pack[i].graph != 0.0
    ensures FromGraph(pack[i], o)
  {
    PackNote(pack, t, chunks, byPath, o, i);
    FromGraphOnly(pack[i], byPath, t, edges, o);
  }

  lemma {:induction false} PickedInPack(pack: Pack, picks: seq<nat>, ranking: Hits, n: nat, j: nat)
    requires Follows(pack, picks, ranking, n) && j < n
    ensures j in picks ==> exists k :: 0 <= k < |pack| && pack[k].path == ranking[j].0
  {
    if j in picks {
      var k :| 0 <= k < |picks| && picks[k] == j;
      assert pack[k].path == ranking[j].0;
    }
  }

  /** A candidate is left out only because it has nothing to show, or because the pack is full of notes that score no
      less. */
  lemma {:induction false} LeftOut(pack: Pack, t: Trace, chunks: Chunks, byPath: map<string, Note>, o: Options,
                                   path: string)
    requires PackStage(pack, t, chunks, byPath, o)
    requires path in Totals(t.signals, o) && forall i :: 0 <= i < |pack| ==> pack[i].path != path
    ensures Barren(byPath, t.noteChunks, path, o.chunksPerNote)
      || (Full(pack, o) && forall i :: 0 <= i < |pack| ==> pack[i].score >= Totals(t.signals, o)[path])
  {
    var j :| 0 <= j < |t.ranking| && t.ranking[j].0 == path;
    if j < t.considered {
      PickedInPack(pack, t.picks, t.ranking, t.considered, j);
    } else {
      forall i | 0 <= i < |pack| ensures pack[i].score >= t.ranking[j].1 {
        assert t.picks[i] < j;
      }
    }
  }

  /** Lexical and semantic signals lie between 0 and 1. */
  lemma {:induction false} SignalRange(t: Trace, chunks: Chunks, docs: seq<(string, string)>, scores: map<nat, real>,
                                       semantic: Option<Semantic>, o: Options, p: string)
    requires LexicalStage(t, chunks, docs, scores, o.chunkPool) && SemanticStage(t, chunks, semantic, o)
    ensures 0.0 <= Get(t.signals.lexical, p) <= 1.0 && 0.0 <= Get(t.signals.semantic, p) <= 1.0
  {
    PeaksNonNegative(PathHits(t.lexical, chunks));
    PeaksNonNegative(PathHits(t.semantic, chunks));
    NormalizedRange(t.signals.lexical, Peaks(PathHits(t.lexical, chunks)));
    NormalizedRange(t.signals.semantic, Peaks(PathHits(t.semantic, chunks)));
  }

  lemma {:induction false} PeaksNonNegative(hits: Hits)
    ensures NonNegative(Peaks(hits))
  {
    forall k | k in Peaks(hits) ensures Peaks(hits)[k] >= 0.0 { PeaksAre(hits, k); }
  }

  /** All graph scores together are at most a geometric sum over the hops of what the seeds have. */
  lemma {:induction false} GraphBounded(t: Trace, edges: Edges, o: Options, d: real)
    requires GraphStage(t, edges, o) && NonNegativeWeights(edges) && DegreeBound(edges, d)
    requires forall p :: Get(t.signals.lexical, p) >= 0.0
    ensures Total(t.signals.graph) <= GeometricSum(Total(Seeds(t.signals.lexical, t.signals.semantic)), Prod(DECAY, d),
      |t.fronts|)
  {
    var seeds := Seeds(t.signals.lexical, t.signals.semantic);
    forall p | p in seeds ensures seeds[p] >= 0.0 { assert Get(t.signals.lexical, p) >= 0.0; }
    RunBound(t.fronts, edges, seeds, DECAY, MAX_NEIGHBORS, d, |t.fronts|);
  }

  /** For an index built from well-formed notes, whatever is asked of it: all graph scores together are at most the
      geometric sum of the seeds' total, at rate one half of the weight of the heaviest note's edges. */
  lemma {:induction false} VaultGraphBounded(index: VaultIndex, pack: Pack, t: Trace, query: string,
                                             semantic: Option<Semantic>, o: Options)
    requires AllSound(index.graph.edges, index.notes)
    requires var docs := Docs(AllChunks(index.notes));
      Answers(pack, t, index.chunksById, index.byPath, docs, index.bm25.NaiveScores(docs, query), index.graph.edges,
        semantic, o)
    ensures var rate := Prod(DECAY, MaxWeight(index.graph.edges, index.notes, |index.notes|));
      Total(t.signals.graph) <=
        GeometricSum(Total(Seeds(t.signals.lexical, t.signals.semantic)), rate, if o.hops > 0 then o.hops else 0)
  {
    var edges, docs := index.graph.edges, Docs(AllChunks(index.notes));
    BuiltFlow(edges, index.notes, "");
    GraphDegree(edges, index.notes);
    forall p ensures Get(t.signals.lexical, p) >= 0.0 {
      SignalRange(t, index.chunksById, docs, index.bm25.NaiveScores(docs, query), semantic, o, p);
    }
    GraphBounded(t, edges, o, MaxWeight(edges, index.notes, |index.notes|));
  }
}
