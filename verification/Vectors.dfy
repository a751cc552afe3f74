/** `ensure_vectors`: one vector for every live chunk, from a cache shared by all states of the vault and all
    embedders. */
module Vectors {
  import opened Models
  import opened Wrappers

  type Vec = seq<real>
  type Hash = string -> string

  /** What an embedder of a given name computes for a text. */
  type Embedding = (string, string) -> Vec

  datatype Embedder = Embedder(name: string, embed: seq<string> -> seq<Vec>)

  /** The embedder works text by text. */
  ghost predicate Computes(e: Embedder, embedding: Embedding) {
    forall ts :: |e.embed(ts)| == |ts| && forall i :: 0 <= i < |ts| ==> e.embed(ts)[i] == embedding(e.name, ts[i])
  }

  // ---- the cache directory ----

  predicate NameChar(c: char) {
    'A' <= c <= 'Z' || 'a' <= c <= 'z' || '0' <= c <= '9' || c in "_.-"
  }

  /** `_safe_name`: the embedder's name as a file name; different names may share one. */
  function SafeName(name: string): string {
    seq(|name|, i requires 0 <= i < |name| => if NameChar(name[i]) then name[i] else '_')
  }

  lemma {:induction false} SafeNameIs(name: string, i: nat)
    requires i < |name|
    ensures var c := name[i];
      if 'A' <= c <= 'Z' || 'a' <= c <= 'z' || '0' <= c <= '9' || c == '_' || c == '.' || c == '-'
        then SafeName(name)[i] == c else SafeName(name)[i] == '_'
    ensures |SafeName(name)| == |name|
  {
  }

  datatype VectorFile = Damaged | VectorFile(embedder: string, vectors: map<string, Vec>)

  type Files = map<string, VectorFile>

  /** The vectors that count for an embedder: those of its file, if that is readable and was written under its name. */
  function Cached(files: Files, name: string): map<string, Vec> {
    if SafeName(name) in files && files[SafeName(name)].VectorFile? && files[SafeName(name)].embedder == name
    then files[SafeName(name)].vectors
    else map[]
  }

  class CacheDir {
    var files: Files

    constructor ()
      ensures files == map[]
    {
      files := map[];
    }
  }

  type Chunks = map<string, Chunk>

  ghost function LiveHashes(chunks: Chunks, hash: Hash): set<string> {
    set id | id in chunks :: hash(chunks[id].text)
  }

  /** `all` extends the cached vectors by one for each live hash: the vector of some live chunk with that hash. */
  ghost predicate Completes(all: map<string, Vec>, cached: map<string, Vec>, chunks: Chunks, name: string, hash: Hash,
                            embedding: Embedding)
  {
    && all.Keys == cached.Keys + LiveHashes(chunks, hash)
    && (forall h :: h in cached ==> all[h] == cached[h])
    && forall h :: h in all && h !in cached ==> exists id :: VectorOf(all[h], h, id, chunks, name, hash, embedding)
  }

  ghost predicate VectorOf(v: Vec, h: string, id: string, chunks: Chunks, name: string, hash: Hash,
                           embedding: Embedding)
  {
    id in chunks && hash(chunks[id].text) == h && v == embedding(name, chunks[id].text)
  }

  /** `missing` gives a live text for every live hash that is not known. */
  ghost predicate Covers(missing: map<string, string>, known: set<string>, chunks: Chunks, hash: Hash) {
    && missing.Keys == LiveHashes(chunks, hash) - known
    && forall h :: h in missing ==> exists id :: TextOf(missing[h], h, id, chunks, hash)
  }

  ghost predicate TextOf(text: string, h: string, id: string, chunks: Chunks, hash: Hash) {
    id in chunks && hash(chunks[id].text) == h && text == chunks[id].text
  }

  /** `byHash` adds to `cached` the vector of every missing text. */
  ghost predicate Fills(byHash: map<string, Vec>, cached: map<string, Vec>, missing: map<string, string>, name: string,
                        embedding: Embedding)
  {
    && byHash.Keys == cached.Keys + missing.Keys
    && (forall h :: h in cached ==> byHash[h] == cached[h])
    && forall h :: h in missing ==> byHash[h] == embedding(name, missing[h])
  }

  lemma {:induction false} FillsCompletes(byHash: map<string, Vec>, cached: map<string, Vec>,
                                          missing: map<string, string>, chunks: Chunks, name: string, hash: Hash,
                                          embedding: Embedding)
    requires Covers(missing, cached.Keys, chunks, hash) && Fills(byHash, cached, missing, name, embedding)
    ensures Completes(byHash, cached, chunks, name, hash, embedding)
  {
    forall h | h in byHash
      && h !in cached ensures exists id :: VectorOf(byHash[h], h, id, chunks, name, hash, embedding) {
      var id :| TextOf(missing[h], h, id, chunks, hash);
      assert VectorOf(byHash[h], h, id, chunks, name, hash, embedding);
    }
  }

  /** What one call leaves behind. */
  ghost predicate Ensured(before: Files, after: Files, all: map<string, Vec>, chunks: Chunks, name: string, hash: Hash,
                          embedding: Embedding, vectors: map<string, Vec>)
  {
    var cached := Cached(before, name);
    && Completes(all, cached, chunks, name, hash, embedding)
    && vectors == (map id | id in chunks && hash(chunks[id].text) in all :: all[hash(chunks[id].text)])
    && after == if LiveHashes(chunks, hash) <= cached.Keys then before
      else before[SafeName(name) := VectorFile(name, all)]
  }

  lemma {:induction false} VectorsAre(chunks: Chunks, hash: Hash, chunkHash: map<string, string>, all: map<string, Vec>,
                                      vectors: map<string, Vec>)
    requires chunkHash == map id | id in chunks :: hash(chunks[id].text)
    requires vectors == map id | id in chunkHash && chunkHash[id] in all :: all[chunkHash[id]]
    ensures vectors == map id | id in chunks && hash(chunks[id].text) in all :: all[hash(chunks[id].text)]
  {
  }

  lemma {:induction false} FillsEnsures(before: Files, after: Files, missing: map<string, string>,
                                        all: map<string, Vec>, chunks: Chunks, name: string, hash: Hash,
                                        embedding: Embedding, vectors: map<string, Vec>)
    requires var cached := Cached(before, name);
      Covers(missing, cached.Keys, chunks, hash) && Fills(all, cached, missing, name, embedding)
    requires after == if missing == map[] then before else before[SafeName(name) := VectorFile(name, all)]
    requires vectors == map id | id in chunks && hash(chunks[id].text) in all :: all[hash(chunks[id].text)]
    ensures Ensured(before, after, all, chunks, name, hash, embedding, vectors)
  {
    var cached := Cached(before, name);
    FillsCompletes(all, cached, missing, chunks, name, hash, embedding);
    assert missing.Keys == LiveHashes(chunks, hash) - cached.Keys;
    assert missing == map[] <==> missing.Keys == {};
  }

  class VectorIndex {
    const chunksById: Chunks
    const hash: Hash
    var vectors: map<string, Vec>
    var embedderName: Option<string>

    constructor (chunksById: Chunks, hash: Hash)
      ensures this.chunksById == chunksById && this.hash == hash && vectors == map[] && embedderName == None
    {
      this.chunksById, this.hash := chunksById, hash;
      vectors, embedderName := map[], None;
    }

    method EnsureVectors(dir: CacheDir, embedder: Embedder, ghost embedding: Embedding)
      returns (ghost all: map<string, Vec>)
      requires Computes(embedder, embedding)
      modifies this, dir
      ensures Ensured(old(dir.files), dir.files, all, chunksById, embedder.name, hash, embedding, vectors)
      ensures embedderName == Some(embedder.name)
    {
      var chunkHash := map id | id in chunksById :: hash(chunksById[id].text);
      var cached := Cached(dir.files, embedder.name);
      var missing := Missing(chunkHash, cached.Keys);
      var byHash := cached;
      if missing != map[] {
        byHash := EmbedMissing(missing, cached, embedder, embedding);
        dir.files := dir.files[SafeName(embedder.name) := VectorFile(embedder.name, byHash)];
      }
      all := byHash;
      vectors := map id | id in chunkHash && chunkHash[id] in byHash :: byHash[chunkHash[id]];
      embedderName := Some(embedder.name);
      VectorsAre(chunksById, hash, chunkHash, byHash, vectors);
      FillsEnsures(old(dir.files), dir.files, missing, all, chunksById, embedder.name, hash, embedding, vectors);
    }

    /** A text for every hash that has no vector yet; of several texts with the same hash the last one stays. */
    method Missing(chunkHash: map<string, string>, known: set<string>) returns (missing: map<string, string>)
      requires chunkHash == map id | id in chunksById :: hash(chunksById[id].text)
      ensures Covers(missing, known, chunksById, hash)
    {
      missing := map[];
      var todo := chunkHash.Keys;
      while todo != {}
        invariant todo <= chunkHash.Keys
        invariant forall id :: id in chunkHash && id !in todo && chunkHash[id] !in known ==> chunkHash[id] in missing
        invariant forall h :: h in missing ==> h !in known && exists id :: TextOf(missing[h], h, id, chunksById, hash)
        decreases todo
      {
        var id :| id in todo;
        if chunkHash[id] !in known {
          assert TextOf(chunksById[id].text, chunkHash[id], id, chunksById, hash);
          missing := missing[chunkHash[id] := chunksById[id].text];
        }
        todo := todo - {id};
      }
      forall h ensures h in missing <==> h in LiveHashes(chunksById, hash) - known {
        if h in missing {
          var id :| TextOf(missing[h], h, id, chunksById, hash);
        }
        if h in LiveHashes(chunksById, hash) - known {
          var id :| id in chunksById && hash(chunksById[id].text) == h;
          assert chunkHash[id] == h;
        }
      }
    }

    /** Embeds all missing texts in one call and files each vector under its hash. */
    static method EmbedMissing(missing: map<string, string>, cached: map<string, Vec>, embedder: Embedder,
                               ghost embedding: Embedding)
      returns (byHash: map<string, Vec>)
      requires Computes(embedder, embedding) && missing.Keys !! cached.Keys
      ensures Fills(byHash, cached, missing, embedder.name, embedding)
    {
      var hashes := Listed(missing);
      var texts := seq(|hashes|, i requires 0 <= i < |hashes| => missing[hashes[i]]);
      var embedded := embedder.embed(texts);
      assert forall i :: 0 <= i < |hashes| ==> embedded[i] == embedding(embedder.name, texts[i]);
      byHash := Zipped(cached, hashes, embedded);
      forall h | h in missing ensures h in byHash && byHash[h] == embedding(embedder.name, missing[h]) {
        var i :| 0 <= i < |hashes| && hashes[i] == h;
      }
    }

    /** `list(missing)`. */
    static method Listed(missing: map<string, string>) returns (hashes: seq<string>)
      ensures forall h :: h in hashes <==> h in missing
      ensures forall i, j :: 0 <= i < j < |hashes| ==> hashes[i] != hashes[j]
    {
      hashes := [];
      var todo := missing.Keys;
      while todo != {}
        invariant todo <= missing.Keys
        invariant forall h :: h in hashes <==> h in missing && h !in todo
        invariant forall i, j :: 0 <= i < j < |hashes| ==> hashes[i] != hashes[j]
        decreases todo
      {
        var h :| h in todo;
        hashes, todo := hashes + [h], todo - {h};
      }
    }

    static method Zipped(cached: map<string, Vec>, hashes: seq<string>, embedded: seq<Vec>)
      returns (byHash: map<string, Vec>)
      requires |embedded| == |hashes| && forall i, j :: 0 <= i < j < |hashes| ==> hashes[i] != hashes[j]
      requires forall h :: h in hashes ==> h !in cached
      ensures forall h :: h in byHash <==> h in cached || h in hashes
      ensures forall h :: h in cached ==> byHash[h] == cached[h]
      ensures forall i :: 0 <= i < |hashes| ==> hashes[i] in byHash && byHash[hashes[i]] == embedded[i]
    {
      byHash := cached;
      for i := 0 to |hashes|
        invariant forall h :: h in byHash <==> h in cached || h in hashes[..i]
        invariant forall h :: h in cached ==> byHash[h] == cached[h]
        invariant forall j :: 0 <= j < i ==> hashes[j] in byHash && byHash[hashes[j]] == embedded[j]
      {
        byHash := byHash[hashes[i] := embedded[i]];
      }
    }
  }

  // ---- what the vectors are ----

  ghost predicate Right(vectors: map<string, Vec>, chunks: Chunks, name: string, embedding: Embedding) {
    vectors.Keys == chunks.Keys && forall id :: id in chunks ==> vectors[id] == embedding(name, chunks[id].text)
  }

  /** A cached vector found under the hash of a live text is the vector of that text. */
  ghost predicate CacheFits(cached: map<string, Vec>, chunks: Chunks, name: string, hash: Hash, embedding: Embedding) {
    forall id :: id in chunks && hash(chunks[id].text) in cached ==>
      cached[hash(chunks[id].text)] == embedding(name, chunks[id].text)
  }

  /** Live texts that share a hash that is not cached share their vector. */
  ghost predicate LiveApart(cached: map<string, Vec>, chunks: Chunks, name: string, hash: Hash, embedding: Embedding) {
    forall a, b :: a in chunks && b in chunks && hash(chunks[a].text) == hash(chunks[b].text)
      && hash(chunks[a].text) !in cached
      ==> embedding(name, chunks[a].text) == embedding(name, chunks[b].text)
  }

  /** Every live chunk gets a vector, and all of them are right exactly when no hash is shared by texts that differ. */
  lemma {:induction false} RightExactlyWhen(before: Files, after: Files, all: map<string, Vec>, chunks: Chunks,
                                            name: string, hash: Hash, embedding: Embedding, vectors: map<string, Vec>)
    requires Ensured(before, after, all, chunks, name, hash, embedding, vectors)
    ensures vectors.Keys == chunks.Keys
    ensures Right(vectors, chunks, name, embedding) <==>
      CacheFits(Cached(before, name), chunks, name, hash, embedding)
        && LiveApart(Cached(before, name), chunks, name, hash, embedding)
  {
    var cached := Cached(before, name);
    forall id | id in chunks ensures id in vectors && vectors[id] == all[hash(chunks[id].text)] {
      assert hash(chunks[id].text) in LiveHashes(chunks, hash);
    }
    if CacheFits(cached, chunks, name, hash, embedding) && LiveApart(cached, chunks, name, hash, embedding) {
      forall id | id in chunks ensures vectors[id] == embedding(name, chunks[id].text) {
        var h := hash(chunks[id].text);
        if h !in cached {
          var other :| VectorOf(all[h], h, other, chunks, name, hash, embedding);
        }
      }
    }
  }

  // ---- the cache over all runs ----

  /** The hash never confuses texts that an embedder tells apart. */
  ghost predicate Separates(hash: Hash, embedding: Embedding) {
    forall name, t, u :: hash(t) == hash(u) ==> embedding(name, t) == embedding(name, u)
  }

  ghost predicate GoodVectors(vectors: map<string, Vec>, name: string, hash: Hash, embedding: Embedding) {
    forall t :: hash(t) in vectors ==> vectors[hash(t)] == embedding(name, t)
  }

  /** Every readable file holds vectors of the embedder it names, whatever embedder its file name suggests. */
  ghost predicate GoodFiles(files: Files, hash: Hash, embedding: Embedding) {
    forall slot :: slot in files && files[slot].VectorFile? ==>
      GoodVectors(files[slot].vectors, files[slot].embedder, hash, embedding)
  }

  lemma {:induction false} EnsuredKeeps(before: Files, after: Files, all: map<string, Vec>, chunks: Chunks,
                                        name: string, hash: Hash, embedding: Embedding, vectors: map<string, Vec>)
    requires Ensured(before, after, all, chunks, name, hash, embedding, vectors)
    requires Separates(hash, embedding) && GoodFiles(before, hash, embedding)
    ensures GoodFiles(after, hash, embedding) && Right(vectors, chunks, name, embedding)
  {
    var cached := Cached(before, name);
    assert GoodVectors(cached, name, hash, embedding);
    forall t | hash(t) in all ensures all[hash(t)] == embedding(name, t) {
      if hash(t) !in cached {
        var id :| VectorOf(all[hash(t)], hash(t), id, chunks, name, hash, embedding);
      }
    }
    RightExactlyWhen(before, after, all, chunks, name, hash, embedding, vectors);
  }

  /** What happens to the cache directory: a call for some state of the vault and some embedder, or a file is lost. */
  datatype Event =
    | Call(chunks: Chunks, name: string, all: map<string, Vec>, vectors: map<string, Vec>)
    | Lose(slot: string)
    | Damage(slot: string)

  ghost predicate Happens(before: Files, after: Files, e: Event, hash: Hash, embedding: Embedding) {
    match e
    case Call(chunks, name, all, vectors) => Ensured(before, after, all, chunks, name, hash, embedding, vectors)
    case Lose(slot) => after == before - {slot}
    case Damage(slot) => after == before[slot := Damaged]
  }

  /** A history of the directory from the empty one. */
  ghost predicate History(states: seq<Files>, events: seq<Event>, hash: Hash, embedding: Embedding) {
    && |states| == |events| + 1 && states[0] == map[]
    && forall i, j :: 0 <= i < |events| && j == i + 1 ==> Happens(states[i], states[j], events[i], hash, embedding)
  }

  lemma {:induction false} HistoryKeeps(states: seq<Files>, events: seq<Event>, hash: Hash, embedding: Embedding,
                                        n: nat)
    requires History(states, events, hash, embedding) && Separates(hash, embedding) && n < |states|
    ensures GoodFiles(states[n], hash, embedding)
  {
    for i := 0 to n
      invariant GoodFiles(states[i], hash, embedding)
    {
      var e, j := events[i], i + 1;
      assert Happens(states[i], states[j], e, hash, embedding);
      if e.Call? { EnsuredKeeps(states[i], states[j], e.all, e.chunks, e.name, hash, embedding, e.vectors); }
    }
  }

  /** Whatever calls, losses and damages came before, each call gives every live chunk the vector of its own text. */
  lemma {:induction false} EveryCallIsRight(states: seq<Files>, events: seq<Event>, hash: Hash, embedding: Embedding,
                                            i: nat)
    requires History(states, events, hash, embedding) && Separates(hash, embedding) && i < |events| && events[i].Call?
    ensures Right(events[i].vectors, events[i].chunks, events[i].name, embedding)
  {
    var e, j := events[i], i + 1;
    HistoryKeeps(states, events, hash, embedding, i);
    assert Happens(states[i], states[j], e, hash, embedding);
    EnsuredKeeps(states[i], states[j], e.all, e.chunks, e.name, hash, embedding, e.vectors);
  }

  /** Different embedders can share a file, as `org/model` and `org:model` do.  The recorded name keeps them apart:
      after a call for `name` the cache holds for `name` all its vectors, and for any other embedder what it held
      before, or nothing if the two share a file and the file was rewritten. */
  lemma {:induction false} NamesKeptApart(before: Files, after: Files, all: map<string, Vec>, chunks: Chunks,
                                          name: string, hash: Hash, embedding: Embedding, vectors: map<string, Vec>,
                                          other: string)
    requires Ensured(before, after, all, chunks, name, hash, embedding, vectors) && other != name
    ensures Cached(after, name) == all
    ensures Cached(after, other) ==
      if SafeName(other) == SafeName(name) && !(LiveHashes(chunks, hash) <= Cached(before, name).Keys) then map[]
      else Cached(before, other)
    ensures SafeName("org/model") == SafeName("org:model")
  {
    if LiveHashes(chunks, hash) <= Cached(before, name).Keys { assert all.Keys == Cached(before, name).Keys; }
    assert SafeName("org/model") == "org_model" == SafeName("org:model");
  }
}
