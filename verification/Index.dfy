/** `VaultIndex.build`: the notes of a vault with their lexical index and their hypergraph. */
module Index {
  import opened Models
  import opened BM25
  import opened GraphIndex
  import opened Building
  import opened BuiltGraph
  import VaultCache
  import VaultRefresh

  function Docs(chunks: seq<Chunk>): seq<(string, string)> {
    seq(|chunks|, i requires 0 <= i < |chunks| => (chunks[i].chunkId, chunks[i].text))
  }

  /** The notes are those of a parsed vault. */
  ghost predicate Parsed(notes: seq<Note>) {
    DistinctPaths(notes) && forall n :: n in notes ==> Canonical(n) && OwnIds(n)
  }

  /** Every indexed chunk is filed under its own id and is a chunk of an indexed note, the one it names. */
  ghost predicate Homed(chunksById: map<string, Chunk>, byPath: map<string, Note>) {
    && (forall id :: id in chunksById ==>
         chunksById[id].chunkId == id && chunksById[id].notePath in byPath
           && chunksById[id] in byPath[chunksById[id].notePath].chunks)
    && forall p :: p in byPath ==> byPath[p].path == p && OwnIds(byPath[p])
  }

  lemma {:induction false} ParsedHomed(notes: seq<Note>)
    requires Parsed(notes)
    ensures Homed(ById(AllChunks(notes)), VaultCache.ByPath(notes))
  {
    var cs := AllChunks(notes);
    ByIdKeys(cs);
    VaultCache.ByPathOf(notes);
    forall id | id in ById(cs) ensures var c := ById(cs)[id];
      c.chunkId == id && c.notePath in VaultCache.ByPath(notes) && c in VaultCache.ByPath(notes)[c.notePath].chunks
    {
      var k :| 0 <= k < |cs| && cs[k] == ById(cs)[id];
      var i, j := ChunkOwner(notes, k);
      assert notes[i] in notes;
      VaultRefresh.DistinctByPath(notes, notes[i]);
    }
  }

  /** Whatever happened on the disk and in the cache: the notes a refresh ends with are those of a parsed vault, so the
      index can be built of them and searched. */
  lemma {:induction false} BuiltIsParsed(parse: VaultCache.Parser, steps: seq<VaultCache.Step>)
    requires VaultCache.Faithful(parse) && VaultCache.Possible(parse, steps)
    requires VaultCache.Final(parse, steps).phase.Built?
    ensures var notes := VaultCache.Final(parse, steps).phase.notes; Parsed(notes) && WellFormed(notes)
  {
    VaultRefresh.RunSettles(parse, steps);
  }

  class VaultIndex {
    const notes: seq<Note>
    const chunksById: map<string, Chunk>
    const byPath: map<string, Note>
    const bm25: BM25Index
    const graph: Graph

    ghost predicate Valid()
      reads this, bm25, graph
    {
      && chunksById == ById(AllChunks(notes)) && byPath == VaultCache.ByPath(notes)
      && bm25.Indexes(Docs(AllChunks(notes))) && graph.Valid()
    }

    constructor (notes: seq<Note>, params: Params, tokenize: string -> seq<string>, lower: string -> string)
      ensures Valid() && this.notes == notes && bm25.params == params && bm25.tokenize == tokenize
      ensures GraphOf(graph.edges, notes, lower) && (WellFormed(notes) ==> AllSound(graph.edges, notes))
    {
      var chunks := AllChunks(notes);
      var lexical := new BM25Index(params, tokenize);
      lexical.Build(Docs(chunks));
      var edges := Build(notes, lower);
      if WellFormed(notes) { BuiltSound(edges, notes, lower); }
      var hypergraph := new Graph(edges);
      this.notes, this.bm25, this.graph := notes, lexical, hypergraph;
      this.chunksById, this.byPath := ById(chunks), VaultCache.ByPath(notes);
    }
  }
}
