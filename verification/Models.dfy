/** The records of the Obsidian engine and the dictionaries they are cached as. */
module Models {
  import opened Text
  import opened Wrappers

  datatype Chunk = Chunk(notePath: string, chunkId: string, index: nat, heading: string, text: string,
                         startLine: nat, tokens: nat)

  /** Cheap token estimate: four characters a token, at least one. */
  function ApproxTokens(text: string): nat {
    if |text| / 4 < 1 then 1 else |text| / 4
  }

  lemma {:induction false} ApproxTokensIs(text: string)
    ensures var t := ApproxTokens(text); t >= 1 && |text| < 4 * (t + 1) && (t > 1 ==> 4 * t <= |text|)
  {
  }

  function ChunkId(path: string, idx: nat): string {
    path + "#" + Decimal(idx)
  }

  /** The part after the last `#` is the number, so path and index can both be read off an id. */
  lemma {:induction false} ChunkIdInjective(p: string, i: nat, q: string, j: nat)
    requires ChunkId(p, i) == ChunkId(q, j)
    ensures p == q && i == j
  {
    var s, a, b := ChunkId(p, i), Decimal(i), Decimal(j);
    assert !IsDigit('#');
    assert s[|p|] == '#' && s[|q|] == '#';
    assert forall x :: 0 <= x < |a| ==> s[|p| + 1 + x] == a[x];
    assert forall x :: 0 <= x < |b| ==> s[|q| + 1 + x] == b[x];
    assert |p| == |q|;
    assert p == s[..|p|] == q;
    assert a == s[|p| + 1..] == b;
    DecimalInjective(i, j);
  }

  // ---- notes ----

  /** A JSON value: what the cache file and the front matter of a note are made of. */
  datatype Json =
    | Null | Bool(b: bool) | Num(x: real) | Str(s: string) | Arr(items: seq<Json>) | Obj(fields: map<string, Json>)

  datatype Note = Note(path: string, title: string, frontmatter: map<string, Json>, tags: seq<string>,
                       wikilinks: seq<string>, headings: seq<string>, body: string, chunks: seq<Chunk>,
                       mtime: real, size: nat, wordCount: nat)

  // ---- Note.to_dict and Chunk.to_dict ----

  function Strings(ss: seq<string>): Json {
    Arr(seq(|ss|, i requires 0 <= i < |ss| => Str(ss[i])))
  }

  /** The index of a chunk and the path of its note are not stored. */
  function ChunkToDict(c: Chunk): Json {
    Obj(map["chunk_id" := Str(c.chunkId), "heading" := Str(c.heading), "text" := Str(c.text),
            "start_line" := Num(c.startLine as real), "tokens" := Num(c.tokens as real)])
  }

  function NoteToDict(n: Note): map<string, Json> {
    map["path" := Str(n.path), "title" := Str(n.title), "frontmatter" := Obj(n.frontmatter),
        "tags" := Strings(n.tags), "wikilinks" := Strings(n.wikilinks), "headings" := Strings(n.headings),
        "body" := Str(n.body),
        "chunks" := Arr(seq(|n.chunks|, i requires 0 <= i < |n.chunks| => ChunkToDict(n.chunks[i]))),
        "mtime" := Num(n.mtime), "size" := Num(n.size as real), "word_count" := Num(n.wordCount as real)]
  }

  // ---- Note.from_dict: `d.get(key, default)`, and a KeyError when a required key is missing ----

  function GetStr(d: map<string, Json>, key: string): string {
    if key in d && d[key].Str? then d[key].s else ""
  }

  function GetNat(d: map<string, Json>, key: string): nat {
    if key in d && d[key].Num? && d[key].x >= 0.0 then d[key].x.Floor else 0
  }

  function GetReal(d: map<string, Json>, key: string): real {
    if key in d && d[key].Num? then d[key].x else 0.0
  }

  function GetItems(d: map<string, Json>, key: string): seq<Json> {
    if key in d && d[key].Arr? then d[key].items else []
  }

  function GetStrings(d: map<string, Json>, key: string): seq<string> {
    var items := GetItems(d, key);
    seq(|items|, i requires 0 <= i < |items| => if items[i].Str? then items[i].s else "")
  }

  function GetObj(d: map<string, Json>, key: string): map<string, Json> {
    if key in d && d[key].Obj? then d[key].fields else map[]
  }

  /** The chunk at position `i`; `None` stands for the KeyError when its id is missing. */
  function ChunkFromDict(path: string, i: nat, v: Json): Option<Chunk> {
    var d := if v.Obj? then v.fields else map[];
    if "chunk_id" !in d then None
    else Some(Chunk(path, GetStr(d, "chunk_id"), i, GetStr(d, "heading"), GetStr(d, "text"),
                    GetNat(d, "start_line"), GetNat(d, "tokens")))
  }

  function ChunksFromDict(path: string, i: nat, items: seq<Json>): Option<seq<Chunk>>
    decreases |items|
  {
    if items == [] then Some([])
    else match (ChunkFromDict(path, i, items[0]), ChunksFromDict(path, i + 1, items[1..]))
      case (Some(c), Some(cs)) => Some([c] + cs)
      case _ => None
  }

  function NoteFromDict(d: map<string, Json>): Option<Note> {
    if "path" !in d then None
    else
      match ChunksFromDict(GetStr(d, "path"), 0, GetItems(d, "chunks"))
      case None => None
      case Some(chunks) =>
        Some(Note(GetStr(d, "path"), GetStr(d, "title"), GetObj(d, "frontmatter"), GetStrings(d, "tags"),
                  GetStrings(d, "wikilinks"), GetStrings(d, "headings"), GetStr(d, "body"), chunks,
                  GetReal(d, "mtime"), GetNat(d, "size"), GetNat(d, "word_count")))
  }

  // ---- the round trip ----

  /** Chunk `i` says it is chunk `i` of this note: what a parsed note satisfies. */
  ghost predicate Canonical(n: Note) {
    forall i :: 0 <= i < |n.chunks| ==> n.chunks[i].notePath == n.path && n.chunks[i].index == i
  }

  /** What reading back makes of a chunk: the same chunk with its place filled in. */
  function Placed(path: string, i: nat, c: Chunk): Chunk {
    c.(notePath := path, index := i)
  }

  lemma {:induction false} ChunkRoundTrip(path: string, i: nat, c: Chunk)
    ensures ChunkFromDict(path, i, ChunkToDict(c)) == Some(Placed(path, i, c))
  {
  }

  function PlacedAll(path: string, i: nat, cs: seq<Chunk>): seq<Chunk>
    decreases |cs|
  {
    if cs == [] then [] else [Placed(path, i, cs[0])] + PlacedAll(path, i + 1, cs[1..])
  }

  lemma {:induction false} ChunksRoundTrip(path: string, i: nat, cs: seq<Chunk>, items: seq<Json>)
    requires |items| == |cs| && forall k :: 0 <= k < |cs| ==> items[k] == ChunkToDict(cs[k])
    ensures ChunksFromDict(path, i, items) == Some(PlacedAll(path, i, cs))
    decreases |cs|
  {
    if cs != [] {
      ChunkRoundTrip(path, i, cs[0]);
      ChunksRoundTrip(path, i + 1, cs[1..], items[1..]);
    }
  }

  lemma {:induction false} PlacedAllSame(path: string, i: nat, cs: seq<Chunk>)
    ensures PlacedAll(path, i, cs) == cs
      <==> forall k :: 0 <= k < |cs| ==> cs[k].notePath == path && cs[k].index == i + k
    decreases |cs|
  {
    if cs != [] {
      var rest := cs[1..];
      PlacedAllSame(path, i + 1, rest);
      assert cs == [cs[0]] + rest;
      assert PlacedAll(path, i, cs) == cs <==>
        Placed(path, i, cs[0]) == cs[0] && PlacedAll(path, i + 1, rest) == rest by {
        assert PlacedAll(path, i, cs)[1..] == PlacedAll(path, i + 1, rest);
      }
      assert forall k :: 1 <= k < |cs| ==> cs[k] == rest[k - 1];
      assert forall k :: 0 <= k < |rest| ==> rest[k] == cs[k + 1];
    }
  }

  lemma {:induction false} StringsRoundTrip(d: map<string, Json>, key: string, ss: seq<string>)
    requires key in d && d[key] == Strings(ss)
    ensures GetStrings(d, key) == ss
  {
  }

  /** What the dictionary of a note holds under each key. */
  ghost predicate Entries(d: map<string, Json>, n: Note) {
    && "path" in d && GetStr(d, "path") == n.path && GetStr(d, "title") == n.title
      && GetObj(d, "frontmatter") == n.frontmatter
    && "tags" in d && d["tags"] == Strings(n.tags)
    && "wikilinks" in d && d["wikilinks"] == Strings(n.wikilinks)
    && "headings" in d && d["headings"] == Strings(n.headings)
    && GetStr(d, "body") == n.body
    && |GetItems(d, "chunks")| == |n.chunks|
    && (forall k :: 0 <= k < |n.chunks| ==> GetItems(d, "chunks")[k] == ChunkToDict(n.chunks[k]))
    && GetReal(d, "mtime") == n.mtime && GetNat(d, "size") == n.size && GetNat(d, "word_count") == n.wordCount
  }

  lemma {:induction false} NoteEntries(n: Note)
    ensures Entries(NoteToDict(n), n)
  {
  }

  /** Reading back fills in the place of every chunk and changes nothing else. */
  lemma {:induction false} NoteReadBack(d: map<string, Json>, n: Note)
    requires Entries(d, n)
    ensures NoteFromDict(d) == Some(n.(chunks := PlacedAll(n.path, 0, n.chunks)))
  {
    StringsRoundTrip(d, "tags", n.tags);
    StringsRoundTrip(d, "wikilinks", n.wikilinks);
    StringsRoundTrip(d, "headings", n.headings);
    ChunksRoundTrip(n.path, 0, n.chunks, GetItems(d, "chunks"));
  }

  /** Reading a cached note gives the note back exactly when its chunks know their own place. */
  lemma {:induction false} NoteRoundTrip(n: Note)
    ensures NoteFromDict(NoteToDict(n)) == Some(n) <==> Canonical(n)
  {
    NoteEntries(n);
    NoteReadBack(NoteToDict(n), n);
    PlacedAllSame(n.path, 0, n.chunks);
    assert n.(chunks := PlacedAll(n.path, 0, n.chunks)).chunks == PlacedAll(n.path, 0, n.chunks);
  }

  // ---- chunk ids ----

  ghost predicate OwnIds(n: Note) {
    forall i :: 0 <= i < |n.chunks| ==> n.chunks[i].chunkId == ChunkId(n.path, i)
  }

  ghost predicate DistinctPaths(notes: seq<Note>) {
    forall i, j :: 0 <= i < j < |notes| ==> notes[i].path != notes[j].path
  }

  function AllChunks(notes: seq<Note>): seq<Chunk> {
    if notes == [] then [] else AllChunks(notes[..|notes| - 1]) + notes[|notes| - 1].chunks
  }

  ghost predicate DistinctIds(cs: seq<Chunk>) {
    forall i, j :: 0 <= i < j < |cs| ==> cs[i].chunkId != cs[j].chunkId
  }

  lemma {:induction false} ChunkOwner(notes: seq<Note>, k: nat) returns (i: nat, j: nat)
    requires k < |AllChunks(notes)|
    ensures i < |notes| && j < |notes[i].chunks| && AllChunks(notes)[k] == notes[i].chunks[j]
  {
    var front := notes[..|notes| - 1];
    if k < |AllChunks(front)| {
      i, j := ChunkOwner(front, k);
    } else {
      i, j := |notes| - 1, k - |AllChunks(front)|;
    }
  }

  /** Over notes with distinct paths no two chunks share an id. */
  lemma {:induction false} ChunkIdsDistinct(notes: seq<Note>)
    requires DistinctPaths(notes) && forall n :: n in notes ==> OwnIds(n)
    ensures DistinctIds(AllChunks(notes))
  {
    if notes != [] {
      var front, last := notes[..|notes| - 1], notes[|notes| - 1];
      ChunkIdsDistinct(front);
      var cs := AllChunks(notes);
      forall x, y | 0 <= x < y < |cs| ensures cs[x].chunkId != cs[y].chunkId {
        if y >= |AllChunks(front)| {
          var j := y - |AllChunks(front)|;
          if x >= |AllChunks(front)| {
            DistinctWithin(last, x - |AllChunks(front)|, j);
          } else {
            var i, k := ChunkOwner(front, x);
            DistinctAcross(front[i], k, last, j);
          }
        }
      }
    }
  }

  lemma {:induction false} DistinctWithin(n: Note, i: nat, j: nat)
    requires OwnIds(n) && i < j < |n.chunks|
    ensures n.chunks[i].chunkId != n.chunks[j].chunkId
  {
    if ChunkId(n.path, i) == ChunkId(n.path, j) { ChunkIdInjective(n.path, i, n.path, j); }
  }

  lemma {:induction false} DistinctAcross(m: Note, i: nat, n: Note, j: nat)
    requires OwnIds(m) && OwnIds(n) && m.path != n.path && i < |m.chunks| && j < |n.chunks|
    ensures m.chunks[i].chunkId != n.chunks[j].chunkId
  {
    if ChunkId(m.path, i) == ChunkId(n.path, j) { ChunkIdInjective(m.path, i, n.path, j); }
  }

  /** The dictionary from chunk id to chunk; a later chunk replaces an earlier one of the same id. */
  function ById(cs: seq<Chunk>): map<string, Chunk> {
    if cs == [] then map[] else ById(cs[..|cs| - 1])[cs[|cs| - 1].chunkId := cs[|cs| - 1]]
  }

  lemma {:induction false} ByIdKeys(cs: seq<Chunk>)
    ensures forall id :: id in ById(cs) <==> exists i :: 0 <= i < |cs| && cs[i].chunkId == id
    ensures forall id :: id in ById(cs) ==> ById(cs)[id] in cs && ById(cs)[id].chunkId == id
  {
    if cs != [] {
      var front, last := cs[..|cs| - 1], cs[|cs| - 1];
      ByIdKeys(front);
      assert cs == front + [last];
      forall id ensures id in ById(cs) <==> exists i :: 0 <= i < |cs| && cs[i].chunkId == id {
        if id in ById(front) {
          var i :| 0 <= i < |front| && front[i].chunkId == id;
          assert cs[i].chunkId == id;
        }
      }
    }
  }

  /** With distinct ids the dictionary drops no chunk. */
  lemma {:induction false} ByIdKeepsAll(cs: seq<Chunk>)
    requires DistinctIds(cs)
    ensures |ById(cs)| == |cs|
    ensures forall i :: 0 <= i < |cs| ==> cs[i].chunkId in ById(cs) && ById(cs)[cs[i].chunkId] == cs[i]
  {
    if cs != [] {
      var front, last := cs[..|cs| - 1], cs[|cs| - 1];
      assert forall i :: 0 <= i < |front| ==> cs[i] == front[i];
      ByIdKeepsAll(front);
      if last.chunkId in ById(front) { ByIdKeys(front); }
      AddedKey(ById(front), last.chunkId, last);
    }
  }

  lemma {:induction false} AddedKey<T>(m: map<string, T>, k: string, v: T)
    requires k !in m
    ensures |m[k := v]| == |m| + 1
  {
    assert m[k := v].Keys == m.Keys + {k};
    assert |m[k := v].Keys| == |m.Keys| + 1;
  }
}
