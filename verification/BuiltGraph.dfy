/** What the edges of `build_hypergraph` mean for the notes they were built from. */
module BuiltGraph {
  import opened Sorting
  import opened HyperGraph
  import opened Models
  import opened Sums
  import opened Building
  import Spreading

  /** Tags are deduplicated when a note is parsed, and a vault holds each path once. */
  ghost predicate WellFormed(notes: seq<Note>) {
    DistinctPaths(notes) && forall n :: n in notes ==> Distinct(n.tags)
  }

  /** The members of `e` are the notes `s`, sorted, each once, and there are at least two. */
  ghost predicate Joins(e: HyperEdge, s: set<string>) {
    |e.members| >= 2 && Distinct(e.members) && Ordered(e.members, StrLe) && forall p :: p in e.members <==> p in s
  }

  ghost function Tagged(notes: seq<Note>, tag: string): set<string> {
    set n | n in notes && tag in n.tags :: n.path
  }

  /** `path` is a file of `folder`; the root has no name. */
  ghost predicate LiesIn(path: string, folder: string) {
    (folder == "" && '/' !in path) || exists name :: '/' !in name && path == folder + "/" + name
  }

  ghost function InFolder(notes: seq<Note>, folder: string): set<string> {
    set n | n in notes && LiesIn(n.path, folder) :: n.path
  }

  /** The notes other than `n` that its links lead to. */
  ghost function LinkedTo(n: Note, resolver: map<string, string>, lower: string -> string): set<string> {
    set link | link in n.wikilinks && Follows(n, link, resolver, lower) :: resolver[lower(link)]
  }

  // ---- extract_tags ----

  function NonEmpty(found: seq<string>): seq<string> {
    if found == [] then []
    else NonEmpty(found[..|found| - 1]) + if found[|found| - 1] != "" then [found[|found| - 1]] else []
  }

  /** `sorted(t for t in tags if t)` over the set of all tags found in the front matter and in the text. */
  function ExtractTags(found: seq<string>): seq<string> {
    Sorted(NonEmpty(Unique(found)), StrLe)
  }

  lemma {:induction false} NonEmptyKeeps(found: seq<string>)
    requires Distinct(found)
    ensures Distinct(NonEmpty(found)) && forall t :: t in NonEmpty(found) <==> t in found && t != ""
  {
    if found != [] {
      var front, last := found[..|found| - 1], found[|found| - 1];
      assert found == front + [last];
      NonEmptyKeeps(front);
      assert last !in front;
      if last != "" { DistinctGrows(NonEmpty(front), last); }
    }
  }

  /** The tags of a note are all the non-empty tags found, each once, in order. */
  lemma {:induction false} TagsDistinct(found: seq<string>)
    ensures Distinct(ExtractTags(found)) && Ordered(ExtractTags(found), StrLe)
    ensures forall t :: t in ExtractTags(found) <==> t in found && t != ""
  {
    var kept := NonEmpty(Unique(found));
    UniqueIs(found);
    NonEmptyKeeps(Unique(found));
    StrLeOrders();
    SortedIsSort(kept, StrLe);
    DistinctMultiset(kept);
    DistinctMultiset(ExtractTags(found));
    forall t ensures t in ExtractTags(found) <==> t in kept {
      assert t in multiset(ExtractTags(found)) <==> t in multiset(kept);
    }
  }

  // ---- filed pairs ----

  lemma {:induction false} FiledAre(pairs: Pairs, k: string, p: string)
    ensures p in FiledUnder(pairs, k) <==> (k, p) in pairs
  {
    if pairs != [] {
      var front, last := pairs[..|pairs| - 1], pairs[|pairs| - 1];
      assert pairs == front + [last];
      FiledAre(front, k, p);
    }
  }

  lemma {:induction false} DistinctGrows<T(!new)>(a: seq<T>, x: T)
    requires Distinct(a) && x !in a
    ensures Distinct(a + [x])
  {
  }

  lemma {:induction false} FiledDistinct(pairs: Pairs, k: string)
    requires Distinct(pairs)
    ensures Distinct(FiledUnder(pairs, k))
  {
    if pairs != [] {
      var front, last := pairs[..|pairs| - 1], pairs[|pairs| - 1];
      FiledDistinct(front, k);
      if last.0 == k {
        FiledAre(front, k, last.1);
        assert (k, last.1) == last;
        DistinctGrows(FiledUnder(front, k), last.1);
      }
    }
  }

  lemma {:induction false} SortedJoins(paths: seq<string>, e: HyperEdge, s: set<string>)
    requires Distinct(paths) && |paths| >= 2 && e.members == Sorted(paths, StrLe)
    requires forall p :: p in paths <==> p in s
    ensures Joins(e, s)
  {
    StrLeOrders();
    SortedIsSort(paths, StrLe);
    DistinctMultiset(paths);
    DistinctMultiset(e.members);
    forall p ensures p in e.members <==> p in s {
      assert p in multiset(e.members) <==> p in multiset(paths);
    }
  }

  /** `e` is the edge of one key of `pairs`. */
  ghost predicate KeyEdge(how: Grouping, pairs: Pairs, key: string, e: HyperEdge) {
    |FiledUnder(pairs, key)| >= 2 && e == GroupEdge(how, key, FiledUnder(pairs, key))
  }

  ghost predicate KeyEdgeAmong(how: Grouping, pairs: Pairs, keys: seq<string>, n: nat, e: HyperEdge)
    requires n <= |keys|
  {
    exists i :: 0 <= i < n && KeyEdge(how, pairs, keys[i], e)
  }

  lemma {:induction false} KeyEdgeStep(how: Grouping, pairs: Pairs, keys: seq<string>, n: nat, e: HyperEdge)
    requires n < |keys|
    ensures KeyEdgeAmong(how, pairs, keys, n + 1, e) <==>
      KeyEdgeAmong(how, pairs, keys, n, e) || KeyEdge(how, pairs, keys[n], e)
  {
    if KeyEdgeAmong(how, pairs, keys, n, e) {
      var i :| 0 <= i < n && KeyEdge(how, pairs, keys[i], e);
      assert 0 <= i < n + 1;
    }
  }

  lemma {:induction false} GroupOfIs(how: Grouping, pairs: Pairs, key: string, e: HyperEdge)
    ensures e in GroupOf(how, key, FiledUnder(pairs, key)) <==> KeyEdge(how, pairs, key, e)
  {
  }

  lemma {:induction false} GroupEdgesAre(how: Grouping, pairs: Pairs, keys: seq<string>, n: nat, e: HyperEdge)
    requires n <= |keys|
    ensures e in GroupEdges(how, pairs, keys, n) <==> KeyEdgeAmong(how, pairs, keys, n, e)
  {
    var es: Edges := [];
    for i := 0 to n
      invariant es == GroupEdges(how, pairs, keys, i) && (e in es <==> KeyEdgeAmong(how, pairs, keys, i, e))
    {
      var more := GroupOf(how, keys[i], FiledUnder(pairs, keys[i]));
      KeyEdgeStep(how, pairs, keys, i, e);
      GroupEdgesStep(how, pairs, keys, i, es, more);
      GroupOfIs(how, pairs, keys[i], e);
      es := es + more;
    }
  }

  /** Every key with two entries has its edge, and there are no others. */
  lemma {:induction false} GroupsAre(how: Grouping, pairs: Pairs, e: HyperEdge)
    ensures e in GroupsOf(how, pairs) <==> exists key :: KeyEdge(how, pairs, key, e)
  {
    var keys := Unique(Firsts(pairs));
    GroupEdgesAre(how, pairs, keys, |keys|, e);
    UniqueIs(Firsts(pairs));
    if e in GroupsOf(how, pairs) {
      var i :| 0 <= i < |keys| && KeyEdge(how, pairs, keys[i], e);
    }
    if key :| KeyEdge(how, pairs, key, e) {
      if key !in Firsts(pairs) { NotFiled(pairs, key); }
      assert key in keys;
    }
  }

  lemma {:induction false} KeyEdgeJoins(how: Grouping, pairs: Pairs, key: string, e: HyperEdge, s: set<string>)
    requires Distinct(pairs) && forall p :: (key, p) in pairs <==> p in s
    ensures KeyEdge(how, pairs, key, e) ==> Joins(e, s)
    ensures |FiledUnder(pairs, key)| == |s|
  {
    var paths := FiledUnder(pairs, key);
    FiledDistinct(pairs, key);
    forall p ensures p in paths <==> p in s { FiledAre(pairs, key, p); }
    DistinctSetSize(paths);
    assert (set p | p in paths) == s;
    if KeyEdge(how, pairs, key, e) { SortedJoins(paths, e, s); }
  }

  // ---- tags ----

  lemma {:induction false} TagsFiledAre(n: Note, j: nat, filed: string -> bool, t: string, p: string)
    requires j <= |n.tags|
    ensures (t, p) in TagsFiled(n, j, filed) <==> p == n.path && filed(t) && t in n.tags[..j]
  {
    if j > 0 {
      TagsFiledAre(n, j - 1, filed, t, p);
      assert n.tags[..j] == n.tags[..j - 1] + [n.tags[j - 1]];
    }
  }

  lemma {:induction false} TagsFiledDistinct(n: Note, j: nat, filed: string -> bool)
    requires j <= |n.tags| && Distinct(n.tags)
    ensures Distinct(TagsFiled(n, j, filed))
  {
    if j > 0 {
      TagsFiledDistinct(n, j - 1, filed);
      TagsFiledAre(n, j - 1, filed, n.tags[j - 1], n.path);
      if filed(n.tags[j - 1]) { DistinctGrows(TagsFiled(n, j - 1, filed), (n.tags[j - 1], n.path)); }
    }
  }

  ghost predicate TagPair(notes: seq<Note>, i: nat, filed: string -> bool, t: string, p: string)
    requires i <= |notes|
  {
    filed(t) && exists m :: 0 <= m < i && notes[m].path == p && t in notes[m].tags
  }

  lemma {:induction false} TagPairsStep(notes: seq<Note>, i: nat, filed: string -> bool, t: string, p: string)
    requires i < |notes|
    ensures (t, p) in TagPairs(notes, i + 1, filed)
      <==> (t, p) in TagPairs(notes, i, filed) || (p == notes[i].path && filed(t) && t in notes[i].tags)
  {
    var n := notes[i];
    TagsFiledAre(n, |n.tags|, filed, t, p);
    assert n.tags[..|n.tags|] == n.tags;
  }

  lemma {:induction false} TagPairStep(notes: seq<Note>, i: nat, filed: string -> bool, t: string, p: string)
    requires i < |notes|
    ensures TagPair(notes, i + 1, filed, t, p)
      <==> TagPair(notes, i, filed, t, p) || (p == notes[i].path && filed(t) && t in notes[i].tags)
  {
    if TagPair(notes, i, filed, t, p) {
      var m :| 0 <= m < i && notes[m].path == p && t in notes[m].tags;
      assert 0 <= m < i + 1;
    }
  }

  lemma {:induction false} TagPairsAre(notes: seq<Note>, i: nat, filed: string -> bool, t: string, p: string)
    requires i <= |notes|
    ensures (t, p) in TagPairs(notes, i, filed) <==> TagPair(notes, i, filed, t, p)
  {
    for k := 0 to i
      invariant (t, p) in TagPairs(notes, k, filed) <==> TagPair(notes, k, filed, t, p)
    {
      TagPairsStep(notes, k, filed, t, p);
      TagPairStep(notes, k, filed, t, p);
    }
  }

  lemma {:induction false} DistinctConcat<T(!new)>(a: seq<T>, b: seq<T>)
    requires Distinct(a) && Distinct(b) && forall x :: x in a ==> x !in b
    ensures Distinct(a + b)
  {
    forall i, j | 0 <= i < j < |a + b| ensures (a + b)[i] != (a + b)[j] {
      if i < |a| <= j {
        assert a[i] in a;
        assert b[j - |a|] in b;
      }
    }
  }

  lemma {:induction false} TagPairsDistinct(notes: seq<Note>, i: nat, filed: string -> bool)
    requires i <= |notes| && WellFormed(notes)
    ensures Distinct(TagPairs(notes, i, filed))
  {
    if i > 0 {
      var n := notes[i - 1];
      var a, b := TagPairs(notes, i - 1, filed), TagsFiled(n, |n.tags|, filed);
      TagPairsDistinct(notes, i - 1, filed);
      TagsFiledDistinct(n, |n.tags|, filed);
      forall x | x in a ensures x !in b {
        assert x == (x.0, x.1);
        TagPairsAre(notes, i - 1, filed, x.0, x.1);
        TagsFiledAre(n, |n.tags|, filed, x.0, x.1);
      }
      DistinctConcat(a, b);
    }
  }

  lemma {:induction false} TagPairsMean(notes: seq<Note>, filed: string -> bool, t: string, p: string)
    ensures (t, p) in TagPairs(notes, |notes|, filed) <==> filed(t) && p in Tagged(notes, t)
  {
    TagPairsAre(notes, |notes|, filed, t, p);
    if p in Tagged(notes, t) {
      var n :| n in notes && t in n.tags && n.path == p;
      var m :| 0 <= m < |notes| && notes[m] == n;
    }
  }

  /** Every tag edge joins exactly the notes with its tag, at weight 0.6, and its tag is not a stop tag. */
  lemma {:induction false} TagEdgeJoins(notes: seq<Note>, lower: string -> string, e: HyperEdge)
    requires WellFormed(notes) && e in TagEdges(notes, lower)
    ensures lower(e.caption) !in STOP_TAGS && Joins(e, Tagged(notes, e.caption))
    ensures e.id == "tag::" + e.caption && e.kind == "tag" && e.weight == 0.6
  {
    var pairs := TagPairs(notes, |notes|, Filed(lower));
    GroupsAre(ByTag, pairs, e);
    var tag :| KeyEdge(ByTag, pairs, tag, e);
    assert e.caption == tag;
    var p := FiledUnder(pairs, tag)[0];
    FiledAre(pairs, tag, p);
    TagPairsMean(notes, Filed(lower), tag, p);
    TagPairsDistinct(notes, |notes|, Filed(lower));
    forall q { TagPairsMean(notes, Filed(lower), tag, q); }
    KeyEdgeJoins(ByTag, pairs, tag, e, Tagged(notes, tag));
  }

  /** A tag has an edge exactly when it is no stop tag and two notes carry it. */
  lemma {:induction false} TagHasEdge(notes: seq<Note>, lower: string -> string, tag: string)
    requires WellFormed(notes)
    ensures (exists e :: e in TagEdges(notes, lower) && e.caption == tag) <==>
      lower(tag) !in STOP_TAGS && |Tagged(notes, tag)| >= 2
  {
    var pairs := TagPairs(notes, |notes|, Filed(lower));
    TagPairsDistinct(notes, |notes|, Filed(lower));
    forall q { TagPairsMean(notes, Filed(lower), tag, q); }
    var paths := FiledUnder(pairs, tag);
    var s := if lower(tag) !in STOP_TAGS then Tagged(notes, tag) else {};
    var candidate := GroupEdge(ByTag, tag, paths);
    KeyEdgeJoins(ByTag, pairs, tag, candidate, s);
    GroupsAre(ByTag, pairs, candidate);
    if |s| >= 2 { assert KeyEdge(ByTag, pairs, tag, candidate) && candidate.caption == tag; }
    if e :| e in TagEdges(notes, lower) && e.caption == tag {
      GroupsAre(ByTag, pairs, e);
      var key :| KeyEdge(ByTag, pairs, key, e);
      assert key == tag;
    }
  }

  ghost predicate CaptionsApart(es: Edges) {
    forall i, j :: 0 <= i < j < |es| ==> es[i].caption != es[j].caption
  }

  /** No two tag edges carry the same tag. */
  lemma {:induction false} OneEdgePerTag(notes: seq<Note>, lower: string -> string)
    ensures CaptionsApart(TagEdges(notes, lower))
  {
    var pairs := TagPairs(notes, |notes|, Filed(lower));
    var keys := Unique(Firsts(pairs));
    UniqueIs(Firsts(pairs));
    CaptionsDistinct(pairs, keys, |keys|);
  }

  ghost predicate CaptionsIn(es: Edges, keys: seq<string>) {
    forall i :: 0 <= i < |es| ==> es[i].caption in keys
  }

  lemma {:induction false} CaptionsGrow(front: Edges, e: HyperEdge, keys: seq<string>)
    requires CaptionsIn(front, keys) && CaptionsApart(front) && e.caption !in keys
    ensures CaptionsIn(front + [e], keys + [e.caption]) && CaptionsApart(front + [e])
  {
  }

  lemma {:induction false} CaptionsNext(es: Edges, how: Grouping, keys: seq<string>, n: nat, paths: seq<string>)
    requires how.ByTag? && n < |keys| && Distinct(keys) && CaptionsIn(es, keys[..n]) && CaptionsApart(es)
    ensures CaptionsIn(es + GroupOf(how, keys[n], paths), keys[..n + 1])
      && CaptionsApart(es + GroupOf(how, keys[n], paths))
  {
    assert keys[..n + 1] == keys[..n] + [keys[n]];
    if |paths| >= 2 { CaptionsGrow(es, GroupEdge(how, keys[n], paths), keys[..n]); }
  }

  lemma {:induction false} CaptionsDistinct(pairs: Pairs, keys: seq<string>, n: nat)
    requires n <= |keys| && Distinct(keys)
    ensures CaptionsIn(GroupEdges(ByTag, pairs, keys, n), keys[..n]) && CaptionsApart(GroupEdges(ByTag, pairs, keys, n))
  {
    var es: Edges := [];
    for i := 0 to n
      invariant es == GroupEdges(ByTag, pairs, keys, i) && CaptionsIn(es, keys[..i]) && CaptionsApart(es)
    {
      var more := GroupOf(ByTag, keys[i], FiledUnder(pairs, keys[i]));
      CaptionsNext(es, ByTag, keys, i, FiledUnder(pairs, keys[i]));
      GroupEdgesStep(ByTag, pairs, keys, i, es, more);
      es := es + more;
    }
  }

  // ---- folders ----

  lemma {:induction false} FolderOfFile(folder: string, name: string)
    requires '/' !in name
    ensures Folder(folder + "/" + name) == folder && Folder(name) == ""
    ensures (folder + "/" + name)[LastSlash(folder + "/" + name) + 1..] == name && LastSlash(name) == -1
  {
    var path := folder + "/" + name;
    assert path[|folder|] == '/';
    assert forall j :: |folder| < j < |path| ==> path[j] == name[j - |folder| - 1];
    assert LastSlash(path) == |folder|;
    assert path[..|folder|] == folder && path[|folder| + 1..] == name;
  }

  /** Every path lies in one folder, and this is the one. */
  lemma {:induction false} FolderExactly(path: string, folder: string)
    ensures Folder(path) == folder <==> LiesIn(path, folder)
  {
    var i := LastSlash(path);
    if i >= 0 { assert path == path[..i] + "/" + path[i + 1..]; }
    if name :| '/' !in name && path == folder + "/" + name { FolderOfFile(folder, name); }
    if folder == "" && '/' !in path { FolderOfFile("", path); }
  }

  lemma {:induction false} FolderPairsAre(notes: seq<Note>, i: nat, f: string, p: string)
    requires i <= |notes|
    ensures (f, p) in FolderPairs(notes, i) <==> Folder(p) == f && exists m :: 0 <= m < i && notes[m].path == p
  {
    if i > 0 { FolderPairsAre(notes, i - 1, f, p); }
  }

  lemma {:induction false} FolderPairsDistinct(notes: seq<Note>, i: nat)
    requires i <= |notes| && WellFormed(notes)
    ensures Distinct(FolderPairs(notes, i))
  {
    if i > 0 {
      var p := notes[i - 1].path;
      FolderPairsDistinct(notes, i - 1);
      FolderPairsAre(notes, i - 1, Folder(p), p);
      DistinctGrows(FolderPairs(notes, i - 1), (Folder(p), p));
    }
  }

  lemma {:induction false} FolderPairsMean(notes: seq<Note>, f: string, p: string)
    ensures (f, p) in FolderPairs(notes, |notes|) <==> p in InFolder(notes, f)
  {
    FolderPairsAre(notes, |notes|, f, p);
    FolderExactly(p, f);
    if p in InFolder(notes, f) {
      var n :| n in notes && LiesIn(n.path, f) && n.path == p;
      var m :| 0 <= m < |notes| && notes[m] == n;
    }
  }

  /** Every folder edge joins exactly the notes of one folder, at weight 0.3. */
  lemma {:induction false} FolderEdgeJoins(notes: seq<Note>, e: HyperEdge) returns (folder: string)
    requires WellFormed(notes) && e in FolderEdges(notes)
    ensures Joins(e, InFolder(notes, folder)) && e.kind == "folder" && e.weight == 0.3
    ensures e.caption == if folder == "" then "(raiz)" else folder
  {
    var pairs := FolderPairs(notes, |notes|);
    GroupsAre(ByFolder, pairs, e);
    folder :| KeyEdge(ByFolder, pairs, folder, e);
    FolderPairsDistinct(notes, |notes|);
    forall q { FolderPairsMean(notes, folder, q); }
    KeyEdgeJoins(ByFolder, pairs, folder, e, InFolder(notes, folder));
  }

  /** Every folder with two notes has its edge. */
  lemma {:induction false} FolderHasEdge(notes: seq<Note>, folder: string)
    requires WellFormed(notes) && |InFolder(notes, folder)| >= 2
    ensures exists e :: e in FolderEdges(notes) && Joins(e, InFolder(notes, folder))
  {
    var pairs := FolderPairs(notes, |notes|);
    var candidate := GroupEdge(ByFolder, folder, FiledUnder(pairs, folder));
    FolderPairsDistinct(notes, |notes|);
    forall q { FolderPairsMean(notes, folder, q); }
    KeyEdgeJoins(ByFolder, pairs, folder, candidate, InFolder(notes, folder));
    assert KeyEdge(ByFolder, pairs, folder, candidate);
    GroupsAre(ByFolder, pairs, candidate);
  }

  // ---- links ----

  lemma {:induction false} TargetsAre(n: Note, j: nat, resolver: map<string, string>, paths: set<string>,
                                      lower: string -> string, q: string)
    requires j <= |n.wikilinks|
    ensures q in Targets(n, j, resolver, paths, lower)
      <==> q in paths && exists i ::
        0 <= i < j && Follows(n, n.wikilinks[i], resolver, lower) && resolver[lower(n.wikilinks[i])] == q
  {
    if j > 0 { TargetsAre(n, j - 1, resolver, paths, lower, q); }
  }

  /** Whatever name resolves, it resolves to a note. */
  ghost predicate ResolvesToNotes(resolver: map<string, string>, paths: set<string>) {
    forall name :: name in resolver ==> resolver[name] in paths
  }

  lemma {:induction false} LeastIsNote(notes: seq<Note>, resolver: map<string, string>, lower: string -> string)
    requires ResolvesLeast(resolver, notes, lower)
    ensures ResolvesToNotes(resolver, Paths(notes))
  {
    forall name | name in resolver ensures resolver[name] in Paths(notes) {
      var m :| m in notes && m.path == resolver[name] && name in Names(m, lower);
    }
  }

  lemma {:induction false} LinkedIsNote(notes: seq<Note>, n: Note, resolver: map<string, string>,
                                        lower: string -> string, q: string)
    requires ResolvesToNotes(resolver, Paths(notes)) && q in LinkedTo(n, resolver, lower)
    ensures q in Paths(notes) && q != n.path
  {
    var link :| link in n.wikilinks && Follows(n, link, resolver, lower) && resolver[lower(link)] == q;
  }

  lemma {:induction false} TargetsMean(notes: seq<Note>, n: Note, resolver: map<string, string>,
                                       lower: string -> string, q: string)
    requires ResolvesToNotes(resolver, Paths(notes))
    ensures q in Targets(n, |n.wikilinks|, resolver, Paths(notes), lower) <==> q in LinkedTo(n, resolver, lower)
    ensures q in LinkedTo(n, resolver, lower) ==> q in Paths(notes) && q != n.path
  {
    var links := n.wikilinks;
    TargetsAre(n, |links|, resolver, Paths(notes), lower, q);
    if q in LinkedTo(n, resolver, lower) {
      LinkedIsNote(notes, n, resolver, lower, q);
      assert exists i :: 0 <= i < |links| && Follows(n, links[i], resolver, lower) && resolver[lower(links[i])] == q;
    }
  }

  /** One of the first `i` notes has `e` as its link edge. */
  ghost predicate LinkEdgeAmong(notes: seq<Note>, i: nat, resolver: map<string, string>, paths: set<string>,
                                lower: string -> string, e: HyperEdge)
    requires i <= |notes|
  {
    exists m :: 0 <= m < i && LinkEdgeOf(notes[m], resolver, paths, lower, e)
  }

  lemma {:induction false} AmongStep(notes: seq<Note>, i: nat, resolver: map<string, string>, paths: set<string>,
                                     lower: string -> string, e: HyperEdge)
    requires i < |notes|
    ensures LinkEdgeAmong(notes, i + 1, resolver, paths, lower, e)
      <==> LinkEdgeAmong(notes, i, resolver, paths, lower, e) || LinkEdgeOf(notes[i], resolver, paths, lower, e)
  {
    if LinkEdgeAmong(notes, i, resolver, paths, lower, e) {
      var m :| 0 <= m < i && LinkEdgeOf(notes[m], resolver, paths, lower, e);
      assert 0 <= m < i + 1;
    }
  }

  lemma {:induction false} LinkEdgesAre(notes: seq<Note>, i: nat, resolver: map<string, string>, paths: set<string>,
                     lower: string -> string, e: HyperEdge)
    requires i <= |notes|
    ensures e in LinkEdges(notes, i, resolver, paths, lower) <==> LinkEdgeAmong(notes, i, resolver, paths, lower, e)
  {
    for k := 0 to i
      invariant e in LinkEdges(notes, k, resolver, paths, lower) <==> LinkEdgeAmong(notes, k, resolver, paths, lower, e)
    {
      LinkEdgesStep(notes, k, resolver, paths, lower, e);
      AmongStep(notes, k, resolver, paths, lower, e);
    }
  }

  lemma {:induction false} LinkEdgesStep(notes: seq<Note>, i: nat, resolver: map<string, string>, paths: set<string>,
                      lower: string -> string, e: HyperEdge)
    requires i < |notes|
    ensures e in LinkEdges(notes, i + 1, resolver, paths, lower)
      <==> e in LinkEdges(notes, i, resolver, paths, lower) || LinkEdgeOf(notes[i], resolver, paths, lower, e)
  {
  }

  ghost predicate LinkEdgeOf(n: Note, resolver: map<string, string>, paths: set<string>, lower: string -> string,
                             e: HyperEdge)
  {
    e in LinkEdgesOf(n, resolver, paths, lower)
  }

  lemma {:induction false} TwoMembers(ms: seq<string>, a: string, b: string)
    requires a in ms && b in ms && a != b
    ensures |ms| >= 2
  {
    var i, j :| 0 <= i < |ms| && 0 <= j < |ms| && ms[i] == a && ms[j] == b;
  }

  lemma {:induction false} LinkedMembers(notes: seq<Note>, n: Note, resolver: map<string, string>,
                                         lower: string -> string, q: string)
    requires ResolvesToNotes(resolver, Paths(notes))
    ensures q in Unique([n.path] + Targets(n, |n.wikilinks|, resolver, Paths(notes), lower)) <==>
      q in LinkedTo(n, resolver, lower) + {n.path}
  {
    UniqueIs([n.path] + Targets(n, |n.wikilinks|, resolver, Paths(notes), lower));
    TargetsMean(notes, n, resolver, lower, q);
  }

  /** The link edge of a note joins it with all notes it links to, at weight 1. */
  lemma {:induction false} LinkEdgeJoins(notes: seq<Note>, n: Note, resolver: map<string, string>,
                                         lower: string -> string, e: HyperEdge)
    requires ResolvesToNotes(resolver, Paths(notes)) && LinkEdgeOf(n, resolver, Paths(notes), lower, e)
    ensures Joins(e, LinkedTo(n, resolver, lower) + {n.path})
    ensures e.id == "links::" + n.path && e.kind == "links" && e.caption == BaseName(n.path) && e.weight == 1.0
  {
    var targets := Targets(n, |n.wikilinks|, resolver, Paths(notes), lower);
    var ms := Unique([n.path] + targets);
    UniqueIs([n.path] + targets);
    forall q { LinkedMembers(notes, n, resolver, lower, q); }
    TargetsMean(notes, n, resolver, lower, targets[0]);
    TwoMembers(ms, n.path, targets[0]);
    SortedJoins(ms, e, LinkedTo(n, resolver, lower) + {n.path});
  }

  lemma {:induction false} LinkHasEdge(notes: seq<Note>, resolver: map<string, string>, lower: string -> string,
                                       n: Note)
    requires ResolvesToNotes(resolver, Paths(notes)) && n in notes && LinkedTo(n, resolver, lower) != {}
    ensures exists e :: e in LinkEdges(notes, |notes|, resolver, Paths(notes), lower) && e.id == "links::" + n.path
  {
    var paths := Paths(notes);
    var q :| q in LinkedTo(n, resolver, lower);
    TargetsMean(notes, n, resolver, lower, q);
    var e := LinkEdge(n, Targets(n, |n.wikilinks|, resolver, paths, lower));
    var m :| 0 <= m < |notes| && notes[m] == n;
    assert LinkEdgeOf(notes[m], resolver, paths, lower, e);
    LinkEdgesAre(notes, |notes|, resolver, paths, lower, e);
    LinkEdgeJoins(notes, n, resolver, lower, e);
  }

  // ---- the whole graph ----

  /** Every edge has at least two distinct members, all of them notes, and a positive weight. */
  ghost predicate Sound(e: HyperEdge, notes: seq<Note>) {
    |e.members| >= 2 && Distinct(e.members) && e.weight > 0.0 && forall p :: p in e.members ==> p in Paths(notes)
  }

  lemma {:induction false} TagEdgeSound(notes: seq<Note>, lower: string -> string, e: HyperEdge)
    requires WellFormed(notes) && e in TagEdges(notes, lower)
    ensures Sound(e, notes)
  {
    TagEdgeJoins(notes, lower, e);
    assert forall p :: p in Tagged(notes, e.caption) ==> p in Paths(notes);
  }

  lemma {:induction false} FolderEdgeSound(notes: seq<Note>, e: HyperEdge)
    requires WellFormed(notes) && e in FolderEdges(notes)
    ensures Sound(e, notes)
  {
    var folder := FolderEdgeJoins(notes, e);
    assert forall p :: p in InFolder(notes, folder) ==> p in Paths(notes);
  }

  lemma {:induction false} LinkEdgeSound(notes: seq<Note>, n: Note, resolver: map<string, string>,
                                         lower: string -> string, e: HyperEdge)
    requires ResolvesToNotes(resolver, Paths(notes)) && n in notes && LinkEdgeOf(n, resolver, Paths(notes), lower, e)
    ensures Sound(e, notes)
  {
    LinkEdgeJoins(notes, n, resolver, lower, e);
    forall p | p in e.members ensures p in Paths(notes) { TargetsMean(notes, n, resolver, lower, p); }
  }

  ghost predicate AllSound(edges: Edges, notes: seq<Note>) {
    forall e :: e in edges ==> Sound(e, notes)
  }

  lemma {:induction false} TagsSound(notes: seq<Note>, lower: string -> string)
    requires WellFormed(notes)
    ensures AllSound(TagEdges(notes, lower), notes)
  {
    forall e | e in TagEdges(notes, lower) { TagEdgeSound(notes, lower, e); }
  }

  lemma {:induction false} FoldersSound(notes: seq<Note>)
    requires WellFormed(notes)
    ensures AllSound(FolderEdges(notes), notes)
  {
    forall e | e in FolderEdges(notes) { FolderEdgeSound(notes, e); }
  }

  lemma {:induction false} LinkSound(notes: seq<Note>, resolver: map<string, string>, lower: string -> string,
                                     e: HyperEdge)
    requires ResolvesToNotes(resolver, Paths(notes)) && LinkEdgeAmong(notes, |notes|, resolver, Paths(notes), lower, e)
    ensures Sound(e, notes)
  {
    var m :| 0 <= m < |notes| && LinkEdgeOf(notes[m], resolver, Paths(notes), lower, e);
    LinkEdgeSound(notes, notes[m], resolver, lower, e);
  }

  lemma {:induction false} ConcatSound(a: Edges, b: Edges, c: Edges, notes: seq<Note>)
    requires AllSound(a, notes) && AllSound(b, notes) && AllSound(c, notes)
    ensures AllSound(a + b + c, notes)
  {
  }

  /** Whatever `build_hypergraph` makes of well-formed notes: every edge has at least two distinct members, all of them
      notes, and a positive weight. */
  lemma {:induction false} BuiltSound(edges: Edges, notes: seq<Note>, lower: string -> string)
    requires GraphOf(edges, notes, lower) && WellFormed(notes)
    ensures AllSound(edges, notes)
  {
    var resolver :| ResolvesLeast(resolver, notes, lower)
      && edges == TagEdges(notes, lower) + FolderEdges(notes) +
        LinkEdges(notes, |notes|, resolver, Paths(notes), lower);
    LeastIsNote(notes, resolver, lower);
    TagsSound(notes, lower);
    FoldersSound(notes);
    var links := LinkEdges(notes, |notes|, resolver, Paths(notes), lower);
    forall e | e in links ensures Sound(e, notes) {
      LinkEdgesAre(notes, |notes|, resolver, Paths(notes), lower, e);
      LinkSound(notes, resolver, lower, e);
    }
    ConcatSound(TagEdges(notes, lower), FolderEdges(notes), links, notes);
  }

  /** The weight of all edges that hold `p`. */
  function WeightAt(edges: Edges, n: nat, p: string): real
    requires n <= |edges|
  {
    if n == 0 then 0.0 else WeightAt(edges, n - 1, p) + if p in edges[n - 1].members then edges[n - 1].weight else 0.0
  }

  lemma {:induction false} IncidentIsAll(edges: Edges, n: nat, p: string)
    requires n <= |edges| && forall i :: 0 <= i < |edges| ==> |edges[i].members| >= 2
    ensures IncidentWeight(edges, n, p) == WeightAt(edges, n, p)
  {
    if n > 0 { IncidentIsAll(edges, n - 1, p); }
  }

  /** In such a graph the edges have no negative weights, and what a note's neighbours receive is the weight of the
      note's edges, all of it. */
  lemma {:induction false} BuiltFlow(edges: Edges, notes: seq<Note>, p: string)
    requires AllSound(edges, notes)
    ensures Total(Neighbors(edges, p)) == WeightAt(edges, |edges|, p)
    ensures DistinctMembers(edges) && NonNegativeWeights(edges)
  {
    assert forall i :: 0 <= i < |edges| ==> edges[i] in edges;
    FlowConserved(edges, p);
    IncidentIsAll(edges, |edges|, p);
  }

  /** The largest weight at any of the first `n` notes; 0 for none. */
  function MaxWeight(edges: Edges, notes: seq<Note>, n: nat): real
    requires n <= |notes|
  {
    if n == 0 then 0.0
    else
      var most, here := MaxWeight(edges, notes, n - 1), WeightAt(edges, |edges|, notes[n - 1].path);
      if here > most then here else most
  }

  lemma {:induction false} MaxWeightBounds(edges: Edges, notes: seq<Note>, n: nat, i: nat)
    requires i < n <= |notes|
    ensures WeightAt(edges, |edges|, notes[i].path) <= MaxWeight(edges, notes, n)
  {
    if i < n - 1 { MaxWeightBounds(edges, notes, n - 1, i); }
  }

  lemma {:induction false} MaxWeightNonNegative(edges: Edges, notes: seq<Note>, n: nat)
    requires n <= |notes|
    ensures MaxWeight(edges, notes, n) >= 0.0
  {
    if n > 0 { MaxWeightNonNegative(edges, notes, n - 1); }
  }

  lemma {:induction false} WeightElsewhere(edges: Edges, n: nat, p: string)
    requires n <= |edges| && forall i :: 0 <= i < |edges| ==> p !in edges[i].members
    ensures WeightAt(edges, n, p) == 0.0
  {
    if n > 0 { WeightElsewhere(edges, n - 1, p); }
  }

  /** The weighted degree of every path is at most that of the heaviest note. */
  lemma {:induction false} GraphDegree(edges: Edges, notes: seq<Note>)
    requires AllSound(edges, notes)
    ensures Spreading.DegreeBound(edges, MaxWeight(edges, notes, |notes|))
  {
    forall p ensures Total(Neighbors(edges, p)) <= MaxWeight(edges, notes, |notes|) {
      BuiltFlow(edges, notes, p);
      WeightBounded(edges, notes, p);
    }
  }

  lemma {:induction false} WeightBounded(edges: Edges, notes: seq<Note>, p: string)
    requires AllSound(edges, notes)
    ensures WeightAt(edges, |edges|, p) <= MaxWeight(edges, notes, |notes|)
  {
    if p in Paths(notes) {
      var n :| n in notes && n.path == p;
      var i :| 0 <= i < |notes| && notes[i] == n;
      MaxWeightBounds(edges, notes, |notes|, i);
    } else {
      assert forall i :: 0 <= i < |edges| ==> edges[i] in edges;
      WeightElsewhere(edges, |edges|, p);
      MaxWeightNonNegative(edges, notes, |notes|);
    }
  }
}
