/** The graph in terms of file names and links: which names a note answers to, which notes the edges of
    `build_hypergraph` join, and so which notes are neighbours. */
module GraphLaws {
  import opened Sorting
  import opened HyperGraph
  import opened Models
  import opened Building
  import opened BuiltGraph

  // ---- names ----

  ghost predicate EndsMd(s: string) {
    exists t :: s == t + ".md"
  }

  lemma {:induction false} WithoutMdIs(s: string)
    ensures WithoutMd(s + ".md") == s && (!EndsMd(s) ==> WithoutMd(s) == s)
  {
    var t := s + ".md";
    assert t[|t| - 3..] == ".md" && t[..|t| - 3] == s;
    if |s| >= 3 && s[|s| - 3..] == ".md" { assert s == s[..|s| - 3] + ".md"; }
  }

  ghost predicate AnswersTo(n: Note, lower: string -> string, name: string) {
    name in Names(n, lower)
  }

  /** The Markdown file `name` of a folder answers to its path without the extension, to `name` and to its title. */
  lemma {:induction false} NamesOfFile(n: Note, lower: string -> string, folder: string, name: string, x: string)
    requires '/' !in name && n.path == folder + "/" + name + ".md"
    ensures AnswersTo(n, lower, x) <==>
      x == lower(folder + "/" + name) || x == lower(name) || (n.title != "" && x == lower(n.title))
  {
    StemsOfFile(n.path, folder, name);
  }

  lemma {:induction false} StemsOfFile(path: string, folder: string, name: string)
    requires '/' !in name && path == folder + "/" + name + ".md"
    ensures WithoutMd(path) == folder + "/" + name && BaseName(path) == name
  {
    assert path == folder + "/" + (name + ".md");
    FolderOfFile(folder, name + ".md");
    WithoutMdIs(folder + "/" + name);
    WithoutMdIs(name);
  }

  /** One in the root answers to its name and to its title. */
  lemma {:induction false} NamesInRoot(n: Note, lower: string -> string, name: string, x: string)
    requires '/' !in name && n.path == name + ".md"
    ensures AnswersTo(n, lower, x) <==> x == lower(name) || (n.title != "" && x == lower(n.title))
  {
    FolderOfFile("", n.path);
    WithoutMdIs(name);
  }

  // ---- the edges of the graph ----

  ghost predicate IsStopTag(tag: string) {
    tag == "todo" || tag == "draft" || tag == "inbox" || tag == "wip" || tag == "note" || tag == "notes"
  }

  lemma {:induction false} StopTagsAre(tag: string)
    ensures tag in STOP_TAGS <==> IsStopTag(tag)
  {
    assert STOP_TAGS == ["todo", "draft", "inbox", "wip", "note", "notes"];
  }

  /** An edge of this kind and weight joins exactly the notes `s`. */
  ghost predicate JoinedBy(edges: Edges, kind: string, weight: real, s: set<string>) {
    exists e :: e in edges && e.kind == kind && e.weight == weight && Joins(e, s)
  }

  lemma {:induction false} TwoApart(s: set<string>, p: string, q: string)
    requires p in s && q in s && p != q
    ensures |s| >= 2
  {
    assert {p, q} <= s;
    assert |s - {p, q}| == |s| - 2;
  }

  /** Two notes of one folder are joined with all others of that folder, at 0.3. */
  lemma {:induction false} FolderMates(edges: Edges, notes: seq<Note>, lower: string -> string, folder: string, n: Note,
                                       m: Note)
    requires GraphOf(edges, notes, lower) && WellFormed(notes) && n in notes && m in notes && n.path != m.path
    requires LiesIn(n.path, folder) && LiesIn(m.path, folder)
    ensures JoinedBy(edges, "folder", 0.3, InFolder(notes, folder))
  {
    var s := InFolder(notes, folder);
    TwoApart(s, n.path, m.path);
    FolderHasEdge(notes, folder);
    var e :| e in FolderEdges(notes) && Joins(e, s);
    var f := FolderEdgeJoins(notes, e);
  }

  /** Two notes with one tag, which is no stop tag, are joined with all others that carry it, at 0.6. */
  lemma {:induction false} TagMates(edges: Edges, notes: seq<Note>, lower: string -> string, tag: string, n: Note,
                                    m: Note)
    requires GraphOf(edges, notes, lower) && WellFormed(notes) && n in notes && m in notes && n.path != m.path
    requires tag in n.tags && tag in m.tags && !IsStopTag(lower(tag))
    ensures JoinedBy(edges, "tag", 0.6, Tagged(notes, tag))
  {
    StopTagsAre(lower(tag));
    TwoApart(Tagged(notes, tag), n.path, m.path);
    TagHasEdge(notes, lower, tag);
    var e :| e in TagEdges(notes, lower) && e.caption == tag;
    TagEdgeJoins(notes, lower, e);
  }

  /** `m` is the first note, by path, that answers to the lower-case form of the link. */
  ghost predicate Means(notes: seq<Note>, lower: string -> string, link: string, m: Note) {
    && m in notes && AnswersTo(m, lower, lower(link))
    && forall o :: o in notes && AnswersTo(o, lower, lower(link)) ==> StrLe(m.path, o.path)
  }

  lemma {:induction false} MeansResolves(notes: seq<Note>, lower: string -> string, link: string, m: Note,
                                         resolver: map<string, string>)
    requires ResolvesLeast(resolver, notes, lower) && Means(notes, lower, link, m)
    ensures lower(link) in resolver && resolver[lower(link)] == m.path
  {
    var name := lower(link);
    assert Answers(notes, lower, name, m.path);
    var o :| o in notes && o.path == resolver[name] && name in Names(o, lower);
    assert AnswersTo(o, lower, name);
    StrLeTotal(m.path, o.path);
  }

  /** What the links of `n` mean, apart from `n` itself. */
  ghost function Meant(notes: seq<Note>, lower: string -> string, n: Note): set<string> {
    set link, m |
      link in n.wikilinks && m in notes && Means(notes, lower, link, m) && m.path != n.path && m.path != "" :: m.path
  }

  lemma {:induction false} LinkedIsMeant(notes: seq<Note>, lower: string -> string, n: Note,
                                         resolver: map<string, string>)
    requires ResolvesLeast(resolver, notes, lower)
    ensures LinkedTo(n, resolver, lower) == Meant(notes, lower, n)
  {
    forall q ensures q in LinkedTo(n, resolver, lower) <==> q in Meant(notes, lower, n) {
      if q in LinkedTo(n, resolver, lower) {
        var link :| link in n.wikilinks && Follows(n, link, resolver, lower) && resolver[lower(link)] == q;
        var m := ResolvedMeans(notes, lower, link, resolver);
      }
      if q in Meant(notes, lower, n) {
        var link, m :| link in n.wikilinks && m in notes && Means(notes, lower, link, m) && m.path != n.path
          && m.path != "" && m.path == q;
        MeansResolves(notes, lower, link, m, resolver);
      }
    }
  }

  lemma {:induction false} ResolvedMeans(notes: seq<Note>, lower: string -> string, link: string,
                                         resolver: map<string, string>)
    returns (m: Note)
    requires ResolvesLeast(resolver, notes, lower) && lower(link) in resolver
    ensures Means(notes, lower, link, m) && m.path == resolver[lower(link)]
  {
    var name := lower(link);
    m :| m in notes && m.path == resolver[name] && name in Names(m, lower);
    forall o | o in notes && AnswersTo(o, lower, name) ensures StrLe(m.path, o.path) {
      assert Answers(notes, lower, name, o.path);
    }
  }

  /** A note whose links mean other notes is joined with all of them, at 1. */
  lemma {:induction false} LinkMates(edges: Edges, notes: seq<Note>, lower: string -> string, n: Note)
    requires GraphOf(edges, notes, lower) && n in notes && Meant(notes, lower, n) != {}
    ensures JoinedBy(edges, "links", 1.0, Meant(notes, lower, n) + {n.path})
  {
    var resolver :| ResolvesLeast(resolver, notes, lower) && edges == TagEdges(notes, lower) + FolderEdges(notes) +
      LinkEdges(notes, |notes|, resolver, Paths(notes), lower);
    LeastIsNote(notes, resolver, lower);
    LinkedIsMeant(notes, lower, n, resolver);
    var e := LinkEdgeFor(notes, resolver, lower, n);
    LinkEdgeJoins(notes, n, resolver, lower, e);
  }

  lemma {:induction false} LinkEdgeFor(notes: seq<Note>, resolver: map<string, string>, lower: string -> string,
                                       n: Note)
    returns (e: HyperEdge)
    requires ResolvesToNotes(resolver, Paths(notes)) && n in notes && LinkedTo(n, resolver, lower) != {}
    ensures e in LinkEdges(notes, |notes|, resolver, Paths(notes), lower)
    ensures LinkEdgeOf(n, resolver, Paths(notes), lower, e)
  {
    var paths := Paths(notes);
    var q :| q in LinkedTo(n, resolver, lower);
    TargetsMean(notes, n, resolver, lower, q);
    e := LinkEdge(n, Targets(n, |n.wikilinks|, resolver, paths, lower));
    var m :| 0 <= m < |notes| && notes[m] == n;
    assert LinkEdgeOf(notes[m], resolver, paths, lower, e);
    LinkEdgesAre(notes, |notes|, resolver, paths, lower, e);
  }

  /** An edge joins the notes of one folder, the notes with one tag, or a note and those its links mean. */
  ghost predicate Explained(e: HyperEdge, notes: seq<Note>, lower: string -> string) {
    || (e.kind == "folder" && e.weight == 0.3 && exists folder :: Joins(e, InFolder(notes, folder)))
    || (e.kind == "tag" && e.weight == 0.6 && exists tag :: !IsStopTag(lower(tag)) && Joins(e, Tagged(notes, tag)))
    || (e.kind == "links" && e.weight == 1.0
        && exists n :: n in notes && Joins(e, Meant(notes, lower, n) + {n.path}))
  }

  lemma {:induction false} FolderExplained(notes: seq<Note>, lower: string -> string, e: HyperEdge)
    requires WellFormed(notes) && e in FolderEdges(notes)
    ensures Explained(e, notes, lower)
  {
    var folder := FolderEdgeJoins(notes, e);
  }

  lemma {:induction false} TagExplained(notes: seq<Note>, lower: string -> string, e: HyperEdge)
    requires WellFormed(notes) && e in TagEdges(notes, lower)
    ensures Explained(e, notes, lower)
  {
    TagEdgeJoins(notes, lower, e);
    StopTagsAre(lower(e.caption));
  }

  lemma {:induction false} LinkExplained(notes: seq<Note>, lower: string -> string, resolver: map<string, string>,
                                         e: HyperEdge)
    requires ResolvesLeast(resolver, notes, lower) && e in LinkEdges(notes, |notes|, resolver, Paths(notes), lower)
    ensures Explained(e, notes, lower)
  {
    LeastIsNote(notes, resolver, lower);
    LinkEdgesAre(notes, |notes|, resolver, Paths(notes), lower, e);
    var i :| 0 <= i < |notes| && LinkEdgeOf(notes[i], resolver, Paths(notes), lower, e);
    LinkEdgeJoins(notes, notes[i], resolver, lower, e);
    LinkedIsMeant(notes, lower, notes[i], resolver);
  }

  /** There are no other edges. */
  lemma {:induction false} EveryEdgeExplained(edges: Edges, notes: seq<Note>, lower: string -> string, e: HyperEdge)
    requires GraphOf(edges, notes, lower) && WellFormed(notes) && e in edges
    ensures Explained(e, notes, lower)
  {
    var resolver :| ResolvesLeast(resolver, notes, lower) && edges == TagEdges(notes, lower) + FolderEdges(notes) +
      LinkEdges(notes, |notes|, resolver, Paths(notes), lower);
    if e in TagEdges(notes, lower) {
      TagExplained(notes, lower, e);
    } else if e in FolderEdges(notes) {
      FolderExplained(notes, lower, e);
    } else {
      LinkExplained(notes, lower, resolver, e);
    }
  }

  // ---- neighbours ----

  ghost predicate ShareFolder(notes: seq<Note>, p: string, q: string) {
    exists folder :: p in InFolder(notes, folder) && q in InFolder(notes, folder)
  }

  ghost predicate ShareTag(notes: seq<Note>, lower: string -> string, p: string, q: string) {
    exists tag :: !IsStopTag(lower(tag)) && p in Tagged(notes, tag) && q in Tagged(notes, tag)
  }

  /** A note and what its links mean hold both. */
  ghost predicate LinkTogether(notes: seq<Note>, lower: string -> string, p: string, q: string) {
    exists n :: n in notes && p in Meant(notes, lower, n) + {n.path} && q in Meant(notes, lower, n) + {n.path}
  }

  lemma {:induction false} JoinedLinked(edges: Edges, kind: string, weight: real, s: set<string>, p: string, q: string)
    requires JoinedBy(edges, kind, weight, s) && p in s && q in s
    ensures Linked(edges, |edges|, p, q)
  {
    var e :| e in edges && e.kind == kind && e.weight == weight && Joins(e, s);
    var i :| 0 <= i < |edges| && edges[i] == e;
  }

  /** Two notes are neighbours exactly when a folder, a tag or the links of a note bring them together. */
  lemma {:induction false} NeighborsExactlyWhen(edges: Edges, notes: seq<Note>, lower: string -> string, p: string,
                                                q: string)
    requires GraphOf(edges, notes, lower) && WellFormed(notes) && p != q
    ensures q in Neighbors(edges, p) <==>
      ShareFolder(notes, p, q) || ShareTag(notes, lower, p, q) || LinkTogether(notes, lower, p, q)
  {
    NeighborsAre(edges, p, q);
    if q in Neighbors(edges, p) {
      var i :| 0 <= i < |edges| && p in edges[i].members && q in edges[i].members;
      MembersRelated(edges[i], notes, lower, p, q, edges);
    }
    if ShareFolder(notes, p, q) { FolderLinked(edges, notes, lower, p, q); }
    if ShareTag(notes, lower, p, q) { TagLinked(edges, notes, lower, p, q); }
    if LinkTogether(notes, lower, p, q) { LinksLinked(edges, notes, lower, p, q); }
  }

  lemma {:induction false} MembersRelated(e: HyperEdge, notes: seq<Note>, lower: string -> string, p: string,
                                          q: string, edges: Edges)
    requires GraphOf(edges, notes, lower) && WellFormed(notes) && e in edges && p in e.members && q in e.members
    ensures ShareFolder(notes, p, q) || ShareTag(notes, lower, p, q) || LinkTogether(notes, lower, p, q)
  {
    EveryEdgeExplained(edges, notes, lower, e);
  }

  lemma {:induction false} FolderLinked(edges: Edges, notes: seq<Note>, lower: string -> string, p: string, q: string)
    requires GraphOf(edges, notes, lower) && WellFormed(notes) && p != q && ShareFolder(notes, p, q)
    ensures Linked(edges, |edges|, p, q)
  {
    var folder :| p in InFolder(notes, folder) && q in InFolder(notes, folder);
    var n :| n in notes && LiesIn(n.path, folder) && n.path == p;
    var m :| m in notes && LiesIn(m.path, folder) && m.path == q;
    FolderMates(edges, notes, lower, folder, n, m);
    JoinedLinked(edges, "folder", 0.3, InFolder(notes, folder), p, q);
  }

  lemma {:induction false} TagLinked(edges: Edges, notes: seq<Note>, lower: string -> string, p: string, q: string)
    requires GraphOf(edges, notes, lower) && WellFormed(notes) && p != q && ShareTag(notes, lower, p, q)
    ensures Linked(edges, |edges|, p, q)
  {
    var tag :| !IsStopTag(lower(tag)) && p in Tagged(notes, tag) && q in Tagged(notes, tag);
    var n :| n in notes && tag in n.tags && n.path == p;
    var m :| m in notes && tag in m.tags && m.path == q;
    TagMates(edges, notes, lower, tag, n, m);
    JoinedLinked(edges, "tag", 0.6, Tagged(notes, tag), p, q);
  }

  lemma {:induction false} NotAlone(s: set<string>, x: string, p: string, q: string)
    requires p in s + {x} && q in s + {x} && p != q
    ensures s != {}
  {
    assert p in s || q in s;
  }

  lemma {:induction false} LinksLinked(edges: Edges, notes: seq<Note>, lower: string -> string, p: string, q: string)
    requires GraphOf(edges, notes, lower) && p != q && LinkTogether(notes, lower, p, q)
    ensures Linked(edges, |edges|, p, q)
  {
    var n :| n in notes && p in Meant(notes, lower, n) + {n.path} && q in Meant(notes, lower, n) + {n.path};
    NotAlone(Meant(notes, lower, n), n.path, p, q);
    LinkMates(edges, notes, lower, n);
    JoinedLinked(edges, "links", 1.0, Meant(notes, lower, n) + {n.path}, p, q);
  }
}
