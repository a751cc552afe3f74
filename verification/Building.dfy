/** `build_hypergraph`: hyperedges for shared tags, shared folders and the links of each note. */
module Building {
  import opened Sorting
  import opened HyperGraph
  import opened Models

  // ---- names of notes ----

  function LastSlash(path: string): (i: int)
    ensures -1 <= i < |path|
    ensures i >= 0 ==> path[i] == '/'
    ensures forall j :: i < j < |path| ==> path[j] != '/'
  {
    if path == "" then -1
    else if path[|path| - 1] == '/' then |path| - 1
    else LastSlash(path[..|path| - 1])
  }

  function Folder(path: string): string {
    var i := LastSlash(path);
    if i >= 0 then path[..i] else ""
  }

  function WithoutMd(name: string): string {
    if |name| >= 3 && name[|name| - 3..] == ".md" then name[..|name| - 3] else name
  }

  function BaseName(path: string): string {
    WithoutMd(path[LastSlash(path) + 1..])
  }

  const STOP_TAGS := ["todo", "draft", "inbox", "wip", "note", "notes"]

  // ---- the resolver of links ----

  /** The names a note answers to, in the order in which they are registered. */
  function Names(n: Note, lower: string -> string): seq<string> {
    [lower(WithoutMd(n.path)), lower(BaseName(n.path))] + if n.title != "" then [lower(n.title)] else []
  }

  ghost predicate Answers(notes: seq<Note>, lower: string -> string, name: string, path: string) {
    exists n :: n in notes && n.path == path && name in Names(n, lower)
  }

  /** A name resolves when some note answers to it, and then to the least path among those that do. */
  ghost predicate ResolvesLeast(resolver: map<string, string>, notes: seq<Note>, lower: string -> string) {
    && (forall name :: name in resolver ==> Answers(notes, lower, name, resolver[name]))
    && forall name, path :: Answers(notes, lower, name, path) ==> name in resolver && StrLe(resolver[name], path)
  }

  predicate PathLe(a: Note, b: Note) {
    StrLe(a.path, b.path)
  }

  lemma {:induction false} PathLeOrders()
    ensures TotalPreorder(PathLe)
  {
    StrLeOrders();
  }

  ghost predicate ResolvesFirst(resolver: map<string, string>, notes: seq<Note>, lower: string -> string) {
    OnlyAnswers(resolver, notes, lower) && NoneLess(resolver, notes, lower)
  }

  ghost predicate OnlyAnswers(resolver: map<string, string>, notes: seq<Note>, lower: string -> string) {
    forall name :: name in resolver ==> Answers(notes, lower, name, resolver[name])
  }

  ghost predicate NoneLess(resolver: map<string, string>, notes: seq<Note>, lower: string -> string) {
    forall name, n :: n in notes && name in Names(n, lower) ==> name in resolver && StrLe(resolver[name], n.path)
  }

  method BuildResolver(notes: seq<Note>, lower: string -> string) returns (resolver: map<string, string>)
    ensures ResolvesLeast(resolver, notes, lower)
  {
    var order := Sorted(notes, PathLe);
    PathLeOrders();
    SortedIsSort(notes, PathLe);
    SameMembers(notes, order);
    resolver := RegisterAll(order, lower);
    forall name, path | Answers(notes, lower, name, path) { FirstLeast(resolver, notes, order, lower, name, path); }
    forall name | name in resolver { FirstAnswers(resolver, notes, order, lower, name); }
  }

  method RegisterAll(order: seq<Note>, lower: string -> string) returns (resolver: map<string, string>)
    requires Ordered(order, PathLe)
    ensures ResolvesFirst(resolver, order, lower)
  {
    resolver := map[];
    ghost var seen: seq<Note> := [];
    for i := 0 to |order|
      invariant seen == order[..i] && ResolvesFirst(resolver, seen, lower)
    {
      EarlierLe(order, i, seen);
      resolver := Register(resolver, order[i], lower, seen);
      seen := seen + [order[i]];
    }
    assert seen == order;
  }

  lemma {:induction false} EarlierLe(order: seq<Note>, i: nat, seen: seq<Note>)
    requires Ordered(order, PathLe) && i < |order| && seen == order[..i]
    ensures forall m :: m in seen ==> StrLe(m.path, order[i].path)
  {
    forall m | m in seen ensures StrLe(m.path, order[i].path) {
      var j :| 0 <= j < i && seen[j] == m;
      assert PathLe(order[j], order[i]);
    }
  }

  lemma {:induction false} FirstLeast(resolver: map<string, string>, notes: seq<Note>, order: seq<Note>,
                                      lower: string -> string, name: string, path: string)
    requires (forall n :: n in notes <==> n in order) && ResolvesFirst(resolver, order, lower)
      && Answers(notes, lower, name, path)
    ensures name in resolver && StrLe(resolver[name], path)
  {
    var n :| n in notes && n.path == path && name in Names(n, lower);
    NotLess(resolver, order, lower, name, n);
  }

  lemma {:induction false} NotLess(resolver: map<string, string>, order: seq<Note>, lower: string -> string,
                                   name: string, n: Note)
    requires NoneLess(resolver, order, lower) && n in order && name in Names(n, lower)
    ensures name in resolver && StrLe(resolver[name], n.path)
  {
  }

  lemma {:induction false} FirstAnswers(resolver: map<string, string>, notes: seq<Note>, order: seq<Note>,
                                        lower: string -> string, name: string)
    requires (forall n :: n in notes <==> n in order) && ResolvesFirst(resolver, order, lower) && name in resolver
    ensures Answers(notes, lower, name, resolver[name])
  {
    var n :| n in order && n.path == resolver[name] && name in Names(n, lower);
  }

  lemma {:induction false} SameMembers(notes: seq<Note>, order: seq<Note>)
    requires multiset(order) == multiset(notes)
    ensures forall n :: n in notes <==> n in order
  {
    forall n ensures n in notes <==> n in order {
      assert n in multiset(notes) <==> n in multiset(order);
    }
  }

  ghost predicate Registered(before: map<string, string>, after: map<string, string>, names: seq<string>,
                             path: string)
  {
    && (forall name :: name in before ==> name in after && after[name] == before[name])
    && (forall name :: name in after && name !in before ==> name in names && after[name] == path)
    && forall name :: name in names ==> name in after
  }

  /** `setdefault` under every name of a note. */
  method Register(before: map<string, string>, n: Note, lower: string -> string, ghost seen: seq<Note>)
    returns (after: map<string, string>)
    requires ResolvesFirst(before, seen, lower) && forall m :: m in seen ==> StrLe(m.path, n.path)
    ensures ResolvesFirst(after, seen + [n], lower)
  {
    var names := Names(n, lower);
    after := SetDefaults(before, names, n.path);
    RegisterStep(before, after, n, names, lower, seen);
  }

  method SetDefaults(before: map<string, string>, names: seq<string>, path: string) returns (after: map<string, string>)
    ensures Registered(before, after, names, path)
  {
    after := before;
    ghost var seen: seq<string> := [];
    for k := 0 to |names|
      invariant seen == names[..k] && Registered(before, after, seen, path)
    {
      if names[k] !in after { after := after[names[k] := path]; }
      seen := seen + [names[k]];
    }
    assert seen == names;
  }

  lemma {:induction false} RegisterStep(before: map<string, string>, after: map<string, string>, n: Note,
                                        names: seq<string>, lower: string -> string, seen: seq<Note>)
    requires ResolvesFirst(before, seen, lower) && forall m :: m in seen ==> StrLe(m.path, n.path)
    requires names == Names(n, lower) && Registered(before, after, names, n.path)
    ensures ResolvesFirst(after, seen + [n], lower)
  {
    RegisterAnswers(before, after, n, names, lower, seen);
    RegisterLe(before, after, n, names, lower, seen);
  }

  lemma {:induction false} RegisterAnswers(before: map<string, string>, after: map<string, string>, n: Note,
                                           names: seq<string>, lower: string -> string, seen: seq<Note>)
    requires OnlyAnswers(before, seen, lower) && names == Names(n, lower) && Registered(before, after, names, n.path)
    ensures OnlyAnswers(after, seen + [n], lower)
  {
    forall name | name in after { RegisteredAnswers(before, after, n, names, lower, seen, name); }
  }

  lemma {:induction false} RegisterLe(before: map<string, string>, after: map<string, string>, n: Note,
                                      names: seq<string>, lower: string -> string, seen: seq<Note>)
    requires ResolvesFirst(before, seen, lower) && forall m :: m in seen ==> StrLe(m.path, n.path)
    requires names == Names(n, lower) && Registered(before, after, names, n.path)
    ensures NoneLess(after, seen + [n], lower)
  {
    forall name, m | m in seen + [n] && name in Names(m, lower)
      ensures name in after && StrLe(after[name], m.path)
    {
      RegisteredLe(before, after, n, names, lower, seen, name, m);
    }
  }

  lemma {:induction false} AnswersGrow(seen: seq<Note>, n: Note, lower: string -> string, name: string, path: string)
    requires Answers(seen, lower, name, path)
    ensures Answers(seen + [n], lower, name, path)
  {
    var m :| m in seen && m.path == path && name in Names(m, lower);
    assert m in seen + [n];
  }

  lemma {:induction false} RegisteredAnswers(before: map<string, string>, after: map<string, string>, n: Note,
                                             names: seq<string>, lower: string -> string, seen: seq<Note>, name: string)
    requires OnlyAnswers(before, seen, lower)
    requires names == Names(n, lower) && Registered(before, after, names, n.path) && name in after
    ensures Answers(seen + [n], lower, name, after[name])
  {
    if name in before {
      AnswersGrow(seen, n, lower, name, before[name]);
    } else {
      assert n in seen + [n];
    }
  }

  lemma {:induction false} RegisteredLe(before: map<string, string>, after: map<string, string>, n: Note,
                                        names: seq<string>, lower: string -> string, seen: seq<Note>, name: string,
                                        m: Note)
    requires ResolvesFirst(before, seen, lower) && forall o :: o in seen ==> StrLe(o.path, n.path)
    requires names == Names(n, lower) && Registered(before, after, names, n.path)
    requires m in seen + [n] && name in Names(m, lower)
    ensures name in after && StrLe(after[name], m.path)
  {
    if m in seen {
      assert name in before;
    } else if name in before {
      BeforeLe(before, seen, lower, name, n);
    } else {
      StrLeTotal(n.path, n.path);
    }
  }

  lemma {:induction false} BeforeLe(resolver: map<string, string>, seen: seq<Note>, lower: string -> string,
                                    name: string, n: Note)
    requires ResolvesFirst(resolver, seen, lower) && (forall m :: m in seen ==> StrLe(m.path, n.path))
      && name in resolver
    ensures StrLe(resolver[name], n.path)
  {
    var o :| o in seen && o.path == resolver[name] && name in Names(o, lower);
  }

  // ---- grouping ----

  /** The elements of `xs`, each once, in the order of first appearance: the keys of a dictionary filled in that
      order. */
  function Unique(xs: seq<string>): seq<string> {
    if xs == [] then []
    else
      var front, last := Unique(xs[..|xs| - 1]), xs[|xs| - 1];
      if last in front then front else front + [last]
  }

  lemma {:induction false} UniqueIs(xs: seq<string>)
    ensures Distinct(Unique(xs))
    ensures forall x :: x in Unique(xs) <==> x in xs
  {
    if xs != [] {
      var front, last := xs[..|xs| - 1], xs[|xs| - 1];
      assert xs == front + [last];
      UniqueIs(front);
    }
  }

  type Pairs = seq<(string, string)>

  function Firsts(pairs: Pairs): seq<string> {
    seq(|pairs|, i requires 0 <= i < |pairs| => pairs[i].0)
  }

  /** What was filed under `key`, in order. */
  function FiledUnder(pairs: Pairs, key: string): seq<string> {
    if pairs == [] then []
    else
      FiledUnder(pairs[..|pairs| - 1], key)
        + if pairs[|pairs| - 1].0 == key then [pairs[|pairs| - 1].1] else []
  }

  /** The dictionary `groups`, with its keys in insertion order, files exactly `pairs`. */
  ghost predicate Files(groups: map<string, seq<string>>, keys: seq<string>, pairs: Pairs) {
    keys == Unique(Firsts(pairs)) && Holds(groups, keys, pairs)
  }

  ghost predicate Holds(groups: map<string, seq<string>>, keys: seq<string>, pairs: Pairs) {
    && (forall k :: k in groups <==> k in keys)
    && forall k :: k in groups ==> groups[k] == FiledUnder(pairs, k)
  }

  lemma {:induction false} NotFiled(pairs: Pairs, key: string)
    requires key !in Firsts(pairs)
    ensures FiledUnder(pairs, key) == []
  {
    if pairs != [] {
      var front, last := pairs[..|pairs| - 1], pairs[|pairs| - 1];
      assert Firsts(pairs)[|front|] == last.0;
      assert forall i :: 0 <= i < |front| ==> Firsts(pairs)[i] == Firsts(front)[i];
      NotFiled(front, key);
    }
  }

  lemma {:induction false} FirstsAppend(pairs: Pairs, key: string, path: string)
    ensures Firsts(pairs + [(key, path)]) == Firsts(pairs) + [key]
  {
  }

  lemma {:induction false} FiledAppend(pairs: Pairs, key: string, path: string, k: string)
    ensures FiledUnder(pairs + [(key, path)], k) == FiledUnder(pairs, k) + if k == key then [path] else []
  {
    assert (pairs + [(key, path)])[..|pairs|] == pairs;
  }

  lemma {:induction false} UniqueAppend(xs: seq<string>, x: string)
    ensures Unique(xs + [x]) == if x in xs then Unique(xs) else Unique(xs) + [x]
  {
    UniqueIs(xs);
    assert (xs + [x])[..|xs|] == xs;
  }

  /** `groups[key].append(path)` on a `defaultdict(list)`. */
  method File(groups: map<string, seq<string>>, keys: seq<string>, key: string, path: string, ghost pairs: Pairs)
    returns (groups': map<string, seq<string>>, keys': seq<string>)
    requires Files(groups, keys, pairs)
    ensures Files(groups', keys', pairs + [(key, path)])
  {
    keys' := if key in groups then keys else keys + [key];
    groups' := groups[key := (if key in groups then groups[key] else []) + [path]];
    FileStep(groups, keys, key, path, pairs, groups', keys');
  }

  lemma {:induction false} FileStep(groups: map<string, seq<string>>, keys: seq<string>, key: string, path: string,
                                    pairs: Pairs, groups': map<string, seq<string>>, keys': seq<string>)
    requires Files(groups, keys, pairs)
    requires keys' == if key in groups then keys else keys + [key]
    requires groups' == groups[key := (if key in groups then groups[key] else []) + [path]]
    ensures Files(groups', keys', pairs + [(key, path)])
  {
    UniqueIs(Firsts(pairs));
    KeysNext(pairs, key, path);
    if key !in groups { NotFiled(pairs, key); }
    HoldsNext(groups, keys, key, path, pairs, groups', keys');
  }

  lemma {:induction false} KeysNext(pairs: Pairs, key: string, path: string)
    ensures var keys := Unique(Firsts(pairs));
      Unique(Firsts(pairs + [(key, path)])) == if key in keys then keys else keys + [key]
  {
    FirstsAppend(pairs, key, path);
    UniqueIs(Firsts(pairs));
    UniqueAppend(Firsts(pairs), key);
  }

  lemma {:induction false} HoldsNext(groups: map<string, seq<string>>, keys: seq<string>, key: string, path: string,
                                     pairs: Pairs, groups': map<string, seq<string>>, keys': seq<string>)
    requires Holds(groups, keys, pairs) && (key !in groups ==> FiledUnder(pairs, key) == [])
    requires keys' == if key in groups then keys else keys + [key]
    requires groups' == groups[key := (if key in groups then groups[key] else []) + [path]]
    ensures Holds(groups', keys', pairs + [(key, path)])
  {
    forall k | k in groups' ensures groups'[k] == FiledUnder(pairs + [(key, path)], k) {
      FiledAppend(pairs, key, path, k);
    }
  }

  // ---- the three kinds of edges ----

  datatype Grouping = ByTag | ByFolder

  function GroupEdge(how: Grouping, key: string, paths: seq<string>): HyperEdge {
    if how.ByTag? then HyperEdge("tag::" + key, "tag", key, Sorted(paths, StrLe), 0.6)
    else HyperEdge("folder::" + (if key == "" then "/" else key), "folder", if key == "" then "(raiz)" else key,
                   Sorted(paths, StrLe), 0.3)
  }

  /** A group of one note makes no edge. */
  function GroupOf(how: Grouping, key: string, paths: seq<string>): Edges {
    if |paths| >= 2 then [GroupEdge(how, key, paths)] else []
  }

  /** The edges of the first `n` keys. */
  function GroupEdges(how: Grouping, pairs: Pairs, keys: seq<string>, n: nat): Edges
    requires n <= |keys|
  {
    if n == 0 then []
    else GroupEdges(how, pairs, keys, n - 1) + GroupOf(how, keys[n - 1], FiledUnder(pairs, keys[n - 1]))
  }

  lemma {:induction false} GroupEdgesStep(how: Grouping, pairs: Pairs, keys: seq<string>, n: nat, before: Edges,
                                          more: Edges)
    requires n < |keys| && before == GroupEdges(how, pairs, keys, n)
      && more == GroupOf(how, keys[n], FiledUnder(pairs, keys[n]))
    ensures before + more == GroupEdges(how, pairs, keys, n + 1)
  {
  }

  method EmitGroups(how: Grouping, groups: map<string, seq<string>>, keys: seq<string>, ghost pairs: Pairs)
    returns (edges: Edges)
    requires Holds(groups, keys, pairs)
    ensures edges == GroupEdges(how, pairs, keys, |keys|)
  {
    edges := [];
    for i := 0 to |keys|
      invariant edges == GroupEdges(how, pairs, keys, i)
    {
      var more := GroupOf(how, keys[i], groups[keys[i]]);
      GroupEdgesStep(how, pairs, keys, i, edges, more);
      edges := edges + more;
    }
  }

  /** Which tags are filed. */
  function Filed(lower: string -> string): string -> bool {
    tag => lower(tag) !in STOP_TAGS
  }

  /** What the first `j` tags of a note file. */
  function TagsFiled(n: Note, j: nat, filed: string -> bool): Pairs
    requires j <= |n.tags|
  {
    if j == 0 then [] else TagsFiled(n, j - 1, filed) + if filed(n.tags[j - 1]) then [(n.tags[j - 1], n.path)] else []
  }

  function TagPairs(notes: seq<Note>, i: nat, filed: string -> bool): Pairs
    requires i <= |notes|
  {
    if i == 0 then [] else TagPairs(notes, i - 1, filed) + TagsFiled(notes[i - 1], |notes[i - 1].tags|, filed)
  }

  function FolderPairs(notes: seq<Note>, i: nat): Pairs
    requires i <= |notes|
  {
    if i == 0 then [] else FolderPairs(notes, i - 1) + [(Folder(notes[i - 1].path), notes[i - 1].path)]
  }

  predicate Follows(n: Note, link: string, resolver: map<string, string>, lower: string -> string) {
    lower(link) in resolver && resolver[lower(link)] != "" && resolver[lower(link)] != n.path
  }

  /** The other notes that the first `j` links of a note lead to. */
  function Targets(n: Note, j: nat, resolver: map<string, string>, paths: set<string>,
                   lower: string -> string): seq<string>
    requires j <= |n.wikilinks|
  {
    if j == 0 then []
    else
      var link := n.wikilinks[j - 1];
      Targets(n, j - 1, resolver, paths, lower)
        + if Follows(n, link, resolver, lower) && resolver[lower(link)] in paths then [resolver[lower(link)]] else []
  }

  function LinkEdge(n: Note, targets: seq<string>): HyperEdge {
    HyperEdge("links::" + n.path, "links", BaseName(n.path), Sorted(Unique([n.path] + targets), StrLe), 1.0)
  }

  /** The edge of a note that links to other notes. */
  function LinkEdgesOf(n: Note, resolver: map<string, string>, paths: set<string>, lower: string -> string): Edges {
    var targets := Targets(n, |n.wikilinks|, resolver, paths, lower);
    if targets != [] then [LinkEdge(n, targets)] else []
  }

  function LinkEdges(notes: seq<Note>, i: nat, resolver: map<string, string>, paths: set<string>,
                     lower: string -> string): Edges
    requires i <= |notes|
  {
    if i == 0 then []
    else LinkEdges(notes, i - 1, resolver, paths, lower) + LinkEdgesOf(notes[i - 1], resolver, paths, lower)
  }

  function Paths(notes: seq<Note>): set<string> {
    set n | n in notes :: n.path
  }

  function GroupsOf(how: Grouping, pairs: Pairs): Edges {
    var keys := Unique(Firsts(pairs));
    GroupEdges(how, pairs, keys, |keys|)
  }

  function TagEdges(notes: seq<Note>, lower: string -> string): Edges {
    GroupsOf(ByTag, TagPairs(notes, |notes|, Filed(lower)))
  }

  function FolderEdges(notes: seq<Note>): Edges {
    GroupsOf(ByFolder, FolderPairs(notes, |notes|))
  }

  /** The edges are those of the shared tags, then the folders, then the links. */
  ghost predicate GraphOf(edges: Edges, notes: seq<Note>, lower: string -> string) {
    exists resolver ::
      ResolvesLeast(resolver, notes, lower)
      && edges == TagEdges(notes, lower) + FolderEdges(notes) + LinkEdges(notes, |notes|, resolver, Paths(notes), lower)
  }

  /** `build_hypergraph`, up to the edges. */
  method Build(notes: seq<Note>, lower: string -> string) returns (edges: Edges)
    ensures GraphOf(edges, notes, lower)
  {
    var paths := Paths(notes);
    var resolver := BuildResolver(notes, lower);
    var tagEdges := EmitTags(notes, lower);
    var folderEdges := EmitFolders(notes);
    var linkEdges := EmitLinks(notes, resolver, paths, lower);
    edges := tagEdges + folderEdges + linkEdges;
  }

  method EmitTags(notes: seq<Note>, lower: string -> string) returns (edges: Edges)
    ensures edges == TagEdges(notes, lower)
  {
    ghost var pairs: Pairs := TagPairs(notes, |notes|, Filed(lower));
    var byTag, keys := GroupByTag(notes, Filed(lower));
    edges := EmitGroups(ByTag, byTag, keys, pairs);
  }

  method EmitFolders(notes: seq<Note>) returns (edges: Edges)
    ensures edges == FolderEdges(notes)
  {
    ghost var pairs: Pairs := FolderPairs(notes, |notes|);
    var byFolder, keys := GroupByFolder(notes);
    edges := EmitGroups(ByFolder, byFolder, keys, pairs);
  }

  method EmitLinks(notes: seq<Note>, resolver: map<string, string>, paths: set<string>, lower: string -> string)
    returns (edges: Edges)
    ensures edges == LinkEdges(notes, |notes|, resolver, paths, lower)
  {
    edges := [];
    for i := 0 to |notes|
      invariant edges == LinkEdges(notes, i, resolver, paths, lower)
    {
      var targets := FindTargets(notes[i], resolver, paths, lower);
      if targets != [] { edges := edges + [LinkEdge(notes[i], targets)]; }
    }
  }

  method FindTargets(n: Note, resolver: map<string, string>, paths: set<string>, lower: string -> string)
    returns (targets: seq<string>)
    ensures targets == Targets(n, |n.wikilinks|, resolver, paths, lower)
  {
    targets := [];
    for j := 0 to |n.wikilinks|
      invariant targets == Targets(n, j, resolver, paths, lower)
    {
      var name := lower(n.wikilinks[j]);
      if name in resolver {
        var resolved := resolver[name];
        if resolved != "" && resolved != n.path && resolved in paths { targets := targets + [resolved]; }
      }
    }
  }

  method GroupByTag(notes: seq<Note>, filed: string -> bool)
    returns (groups: map<string, seq<string>>, keys: seq<string>)
    ensures Files(groups, keys, TagPairs(notes, |notes|, filed))
  {
    groups, keys := map[], [];
    ghost var pairs: Pairs := [];
    for i := 0 to |notes|
      invariant pairs == TagPairs(notes, i, filed) && Files(groups, keys, pairs)
    {
      groups, keys := FileTags(groups, keys, notes[i], filed, pairs);
      pairs := pairs + TagsFiled(notes[i], |notes[i].tags|, filed);
    }
  }

  method FileTags(groups: map<string, seq<string>>, keys: seq<string>, n: Note, filed: string -> bool,
                  ghost pairs: Pairs)
    returns (groups': map<string, seq<string>>, keys': seq<string>)
    requires Files(groups, keys, pairs)
    ensures Files(groups', keys', pairs + TagsFiled(n, |n.tags|, filed))
  {
    groups', keys' := groups, keys;
    ghost var all: Pairs := pairs;
    for j := 0 to |n.tags|
      invariant all == pairs + TagsFiled(n, j, filed) && Files(groups', keys', all)
    {
      FiledNext(pairs, n, j, filed, all);
      if filed(n.tags[j]) {
        groups', keys' := File(groups', keys', n.tags[j], n.path, all);
        all := all + [(n.tags[j], n.path)];
      }
    }
  }

  lemma {:induction false} FiledNext(pairs: Pairs, n: Note, j: nat, filed: string -> bool, all: Pairs)
    requires j < |n.tags| && all == pairs + TagsFiled(n, j, filed)
    ensures pairs + TagsFiled(n, j + 1, filed) == if filed(n.tags[j]) then all + [(n.tags[j], n.path)] else all
  {
  }

  method GroupByFolder(notes: seq<Note>) returns (groups: map<string, seq<string>>, keys: seq<string>)
    ensures Files(groups, keys, FolderPairs(notes, |notes|))
  {
    groups, keys := map[], [];
    ghost var pairs: Pairs := [];
    for i := 0 to |notes|
      invariant pairs == FolderPairs(notes, i) && Files(groups, keys, pairs)
    {
      groups, keys := File(groups, keys, Folder(notes[i].path), notes[i].path, pairs);
      pairs := pairs + [(Folder(notes[i].path), notes[i].path)];
    }
  }
}
