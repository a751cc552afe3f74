/** The incremental refresh of the vault index against a disk that may change at any moment, as a state machine
    whose steps are the single file-system operations of `from_vault`, its workers and `save_cache`. */
module VaultCache {
  import opened Models
  import opened Sorting
  import opened Wrappers

  // ---- the disk, the cache file and the parser ----

  datatype File = File(content: string, mtime: real, size: nat)

  const CACHE_VERSION := 1

  /** `Unreadable`: there is no cache file, or it is not JSON. */
  datatype CacheFile = Unreadable | Payload(version: int, notes: seq<map<string, Json>>)

  /** `parse_note(path, content, mtime, size, max_chunk_chars)`, with the limit first. */
  type Parser = (int, string, string, real, nat) -> Note

  /** What `parse_note` guarantees whatever it finds in the text. */
  ghost predicate Faithful(parse: Parser) {
    forall m, p, c, t, z :: NoteOf(parse(m, p, c, t, z), p, t)
  }

  ghost predicate NoteOf(n: Note, p: string, t: real) {
    n.path == p && n.mtime == t && WellMade(n)
  }

  /** Chunks know their place and their id (`Parser.GoodChunksPlaced`), and no tag comes twice
      (`BuiltGraph.TagsDistinct`). */
  ghost predicate WellMade(n: Note) {
    Canonical(n) && OwnIds(n) && Distinct(n.tags)
  }

  function ParseFile(parse: Parser, max: int, p: string, f: File): Note {
    parse(max, p, f.content, f.mtime, f.size)
  }

  /** `abs(a - b) < 1e-6`. */
  predicate Close(a: real, b: real) {
    -0.000001 < a - b < 0.000001
  }

  // ---- save_cache and _load_cached_notes ----

  /** `{n.path: n for n in notes}`. */
  function ByPath(notes: seq<Note>): map<string, Note> {
    if notes == [] then map[] else ByPath(notes[..|notes| - 1])[notes[|notes| - 1].path := notes[|notes| - 1]]
  }

  /** `None` stands for the KeyError of a note without its path or a chunk without its id. */
  function ReadNotes(ds: seq<map<string, Json>>): Option<seq<Note>> {
    if ds == [] then Some([])
    else match (ReadNotes(ds[..|ds| - 1]), NoteFromDict(ds[|ds| - 1]))
      case (Some(ns), Some(n)) => Some(ns + [n])
      case _ => None
  }

  function LoadNotes(cache: CacheFile): map<string, Note> {
    if cache.Unreadable? || cache.version != CACHE_VERSION then map[]
    else match ReadNotes(cache.notes)
      case None => map[]
      case Some(ns) => ByPath(ns)
  }

  function Dicts(notes: seq<Note>): seq<map<string, Json>> {
    seq(|notes|, i requires 0 <= i < |notes| => NoteToDict(notes[i]))
  }

  function Saved(notes: seq<Note>): CacheFile {
    Payload(CACHE_VERSION, Dicts(notes))
  }

  lemma {:induction false} ReadNotesAppend(ds: seq<map<string, Json>>, d: map<string, Json>, ns: seq<Note>, n: Note)
    requires ReadNotes(ds) == Some(ns) && NoteFromDict(d) == Some(n)
    ensures ReadNotes(ds + [d]) == Some(ns + [n])
  {
    assert (ds + [d])[..|ds|] == ds;
  }

  lemma {:induction false} DictsAppend(notes: seq<Note>, n: Note)
    ensures Dicts(notes + [n]) == Dicts(notes) + [NoteToDict(n)]
  {
  }

  lemma {:induction false} NotesRoundTrip(notes: seq<Note>)
    requires forall n :: n in notes ==> Canonical(n)
    ensures ReadNotes(Dicts(notes)) == Some(notes)
  {
    if notes == [] {
      assert Dicts(notes) == [];
    } else {
      var front, last := notes[..|notes| - 1], notes[|notes| - 1];
      assert notes == front + [last];
      NotesRoundTrip(front);
      NoteRoundTrip(last);
      DictsAppend(front, last);
      ReadNotesAppend(Dicts(front), NoteToDict(last), front, last);
    }
  }

  /** What is saved is loaded again. */
  lemma {:induction false} SaveLoad(notes: seq<Note>)
    requires forall n :: n in notes ==> Canonical(n)
    ensures LoadNotes(Saved(notes)) == ByPath(notes)
  {
    NotesRoundTrip(notes);
  }

  lemma {:induction false} ReadNotesAre(ds: seq<map<string, Json>>)
    ensures ReadNotes(ds).None? <==> exists i :: 0 <= i < |ds| && NoteFromDict(ds[i]).None?
    ensures ReadNotes(ds).Some? ==> |ReadNotes(ds).value| == |ds|
    ensures ReadNotes(ds).Some? ==> forall i :: 0 <= i < |ds| ==> NoteFromDict(ds[i]) == Some(ReadNotes(ds).value[i])
  {
    if ds != [] {
      var front, last := ds[..|ds| - 1], ds[|ds| - 1];
      ReadNotesAre(front);
      assert forall i :: 0 <= i < |front| ==> front[i] == ds[i];
      if ReadNotes(front).Some? && NoteFromDict(last).Some? {
        assert ReadNotes(ds).value == ReadNotes(front).value + [NoteFromDict(last).value];
      }
    }
  }

  lemma {:induction false} ByPathOf(notes: seq<Note>)
    ensures forall p :: p in ByPath(notes) ==> ByPath(notes)[p] in notes && ByPath(notes)[p].path == p
    ensures forall n :: n in notes ==> n.path in ByPath(notes)
  {
    if notes != [] {
      assert notes == notes[..|notes| - 1] + [notes[|notes| - 1]];
      ByPathOf(notes[..|notes| - 1]);
    }
  }

  /** One note without its path or with a chunk without its id, or another version, and nothing is loaded. */
  lemma {:induction false} LoadsAllOrNothing(version: int, ds: seq<map<string, Json>>)
    ensures (version != 1 || exists i :: 0 <= i < |ds| && NoteFromDict(ds[i]).None?) ==>
      LoadNotes(Payload(version, ds)) == map[]
    ensures version == 1 && (forall i :: 0 <= i < |ds| ==> NoteFromDict(ds[i]).Some?) ==>
      forall i :: 0 <= i < |ds| ==> NoteFromDict(ds[i]).value.path in LoadNotes(Payload(version, ds))
  {
    ReadNotesAre(ds);
    if version == 1 && forall i :: 0 <= i < |ds| ==> NoteFromDict(ds[i]).Some? {
      ByPathOf(ReadNotes(ds).value);
    }
  }

  // ---- choosing what to read ----

  type Stats = seq<(string, real)>

  predicate IsFresh(cached: map<string, Note>, stat: (string, real)) {
    stat.0 in cached && Close(cached[stat.0].mtime, stat.1)
  }

  function Kept(cached: map<string, Note>, stats: Stats): seq<Note> {
    if stats == [] then []
    else
      var last := stats[|stats| - 1];
      Kept(cached, stats[..|stats| - 1]) + if IsFresh(cached, last) then [cached[last.0]] else []
  }

  function ToRead(cached: map<string, Note>, stats: Stats): seq<string> {
    if stats == [] then []
    else
      var last := stats[|stats| - 1];
      ToRead(cached, stats[..|stats| - 1]) + if IsFresh(cached, last) then [] else [last.0]
  }

  ghost predicate Moved(cached: map<string, Note>, p: string, t: real) {
    p !in cached || cached[p].mtime - t >= 0.000001 || t - cached[p].mtime >= 0.000001
  }

  /** A file is read again when the cache has no note of it or its time has moved by a microsecond or more. */
  lemma {:induction false} ReadAgainExactly(cached: map<string, Note>, stats: Stats, p: string)
    ensures p in ToRead(cached, stats) <==> exists t :: (p, t) in stats && Moved(cached, p, t)
  {
    if stats != [] {
      var front, last := stats[..|stats| - 1], stats[|stats| - 1];
      ReadAgainExactly(cached, front, p);
      assert stats == front + [last];
      assert IsFresh(cached, last) <==> !Moved(cached, last.0, last.1);
      if p in ToRead(cached, front) {
        var t :| (p, t) in front && Moved(cached, p, t);
        assert (p, t) in stats;
      } else if p in ToRead(cached, stats) {
        assert p == last.0 && (p, last.1) in stats;
      }
    }
  }

  /** Otherwise the note of the cache is kept. */
  lemma {:induction false} KeptExactly(cached: map<string, Note>, stats: Stats, n: Note)
    ensures n in Kept(cached, stats) <==>
      exists p, t ::
        (p, t) in stats && p in cached && cached[p] == n && n.mtime - t < 0.000001 && t - n.mtime < 0.000001
  {
    if stats != [] {
      var front, last := stats[..|stats| - 1], stats[|stats| - 1];
      KeptExactly(cached, front, n);
      assert stats == front + [last] && last == (last.0, last.1);
    }
  }

  /** Without a cache every file is read. */
  lemma {:induction false} NothingCached(stats: Stats)
    ensures Kept(map[], stats) == [] && |ToRead(map[], stats)| == |stats|
    ensures forall i :: 0 <= i < |stats| ==> ToRead(map[], stats)[i] == stats[i].0
  {
    if stats != [] { NothingCached(stats[..|stats| - 1]); }
  }

  /** The loop of `from_vault` that decides which notes are kept and which files are read again. */
  method Choose(cached: map<string, Note>, stats: Stats) returns (kept: seq<Note>, toRead: seq<string>)
    ensures kept == Kept(cached, stats) && toRead == ToRead(cached, stats)
  {
    kept, toRead := [], [];
    ghost var seen: Stats := [];
    for i := 0 to |stats|
      invariant seen == stats[..i] && kept == Kept(cached, seen) && toRead == ToRead(cached, seen)
    {
      var (rel, mtime) := stats[i];
      if rel in cached && Close(cached[rel].mtime, mtime) {
        kept := kept + [cached[rel]];
      } else {
        toRead := toRead + [rel];
      }
      assert (seen + [stats[i]])[..|seen|] == seen;
      seen := seen + [stats[i]];
    }
    assert seen == stats;
  }

  // ---- the state machine ----

  datatype Config = Config(useCache: bool, max: int)

  /** Where a refresh is. `Reading`: the workers have looked at `seen` and are done with `read`. */
  datatype Phase =
    | Idle
    | Walking(config: Config)
    | Statting(config: Config, todo: seq<string>, stats: Stats)
    | Reading(config: Config, kept: seq<Note>, toRead: seq<string>, seen: map<string, (real, nat)>,
      read: map<string, Option<Note>>)
    | Built(config: Config, notes: seq<Note>)

  /** `used`: every modification time a path ever had. `quiet`: nothing changed since the refresh began. `found`: the
      notes the refresh found in the cache. */
  datatype State = State(disk: map<string, File>, ghost used: set<(string, real)>, cache: CacheFile, phase: Phase,
                         ghost quiet: bool, ghost found: map<string, Note>)

  datatype Step =
    | Edit(path: string, file: File)
    | Delete(path: string)
    | Tamper(cache: CacheFile)
    | Begin(config: Config)
    | Walk(listed: seq<string>)
    | Stat
    | Load
    | WorkerStat(path: string)
    | WorkerRead(path: string)
    | Collect
    | Save

  /** The notes the workers delivered, in the order of their tasks. */
  function Delivered(toRead: seq<string>, read: map<string, Option<Note>>): seq<Note> {
    if toRead == [] then []
    else
      var p := toRead[|toRead| - 1];
      Delivered(toRead[..|toRead| - 1], read) + if p in read && read[p].Some? then [read[p].value] else []
  }

  ghost predicate Enabled(s: State, step: Step) {
    match step
    case Edit(p, f) => true
    case Delete(p) => p in s.disk
    case Tamper(c) => LoadNotes(c) == map[]
    case Begin(config) => s.phase.Idle?
    case Walk(listed) => s.phase.Walking? && Distinct(listed) && (s.quiet ==> forall p :: p in listed <==> p in s.disk)
    case Stat => s.phase.Statting? && s.phase.todo != []
    case Load => s.phase.Statting? && s.phase.todo == []
    case WorkerStat(p) => s.phase.Reading? && p in s.phase.toRead && p !in s.phase.seen && p !in s.phase.read
    case WorkerRead(p) => s.phase.Reading? && p in s.phase.seen && p !in s.phase.read
    case Collect => s.phase.Reading? && forall p :: p in s.phase.toRead ==> p in s.phase.read
    case Save => s.phase.Built?
  }

  ghost function StatNext(s: State): Phase
    requires Enabled(s, Stat)
  {
    var p := s.phase.todo[0];
    s.phase.(todo := s.phase.todo[1..], stats := s.phase.stats + if p in s.disk then [(p, s.disk[p].mtime)] else [])
  }

  ghost function Found(s: State): map<string, Note>
    requires s.phase.Statting?
  {
    if s.phase.config.useCache then LoadNotes(s.cache) else map[]
  }

  ghost function LoadAndChoose(s: State): Phase
    requires Enabled(s, Load)
  {
    Reading(s.phase.config, Kept(Found(s), s.phase.stats), ToRead(Found(s), s.phase.stats), map[], map[])
  }

  /** A file that is gone leaves its worker without a note. */
  ghost function WorkerStats(s: State, p: string): Phase
    requires Enabled(s, WorkerStat(p))
  {
    if p in s.disk then s.phase.(seen := s.phase.seen[p := (s.disk[p].mtime, s.disk[p].size)])
    else s.phase.(read := s.phase.read[p := None])
  }

  /** The content is read after the time was taken, so the two need not belong together. */
  ghost function WorkerReads(parse: Parser, s: State, p: string): Phase
    requires Enabled(s, WorkerRead(p))
  {
    var (t, z) := s.phase.seen[p];
    s.phase.(read := s.phase.read[p := if p in s.disk then Some(parse(s.phase.config.max, p, s.disk[p].content, t, z))
      else None])
  }

  ghost function After(parse: Parser, s: State, step: Step): State
    requires Enabled(s, step)
  {
    match step
    case Edit(p, f) => s.(disk := s.disk[p := f], used := s.used + {(p, f.mtime)}, quiet := false)
    case Delete(p) => s.(disk := s.disk - {p}, quiet := false)
    case Tamper(c) => s.(cache := c)
    case Begin(config) => s.(phase := Walking(config), quiet := true)
    case Walk(listed) => s.(phase := Statting(s.phase.config, listed, []))
    case Stat => s.(phase := StatNext(s))
    case Load => s.(phase := LoadAndChoose(s), found := Found(s))
    case WorkerStat(p) => s.(phase := WorkerStats(s, p))
    case WorkerRead(p) => s.(phase := WorkerReads(parse, s, p))
    case Collect => s.(phase := Built(s.phase.config, s.phase.kept + Delivered(s.phase.toRead, s.phase.read)))
    case Save => s.(cache := if s.phase.config.useCache then Saved(s.phase.notes) else s.cache, phase := Idle)
  }

  const START := State(map[], {}, Unreadable, Idle, false, map[])

  ghost predicate Possible(parse: Parser, steps: seq<Step>)
    decreases |steps|, 0
  {
    steps == [] || (Possible(parse, steps[..|steps| - 1])
      && Enabled(Final(parse, steps[..|steps| - 1]), steps[|steps| - 1]))
  }

  ghost function Final(parse: Parser, steps: seq<Step>): State
    requires Possible(parse, steps)
    decreases |steps|, 1
  {
    if steps == [] then START else After(parse, Final(parse, steps[..|steps| - 1]), steps[|steps| - 1])
  }

  // ---- the assumptions of the main result ----

  /** An edit gives the file a modification time its path never had before. */
  ghost predicate FreshTime(used: set<(string, real)>, step: Step) {
    step.Edit? ==> forall t :: (step.path, t) in used ==> !Close(t, step.file.mtime)
  }

  /** It differs from all earlier times by a microsecond at least. */
  lemma {:induction false} FreshTimeIs(used: set<(string, real)>, p: string, f: File)
    ensures FreshTime(used, Edit(p, f)) <==>
      forall t :: (p, t) in used ==> f.mtime <= t - 0.000001 || f.mtime >= t + 0.000001
  {
    if FreshTime(used, Edit(p, f)) {
      forall t | (p, t) in used ensures f.mtime <= t - 0.000001 || f.mtime >= t + 0.000001 {
        assert !Close(t, f.mtime);
      }
    } else {
      var t :| (p, t) in used && Close(t, f.mtime);
    }
  }

  ghost predicate Regular(s: State, step: Step, max: int) {
    FreshTime(s.used, step) && (step.Begin? ==> step.config.max == max)
  }

  /** Every edit gives a fresh time, and every refresh uses the same limit. */
  ghost predicate RegularRun(parse: Parser, steps: seq<Step>, max: int)
    requires Possible(parse, steps)
    decreases |steps|
  {
    steps == [] || (RegularRun(parse, steps[..|steps| - 1], max)
      && Regular(Final(parse, steps[..|steps| - 1]), steps[|steps| - 1], max))
  }

  // ---- the invariant ----

  /** If the time of `n` is that of the file on disk, `n` is the parse of that file. */
  ghost predicate GoodNote(parse: Parser, max: int, disk: map<string, File>, used: set<(string, real)>, p: string,
                           n: Note)
  {
    && n.path == p && WellMade(n) && (p, n.mtime) in used
    && (p in disk && Close(n.mtime, disk[p].mtime) ==> n == ParseFile(parse, max, p, disk[p]))
  }

  ghost predicate GoodStat(disk: map<string, File>, used: set<(string, real)>, p: string, t: real, z: nat) {
    && (p, t) in used
    && (p in disk && Close(t, disk[p].mtime) ==> t == disk[p].mtime && z == disk[p].size)
  }

  ghost predicate GoodCache(parse: Parser, max: int, disk: map<string, File>, used: set<(string, real)>,
                            cached: map<string, Note>)
  {
    forall p :: p in cached ==> GoodNote(parse, max, disk, used, p, cached[p])
  }

  ghost predicate GoodNotes(parse: Parser, max: int, disk: map<string, File>, used: set<(string, real)>,
                            notes: seq<Note>)
  {
    forall n :: n in notes ==> GoodNote(parse, max, disk, used, n.path, n)
  }

  ghost predicate GoodRead(parse: Parser, max: int, disk: map<string, File>, used: set<(string, real)>,
                           read: map<string, Option<Note>>)
  {
    forall p :: p in read && read[p].Some? ==> GoodNote(parse, max, disk, used, p, read[p].value)
  }

  ghost predicate GoodSeen(disk: map<string, File>, used: set<(string, real)>, seen: map<string, (real, nat)>) {
    forall p :: p in seen ==> GoodStat(disk, used, p, seen[p].0, seen[p].1)
  }

  function Listed(stats: Stats): seq<string> {
    seq(|stats|, i requires 0 <= i < |stats| => stats[i].0)
  }

  function PathsOf(notes: seq<Note>): seq<string> {
    seq(|notes|, i requires 0 <= i < |notes| => notes[i].path)
  }

  lemma {:induction false} PathsDistinct(notes: seq<Note>)
    ensures Distinct(PathsOf(notes)) <==> DistinctPaths(notes)
  {
    var ps := PathsOf(notes);
    assert forall i :: 0 <= i < |notes| ==> ps[i] == notes[i].path;
    if Distinct(ps) {
      forall i, j | 0 <= i < j < |notes| ensures notes[i].path != notes[j].path { assert ps[i] != ps[j]; }
    }
  }

  ghost predicate GoodPhase(parse: Parser, max: int, disk: map<string, File>, used: set<(string, real)>, phase: Phase) {
    && (!phase.Idle? ==> phase.config.max == max)
    && (phase.Statting? ==> Distinct(phase.todo + Listed(phase.stats)))
    && (phase.Reading? ==> GoodNotes(parse, max, disk, used, phase.kept) && GoodSeen(disk, used, phase.seen)
                           && GoodRead(parse, max, disk, used, phase.read)
                             && Distinct(PathsOf(phase.kept) + phase.toRead))
    && (phase.Built? ==> GoodNotes(parse, max, disk, used, phase.notes) && DistinctPaths(phase.notes))
  }

  ghost predicate TimesUsed(disk: map<string, File>, used: set<(string, real)>) {
    forall p :: p in disk ==> (p, disk[p].mtime) in used
  }

  ghost predicate Inv(parse: Parser, max: int, s: State) {
    && TimesUsed(s.disk, s.used)
    && GoodCache(parse, max, s.disk, s.used, LoadNotes(s.cache))
    && GoodPhase(parse, max, s.disk, s.used, s.phase)
  }

  // ---- the steps of the environment ----

  lemma {:induction false} EditKeepsNote(parse: Parser, max: int, disk: map<string, File>, used: set<(string, real)>,
                                         p: string, f: File, q: string, n: Note)
    requires GoodNote(parse, max, disk, used, q, n) && forall t :: (p, t) in used ==> !Close(t, f.mtime)
    ensures GoodNote(parse, max, disk[p := f], used + {(p, f.mtime)}, q, n)
  {
  }

  lemma {:induction false} EditKeepsStat(disk: map<string, File>, used: set<(string, real)>, p: string, f: File,
                                         q: string, t: real, z: nat)
    requires GoodStat(disk, used, q, t, z) && forall u :: (p, u) in used ==> !Close(u, f.mtime)
    ensures GoodStat(disk[p := f], used + {(p, f.mtime)}, q, t, z)
  {
  }

  lemma {:induction false} EditKeepsPhase(parse: Parser, max: int, disk: map<string, File>, used: set<(string, real)>,
                                          p: string, f: File, phase: Phase)
    requires GoodPhase(parse, max, disk, used, phase) && forall t :: (p, t) in used ==> !Close(t, f.mtime)
    ensures GoodPhase(parse, max, disk[p := f], used + {(p, f.mtime)}, phase)
  {
    if phase.Reading? {
      forall n | n in phase.kept { EditKeepsNote(parse, max, disk, used, p, f, n.path, n); }
      forall q | q in phase.read && phase.read[q].Some? {
        EditKeepsNote(parse, max, disk, used, p, f, q, phase.read[q].value);
      }
      forall q | q in phase.seen { EditKeepsStat(disk, used, p, f, q, phase.seen[q].0, phase.seen[q].1); }
    } else if phase.Built? {
      forall n | n in phase.notes { EditKeepsNote(parse, max, disk, used, p, f, n.path, n); }
    }
  }

  lemma {:induction false} EditKeeps(parse: Parser, max: int, s: State, p: string, f: File)
    requires Inv(parse, max, s) && FreshTime(s.used, Edit(p, f))
    ensures Inv(parse, max, After(parse, s, Edit(p, f)))
  {
    var cached := LoadNotes(s.cache);
    forall q | q in cached { EditKeepsNote(parse, max, s.disk, s.used, p, f, q, cached[q]); }
    EditKeepsPhase(parse, max, s.disk, s.used, p, f, s.phase);
  }

  lemma {:induction false} DeleteKeeps(parse: Parser, max: int, s: State, p: string)
    requires Inv(parse, max, s) && Enabled(s, Delete(p))
    ensures Inv(parse, max, After(parse, s, Delete(p)))
  {
    var disk := s.disk - {p};
    assert GoodCache(parse, max, disk, s.used, LoadNotes(s.cache));
    assert GoodPhase(parse, max, disk, s.used, s.phase);
  }

  // ---- the steps of a refresh ----

  lemma {:induction false} StatKeeps(parse: Parser, max: int, s: State)
    requires Inv(parse, max, s) && Enabled(s, Stat)
    ensures Inv(parse, max, After(parse, s, Stat))
  {
    StatDistinct(s);
  }

  lemma {:induction false} StatDistinct(s: State)
    requires Enabled(s, Stat) && Distinct(s.phase.todo + Listed(s.phase.stats))
    ensures Distinct(StatNext(s).todo + Listed(StatNext(s).stats))
  {
    var p, next := s.phase.todo[0], StatNext(s);
    var rest := next.todo + Listed(s.phase.stats);
    assert s.phase.todo + Listed(s.phase.stats) == [p] + rest;
    RotateDistinct(p, rest);
    assert next.todo + Listed(next.stats) == if p in s.disk then rest + [p] else rest;
  }

  lemma {:induction false} RotateDistinct(x: string, rest: seq<string>)
    requires Distinct([x] + rest)
    ensures Distinct(rest) && Distinct(rest + [x])
  {
    var all := [x] + rest;
    assert all[0] == x && forall i :: 0 <= i < |rest| ==> all[i + 1] == rest[i];
  }

  lemma {:induction false} ChosenListed(cached: map<string, Note>, stats: Stats)
    requires forall p :: p in cached ==> cached[p].path == p
    requires Distinct(Listed(stats))
    ensures Distinct(PathsOf(Kept(cached, stats)) + ToRead(cached, stats))
    ensures forall p :: p in PathsOf(Kept(cached, stats)) + ToRead(cached, stats) <==> p in Listed(stats)
  {
    if stats != [] {
      var front, last := stats[..|stats| - 1], stats[|stats| - 1];
      assert Listed(stats) == Listed(front) + [last.0];
      PrefixDistinct(Listed(front), last.0);
      ChosenListed(cached, front);
      var all := PathsOf(Kept(cached, front)) + ToRead(cached, front);
      assert last.0 !in all;
      if IsFresh(cached, last) {
        assert ToRead(cached, stats) == ToRead(cached, front);
        assert PathsOf(Kept(cached, stats)) == PathsOf(Kept(cached, front)) + [last.0];
        InsertDistinct(PathsOf(Kept(cached, front)), last.0, ToRead(cached, front));
      } else {
        assert all + [] == all;
        InsertDistinct(all, last.0, []);
        assert PathsOf(Kept(cached, stats)) + ToRead(cached, stats) == all + [last.0] + [];
      }
    }
  }

  lemma {:induction false} PrefixDistinct(a: seq<string>, x: string)
    requires Distinct(a + [x])
    ensures Distinct(a) && x !in a
  {
    var s := a + [x];
    assert s[|a|] == x && forall i :: 0 <= i < |a| ==> s[i] == a[i];
  }

  lemma {:induction false} InsertDistinct(a: seq<string>, x: string, b: seq<string>)
    requires Distinct(a + b) && x !in a + b
    ensures Distinct(a + [x] + b)
    ensures forall y :: y in a + [x] + b <==> y == x || y in a + b
  {
    var s, t := a + b, a + [x] + b;
    assert forall i :: 0 <= i < |a| ==> t[i] == s[i];
    assert forall i :: |a| < i < |t| ==> t[i] == s[i - 1];
    assert t[|a|] == x;
  }

  lemma {:induction false} KeptCached(cached: map<string, Note>, stats: Stats, n: Note)
    requires n in Kept(cached, stats)
    ensures exists i :: 0 <= i < |stats| && IsFresh(cached, stats[i]) && cached[stats[i].0] == n
  {
    if n in Kept(cached, stats[..|stats| - 1]) {
      KeptCached(cached, stats[..|stats| - 1], n);
      var i :| 0 <= i < |stats| - 1 && IsFresh(cached, stats[..|stats| - 1][i])
        && cached[stats[..|stats| - 1][i].0] == n;
      assert stats[..|stats| - 1][i] == stats[i];
    }
  }

  lemma {:induction false} LoadKeeps(parse: Parser, max: int, s: State)
    requires Inv(parse, max, s) && Enabled(s, Load)
    ensures Inv(parse, max, After(parse, s, Load))
  {
    var cached, stats := Found(s), s.phase.stats;
    assert s.phase.todo + Listed(stats) == Listed(stats);
    ChosenListed(cached, stats);
    forall n | n in Kept(cached, stats) ensures GoodNote(parse, max, s.disk, s.used, n.path, n) {
      KeptCached(cached, stats, n);
    }
  }

  lemma {:induction false} WorkerReadKeeps(parse: Parser, max: int, s: State, p: string)
    requires Faithful(parse) && Inv(parse, max, s) && Enabled(s, WorkerRead(p))
    ensures Inv(parse, max, After(parse, s, WorkerRead(p)))
  {
    if p in s.disk {
      var (t, z) := s.phase.seen[p];
      var n := parse(max, p, s.disk[p].content, t, z);
      assert NoteOf(n, p, t);
      assert GoodNote(parse, max, s.disk, s.used, p, n);
    }
  }

  lemma {:induction false} DeliveredNotes(toRead: seq<string>, read: map<string, Option<Note>>, a: seq<string>)
    requires Distinct(a + toRead) && forall p :: p in read && read[p].Some? ==> read[p].value.path == p
    ensures Distinct(a + PathsOf(Delivered(toRead, read)))
    ensures forall n :: n in Delivered(toRead, read) <==> n.path in toRead && n.path in read && read[n.path] == Some(n)
  {
    if toRead != [] {
      var front, p := toRead[..|toRead| - 1], toRead[|toRead| - 1];
      assert toRead == front + [p];
      assert a + toRead == a + front + [p];
      PrefixDistinct(a + front, p);
      DeliveredNotes(front, read, a);
      var ds := Delivered(front, read);
      if p in read && read[p].Some? {
        assert Delivered(toRead, read) == ds + [read[p].value];
        assert PathsOf(Delivered(toRead, read)) == PathsOf(ds) + [p];
        assert p !in PathsOf(ds);
        InsertDistinct(a + PathsOf(ds), p, []);
        assert a + PathsOf(ds) + [] == a + PathsOf(ds) && a + (PathsOf(ds) + [p]) == a + PathsOf(ds) + [p] + [];
      } else {
        assert Delivered(toRead, read) == ds;
      }
    }
  }

  lemma {:induction false} CollectKeeps(parse: Parser, max: int, s: State)
    requires Inv(parse, max, s) && Enabled(s, Collect)
    ensures Inv(parse, max, After(parse, s, Collect))
  {
    var ds := Delivered(s.phase.toRead, s.phase.read);
    DeliveredNotes(s.phase.toRead, s.phase.read, PathsOf(s.phase.kept));
    assert PathsOf(s.phase.kept + ds) == PathsOf(s.phase.kept) + PathsOf(ds);
    PathsDistinct(s.phase.kept + ds);
  }

  lemma {:induction false} SaveKeeps(parse: Parser, max: int, s: State)
    requires Inv(parse, max, s) && Enabled(s, Save)
    ensures Inv(parse, max, After(parse, s, Save))
  {
    if s.phase.config.useCache {
      SaveLoad(s.phase.notes);
      ByPathOf(s.phase.notes);
    }
  }

  /** Whatever step is taken, every note in hand whose time matches the disk is the parse of the disk. */
  lemma {:induction false} StepKeeps(parse: Parser, max: int, s: State, step: Step)
    requires Faithful(parse) && Inv(parse, max, s) && Enabled(s, step) && Regular(s, step, max)
    ensures Inv(parse, max, After(parse, s, step))
  {
    match step
    case Edit(p, f) => EditKeeps(parse, max, s, p, f);
    case Delete(p) => DeleteKeeps(parse, max, s, p);
    case Tamper(c) =>
    case Begin(config) =>
    case Walk(listed) => assert listed + Listed([]) == listed;
    case Stat => StatKeeps(parse, max, s);
    case Load => LoadKeeps(parse, max, s);
    case WorkerStat(p) =>
    case WorkerRead(p) => WorkerReadKeeps(parse, max, s, p);
    case Collect => CollectKeeps(parse, max, s);
    case Save => SaveKeeps(parse, max, s);
  }

  lemma {:induction false} RunKeeps(parse: Parser, steps: seq<Step>, max: int)
    requires Faithful(parse) && Possible(parse, steps) && RegularRun(parse, steps, max)
    ensures Inv(parse, max, Final(parse, steps))
    decreases |steps|
  {
    if steps != [] {
      var before := steps[..|steps| - 1];
      RunKeeps(parse, before, max);
      StepKeeps(parse, max, Final(parse, before), steps[|steps| - 1]);
    }
  }
}
