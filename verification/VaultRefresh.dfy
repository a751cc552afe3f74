/** A refresh during which nothing changes sees exactly the disk, whatever happened before it. */
module VaultRefresh {
  import opened Models
  import opened Sorting
  import opened Wrappers
  import opened VaultCache

  /** What reading every file from scratch gives. */
  function FullRead(parse: Parser, max: int, disk: map<string, File>): map<string, Note> {
    map p | p in disk :: ParseFile(parse, max, p, disk[p])
  }

  ghost predicate ParseOf(parse: Parser, max: int, disk: map<string, File>, p: string, n: Note) {
    p in disk && n == ParseFile(parse, max, p, disk[p])
  }

  ghost predicate Exact(parse: Parser, max: int, disk: map<string, File>, notes: seq<Note>) {
    forall n :: n in notes ==> ParseOf(parse, max, disk, n.path, n)
  }

  // ---- what holds in every run ----

  ghost predicate SaneNotes(notes: map<string, Note>) {
    forall p :: p in notes ==> notes[p].path == p && WellMade(notes[p])
  }

  ghost predicate AllWellMade(notes: seq<Note>) {
    forall n :: n in notes ==> WellMade(n)
  }

  ghost predicate SaneRead(read: map<string, Option<Note>>) {
    forall p :: p in read && read[p].Some? ==> read[p].value.path == p && WellMade(read[p].value)
  }

  ghost predicate SanePhase(phase: Phase) {
    match phase
    case Statting(_, todo, stats) => Distinct(todo + Listed(stats))
    case Reading(_, kept, toRead, _, read) => AllWellMade(kept) && SaneRead(read) && Distinct(PathsOf(kept) + toRead)
    case Built(_, notes) => AllWellMade(notes) && DistinctPaths(notes)
    case _ => true
  }

  ghost predicate Sane(s: State) {
    SaneNotes(LoadNotes(s.cache)) && SaneNotes(s.found) && SanePhase(s.phase)
  }

  lemma {:induction false} LoadSane(parse: Parser, s: State)
    requires Sane(s) && Enabled(s, Load)
    ensures Sane(After(parse, s, Load))
  {
    var cached, stats := Found(s), s.phase.stats;
    assert s.phase.todo + Listed(stats) == Listed(stats);
    ChosenListed(cached, stats);
    forall n | n in Kept(cached, stats) ensures WellMade(n) { KeptCached(cached, stats, n); }
  }

  lemma {:induction false} WorkerReadSane(parse: Parser, s: State, p: string)
    requires Faithful(parse) && Sane(s) && Enabled(s, WorkerRead(p))
    ensures Sane(After(parse, s, WorkerRead(p)))
  {
    if p in s.disk {
      var (t, z) := s.phase.seen[p];
      assert NoteOf(parse(s.phase.config.max, p, s.disk[p].content, t, z), p, t);
    }
  }

  lemma {:induction false} CollectSane(parse: Parser, s: State)
    requires Sane(s) && Enabled(s, Collect)
    ensures Sane(After(parse, s, Collect))
  {
    var ds := Delivered(s.phase.toRead, s.phase.read);
    DeliveredNotes(s.phase.toRead, s.phase.read, PathsOf(s.phase.kept));
    assert PathsOf(s.phase.kept + ds) == PathsOf(s.phase.kept) + PathsOf(ds);
    PathsDistinct(s.phase.kept + ds);
  }

  lemma {:induction false} SaveSane(parse: Parser, s: State)
    requires Sane(s) && Enabled(s, Save)
    ensures Sane(After(parse, s, Save))
  {
    SaveLoad(s.phase.notes);
    ByPathOf(s.phase.notes);
  }

  lemma {:induction false} StepSane(parse: Parser, s: State, step: Step)
    requires Faithful(parse) && Sane(s) && Enabled(s, step)
    ensures Sane(After(parse, s, step))
  {
    match step
    case Walk(listed) => assert listed + Listed([]) == listed;
    case Stat => StatDistinct(s);
    case Load => LoadSane(parse, s);
    case WorkerRead(p) => WorkerReadSane(parse, s, p);
    case Collect => CollectSane(parse, s);
    case Save => SaveSane(parse, s);
    case _ =>
  }

  // ---- what holds while a refresh stays quiet ----

  ghost predicate SettledStats(disk: map<string, File>, todo: seq<string>, stats: Stats) {
    && (forall i :: 0 <= i < |stats| ==> stats[i].0 in disk && stats[i].1 == disk[stats[i].0].mtime)
    && (forall p :: p in todo ==> p in disk)
    && forall p :: p in disk ==> p in todo + Listed(stats)
  }

  /** The refresh trusts the cache for this file: it was found there with the time it has on disk. */
  ghost predicate Trusted(found: map<string, Note>, disk: map<string, File>, p: string) {
    p in disk && p in found && Close(found[p].mtime, disk[p].mtime)
  }

  /** Of the notes found in the cache, `notes` holds those that are trusted. */
  ghost predicate HoldsTrusted(notes: seq<Note>, found: map<string, Note>, disk: map<string, File>) {
    forall p :: Trusted(found, disk, p) ==> found[p] in notes
  }

  ghost predicate FromCache(n: Note, found: map<string, Note>, disk: map<string, File>) {
    Trusted(found, disk, n.path) && n == found[n.path]
  }

  ghost predicate SettledReading(parse: Parser, disk: map<string, File>, found: map<string, Note>, r: Phase)
    requires r.Reading?
  {
    && (forall n :: n in r.kept ==> FromCache(n, found, disk)) && HoldsTrusted(r.kept, found, disk)
    && (forall p :: p in r.toRead ==> p in disk)
    && (forall p :: p in disk ==> p in PathsOf(r.kept) + r.toRead)
    && (forall p :: p in r.seen ==> p in disk && r.seen[p] == (disk[p].mtime, disk[p].size))
    && forall p :: p in r.read ==> r.read[p].Some? && ParseOf(parse, r.config.max, disk, p, r.read[p].value)
  }

  /** The refresh ends with the trusted notes and the parses of all other files. */
  ghost predicate SettledBuilt(parse: Parser, max: int, disk: map<string, File>, found: map<string, Note>,
                               notes: seq<Note>)
  {
    && (forall n :: n in notes ==> FromCache(n, found, disk) || ParseOf(parse, max, disk, n.path, n))
    && HoldsTrusted(notes, found, disk)
    && forall p :: p in disk ==> p in PathsOf(notes)
  }

  ghost predicate Settled(parse: Parser, s: State) {
    s.quiet ==>
      && (s.phase.Statting? ==> SettledStats(s.disk, s.phase.todo, s.phase.stats))
      && (s.phase.Reading? ==> SettledReading(parse, s.disk, s.found, s.phase))
      && (s.phase.Built? ==> SettledBuilt(parse, s.phase.config.max, s.disk, s.found, s.phase.notes))
  }

  lemma {:induction false} StatSettles(parse: Parser, s: State)
    requires Settled(parse, s) && Enabled(s, Stat)
    ensures Settled(parse, After(parse, s, Stat))
  {
    if s.quiet {
      var p, next := s.phase.todo[0], StatNext(s);
      assert s.phase.todo == [p] + next.todo;
      assert Listed(next.stats) == Listed(s.phase.stats) + [p];
    }
  }

  lemma {:induction false} KeptAt(cached: map<string, Note>, stats: Stats, i: nat)
    requires i < |stats| && IsFresh(cached, stats[i])
    ensures cached[stats[i].0] in Kept(cached, stats)
  {
    if i < |stats| - 1 { KeptAt(cached, stats[..|stats| - 1], i); }
  }

  lemma {:induction false} KeptTrusted(found: map<string, Note>, disk: map<string, File>, stats: Stats)
    requires SaneNotes(found) && SettledStats(disk, [], stats)
    ensures forall n :: n in Kept(found, stats) ==> FromCache(n, found, disk)
    ensures HoldsTrusted(Kept(found, stats), found, disk)
  {
    forall n | n in Kept(found, stats) ensures FromCache(n, found, disk) { KeptCached(found, stats, n); }
    forall p | Trusted(found, disk, p) ensures found[p] in Kept(found, stats) {
      assert p in [] + Listed(stats);
      var i :| 0 <= i < |stats| && Listed(stats)[i] == p;
      KeptAt(found, stats, i);
    }
  }

  lemma {:induction false} ChosenCover(found: map<string, Note>, disk: map<string, File>, stats: Stats)
    requires SaneNotes(found) && SettledStats(disk, [], stats) && Distinct(Listed(stats))
    ensures forall p :: p in ToRead(found, stats) ==> p in disk
    ensures forall p :: p in disk ==> p in PathsOf(Kept(found, stats)) + ToRead(found, stats)
  {
    ChosenListed(found, stats);
    forall p | p in ToRead(found, stats) ensures p in disk {
      assert p in PathsOf(Kept(found, stats)) + ToRead(found, stats);
      var i :| 0 <= i < |stats| && Listed(stats)[i] == p;
    }
    forall p | p in disk ensures p in PathsOf(Kept(found, stats)) + ToRead(found, stats) {
      assert p in [] + Listed(stats);
    }
  }

  lemma {:induction false} LoadSettles(parse: Parser, s: State)
    requires Sane(s) && Settled(parse, s) && Enabled(s, Load)
    ensures Settled(parse, After(parse, s, Load))
  {
    if s.quiet {
      var stats := s.phase.stats;
      assert s.phase.todo + Listed(stats) == Listed(stats);
      KeptTrusted(Found(s), s.disk, stats);
      ChosenCover(Found(s), s.disk, stats);
    }
  }

  lemma {:induction false} DeliveredPath(parse: Parser, disk: map<string, File>, found: map<string, Note>, r: Phase,
                                         p: string)
    requires r.Reading? && SettledReading(parse, disk, found, r) && SanePhase(r) && p in r.toRead && p in r.read
    ensures p in PathsOf(Delivered(r.toRead, r.read))
  {
    var ds, n := Delivered(r.toRead, r.read), r.read[p].value;
    DeliveredNotes(r.toRead, r.read, PathsOf(r.kept));
    assert n in ds;
    var i :| 0 <= i < |ds| && ds[i] == n;
    assert PathsOf(ds)[i] == p;
  }

  lemma {:induction false} BuiltOf(parse: Parser, max: int, disk: map<string, File>, found: map<string, Note>,
                                   a: seq<Note>, b: seq<Note>)
    requires (forall n :: n in a ==> FromCache(n, found, disk)) && HoldsTrusted(a, found, disk)
      && Exact(parse, max, disk, b)
    requires forall p :: p in disk ==> p in PathsOf(a) + PathsOf(b)
    ensures SettledBuilt(parse, max, disk, found, a + b)
  {
    assert PathsOf(a + b) == PathsOf(a) + PathsOf(b);
  }

  lemma {:induction false} DeliveredSettles(parse: Parser, disk: map<string, File>, found: map<string, Note>, r: Phase)
    requires r.Reading? && SettledReading(parse, disk, found, r) && SanePhase(r)
      && forall p :: p in r.toRead ==> p in r.read
    ensures SettledBuilt(parse, r.config.max, disk, found, r.kept + Delivered(r.toRead, r.read))
  {
    DeliveredExact(parse, disk, found, r);
    DeliveredCover(parse, disk, found, r);
    BuiltOf(parse, r.config.max, disk, found, r.kept, Delivered(r.toRead, r.read));
  }

  lemma {:induction false} DeliveredExact(parse: Parser, disk: map<string, File>, found: map<string, Note>, r: Phase)
    requires r.Reading? && SettledReading(parse, disk, found, r) && SanePhase(r)
    ensures Exact(parse, r.config.max, disk, Delivered(r.toRead, r.read))
  {
    DeliveredNotes(r.toRead, r.read, PathsOf(r.kept));
    forall n | n in Delivered(r.toRead, r.read) ensures ParseOf(parse, r.config.max, disk, n.path, n) {
      assert r.read[n.path].value == n;
    }
  }

  lemma {:induction false} DeliveredCover(parse: Parser, disk: map<string, File>, found: map<string, Note>, r: Phase)
    requires r.Reading? && SettledReading(parse, disk, found, r) && SanePhase(r)
      && forall p :: p in r.toRead ==> p in r.read
    ensures forall p :: p in disk ==> p in PathsOf(r.kept) + PathsOf(Delivered(r.toRead, r.read))
  {
    forall p | p in disk ensures p in PathsOf(r.kept) + PathsOf(Delivered(r.toRead, r.read)) {
      if p in r.toRead { DeliveredPath(parse, disk, found, r, p); }
    }
  }

  lemma {:induction false} CollectSettles(parse: Parser, s: State)
    requires Sane(s) && Settled(parse, s) && Enabled(s, Collect)
    ensures Settled(parse, After(parse, s, Collect))
  {
    if s.quiet { DeliveredSettles(parse, s.disk, s.found, s.phase); }
  }

  lemma {:induction false} WorkerSettles(parse: Parser, s: State, step: Step)
    requires Settled(parse, s) && Enabled(s, step) && (step.WorkerStat? || step.WorkerRead?)
    ensures Settled(parse, After(parse, s, step))
  {
  }

  lemma {:induction false} StepSettles(parse: Parser, s: State, step: Step)
    requires Sane(s) && Settled(parse, s) && Enabled(s, step)
    ensures Settled(parse, After(parse, s, step))
  {
    match step
    case Edit(p, f) =>
    case Delete(p) =>
    case Tamper(c) =>
    case Begin(config) =>
    case Walk(listed) => assert listed + Listed([]) == listed;
    case Stat => StatSettles(parse, s);
    case Load => LoadSettles(parse, s);
    case WorkerStat(p) => WorkerSettles(parse, s, step);
    case WorkerRead(p) => WorkerSettles(parse, s, step);
    case Collect => CollectSettles(parse, s);
    case Save =>
  }

  lemma {:induction false} RunSettles(parse: Parser, steps: seq<Step>)
    requires Faithful(parse) && Possible(parse, steps)
    ensures Sane(Final(parse, steps)) && Settled(parse, Final(parse, steps))
    decreases |steps|
  {
    if steps != [] {
      var before, step := steps[..|steps| - 1], steps[|steps| - 1];
      RunSettles(parse, before);
      StepSane(parse, Final(parse, before), step);
      StepSettles(parse, Final(parse, before), step);
    }
  }

  lemma {:induction false} SameSize<K, V, W>(m: map<K, V>, n: map<K, W>)
    requires m.Keys == n.Keys
    ensures |m| == |n|
  {
    assert |m| == |m.Keys| && |n| == |n.Keys|;
  }

  lemma {:induction false} ExactMap(m: map<string, Note>, parse: Parser, max: int, disk: map<string, File>,
                                    notes: seq<Note>)
    requires Exact(parse, max, disk, notes)
    requires (forall p :: p in m <==> p in disk) && forall p :: p in m ==> m[p] in notes && m[p].path == p
    ensures m == FullRead(parse, max, disk) && m.Keys == disk.Keys
  {
    forall p | p in m ensures m[p] == ParseFile(parse, max, p, disk[p]) {
      assert ParseOf(parse, max, disk, m[p].path, m[p]);
    }
  }

  ghost predicate Complete(parse: Parser, max: int, disk: map<string, File>, notes: seq<Note>) {
    Exact(parse, max, disk, notes) && forall p :: p in disk ==> p in PathsOf(notes)
  }

  lemma {:induction false} ExactIsFullRead(parse: Parser, max: int, disk: map<string, File>, notes: seq<Note>)
    requires Complete(parse, max, disk, notes) && DistinctPaths(notes)
    ensures ByPath(notes) == FullRead(parse, max, disk) && |notes| == |disk|
  {
    ByPathOf(notes);
    forall p ensures p in ByPath(notes) <==> p in disk { BuiltPath(parse, max, disk, notes, p); }
    ExactMap(ByPath(notes), parse, max, disk, notes);
    ByPathSize(notes);
    SameSize(ByPath(notes), disk);
  }

  lemma {:induction false} BuiltPath(parse: Parser, max: int, disk: map<string, File>, notes: seq<Note>, p: string)
    requires Complete(parse, max, disk, notes)
    ensures p in ByPath(notes) <==> p in disk
  {
    ByPathListed(notes, p);
    if p in PathsOf(notes) {
      var i :| 0 <= i < |notes| && PathsOf(notes)[i] == p;
      assert notes[i] in notes;
    }
  }

  lemma {:induction false} ByPathListed(notes: seq<Note>, p: string)
    ensures p in ByPath(notes) <==> p in PathsOf(notes)
  {
    ByPathOf(notes);
    if p in ByPath(notes) {
      var i :| 0 <= i < |notes| && notes[i] == ByPath(notes)[p];
      assert PathsOf(notes)[i] == p;
    }
    if p in PathsOf(notes) {
      var i :| 0 <= i < |notes| && PathsOf(notes)[i] == p;
      assert notes[i] in notes;
    }
  }

  lemma {:induction false} ByPathSize(notes: seq<Note>)
    requires DistinctPaths(notes)
    ensures |ByPath(notes)| == |notes|
  {
    if notes != [] {
      var front, last := notes[..|notes| - 1], notes[|notes| - 1];
      assert PathsOf(notes) == PathsOf(front) + [last.path];
      PathsDistinct(notes);
      PrefixDistinct(PathsOf(front), last.path);
      PathsDistinct(front);
      ByPathSize(front);
      ByPathOf(front);
      ByPathListed(front, last.path);
      assert ByPath(notes).Keys == ByPath(front).Keys + {last.path};
    }
  }

  /** Every note the refresh trusts the cache for is the parse of its file. */
  ghost predicate Trustworthy(parse: Parser, max: int, disk: map<string, File>, found: map<string, Note>) {
    forall p :: Trusted(found, disk, p) ==> found[p] == ParseFile(parse, max, p, disk[p])
  }

  lemma {:induction false} RightIfTrustworthy(parse: Parser, max: int, disk: map<string, File>,
                                              found: map<string, Note>, notes: seq<Note>)
    requires SettledBuilt(parse, max, disk, found, notes) && DistinctPaths(notes)
      && Trustworthy(parse, max, disk, found)
    ensures ByPath(notes) == FullRead(parse, max, disk) && |notes| == |disk|
  {
    forall n | n in notes ensures ParseOf(parse, max, disk, n.path, n) { }
    ExactIsFullRead(parse, max, disk, notes);
  }

  lemma {:induction false} TrustworthyIfRight(parse: Parser, max: int, disk: map<string, File>,
                                              found: map<string, Note>, notes: seq<Note>)
    requires SettledBuilt(parse, max, disk, found, notes) && DistinctPaths(notes) && SaneNotes(found)
    requires ByPath(notes) == FullRead(parse, max, disk)
    ensures Trustworthy(parse, max, disk, found)
  {
    forall p | Trusted(found, disk, p) ensures found[p] == ParseFile(parse, max, p, disk[p]) {
      DistinctByPath(notes, found[p]);
    }
  }

  lemma {:induction false} DistinctByPath(notes: seq<Note>, n: Note)
    requires DistinctPaths(notes) && n in notes
    ensures n.path in ByPath(notes) && ByPath(notes)[n.path] == n
  {
    ByPathOf(notes);
    var m := ByPath(notes)[n.path];
    var i :| 0 <= i < |notes| && notes[i] == n;
    var j :| 0 <= j < |notes| && notes[j] == m;
  }

  /** In every run, whatever the times of the edits and the limits of earlier refreshes: a refresh during which
      nothing changed holds, path by path, the parse of the current disk if and only if each note that it found in the
      cache with the time of its file is the parse of that file. */
  lemma {:induction false} QuietRefreshExactlyWhen(parse: Parser, steps: seq<Step>)
    requires Faithful(parse) && Possible(parse, steps) && Final(parse, steps).phase.Built? && Final(parse, steps).quiet
    ensures var s := Final(parse, steps);
      && DistinctPaths(s.phase.notes)
      && (ByPath(s.phase.notes) == FullRead(parse, s.phase.config.max, s.disk) <==>
            Trustworthy(parse, s.phase.config.max, s.disk, s.found))
  {
    var s := Final(parse, steps);
    RunSettles(parse, steps);
    if Trustworthy(parse, s.phase.config.max, s.disk, s.found) {
      RightIfTrustworthy(parse, s.phase.config.max, s.disk, s.found, s.phase.notes);
    }
    if ByPath(s.phase.notes) == FullRead(parse, s.phase.config.max, s.disk) {
      TrustworthyIfRight(parse, s.phase.config.max, s.disk, s.found, s.phase.notes);
    }
  }

  /** Over any run whose edits give fresh times and whose refreshes use one limit, a refresh during which nothing
      changed holds, path by path, the parse of the current disk, each file once. */
  lemma {:induction false} QuietRefreshIsFullRead(parse: Parser, steps: seq<Step>, max: int)
    requires Faithful(parse) && Possible(parse, steps) && RegularRun(parse, steps, max)
    ensures var s := Final(parse, steps);
      s.phase.Built? && s.quiet ==>
        ByPath(s.phase.notes) == FullRead(parse, max, s.disk) && |s.phase.notes| == |s.disk|
          && DistinctPaths(s.phase.notes)
  {
    var s := Final(parse, steps);
    RunKeeps(parse, steps, max);
    RunSettles(parse, steps);
    if s.phase.Built? && s.quiet {
      RegularTrustworthy(parse, max, s);
      RightIfTrustworthy(parse, max, s.disk, s.found, s.phase.notes);
    }
  }

  lemma {:induction false} RegularTrustworthy(parse: Parser, max: int, s: State)
    requires Inv(parse, max, s) && s.phase.Built? && SaneNotes(s.found)
    requires SettledBuilt(parse, max, s.disk, s.found, s.phase.notes)
    ensures Trustworthy(parse, max, s.disk, s.found)
  {
    forall p | Trusted(s.found, s.disk, p) ensures s.found[p] == ParseFile(parse, max, p, s.disk[p]) {
      assert GoodNote(parse, max, s.disk, s.used, s.found[p].path, s.found[p]);
    }
  }

  /** Even when files change under a refresh, every note it ends with whose time is that of the file is its parse. */
  lemma {:induction false} BusyRefreshIsSound(parse: Parser, steps: seq<Step>, max: int, n: Note)
    requires Faithful(parse) && Possible(parse, steps) && RegularRun(parse, steps, max)
    requires var s := Final(parse, steps); s.phase.Built? && n in s.phase.notes
    ensures var disk := Final(parse, steps).disk;
      n.path in disk && Close(n.mtime, disk[n.path].mtime) ==> n == ParseFile(parse, max, n.path, disk[n.path])
  {
    RunKeeps(parse, steps, max);
  }

  /** After any refresh of any run, quiet or not, the index keeps every chunk of every note under its own id. */
  lemma {:induction false} NoChunkDropped(parse: Parser, steps: seq<Step>)
    requires Faithful(parse) && Possible(parse, steps) && Final(parse, steps).phase.Built?
    ensures var chunks := AllChunks(Final(parse, steps).phase.notes);
      && |ById(chunks)| == |chunks|
      && forall i :: 0 <= i < |chunks| ==>
        chunks[i].chunkId in ById(chunks) && ById(chunks)[chunks[i].chunkId] == chunks[i]
  {
    var notes := Final(parse, steps).phase.notes;
    RunSettles(parse, steps);
    ChunkIdsDistinct(notes);
    ByIdKeepsAll(AllChunks(notes));
  }

  /** A refresh that finds a full read in the cache, and the times of the disk, reads no file again. */
  lemma {:induction false} NothingReadAgain(parse: Parser, max: int, disk: map<string, File>, stats: Stats)
    requires Faithful(parse) && SettledStats(disk, [], stats)
    ensures ToRead(FullRead(parse, max, disk), stats) == []
  {
    AllFresh(parse, max, disk, stats);
  }

  lemma {:induction false} AllFresh(parse: Parser, max: int, disk: map<string, File>, stats: Stats)
    requires Faithful(parse)
      && forall i :: 0 <= i < |stats| ==> stats[i].0 in disk && stats[i].1 == disk[stats[i].0].mtime
    ensures ToRead(FullRead(parse, max, disk), stats) == []
  {
    if stats != [] {
      var (p, t) := stats[|stats| - 1];
      AllFresh(parse, max, disk, stats[..|stats| - 1]);
      assert NoteOf(ParseFile(parse, max, p, disk[p]), p, t);
    }
  }

  // ---- runs that break the assumptions ----

  lemma {:induction false} Extend(parse: Parser, steps: seq<Step>, step: Step) returns (longer: seq<Step>)
    requires Possible(parse, steps) && Enabled(Final(parse, steps), step)
    ensures longer == steps + [step] && Possible(parse, longer)
      && Final(parse, longer) == After(parse, Final(parse, steps), step)
  {
    longer := steps + [step];
    assert longer[..|steps|] == steps;
  }

  /** A refresh of a vault of one file, up to the point where the cache is loaded. */
  lemma {:induction false} StatOne(parse: Parser, before: seq<Step>, p: string, config: Config)
    returns (steps: seq<Step>)
    requires Possible(parse, before) && Final(parse, before).phase.Idle? && Final(parse, before).disk.Keys == {p}
    ensures Possible(parse, steps)
    ensures var s := Final(parse, before);
      Final(parse, steps) == s.(phase := Statting(config, [], [(p, s.disk[p].mtime)]), quiet := true)
  {
    steps := Extend(parse, before, Begin(config));
    steps := Extend(parse, steps, Walk([p]));
    var s := Final(parse, steps);
    assert [p][1..] == [];
    assert StatNext(s) == Statting(config, [], [(p, s.disk[p].mtime)]);
    steps := Extend(parse, steps, Stat);
  }

  /** ... and from there on, when the file has to be read. */
  lemma {:induction false} ReadOne(parse: Parser, before: seq<Step>, p: string, f: File, max: int)
    returns (steps: seq<Step>)
    requires Possible(parse, before)
    requires var s := Final(parse, before);
      s.phase == Reading(Config(true, max), [], [p], map[], map[]) && s.disk == map[p := f]
    ensures Possible(parse, steps)
    ensures Final(parse, steps) ==
      Final(parse, before).(phase := Built(Config(true, max), [ParseFile(parse, max, p, f)]))
  {
    var n := ParseFile(parse, max, p, f);
    steps := Extend(parse, before, WorkerStat(p));
    steps := Extend(parse, steps, WorkerRead(p));
    assert Delivered([p], map[p := Some(n)]) == [n] by { assert Delivered([], map[p := Some(n)]) == []; }
    steps := Extend(parse, steps, Collect);
  }

  /** A vault of one file that was read and saved. */
  lemma {:induction false} FirstRefresh(parse: Parser, p: string, f: File, max: int) returns (steps: seq<Step>)
    ensures Possible(parse, steps)
    ensures Final(parse, steps) ==
      State(map[p := f], {(p, f.mtime)}, Saved([ParseFile(parse, max, p, f)]), Idle, true, map[])
  {
    steps := Extend(parse, [], Edit(p, f));
    assert Final(parse, steps) == State(map[p := f], {(p, f.mtime)}, Unreadable, Idle, false, map[]);
    steps := StatOne(parse, steps, p, Config(true, max));
    ChooseOne(map[], p, f.mtime);
    steps := Extend(parse, steps, Load);
    steps := ReadOne(parse, steps, p, f, max);
    steps := Extend(parse, steps, Save);
  }

  lemma {:induction false} ChooseOne(cached: map<string, Note>, p: string, t: real)
    ensures Kept(cached, [(p, t)]) == if IsFresh(cached, (p, t)) then [cached[p]] else []
    ensures ToRead(cached, [(p, t)]) == if IsFresh(cached, (p, t)) then [] else [p]
  {
    assert Kept(cached, []) == [] && ToRead(cached, []) == [];
  }

  lemma {:induction false} CacheOne(n: Note)
    requires Canonical(n)
    ensures LoadNotes(Saved([n])) == map[n.path := n]
  {
    SaveLoad([n]);
    assert ByPath([]) == map[];
  }

  /** ... and from there on, when the file is found in the cache. */
  lemma {:induction false} KeepOne(parse: Parser, before: seq<Step>, p: string, n: Note, t: real, max: int)
    returns (steps: seq<Step>)
    requires Possible(parse, before) && n.path == p && n.mtime == t
    requires var s := Final(parse, before);
      s.phase == Statting(Config(true, max), [], [(p, t)]) && LoadNotes(s.cache) == map[p := n]
    ensures Possible(parse, steps)
    ensures Final(parse, steps) == Final(parse, before).(phase := Built(Config(true, max), [n]), found := map[p := n])
  {
    ChooseOne(map[p := n], p, t);
    assert LoadAndChoose(Final(parse, before)) == Reading(Config(true, max), [n], [], map[], map[]);
    steps := Extend(parse, before, Load);
    assert [n] + Delivered([], map[]) == [n];
    steps := Extend(parse, steps, Collect);
  }

  /** A refresh that finds its only file under the same time keeps the cached note. */
  lemma {:induction false} SecondRefresh(parse: Parser, before: seq<Step>, p: string, n: Note, max: int)
    returns (steps: seq<Step>)
    requires Possible(parse, before) && Final(parse, before).phase.Idle? && Final(parse, before).cache == Saved([n])
    requires var disk := Final(parse, before).disk; disk.Keys == {p} && NoteOf(n, p, disk[p].mtime)
    ensures Possible(parse, steps)
    ensures var s := Final(parse, steps);
      s.disk == Final(parse, before).disk && s.quiet && s.phase == Built(Config(true, max), [n])
  {
    var found := StatOne(parse, before, p, Config(true, max));
    CacheOne(n);
    steps := KeepOne(parse, found, p, n, Final(parse, before).disk[p].mtime, max);
    assert Final(parse, found).disk == Final(parse, before).disk && Final(parse, found).quiet;
  }

  /** An edit that keeps the modification time goes unnoticed: the quiet refresh still holds the old text. */
  lemma {:induction false} SameTimeIsStale(parse: Parser, p: string, f: File, g: File, max: int)
    returns (steps: seq<Step>)
    requires Faithful(parse) && f.mtime == g.mtime && ParseFile(parse, max, p, f) != ParseFile(parse, max, p, g)
    ensures Possible(parse, steps)
    ensures var s := Final(parse, steps);
      s.disk == map[p := g] && s.quiet && s.phase.Built? && ByPath(s.phase.notes) != FullRead(parse, max, s.disk)
  {
    var n := ParseFile(parse, max, p, f);
    assert NoteOf(n, p, f.mtime);
    steps := FirstRefresh(parse, p, f, max);
    steps := Extend(parse, steps, Edit(p, g));
    assert Final(parse, steps).disk == map[p := g];
    steps := SecondRefresh(parse, steps, p, n, max);
    assert ByPath([n])[p] == n;
  }

  /** A refresh with another limit keeps the notes cut to the old limit. */
  lemma {:induction false} OtherLimitIsStale(parse: Parser, p: string, f: File, oldMax: int, max: int)
    returns (steps: seq<Step>)
    requires Faithful(parse) && ParseFile(parse, oldMax, p, f) != ParseFile(parse, max, p, f)
    ensures Possible(parse, steps)
    ensures var s := Final(parse, steps);
      && s.disk == map[p := f] && s.quiet && s.phase.Built? && s.phase.config.max == max
      && ByPath(s.phase.notes) != FullRead(parse, max, s.disk)
  {
    var n := ParseFile(parse, oldMax, p, f);
    assert NoteOf(n, p, f.mtime);
    steps := FirstRefresh(parse, p, f, oldMax);
    steps := SecondRefresh(parse, steps, p, n, max);
    assert ByPath([n])[p] == n;
  }
}
