/** The chatting thread and the compaction thread, interleaved.  The prune is two steps, as the interpreter runs it:
    the slice is read, and then stored.  A turn is known by the number of its arrival, so two turns with the same text
    are two turns. */
module SessionProtocol {
  import opened Session

  type Turns = seq<nat>

  /** `Counted`: the summary and the count are written; `Slicing`: the rest of the turns was read and is about to be
      stored.  `hot` is the hot window at the time the batch was chosen. */
  datatype Thread =
    | Idle
    | Running(batch: Turns, hot: Turns)
    | Counted(batch: Turns, hot: Turns)
    | Slicing(batch: Turns, hot: Turns, rest: Turns)

  /** `next`: the number of the next turn; `history`: every turn since the last reset; `compacted`: the turns that the
      summaries stand for; `stale`: the running compaction began before the last reset. */
  datatype State = State(turns: Turns, totalTurns: nat, compactedTurnCount: nat, thread: Thread,
                         next: nat, history: Turns, compacted: Turns, stale: bool)

  datatype Step = Chat | Schedule | NoSummary | Count | Read | Store | Reset

  const START := State([], 0, 0, Idle, 0, [], [], false)

  predicate Enabled(s: State, step: Step, maxHot: int) {
    match step
    case Chat => true
    case Schedule => s.thread.Idle? && |Cold(s.turns, maxHot)| >= 2
    case NoSummary => s.thread.Running?
    case Count => s.thread.Running?
    case Read => s.thread.Counted?
    case Store => s.thread.Slicing?
    case Reset => true
  }

  function After(s: State, step: Step, maxHot: int): State
    requires Enabled(s, step, maxHot)
  {
    match step
    case Chat =>
      s.(turns := s.turns + [s.next], totalTurns := s.totalTurns + 1, history := s.history + [s.next],
         next := s.next + 1)
    case Schedule => s.(thread := Running(Cold(s.turns, maxHot), Hot(s.turns, maxHot)), stale := false)
    case NoSummary => s.(thread := Idle)
    case Count =>
      s.(compactedTurnCount := s.compactedTurnCount + |s.thread.batch|, compacted := s.compacted + s.thread.batch,
         thread := Counted(s.thread.batch, s.thread.hot))
    case Read => s.(thread := Slicing(s.thread.batch, s.thread.hot, Tail(s.turns, |s.thread.batch|)))
    case Store => s.(turns := s.thread.rest, thread := Idle)
    case Reset =>
      s.(turns := [], totalTurns := 0, compactedTurnCount := 0, history := [], compacted := [],
         stale := !s.thread.Idle?)
  }

  /** The steps that do harm: a turn that arrives between the read and the store of the slice, or after a reset that
      came between the count and the read; the count of a batch from before a reset; a reset that leaves a slice to be
      stored. */
  predicate Harms(s: State, step: Step) {
    match step
    case Chat => s.thread.Slicing? || (s.thread.Counted? && s.stale)
    case Count => s.stale
    case Reset => s.thread.Slicing? && s.thread.rest != []
    case _ => false
  }

  // ---- what every step keeps ----

  /** The turns that the summaries and the list of turns together account for, once the compaction is through. */
  function Accounted(s: State): Turns {
    match s.thread
    case Counted(batch, hot) => s.compacted + Tail(s.turns, |batch|)
    case Slicing(batch, hot, rest) => s.compacted + rest
    case _ => s.compacted + s.turns
  }

  ghost predicate Below(ts: Turns, next: nat) {
    forall x :: x in ts ==> x < next
  }

  ghost predicate Apart(a: Turns, b: Turns) {
    forall x :: x in a ==> x !in b
  }

  ghost predicate Known(thread: Thread, next: nat) {
    !thread.Idle? ==>
      |thread.batch| >= 2 && Below(thread.batch, next) && (thread.Slicing? ==> Below(thread.rest, next))
  }

  /** Unless it is stale, the batch of a compaction and then the hot window are still at the front of the list. */
  ghost predicate InPlace(s: State) {
    match s.thread
    case Idle => true
    case Running(batch, hot) => if s.stale then Apart(batch, s.history) else batch + hot <= s.turns
    case Counted(batch, hot) => s.stale || batch + hot <= s.turns
    case Slicing(batch, hot, rest) => s.stale || hot <= rest
  }

  ghost predicate Ascending(ts: Turns) {
    forall i, j :: 0 <= i < j < |ts| ==> ts[i] < ts[j]
  }

  ghost predicate Sane(s: State) {
    && s.totalTurns == |s.history| && s.compactedTurnCount == |s.compacted|
    && Below(s.turns, s.next) && Below(s.history, s.next) && Below(s.compacted, s.next)
    && Known(s.thread, s.next) && InPlace(s) && Ascending(s.history)
  }

  /** Nothing has gone wrong since the last reset. */
  ghost predicate Clean(s: State) {
    s.history == Accounted(s) && (s.thread.Counted? && s.stale ==> s.turns == [])
  }

  /** Some turn of the conversation is unaccounted for, or some turn accounted for is not of the conversation. */
  ghost predicate Broken(s: State) {
    exists x :: x < s.next && (x in s.history <==> x !in Accounted(s))
  }

  ghost predicate Inv(s: State, harmed: bool) {
    Sane(s) && if harmed then Broken(s) else Clean(s)
  }

  lemma {:induction false} ChatAccounted(s: State, maxHot: int)
    requires Sane(s)
    ensures Accounted(After(s, Chat, maxHot)) ==
      Accounted(s) + if s.thread.Slicing? || (s.thread.Counted? && |s.turns| < |s.thread.batch|) then [] else [s.next]
  {
    var s' := After(s, Chat, maxHot);
    match s.thread
    case Counted(batch, hot) =>
      if |s.turns| >= |batch| { assert Tail(s'.turns, |batch|) == Tail(s.turns, |batch|) + [s.next]; }
    case _ =>
  }

  lemma {:induction false} AccountedBelow(s: State)
    requires Sane(s)
    ensures Below(Accounted(s), s.next)
  {
    if s.thread.Counted? { assert forall x :: x in Tail(s.turns, |s.thread.batch|) ==> x in s.turns; }
  }

  lemma {:induction false} ChatSane(s: State, maxHot: int)
    requires Sane(s)
    ensures Sane(After(s, Chat, maxHot))
  {
    assert s.next !in s.history;
    assert forall i :: 0 <= i < |s.history| ==> s.history[i] in s.history;
  }

  lemma {:induction false} ChatKeeps(s: State, maxHot: int, harmed: bool)
    requires Inv(s, harmed)
    ensures Inv(After(s, Chat, maxHot), harmed || Harms(s, Chat))
  {
    var s' := After(s, Chat, maxHot);
    ChatSane(s, maxHot);
    ChatAccounted(s, maxHot);
    AccountedBelow(s);
    if harmed {
      var x :| x < s.next && (x in s.history <==> x !in Accounted(s));
      assert x in s'.history <==> x !in Accounted(s');
    } else if Harms(s, Chat) {
      assert s.next in s'.history && s.next !in Accounted(s');
    }
  }

  lemma {:induction false} SameBroken(s: State, s': State)
    requires Broken(s) && s'.history == s.history && s'.next == s.next && Accounted(s') == Accounted(s)
    ensures Broken(s')
  {
    var x :| x < s.next && (x in s.history <==> x !in Accounted(s));
    assert x < s'.next && (x in s'.history <==> x !in Accounted(s'));
  }

  lemma {:induction false} ScheduleSane(s: State, maxHot: int)
    requires Sane(s) && Enabled(s, Schedule, maxHot)
    ensures Sane(After(s, Schedule, maxHot))
  {
    ColdBeforeHot(s.turns, maxHot);
    assert forall x :: x in Cold(s.turns, maxHot) ==> x in s.turns;
  }

  lemma {:induction false} CountSane(s: State, maxHot: int)
    requires Sane(s) && Enabled(s, Count, maxHot)
    ensures Sane(After(s, Count, maxHot))
  {
  }

  /** A batch from before a reset is not of this conversation. */
  lemma {:induction false} StaleCount(s: State, maxHot: int)
    requires Sane(s) && Enabled(s, Count, maxHot) && s.stale
    ensures Broken(After(s, Count, maxHot))
  {
    var s', x := After(s, Count, maxHot), s.thread.batch[0];
    assert x in s.thread.batch;
    assert x in s'.compacted && x !in s'.history;
  }

  lemma {:induction false} CountAccounted(s: State, maxHot: int)
    requires Sane(s) && Enabled(s, Count, maxHot) && !s.stale
    ensures Accounted(After(s, Count, maxHot)) == Accounted(s)
  {
    var batch := s.thread.batch;
    assert s.turns == batch + Tail(s.turns, |batch|) by { assert batch <= s.turns; }
  }

  lemma {:induction false} CountKeeps(s: State, maxHot: int, harmed: bool)
    requires Inv(s, harmed) && Enabled(s, Count, maxHot)
    ensures Inv(After(s, Count, maxHot), harmed || Harms(s, Count))
  {
    CountSane(s, maxHot);
    if s.stale {
      StaleCount(s, maxHot);
    } else {
      CountAccounted(s, maxHot);
      if harmed { SameBroken(s, After(s, Count, maxHot)); }
    }
  }

  lemma {:induction false} ReadSane(s: State, maxHot: int)
    requires Sane(s) && Enabled(s, Read, maxHot)
    ensures Sane(After(s, Read, maxHot))
  {
    var batch, rest := s.thread.batch, Tail(s.turns, |s.thread.batch|);
    assert forall x :: x in rest ==> x in s.turns;
    if !s.stale { assert s.turns == batch + rest && s.thread.hot <= rest; }
  }

  lemma {:induction false} ResetKeeps(s: State, maxHot: int)
    requires Sane(s)
    ensures Inv(After(s, Reset, maxHot), Harms(s, Reset))
  {
    var s' := After(s, Reset, maxHot);
    if Harms(s, Reset) {
      var x := s.thread.rest[0];
      assert x in Accounted(s') && x !in s'.history;
    }
  }

  /** Every step keeps the invariant, and `Harms` says which steps do harm; a reset makes good what was harmed
      before. */
  lemma {:induction false} StepKeeps(s: State, step: Step, maxHot: int, harmed: bool)
    requires Inv(s, harmed) && Enabled(s, step, maxHot)
    ensures Inv(After(s, step, maxHot), Harms(s, step) || (step != Reset && harmed))
  {
    match step
    case Chat => ChatKeeps(s, maxHot, harmed);
    case Schedule =>
      ScheduleSane(s, maxHot);
      if harmed { SameBroken(s, After(s, step, maxHot)); }
    case NoSummary => if harmed { SameBroken(s, After(s, step, maxHot)); }
    case Count => CountKeeps(s, maxHot, harmed);
    case Read =>
      ReadSane(s, maxHot);
      if harmed { SameBroken(s, After(s, step, maxHot)); }
    case Store => if harmed { SameBroken(s, After(s, step, maxHot)); }
    case Reset => ResetKeeps(s, maxHot);
  }

  // ---- runs ----

  predicate Possible(steps: seq<Step>, maxHot: int)
    decreases |steps|, 0
  {
    steps == []
    || (Possible(steps[..|steps| - 1], maxHot)
      && Enabled(Final(steps[..|steps| - 1], maxHot), steps[|steps| - 1], maxHot))
  }

  function Final(steps: seq<Step>, maxHot: int): State
    requires Possible(steps, maxHot)
    decreases |steps|, 1
  {
    if steps == [] then START else After(Final(steps[..|steps| - 1], maxHot), steps[|steps| - 1], maxHot)
  }

  /** A step of the run did harm, and no reset has come after it. */
  predicate Harmed(steps: seq<Step>, maxHot: int)
    requires Possible(steps, maxHot)
  {
    steps != [] &&
      var front, last := steps[..|steps| - 1], steps[|steps| - 1];
      Harms(Final(front, maxHot), last) || (last != Reset && Harmed(front, maxHot))
  }

  ghost predicate HarmAt(steps: seq<Step>, maxHot: int, k: nat)
    requires k < |steps|
  {
    Possible(steps[..k], maxHot) && Harms(Final(steps[..k], maxHot), steps[k]) && Reset !in steps[k + 1..]
  }

  lemma {:induction false} HarmAtPrefix(steps: seq<Step>, maxHot: int, k: nat)
    requires k + 1 < |steps|
    ensures HarmAt(steps, maxHot, k) <==> HarmAt(steps[..|steps| - 1], maxHot, k) && steps[|steps| - 1] != Reset
  {
    var front := steps[..|steps| - 1];
    assert front[..k] == steps[..k] && steps[k + 1..] == front[k + 1..] + [steps[|steps| - 1]];
  }

  lemma {:induction false} HarmedMeans(steps: seq<Step>, maxHot: int)
    requires Possible(steps, maxHot)
    ensures Harmed(steps, maxHot) <==> exists k: nat :: k < |steps| && HarmAt(steps, maxHot, k)
    decreases |steps|
  {
    if steps != [] {
      var front, n := steps[..|steps| - 1], |steps| - 1;
      HarmedMeans(front, maxHot);
      forall k: nat | k < n ensures HarmAt(steps, maxHot, k) <==> HarmAt(front, maxHot, k) && steps[n] != Reset {
        HarmAtPrefix(steps, maxHot, k);
      }
      assert steps[n + 1..] == [] && steps[..n] == front;
      assert Harms(Final(front, maxHot), steps[n]) <==> HarmAt(steps, maxHot, n);
    }
  }

  lemma {:induction false} RunKeeps(steps: seq<Step>, maxHot: int)
    requires Possible(steps, maxHot)
    ensures Inv(Final(steps, maxHot), Harmed(steps, maxHot))
    decreases |steps|
  {
    if steps != [] {
      var front := steps[..|steps| - 1];
      RunKeeps(front, maxHot);
      StepKeeps(Final(front, maxHot), steps[|steps| - 1], maxHot, Harmed(front, maxHot));
    }
  }

  /** Between compactions, in every run: the compacted turns followed by the live ones are the whole history exactly
      when no step since the last reset did harm. */
  lemma {:induction false} TurnsConserved(steps: seq<Step>, maxHot: int)
    requires Possible(steps, maxHot) && Final(steps, maxHot).thread.Idle?
    ensures var s := Final(steps, maxHot);
      && (s.history == s.compacted + s.turns <==> !Harmed(steps, maxHot))
      && (!Harmed(steps, maxHot) ==> s.totalTurns == s.compactedTurnCount + |s.turns|)
  {
    RunKeeps(steps, maxHot);
  }

  // ---- runs with atomic prunes ----

  /** Every slice is stored right after it was read, and resets wait for the compaction. */
  ghost predicate Orderly(steps: seq<Step>, maxHot: int)
    requires Possible(steps, maxHot)
  {
    && (forall k :: 0 <= k < |steps| - 1 && steps[k] == Read ==> steps[k + 1] == Store)
    && forall k :: 0 <= k < |steps| && steps[k] == Reset ==>
      Possible(steps[..k], maxHot) && Final(steps[..k], maxHot).thread.Idle?
  }

  lemma {:induction false} OrderlyPrefix(steps: seq<Step>, maxHot: int)
    requires Possible(steps, maxHot) && steps != [] && Orderly(steps, maxHot)
    ensures Orderly(steps[..|steps| - 1], maxHot)
    ensures steps[|steps| - 1] == Reset ==> Final(steps[..|steps| - 1], maxHot).thread.Idle?
  {
    var front := steps[..|steps| - 1];
    forall k | 0 <= k < |front| && front[k] == Reset ensures Possible(front[..k], maxHot)
      && Final(front[..k], maxHot).thread.Idle? {
      assert front[..k] == steps[..k];
    }
  }

  /** The slice is read but not stored only right after it was read. */
  lemma {:induction false} OrderlyHarmless(steps: seq<Step>, maxHot: int)
    requires Possible(steps, maxHot) && Orderly(steps, maxHot)
    ensures !Harmed(steps, maxHot) && !Final(steps, maxHot).stale
    ensures Final(steps, maxHot).thread.Slicing? ==> steps != [] && steps[|steps| - 1] == Read
    decreases |steps|
  {
    if steps != [] {
      OrderlyPrefix(steps, maxHot);
      OrderlyHarmless(steps[..|steps| - 1], maxHot);
    }
  }

  /** If the prune is atomic and no reset hits a compaction, no turn is ever lost: the history is always the compacted
      turns followed by the live ones, and the counts add up. */
  lemma {:induction false} AtomicPruneConserves(steps: seq<Step>, maxHot: int)
    requires Possible(steps, maxHot) && Orderly(steps, maxHot) && Final(steps, maxHot).thread.Idle?
    ensures var s := Final(steps, maxHot);
      s.history == s.compacted + s.turns && s.totalTurns == s.compactedTurnCount + |s.turns|
  {
    OrderlyHarmless(steps, maxHot);
    TurnsConserved(steps, maxHot);
  }

  /** No turn of the hot window at the time of scheduling is compacted: unless a reset hit the compaction, the window
      is in front after the store, and if no step did harm no turn of it is among the compacted ones. */
  lemma {:induction false} HotTurnsStay(steps: seq<Step>, maxHot: int)
    requires Possible(steps, maxHot) && Final(steps, maxHot).thread.Slicing? && !Final(steps, maxHot).stale
    ensures var s := Final(steps, maxHot);
      && s.thread.hot <= After(s, Store, maxHot).turns
      && (!Harmed(steps, maxHot) ==> Apart(s.thread.hot, s.compacted))
  {
    RunKeeps(steps, maxHot);
    var s := Final(steps, maxHot);
    if !Harmed(steps, maxHot) {
      HotApart(s.compacted, s.thread.rest, s.thread.hot, s.history);
    }
  }

  lemma {:induction false} HotApart(compacted: Turns, rest: Turns, hot: Turns, history: Turns)
    requires Ascending(history) && history == compacted + rest && hot <= rest
    ensures Apart(hot, compacted)
  {
    forall x | x in hot ensures x !in compacted {
      var j :| 0 <= j < |hot| && hot[j] == x;
      assert history[|compacted| + j] == x;
      assert forall i :: 0 <= i < |compacted| ==> history[i] == compacted[i];
    }
  }

  // ---- what can go wrong ----

  lemma {:induction false} Extend(steps: seq<Step>, step: Step, maxHot: int) returns (longer: seq<Step>)
    requires Possible(steps, maxHot) && Enabled(Final(steps, maxHot), step, maxHot)
    ensures longer == steps + [step] && Possible(longer, maxHot)
      && Final(longer, maxHot) == After(Final(steps, maxHot), step, maxHot)
  {
    longer := steps + [step];
    assert longer[..|steps|] == steps;
  }

  /** Three turns and a hot window of one: the first two are being compacted. */
  lemma {:induction false} ThreeTurns() returns (steps: seq<Step>)
    ensures Possible(steps, 1)
    ensures Final(steps, 1) == State([0, 1, 2], 3, 0, Running([0, 1], [2]), 3, [0, 1, 2], [], false)
  {
    steps := Extend([], Chat, 1);
    steps := Extend(steps, Chat, 1);
    steps := Extend(steps, Chat, 1);
    assert Final(steps, 1).turns == [0, 1, 2] && Final(steps, 1).history == [0, 1, 2];
    assert Cold([0, 1, 2], 1) == [0, 1] && Hot([0, 1, 2], 1) == [2];
    steps := Extend(steps, Schedule, 1);
  }

  /** A turn that arrives in the middle of the prune is gone: neither compacted nor live. */
  lemma {:induction false} PruneLosesTurn() returns (steps: seq<Step>)
    ensures Possible(steps, 1)
    ensures Final(steps, 1) == State([2], 4, 2, Idle, 4, [0, 1, 2, 3], [0, 1], false)
  {
    steps := ThreeTurns();
    steps := Extend(steps, Count, 1);
    steps := Extend(steps, Read, 1);
    assert Final(steps, 1).thread.rest == [2];
    steps := Extend(steps, Chat, 1);
    steps := Extend(steps, Store, 1);
    assert Final(steps, 1).history == [0, 1, 2, 3] && Final(steps, 1).compacted == [0, 1];
  }

  /** A reset during a compaction leaves counts that do not add up, and takes a turn of the new conversation. */
  lemma {:induction false} ResetDuringCompaction() returns (steps: seq<Step>)
    ensures Possible(steps, 1)
    ensures Final(steps, 1) == State([], 1, 2, Idle, 4, [3], [0, 1], true)
  {
    steps := ThreeTurns();
    steps := Extend(steps, Reset, 1);
    steps := Extend(steps, Chat, 1);
    assert Final(steps, 1).turns == [3] && Final(steps, 1).history == [3];
    steps := Extend(steps, Count, 1);
    assert Final(steps, 1).compacted == [0, 1];
    steps := Extend(steps, Read, 1);
    assert Final(steps, 1).thread.rest == [];
    steps := Extend(steps, Store, 1);
  }

  /** The same reset does no harm if the compaction ends without a summary. */
  lemma {:induction false} ResetWithoutHarm() returns (steps: seq<Step>)
    ensures Possible(steps, 1)
    ensures Final(steps, 1) == State([3], 1, 0, Idle, 4, [3], [], true)
  {
    steps := ThreeTurns();
    steps := Extend(steps, Reset, 1);
    steps := Extend(steps, Chat, 1);
    assert Final(steps, 1).turns == [3] && Final(steps, 1).history == [3];
    steps := Extend(steps, NoSummary, 1);
  }
}
