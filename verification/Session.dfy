/** The turns of a chat session, and the compactor that is to replace old turns by a summary. */
module Session {
  import opened Sorting
  import opened Text
  import opened Wrappers

  datatype Turn = Turn(user: string, assistant: string)

  /** `s[k:]`; a negative `k` counts from the end. */
  function Tail<T>(s: seq<T>, k: int): seq<T> {
    s[SliceEnd(|s|, k)..]
  }

  // ---- the hot window ----

  /** `turns[:-max_hot_turns]`: the candidates for compaction. */
  function Cold<T>(turns: seq<T>, maxHot: int): seq<T> {
    Head(turns, -maxHot)
  }

  /** `turns[-max_hot_turns:]`: the turns shown to the model in full. */
  function Hot<T>(turns: seq<T>, maxHot: int): seq<T> {
    Tail(turns, -maxHot)
  }

  /** The candidates are what comes before the hot window, for every setting of its size. */
  lemma {:induction false} ColdBeforeHot<T>(turns: seq<T>, maxHot: int)
    ensures Cold(turns, maxHot) + Hot(turns, maxHot) == turns
    ensures maxHot >= 1 ==> |Hot(turns, maxHot)| == if |turns| < maxHot then |turns| else maxHot
    ensures maxHot == 0 ==> Cold(turns, maxHot) == []
  {
  }

  // ---- the compactor ----

  datatype Message = Message(role: string, content: string)

  datatype Config = Config(maxTokens: int, minMessages: int, preserveLastN: int, preserveSystem: bool)

  function Messages(turns: seq<Turn>): seq<Message> {
    if turns == [] then []
    else
      var t := turns[|turns| - 1];
      Messages(turns[..|turns| - 1]) + [Message("user", t.user), Message("assistant", t.assistant)]
  }

  /** A turn is a message of the user and one of the assistant. */
  lemma {:induction false} MessagesAre(turns: seq<Turn>, i: nat)
    requires i < |turns|
    ensures |Messages(turns)| == 2 * |turns|
    ensures Messages(turns)[2 * i] == Message("user", turns[i].user)
    ensures Messages(turns)[2 * i + 1] == Message("assistant", turns[i].assistant)
  {
    var front := turns[..|turns| - 1];
    MessagesSize(front);
    if i < |front| { MessagesAre(front, i); }
  }

  lemma {:induction false} MessagesSize(turns: seq<Turn>)
    ensures |Messages(turns)| == 2 * |turns|
  {
    if turns != [] { MessagesSize(turns[..|turns| - 1]); }
  }

  function SystemOf(ms: seq<Message>, c: Config): seq<Message> {
    if ms == [] then []
    else SystemOf(ms[..|ms| - 1], c) + if c.preserveSystem && ms[|ms| - 1].role == "system" then [ms[|ms| - 1]] else []
  }

  function OthersOf(ms: seq<Message>, c: Config): seq<Message> {
    if ms == [] then []
    else OthersOf(ms[..|ms| - 1], c) + if c.preserveSystem && ms[|ms| - 1].role == "system" then [] else [ms[|ms| - 1]]
  }

  /** Each message goes to one side, in order; only system messages, and only if the setting says so, are set apart. */
  lemma {:induction false} SetApart(ms: seq<Message>, m: Message, c: Config)
    ensures SystemOf([], c) == [] && OthersOf([], c) == []
    ensures m.role == "system" && c.preserveSystem ==>
      SystemOf(ms + [m], c) == SystemOf(ms, c) + [m] && OthersOf(ms + [m], c) == OthersOf(ms, c)
    ensures m.role != "system" || !c.preserveSystem ==>
      SystemOf(ms + [m], c) == SystemOf(ms, c) && OthersOf(ms + [m], c) == OthersOf(ms, c) + [m]
  {
    assert (ms + [m])[..|ms|] == ms;
  }

  /** `_split_messages`: the messages to summarise and those to keep, of those that are not kept as system messages. */
  function Compactable(others: seq<Message>, n: int): seq<Message> {
    if |others| <= n then [] else Head(others, -n)
  }

  function Preserved(others: seq<Message>, n: int): seq<Message> {
    if |others| <= n then others else Tail(others, -n)
  }

  method SplitMessages(ms: seq<Message>, c: Config)
    returns (system: seq<Message>, compactable: seq<Message>, preserved: seq<Message>)
    ensures system == SystemOf(ms, c)
    ensures compactable == Compactable(OthersOf(ms, c), c.preserveLastN)
    ensures preserved == Preserved(OthersOf(ms, c), c.preserveLastN)
  {
    system := [];
    var others := [];
    ghost var seen: seq<Message> := [];
    for i := 0 to |ms|
      invariant seen == ms[..i] && system == SystemOf(seen, c) && others == OthersOf(seen, c)
    {
      assert (seen + [ms[i]])[..|seen|] == seen;
      if c.preserveSystem && ms[i].role == "system" {
        system := system + [ms[i]];
      } else {
        others := others + [ms[i]];
      }
      seen := seen + [ms[i]];
    }
    assert seen == ms;
    var n := c.preserveLastN;
    if |others| <= n { return system, [], others; }
    return system, Head(others, -n), Tail(others, -n);
  }

  /** Whatever the setting, no message is lost between what is summarised and what is kept. */
  lemma {:induction false} SplitKeepsAll(others: seq<Message>, n: int)
    ensures Compactable(others, n) + Preserved(others, n) == others
  {
  }

  predicate ShouldCompact(ms: seq<Message>, c: Config, tokens: seq<Message> -> int) {
    |ms| >= c.minMessages && tokens(ms) > c.maxTokens
  }

  const SUMMARY := "CONVERSATION SUMMARY"

  /** `compact`: either the messages unchanged, or the system messages, one summary and the preserved messages. */
  function Compact(ms: seq<Message>, c: Config, tokens: seq<Message> -> int,
                   summarise: seq<Message> -> string): seq<Message>
  {
    var compactable := Compactable(OthersOf(ms, c), c.preserveLastN);
    var summary := Message("system", "[" + SUMMARY + " — " + summarise(compactable));
    if !ShouldCompact(ms, c, tokens) || |compactable| < 2 then ms
    else SystemOf(ms, c) + [summary] + Preserved(OthersOf(ms, c), c.preserveLastN)
  }

  ghost predicate IsSummary(m: Message) {
    m.role == "system" && Contains(m.content, SUMMARY)
  }

  /** The first message that looks like a summary. */
  ghost function FindSummary(ms: seq<Message>): Option<string> {
    if ms == [] then None else if IsSummary(ms[0]) then Some(ms[0].content) else FindSummary(ms[1..])
  }

  /** What `_do_compaction` gets from the compactor for a batch of turns. */
  ghost function NewSummary(turns: seq<Turn>, c: Config, tokens: seq<Message> -> int,
                            summarise: seq<Message> -> string): Option<string>
  {
    if !ShouldCompact(Messages(turns), c, tokens) then None
    else FindSummary(Compact(Messages(turns), c, tokens, summarise))
  }

  /** Messages made from turns are never system messages, so all of them are candidates. */
  lemma {:induction false} TurnMessages(turns: seq<Turn>, c: Config)
    ensures |Messages(turns)| == 2 * |turns| && SystemOf(Messages(turns), c) == []
      && OthersOf(Messages(turns), c) == Messages(turns)
    ensures forall i :: 0 <= i < |Messages(turns)| ==> Messages(turns)[i].role != "system"
  {
    if turns != [] {
      var front, t := turns[..|turns| - 1], turns[|turns| - 1];
      TurnMessages(front, c);
      var ms, u, a := Messages(front), Message("user", t.user), Message("assistant", t.assistant);
      SetApart(ms, u, c);
      SetApart(ms + [u], a, c);
      assert Messages(turns) == ms + [u] + [a];
    }
  }

  lemma {:induction false} NoSummaryIn(ms: seq<Message>)
    requires forall i :: 0 <= i < |ms| ==> ms[i].role != "system"
    ensures FindSummary(ms) == None
  {
    if ms != [] { NoSummaryIn(ms[1..]); }
  }

  /** A batch gets a summary exactly when it is long enough to be compacted and the compactor may summarise at least two
      of its messages; a setting of 0 for the messages to preserve leaves it none. */
  lemma {:induction false} SummaryExactlyWhen(turns: seq<Turn>, c: Config, tokens: seq<Message> -> int,
                                              summarise: seq<Message> -> string)
    ensures NewSummary(turns, c, tokens, summarise).Some? <==>
      2 * |turns| >= c.minMessages && tokens(Messages(turns)) > c.maxTokens
        && ((c.preserveLastN >= 1 && 2 * |turns| >= c.preserveLastN + 2) || (c.preserveLastN <= -2 && |turns| >= 1))
  {
    var ms := Messages(turns);
    TurnMessages(turns, c);
    var compactable := Compactable(ms, c.preserveLastN);
    if ShouldCompact(ms, c, tokens) {
      if |compactable| < 2 {
        NoSummaryIn(ms);
      } else {
        var summary := Message("system", "[" + SUMMARY + " — " + summarise(compactable));
        SummaryFound(summarise(compactable));
        var result := Compact(ms, c, tokens, summarise);
        assert result == [] + [summary] + Preserved(ms, c.preserveLastN);
        assert result[0] == summary;
      }
    }
  }

  /** The summary is that of all messages but the last `preserve_last_n`. */
  lemma {:induction false} SummaryOfFirst(turns: seq<Turn>, c: Config, tokens: seq<Message> -> int,
                                          summarise: seq<Message> -> string)
    requires c.preserveLastN >= 1 && NewSummary(turns, c, tokens, summarise).Some?
    ensures var n := 2 * |turns| - c.preserveLastN;
      0 <= n <= |Messages(turns)| && NewSummary(turns, c, tokens, summarise).value ==
        "[" + SUMMARY + " — " + summarise(Messages(turns)[..n])
  {
    var ms := Messages(turns);
    TurnMessages(turns, c);
    SummaryExactlyWhen(turns, c, tokens, summarise);
    var compactable := Compactable(ms, c.preserveLastN);
    assert compactable == ms[..2 * |turns| - c.preserveLastN];
    var summary := Message("system", "[" + SUMMARY + " — " + summarise(compactable));
    SummaryFound(summarise(compactable));
    var result := Compact(ms, c, tokens, summarise);
    assert result == [] + [summary] + Preserved(ms, c.preserveLastN);
    assert result[0] == summary;
  }

  lemma {:induction false} SummaryFound(text: string)
    ensures Contains("[" + SUMMARY + " — " + text, SUMMARY)
  {
    var content := "[" + SUMMARY + " — " + text;
    assert content[1..] == SUMMARY + (" — " + text);
    assert SUMMARY <= content[1..];
  }

  /** The setting the session itself uses. */
  const SESSION_PRESERVES := 0

  /** With it, no batch of turns ever gets a summary, so no turn is ever compacted. */
  lemma {:induction false} SessionNeverCompacts(turns: seq<Turn>, c: Config, tokens: seq<Message> -> int,
                                                summarise: seq<Message> -> string)
    requires c.preserveLastN == SESSION_PRESERVES
    ensures NewSummary(turns, c, tokens, summarise) == None
  {
    SummaryExactlyWhen(turns, c, tokens, summarise);
  }

  // ---- the session ----

  /** `history`: all turns since the last reset; `compacted`: those that the summary stands for. */
  class RLMSession {
    var turns: seq<Turn>
    var compactedSummary: string
    var compactedTurnCount: nat
    var totalTurns: nat
    const maxHotTurns: int
    ghost var history: seq<Turn>
    ghost var compacted: seq<Turn>

    /** The turns that were compacted, followed by the live ones, are the whole history. */
    ghost predicate Valid()
      reads this
    {
      history == compacted + turns && totalTurns == |history| && compactedTurnCount == |compacted|
    }

    constructor (maxHotTurns: int)
      ensures Valid() && this.maxHotTurns == maxHotTurns && history == [] && compactedSummary == ""
    {
      this.maxHotTurns := maxHotTurns;
      turns, compactedSummary, compactedTurnCount, totalTurns := [], "", 0, 0;
      history, compacted := [], [];
    }

    /** The part of `chat` that records the turn. */
    method Append(t: Turn)
      requires Valid()
      modifies this
      ensures Valid() && history == old(history) + [t] && compacted == old(compacted)
      ensures compactedSummary == old(compactedSummary)
    {
      turns := turns + [t];
      totalTurns := totalTurns + 1;
      history := history + [t];
    }

    /** The batch that is handed to the compaction thread, if one is due: all live turns before the hot window. */
    method Candidates(estimate: seq<Turn> -> int) returns (batch: Option<seq<Turn>>)
      ensures batch.Some? <==> estimate(Hot(turns, maxHotTurns)) >= 1200 && |Cold(turns, maxHotTurns)| >= 2
      ensures batch.Some? ==> batch.value + Hot(turns, maxHotTurns) == turns
    {
      ColdBeforeHot(turns, maxHotTurns);
      if estimate(Hot(turns, maxHotTurns)) < 1200 { return None; }
      var cold := Cold(turns, maxHotTurns);
      if |cold| < 2 { return None; }
      return Some(cold);
    }

    /** The end of `_do_compaction`, with no turn arriving meanwhile: the batch passes from the live turns to the
        compacted ones, and the history stays. */
    method Prune(batch: seq<Turn>, newSummary: string)
      requires Valid() && batch <= turns
      modifies this
      ensures Valid() && history == old(history) && compacted == old(compacted) + batch
      ensures compactedSummary == if old(compactedSummary) != "" then old(compactedSummary) + "\n\n" + newSummary
        else newSummary
    {
      assert compacted + batch + turns[|batch|..] == compacted + turns;
      compactedSummary := if compactedSummary != "" then compactedSummary + "\n\n" + newSummary else newSummary;
      compactedTurnCount := compactedTurnCount + |batch|;
      turns := Tail(turns, |batch|);
      compacted := compacted + batch;
    }

    method Reset()
      modifies this
      ensures Valid() && history == [] && compactedSummary == ""
    {
      turns, compactedSummary, compactedTurnCount, totalTurns := [], "", 0, 0;
      history, compacted := [], [];
    }
  }
}
