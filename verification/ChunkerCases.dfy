/** Messages for which `smart_chunk` does not keep what it promises about fenced code. */
module ChunkerCases {
  import opened Text
  import opened Placeholders
  import opened Confusion
  import opened Fences
  import opened Splitting
  import opened Restoring
  import opened Chunker
  import opened VerbatimCode
  import opened Fusion

  function Fence(inner: string): string {
    "```" + inner + "```"
  }

  function Plains(p: string): seq<Token> {
    seq(|p|, i requires 0 <= i < |p| => Plain(p[i]))
  }

  // ---- reading a text piece by piece ----

  /** What is found in `s` from position `i` on, where the text reads `tail`. */
  ghost predicate ReadsAs(s: string, i: nat, tail: string, idx: nat, blocks: seq<string>, ts: seq<Token>) {
    i <= |s| && s[i..] == tail && CodeBlocks(s, i) == blocks && Shield(s, i, idx) == ts
  }

  lemma {:induction false} NothingThere(s: string, idx: nat)
    ensures ReadsAs(s, |s|, "", idx, [], [])
  {
  }

  lemma {:induction false} TailAfter(s: string, i: nat, head: string, rest: string)
    requires i <= |s| && s[i..] == head + rest
    ensures i + |head| <= |s| && s[i + |head|..] == rest
    ensures forall k :: 0 <= k < |head| ==> s[i + k] == head[k]
  {
    assert s[i + |head|..] == s[i..][|head|..];
    assert forall k :: 0 <= k < |head| ==> s[i + k] == s[i..][k];
  }

  lemma {:induction false} FenceAt(s: string, i: nat, j: nat)
    requires TicksAt(s, i) && TicksAt(s, j) && i + 3 <= j && forall k :: i + 3 <= k < j ==> s[k] != TICK
    ensures FenceLength(s, i) == j + 3 - i
  {
    NextTicksFirst(s, i + 3, j);
  }

  lemma {:induction false} FenceThere(s: string, i: nat, inner: string)
    requires TICK !in inner && i + |Fence(inner)| <= |s|
    requires forall k :: 0 <= k < |Fence(inner)| ==> s[i + k] == Fence(inner)[k]
    ensures FenceLength(s, i) == |Fence(inner)|
  {
    var j, f := i + 3 + |inner|, Fence(inner);
    assert f[0] == f[1] == f[2] == f[3 + |inner|] == f[4 + |inner|] == f[5 + |inner|] == TICK;
    assert s[i + 0] == f[0] && s[i + 1] == f[1] && s[i + 2] == f[2];
    assert s[i + (3 + |inner|)] == f[3 + |inner|] && s[i + (4 + |inner|)] == f[4 + |inner|];
    assert s[i + (5 + |inner|)] == f[5 + |inner|];
    forall k | i + 3 <= k < j ensures s[k] != TICK {
      assert s[i + (k - i)] == f[k - i] == inner[k - i - 3] && inner[k - i - 3] in inner;
    }
    FenceAt(s, i, j);
  }

  lemma {:induction false} FenceThen(s: string, i: nat, inner: string, rest: string, idx: nat, blocks: seq<string>,
                                     ts: seq<Token>)
    requires TICK !in inner && i <= |s| && s[i..] == Fence(inner) + rest
    requires ReadsAs(s, i + |Fence(inner)|, rest, idx + 1, blocks, ts)
    ensures ReadsAs(s, i, Fence(inner) + rest, idx, [Fence(inner)] + blocks, [Block(idx)] + ts)
  {
    TailAfter(s, i, Fence(inner), rest);
    FenceThere(s, i, inner);
    assert s[i..i + |Fence(inner)|] == Fence(inner);
  }

  lemma {:induction false} LastFenceReads(s: string, i: nat, inner: string, idx: nat)
    requires TICK !in inner && i <= |s| && s[i..] == Fence(inner)
    ensures ReadsAs(s, i, Fence(inner), idx, [Fence(inner)], [Block(idx)])
  {
    NothingAfter(Fence(inner));
    TailAfter(s, i, Fence(inner), "");
    NothingThere(s, idx + 1);
    FenceThen(s, i, inner, "", idx, [], []);
    NothingAfter([Fence(inner)]);
    NothingAfter([Block(idx)]);
  }

  lemma {:induction false} PlainThen(s: string, i: nat, p: string, rest: string, idx: nat, blocks: seq<string>,
                                     ts: seq<Token>)
    requires TICK !in p && i <= |s| && s[i..] == p + rest && ReadsAs(s, i + |p|, rest, idx, blocks, ts)
    ensures ReadsAs(s, i, p + rest, idx, blocks, Plains(p) + ts)
    decreases |p|
  {
    if p == "" {
      NothingBefore(rest);
      NoPlains(ts);
    } else {
      PlainNext(s, i, p, rest);
      assert p[0] in p;
      PlainThen(s, i + 1, p[1..], rest, idx, blocks, ts);
      PlainFirst(s, i, p, rest, idx, blocks, ts);
    }
  }

  lemma {:induction false} PlainNext(s: string, i: nat, p: string, rest: string)
    requires p != "" && i <= |s| && s[i..] == p + rest
    ensures i < |s| && s[i] == p[0] && s[i + 1..] == p[1..] + rest
  {
    ConsAppend(p, rest);
    assert s[i] == s[i..][0] && s[i + 1..] == s[i..][1..];
  }

  lemma {:induction false} PlainFirst(s: string, i: nat, p: string, rest: string, idx: nat, blocks: seq<string>,
                                      ts: seq<Token>)
    requires p != "" && p[0] != TICK && i < |s| && s[i] == p[0] && s[i..] == p + rest
    requires ReadsAs(s, i + 1, p[1..] + rest, idx, blocks, Plains(p[1..]) + ts)
    ensures ReadsAs(s, i, p + rest, idx, blocks, Plains(p) + ts)
  {
    PlainsCons(p, ts);
  }

  lemma {:induction false} RenderPlains(p: string, ts: seq<Token>)
    ensures Render(Plains(p) + ts) == p + Render(ts)
  {
    if p == "" {
      NoPlains(ts);
    } else {
      RenderPlains(p[1..], ts);
      PlainsCons(p, ts);
      RenderCons(Plain(p[0]), Plains(p[1..]) + ts);
      Associate([p[0]], p[1..], Render(ts));
      assert [p[0]] + p[1..] == p;
    }
  }

  lemma {:induction false} NoPlains(ts: seq<Token>)
    ensures Plains("") + ts == ts && Render(ts) == "" + Render(ts)
  {
    NothingBefore(Render(ts));
    assert Plains("") == [];
  }

  lemma {:induction false} PlainsCons(p: string, ts: seq<Token>)
    requires p != ""
    ensures Plains(p) + ts == [Plain(p[0])] + (Plains(p[1..]) + ts)
  {
  }

  // ---- two words that fit are one chunk ----

  lemma {:induction false} NoPieces(s: string, ms: seq<nat>, i: nat)
    requires i <= |s| && Breaks(s, ms) && forall j :: 0 <= j < |s| ==> ms[j] == 0
    ensures Pieces(s, ms, 0, i) == [s]
    decreases |s| - i
  {
    if i == |s| {
      assert s[0..] == s;
    } else {
      NoPieces(s, ms, i + 1);
    }
  }

  lemma {:induction false} SeparatorIsBreak(s: string, sep: Separator, j: nat)
    requires j < |s|
    ensures SeparatorLength(s, sep, j) > 0 ==> s[j] == '\n'
  {
    var n := SeparatorLength(s, sep, j);
  }

  lemma {:induction false} NoLevelUsed(s: string, sep: Separator, maxChars: int)
    requires '\n' !in s
    ensures !Usable(s, sep, maxChars)
  {
    forall j | 0 <= j < |s| ensures Matches(s, sep)[j] == 0 {
      SeparatorIsBreak(s, sep, j);
      assert s[j] in s;
    }
    NoPieces(s, Matches(s, sep), 0);
  }

  lemma {:induction false} TwoWordsText(a: string, b: string)
    requires IsWord(a) && IsWord(b)
    ensures '\n' !in a + " " + b && Words(a + " " + b) == [a, b] && Trimmed(a + " " + b)
  {
    assert IsSpace('\n');
    assert '\n' !in a && '\n' !in b;
    WordAlone(a);
    WordAlone(b);
    PieceWords(a, " ", b);
    assert [a] + [b] == [a, b];
  }

  lemma {:induction false} TwoWordsPlaced(a: string, b: string, maxChars: int)
    requires IsWord(a) && IsWord(b) && |a| + 1 + |b| <= maxChars
    ensures WordChunks([a, b], maxChars) == [a + " " + b]
  {
    TwoWordsText(a, b);
    StripTrimmed(a + " " + b);
    assert Placing([a, b], 0, maxChars) == ([], "");
    assert Placing([a, b], 1, maxChars) == ([], a);
    assert Placing([a, b], 2, maxChars) == ([], a + " " + b);
    NothingBefore([a + " " + b]);
  }

  lemma {:induction false} TwoWordsSplit(a: string, b: string, maxChars: int)
    requires IsWord(a) && IsWord(b) && |a| + 1 + |b| <= maxChars
    ensures SplitText(a + " " + b, maxChars) == [a + " " + b]
    ensures forall n :: WordsCutClean(a + " " + b, maxChars, n)
  {
    var text := a + " " + b;
    TwoWordsText(a, b);
    TwoWordsPlaced(a, b, maxChars);
    NoLevelUsed(text, Heading, maxChars);
    NoLevelUsed(text, Paragraph, maxChars);
    NoLevelUsed(text, Line, maxChars);
    forall n ensures WordsCutClean(text, maxChars, n) { NoCuts(text, maxChars, n); }
  }

  lemma {:induction false} ErasedFrom(s: string, c: char)
    ensures c in Erase(s) ==> c in s
  {
    if s != "" { ErasedFrom(s[1..], c); }
  }

  lemma {:induction false} NamelessWithout(s: string)
    requires 'C' !in s
    ensures Nameless(s)
  {
    ErasedFrom(s, 'C');
    NameStarts(Erase(s));
  }

  lemma {:induction false} NameStarts(e: string)
    ensures Contains(e, NAME) ==> 'C' in e
  {
    if Contains(e, NAME) {
      var i :| 0 <= i <= |e| && NAME <= e[i..];
      assert e[i] == e[i..][0] == NAME[0] == 'C';
    }
  }

  // ---- a placeholder that is cut ----

  const LOST: string := Fence("aaaa")

  lemma {:induction false} LostReads()
    ensures ReadsAs(LOST, 0, LOST, 0, [LOST], [Block(0)]) && Protected(LOST) == Placeholder(0)
  {
    assert LOST[0..] == LOST;
    LastFenceReads(LOST, 0, "aaaa", 0);
    RenderCons(Block(0), []);
    NothingAfter(Placeholder(0));
  }

  /** The condition on cuts can fail: at five characters the placeholder of this block is itself cut, and the code is
      lost. */
  lemma {:induction false} CodeCanBeLost()
    ensures Ordinary(LOST) && !CutsAvoidCode(LOST, 5) && EraseAll(Smart(LOST, 5)) != Erase(LOST)
  {
    var p := Placeholder(0);
    LostReads();
    assert 'C' !in LOST && NUL !in LOST;
    NamelessWithout(LOST);
    PlaceholderWord(0);
    WordAlone(p);
    PlaceholderCut(0, 5);
    if Whole(p[..5], 1) { WholeIsEven(p[..5], 1); }
    assert p in Words(Protected(LOST)) && !CutsClean(p, 5, 1);
    SmartKeeps(LOST, 5);
  }

  // ---- a block that fits and is cut all the same ----

  const CODE: string := Fence("\na b c d\n")
  const CUT: string := "hello " + CODE

  lemma {:induction false} CutReads()
    ensures ReadsAs(CUT, 0, CUT, 0, [CODE], Plains("hello ") + [Block(0)])
    ensures Protected(CUT) == "hello" + " " + Placeholder(0)
  {
    assert CUT[6..] == CODE && CUT[0..] == CUT;
    LastFenceReads(CUT, 6, "\na b c d\n", 0);
    PlainThen(CUT, 0, "hello ", CODE, 0, [CODE], [Block(0)]);
    RenderPlains("hello ", [Block(0)]);
    RenderCons(Block(0), []);
    NothingAfter(Placeholder(0));
    assert "hello" + " " == "hello ";
  }

  lemma {:induction false} CutSplit()
    ensures SplitText(Protected(CUT), 20) == [Protected(CUT)] && Ordinary(CUT) && CutsAvoidCode(CUT, 20)
    ensures CodeBlocks(CUT, 0) == [CODE]
  {
    CutReads();
    assert 'C' !in CUT && NUL !in CUT;
    NamelessWithout(CUT);
    PlaceholderWord(0);
    assert |Placeholder(0)| == 14;
    TwoWordsSplit("hello", Placeholder(0), 20);
  }

  /** A long message that is one chunk as long as its code is away: that chunk no longer fits when the code is back, and
      every block with a line break is cut. */
  lemma {:induction false} OneChunkCutsCode(text: string, maxChars: int, k: nat)
    requires |text| > maxChars >= 1 && Ordinary(text) && Trimmed(text) && CutsAvoidCode(text, maxChars)
    requires SplitText(Protected(text), maxChars) == [Protected(text)]
    requires k < |CodeBlocks(text, 0)| && !Tidy(CodeBlocks(text, 0)[k])
    ensures SplitClear(text, maxChars) && EraseAll(Smart(text, maxChars)) == Erase(text)
    ensures !Verbatim(Smart(text, maxChars), CodeBlocks(text, 0)[k])
  {
    SplitTextKeeps(Protected(text), maxChars, |CodeBlocks(text, 0)|);
    Shielded(text);
    OrdinaryClear(text, maxChars);
    WholeBack(text);
    SmartKeeps(text, maxChars);
    BlockVerbatimExactlyWhen(text, maxChars, k);
  }

  /** A protected text that stays in one piece is restored to the text. */
  lemma {:induction false} WholeBack(text: string)
    requires NUL !in text && Trimmed(text) && AllClear([Protected(text)], |CodeBlocks(text, 0)|)
    ensures Back(Protected(text), CodeBlocks(text, 0)) == text
  {
    Shielded(text);
    assert Protected(text) in [Protected(text)];
    RestoredWhole(Protected(text), CodeBlocks(text, 0));
    StripTrimmed(text);
  }

  /** The placeholder is shorter than its block: a block of 15 characters is cut at a limit of 20, although no
      placeholder is cut or confused. */
  lemma {:induction false} FittingCodeIsCut()
    ensures CodeBlocks(CUT, 0) == [CODE] && |CODE| == 15 && Ordinary(CUT) && CutsAvoidCode(CUT, 20)
      && SplitClear(CUT, 20)
    ensures EraseAll(Smart(CUT, 20)) == Erase(CUT) && !Verbatim(Smart(CUT, 20), CODE)
  {
    CutSplit();
    CutShape();
    OneChunkCutsCode(CUT, 20, 0);
  }

  lemma {:induction false} CutShape()
    ensures |CUT| == 21 && |CODE| == 15 && Trimmed(CUT) && !Tidy(CODE)
  {
    assert CODE[3] == '\n' && IsSpace('\n') && CUT[0] == 'h' && CUT[20] == '`';
  }

  // ---- a text that reads like a placeholder between two others ----

  const LONG: string := Fence("aaaaaaaaaaaaaaaaaaaaaaaa")
  const LOOKALIKE: string := "CODE_BLOCK_0"
  const TAIL: string := Fence("b") + (LOOKALIKE + Fence("c"))
  const CONFUSED: string := LONG + (" " + TAIL)
  const TAIL_TOKENS: seq<Token> := [Block(1)] + (Plains(LOOKALIKE) + [Block(2)])

  lemma {:induction false} TailReads(s: string, i: nat)
    requires i <= |s| && s[i..] == TAIL
    ensures ReadsAs(s, i, TAIL, 1, [Fence("b"), Fence("c")], TAIL_TOKENS)
  {
    assert |Fence("b")| == 7;
    TailAfter(s, i, Fence("b"), LOOKALIKE + Fence("c"));
    LookalikeReads(s, i + 7);
    FenceThen(s, i, "b", LOOKALIKE + Fence("c"), 1, [Fence("c")], Plains(LOOKALIKE) + [Block(2)]);
    assert [Fence("b")] + [Fence("c")] == [Fence("b"), Fence("c")];
  }

  lemma {:induction false} LookalikeReads(s: string, i: nat)
    requires i <= |s| && s[i..] == LOOKALIKE + Fence("c")
    ensures ReadsAs(s, i, LOOKALIKE + Fence("c"), 2, [Fence("c")], Plains(LOOKALIKE) + [Block(2)])
  {
    assert |LOOKALIKE| == 12;
    TailAfter(s, i, LOOKALIKE, Fence("c"));
    LastFenceReads(s, i + 12, "c", 2);
    PlainThen(s, i, LOOKALIKE, Fence("c"), 2, [Fence("c")], [Block(2)]);
  }

  lemma {:induction false} ConfusedReads()
    ensures CodeBlocks(CONFUSED, 0) == [LONG, Fence("b"), Fence("c")]
    ensures Shield(CONFUSED, 0, 0) == [Block(0)] + (Plains(" ") + TAIL_TOKENS)
  {
    var s, bs := CONFUSED, [Fence("b"), Fence("c")];
    assert s[0..] == s && |LONG| == 30;
    TailAfter(s, 0, LONG, " " + TAIL);
    SecondReads(s, 30);
    FenceThen(s, 0, "aaaaaaaaaaaaaaaaaaaaaaaa", " " + TAIL, 0, bs, Plains(" ") + TAIL_TOKENS);
    assert [LONG] + bs == [LONG, Fence("b"), Fence("c")];
  }

  lemma {:induction false} SecondReads(s: string, i: nat)
    requires i <= |s| && s[i..] == " " + TAIL
    ensures ReadsAs(s, i, " " + TAIL, 1, [Fence("b"), Fence("c")], Plains(" ") + TAIL_TOKENS)
  {
    TailAfter(s, i, " ", TAIL);
    TailReads(s, i + 1);
    PlainThen(s, i, " ", TAIL, 1, [Fence("b"), Fence("c")], TAIL_TOKENS);
  }

  const TAIL_WORD: string := Placeholder(1) + (LOOKALIKE + Placeholder(2))

  lemma {:induction false} ConfusedProtected()
    ensures Protected(CONFUSED) == Placeholder(0) + " " + TAIL_WORD
  {
    ConfusedReads();
    RenderCons(Block(2), []);
    NothingAfter(Placeholder(2));
    RenderPlains(LOOKALIKE, [Block(2)]);
    RenderCons(Block(1), Plains(LOOKALIKE) + [Block(2)]);
    RenderPlains(" ", TAIL_TOKENS);
    RenderCons(Block(0), Plains(" ") + TAIL_TOKENS);
    Associate(Placeholder(0), " ", TAIL_WORD);
  }

  lemma {:induction false} TailIsWord()
    ensures IsWord(TAIL_WORD)
  {
    PlaceholderWord(1);
    PlaceholderWord(2);
    assert IsWord(LOOKALIKE);
  }

  lemma {:induction false} TailConfused()
    ensures ConfusedAt([Block(0)] + (Plains(" ") + TAIL_TOKENS), 2, 0)
  {
    var ts := [Block(0)] + (Plains(" ") + TAIL_TOKENS);
    assert NAME + Decimal(0) == LOOKALIKE;
    assert ts[2] == Block(1) && ts[3..] == Plains(LOOKALIKE) + [Block(2)];
  }

  /** Text without any NUL that is taken for a placeholder: between the last two blocks it spells the name and the
      number of the first.  Nothing is cut, and still code is lost. */
  lemma {:induction false} PlaceholderConfused()
    ensures NUL !in CONFUSED && CutsAvoidCode(CONFUSED, 56) && !SplitClear(CONFUSED, 56)
    ensures EraseAll(Smart(CONFUSED, 56)) != Erase(CONFUSED)
  {
    var ts := [Block(0)] + (Plains(" ") + TAIL_TOKENS);
    assert NUL !in CONFUSED && |CONFUSED| == 57;
    ConfusedReads();
    ConfusedProtected();
    TailIsWord();
    PlaceholderWord(0);
    assert |Placeholder(0)| == |Placeholder(1)| == |Placeholder(2)| == 14;
    TwoWordsSplit(Placeholder(0), TAIL_WORD, 56);
    Shielded(CONFUSED);
    TailConfused();
    assert !ClearOf(ts, 0) && !Clear(ts);
    assert Protected(CONFUSED) in [Protected(CONFUSED)];
    SmartKeeps(CONFUSED, 56);
  }
}
