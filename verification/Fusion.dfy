/** Separators are dropped when parts are grouped, so the last word of one part and the first of the next can become one
    word.  This module counts how often. */
module Fusion {
  import opened Text
  import opened Placeholders
  import opened Fences
  import opened Packing
  import opened Splitting
  import opened Restoring
  import opened Chunker

  function WordsAll(cs: seq<string>): seq<string> {
    if cs == [] then [] else Words(cs[0]) + WordsAll(cs[1..])
  }

  /** Putting `b` right after `a` makes one word of two. */
  predicate Fuses(a: string, b: string) {
    a != "" && b != "" && !IsSpace(a[|a| - 1]) && !IsSpace(b[0])
  }

  function One(b: bool): nat {
    if b then 1 else 0
  }

  /** How many words the first `i` parts lose by being grouped. */
  function Fusions(parts: seq<string>, i: nat, maxChars: int): nat
    requires i <= |parts|
  {
    if i == 0 then 0
    else
      var current := Grouping(parts, i - 1, maxChars).1;
      Fusions(parts, i - 1, maxChars) + One(|current| + |parts[i - 1]| <= maxChars && Fuses(current, parts[i - 1]))
  }

  // ---- the words of a text put together ----

  lemma {:induction false} RunJoin(a: string, b: string)
    ensures RunLength(a) < |a| ==> RunLength(a + b) == RunLength(a)
    ensures RunLength(a) == |a| ==> RunLength(a + b) == |a| + RunLength(b)
  {
    if a == "" {
      assert a + b == b;
    } else {
      assert (a + b)[1..] == a[1..] + b;
      RunJoin(a[1..], b);
    }
  }

  lemma {:induction false} SliceBeyondWord(w: string, b: string, k: nat)
    requires k <= |b|
    ensures (w + b)[..|w| + k] == w + b[..k] && (w + b)[|w| + k..] == b[k..]
  {
  }

  /** A word followed by a text. */
  lemma {:induction false} WordJoin(w: string, b: string)
    requires IsWord(w)
    ensures !Fuses(w, b) ==> Words(w + b) == [w] + Words(b)
    ensures Fuses(w, b) ==> |Words(w + b)| == |Words(b)|
  {
    var k := RunLength(b);
    RunJoin(w, b);
    assert RunLength(w) == |w|;
    SliceBeyondWord(w, b, k);
    if !Fuses(w, b) {
      assert k == 0 && b[..0] == "" && w + "" == w && b[0..] == b;
    }
  }

  /** One word is lost where the texts fuse, and none otherwise. */
  ghost predicate Joins(a: string, b: string) {
    && |Words(a + b)| + One(Fuses(a, b)) == |Words(a)| + |Words(b)|
    && (!Fuses(a, b) ==> Words(a + b) == Words(a) + Words(b))
  }

  lemma {:induction false} WordsJoin(a: string, b: string)
    ensures Joins(a, b)
    decreases |a|
  {
    if a == "" {
      NothingJoins(b);
    } else if IsSpace(a[0]) {
      WordsJoin(a[1..], b);
      SpaceThenJoin(a, b);
    } else if RunLength(a) == |a| {
      LastWordJoins(a, b);
    } else {
      WordsJoin(a[RunLength(a)..], b);
      RunThenJoin(a, b);
    }
  }

  lemma {:induction false} NothingJoins(b: string)
    ensures Joins("", b)
  {
    assert "" + b == b && [] + Words(b) == Words(b);
  }

  lemma {:induction false} LastWordJoins(a: string, b: string)
    requires a != "" && RunLength(a) == |a|
    ensures Joins(a, b)
  {
    WordAlone(a);
    WordJoin(a, b);
  }

  lemma {:induction false} SpaceThenJoin(a: string, b: string)
    requires a != "" && IsSpace(a[0]) && Joins(a[1..], b)
    ensures Joins(a, b)
  {
    assert (a + b)[1..] == a[1..] + b;
  }

  lemma {:induction false} RunThenJoin(a: string, b: string)
    requires a != "" && !IsSpace(a[0]) && RunLength(a) < |a| && Joins(a[RunLength(a)..], b)
    ensures Joins(a, b)
  {
    var k := RunLength(a);
    RunJoin(a, b);
    SliceJoin(a, b, k);
    Associate([a[..k]], Words(a[k..]), Words(b));
  }

  lemma {:induction false} SliceJoin(a: string, b: string, k: nat)
    requires k < |a|
    ensures (a + b)[..k] == a[..k] && (a + b)[k..] == a[k..] + b && a[k..][|a| - k - 1] == a[|a| - 1]
  {
  }

  lemma {:induction false} BlankWords(s: string)
    requires Blank(s)
    ensures Words(s) == []
  {
    if s != "" { BlankWords(s[1..]); }
  }

  lemma {:induction false} StripWords(s: string)
    ensures Words(Strip(s)) == Words(s)
  {
    var l, r := StripShape(s);
    BlankWords(l);
    BlankWords(r);
    WordsJoin(l, Strip(s));
    WordsJoin(l + Strip(s), r);
  }

  lemma {:induction false} WordsAllAppend(cs: seq<string>, c: string)
    ensures WordsAll(cs + [c]) == WordsAll(cs) + Words(c)
  {
    if cs == [] {
      assert [] + [c] == [c] && [c][1..] == [];
    } else {
      assert (cs + [c])[1..] == cs[1..] + [c];
      WordsAllAppend(cs[1..], c);
    }
  }

  // ---- splitting keeps the words ----

  lemma {:induction false} PieceWords(head: string, gap: string, tail: string)
    requires Blank(gap) && gap != ""
    ensures Words(head + gap + tail) == Words(head) + Words(tail)
  {
    BlankWords(gap);
    WordsJoin(head, gap);
    WordsJoin(head + gap, tail);
    assert !Fuses(head + gap, tail) by { assert (head + gap)[|head + gap| - 1] == gap[|gap| - 1]; }
  }

  lemma {:induction false} PiecesWords(s: string, ms: seq<nat>, start: nat, i: nat)
    requires start <= i <= |s| && Breaks(s, ms)
    ensures WordsAll(Pieces(s, ms, start, i)) == Words(s[start..])
    decreases |s| - i
  {
    if i == |s| {
      WordsAllOne(s[start..]);
    } else if ms[i] == 0 {
      PiecesWords(s, ms, start, i + 1);
    } else {
      var j := Past(s, ms, i);
      PiecesWords(s, ms, j, j);
      BreakWords(s, ms, start, i, Pieces(s, ms, j, j));
    }
  }

  lemma {:induction false} BreakWords(s: string, ms: seq<nat>, start: nat, i: nat, rest: seq<string>)
    requires start <= i < |s| && Breaks(s, ms) && ms[i] > 0 && WordsAll(rest) == Words(s[Past(s, ms, i)..])
    ensures WordsAll([s[start..i]] + rest) == Words(s[start..])
  {
    var j := Past(s, ms, i);
    NewlinesBlank(s, ms, i);
    assert s[start..] == s[start..i] + s[i..j] + s[j..];
    PieceWords(s[start..i], s[i..j], s[j..]);
    WordsAllCons(s[start..i], rest);
  }

  lemma {:induction false} WordsAllOne(c: string)
    ensures WordsAll([c]) == Words(c)
  {
  }

  lemma {:induction false} WordsAllCons(c: string, cs: seq<string>)
    ensures WordsAll([c] + cs) == Words(c) + WordsAll(cs)
  {
    assert ([c] + cs)[1..] == cs;
  }

  // ---- grouping loses one word for each fusion ----

  lemma {:induction false} FlushedWords(chunks: seq<string>, current: string)
    ensures WordsAll(Flushed(chunks, current)) == WordsAll(chunks) + Words(current)
  {
    StripWords(current);
    WordsAllAppend(chunks, Strip(current));
  }

  /** `kept` is left of the words `all`, of which `lost` were fused with their neighbours. */
  ghost predicate Left(kept: seq<string>, all: seq<string>, lost: nat) {
    |kept| + lost == |all| && (lost == 0 ==> kept == all)
  }

  /** What is left of the words of the first `i` parts. */
  ghost predicate Kept(parts: seq<string>, i: nat, maxChars: int)
    requires i <= |parts|
  {
    var (chunks, current) := Grouping(parts, i, maxChars);
    Left(WordsAll(chunks) + Words(current), WordsAll(parts[..i]), Fusions(parts, i, maxChars))
  }

  lemma {:induction false} GroupingWords(parts: seq<string>, i: nat, maxChars: int)
    requires i <= |parts|
    ensures Kept(parts, i, maxChars)
  {
    if i > 0 {
      GroupingWords(parts, i - 1, maxChars);
      PartKept(parts, i, maxChars);
    }
  }

  lemma {:induction false} PartKept(parts: seq<string>, i: nat, maxChars: int)
    requires 0 < i <= |parts| && Kept(parts, i - 1, maxChars)
    ensures Kept(parts, i, maxChars)
  {
    var (chunks, current) := Grouping(parts, i - 1, maxChars);
    FrontWords(parts, i);
    FlushedWords(chunks, current);
    JoinLeft(WordsAll(chunks), current, parts[i - 1], WordsAll(parts[..i - 1]), Fusions(parts, i - 1, maxChars));
  }

  lemma {:induction false} FrontWords(parts: seq<string>, i: nat)
    requires 0 < i <= |parts|
    ensures WordsAll(parts[..i]) == WordsAll(parts[..i - 1]) + Words(parts[i - 1])
  {
    assert parts[..i] == parts[..i - 1] + [parts[i - 1]];
    WordsAllAppend(parts[..i - 1], parts[i - 1]);
  }

  lemma {:induction false} JoinLeft(before: seq<string>, current: string, part: string, all: seq<string>, lost: nat)
    requires Left(before + Words(current), all, lost)
    ensures Left(before + Words(current) + Words(part), all + Words(part), lost)
    ensures Left(before + Words(current + part), all + Words(part), lost + One(Fuses(current, part)))
  {
    WordsJoin(current, part);
    assert before + (Words(current) + Words(part)) == before + Words(current) + Words(part);
  }

  /** The words of the chunks are the words of the text, except that each fusion makes one word of two; so the words
      survive a split exactly when nothing is fused. */
  lemma {:induction false} WordsSurviveExactlyWhen(text: string, sep: Separator, maxChars: int)
    ensures var parts := Parts(text, sep); var kept := WordsAll(Groups(parts, maxChars));
      && |kept| + Fusions(parts, |parts|, maxChars) == |Words(text)|
      && (kept == Words(text) <==> Fusions(parts, |parts|, maxChars) == 0)
  {
    var parts := Parts(text, sep);
    var (chunks, current) := Grouping(parts, |parts|, maxChars);
    GroupingWords(parts, |parts|, maxChars);
    FlushedWords(chunks, current);
    PiecesWords(text, Matches(text, sep), 0, 0);
    assert parts[..|parts|] == parts && text[0..] == text;
  }

  // ---- cutting long words gains words ----

  lemma {:induction false} WordAlone(w: string)
    requires IsWord(w)
    ensures Words(w) == [w]
  {
    WordJoin(w, "");
    assert w + "" == w && [w] + [] == [w];
  }

  lemma {:induction false} WordsAllSolid(ws: seq<string>)
    requires forall w :: w in ws ==> IsWord(w)
    ensures WordsAll(ws) == ws
  {
    if ws != [] {
      WordAlone(ws[0]);
      WordsAllSolid(ws[1..]);
    }
  }

  lemma {:induction false} HardPiecesWords(w: string, maxChars: int)
    requires maxChars >= 1 && forall i :: 0 <= i < |w| ==> !IsSpace(w[i])
    ensures forall p :: p in HardPieces(w, maxChars) ==> IsWord(p)
    decreases |w|
  {
    if |w| > maxChars { HardPiecesWords(w[maxChars..], maxChars); }
  }

  lemma {:induction false} WordsAllConcat(a: seq<string>, b: seq<string>)
    ensures WordsAll(a + b) == WordsAll(a) + WordsAll(b)
  {
    if a == [] {
      NothingBefore(b);
      NothingBefore(WordsAll(b));
    } else {
      WordsAllConcat(a[1..], b);
      ConsAppend(a, b);
      Associate(Words(a[0]), WordsAll(a[1..]), WordsAll(b));
    }
  }

  function CutsOf(word: string, maxChars: int): int {
    if |word| > maxChars then |HardPieces(word, maxChars)| - 1 else 0
  }

  /** How many words the first `i` words gain by being cut. */
  function Cuts(words: seq<string>, i: nat, maxChars: int): int
    requires i <= |words|
  {
    if i == 0 then 0
    else Cuts(words, i - 1, maxChars) + CutsOf(words[i - 1], maxChars)
  }

  lemma {:induction false} CutsExactlyWhen(words: seq<string>, i: nat, maxChars: int)
    requires maxChars >= 1 && i <= |words|
    ensures Cuts(words, i, maxChars) >= 0
    ensures Cuts(words, i, maxChars) == 0 <==> forall j :: 0 <= j < i ==> |words[j]| <= maxChars
  {
    if i > 0 {
      CutsExactlyWhen(words, i - 1, maxChars);
      HardPiecesFit(words[i - 1], maxChars);
    }
  }

  /** `made` are the words `all` with `more` cuts in them. */
  ghost predicate Grown(made: seq<string>, all: seq<string>, more: int) {
    |made| == |all| + more && (more == 0 ==> made == all)
  }

  /** The words of the chunks and the buffer. */
  function Held(st: (seq<string>, string)): seq<string> {
    WordsAll(st.0) + Words(st.1)
  }

  ghost predicate Gained(st: (seq<string>, string), all: seq<string>, more: int) {
    match st
    case (chunks, current) => Grown(WordsAll(chunks) + Words(current), all, more)
  }

  lemma {:induction false} HeldAlone(chunks: seq<string>)
    ensures Held((chunks, "")) == WordsAll(chunks)
  {
    NothingAfter(WordsAll(chunks));
  }

  lemma {:induction false} ClosedWords(chunks: seq<string>, current: string)
    ensures WordsAll(Closed(chunks, current)) == Held((chunks, current))
  {
    WordsAllAppend(chunks, current);
    HeldAlone(chunks);
  }

  lemma {:induction false} ExtendedWords(current: string, word: string)
    requires IsWord(word)
    ensures Words(Extended(current, word)) == Words(current) + [word]
  {
    WordAlone(word);
    if current == "" {
      NothingBefore([word]);
    } else {
      StripWords(current + " " + word);
      PieceWords(current, " ", word);
    }
  }

  /** One more word is added, or the pieces it is cut into. */
  lemma {:induction false} PlacedWords(st: (seq<string>, string), word: string, maxChars: int)
    requires maxChars >= 1 && IsWord(word) && (|word| > maxChars ==> |Extended(st.1, word)| > maxChars)
    ensures Held(Placed(st.0, st.1, word, maxChars)) ==
      Held(st) + if |word| > maxChars then HardPieces(word, maxChars) else [word]
  {
    var (chunks, current) := st;
    if |Extended(current, word)| <= maxChars {
      ExtendedWords(current, word);
      Associate(WordsAll(chunks), Words(current), [word]);
    } else {
      ClosedWords(chunks, current);
      OpenedWords(Closed(chunks, current), word, maxChars);
    }
  }

  lemma {:induction false} OpenedWords(chunks: seq<string>, word: string, maxChars: int)
    requires maxChars >= 1 && IsWord(word)
    ensures Held(Opened(chunks, word, maxChars)) ==
      WordsAll(chunks) + if |word| > maxChars then HardPieces(word, maxChars) else [word]
  {
    if |word| > maxChars {
      HardPiecesWords(word, maxChars);
      WordsAllSolid(HardPieces(word, maxChars));
      WordsAllConcat(chunks, HardPieces(word, maxChars));
      HeldAlone(chunks + HardPieces(word, maxChars));
    } else {
      WordAlone(word);
    }
  }

  lemma {:induction false} PlacingWords(words: seq<string>, n: nat, maxChars: int)
    requires maxChars >= 1 && n <= |words| && forall w :: w in words ==> IsWord(w)
    ensures Gained(Placing(words, n, maxChars), words[..n], Cuts(words, n, maxChars))
  {
    NonePlaced(words, maxChars);
    for i := 0 to n
      invariant Gained(Placing(words, i, maxChars), words[..i], Cuts(words, i, maxChars))
    {
      PlacingWordsStep(words, i + 1, maxChars);
    }
  }

  lemma {:induction false} NonePlaced(words: seq<string>, maxChars: int)
    ensures Gained(Placing(words, 0, maxChars), words[..0], Cuts(words, 0, maxChars))
  {
    HeldAlone([]);
    assert words[..0] == [];
  }

  lemma {:induction false} PlacingWordsStep(words: seq<string>, i: nat, maxChars: int)
    requires maxChars >= 1 && 0 < i <= |words| && forall w :: w in words ==> IsWord(w)
    requires Gained(Placing(words, i - 1, maxChars), words[..i - 1], Cuts(words, i - 1, maxChars))
    ensures Gained(Placing(words, i, maxChars), words[..i], Cuts(words, i, maxChars))
  {
    CutsExactlyWhen(words, i - 1, maxChars);
    PlacingTrimmed(words, i - 1, maxChars);
    PlacedGains(Placing(words, i - 1, maxChars), words[i - 1], words[..i - 1], Cuts(words, i - 1, maxChars), maxChars);
    PrefixNext(words, i);
  }

  lemma {:induction false} PlacingTrimmed(words: seq<string>, i: nat, maxChars: int)
    requires maxChars >= 1 && i <= |words| && forall w :: w in words ==> IsWord(w)
    ensures Trimmed(Placing(words, i, maxChars).1)
  {
    PlacingHolds(words, i, maxChars, 0);
    TextHeld(Placing(words, i, maxChars), words[..i], maxChars);
  }

  lemma {:induction false} TextHeld(st: (seq<string>, string), seen: seq<string>, maxChars: int)
    requires Holding(st, seen, maxChars, 0)
    ensures Trimmed(st.1)
  {
  }

  lemma {:induction false} PlacedGains(st: (seq<string>, string), word: string, all: seq<string>, more: int,
                                       maxChars: int)
    requires maxChars >= 1 && IsWord(word) && Trimmed(st.1) && Gained(st, all, more) && more >= 0
    ensures Gained(Placed(st.0, st.1, word, maxChars), all + [word], more + CutsOf(word, maxChars))
  {
    var pieces := if |word| > maxChars then HardPieces(word, maxChars) else [word];
    ExtendedFits(st.1, word);
    PlacedWords(st, word, maxChars);
    HardPiecesFit(word, maxChars);
    GrownStep(Held(st), all, more, word, pieces);
  }

  lemma {:induction false} GrownStep(made: seq<string>, all: seq<string>, more: int, word: string, pieces: seq<string>)
    requires Grown(made, all, more) && more >= 0 && (pieces == [word] || |pieces| >= 2)
    ensures Grown(made + pieces, all + [word], more + |pieces| - 1)
  {
  }

  /** Splitting by words keeps the words exactly when none is longer than a chunk. */
  lemma {:induction false} ByWordsExactlyWhen(text: string, maxChars: int)
    requires maxChars >= 1
    ensures WordsAll(ByWords(text, maxChars)) == Words(text) <==> forall w :: w in Words(text) ==> |w| <= maxChars
  {
    var words := Words(text);
    var (chunks, current) := Placing(words, |words|, maxChars);
    PlacingWords(words, |words|, maxChars);
    CutsExactlyWhen(words, |words|, maxChars);
    WholeSlice(words);
    ClosedWords(chunks, current);
    if WordChunks(words, maxChars) == [] {
      var head := if |text| <= maxChars then text else text[..maxChars];
      BlankText(text);
      BlankWords(head);
      WordsAllOne(head);
    }
  }

  lemma {:induction false} BlankText(text: string)
    ensures Words(text) == [] ==> Blank(text)
  {
    WordsErase(text);
    EraseBlank(text);
  }

  // ---- the words of a whole message ----

  /** The level that is used joins no words, or cuts none. */
  ghost predicate KeepsWords(text: string, maxChars: int)
    requires maxChars >= 1
  {
    if Usable(text, Heading, maxChars) then Fusions(Parts(text, Heading), |Parts(text, Heading)|, maxChars) == 0
    else if Usable(text, Paragraph, maxChars) then
      Fusions(Parts(text, Paragraph), |Parts(text, Paragraph)|, maxChars) == 0
    else if Usable(text, Line, maxChars) then Fusions(Parts(text, Line), |Parts(text, Line)|, maxChars) == 0
    else forall w :: w in Words(text) ==> |w| <= maxChars
  }

  lemma {:induction false} SplitTextWords(text: string, maxChars: int)
    requires maxChars >= 1
    ensures WordsAll(SplitText(text, maxChars)) == Words(text) <==> KeepsWords(text, maxChars)
  {
    if Usable(text, Heading, maxChars) {
      WordsSurviveExactlyWhen(text, Heading, maxChars);
    } else if Usable(text, Paragraph, maxChars) {
      WordsSurviveExactlyWhen(text, Paragraph, maxChars);
    } else if Usable(text, Line, maxChars) {
      WordsSurviveExactlyWhen(text, Line, maxChars);
    } else {
      ByWordsExactlyWhen(text, maxChars);
    }
  }

  lemma {:induction false} RestoredWords(chunks: seq<string>)
    ensures WordsAll(RestoredList(chunks, [])) == WordsAll(chunks)
  {
    if chunks != [] {
      var front, last := chunks[..|chunks| - 1], chunks[|chunks| - 1];
      RestoredWords(front);
      LastWords(RestoredList(front, []), last);
      WordsAllAppend(front, last);
      FrontLast(chunks);
    }
  }

  lemma {:induction false} LastWords(before: seq<string>, last: string)
    ensures WordsAll(before + if Back(last, []) == "" then [] else [Back(last, [])]) == WordsAll(before) + Words(last)
  {
    assert Restored(last, [], 0) == last;
    StripWords(last);
    WordsAllAppend(before, Strip(last));
    NothingAfter(before);
    NothingAfter(WordsAll(before));
  }

  /** Without fenced code nothing is restored, so every chunk that fitted still fits. */
  lemma {:induction false} NothingToFit(chunks: seq<string>, maxChars: int)
    requires maxChars >= 1 && forall c :: c in chunks ==> |c| <= maxChars
    ensures FitList(RestoredList(chunks, []), maxChars) == RestoredList(chunks, [])
  {
    forall r | r in RestoredList(chunks, []) ensures |r| <= maxChars {
      ListedBack(chunks, [], r);
      var c :| c in chunks && Back(c, []) == r;
      StripShorter(c);
    }
    FitListFitted(RestoredList(chunks, []), maxChars);
  }

  /** A long text without fenced code: the words of the message are those of the text if and only if, at the level
      that is used, no words are joined, or, at the last one, no word is longer than a chunk. */
  lemma {:induction false} SmartWordsExactlyWhen(text: string, maxChars: int)
    requires |text| > maxChars >= 1 && CodeBlocks(text, 0) == []
    ensures WordsAll(Smart(text, maxChars)) == Words(text) <==> KeepsWords(text, maxChars)
  {
    var chunks := SplitText(text, maxChars);
    ShieldPlain(text, 0, 0);
    assert text[0..] == text;
    SplitTextKeeps(text, maxChars, 0);
    SplitTextWords(text, maxChars);
    RestoredWords(chunks);
    NothingToFit(chunks, maxChars);
    if RestoredList(chunks, []) == [] {
      RestoredListPlain(chunks);
      BlankMessage(text, maxChars);
    }
  }

  lemma {:induction false} BlankMessage(text: string, maxChars: int)
    requires |text| > maxChars >= 1 && Erase(text) == EraseAll([])
    ensures WordsAll([text[..maxChars]]) == Words(text) == []
  {
    assert EraseAll([]) == "";
    EraseBlank(text);
    BlankWords(text);
    BlankWords(text[..maxChars]);
    WordsAllOne(text[..maxChars]);
  }

  /** Two short lines become one word. */
  lemma {:induction false} LinesFuse()
    ensures Groups(Parts("a\nb", Line), 2) == ["ab"] && Words("a\nb") == ["a", "b"]
  {
    TwoLines();
    TwoWords();
    GroupTwo("a", "b");
    assert "a" + "b" == "ab";
    OneChunk();
  }

  lemma {:induction false} OneChunk()
    ensures Flushed([], "ab") == ["ab"]
  {
    assert RStrip("ab") == "ab" && LStrip("ab") == "ab";
  }

  lemma {:induction false} TwoWords()
    ensures Words("a\nb") == ["a", "b"]
  {
    WordAlone("a");
    WordAlone("b");
    PieceWords("a", "\n", "b");
    assert "a" + "\n" + "b" == "a\nb" && ["a"] + ["b"] == ["a", "b"];
  }

  lemma {:induction false} TwoLines()
    ensures Parts("a\nb", Line) == ["a", "b"]
  {
    var text := "a\nb";
    var ms := Matches(text, Line);
    assert ms == [0, 1, 0];
    assert Pieces(text, ms, 2, 3) == [text[2..]] == ["b"] && Pieces(text, ms, 2, 2) == Pieces(text, ms, 2, 3);
    assert Pieces(text, ms, 0, 1) == [text[0..1]] + Pieces(text, ms, 2, 2);
    assert text[0..1] == "a" && Pieces(text, ms, 0, 0) == Pieces(text, ms, 0, 1);
  }

  lemma {:induction false} GroupTwo(a: string, b: string)
    ensures Grouping([a, b], 2, |a| + |b|) == ([], a + b)
  {
    assert Grouping([a, b], 0, |a| + |b|) == ([], "") && "" + a == a;
    assert Grouping([a, b], 1, |a| + |b|) == ([], a);
  }
}
