/** The three ways `smart_chunk` cuts a protected message: at a markdown separator, at white space, by force. */
module Splitting {
  import opened Text
  import opened Placeholders
  import opened Packing
  import opened Wrappers

  // ---- re.split at the three markdown levels ----

  datatype Separator = Heading | Paragraph | Line

  /** One to three `#` followed by white space, at position `i`. */
  predicate HeadingAhead(s: string, i: nat) {
    || (i + 1 < |s| && s[i] == '#' && IsSpace(s[i + 1]))
    || (i + 2 < |s| && s[i] == '#' && s[i + 1] == '#' && IsSpace(s[i + 2]))
    || (i + 3 < |s| && s[i] == '#' && s[i + 1] == '#' && s[i + 2] == '#' && IsSpace(s[i + 3]))
  }

  function NewlineRun(s: string, i: nat): (n: nat)
    requires i <= |s|
    ensures i + n <= |s| && forall j :: i <= j < i + n ==> s[j] == '\n'
    decreases |s| - i
  {
    if i < |s| && s[i] == '\n' then 1 + NewlineRun(s, i + 1) else 0
  }

  /** Length of the separator that matches at `i`; 0 when none does. */
  function SeparatorLength(s: string, sep: Separator, i: nat): (n: nat)
    requires i < |s|
    ensures i + n <= |s| && forall j :: i <= j < i + n ==> s[j] == '\n'
  {
    match sep
    case Heading => if s[i] == '\n' && HeadingAhead(s, i + 1) then 1 else 0
    case Paragraph => if NewlineRun(s, i) >= 2 then NewlineRun(s, i) else 0
    case Line => if s[i] == '\n' then 1 else 0
  }

  /** For every position, how many line breaks a separator that starts there takes up. */
  function Matches(s: string, sep: Separator): (ms: seq<nat>)
    ensures Breaks(s, ms)
  {
    seq(|s|, i requires 0 <= i < |s| => SeparatorLength(s, sep, i))
  }

  ghost predicate NewlinesAt(s: string, i: nat, n: nat) {
    i + n <= |s| && forall j :: i <= j < i + n ==> s[j] == '\n'
  }

  ghost predicate Breaks(s: string, ms: seq<nat>) {
    |ms| == |s| && forall i :: 0 <= i < |s| ==> NewlinesAt(s, i, ms[i])
  }

  /** Where the separator that starts at `i` ends. */
  function Past(s: string, ms: seq<nat>, i: nat): (j: nat)
    requires i < |s| && Breaks(s, ms)
    ensures i <= j <= |s| && j == i + ms[i]
  {
    assert NewlinesAt(s, i, ms[i]);
    i + ms[i]
  }

  /** `re.split`: what lies between the separators, scanning from `i` a piece that began at `start`. */
  function Pieces(s: string, ms: seq<nat>, start: nat, i: nat): (ps: seq<string>)
    requires start <= i <= |s| && Breaks(s, ms)
    ensures ps != []
    decreases |s| - i
  {
    if i == |s| then [s[start..]]
    else if ms[i] == 0 then Pieces(s, ms, start, i + 1)
    else [s[start..i]] + Pieces(s, ms, Past(s, ms, i), Past(s, ms, i))
  }

  lemma {:induction false} NewlinesBlank(s: string, ms: seq<nat>, i: nat)
    requires Breaks(s, ms) && i < |s|
    ensures Blank(s[i..Past(s, ms, i)]) && Erase(s[i..]) == Erase(s[Past(s, ms, i)..])
    ensures ms[i] > 0 ==> IsSpace(s[i])
  {
    var n := ms[i];
    assert IsSpace('\n');
    EraseConcat(s[i..i + n], s[i + n..]);
    EraseBlank(s[i..i + n]);
    assert s[i..i + n] + s[i + n..] == s[i..];
  }

  lemma {:induction false} PieceErase(whole: string, head: string, tail: string, rest: seq<string>)
    requires whole == head + tail && Erase(tail) == EraseAll(rest)
    ensures EraseAll([head] + rest) == Erase(whole)
  {
    EraseAllCons(head, rest);
    EraseConcat(head, tail);
  }

  lemma {:induction false} PiecesErase(s: string, ms: seq<nat>, start: nat, i: nat)
    requires start <= i <= |s| && Breaks(s, ms)
    ensures EraseAll(Pieces(s, ms, start, i)) == Erase(s[start..])
    decreases |s| - i
  {
    if i == |s| {
      OneErase(s[start..]);
    } else {
      PiecesNext(s, ms, start, i);
      if ms[i] == 0 {
        PiecesErase(s, ms, start, i + 1);
      } else {
        PiecesErase(s, ms, Past(s, ms, i), Past(s, ms, i));
        BreakErase(s, ms, start, i, Pieces(s, ms, Past(s, ms, i), Past(s, ms, i)));
      }
    }
  }

  lemma {:induction false} PiecesNext(s: string, ms: seq<nat>, start: nat, i: nat)
    requires start <= i < |s| && Breaks(s, ms)
    ensures Pieces(s, ms, start, i) ==
      if ms[i] == 0 then Pieces(s, ms, start, i + 1) else [s[start..i]] + Pieces(s, ms, Past(s, ms, i), Past(s, ms, i))
  {
  }

  lemma {:induction false} BreakErase(s: string, ms: seq<nat>, start: nat, i: nat, rest: seq<string>)
    requires start <= i < |s| && Breaks(s, ms) && EraseAll(rest) == Erase(s[Past(s, ms, i)..])
    ensures EraseAll([s[start..i]] + rest) == Erase(s[start..])
  {
    NewlinesBlank(s, ms, i);
    SplitAt(s, start, i);
    PieceErase(s[start..], s[start..i], s[i..], rest);
  }

  lemma {:induction false} WholeSides(s: string, i: nat, j: nat, n: nat)
    requires i < j <= |s| && Blank(s[i..j]) && IsSpace(s[i]) && Whole(s, n)
    ensures Whole(s[..i], n) && Whole(s[j..], n)
  {
    SplitTail(s, i, j);
    CutBeforeSpace(s, i, n);
    BlankWhole(s[i..j], n);
    CutAfterWhole(s[i..], j - i, n);
  }

  lemma {:induction false} SliceWithin(s: string, a: nat, i: nat, j: nat)
    requires a <= i < j <= |s|
    ensures s[a..][i - a..j - a] == s[i..j] && s[a..][i - a] == s[i]
  {
  }

  lemma {:induction false} SplitWhole(s: string, ms: seq<nat>, start: nat, i: nat, n: nat)
    requires start <= i < |s| && Breaks(s, ms) && ms[i] > 0 && Whole(s[start..], n)
    ensures Whole(s[start..i], n) && Whole(s[Past(s, ms, i)..], n)
  {
    var j := Past(s, ms, i);
    NewlinesBlank(s, ms, i);
    SplitTail(s, start, i);
    SplitTail(s, start, j);
    SliceWithin(s, start, i, j);
    WholeSides(s[start..], i - start, j - start, n);
  }

  lemma {:induction false} AllWholeCons(head: string, rest: seq<string>, n: nat)
    requires Whole(head, n) && AllWhole(rest, n)
    ensures AllWhole([head] + rest, n)
    ensures rest == [] ==> AllWhole([head], n)
  {
  }

  /** Separators are white space, so splitting never cuts a placeholder. */
  lemma {:induction false} PiecesWhole(s: string, ms: seq<nat>, start: nat, i: nat, n: nat)
    requires start <= i <= |s| && Breaks(s, ms) && Whole(s[start..], n)
    ensures AllWhole(Pieces(s, ms, start, i), n)
    decreases |s| - i
  {
    if i == |s| {
      AllWholeCons(s[start..], [], n);
    } else if ms[i] == 0 {
      PiecesWhole(s, ms, start, i + 1, n);
    } else {
      SplitWhole(s, ms, start, i, n);
      PiecesWhole(s, ms, Past(s, ms, i), Past(s, ms, i), n);
      AllWholeCons(s[start..i], Pieces(s, ms, Past(s, ms, i), Past(s, ms, i)), n);
    }
  }

  /** A stretch without white space stays inside one piece. */
  lemma {:induction false} PieceAround(s: string, ms: seq<nat>, start: nat, i: nat, a: nat, b: nat) returns (p: string)
    requires start <= i <= |s| && Breaks(s, ms)
    requires start <= a < b <= |s| && forall j :: a <= j < b ==> !IsSpace(s[j])
    ensures p in Pieces(s, ms, start, i) && |p| >= b - a
    decreases |s| - i
  {
    if i == |s| {
      p := s[start..];
    } else if ms[i] == 0 {
      p := PieceAround(s, ms, start, i + 1, a, b);
    } else if a < Past(s, ms, i) {
      assert IsSpace('\n');
      var m := if a < i then i else a;
      assert s[m] == '\n';
      assert b <= i;
      p := s[start..i];
    } else {
      p := PieceAround(s, ms, Past(s, ms, i), Past(s, ms, i), a, b);
    }
  }

  lemma {:induction false} SliceAfter(s: string, n: nat, a: nat, k: nat)
    requires n + a + k <= |s|
    ensures s[n..][a..a + k] == s[a + n..a + n + k]
  {
  }

  lemma {:induction false} WordAt(s: string, w: string) returns (a: nat)
    requires w in Words(s)
    ensures a + |w| <= |s| && s[a..a + |w|] == w
    decreases |s|
  {
    if IsSpace(s[0]) {
      a := WordAt(s[1..], w);
      SliceAfter(s, 1, a, |w|);
      a := a + 1;
    } else if w == s[..RunLength(s)] {
      a := 0;
    } else {
      var n := RunLength(s);
      a := WordAt(s[n..], w);
      SliceAfter(s, n, a, |w|);
      a := a + n;
    }
  }

  // ---- _split_by_pattern ----

  /** A list of chunks that has lost only white space of `text` and has cut no placeholder. */
  ghost predicate Covers(chunks: seq<string>, text: string, n: nat) {
    && EraseAll(chunks) == Erase(text)
    && (Whole(text, n) ==> AllWhole(chunks, n))
  }

  ghost predicate AllWhole(chunks: seq<string>, n: nat) {
    forall c :: c in chunks ==> Whole(c, n)
  }

  /** What splitting at `sep` alone would give. */
  function Parts(text: string, sep: Separator): seq<string> {
    Pieces(text, Matches(text, sep), 0, 0)
  }

  lemma {:induction false} WordsFitParts(s: string, sep: Separator, maxChars: int)
    requires forall p :: p in Parts(s, sep) ==> |p| <= maxChars
    ensures forall w :: w in Words(s) ==> |w| <= maxChars
  {
    forall w | w in Words(s) ensures |w| <= maxChars {
      var a := WordAt(s, w);
      assert forall j :: a <= j < a + |w| ==> s[j] == w[j - a];
      var p := PieceAround(s, Matches(s, sep), 0, 0, a, a + |w|);
    }
  }

  lemma {:induction false} PartsCover(text: string, sep: Separator, n: nat)
    ensures Covers(Parts(text, sep), text, n)
  {
    assert text[0..] == text;
    PiecesErase(text, Matches(text, sep), 0, 0);
    if Whole(text, n) { PiecesWhole(text, Matches(text, sep), 0, 0, n); }
  }

  lemma {:induction false} JoinWhole(a: string, b: string, n: nat)
    ensures Whole(a, n) && Whole(b, n) ==> Whole(a + b, n)
  {
    if Whole(a, n) && Whole(b, n) { WholeConcat(a, b, n); }
  }

  lemma {:induction false} EmptyWhole(n: nat)
    ensures Whole("", n) && Flat([]) == ""
  {
    assert Valid([], n) && Render([]) == "";
  }

  /** Splitting at `sep` is enough. */
  ghost predicate Usable(text: string, sep: Separator, maxChars: int) {
    |Parts(text, sep)| > 1 && !Blank(text) && forall p :: p in Parts(text, sep) ==> |p| <= maxChars
  }

  /** The chunks hold the text up to white space and fit, and a placeholder is cut only where a long word is. */
  ghost predicate SplitKeeps(chunks: seq<string>, text: string, maxChars: int, n: nat) {
    && EraseAll(chunks) == Erase(text) && (forall c :: c in chunks ==> |c| <= maxChars)
    && (Whole(text, n) ==> if WordsCutClean(text, maxChars, n) then AllWhole(chunks, n) else HasBroken(chunks))
  }

  method SplitByPattern(text: string, sep: Separator, maxChars: int) returns (r: Option<seq<string>>)
    ensures r.Some? <==> Usable(text, sep, maxChars)
    ensures r.Some? ==> r.value == Groups(Parts(text, sep), maxChars)
  {
    var parts := Parts(text, sep);
    if |parts| <= 1 {
      return None;
    }
    r := GroupParts(parts, maxChars);
    if forall p :: p in parts ==> |p| <= maxChars { GroupsKeep(parts, maxChars, 0); }
    PartsCover(text, sep, 0);
    EraseBlank(text);
  }

  /** The grouping loop of `_split_by_pattern`. */
  method GroupParts(parts: seq<string>, maxChars: int) returns (r: Option<seq<string>>)
    ensures r.Some? <==> Groups(parts, maxChars) != [] && forall p :: p in parts ==> |p| <= maxChars
    ensures r.Some? ==> r.value == Groups(parts, maxChars)
  {
    var chunks: seq<string> := [];
    var current := "";
    for i := 0 to |parts|
      invariant (chunks, current) == Grouping(parts, i, maxChars) && forall j :: 0 <= j < i ==> |parts[j]| <= maxChars
    {
      var part := parts[i];
      if |part| > maxChars {
        assert part in parts;
        return None;
      }
      if |current| + |part| > maxChars {
        if Strip(current) != "" { chunks := chunks + [Strip(current)]; }
        current := part;
      } else {
        current := current + part;
      }
    }
    if Strip(current) != "" { chunks := chunks + [Strip(current)]; }
    r := if chunks != [] then Some(chunks) else None;
  }

  function Flushed(chunks: seq<string>, current: string): seq<string> {
    if Strip(current) != "" then chunks + [Strip(current)] else chunks
  }

  /** One step of the grouping loop: the part joins the buffer, or the buffer is flushed first. */
  function Taken(st: (seq<string>, string), part: string, maxChars: int): (seq<string>, string) {
    if |st.1| + |part| > maxChars then (Flushed(st.0, st.1), part) else (st.0, st.1 + part)
  }

  /** The chunks and the buffer after the first `i` parts: neighbouring parts share a chunk while they fit. */
  function Grouping(parts: seq<string>, i: nat, maxChars: int): (seq<string>, string)
    requires i <= |parts|
  {
    if i == 0 then ([], "") else Taken(Grouping(parts, i - 1, maxChars), parts[i - 1], maxChars)
  }

  function Groups(parts: seq<string>, maxChars: int): seq<string> {
    Flushed(Grouping(parts, |parts|, maxChars).0, Grouping(parts, |parts|, maxChars).1)
  }

  // ---- what the grouping loop keeps ----

  /** The chunks made so far and the buffer hold the parts `seen`. */
  ghost predicate Filling(st: (seq<string>, string), seen: seq<string>, maxChars: int, n: nat) {
    match st
    case (chunks, current) =>
      && (current == "" || |current| <= maxChars) && EraseAll(chunks) + Erase(current) == EraseAll(seen)
      && GoodChunks(chunks, maxChars) && (AllWhole(seen, n) ==> Whole(current, n) && AllWhole(chunks, n))
  }

  ghost predicate GoodChunks(chunks: seq<string>, maxChars: int) {
    forall c :: c in chunks ==> |c| <= maxChars && c != "" && !Blank(c)
  }

  /** Grouping parts that fit keeps them up to white space, and the bound, and cuts no placeholder. */
  lemma {:induction false} GroupsKeep(parts: seq<string>, maxChars: int, n: nat)
    requires forall p :: p in parts ==> |p| <= maxChars
    ensures EraseAll(Groups(parts, maxChars)) == EraseAll(parts)
      && (AllWhole(parts, n) ==> AllWhole(Groups(parts, maxChars), n))
    ensures forall c :: c in Groups(parts, maxChars) ==> |c| <= maxChars
    ensures Groups(parts, maxChars) == [] <==> EraseAll(parts) == ""
  {
    var (chunks, current) := Grouping(parts, |parts|, maxChars);
    GroupingFills(parts, |parts|, maxChars, n);
    WholeSlice(parts);
    FlushedFills(chunks, current, maxChars, n);
    NoChunks(Flushed(chunks, current));
  }

  lemma {:induction false} GroupingFills(parts: seq<string>, i: nat, maxChars: int, n: nat)
    requires i <= |parts| && forall p :: p in parts ==> |p| <= maxChars
    ensures Filling(Grouping(parts, i, maxChars), parts[..i], maxChars, n)
  {
    if i == 0 {
      NoneFilled(maxChars, n);
      assert parts[..0] == [];
    } else {
      GroupingFills(parts, i - 1, maxChars, n);
      TakenFills(Grouping(parts, i - 1, maxChars), parts[i - 1], parts[..i - 1], maxChars, n);
      PrefixNext(parts, i);
    }
  }

  lemma {:induction false} NoneFilled(maxChars: int, n: nat)
    ensures Filling(([], ""), [], maxChars, n)
  {
    EmptyWhole(n);
    NothingMore([]);
  }

  lemma {:induction false} TakenFills(st: (seq<string>, string), part: string, seen: seq<string>, maxChars: int, n: nat)
    requires Filling(st, seen, maxChars, n) && |part| <= maxChars
    ensures Filling(Taken(st, part, maxChars), seen + [part], maxChars, n)
  {
    var (chunks, current) := st;
    SeenWhole(seen, part, n);
    EraseAllAppend(seen, part);
    if |current| + |part| > maxChars {
      FlushedFills(chunks, current, maxChars, n);
    } else {
      EraseConcat(current, part);
      Associate(EraseAll(chunks), Erase(current), Erase(part));
      JoinWhole(current, part, n);
    }
  }

  /** The stripped buffer is appended unless it is blank. */
  lemma {:induction false} FlushedFills(chunks: seq<string>, current: string, maxChars: int, n: nat)
    requires (current == "" || |current| <= maxChars) && GoodChunks(chunks, maxChars)
    ensures EraseAll(Flushed(chunks, current)) == EraseAll(chunks) + Erase(current)
      && GoodChunks(Flushed(chunks, current), maxChars)
    ensures Whole(current, n) && AllWhole(chunks, n) ==> AllWhole(Flushed(chunks, current), n)
  {
    StripErases(current);
    EraseBlank(current);
    EraseBlank(Strip(current));
    EraseAllAppend(chunks, Strip(current));
    StripShorter(current);
    if Whole(current, n) { StripWhole(current, n); }
  }

  lemma {:induction false} StripShorter(s: string)
    ensures |Strip(s)| <= |s| && (Strip(s) != "" ==> !Blank(Strip(s)))
  {
    var l, r := StripShape(s);
  }

  lemma {:induction false} NoChunks(chunks: seq<string>)
    requires forall c :: c in chunks ==> c != "" && !Blank(c)
    ensures chunks == [] <==> EraseAll(chunks) == ""
  {
    if chunks != [] {
      var front, last := chunks[..|chunks| - 1], chunks[|chunks| - 1];
      assert chunks == front + [last];
      EraseAllAppend(front, last);
      EraseBlank(last);
    }
  }

  /** Splitting at a separator that is enough cuts nothing at all. */
  lemma {:induction false} PatternKeeps(text: string, sep: Separator, maxChars: int, n: nat)
    requires Usable(text, sep, maxChars)
    ensures SplitKeeps(Groups(Parts(text, sep), maxChars), text, maxChars, n) && WordsCutClean(text, maxChars, n)
  {
    GroupsKeep(Parts(text, sep), maxChars, n);
    PartsCover(text, sep, n);
    WordsFitParts(text, sep, maxChars);
    NoCuts(text, maxChars, n);
  }

  /** If all words fit, no forced cut can break anything. */
  lemma {:induction false} NoCuts(text: string, maxChars: int, n: nat)
    requires forall w :: w in Words(text) ==> |w| <= maxChars
    ensures WordsCutClean(text, maxChars, n)
  {
  }

  // ---- _split_by_words ----

  /** Cutting `w` every `maxChars` characters never falls inside a placeholder. */
  ghost predicate CutsClean(w: string, maxChars: int, n: nat)
    decreases |w|
  {
    |w| <= maxChars || maxChars <= 0 || (Whole(w[..maxChars], n) && CutsClean(w[maxChars..], maxChars, n))
  }

  ghost predicate WordsCutClean(text: string, maxChars: int, n: nat) {
    forall w :: w in Words(text) ==> CutsClean(w, maxChars, n)
  }

  /** A chunk in which a placeholder was cut keeps a NUL that no replacement removes. */
  ghost predicate HasBroken(chunks: seq<string>) {
    exists c :: c in chunks && NulCount(c) % 2 == 1
  }

  lemma {:induction false} WordsWhole(s: string, n: nat)
    requires Whole(s, n)
    ensures AllWhole(Words(s), n)
    decreases |s|
  {
    if s == "" {
    } else if IsSpace(s[0]) {
      BlankWhole(s[..1], n);
      CutWhole(s, 1, n);
      WordsWhole(s[1..], n);
    } else {
      var k := RunLength(s);
      assert s[..|s|] == s;
      CutWhole(s, k, n);
      WordsWhole(s[k..], n);
    }
  }

  /** The hard split of one word that does not fit. */
  method HardSplit(word: string, maxChars: int) returns (pieces: seq<string>)
    requires maxChars >= 1
    ensures pieces == HardPieces(word, maxChars)
  {
    pieces := [];
    var rest := word;
    while rest != ""
      invariant pieces + HardPieces(rest, maxChars) == HardPieces(word, maxChars)
      decreases |rest|
    {
      var k := if |rest| <= maxChars then |rest| else maxChars;
      HardPiecesNext(rest, maxChars, k);
      Associate(pieces, [rest[..k]], HardPieces(rest[k..], maxChars));
      pieces := pieces + [rest[..k]];
      rest := rest[k..];
    }
    NothingAfter(pieces);
  }

  /** The pieces are whole exactly when the cuts fall outside placeholders, and otherwise one is broken for good. */
  lemma {:induction false} HardPiecesJudged(word: string, maxChars: int, n: nat)
    requires maxChars >= 1 && Whole(word, n)
    ensures if CutsClean(word, maxChars, n) then AllWhole(HardPieces(word, maxChars), n)
      else HasBroken(HardPieces(word, maxChars))
    decreases |word|
  {
    if |word| > maxChars {
      var head, rest := word[..maxChars], word[maxChars..];
      assert word[..|word|] == word;
      CutWhole(word, maxChars, n);
      if Whole(head, n) {
        HardPiecesJudged(rest, maxChars, n);
        BrokenCons(head, HardPieces(rest, maxChars));
      } else {
        assert head in HardPieces(word, maxChars);
      }
    }
  }

  lemma {:induction false} BrokenCons(head: string, rest: seq<string>)
    ensures HasBroken(rest) ==> HasBroken([head] + rest)
  {
    if HasBroken(rest) {
      var c :| c in rest && NulCount(c) % 2 == 1;
      assert c in [head] + rest;
    }
  }

  /** A word put after the buffer. */
  function Extended(current: string, word: string): string {
    if current != "" then Strip(current + " " + word) else word
  }

  function Closed(chunks: seq<string>, current: string): seq<string> {
    if current != "" then chunks + [current] else chunks
  }

  /** A word at the start of a new chunk. */
  function Opened(chunks: seq<string>, word: string, maxChars: int): (seq<string>, string) {
    if |word| > maxChars then (chunks + HardPieces(word, maxChars), "") else (chunks, word)
  }

  function Placed(chunks: seq<string>, current: string, word: string, maxChars: int): (seq<string>, string) {
    if |Extended(current, word)| <= maxChars then (chunks, Extended(current, word))
    else Opened(Closed(chunks, current), word, maxChars)
  }

  /** The chunks and the buffer of the word loop after the first `i` words. */
  function Placing(words: seq<string>, i: nat, maxChars: int): (seq<string>, string)
    requires i <= |words|
  {
    if i == 0 then ([], "")
    else Placed(Placing(words, i - 1, maxChars).0, Placing(words, i - 1, maxChars).1, words[i - 1], maxChars)
  }

  function WordChunks(words: seq<string>, maxChars: int): seq<string> {
    Closed(Placing(words, |words|, maxChars).0, Placing(words, |words|, maxChars).1)
  }

  /** `_split_by_words`. */
  function ByWords(text: string, maxChars: int): seq<string>
    requires maxChars >= 1
  {
    var chunks := WordChunks(Words(text), maxChars);
    if chunks == [] then [if |text| <= maxChars then text else text[..maxChars]] else chunks
  }

  method SplitByWords(text: string, maxChars: int) returns (chunks: seq<string>)
    requires maxChars >= 1
    ensures chunks == ByWords(text, maxChars)
  {
    chunks := GroupWords(Words(text), maxChars);
    if chunks == [] { chunks := [if |text| <= maxChars then text else text[..maxChars]]; }
  }

  /** The last level keeps the text up to white space, and the bound, and cuts a placeholder exactly when a long word
      has one across a cut. */
  lemma {:induction false} ByWordsKeeps(text: string, maxChars: int, n: nat)
    requires maxChars >= 1
    ensures ByWords(text, maxChars) != [] && SplitKeeps(ByWords(text, maxChars), text, maxChars, n)
  {
    WordsGrouped(Words(text), maxChars, n);
    WordsErase(text);
    if Whole(text, n) { WordsWhole(text, n); }
    if WordChunks(Words(text), maxChars) == [] {
      BlankFallback(text, if |text| <= maxChars then text else text[..maxChars], n);
    }
  }

  /** The word loop of `_split_by_words`. */
  method GroupWords(words: seq<string>, maxChars: int) returns (chunks: seq<string>)
    requires maxChars >= 1
    ensures chunks == WordChunks(words, maxChars)
  {
    chunks := [];
    var current := "";
    for i := 0 to |words|
      invariant (chunks, current) == Placing(words, i, maxChars)
    {
      chunks, current := PlaceWord(chunks, current, words[i], maxChars);
    }
    if current != "" { chunks := chunks + [current]; }
  }

  /** One step of the word loop: the word joins the buffer, starts a new one, or is cut by force. */
  method PlaceWord(chunks: seq<string>, current: string, word: string, maxChars: int)
    returns (chunks': seq<string>, current': string)
    requires maxChars >= 1
    ensures (chunks', current') == Placed(chunks, current, word, maxChars)
  {
    var candidate := if current != "" then Strip(current + " " + word) else word;
    if |candidate| <= maxChars { return chunks, candidate; }
    chunks' := chunks;
    if current != "" { chunks' := chunks' + [current]; }
    if |word| > maxChars {
      var pieces := HardSplit(word, maxChars);
      chunks', current' := chunks' + pieces, "";
    } else {
      current' := word;
    }
  }

  // ---- what the word loop keeps ----

  /** The words up to white space, within the bound, and no placeholder cut unless a forced cut does it. */
  ghost predicate WordGroups(chunks: seq<string>, words: seq<string>, maxChars: int, n: nat) {
    && EraseAll(chunks) == Flat(words) && (forall c :: c in chunks ==> |c| <= maxChars)
    && (AllWhole(words, n) ==> Judged(chunks, words, maxChars, n))
  }

  ghost predicate Judged(chunks: seq<string>, seen: seq<string>, maxChars: int, n: nat) {
    if forall w :: w in seen ==> CutsClean(w, maxChars, n) then AllWhole(chunks, n) else HasBroken(chunks)
  }

  /** The chunks and the buffer hold the words `seen`. */
  ghost predicate Holding(st: (seq<string>, string), seen: seq<string>, maxChars: int, n: nat) {
    match st
    case (chunks, current) =>
      HoldsText(chunks, current, seen, maxChars) && HoldsWhole(chunks, current, seen, maxChars, n)
  }

  ghost predicate HoldsText(chunks: seq<string>, current: string, seen: seq<string>, maxChars: int) {
    && |current| <= maxChars && Trimmed(current)
    && EraseAll(chunks) + Erase(current) == Flat(seen) && forall c :: c in chunks ==> |c| <= maxChars
  }

  ghost predicate HoldsWhole(chunks: seq<string>, current: string, seen: seq<string>, maxChars: int, n: nat) {
    AllWhole(seen, n) ==> Whole(current, n) && Judged(chunks, seen, maxChars, n)
  }

  lemma {:induction false} WordsGrouped(words: seq<string>, maxChars: int, n: nat)
    requires maxChars >= 1 && forall w :: w in words ==> IsWord(w)
    ensures WordGroups(WordChunks(words, maxChars), words, maxChars, n)
  {
    var (chunks, current) := Placing(words, |words|, maxChars);
    PlacingHolds(words, |words|, maxChars, n);
    assert words[..|words|] == words;
    if current != "" {
      ClosedHolds(chunks, current, words, maxChars, n);
    }
    NothingMore(Closed(chunks, current));
  }

  lemma {:induction false} NothingMore(chunks: seq<string>)
    ensures EraseAll(chunks) + Erase("") == EraseAll(chunks)
  {
    EraseBlank("");
    NothingAfter(EraseAll(chunks));
  }

  lemma {:induction false} NoneHeld(maxChars: int, n: nat)
    requires maxChars >= 1
    ensures Holding(([], ""), [], maxChars, n)
  {
    EmptyWhole(n);
    NothingMore([]);
  }

  lemma {:induction false} PlacingHolds(words: seq<string>, i: nat, maxChars: int, n: nat)
    requires maxChars >= 1 && i <= |words| && forall w :: w in words ==> IsWord(w)
    ensures Holding(Placing(words, i, maxChars), words[..i], maxChars, n)
  {
    if i == 0 {
      NoneHeld(maxChars, n);
      assert words[..0] == [];
    } else {
      PlacingHolds(words, i - 1, maxChars, n);
      PlacingStep(words, i, maxChars, n);
    }
  }

  lemma {:induction false} PlacingStep(words: seq<string>, i: nat, maxChars: int, n: nat)
    requires maxChars >= 1 && 0 < i <= |words| && IsWord(words[i - 1])
    requires Holding(Placing(words, i - 1, maxChars), words[..i - 1], maxChars, n)
    ensures Holding(Placing(words, i, maxChars), words[..i], maxChars, n)
  {
    PlacedHolds(Placing(words, i - 1, maxChars), words[i - 1], words[..i - 1], maxChars, n);
    PrefixNext(words, i);
  }

  lemma {:induction false} PlacedHolds(st: (seq<string>, string), word: string, seen: seq<string>, maxChars: int,
                                       n: nat)
    requires maxChars >= 1 && IsWord(word) && Holding(st, seen, maxChars, n)
    ensures Holding(Placed(st.0, st.1, word, maxChars), seen + [word], maxChars, n)
  {
    var (chunks, current) := st;
    if |Extended(current, word)| <= maxChars {
      ExtendedHolds(chunks, current, word, seen, maxChars, n);
    } else {
      ClosedHolds(chunks, current, seen, maxChars, n);
      OpenedHolds(Closed(chunks, current), word, seen, maxChars, n);
    }
  }

  lemma {:induction false} SeenWhole(seen: seq<string>, word: string, n: nat)
    ensures AllWhole(seen + [word], n) <==> AllWhole(seen, n) && Whole(word, n)
  {
    assert word in seen + [word];
    assert forall w :: w in seen ==> w in seen + [word];
  }

  lemma {:induction false} ClosedHolds(chunks: seq<string>, current: string, seen: seq<string>, maxChars: int, n: nat)
    requires Holding((chunks, current), seen, maxChars, n)
    ensures Holding((Closed(chunks, current), ""), seen, maxChars, n)
  {
    EmptyWhole(n);
    if current != "" {
      EraseAllAppend(chunks, current);
      NothingMore(chunks + [current]);
      JudgedAppend(chunks, current, seen, maxChars, n);
    }
  }

  lemma {:induction false} ExtendedHolds(chunks: seq<string>, current: string, word: string, seen: seq<string>,
                                         maxChars: int, n: nat)
    requires IsWord(word) && Holding((chunks, current), seen, maxChars, n) && |Extended(current, word)| <= maxChars
    ensures Holding((chunks, Extended(current, word)), seen + [word], maxChars, n)
  {
    var candidate := Extended(current, word);
    Candidate(current, word, n);
    TextExtended(chunks, current, candidate, seen, word);
    SeenWhole(seen, word, n);
    JudgedKeeps(chunks, seen, word, maxChars, n);
    ExtendedFits(current, word);
  }

  lemma {:induction false} ExtendedFits(current: string, word: string)
    requires IsWord(word) && Trimmed(current)
    ensures |word| <= |Extended(current, word)|
  {
    if current != "" { StripTrimmed(current + " " + word); }
  }

  lemma {:induction false} TextExtended(chunks: seq<string>, current: string, candidate: string, seen: seq<string>,
                                        word: string)
    requires EraseAll(chunks) + Erase(current) == Flat(seen) && Erase(candidate) == Erase(current) + word
    ensures EraseAll(chunks) + Erase(candidate) == Flat(seen + [word])
  {
    FlatAppend(seen, word);
    Associate(EraseAll(chunks), Erase(current), word);
  }

  lemma {:induction false} OpenedHolds(chunks: seq<string>, word: string, seen: seq<string>, maxChars: int, n: nat)
    requires maxChars >= 1 && IsWord(word) && Holding((chunks, ""), seen, maxChars, n)
    ensures Holding(Opened(chunks, word, maxChars), seen + [word], maxChars, n)
  {
    if |word| > maxChars {
      CutHolds(chunks, word, HardPieces(word, maxChars), seen, maxChars, n);
    } else {
      ExtendedHolds(chunks, "", word, seen, maxChars, n);
    }
  }

  lemma {:induction false} CutHolds(chunks: seq<string>, word: string, pieces: seq<string>, seen: seq<string>,
                                    maxChars: int, n: nat)
    requires maxChars >= 1 && IsWord(word) && pieces == HardPieces(word, maxChars)
      && Holding((chunks, ""), seen, maxChars, n)
    ensures Holding((chunks + pieces, ""), seen + [word], maxChars, n)
  {
    EmptyWhole(n);
    HardPiecesFit(word, maxChars);
    NothingMore(chunks);
    NothingMore(chunks + pieces);
    PiecesFill(chunks, pieces, seen, word);
    SeenWhole(seen, word, n);
    if Whole(word, n) {
      HardPiecesJudged(word, maxChars, n);
      JudgedSplit(chunks, pieces, seen, word, maxChars, n);
    }
  }

  lemma {:induction false} Candidate(current: string, word: string, n: nat)
    requires IsWord(word) && Trimmed(current)
    ensures var c := Extended(current, word);
      Trimmed(c) && Erase(c) == Erase(current) + word && (Whole(current, n) && Whole(word, n) ==> Whole(c, n))
  {
    EraseSolid(word);
    if current != "" {
      StripTrimmed(current + " " + word);
      EraseJoined(current, word);
      JoinWords(current, word, n);
    }
  }

  lemma {:induction false} EraseJoined(current: string, word: string)
    ensures Erase(current + " " + word) == Erase(current) + Erase(word)
  {
    EraseConcat(current + " ", word);
    EraseConcat(current, " ");
    EraseBlank(" ");
    NothingAfter(Erase(current));
  }

  lemma {:induction false} SolidPieces(pieces: seq<string>, word: string)
    requires Flat(pieces) == word && IsWord(word)
    ensures EraseAll(pieces) == word
  {
    EraseSolid(word);
  }

  lemma {:induction false} PiecesFill(chunks: seq<string>, pieces: seq<string>, seen: seq<string>, word: string)
    requires EraseAll(chunks) == Flat(seen) && Flat(pieces) == word && IsWord(word)
    ensures EraseAll(chunks + pieces) == Flat(seen + [word])
  {
    SolidPieces(pieces, word);
    EraseAllConcat(chunks, pieces);
    FlatAppend(seen, word);
  }

  lemma {:induction false} JoinWords(current: string, word: string, n: nat)
    ensures Whole(current, n) && Whole(word, n) ==> Whole(current + " " + word, n)
  {
    assert IsSpace(' ');
    BlankWhole(" ", n);
    JoinWhole(current, " ", n);
    JoinWhole(current + " ", word, n);
  }

  /** A word that fits needs no cut. */
  lemma {:induction false} JudgedKeeps(chunks: seq<string>, seen: seq<string>, word: string, maxChars: int, n: nat)
    ensures |word| <= maxChars && Judged(chunks, seen, maxChars, n) ==> Judged(chunks, seen + [word], maxChars, n)
  {
    assert forall w :: w in seen + [word] <==> w in seen || w == word;
  }

  lemma {:induction false} JudgedAppend(chunks: seq<string>, current: string, seen: seq<string>, maxChars: int, n: nat)
    ensures Whole(current, n) && Judged(chunks, seen, maxChars, n) ==> Judged(chunks + [current], seen, maxChars, n)
  {
    if HasBroken(chunks) {
      var c :| c in chunks && NulCount(c) % 2 == 1;
      assert c in chunks + [current];
    }
  }

  lemma {:induction false} JudgedSplit(chunks: seq<string>, pieces: seq<string>, seen: seq<string>, word: string,
                                       maxChars: int, n: nat)
    requires if CutsClean(word, maxChars, n) then AllWhole(pieces, n) else HasBroken(pieces)
    ensures Judged(chunks, seen, maxChars, n) ==> Judged(chunks + pieces, seen + [word], maxChars, n)
  {
    assert forall w :: w in seen + [word] <==> w in seen || w == word;
    if HasBroken(chunks) {
      var c :| c in chunks && NulCount(c) % 2 == 1;
      assert c in chunks + pieces;
    }
    if HasBroken(pieces) {
      var c :| c in pieces && NulCount(c) % 2 == 1;
      assert c in chunks + pieces;
    }
  }

  lemma {:induction false} BlankFallback(text: string, c: string, n: nat)
    requires Erase(text) == "" && c <= text
    ensures Whole(c, n) && EraseAll([c]) == "" && Words(text) == []
  {
    EraseBlank(text);
    BlankWhole(c, n);
    OneErase(c);
    EraseBlank(c);
    WordsErase(text);
    NoWords(Words(text));
  }

  lemma {:induction false} NoWords(ws: seq<string>)
    requires forall w :: w in ws ==> IsWord(w)
    ensures ws != [] ==> Flat(ws) != ""
  {
    if ws != [] {
      var last := ws[|ws| - 1];
      assert last in ws && |last| <= |Flat(ws)|;
    }
  }
}
