/** How the levels of the splitter divide a text: what lies between separators, parts and words put together as long as
    they fit, and no division that needs fewer chunks. */
module Levels {
  import opened Text
  import opened Splitting
  import opened Fusion
  import opened Fences
  import opened Restoring
  import opened Chunker
  import opened Packing

  // ---- re.split ----

  /** One to three `#` and then white space. */
  ghost predicate StartsHeading(s: string) {
    exists k :: 1 <= k <= 3 && k < |s| && IsSpace(s[k]) && forall j :: 0 <= j < k ==> s[j] == '#'
  }

  lemma {:induction false} HeadingAheadIs(s: string, i: nat)
    requires i <= |s|
    ensures HeadingAhead(s, i) <==> StartsHeading(s[i..])
  {
    var t := s[i..];
    assert !IsSpace('#');
    assert forall j :: 0 <= j < |t| ==> t[j] == s[i + j];
    if HeadingAhead(s, i) {
      var k := if IsSpace(s[i + 1]) then 1 else if IsSpace(s[i + 2]) then 2 else 3;
      assert 1 <= k <= 3 && k < |t| && IsSpace(t[k]) && forall j :: 0 <= j < k ==> t[j] == '#';
    }
  }

  lemma {:induction false} NewlineRunTail(s: string, d: nat, i: nat)
    requires d <= i <= |s|
    ensures NewlineRun(s, i) == NewlineRun(s[d..], i - d)
    decreases |s| - i
  {
    if i < |s| && s[i] == '\n' { NewlineRunTail(s, d, i + 1); }
  }

  /** A separator is found by looking ahead only. */
  lemma {:induction false} SeparatorTail(s: string, sep: Separator, d: nat, i: nat)
    requires d <= i < |s|
    ensures SeparatorLength(s, sep, i) == SeparatorLength(s[d..], sep, i - d)
  {
    NewlineRunTail(s, d, i);
    HeadingAheadIs(s, i + 1);
    HeadingAheadIs(s[d..], i - d + 1);
    assert s[d..][i - d + 1..] == s[i + 1..];
  }

  lemma {:induction false} MatchesTail(s: string, sep: Separator, d: nat)
    requires d <= |s|
    ensures Matches(s[d..], sep) == Matches(s, sep)[d..]
  {
    forall i | 0 <= i < |s| - d ensures Matches(s[d..], sep)[i] == Matches(s, sep)[d..][i] {
      SeparatorTail(s, sep, d, i + d);
    }
  }

  lemma {:induction false} PiecesTail(s: string, ms: seq<nat>, d: nat, start: nat, i: nat)
    requires d <= start <= i <= |s| && Breaks(s, ms) && Breaks(s[d..], ms[d..])
    ensures Pieces(s, ms, start, i) == Pieces(s[d..], ms[d..], start - d, i - d)
    decreases |s| - i
  {
    SliceTail(s, d, start, i);
    if i < |s| {
      PiecesNext(s, ms, start, i);
      PiecesNext(s[d..], ms[d..], start - d, i - d);
      if ms[i] == 0 {
        PiecesTail(s, ms, d, start, i + 1);
      } else {
        PiecesTail(s, ms, d, i + ms[i], i + ms[i]);
      }
    }
  }

  lemma {:induction false} SliceTail(s: string, d: nat, start: nat, i: nat)
    requires d <= start <= i <= |s|
    ensures s[d..][start - d..i - d] == s[start..i] && s[d..][start - d..] == s[start..]
  {
  }

  /** No separator starts within the first `n` characters. */
  ghost predicate Unbroken(s: string, sep: Separator, n: nat) {
    n <= |s| && forall i :: 0 <= i < n ==> SeparatorLength(s, sep, i) == 0
  }

  lemma {:induction false} PiecesUnbroken(s: string, sep: Separator, i: nat, n: nat)
    requires i <= n && Unbroken(s, sep, n)
    ensures Pieces(s, Matches(s, sep), 0, i) == Pieces(s, Matches(s, sep), 0, n)
    decreases n - i
  {
    if i < n { PiecesUnbroken(s, sep, i + 1, n); }
  }

  /** What `re.split` gives: what comes before the first separator, and then what the rest is split into. */
  lemma {:induction false} PartsFirst(s: string, sep: Separator, n: nat)
    requires Unbroken(s, sep, n) && n < |s| && SeparatorLength(s, sep, n) > 0
    ensures Parts(s, sep) == [s[..n]] + Parts(s[n + SeparatorLength(s, sep, n)..], sep)
  {
    var j := n + SeparatorLength(s, sep, n);
    PiecesUnbroken(s, sep, 0, n);
    MatchesTail(s, sep, j);
    PiecesTail(s, Matches(s, sep), j, j, j);
    assert s[0..n] == s[..n];
  }

  lemma {:induction false} PartsWhole(s: string, sep: Separator)
    requires Unbroken(s, sep, |s|)
    ensures Parts(s, sep) == [s]
  {
    PiecesUnbroken(s, sep, 0, |s|);
    assert s[0..] == s;
  }

  /** Lines. */
  lemma {:induction false} LinesApart(a: string, b: string)
    requires '\n' !in a
    ensures Parts(a, Line) == [a] && Parts(a + "\n" + b, Line) == [a] + Parts(b, Line)
  {
    var s := a + "\n" + b;
    assert forall i :: 0 <= i < |a| ==> s[i] == a[i] && a[i] in a;
    PartsWhole(a, Line);
    PartsFirst(s, Line, |a|);
    assert s[..|a|] == a && s[|a| + 1..] == b;
  }

  lemma {:induction false} NewlineRunIs(s: string, i: nat, n: nat)
    requires i + n <= |s| && (forall j :: i <= j < i + n ==> s[j] == '\n') && (i + n == |s| || s[i + n] != '\n')
    ensures NewlineRun(s, i) == n
    decreases n
  {
    if n > 0 { NewlineRunIs(s, i + 1, n - 1); }
  }

  /** A text without blank lines that does not end with a line break. */
  ghost predicate OneParagraph(a: string) {
    && (forall i :: 0 <= i < |a| - 1 ==> a[i] != '\n' || a[i + 1] != '\n')
    && (a != "" ==> a[|a| - 1] != '\n')
  }

  lemma {:induction false} ParagraphUnbroken(a: string, s: string)
    requires OneParagraph(a) && a <= s
    ensures Unbroken(s, Paragraph, |a|)
  {
    forall i | 0 <= i < |a| ensures SeparatorLength(s, Paragraph, i) == 0 {
      NewlineRunIs(s, i, if s[i] == '\n' then 1 else 0);
    }
  }

  /** Paragraphs: two line breaks or more. */
  lemma {:induction false} ParagraphsApart(a: string, gap: string, b: string)
    requires OneParagraph(a) && |gap| >= 2 && (forall i :: 0 <= i < |gap| ==> gap[i] == '\n')
    requires b != "" ==> b[0] != '\n'
    ensures Parts(a, Paragraph) == [a] && Parts(a + gap + b, Paragraph) == [a] + Parts(b, Paragraph)
  {
    var s := a + gap + b;
    assert forall i :: 0 <= i < |gap| ==> s[|a| + i] == gap[i];
    ParagraphUnbroken(a, a);
    ParagraphUnbroken(a, s);
    PartsWhole(a, Paragraph);
    NewlineRunIs(s, |a|, |gap|);
    PartsFirst(s, Paragraph, |a|);
    assert s[..|a|] == a && s[|a| + |gap|..] == b;
  }

  /** Headings: a line break before one to three `#` and white space. */
  lemma {:induction false} HeadingsApart(a: string, b: string)
    requires StartsHeading(b)
    requires forall i :: 0 <= i < |a| && a[i] == '\n' ==> !StartsHeading((a + "\n" + b)[i + 1..])
    ensures Parts(a + "\n" + b, Heading) == [a] + Parts(b, Heading)
  {
    var s := a + "\n" + b;
    assert s[..|a|] == a && s[|a| + 1..] == b;
    forall i | 0 <= i < |a| ensures SeparatorLength(s, Heading, i) == 0 {
      assert s[i] == a[i];
      HeadingAheadIs(s, i + 1);
    }
    HeadingAheadIs(s, |a| + 1);
    PartsFirst(s, Heading, |a|);
  }

  lemma {:induction false} NoHeadings(a: string)
    requires forall i :: 0 <= i < |a| && a[i] == '\n' ==> !StartsHeading(a[i + 1..])
    ensures Parts(a, Heading) == [a]
  {
    forall i | 0 <= i < |a| ensures SeparatorLength(a, Heading, i) == 0 { HeadingAheadIs(a, i + 1); }
    PartsWhole(a, Heading);
  }

  // ---- parts grouped ----

  /** The chunks that bins of parts become: stripped, blank ones dropped. */
  function GroupChunks(bins: Bins): seq<string> {
    if bins == [] then [] else Flushed(GroupChunks(bins[..|bins| - 1]), JoinWith("", bins[|bins| - 1]))
  }

  lemma {:induction false} GroupChunksAppend(bins: Bins, b: seq<string>)
    ensures GroupChunks(bins + [b]) == Flushed(GroupChunks(bins), JoinWith("", b))
  {
    assert (bins + [b])[..|bins|] == bins;
  }

  ghost predicate Grouped(st: (seq<string>, string), bs: (Bins, seq<string>)) {
    match st
    case (chunks, current) => chunks == GroupChunks(bs.0) && current == JoinWith("", bs.1)
  }

  lemma {:induction false} TakenFiles(st: (seq<string>, string), bs: (Bins, seq<string>), part: string, maxChars: int)
    requires Grouped(st, bs) && |part| <= maxChars
    ensures Grouped(Taken(st, part, maxChars), Filed(bs, part, "", maxChars))
  {
    JoinAppend("", bs.1, part);
    NothingAfter(st.1);
    NothingBefore(part);
    if |st.1| + |part| > maxChars {
      GroupChunksAppend(bs.0, bs.1);
      JoinOne("", part);
    }
  }

  lemma {:induction false} GroupingFiles(parts: seq<string>, i: nat, maxChars: int)
    requires i <= |parts| && forall p :: p in parts ==> |p| <= maxChars
    ensures Grouped(Grouping(parts, i, maxChars), Filing(parts, i, "", maxChars))
  {
    if i > 0 {
      GroupingFiles(parts, i - 1, maxChars);
      TakenFiles(Grouping(parts, i - 1, maxChars), Filing(parts, i - 1, "", maxChars), parts[i - 1], maxChars);
    }
  }

  /** Parts that fit are grouped in order, as many to a chunk as fit: a buffer that was flushed and the part after it
      exceed the limit together. */
  lemma {:induction false} GroupsPacked(parts: seq<string>, maxChars: int)
    requires forall p :: p in parts ==> |p| <= maxChars
    ensures exists bins :: Packed(bins, parts, "", maxChars) && Groups(parts, maxChars) == GroupChunks(bins)
  {
    var bs := Filing(parts, |parts|, "", maxChars);
    GroupingFiles(parts, |parts|, maxChars);
    BinsPacked(parts, "", maxChars);
    GroupChunksAppend(bs.0, bs.1);
    assert Strip("") == "";
    assert Groups(parts, maxChars) == GroupChunks(BinsOf(parts, "", maxChars));
  }

  // ---- words put together ----

  /** The chunks that bins of words become: a word that is too long is cut by force. */
  function WordPieces(b: seq<string>, maxChars: int): seq<string>
    requires maxChars >= 1
  {
    if |JoinWith(" ", b)| <= maxChars then [JoinWith(" ", b)] else HardPieces(b[0], maxChars)
  }

  function BinChunks(bins: Bins, maxChars: int): seq<string>
    requires maxChars >= 1
  {
    if bins == [] then [] else BinChunks(bins[..|bins| - 1], maxChars) + WordPieces(bins[|bins| - 1], maxChars)
  }

  lemma {:induction false} BinChunksAppend(bins: Bins, b: seq<string>, maxChars: int)
    requires maxChars >= 1
    ensures BinChunks(bins + [b], maxChars) == BinChunks(bins, maxChars) + WordPieces(b, maxChars)
  {
    assert (bins + [b])[..|bins|] == bins;
  }

  /** The chunks and the buffer of the word loop are those of the bins. */
  ghost predicate Binned(st: (seq<string>, string), bs: (Bins, seq<string>), maxChars: int)
    requires maxChars >= 1
  {
    match st
    case (chunks, current) =>
      && chunks == BinChunks(bs.0, maxChars)
      && current == JoinWith(" ", bs.1) && (current == "" <==> bs.1 == [])
      && Trimmed(current) && |current| <= maxChars
  }

  lemma {:induction false} ExtendedIs(open: seq<string>, word: string)
    requires IsWord(word) && Trimmed(JoinWith(" ", open)) && (JoinWith(" ", open) == "" <==> open == [])
    ensures Extended(JoinWith(" ", open), word) == JoinWith(" ", open + [word])
    ensures |JoinWith(" ", open + [word])| >= |word| && Trimmed(JoinWith(" ", open + [word]))
  {
    JoinAppend(" ", open, word);
    if open != [] { StripTrimmed(JoinWith(" ", open) + " " + word); }
  }

  lemma {:induction false} ClosedIs(chunks: seq<string>, current: string, bs: (Bins, seq<string>), maxChars: int)
    requires maxChars >= 1 && Binned((chunks, current), bs, maxChars)
    ensures Closed(chunks, current) == BinChunks(Shut(bs), maxChars)
  {
    if bs.1 != [] { BinChunksAppend(bs.0, bs.1, maxChars); }
  }

  lemma {:induction false} PlacedFiles(st: (seq<string>, string), bs: (Bins, seq<string>), word: string, maxChars: int)
    requires maxChars >= 1 && IsWord(word) && Binned(st, bs, maxChars)
    ensures Binned(Placed(st.0, st.1, word, maxChars), Filed(bs, word, " ", maxChars), maxChars)
  {
    ExtendedIs(bs.1, word);
    JoinAppend(" ", bs.1, word);
    JoinOne(" ", word);
    ClosedIs(st.0, st.1, bs, maxChars);
    if |word| > maxChars { BinChunksAppend(Shut(bs), [word], maxChars); }
  }

  lemma {:induction false} PlacingFiles(words: seq<string>, i: nat, maxChars: int)
    requires maxChars >= 1 && i <= |words| && forall w :: w in words ==> IsWord(w)
    ensures Binned(Placing(words, i, maxChars), Filing(words, i, " ", maxChars), maxChars)
  {
    if i > 0 {
      PlacingFiles(words, i - 1, maxChars);
      PlacedFiles(Placing(words, i - 1, maxChars), Filing(words, i - 1, " ", maxChars), words[i - 1], maxChars);
    }
  }

  /** The words in order, as many to a chunk as fit: a chunk, a blank and the first word of the next chunk exceed the
      limit together; and only a word that is too long by itself is cut. */
  lemma {:induction false} WordsPacked(words: seq<string>, maxChars: int)
    requires maxChars >= 1 && forall w :: w in words ==> IsWord(w)
    ensures exists bins ::
      Packed(bins, words, " ", maxChars) && WordChunks(words, maxChars) == BinChunks(bins, maxChars)
  {
    var st := Placing(words, |words|, maxChars);
    PlacingFiles(words, |words|, maxChars);
    ClosedIs(st.0, st.1, Filing(words, |words|, " ", maxChars), maxChars);
    BinsPacked(words, " ", maxChars);
    assert WordChunks(words, maxChars) == BinChunks(BinsOf(words, " ", maxChars), maxChars);
  }

  // ---- no division needs fewer chunks ----

  lemma {:induction false} CutsAppend(a: seq<string>, b: seq<string>, maxChars: int)
    ensures Cuts(a + b, |a + b|, maxChars) == Cuts(a, |a|, maxChars) + Cuts(b, |b|, maxChars)
  {
    if b == [] {
      NothingAfter(a);
    } else {
      CutsAppend(a, b[..|b| - 1], maxChars);
      FrontOfSum(a, b);
      CutsFront(a + b, maxChars);
      CutsFront(b, maxChars);
    }
  }

  lemma {:induction false} CutsFront(words: seq<string>, maxChars: int)
    requires words != []
    ensures Cuts(words, |words|, maxChars) ==
      Cuts(words[..|words| - 1], |words| - 1, maxChars) + CutsOf(words[|words| - 1], maxChars)
  {
    CutsPrefix(words, |words| - 1, maxChars);
  }

  lemma {:induction false} CutsPrefix(words: seq<string>, i: nat, maxChars: int)
    requires i < |words|
    ensures Cuts(words[..|words| - 1], i, maxChars) == Cuts(words, i, maxChars)
  {
    if i > 0 { CutsPrefix(words, i - 1, maxChars); }
  }

  lemma {:induction false} PiecesCount(b: seq<string>, maxChars: int)
    requires maxChars >= 1 && GoodBin(b, " ", maxChars)
    ensures |WordPieces(b, maxChars)| == 1 + Cuts(b, |b|, maxChars)
  {
    if |JoinWith(" ", b)| <= maxChars {
      forall j | 0 <= j < |b| ensures |b[j]| <= maxChars {
        JoinSlice(" ", b, j, j + 1);
        Single(b, j);
      }
      CutsExactlyWhen(b, |b|, maxChars);
    } else {
      CutsFront(b, maxChars);
      assert b[..0] == [];
    }
  }

  /** A division has one chunk for each bin, and one more for each cut that its long words need. */
  lemma {:induction false} ChunkCount(bins: Bins, maxChars: int)
    requires maxChars >= 1 && forall b :: b in bins ==> GoodBin(b, " ", maxChars)
    ensures |BinChunks(bins, maxChars)| == |bins| + Cuts(AllOf(bins), |AllOf(bins)|, maxChars)
  {
    if bins != [] {
      var front, last := bins[..|bins| - 1], bins[|bins| - 1];
      assert last in bins && forall b :: b in front ==> b in bins;
      ChunkCount(front, maxChars);
      PiecesCount(last, maxChars);
      CutsAppend(AllOf(front), last, maxChars);
    }
  }

  /** No division of the words into bins that fit, in order, gives fewer chunks. */
  lemma {:induction false} FewestChunks(words: seq<string>, maxChars: int, other: Bins)
    requires maxChars >= 1 && (forall w :: w in words ==> IsWord(w)) && Divides(other, words, " ", maxChars)
    ensures |WordChunks(words, maxChars)| <= |BinChunks(other, maxChars)|
  {
    WordsPacked(words, maxChars);
    var bins :| Packed(bins, words, " ", maxChars) && WordChunks(words, maxChars) == BinChunks(bins, maxChars);
    PackedFewest(bins, other, words, " ", maxChars);
    ChunkCount(bins, maxChars);
    ChunkCount(other, maxChars);
  }

  lemma {:induction false} GroupChunksFew(bins: Bins)
    ensures |GroupChunks(bins)| <= |bins|
  {
    if bins != [] { GroupChunksFew(bins[..|bins| - 1]); }
  }

  /** Nor does any division of the parts of a text. */
  lemma {:induction false} FewestGroups(parts: seq<string>, maxChars: int, other: Bins)
    requires (forall p :: p in parts ==> |p| <= maxChars) && Divides(other, parts, "", maxChars)
    ensures |Groups(parts, maxChars)| <= |other|
  {
    GroupsPacked(parts, maxChars);
    var bins :| Packed(bins, parts, "", maxChars) && Groups(parts, maxChars) == GroupChunks(bins);
    PackedFewest(bins, other, parts, "", maxChars);
    GroupChunksFew(bins);
  }

  // ---- neighbouring chunks ----

  lemma {:induction false} JoinedWords(b: seq<string>)
    requires forall w :: w in b ==> IsWord(w)
    ensures Words(JoinWith(" ", b)) == b
  {
    if |b| == 1 {
      WordAlone(b[0]);
    } else if |b| > 1 {
      var front, last := b[..|b| - 1], b[|b| - 1];
      assert last in b && forall w :: w in front ==> w in b;
      JoinedWords(front);
      WordAlone(last);
      PieceWords(JoinWith(" ", front), " ", last);
    }
  }

  /** A piece of a word that had to be cut. */
  ghost predicate CutPiece(c: string, words: seq<string>, maxChars: int) {
    exists w :: w in words && |w| > maxChars && c in HardPieces(w, maxChars)
  }

  ghost predicate FullBefore(c: string, d: string, words: seq<string>, maxChars: int) {
    || CutPiece(c, words, maxChars) || CutPiece(d, words, maxChars)
    || (Words(d) != [] && |c| + 1 + |Words(d)[0]| > maxChars)
  }

  ghost predicate AllFull(chunks: seq<string>, words: seq<string>, maxChars: int) {
    forall i :: 0 <= i < |chunks| - 1 ==> FullBefore(chunks[i], chunks[i + 1], words, maxChars)
  }

  lemma {:induction false} AllFullConcat(a: seq<string>, b: seq<string>, words: seq<string>, maxChars: int)
    requires AllFull(a, words, maxChars) && AllFull(b, words, maxChars)
    requires a != [] && b != [] ==> FullBefore(a[|a| - 1], b[0], words, maxChars)
    ensures AllFull(a + b, words, maxChars)
  {
    var c := a + b;
    forall i | 0 <= i < |c| - 1 ensures FullBefore(c[i], c[i + 1], words, maxChars) {
      if i >= |a| { assert c[i] == b[i - |a|] && c[i + 1] == b[i + 1 - |a|]; }
    }
  }

  lemma {:induction false} PiecesFull(b: seq<string>, words: seq<string>, maxChars: int)
    requires maxChars >= 1 && GoodBin(b, " ", maxChars) && forall w :: w in b ==> w in words
    ensures WordPieces(b, maxChars) != [] && AllFull(WordPieces(b, maxChars), words, maxChars)
    ensures |JoinWith(" ", b)| > maxChars ==> forall c :: c in WordPieces(b, maxChars) ==> CutPiece(c, words, maxChars)
  {
    if |JoinWith(" ", b)| > maxChars {
      HardPiecesFit(b[0], maxChars);
      assert b[0] in b;
    }
  }

  lemma {:induction false} BoundaryFull(a: seq<string>, b: seq<string>, words: seq<string>, maxChars: int)
    requires maxChars >= 1 && GoodBin(a, " ", maxChars) && GoodBin(b, " ", maxChars) && Apart(a, b, " ", maxChars)
    requires forall w :: w in a + b ==> w in words && IsWord(w)
    ensures var c, d := WordPieces(a, maxChars), WordPieces(b, maxChars);
      c != [] && d != [] && FullBefore(c[|c| - 1], d[0], words, maxChars)
  {
    assert forall w :: w in a || w in b ==> w in a + b;
    PiecesFull(a, words, maxChars);
    PiecesFull(b, words, maxChars);
    JoinedWords(b);
    var c, d := WordPieces(a, maxChars), WordPieces(b, maxChars);
    assert c[|c| - 1] in c && d[0] in d;
  }

  lemma {:induction false} BinsFull(bins: Bins, words: seq<string>, maxChars: int)
    requires maxChars >= 1 && (forall b :: b in bins ==> GoodBin(b, " ", maxChars))
    requires forall i :: 0 <= i < |bins| - 1 ==> Apart(bins[i], bins[i + 1], " ", maxChars)
    requires forall b, w :: b in bins && w in b ==> w in words && IsWord(w)
    ensures AllFull(BinChunks(bins, maxChars), words, maxChars)
  {
    if bins != [] {
      var front, last := bins[..|bins| - 1], bins[|bins| - 1];
      assert last in bins && forall b :: b in front ==> b in bins;
      BinsFull(front, words, maxChars);
      if front == [] {
        PiecesFull(last, words, maxChars);
        NothingBefore(WordPieces(last, maxChars));
      } else {
        assert front[|front| - 1] in bins && Apart(bins[|bins| - 2], bins[|bins| - 1], " ", maxChars);
        NextFull(front, last, words, maxChars);
      }
    }
  }

  lemma {:induction false} NextFull(front: Bins, last: seq<string>, words: seq<string>, maxChars: int)
    requires maxChars >= 1 && front != [] && AllFull(BinChunks(front, maxChars), words, maxChars)
    requires GoodBin(front[|front| - 1], " ", maxChars) && GoodBin(last, " ", maxChars)
    requires Apart(front[|front| - 1], last, " ", maxChars)
    requires forall w :: w in front[|front| - 1] + last ==> w in words && IsWord(w)
    ensures AllFull(BinChunks(front, maxChars) + WordPieces(last, maxChars), words, maxChars)
  {
    var a := front[|front| - 1];
    BoundaryFull(a, last, words, maxChars);
    assert forall w :: w in last ==> w in a + last;
    PiecesFull(last, words, maxChars);
    LastOfSum(BinChunks(front[..|front| - 1], maxChars), WordPieces(a, maxChars));
    AllFullConcat(BinChunks(front, maxChars), WordPieces(last, maxChars), words, maxChars);
  }

  lemma {:induction false} LastOfSum(a: seq<string>, b: seq<string>)
    requires b != []
    ensures (a + b)[|a + b| - 1] == b[|b| - 1]
  {
  }

  /** Of neighbouring chunks, the first could not have taken the first word of the second with a blank between, unless
      one of them is a piece of a word that had to be cut. */
  lemma {:induction false} NeighboursFull(text: string, maxChars: int)
    requires maxChars >= 1
    ensures AllFull(ByWords(text, maxChars), Words(text), maxChars)
  {
    var words := Words(text);
    WordsPacked(words, maxChars);
    var bins :| Packed(bins, words, " ", maxChars) && WordChunks(words, maxChars) == BinChunks(bins, maxChars);
    forall b, w | b in bins && w in b ensures w in words && IsWord(w) { BinMember(bins, b, w); }
    BinsFull(bins, words, maxChars);
  }

  // ---- a part stays in one piece ----

  lemma {:induction false} GroupHolds(bins: Bins, b: seq<string>)
    requires b in bins && Strip(JoinWith("", b)) != ""
    ensures Strip(JoinWith("", b)) in GroupChunks(bins)
  {
    if b != bins[|bins| - 1] { GroupHolds(bins[..|bins| - 1], b); }
  }

  /** A part that is not blank lies whole, but for white space around it, in one chunk. */
  lemma {:induction false} PartWhole(parts: seq<string>, maxChars: int, p: string)
    requires (forall q :: q in parts ==> |q| <= maxChars) && p in parts && !Blank(p)
    ensures exists c :: c in Groups(parts, maxChars) && Contains(c, Strip(p))
  {
    GroupsPacked(parts, maxChars);
    var bins :| Packed(bins, parts, "", maxChars) && Groups(parts, maxChars) == GroupChunks(bins);
    var b := BinOf(bins, p);
    var l, r := StripShape(p);
    StripErases(p);
    JoinContains("", b, p);
    ContainsStrip(p);
    ContainsThrough(JoinWith("", b), p, Strip(p));
    StripContains(JoinWith("", b), Strip(p));
    GroupHolds(bins, b);
  }

  /** This is the first of the levels that will do: headings, then paragraphs, then lines. */
  ghost predicate LevelUsed(text: string, sep: Separator, maxChars: int) {
    && |Parts(text, sep)| > 1 && !Blank(text) && (forall q :: q in Parts(text, sep) ==> |q| <= maxChars)
    && (sep != Heading ==> !Usable(text, Heading, maxChars)) && (sep == Line ==> !Usable(text, Paragraph, maxChars))
  }

  lemma {:induction false} ListedIfNotBlank(chunks: seq<string>, c: string)
    requires c in chunks && Strip(c) != ""
    ensures Strip(c) in RestoredList(chunks, [])
  {
    if c != chunks[|chunks| - 1] { ListedIfNotBlank(chunks[..|chunks| - 1], c); }
  }

  /** What lies between two headings stays together in one message if all such sections fit; if they do not, a paragraph
      does, if all paragraphs fit; and if they do not either, a line. */
  lemma {:induction false} PartStays(text: string, sep: Separator, maxChars: int, p: string)
    requires |text| > maxChars >= 1 && CodeBlocks(text, 0) == [] && LevelUsed(text, sep, maxChars)
    requires p in Parts(text, sep) && !Blank(p)
    ensures exists c :: c in Smart(text, maxChars) && Contains(c, Strip(p))
  {
    var chunks := Groups(Parts(text, sep), maxChars);
    ShieldPlain(text, 0, 0);
    assert text[0..] == text;
    assert SplitText(text, maxChars) == chunks;
    PatternKeeps(text, sep, maxChars, 0);
    NothingToFit(chunks, maxChars);
    PartWhole(Parts(text, sep), maxChars, p);
    var c :| c in chunks && Contains(c, Strip(p));
    var l, r := StripShape(p);
    StripErases(p);
    StripContains(c, Strip(p));
    ListedIfNotBlank(chunks, c);
  }

  // ---- the whole message ----

  lemma {:induction false} RestoredFew(chunks: seq<string>, blocks: seq<string>)
    ensures |RestoredList(chunks, blocks)| <= |chunks|
  {
    if chunks != [] { RestoredFew(chunks[..|chunks| - 1], blocks); }
  }

  /** A long text without fenced code for which no level but the last will do is sent in as few messages as its words
      can be sent in. */
  lemma {:induction false} SmartFewest(text: string, maxChars: int, other: Bins)
    requires |text| > maxChars >= 1 && CodeBlocks(text, 0) == [] && Words(text) != []
    requires forall sep: Separator :: !Usable(text, sep, maxChars)
    requires Divides(other, Words(text), " ", maxChars)
    ensures |Smart(text, maxChars)| <= |BinChunks(other, maxChars)|
  {
    var chunks := ByWords(text, maxChars);
    ShieldPlain(text, 0, 0);
    assert text[0..] == text;
    assert SplitText(text, maxChars) == chunks;
    ByWordsKeeps(text, maxChars, 0);
    NothingToFit(chunks, maxChars);
    RestoredFew(chunks, []);
    FewestChunks(Words(text), maxChars, other);
    SomeChunk(text, maxChars);
    RestoredListPlain(chunks);
    WordsErase(text);
  }

  lemma {:induction false} SomeChunk(text: string, maxChars: int)
    requires maxChars >= 1 && Words(text) != []
    ensures WordChunks(Words(text), maxChars) != [] && Erase(text) != ""
  {
    WordsGrouped(Words(text), maxChars, 0);
    WordsErase(text);
    SomeFlat(Words(text));
    assert EraseAll([]) == "";
  }

  lemma {:induction false} SomeFlat(words: seq<string>)
    requires words != [] && forall w :: w in words ==> IsWord(w)
    ensures Flat(words) != ""
  {
    assert words[|words| - 1] in words;
  }
}
