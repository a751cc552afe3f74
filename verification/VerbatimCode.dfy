/** When fenced code is sent as it was written: the last pass of `smart_chunk` rewrites every restored chunk that does
    not fit, and then only code without line breaks can survive. */
module VerbatimCode {
  import opened Text
  import opened Placeholders
  import opened Fences
  import opened Packing
  import opened Splitting
  import opened Restoring
  import opened Chunker

  /** The only white space is single blanks. */
  ghost predicate Tidy(s: string) {
    forall i :: 0 <= i < |s| && IsSpace(s[i]) ==> s[i] == ' ' && (i + 1 < |s| ==> !IsSpace(s[i + 1]))
  }

  ghost predicate AllTidy(chunks: seq<string>) {
    forall c :: c in chunks ==> Tidy(c)
  }

  // ---- splitting by words tidies up ----

  lemma {:induction false} SolidTidy(w: string)
    requires forall i :: 0 <= i < |w| ==> !IsSpace(w[i])
    ensures Tidy(w)
  {
  }

  lemma {:induction false} HardPiecesSolid(w: string, maxChars: int)
    requires forall i :: 0 <= i < |w| ==> !IsSpace(w[i])
    ensures AllTidy(HardPieces(w, maxChars))
    decreases |w|
  {
    if |w| > maxChars >= 1 {
      HardPiecesSolid(w[maxChars..], maxChars);
      SolidTidy(w[..maxChars]);
    } else {
      SolidTidy(w);
    }
  }

  lemma {:induction false} ExtendedTidy(current: string, word: string)
    requires Tidy(current) && Trimmed(current) && IsWord(word)
    ensures Tidy(Extended(current, word)) && Trimmed(Extended(current, word))
  {
    SolidTidy(word);
    if current != "" {
      var all := current + " " + word;
      StripTrimmed(all);
      forall i | 0 <= i < |all| && IsSpace(all[i]) ensures all[i] == ' ' && (i + 1 < |all| ==> !IsSpace(all[i + 1])) {
        if i < |current| { assert all[i] == current[i]; }
      }
    }
  }

  ghost predicate TidyState(st: (seq<string>, string)) {
    match st
    case (chunks, current) => AllTidy(chunks) && Tidy(current) && Trimmed(current)
  }

  lemma {:induction false} PlacedTidy(st: (seq<string>, string), word: string, maxChars: int)
    requires TidyState(st) && IsWord(word)
    ensures TidyState(Placed(st.0, st.1, word, maxChars))
  {
    ExtendedTidy(st.1, word);
    SolidTidy(word);
    HardPiecesSolid(word, maxChars);
  }

  lemma {:induction false} PlacingTidy(words: seq<string>, i: nat, maxChars: int)
    requires i <= |words| && forall w :: w in words ==> IsWord(w)
    ensures TidyState(Placing(words, i, maxChars))
  {
    if i > 0 {
      PlacingTidy(words, i - 1, maxChars);
      PlacedTidy(Placing(words, i - 1, maxChars), words[i - 1], maxChars);
    }
  }

  lemma {:induction false} WordChunksTidy(words: seq<string>, maxChars: int)
    requires forall w :: w in words ==> IsWord(w)
    ensures AllTidy(WordChunks(words, maxChars))
  {
    PlacingTidy(words, |words|, maxChars);
  }

  lemma {:induction false} ByWordsTidy(text: string, maxChars: int)
    requires maxChars >= 1
    ensures forall c :: c in ByWords(text, maxChars) ==> Tidy(c) || Blank(c)
  {
    if WordChunks(Words(text), maxChars) == [] {
      NoChunksBlank(text, maxChars);
    } else {
      WordChunksTidy(Words(text), maxChars);
    }
  }

  lemma {:induction false} NoChunksBlank(text: string, maxChars: int)
    requires maxChars >= 1 && WordChunks(Words(text), maxChars) == []
    ensures Blank(text)
  {
    WordsGrouped(Words(text), maxChars, 0);
    assert EraseAll([]) == "";
    WordsErase(text);
    EraseBlank(text);
  }

  /** Every chunk sent is a restored chunk that fits, or has been tidied up. */
  lemma {:induction false} FitListTidy(result: seq<string>, maxChars: int, c: string)
    requires maxChars >= 1 && c in FitList(result, maxChars)
    ensures (c in result && |c| <= maxChars) || Tidy(c) || Blank(c)
  {
    var front, last := result[..|result| - 1], result[|result| - 1];
    if c in FitList(front, maxChars) {
      FitListTidy(front, maxChars, c);
    } else if |last| > maxChars {
      ByWordsTidy(last, maxChars);
    }
  }

  // ---- what a tidy chunk can hold ----

  lemma {:induction false} TidyHolds(c: string, code: string)
    requires Contains(c, code)
    ensures (Tidy(c) ==> Tidy(code)) && (Blank(c) ==> Blank(code))
  {
    var i :| 0 <= i <= |c| && code <= c[i..];
    assert forall j :: 0 <= j < |code| ==> c[i + j] == c[i..][j] == code[j];
  }

  /** Code with a line break, or any white space but single blanks, is sent verbatim exactly when it is in a restored
      chunk that fits. */
  lemma {:induction false} VerbatimExactlyWhen(result: seq<string>, maxChars: int, code: string)
    requires maxChars >= 1 && !Tidy(code) && !Blank(code)
    ensures Verbatim(FitList(result, maxChars), code) <==>
      exists c :: c in result && |c| <= maxChars && Contains(c, code)
  {
    FitListFitted(result, maxChars);
    if Verbatim(FitList(result, maxChars), code) {
      var c :| c in FitList(result, maxChars) && Contains(c, code);
      FitListTidy(result, maxChars, c);
      TidyHolds(c, code);
    }
  }

  lemma {:induction false} BlocksListed(split: seq<string>, blocks: seq<string>, maxChars: int, code: string)
    requires code != "" && !Blank(code)
    ensures (exists r :: r in RestoredList(split, blocks) && |r| <= maxChars && Contains(r, code)) <==>
      exists c :: c in split && |Back(c, blocks)| <= maxChars && Contains(Back(c, blocks), code)
  {
    if r :| r in RestoredList(split, blocks) && |r| <= maxChars && Contains(r, code) {
      ListedBack(split, blocks, r);
    }
    if c :| c in split && |Back(c, blocks)| <= maxChars && Contains(Back(c, blocks), code) {
      assert Back(c, blocks) != "";
      BackListed(split, blocks, c);
    }
  }

  /** A long text with code has something to send. */
  lemma {:induction false} SomethingRestored(text: string, maxChars: int)
    requires |text| > maxChars >= 1 && NUL !in text && CodeBlocks(text, 0) != []
    ensures RestoredChunks(text, maxChars) != []
  {
    var n, split := |CodeBlocks(text, 0)|, SplitText(Protected(text), maxChars);
    SplitTextKeeps(Protected(text), maxChars, n);
    Shielded(text);
    if GoodSplit(text, split) {
      RestoreClean(text, split);
      assert Verbatim(RestoredChunks(text, maxChars), CodeBlocks(text, 0)[0]);
    } else {
      RestoreBroken(text, split);
    }
  }

  /** A long text: a block with a line break in it is sent verbatim if and only if some chunk of the split that has it
      in it, once restored, still fits. */
  lemma {:induction false} BlockVerbatimExactlyWhen(text: string, maxChars: int, k: nat)
    requires |text| > maxChars >= 1 && NUL !in text
    requires k < |CodeBlocks(text, 0)| && !Tidy(CodeBlocks(text, 0)[k])
    ensures var blocks := CodeBlocks(text, 0);
      Verbatim(Smart(text, maxChars), blocks[k]) <==>
        exists c :: c in SplitText(Protected(text), maxChars)
          && |Back(c, blocks)| <= maxChars && Contains(Back(c, blocks), blocks[k])
  {
    var blocks, split := CodeBlocks(text, 0), SplitText(Protected(text), maxChars);
    Shielded(text);
    assert blocks[k] in blocks && !Blank(blocks[k]);
    SomethingRestored(text, maxChars);
    FitListFitted(RestoredChunks(text, maxChars), maxChars);
    VerbatimExactlyWhen(RestoredChunks(text, maxChars), maxChars, blocks[k]);
    BlocksListed(split, blocks, maxChars, blocks[k]);
  }
}
