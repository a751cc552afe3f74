/** `smart_chunk`: a long message becomes chunks that fit a channel.  Fenced code is protected by placeholders
    while the message is split and put back afterwards. */
module Chunker {
  import opened Text
  import opened Placeholders
  import opened Fences
  import opened Splitting
  import opened Restoring

  // ---- what smart_chunk computes ----

  /** Headings first, then paragraphs, then lines, then words. */
  ghost function SplitText(text: string, maxChars: int): seq<string>
    requires maxChars >= 1
  {
    if Usable(text, Heading, maxChars) then Groups(Parts(text, Heading), maxChars)
    else if Usable(text, Paragraph, maxChars) then Groups(Parts(text, Paragraph), maxChars)
    else if Usable(text, Line, maxChars) then Groups(Parts(text, Line), maxChars)
    else ByWords(text, maxChars)
  }

  function FitChunk(chunk: string, maxChars: int): seq<string>
    requires maxChars >= 1
  {
    if |chunk| <= maxChars then [chunk] else ByWords(chunk, maxChars)
  }

  /** The last pass: chunks that restored code made too long are split by words. */
  function FitList(result: seq<string>, maxChars: int): seq<string>
    requires maxChars >= 1
  {
    if result == [] then []
    else FitList(result[..|result| - 1], maxChars) + FitChunk(result[|result| - 1], maxChars)
  }

  /** The restored chunks of a long text, before the last pass. */
  ghost function RestoredChunks(text: string, maxChars: int): seq<string>
    requires maxChars >= 1
  {
    RestoredList(SplitText(Protected(text), maxChars), CodeBlocks(text, 0))
  }

  ghost function Smart(text: string, maxChars: int): seq<string> {
    if text == "" || maxChars <= 0 || |text| <= maxChars then [text]
    else
      var final := FitList(RestoredChunks(text, maxChars), maxChars);
      if final == [] then [text[..maxChars]] else final
  }

  // ---- the methods ----

  method SplitProtected(text: string, maxChars: int) returns (chunks: seq<string>)
    requires maxChars >= 1
    ensures chunks == SplitText(text, maxChars)
  {
    var r := SplitByPattern(text, Heading, maxChars);
    if r.None? { r := SplitByPattern(text, Paragraph, maxChars); }
    if r.None? { r := SplitByPattern(text, Line, maxChars); }
    if r.None? {
      chunks := SplitByWords(text, maxChars);
    } else {
      chunks := r.value;
    }
  }

  /** Whichever level is used, only white space is lost, every chunk fits, and the placeholders are whole exactly when
      the forced cuts of long words avoid them. */
  lemma {:induction false} SplitTextKeeps(text: string, maxChars: int, n: nat)
    requires maxChars >= 1
    ensures SplitKeeps(SplitText(text, maxChars), text, maxChars, n)
  {
    if Usable(text, Heading, maxChars) {
      PatternKeeps(text, Heading, maxChars, n);
    } else if Usable(text, Paragraph, maxChars) {
      PatternKeeps(text, Paragraph, maxChars, n);
    } else if Usable(text, Line, maxChars) {
      PatternKeeps(text, Line, maxChars, n);
    } else {
      ByWordsKeeps(text, maxChars, n);
    }
  }

  method RestoreCode(chunk: string, blocks: seq<string>) returns (r: string)
    ensures r == Restored(chunk, blocks, |blocks|)
  {
    r := chunk;
    for idx := 0 to |blocks|
      invariant r == Restored(chunk, blocks, idx)
    {
      r := Replace(r, Placeholder(idx), blocks[idx]);
    }
  }

  method RestoreAll(chunks: seq<string>, blocks: seq<string>) returns (result: seq<string>)
    ensures result == RestoredList(chunks, blocks)
  {
    result := [];
    for i := 0 to |chunks|
      invariant result == RestoredList(chunks[..i], blocks)
    {
      var chunk := RestoreCode(chunks[i], blocks);
      chunk := Strip(chunk);
      if chunk != "" {
        result := result + [chunk];
      }
      assert chunks[..i + 1][..i] == chunks[..i];
    }
    assert chunks[..|chunks|] == chunks;
  }

  method FitAll(result: seq<string>, maxChars: int) returns (final: seq<string>)
    requires maxChars >= 1
    ensures final == FitList(result, maxChars) && Fitted(final, result, maxChars)
  {
    final := [];
    for i := 0 to |result|
      invariant final == FitList(result[..i], maxChars)
    {
      FitListNext(result, i, maxChars);
      if |result[i]| <= maxChars {
        final := final + [result[i]];
      } else {
        var pieces := SplitByWords(result[i], maxChars);
        final := final + pieces;
      }
    }
    WholeSlice(result);
    FitListFitted(result, maxChars);
  }

  lemma {:induction false} FitListNext(result: seq<string>, i: nat, maxChars: int)
    requires maxChars >= 1 && i < |result|
    ensures FitList(result[..i + 1], maxChars) == FitList(result[..i], maxChars) + FitChunk(result[i], maxChars)
  {
    assert result[..i + 1][..i] == result[..i];
  }

  /** What the last pass keeps: the text, the bound, and every chunk that fitted already. */
  ghost predicate Fitted(final: seq<string>, result: seq<string>, maxChars: int) {
    && EraseAll(final) == EraseAll(result)
    && (result != [] ==> final != [])
    && (forall c :: c in final ==> |c| <= maxChars)
    && (forall c :: c in result && |c| <= maxChars ==> c in final)
    && ((forall c :: c in result ==> |c| <= maxChars) ==> final == result)
  }

  lemma {:induction false} FitListFitted(result: seq<string>, maxChars: int)
    requires maxChars >= 1
    ensures Fitted(FitList(result, maxChars), result, maxChars)
  {
    if result != [] {
      var front, last := result[..|result| - 1], result[|result| - 1];
      FitListFitted(front, maxChars);
      FitChunkFitted(last, maxChars);
      FittedAppend(FitList(front, maxChars), front, FitChunk(last, maxChars), last, maxChars);
      FrontLast(result);
    }
  }

  lemma {:induction false} FrontLast(s: seq<string>)
    requires s != []
    ensures s[..|s| - 1] + [s[|s| - 1]] == s
  {
  }

  lemma {:induction false} FittedAppend(final: seq<string>, result: seq<string>, pieces: seq<string>, chunk: string,
                                        maxChars: int)
    requires Fitted(final, result, maxChars) && Fitted(pieces, [chunk], maxChars)
    ensures Fitted(final + pieces, result + [chunk], maxChars)
  {
    EraseAllConcat(final, pieces);
    EraseAllConcat(result, [chunk]);
    if forall c :: c in result + [chunk] ==> |c| <= maxChars {
      assert chunk in result + [chunk];
      assert forall c :: c in result ==> c in result + [chunk];
    }
  }

  lemma {:induction false} FitChunkFitted(chunk: string, maxChars: int)
    requires maxChars >= 1
    ensures Fitted(FitChunk(chunk, maxChars), [chunk], maxChars)
  {
    OneErase(chunk);
    if |chunk| > maxChars { ByWordsKeeps(chunk, maxChars, 0); }
  }

  // ---- the whole of smart_chunk ----

  /** A text that cannot be confused with a placeholder. */
  ghost predicate Ordinary(text: string) {
    NUL !in text && Nameless(text)
  }

  /** No placeholder of `text` lies across a position where a long word is cut by force. */
  ghost predicate CutsAvoidCode(text: string, maxChars: int) {
    |text| <= maxChars || WordsCutClean(Protected(text), maxChars, |CodeBlocks(text, 0)|)
  }

  /** In no chunk of the split does the text between two placeholders look like a third. */
  ghost predicate SplitClear(text: string, maxChars: int) {
    maxChars >= 1 && |text| > maxChars ==> AllClear(SplitText(Protected(text), maxChars), |CodeBlocks(text, 0)|)
  }

  /** `split` are the chunks with placeholders that `final` was made from: they hold the protected text and fit;
      restored, they are what the last pass made `final` from; and no placeholder in them is cut unless a forced cut
      does it. */
  ghost predicate Delivers(split: seq<string>, final: seq<string>, text: string, maxChars: int) {
    var blocks := CodeBlocks(text, 0);
    && EraseAll(split) == Erase(Protected(text)) && (forall c :: c in split ==> |c| <= maxChars)
    && (RestoredList(split, blocks) != [] ==> Fitted(final, RestoredList(split, blocks), maxChars))
    && (NUL !in text && CutsAvoidCode(text, maxChars) ==> AllWhole(split, |blocks|))
  }

  lemma {:induction false} Shielded(text: string)
    requires NUL !in text
    ensures var blocks, ts := CodeBlocks(text, 0), Shield(text, 0, 0);
      && Fenced(blocks) && (forall b :: b in blocks ==> b != "" && Trimmed(b))
      && Whole(Protected(text), |blocks|) && Tokens(Protected(text), |blocks|) == ts
      && Fill(ts, blocks, |blocks|) == text
      && forall k: nat :: k < |blocks| ==> Block(k) in ts
  {
    var blocks := CodeBlocks(text, 0);
    assert blocks[0..] == blocks && text[0..] == text;
    FencesFenced(text, 0);
    FencesEnd(text, 0);
    ShieldBlocks(text, 0, 0, |blocks|);
    ShieldFills(text, 0, 0, blocks);
    TokensOf(Shield(text, 0, 0), |blocks|);
    BlocksTrimmed(blocks);
  }

  lemma {:induction false} BlocksTrimmed(blocks: seq<string>)
    requires Fenced(blocks) && EndInTicks(blocks)
    ensures forall b :: b in blocks ==> b != "" && Trimmed(b)
  {
    assert !IsSpace(TICK);
  }

  lemma {:induction false} EraseTokensKeepsBlock(ts: seq<Token>, k: nat)
    requires Block(k) in ts
    ensures Block(k) in EraseTokens(ts)
  {
    if ts[0] != Block(k) { EraseTokensKeepsBlock(ts[1..], k); }
  }

  /** Chunks of the protected text in which every placeholder is whole and none is confused. */
  ghost predicate GoodSplit(text: string, chunks: seq<string>) {
    var n := |CodeBlocks(text, 0)|;
    NUL !in text && EraseAll(chunks) == Erase(Protected(text)) && AllWhole(chunks, n) && AllClear(chunks, n)
  }

  lemma {:induction false} RestoreText(text: string, chunks: seq<string>)
    requires GoodSplit(text, chunks)
    ensures EraseAll(RestoredList(chunks, CodeBlocks(text, 0))) == Erase(text)
  {
    var blocks, ts := CodeBlocks(text, 0), Shield(text, 0, 0);
    Shielded(text);
    TokensAllOf(chunks, Protected(text), |blocks|);
    RestoredListErase(chunks, blocks);
    FillErase(ts, blocks, |blocks|);
  }

  ghost predicate Verbatim(restored: seq<string>, code: string) {
    exists c :: c in restored && Contains(c, code)
  }

  lemma {:induction false} RestoreClean(text: string, chunks: seq<string>)
    requires GoodSplit(text, chunks)
    ensures EraseAll(RestoredList(chunks, CodeBlocks(text, 0))) == Erase(text)
    ensures forall k: nat :: k < |CodeBlocks(text, 0)| ==>
      Verbatim(RestoredList(chunks, CodeBlocks(text, 0)), CodeBlocks(text, 0)[k])
  {
    RestoreText(text, chunks);
    forall k: nat | k < |CodeBlocks(text, 0)|
      ensures Verbatim(RestoredList(chunks, CodeBlocks(text, 0)), CodeBlocks(text, 0)[k])
    {
      var c := BlockListed(text, chunks, k);
    }
  }

  lemma {:induction false} BlockListed(text: string, chunks: seq<string>, k: nat) returns (c: string)
    requires GoodSplit(text, chunks) && k < |CodeBlocks(text, 0)|
    ensures c in RestoredList(chunks, CodeBlocks(text, 0)) && Contains(c, CodeBlocks(text, 0)[k])
  {
    var carrier := BlockCarried(text, chunks, k);
    BlockBackHere(text, chunks, k, carrier);
    BackListed(chunks, CodeBlocks(text, 0), carrier);
    c := Back(carrier, CodeBlocks(text, 0));
  }

  lemma {:induction false} BlockCarried(text: string, chunks: seq<string>, k: nat) returns (c: string)
    requires GoodSplit(text, chunks) && k < |CodeBlocks(text, 0)|
    ensures c in chunks && Block(k) in Tokens(c, |CodeBlocks(text, 0)|)
  {
    var n, ts := |CodeBlocks(text, 0)|, Shield(text, 0, 0);
    Shielded(text);
    TokensAllOf(chunks, Protected(text), n);
    EraseTokensKeepsBlock(ts, k);
    BlockSomewhere(chunks, k, n);
    c :| c in chunks && Block(k) in Tokens(c, n);
  }

  lemma {:induction false} BlockBackHere(text: string, chunks: seq<string>, k: nat, c: string)
    requires GoodSplit(text, chunks) && k < |CodeBlocks(text, 0)|
    requires c in chunks && Block(k) in Tokens(c, |CodeBlocks(text, 0)|)
    ensures var blocks := CodeBlocks(text, 0); Contains(Back(c, blocks), blocks[k]) && Back(c, blocks) != ""
  {
    Shielded(text);
    BlockBack(c, CodeBlocks(text, 0), k);
  }

  /** Where the code goes: the placeholder of each block is in some chunk of the split; whichever chunk that is has the
      block in it, verbatim, once restored, and is sent as it is if it then fits. */
  lemma {:induction false} BlockVerbatim(text: string, maxChars: int, split: seq<string>, final: seq<string>, k: nat)
    requires Delivers(split, final, text, maxChars) && GoodSplit(text, split) && k < |CodeBlocks(text, 0)|
    ensures var blocks := CodeBlocks(text, 0);
      && (exists c :: c in split && Block(k) in Tokens(c, |blocks|))
      && forall c :: c in split && Block(k) in Tokens(c, |blocks|) ==>
           Contains(Back(c, blocks), blocks[k]) && (|Back(c, blocks)| <= maxChars ==> Back(c, blocks) in final)
  {
    var blocks := CodeBlocks(text, 0);
    var here := BlockCarried(text, split, k);
    forall c | c in split && Block(k) in Tokens(c, |blocks|)
      ensures Contains(Back(c, blocks), blocks[k]) && (|Back(c, blocks)| <= maxChars ==> Back(c, blocks) in final)
    {
      BlockBackHere(text, split, k, c);
      BackListed(split, blocks, c);
    }
  }

  /** One placeholder that is cut or confused, and the restored chunks are not the text. */
  lemma {:induction false} RestoreBroken(text: string, chunks: seq<string>)
    requires NUL !in text && (HasBroken(chunks) || !AllClear(chunks, |CodeBlocks(text, 0)|))
    ensures var restored := RestoredList(chunks, CodeBlocks(text, 0));
      restored != [] && EraseAll(restored) != Erase(text)
  {
    Shielded(text);
    if HasBroken(chunks) {
      RestoredListBroken(chunks, CodeBlocks(text, 0));
    } else {
      RestoredListConfused(chunks, CodeBlocks(text, 0));
    }
    NulErase(text);
  }

  lemma {:induction false} RestoreFenceFree(text: string, chunks: seq<string>)
    requires CodeBlocks(text, 0) == [] && EraseAll(chunks) == Erase(Protected(text))
    ensures EraseAll(RestoredList(chunks, [])) == Erase(text)
  {
    ShieldPlain(text, 0, 0);
    assert text[0..] == text;
    RestoredListPlain(chunks);
  }

  /** What is restored from the split is the text exactly when no placeholder is cut and none is confused. */
  lemma {:induction false} Outcome(text: string, maxChars: int, chunks: seq<string>)
    requires maxChars >= 1 && |text| > maxChars && chunks == SplitText(Protected(text), maxChars)
    requires EraseAll(chunks) == Erase(Protected(text))
    requires var p, n := Protected(text), |CodeBlocks(text, 0)|;
      Whole(p, n) ==> if WordsCutClean(p, maxChars, n) then AllWhole(chunks, n) else HasBroken(chunks)
    ensures var restored := RestoredList(chunks, CodeBlocks(text, 0));
      && (CodeBlocks(text, 0) == [] ==> EraseAll(restored) == Erase(text))
      && (NUL !in text ==>
           if CutsAvoidCode(text, maxChars) && SplitClear(text, maxChars)
           then EraseAll(restored) == Erase(text) && AllWhole(chunks, |CodeBlocks(text, 0)|)
           else restored != [] && EraseAll(restored) != Erase(text))
  {
    if CodeBlocks(text, 0) == [] { RestoreFenceFree(text, chunks); }
    if NUL !in text {
      Shielded(text);
      if CutsAvoidCode(text, maxChars) && SplitClear(text, maxChars) {
        RestoreClean(text, chunks);
      } else {
        RestoreBroken(text, chunks);
      }
    }
  }

  /** A text whose letters never spell the placeholder name is never confused. */
  lemma {:induction false} OrdinaryClear(text: string, maxChars: int)
    requires Ordinary(text) && CutsAvoidCode(text, maxChars)
    ensures SplitClear(text, maxChars)
  {
    if |text| > maxChars >= 1 {
      var chunks, n := SplitText(Protected(text), maxChars), |CodeBlocks(text, 0)|;
      Shielded(text);
      SplitTextKeeps(Protected(text), maxChars, n);
      TokensAllOf(chunks, Protected(text), n);
      ShieldApart(text, 0, 0);
      ApartAllClear(chunks, n);
    }
  }

  lemma {:induction false} NothingLeft(text: string, head: string)
    requires head <= text
    ensures Erase(text) == "" ==> EraseAll([head]) == ""
    ensures EraseAll([]) == ""
  {
    EraseBlank(text);
    OneErase(head);
    if Erase(text) == "" { EraseBlank(head); }
  }

  /** What `smart_chunk` computes: at least one chunk, each within the bound; without fenced code the text up to white
      space; and with fenced code the text exactly when no placeholder is cut and none is confused. */
  lemma {:induction false} SmartKeeps(text: string, maxChars: int)
    ensures Smart(text, maxChars) != []
    ensures maxChars >= 1 ==> forall c :: c in Smart(text, maxChars) ==> |c| <= maxChars
    ensures CodeBlocks(text, 0) == [] ==> EraseAll(Smart(text, maxChars)) == Erase(text)
    ensures NUL !in text ==>
      (EraseAll(Smart(text, maxChars)) == Erase(text) <==> CutsAvoidCode(text, maxChars) && SplitClear(text, maxChars))
    ensures Ordinary(text) ==> (EraseAll(Smart(text, maxChars)) == Erase(text) <==> CutsAvoidCode(text, maxChars))
    ensures |text| > maxChars >= 1 ==>
      Delivers(SplitText(Protected(text), maxChars), Smart(text, maxChars), text, maxChars)
  {
    if text == "" || maxChars <= 0 || |text| <= maxChars {
      OneErase(text);
    } else {
      var chunks, restored := SplitText(Protected(text), maxChars), RestoredChunks(text, maxChars);
      SplitTextKeeps(Protected(text), maxChars, |CodeBlocks(text, 0)|);
      FitListFitted(restored, maxChars);
      Outcome(text, maxChars, chunks);
      if NUL !in text { Shielded(text); }
      if Ordinary(text) && CutsAvoidCode(text, maxChars) { OrdinaryClear(text, maxChars); }
      if FitList(restored, maxChars) == [] { NothingLeft(text, text[..maxChars]); }
    }
  }

  method SmartChunk(text: string, maxChars: int) returns (final: seq<string>)
    ensures final == Smart(text, maxChars) && final != []
    ensures maxChars >= 1 ==> forall c :: c in final ==> |c| <= maxChars
    ensures text == "" || maxChars <= 0 || |text| <= maxChars ==> final == [text]
    ensures CodeBlocks(text, 0) == [] ==> EraseAll(final) == Erase(text)
    ensures NUL !in text ==>
      (EraseAll(final) == Erase(text) <==> CutsAvoidCode(text, maxChars) && SplitClear(text, maxChars))
    ensures Ordinary(text) ==> (EraseAll(final) == Erase(text) <==> CutsAvoidCode(text, maxChars))
    ensures |text| > maxChars >= 1 ==> Delivers(SplitText(Protected(text), maxChars), final, text, maxChars)
  {
    SmartKeeps(text, maxChars);
    if text == "" || maxChars <= 0 || |text| <= maxChars {
      return [text];
    }
    var chunks := SplitProtected(Protected(text), maxChars);
    var restored := RestoreAll(chunks, CodeBlocks(text, 0));
    final := FitAll(restored, maxChars);
    if final == [] {
      final := [text[..maxChars]];
    }
  }
}
