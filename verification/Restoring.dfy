/** Putting code back into chunks, and what comes of it. */
module Restoring {
  import opened Text
  import opened Placeholders
  import opened Confusion
  import opened Splitting

  /** A chunk with its code back, stripped. */
  function Back(chunk: string, blocks: seq<string>): string {
    Strip(Restored(chunk, blocks, |blocks|))
  }

  /** The chunks with their code back, stripped, blank ones dropped. */
  function RestoredList(chunks: seq<string>, blocks: seq<string>): seq<string> {
    if chunks == [] then []
    else
      var c := Back(chunks[|chunks| - 1], blocks);
      RestoredList(chunks[..|chunks| - 1], blocks) + if c == "" then [] else [c]
  }

  /** In none of the whole chunks can a placeholder be confused with what stands between two others. */
  ghost predicate AllClear(chunks: seq<string>, n: nat) {
    forall c :: c in chunks && Whole(c, n) ==> Clear(Tokens(c, n))
  }

  lemma {:induction false} RestoredListAppend(chunks: seq<string>, c: string, blocks: seq<string>)
    ensures EraseAll(RestoredList(chunks + [c], blocks))
         == EraseAll(RestoredList(chunks, blocks)) + Erase(Restored(c, blocks, |blocks|))
  {
    var r := Strip(Restored(c, blocks, |blocks|));
    assert (chunks + [c])[..|chunks|] == chunks;
    StripErases(Restored(c, blocks, |blocks|));
    EraseAllAppend(RestoredList(chunks, blocks), r);
    assert r == "" ==> RestoredList(chunks + [c], blocks) == RestoredList(chunks, blocks);
  }

  lemma {:induction false} RestoredWhole(c: string, blocks: seq<string>)
    requires Whole(c, |blocks|) && Fenced(blocks) && Clear(Tokens(c, |blocks|))
    ensures Restored(c, blocks, |blocks|) == Fill(Tokens(c, |blocks|), blocks, |blocks|)
    ensures Erase(Restored(c, blocks, |blocks|)) == Erase(Fill(EraseTokens(Tokens(c, |blocks|)), blocks, |blocks|))
  {
    RestoresExactlyWhen(Tokens(c, |blocks|), blocks);
    FillErase(Tokens(c, |blocks|), blocks, |blocks|);
  }

  /** With no placeholder broken and none confused, restoring loses only white space. */
  lemma {:induction false} RestoredListErase(chunks: seq<string>, blocks: seq<string>)
    requires AllWhole(chunks, |blocks|) && Fenced(blocks) && AllClear(chunks, |blocks|)
    ensures EraseAll(RestoredList(chunks, blocks)) == Erase(Fill(TokensAll(chunks, |blocks|), blocks, |blocks|))
  {
    var n := |blocks|;
    if chunks != [] {
      var front, last := chunks[..|chunks| - 1], chunks[|chunks| - 1];
      var a, b := TokensAll(front, n), EraseTokens(Tokens(last, n));
      RestoredListErase(front, blocks);
      RestoredNext(front, last, blocks, a);
      RestoredLast(chunks, front, last, blocks, a, b);
    }
  }

  lemma {:induction false} RestoredLast(chunks: seq<string>, front: seq<string>, last: string, blocks: seq<string>,
                                        a: seq<Token>, b: seq<Token>)
    requires chunks != [] && front == chunks[..|chunks| - 1] && last == chunks[|chunks| - 1]
    requires AllWhole(chunks, |blocks|) && TokensAll(chunks, |blocks|) == a + b
    requires EraseAll(RestoredList(front + [last], blocks)) == Erase(Fill(a + b, blocks, |blocks|))
    ensures EraseAll(RestoredList(chunks, blocks)) == Erase(Fill(TokensAll(chunks, |blocks|), blocks, |blocks|))
  {
    assert chunks == front + [last];
  }

  lemma {:induction false} RestoredNext(front: seq<string>, last: string, blocks: seq<string>, a: seq<Token>)
    requires Whole(last, |blocks|) && Fenced(blocks) && Clear(Tokens(last, |blocks|))
    requires EraseAll(RestoredList(front, blocks)) == Erase(Fill(a, blocks, |blocks|))
    ensures EraseAll(RestoredList(front + [last], blocks)) ==
      Erase(Fill(a + EraseTokens(Tokens(last, |blocks|)), blocks, |blocks|))
  {
    var n, b := |blocks|, EraseTokens(Tokens(last, |blocks|));
    RestoredWhole(last, blocks);
    RestoredListAppend(front, last, blocks);
    FillConcat(a, b, blocks, n);
    EraseConcat(Fill(a, blocks, n), Fill(b, blocks, n));
  }

  lemma {:induction false} RestoredListPlain(chunks: seq<string>)
    ensures EraseAll(RestoredList(chunks, [])) == EraseAll(chunks)
  {
    if chunks != [] {
      var front, last := chunks[..|chunks| - 1], chunks[|chunks| - 1];
      RestoredListPlain(front);
      RestoredListAppend(front, last, []);
      EraseAllAppend(front, last);
      assert chunks == front + [last];
    }
  }

  // ---- a NUL that is left over ----

  lemma {:induction false} NulErase(s: string)
    ensures NUL in Erase(s) <==> NUL in s
  {
    if s != "" {
      NulErase(s[1..]);
      assert s == [s[0]] + s[1..];
    }
  }

  lemma {:induction false} BrokenStays(c: string, blocks: seq<string>)
    requires NulCount(c) % 2 == 1 && Fenced(blocks)
    ensures NUL in Restored(c, blocks, |blocks|)
  {
    RestoreParity(c, blocks, |blocks|);
    NoNul(Restored(c, blocks, |blocks|));
  }

  /** A placeholder that is broken or confused leaves a NUL in the output. */
  lemma {:induction false} RestoredListStays(chunks: seq<string>, blocks: seq<string>, c: string)
    requires c in chunks && NUL in Restored(c, blocks, |blocks|)
    ensures NUL in EraseAll(RestoredList(chunks, blocks))
  {
    var front, last := chunks[..|chunks| - 1], chunks[|chunks| - 1];
    RestoredListAppend(front, last, blocks);
    assert chunks == front + [last];
    if c == last {
      NulErase(Restored(last, blocks, |blocks|));
    } else {
      RestoredListStays(front, blocks, c);
    }
  }

  lemma {:induction false} RestoredListBroken(chunks: seq<string>, blocks: seq<string>)
    requires HasBroken(chunks) && Fenced(blocks)
    ensures NUL in EraseAll(RestoredList(chunks, blocks))
  {
    var c :| c in chunks && NulCount(c) % 2 == 1;
    BrokenStays(c, blocks);
    RestoredListStays(chunks, blocks, c);
  }

  lemma {:induction false} RestoredListConfused(chunks: seq<string>, blocks: seq<string>)
    requires !AllClear(chunks, |blocks|) && Fenced(blocks)
    ensures NUL in EraseAll(RestoredList(chunks, blocks))
  {
    var c :| c in chunks && Whole(c, |blocks|) && !Clear(Tokens(c, |blocks|));
    RestoresExactlyWhen(Tokens(c, |blocks|), blocks);
    RestoredListStays(chunks, blocks, c);
  }

  // ---- fenced code in restored chunks ----

  lemma {:induction false} FillContains(ts: seq<Token>, blocks: seq<string>, k: nat)
    requires Block(k) in ts && k < |blocks|
    ensures Contains(Fill(ts, blocks, |blocks|), blocks[k])
  {
    var rest := Fill(ts[1..], blocks, |blocks|);
    if ts[0] == Block(k) {
      assert blocks[k] <= (blocks[k] + rest)[0..];
    } else {
      FillContains(ts[1..], blocks, k);
      var head := Fill([ts[0]], blocks, |blocks|);
      assert [ts[0]] + ts[1..] == ts;
      FillConcat([ts[0]], ts[1..], blocks, |blocks|);
      ContainsSuffix(head, rest, blocks[k]);
    }
  }

  lemma {:induction false} EraseTokensMember(ts: seq<Token>, t: Token)
    requires t in EraseTokens(ts)
    ensures t in ts
  {
    if t != ts[0] { EraseTokensMember(ts[1..], t); }
  }

  lemma {:induction false} BlockSomewhere(chunks: seq<string>, k: nat, n: nat)
    requires AllWhole(chunks, n) && Block(k) in TokensAll(chunks, n)
    ensures exists c :: c in chunks && Block(k) in Tokens(c, n)
  {
    var front, last := chunks[..|chunks| - 1], chunks[|chunks| - 1];
    if Block(k) in EraseTokens(Tokens(last, n)) {
      EraseTokensMember(Tokens(last, n), Block(k));
    } else {
      BlockSomewhere(front, k, n);
    }
  }

  /** A chunk that carries the placeholder of a block has the block in it, verbatim, once it is restored. */
  lemma {:induction false} BlockBack(c: string, blocks: seq<string>, k: nat)
    requires Whole(c, |blocks|) && Fenced(blocks) && Clear(Tokens(c, |blocks|))
    requires k < |blocks| && Trimmed(blocks[k]) && Block(k) in Tokens(c, |blocks|)
    ensures Contains(Back(c, blocks), blocks[k]) && Back(c, blocks) != ""
  {
    RestoredWhole(c, blocks);
    FillContains(Tokens(c, |blocks|), blocks, k);
    StripContains(Restored(c, blocks, |blocks|), blocks[k]);
  }

  lemma {:induction false} BackListed(chunks: seq<string>, blocks: seq<string>, c: string)
    requires c in chunks && Back(c, blocks) != ""
    ensures Back(c, blocks) in RestoredList(chunks, blocks)
  {
    if c != chunks[|chunks| - 1] { BackListed(chunks[..|chunks| - 1], blocks, c); }
  }

  /** A restored chunk comes from some chunk. */
  lemma {:induction false} ListedBack(chunks: seq<string>, blocks: seq<string>, r: string)
    requires r in RestoredList(chunks, blocks)
    ensures exists c :: c in chunks && Back(c, blocks) == r
  {
    if r in RestoredList(chunks[..|chunks| - 1], blocks) { ListedBack(chunks[..|chunks| - 1], blocks, r); }
  }

  // ---- texts without the placeholder name ----

  lemma {:induction false} ApartParts(a: seq<Token>, b: seq<Token>)
    requires Apart(a + b)
    ensures Apart(a) && Apart(b)
  {
    assert [] + a + b == a + b && a + b + [] == a + b;
    ApartInfix([], a, b);
    ApartInfix(a, b, []);
  }

  lemma {:induction false} MemberApart(chunks: seq<string>, c: string, n: nat)
    requires AllWhole(chunks, n) && Apart(TokensAll(chunks, n)) && c in chunks
    ensures Apart(EraseTokens(Tokens(c, n)))
  {
    var front, last := chunks[..|chunks| - 1], chunks[|chunks| - 1];
    ApartParts(TokensAll(front, n), EraseTokens(Tokens(last, n)));
    if c != last { MemberApart(front, c, n); }
  }

  lemma {:induction false} ApartAllClear(chunks: seq<string>, n: nat)
    requires AllWhole(chunks, n) && Apart(TokensAll(chunks, n))
    ensures AllClear(chunks, n)
  {
    forall c | c in chunks ensures Clear(Tokens(c, n)) {
      MemberApart(chunks, c, n);
      ApartErase(Tokens(c, n));
      ApartClear(Tokens(c, n));
    }
  }
}
