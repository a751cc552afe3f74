/** Filling bins in order: items are put together with a separator as long as they fit, and an item that is too long
    gets a bin of its own.  The message splitter does this with words and with the parts of a text, the parser of notes
    with paragraphs. */
module Packing {
  import opened Text

  type Bins = seq<seq<string>>

  /** Python's `sep.join(g)`. */
  function JoinWith(sep: string, g: seq<string>): string {
    if g == [] then "" else if |g| == 1 then g[0] else JoinWith(sep, g[..|g| - 1]) + sep + g[|g| - 1]
  }

  function AllOf(bins: Bins): seq<string> {
    if bins == [] then [] else AllOf(bins[..|bins| - 1]) + bins[|bins| - 1]
  }

  // ---- cutting by force ----

  /** A text cut every `maxChars` characters. */
  function HardPieces(w: string, maxChars: int): seq<string>
    decreases |w|
  {
    if w == "" || maxChars <= 0 then []
    else if |w| <= maxChars then [w]
    else [w[..maxChars]] + HardPieces(w[maxChars..], maxChars)
  }

  lemma {:induction false} HardPiecesNext(rest: string, maxChars: int, k: nat)
    requires maxChars >= 1 && rest != "" && k == if |rest| <= maxChars then |rest| else maxChars
    ensures HardPieces(rest, maxChars) == [rest[..k]] + HardPieces(rest[k..], maxChars)
  {
    if |rest| <= maxChars { assert rest[..k] == rest && rest[k..] == "" && [rest] + [] == [rest]; }
  }

  /** The pieces joined are the word. */
  lemma {:induction false} HardPiecesFit(word: string, maxChars: int)
    requires maxChars >= 1
    ensures Flat(HardPieces(word, maxChars)) == word
    ensures forall p :: p in HardPieces(word, maxChars) ==> p != "" && |p| <= maxChars
    ensures |word| > maxChars ==> |HardPieces(word, maxChars)| >= 2
    decreases |word|
  {
    if |word| > maxChars {
      HardPiecesFit(word[maxChars..], maxChars);
      FlatCons(word[..maxChars], HardPieces(word[maxChars..], maxChars));
      assert word == word[..maxChars] + word[maxChars..];
    } else if word != "" {
      FlatCons(word, []);
      assert [word] + [] == [word] && word + "" == word;
    }
  }

  /** Each piece but the last has the full length. */
  lemma {:induction false} HardPiecesFull(word: string, maxChars: int)
    requires maxChars >= 1
    ensures forall i :: 0 <= i < |HardPieces(word, maxChars)| - 1 ==> |HardPieces(word, maxChars)[i]| == maxChars
    decreases |word|
  {
    if |word| > maxChars { HardPiecesFull(word[maxChars..], maxChars); }
  }

  // ---- the loop ----

  /** The open bin is closed unless it is empty. */
  function Shut(st: (Bins, seq<string>)): Bins {
    if st.1 != [] then st.0 + [st.1] else st.0
  }

  function Filed(st: (Bins, seq<string>), item: string, sep: string, max: int): (Bins, seq<string>) {
    if |item| > max then (Shut(st) + [[item]], [])
    else if st.1 != [] && |JoinWith(sep, st.1)| + |sep| + |item| > max then (Shut(st), [item])
    else (st.0, st.1 + [item])
  }

  /** The closed bins and the open one after the first `i` items. */
  function Filing(items: seq<string>, i: nat, sep: string, max: int): (Bins, seq<string>)
    requires i <= |items|
  {
    if i == 0 then ([], []) else Filed(Filing(items, i - 1, sep, max), items[i - 1], sep, max)
  }

  function BinsOf(items: seq<string>, sep: string, max: int): Bins {
    Shut(Filing(items, |items|, sep, max))
  }

  // ---- what a packing is ----

  /** The items of a bin fit together, or there is only one. */
  predicate GoodBin(b: seq<string>, sep: string, max: int) {
    b != [] && (|b| == 1 || |JoinWith(sep, b)| <= max)
  }

  /** The first item of `b` would not have fitted into `a`. */
  predicate Apart(a: seq<string>, b: seq<string>, sep: string, max: int) {
    b != [] && |JoinWith(sep, a)| + |sep| + |b[0]| > max
  }

  ghost predicate Divides(bins: Bins, items: seq<string>, sep: string, max: int) {
    AllOf(bins) == items && forall b :: b in bins ==> GoodBin(b, sep, max)
  }

  /** The items in order, each in one bin, and no bin could have taken one more. */
  ghost predicate Packed(bins: Bins, items: seq<string>, sep: string, max: int) {
    Divides(bins, items, sep, max) && forall i :: 0 <= i < |bins| - 1 ==> Apart(bins[i], bins[i + 1], sep, max)
  }

  // ---- the loop packs ----

  lemma {:induction false} AllOfAppend(bins: Bins, b: seq<string>)
    ensures AllOf(bins + [b]) == AllOf(bins) + b
  {
    assert (bins + [b])[..|bins|] == bins;
  }

  lemma {:induction false} JoinAppend(sep: string, g: seq<string>, x: string)
    ensures JoinWith(sep, g + [x]) == if g == [] then x else JoinWith(sep, g) + sep + x
  {
    assert (g + [x])[..|g|] == g && (g + [x])[|g|] == x;
  }

  lemma {:induction false} JoinOne(sep: string, x: string)
    ensures JoinWith(sep, [x]) == x
  {
  }

  /** The closed bins and then the open one hold the items `seen`; the open one fits, and without one the last closed
      bin is too long. */
  ghost predicate WellFiled(st: (Bins, seq<string>), seen: seq<string>, sep: string, max: int) {
    match st
    case (closed, open) =>
      && Packed(Shut(st), seen, sep, max)
      && if open != [] then |JoinWith(sep, open)| <= max
         else closed != [] ==> |JoinWith(sep, closed[|closed| - 1])| > max
  }

  lemma {:induction false} PackedAppend(bins: Bins, b: seq<string>, items: seq<string>, sep: string, max: int)
    requires Packed(bins, items, sep, max) && GoodBin(b, sep, max)
    requires bins != [] ==> Apart(bins[|bins| - 1], b, sep, max)
    ensures Packed(bins + [b], items + b, sep, max)
  {
    AllOfAppend(bins, b);
  }

  /** A longer last bin is as far from the one before it. */
  lemma {:induction false} PackedGrows(closed: Bins, b: seq<string>, x: string, items: seq<string>, sep: string,
                                       max: int)
    requires b != [] && Packed(closed + [b], items, sep, max) && GoodBin(b + [x], sep, max)
    ensures Packed(closed + [b + [x]], items + [x], sep, max)
  {
    var before, after := closed + [b], closed + [b + [x]];
    AllOfAppend(closed, b);
    AllOfAppend(closed, b + [x]);
    Associate(AllOf(closed), b, [x]);
    forall i | 0 <= i < |after| - 1 ensures Apart(after[i], after[i + 1], sep, max) {
      assert Apart(before[i], before[i + 1], sep, max);
    }
    forall g | g in after ensures GoodBin(g, sep, max) {
      if g != b + [x] { assert g in before; }
    }
  }

  lemma {:induction false} FiledFills(st: (Bins, seq<string>), item: string, seen: seq<string>, sep: string, max: int)
    requires WellFiled(st, seen, sep, max)
    ensures WellFiled(Filed(st, item, sep, max), seen + [item], sep, max)
  {
    var (closed, open) := st;
    JoinOne(sep, item);
    JoinAppend(sep, open, item);
    if |item| > max || open == [] || |JoinWith(sep, open)| + |sep| + |item| > max {
      PackedAppend(Shut(st), [item], seen, sep, max);
      NothingBefore([item]);
    } else {
      PackedGrows(closed, open, item, seen, sep, max);
    }
  }

  lemma {:induction false} NoneFiled(sep: string, max: int)
    ensures WellFiled(([], []), [], sep, max)
  {
  }

  lemma {:induction false} FilingFills(items: seq<string>, i: nat, sep: string, max: int)
    requires i <= |items|
    ensures WellFiled(Filing(items, i, sep, max), items[..i], sep, max)
  {
    if i == 0 {
      NoneFiled(sep, max);
      assert items[..0] == [];
    } else {
      FilingFills(items, i - 1, sep, max);
      FiledFills(Filing(items, i - 1, sep, max), items[i - 1], items[..i - 1], sep, max);
      PrefixNext(items, i);
    }
  }

  /** What the loop makes is a packing. */
  lemma {:induction false} BinsPacked(items: seq<string>, sep: string, max: int)
    ensures Packed(BinsOf(items, sep, max), items, sep, max)
  {
    FilingFills(items, |items|, sep, max);
    WholeSlice(items);
  }

  // ---- no division into bins has fewer ----

  /** The number of items in the first `k` bins. */
  function Upto(bins: Bins, k: nat): nat
    requires k <= |bins|
  {
    if k == 0 then 0 else Upto(bins, k - 1) + |bins[k - 1]|
  }

  lemma {:induction false} JoinTail(sep: string, g: seq<string>)
    requires g != []
    ensures |JoinWith(sep, g[1..])| <= |JoinWith(sep, g)|
  {
    if |g| > 1 {
      var front := g[..|g| - 1];
      JoinTail(sep, front);
      assert g[1..] == front[1..] + [g[|g| - 1]];
      JoinAppend(sep, front[1..], g[|g| - 1]);
    }
  }

  /** Part of a bin is no longer than the bin. */
  lemma {:induction false} JoinSlice(sep: string, g: seq<string>, a: nat, b: nat)
    requires a <= b <= |g|
    ensures |JoinWith(sep, g[a..b])| <= |JoinWith(sep, g)|
    decreases |g|
  {
    if b < |g| {
      JoinSlice(sep, g[..|g| - 1], a, b);
      assert g[..|g| - 1][a..b] == g[a..b];
    } else if a > 0 {
      JoinSlice(sep, g[1..], a - 1, b - 1);
      JoinTail(sep, g);
      assert g[1..][a - 1..b - 1] == g[a..b];
    } else {
      assert g[a..b] == g;
    }
  }

  /** Where the items of bin `k` are among all items. */
  lemma {:induction false} BinAt(bins: Bins, k: nat)
    requires k < |bins|
    ensures Upto(bins, k + 1) <= |AllOf(bins)| && AllOf(bins)[Upto(bins, k)..Upto(bins, k + 1)] == bins[k]
  {
    var front, last := bins[..|bins| - 1], bins[|bins| - 1];
    UptoFront(bins, |bins| - 1);
    UptoAll(front);
    if k < |bins| - 1 {
      BinAt(front, k);
      UptoFront(bins, k + 1);
      UptoFront(bins, k);
      assert AllOf(bins)[Upto(bins, k)..Upto(bins, k + 1)] == AllOf(front)[Upto(bins, k)..Upto(bins, k + 1)];
    }
  }

  lemma {:induction false} UptoFront(bins: Bins, k: nat)
    requires k < |bins|
    ensures Upto(bins[..|bins| - 1], k) == Upto(bins, k)
  {
    if k > 0 { UptoFront(bins, k - 1); }
  }

  lemma {:induction false} UptoAll(bins: Bins)
    ensures Upto(bins, |bins|) == |AllOf(bins)|
  {
    if bins != [] {
      UptoAll(bins[..|bins| - 1]);
      UptoFront(bins, |bins| - 1);
    }
  }

  lemma {:induction false} UptoGrows(bins: Bins, j: nat, k: nat)
    requires j <= k <= |bins| && forall b :: b in bins ==> b != []
    ensures Upto(bins, k) >= Upto(bins, j) + (k - j)
    decreases k - j
  {
    if j < k {
      UptoGrows(bins, j, k - 1);
      assert bins[k - 1] in bins;
    }
  }

  /** The first `k` bins of a packing hold at least as many items as those of any other division. */
  lemma {:induction false} PackedAhead(bins: Bins, other: Bins, items: seq<string>, sep: string, max: int, k: nat)
    requires Packed(bins, items, sep, max) && Divides(other, items, sep, max) && k <= |bins| && k <= |other|
    ensures Upto(other, k) <= Upto(bins, k)
  {
    if k > 0 {
      PackedAhead(bins, other, items, sep, max, k - 1);
      BinAt(bins, k - 1);
      BinAt(other, k - 1);
      if k == |bins| { UptoAll(bins); } else { NotBeyond(bins, other, items, sep, max, k - 1); }
    }
  }

  lemma {:induction false} NotBeyond(bins: Bins, other: Bins, items: seq<string>, sep: string, max: int, k: nat)
    requires Packed(bins, items, sep, max) && Divides(other, items, sep, max) && k + 1 < |bins| && k < |other|
    requires Upto(other, k) <= Upto(bins, k)
    ensures Upto(other, k + 1) <= Upto(bins, k + 1)
  {
    BinAt(bins, k);
    BinAt(bins, k + 1);
    BinAt(other, k);
    assert bins[k] in bins && other[k] in other && Apart(bins[k], bins[k + 1], sep, max);
    BeyondTooLong(items, sep, max, bins[k], bins[k + 1], other[k], Upto(bins, k), Upto(other, k));
  }

  lemma {:induction false} NextItem(items: seq<string>, a: nat, g: seq<string>, h: seq<string>)
    requires a + |g| + |h| <= |items| && h != []
    requires items[a..a + |g|] == g && items[a + |g|..a + |g| + |h|] == h
    ensures items[a..a + |g| + 1] == g + [h[0]]
  {
    assert items[a + |g|] == items[a + |g|..a + |g| + |h|][0] == h[0];
    SliceGrows(items, a, a + |g|);
  }

  /** A bin that holds all of `g` and the first item after it is too long. */
  lemma {:induction false} BeyondTooLong(items: seq<string>, sep: string, max: int, g: seq<string>, h: seq<string>,
                                         other: seq<string>, a: nat, o: nat)
    requires o <= a && a + |g| + |h| <= |items| && o + |other| <= |items| && g != [] && Apart(g, h, sep, max)
    requires items[a..a + |g|] == g && items[a + |g|..a + |g| + |h|] == h && items[o..o + |other|] == other
    ensures GoodBin(other, sep, max) ==> o + |other| <= a + |g|
  {
    if o + |other| > a + |g| {
      NextItem(items, a, g, h);
      SliceOfSlice(items, o, o + |other|, a - o, a - o + |g| + 1);
      JoinAppend(sep, g, h[0]);
      JoinSlice(sep, other, a - o, a - o + |g| + 1);
    }
  }

  /** No way to divide the items in order into bins that fit takes fewer bins. */
  lemma {:induction false} PackedFewest(bins: Bins, other: Bins, items: seq<string>, sep: string, max: int)
    requires Packed(bins, items, sep, max) && Divides(other, items, sep, max)
    ensures |bins| <= |other|
  {
    if |other| < |bins| {
      PackedAhead(bins, other, items, sep, max, |other|);
      UptoAll(other);
      UptoAll(bins);
      UptoGrows(bins, |other|, |bins|);
    }
  }

  /** There is only one packing. */
  lemma {:induction false} PackedUnique(bins: Bins, other: Bins, items: seq<string>, sep: string, max: int)
    requires Packed(bins, items, sep, max) && Packed(other, items, sep, max)
    ensures bins == other
  {
    PackedFewest(bins, other, items, sep, max);
    PackedFewest(other, bins, items, sep, max);
    forall k | 0 <= k < |bins| ensures bins[k] == other[k] {
      PackedAhead(bins, other, items, sep, max, k);
      PackedAhead(other, bins, items, sep, max, k);
      PackedAhead(bins, other, items, sep, max, k + 1);
      PackedAhead(other, bins, items, sep, max, k + 1);
      BinAt(bins, k);
      BinAt(other, k);
    }
  }

  // ---- what is in a bin ----

  lemma {:induction false} BinMember(bins: Bins, b: seq<string>, w: string)
    requires b in bins && w in b
    ensures w in AllOf(bins)
  {
    if b != bins[|bins| - 1] { BinMember(bins[..|bins| - 1], b, w); }
  }

  lemma {:induction false} BinOf(bins: Bins, w: string) returns (b: seq<string>)
    requires w in AllOf(bins)
    ensures b in bins && w in b
  {
    if w in bins[|bins| - 1] {
      b := bins[|bins| - 1];
    } else {
      b := BinOf(bins[..|bins| - 1], w);
    }
  }

  lemma {:induction false} JoinContains(sep: string, g: seq<string>, p: string)
    requires p in g
    ensures Contains(JoinWith(sep, g), p)
  {
    var front, last := g[..|g| - 1], g[|g| - 1];
    if p == last {
      assert last <= last[0..];
      if front != [] { ContainsSuffix(JoinWith(sep, front) + sep, last, p); }
    } else {
      JoinContains(sep, front, p);
      ContainsPrefix(JoinWith(sep, front), sep, p);
      ContainsPrefix(JoinWith(sep, front) + sep, last, p);
    }
  }

  lemma {:induction false} JoinAssociates(a: string, b: string, c: string)
    ensures a + b + c == a + (b + c)
  {
  }

  lemma {:induction false} JoinCons(sep: string, x: string, g: seq<string>)
    requires g != []
    ensures JoinWith(sep, [x] + g) == x + sep + JoinWith(sep, g)
  {
    var front, last := g[..|g| - 1], g[|g| - 1];
    FrontOfSum([x], g);
    if front == [] {
      NothingAfter([x]);
    } else {
      JoinCons(sep, x, front);
      JoinAssociates(x + sep, JoinWith(sep, front), sep + last);
      JoinAssociates(JoinWith(sep, front), sep, last);
      JoinAssociates(x + sep + JoinWith(sep, front), sep, last);
    }
  }

  lemma {:induction false} JoinErases(sep: string, b: seq<string>)
    requires Blank(sep)
    ensures Erase(JoinWith(sep, b)) == EraseAll(b)
  {
    if |b| == 1 {
      OneErase(b[0]);
      assert b == [b[0]];
    } else if b != [] {
      var front, last := b[..|b| - 1], b[|b| - 1];
      JoinErases(sep, front);
      JoinedErase(sep, JoinWith(sep, front), last);
      EraseAllAppend(front, last);
      assert b == front + [last];
    }
  }

  lemma {:induction false} JoinedErase(sep: string, head: string, last: string)
    requires Blank(sep)
    ensures Erase(head + sep + last) == Erase(head) + Erase(last)
  {
    EraseBlank(sep);
    EraseConcat(head + sep, last);
    EraseConcat(head, sep);
    NothingAfter(Erase(head));
  }
}
