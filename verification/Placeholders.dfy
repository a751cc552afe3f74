/** The stand-ins that protect fenced code while a message is split, and what putting the code back means.

    A protected text is read as a list of tokens: ordinary characters and whole placeholders.  `str.replace`
    works on characters and knows nothing of tokens; the lemmas here say when the two views agree. */
module Placeholders {
  import opened Text

  const NUL: char := '\0'
  const NAME: string := "CODE_BLOCK_"
  const TICK: char := '`'

  function Placeholder(k: nat): string {
    [NUL] + NAME + Decimal(k) + [NUL]
  }

  datatype Token = Plain(c: char) | Block(k: nat)

  function Spelling(t: Token): string {
    match t
    case Plain(c) => [c]
    case Block(k) => Placeholder(k)
  }

  function Render(ts: seq<Token>): string {
    if ts == [] then "" else Spelling(ts[0]) + Render(ts[1..])
  }

  /** Tokens of a text that was free of NUL before its `n` blocks were protected. */
  ghost predicate Valid(ts: seq<Token>, n: nat) {
    forall i :: 0 <= i < |ts| ==> match ts[i] case Plain(c) => c != NUL case Block(k) => k < n
  }

  /** No placeholder is cut at either end of `s`. */
  ghost predicate Whole(s: string, n: nat) {
    exists ts :: Valid(ts, n) && Render(ts) == s
  }

  ghost function Tokens(s: string, n: nat): (ts: seq<Token>)
    requires Whole(s, n)
    ensures Valid(ts, n) && Render(ts) == s
  {
    var ts :| Valid(ts, n) && Render(ts) == s;
    ts
  }

  // ---- tokens are uniquely readable ----

  predicate Digits(p: string) {
    forall i :: 0 <= i < |p| ==> IsDigit(p[i])
  }

  lemma {:induction false} SameDigits(p: string, q: string, s: string)
    requires Digits(p) && Digits(q) && p + [NUL] <= s && q + [NUL] <= s
    ensures p == q
  {
    assert s[|p|] == (p + [NUL])[|p|] == NUL && s[|q|] == (q + [NUL])[|q|] == NUL;
    assert forall x :: 0 <= x < |p| ==> s[x] == (p + [NUL])[x] == p[x];
    assert forall x :: 0 <= x < |q| ==> s[x] == (q + [NUL])[x] == q[x];
    assert !IsDigit(NUL);
  }

  lemma {:induction false} AfterHead(head: string, p: string, s: string)
    requires head + p <= s
    ensures |head| <= |s| && p <= s[|head|..]
  {
    assert (head + p)[|head|..] == p;
  }

  lemma {:induction false} PlaceholderPrefixFree(i: nat, j: nat, s: string)
    requires Placeholder(i) <= s && Placeholder(j) <= s
    ensures i == j
  {
    var head := [NUL] + NAME;
    Associate(head, Decimal(i), [NUL]);
    Associate(head, Decimal(j), [NUL]);
    AfterHead(head, Decimal(i) + [NUL], s);
    AfterHead(head, Decimal(j) + [NUL], s);
    SameDigits(Decimal(i), Decimal(j), s[|head|..]);
    DecimalInjective(i, j);
  }

  lemma {:induction false} RenderInjective(a: seq<Token>, b: seq<Token>, n: nat)
    requires Valid(a, n) && Valid(b, n) && Render(a) == Render(b)
    ensures a == b
  {
    var s := Render(a);
    if a != [] && b != [] {
      assert Spelling(a[0]) <= s && Spelling(b[0]) <= s;
      assert Spelling(a[0])[0] == s[0] == Spelling(b[0])[0];
      if a[0].Block? && b[0].Block? {
        PlaceholderPrefixFree(a[0].k, b[0].k, s);
      }
      assert a[0] == b[0];
      assert Render(a[1..]) == s[|Spelling(a[0])|..] == Render(b[1..]);
      RenderInjective(a[1..], b[1..], n);
    }
  }

  lemma {:induction false} RenderCons(t: Token, ts: seq<Token>)
    ensures Render([t] + ts) == Spelling(t) + Render(ts)
  {
    assert ([t] + ts)[1..] == ts;
  }

  lemma {:induction false} RenderConcat(a: seq<Token>, b: seq<Token>)
    ensures Render(a + b) == Render(a) + Render(b)
  {
    if a == [] {
      RenderAfterNothing(b);
    } else {
      RenderConcat(a[1..], b);
      RenderStep(a, b);
    }
  }

  lemma {:induction false} RenderAfterNothing(b: seq<Token>)
    ensures Render([] + b) == Render([]) + Render(b)
  {
    NothingBefore(b);
    NothingBefore(Render(b));
  }

  lemma {:induction false} RenderStep(a: seq<Token>, b: seq<Token>)
    requires a != [] && Render(a[1..] + b) == Render(a[1..]) + Render(b)
    ensures Render(a + b) == Render(a) + Render(b)
  {
    ConsAppend(a, b);
    Associate(Spelling(a[0]), Render(a[1..]), Render(b));
  }

  lemma {:induction false} TokensOf(ts: seq<Token>, n: nat)
    requires Valid(ts, n)
    ensures Whole(Render(ts), n) && Tokens(Render(ts), n) == ts
  {
    RenderInjective(Tokens(Render(ts), n), ts, n);
  }

  lemma {:induction false} WholeConcat(a: string, b: string, n: nat)
    requires Whole(a, n) && Whole(b, n)
    ensures Whole(a + b, n) && Tokens(a + b, n) == Tokens(a, n) + Tokens(b, n)
  {
    RenderConcat(Tokens(a, n), Tokens(b, n));
    TokensOf(Tokens(a, n) + Tokens(b, n), n);
  }

  // ---- where a text may be cut ----

  function NulCount(s: string): nat {
    if s == "" then 0 else (if s[0] == NUL then 1 else 0) + NulCount(s[1..])
  }

  lemma {:induction false} NulCountConcat(a: string, b: string)
    ensures NulCount(a + b) == NulCount(a) + NulCount(b)
  {
    if a == "" {
      assert a + b == b;
    } else {
      NulCountConcat(a[1..], b);
      ConsAppend(a, b);
    }
  }

  lemma {:induction false} NoNul(s: string)
    ensures NulCount(s) == 0 <==> NUL !in s
  {
    if s != "" {
      NoNul(s[1..]);
      assert s == [s[0]] + s[1..];
    }
  }

  lemma {:induction false} PlaceholderCut(k: nat, j: nat)
    requires 0 < j < |Placeholder(k)|
    ensures NulCount(Placeholder(k)[..j]) == 1 && NulCount(Placeholder(k)) == 2
    ensures !IsSpace(Placeholder(k)[j])
  {
    var body := NAME + Decimal(k);
    assert Placeholder(k) == [NUL] + body + [NUL];
    BodySolid(k);
    Bracketed(body, j);
  }

  lemma {:induction false} BodySolid(k: nat)
    ensures forall c :: c in NAME + Decimal(k) ==> c != NUL && !IsSpace(c)
  {
    forall c | c in NAME + Decimal(k) ensures c != NUL && !IsSpace(c) {
      if c !in NAME {
        assert IsDigit(c);
      }
    }
  }

  lemma {:induction false} Bracketed(body: string, j: nat)
    requires (forall c :: c in body ==> c != NUL && !IsSpace(c)) && 0 < j < |body| + 2
    ensures var s := [NUL] + body + [NUL];
      NulCount(s[..j]) == 1 && NulCount(s) == 2 && !IsSpace(s[j])
  {
    var s := [NUL] + body + [NUL];
    assert s[..j] == [NUL] + body[..j - 1];
    NulCountConcat([NUL], body[..j - 1]);
    NoNul(body[..j - 1]);
    NulCountConcat([NUL] + body, [NUL]);
    NulCountConcat([NUL], body);
    NoNul(body);
    assert s[j] == if j <= |body| then body[j - 1] else NUL;
  }

  lemma {:induction false} WholeEven(ts: seq<Token>, n: nat)
    requires Valid(ts, n)
    ensures NulCount(Render(ts)) % 2 == 0
  {
    if ts != [] {
      WholeEven(ts[1..], n);
      NulCountConcat(Spelling(ts[0]), Render(ts[1..]));
      if ts[0].Block? {
        PlaceholderCut(ts[0].k, 1);
      } else {
        NoNul(Spelling(ts[0]));
      }
    }
  }

  lemma {:induction false} WholeIsEven(s: string, n: nat)
    ensures Whole(s, n) ==> NulCount(s) % 2 == 0
  {
    if Whole(s, n) { WholeEven(Tokens(s, n), n); }
  }

  /** A cut at `j` either leaves two whole texts, or it splits a placeholder, and then the left part holds an odd number
      of NULs; it never splits a placeholder just before white space. */
  ghost predicate CutAt(s: string, j: nat, n: nat)
    requires j <= |s|
  {
    || (Whole(s[..j], n) && Whole(s[j..], n))
    || (NulCount(s[..j]) % 2 == 1 && !Whole(s[..j], n) && j < |s| && !IsSpace(s[j]))
  }

  lemma {:induction false} CutNowhere(s: string, n: nat)
    requires Whole(s, n)
    ensures CutAt(s, 0, n)
  {
    assert s[..0] == Render([]) && s[0..] == s;
    assert Valid([], n);
  }

  lemma {:induction false} CutWithin(t: Token, rest: string, j: nat, n: nat)
    requires 0 < j < |Spelling(t)|
    ensures CutAt(Spelling(t) + rest, j, n)
  {
    var s := Spelling(t) + rest;
    assert s[..j] == Spelling(t)[..j] && s[j] == Spelling(t)[j];
    PlaceholderCut(t.k, j);
    if Whole(s[..j], n) { WholeEven(Tokens(s[..j], n), n); }
  }

  lemma {:induction false} SliceBeyond(head: string, rest: string, i: nat)
    requires i <= |rest|
    ensures (head + rest)[..|head| + i] == head + rest[..i] && (head + rest)[|head| + i..] == rest[i..]
    ensures i < |rest| ==> (head + rest)[|head| + i] == rest[i]
  {
  }

  lemma {:induction false} CutBeyond(t: Token, rest: string, j: nat, n: nat)
    requires Valid([t], n) && |Spelling(t)| <= j <= |Spelling(t)| + |rest| && CutAt(rest, j - |Spelling(t)|, n)
    ensures CutAt(Spelling(t) + rest, j, n)
  {
    var i := j - |Spelling(t)|;
    var left := rest[..i];
    SliceBeyond(Spelling(t), rest, i);
    if Whole(left, n) && Whole(rest[i..], n) {
      HeadWhole(t, left, n);
    } else {
      HeadParity(t, left, n);
      WholeIsEven(Spelling(t) + left, n);
    }
  }

  lemma {:induction false} CutStep(t: Token, rest: string, j: nat, n: nat)
    requires Valid([t], n) && 0 < j <= |Spelling(t)| + |rest|
    requires j >= |Spelling(t)| ==> CutAt(rest, j - |Spelling(t)|, n)
    ensures CutAt(Spelling(t) + rest, j, n)
  {
    if j < |Spelling(t)| {
      CutWithin(t, rest, j, n);
    } else {
      CutBeyond(t, rest, j, n);
    }
  }

  lemma {:induction false} Cut(ts: seq<Token>, j: nat, n: nat)
    requires Valid(ts, n) && j <= |Render(ts)|
    ensures CutAt(Render(ts), j, n)
  {
    if j == 0 {
      CutNowhere(Render(ts), n);
    } else {
      var head, rest := Spelling(ts[0]), Render(ts[1..]);
      assert ts == [ts[0]] + ts[1..];
      RenderCons(ts[0], ts[1..]);
      if j >= |head| { Cut(ts[1..], j - |head|, n); }
      CutStep(ts[0], rest, j, n);
    }
  }

  lemma {:induction false} TokenEven(t: Token, n: nat)
    requires Valid([t], n)
    ensures NulCount(Spelling(t)) % 2 == 0 && Whole(Spelling(t), n)
  {
    assert Render([t]) == Spelling(t);
    WholeEven([t], n);
  }

  lemma {:induction false} HeadParity(t: Token, left: string, n: nat)
    requires Valid([t], n)
    ensures NulCount(Spelling(t) + left) % 2 == NulCount(left) % 2
  {
    var a, x := NulCount(Spelling(t)), NulCount(left);
    TokenEven(t, n);
    ConcatParity(Spelling(t), left, Spelling(t) + left, a, x);
    AddParity(a, 0, x, x);
  }

  lemma {:induction false} HeadWhole(t: Token, left: string, n: nat)
    requires Valid([t], n) && Whole(left, n)
    ensures Whole(Spelling(t) + left, n)
  {
    TokenEven(t, n);
    WholeConcat(Spelling(t), left, n);
  }

  lemma {:induction false} CutWhole(s: string, j: nat, n: nat)
    requires Whole(s, n) && j <= |s|
    ensures CutAt(s, j, n)
  {
    Cut(Tokens(s, n), j, n);
  }

  lemma {:induction false} CutBeforeSpace(s: string, j: nat, n: nat)
    requires Whole(s, n) && j <= |s| && (j < |s| ==> IsSpace(s[j]))
    ensures Whole(s[..j], n) && Whole(s[j..], n)
  {
    CutWhole(s, j, n);
  }

  lemma {:induction false} CutAfterWhole(s: string, j: nat, n: nat)
    requires Whole(s, n) && j <= |s| && Whole(s[..j], n)
    ensures Whole(s[j..], n)
  {
    CutWhole(s, j, n);
  }

  lemma {:induction false} BlankWhole(s: string, n: nat)
    requires Blank(s)
    ensures Whole(s, n)
  {
    assert Valid([], n) && Render([]) == "";
    if s != "" {
      BlankWhole(s[1..], n);
      assert Render([Plain(s[0])]) == [s[0]] && Valid([Plain(s[0])], n);
      WholeConcat([s[0]], s[1..], n);
      assert s == [s[0]] + s[1..];
    }
  }

  lemma {:induction false} DropBlankFront(l: string, core: string, n: nat)
    requires Whole(l + core, n) && Blank(l)
    ensures Whole(core, n)
  {
    var s := l + core;
    assert s[..|l|] == l && s[|l|..] == core;
    BlankWhole(l, n);
    CutAfterWhole(s, |l|, n);
  }

  lemma {:induction false} DropBlankEnd(core: string, r: string, n: nat)
    requires Whole(core + r, n) && Blank(r)
    ensures Whole(core, n)
  {
    var s := core + r;
    assert s[..|core|] == core;
    assert r != "" ==> s[|core|] == r[0];
    CutBeforeSpace(s, |core|, n);
  }

  lemma {:induction false} StripWhole(s: string, n: nat)
    requires Whole(s, n)
    ensures Whole(Strip(s), n)
  {
    var l, r := StripShape(s);
    Associate(l, Strip(s), r);
    DropBlankFront(l, Strip(s) + r, n);
    DropBlankEnd(Strip(s), r, n);
  }

  // ---- erasing white space, token by token ----

  function EraseTokens(ts: seq<Token>): seq<Token> {
    if ts == [] then []
    else (if ts[0].Plain? && IsSpace(ts[0].c) then [] else [ts[0]]) + EraseTokens(ts[1..])
  }

  lemma {:induction false} EraseTokensConcat(a: seq<Token>, b: seq<Token>)
    ensures EraseTokens(a + b) == EraseTokens(a) + EraseTokens(b)
  {
    if a == [] {
      assert a + b == b;
    } else {
      EraseTokensConcat(a[1..], b);
      ConsAppend(a, b);
      Associate(if a[0].Plain? && IsSpace(a[0].c) then [] else [a[0]], EraseTokens(a[1..]), EraseTokens(b));
    }
  }

  lemma {:induction false} PlaceholderWord(k: nat)
    ensures IsWord(Placeholder(k))
  {
    forall j | 0 <= j < |Placeholder(k)| ensures !IsSpace(Placeholder(k)[j]) {
      if j > 0 { PlaceholderCut(k, j); }
    }
  }

  lemma {:induction false} PlaceholderSolid(k: nat)
    ensures Erase(Placeholder(k)) == Placeholder(k)
  {
    PlaceholderWord(k);
    EraseSolid(Placeholder(k));
  }

  lemma {:induction false} EraseRender(ts: seq<Token>, n: nat)
    requires Valid(ts, n)
    ensures Valid(EraseTokens(ts), n) && Render(EraseTokens(ts)) == Erase(Render(ts))
  {
    if ts != [] {
      EraseRender(ts[1..], n);
      EraseConcat(Spelling(ts[0]), Render(ts[1..]));
      var head := if ts[0].Plain? && IsSpace(ts[0].c) then [] else [ts[0]];
      RenderConcat(head, EraseTokens(ts[1..]));
      if ts[0].Block? { PlaceholderSolid(ts[0].k); }
      assert Render([ts[0]]) == Spelling(ts[0]);
      assert Render(head) == Erase(Spelling(ts[0]));
    }
  }

  /** The tokens of a list of whole chunks, white space erased. */
  ghost function TokensAll(cs: seq<string>, n: nat): seq<Token>
    requires forall c :: c in cs ==> Whole(c, n)
  {
    if cs == [] then [] else TokensAll(cs[..|cs| - 1], n) + EraseTokens(Tokens(cs[|cs| - 1], n))
  }

  lemma {:induction false} TokensAllRender(cs: seq<string>, n: nat)
    requires forall c :: c in cs ==> Whole(c, n)
    ensures Valid(TokensAll(cs, n), n) && Render(TokensAll(cs, n)) == EraseAll(cs)
  {
    if cs != [] {
      var front, last := cs[..|cs| - 1], cs[|cs| - 1];
      TokensAllRender(front, n);
      TokensAppend(TokensAll(front, n), front, last, n);
      assert cs == front + [last];
    }
  }

  lemma {:induction false} TokensAppend(ts: seq<Token>, front: seq<string>, last: string, n: nat)
    requires Whole(last, n) && Valid(ts, n) && Render(ts) == EraseAll(front)
    ensures var all := ts + EraseTokens(Tokens(last, n));
      Valid(all, n) && Render(all) == EraseAll(front + [last])
  {
    EraseRender(Tokens(last, n), n);
    RenderConcat(ts, EraseTokens(Tokens(last, n)));
    EraseAllAppend(front, last);
  }

  /** Chunks that lose only white space of a whole text hold exactly its tokens, in order. */
  lemma {:induction false} TokensAllOf(cs: seq<string>, s: string, n: nat)
    requires Whole(s, n) && (forall c :: c in cs ==> Whole(c, n)) && EraseAll(cs) == Erase(s)
    ensures TokensAll(cs, n) == EraseTokens(Tokens(s, n))
  {
    TokensAllRender(cs, n);
    EraseRender(Tokens(s, n), n);
    RenderInjective(TokensAll(cs, n), EraseTokens(Tokens(s, n)), n);
  }

  // ---- putting the code back ----

  /** Python's `s.replace(pat, sub)`: leftmost matches, not overlapping. */
  function Replace(s: string, pat: string, sub: string): string
    requires pat != ""
    decreases |s|
  {
    if s == "" then ""
    else if pat <= s then sub + Replace(s[|pat|..], pat, sub)
    else [s[0]] + Replace(s[1..], pat, sub)
  }

  function FillToken(t: Token, blocks: seq<string>, k: nat): string {
    if t.Block? && t.k < k && t.k < |blocks| then blocks[t.k] else Spelling(t)
  }

  /** The tokens with blocks `0..k` spelled as their code and the others still as placeholders. */
  function Fill(ts: seq<Token>, blocks: seq<string>, k: nat): string {
    if ts == [] then "" else FillToken(ts[0], blocks, k) + Fill(ts[1..], blocks, k)
  }

  lemma {:induction false} FillNone(ts: seq<Token>, blocks: seq<string>)
    ensures Fill(ts, blocks, 0) == Render(ts)
  {
    if ts != [] { FillNone(ts[1..], blocks); }
  }

  lemma {:induction false} FillConcat(a: seq<Token>, b: seq<Token>, blocks: seq<string>, k: nat)
    ensures Fill(a + b, blocks, k) == Fill(a, blocks, k) + Fill(b, blocks, k)
  {
    if a == [] {
      assert a + b == b;
    } else {
      FillConcat(a[1..], b, blocks, k);
      ConsAppend(a, b);
      Associate(FillToken(a[0], blocks, k), Fill(a[1..], blocks, k), Fill(b, blocks, k));
    }
  }

  lemma {:induction false} FillErase(ts: seq<Token>, blocks: seq<string>, k: nat)
    ensures Erase(Fill(EraseTokens(ts), blocks, k)) == Erase(Fill(ts, blocks, k))
  {
    if ts != [] {
      FillErase(ts[1..], blocks, k);
      var head := if ts[0].Plain? && IsSpace(ts[0].c) then [] else [ts[0]];
      FillConcat(head, EraseTokens(ts[1..]), blocks, k);
      FillConcat([ts[0]], ts[1..], blocks, k);
      assert [ts[0]] + ts[1..] == ts;
      EraseConcat(Fill(head, blocks, k), Fill(EraseTokens(ts[1..]), blocks, k));
      EraseConcat(Fill([ts[0]], blocks, k), Fill(ts[1..], blocks, k));
    }
  }

  /** The characters of the placeholder name, as plain tokens, right at the start of `ts`. */
  ghost predicate Spells(ts: seq<Token>) {
    |ts| >= |NAME| && forall m :: 0 <= m < |NAME| ==> ts[m] == Plain(NAME[m])
  }

  /** No placeholder is followed directly by the plain characters of the placeholder name. */
  ghost predicate Apart(ts: seq<Token>) {
    forall i :: 0 <= i < |ts| && ts[i].Block? ==> !Spells(ts[i + 1..])
  }

  lemma {:induction false} SpellsInfix(a: seq<Token>, b: seq<Token>, c: seq<Token>, i: nat)
    requires i < |b| && Spells(b[i + 1..])
    ensures Spells((a + b + c)[|a| + i + 1..])
  {
    var all := a + b + c;
    forall m | 0 <= m < |NAME| ensures all[|a| + i + 1..][m] == Plain(NAME[m]) {
      assert all[|a| + i + 1..][m] == b[i + 1..][m];
    }
  }

  lemma {:induction false} ApartInfix(a: seq<Token>, b: seq<Token>, c: seq<Token>)
    requires Apart(a + b + c)
    ensures Apart(b)
  {
    var all := a + b + c;
    forall i | 0 <= i < |b| && b[i].Block? ensures !Spells(b[i + 1..]) {
      assert all[|a| + i] == b[i];
      if Spells(b[i + 1..]) { SpellsInfix(a, b, c, i); }
    }
  }

  lemma {:induction false} SpellsErase(ts: seq<Token>, m: nat)
    requires m <= |ts| && forall x :: 0 <= x < m ==> ts[x].Plain? && !IsSpace(ts[x].c)
    ensures |EraseTokens(ts)| >= m && forall x :: 0 <= x < m ==> EraseTokens(ts)[x] == ts[x]
  {
    if m > 0 { SpellsErase(ts[1..], m - 1); }
  }

  lemma {:induction false} SpellsEraseName(ts: seq<Token>)
    requires Spells(ts)
    ensures Spells(EraseTokens(ts))
  {
    assert forall c :: c in NAME ==> !IsSpace(c);
    assert forall m :: 0 <= m < |NAME| ==> NAME[m] in NAME;
    SpellsErase(ts, |NAME|);
  }

  lemma {:induction false} EraseTokensAt(ts: seq<Token>, i: nat) returns (j: nat)
    requires i < |ts| && ts[i].Block?
    ensures var e := EraseTokens(ts); j < |e| && e[j] == ts[i] && e[j + 1..] == EraseTokens(ts[i + 1..])
  {
    var l, r := ts[..i], ts[i + 1..];
    assert ts == l + ([ts[i]] + r);
    EraseTokensConcat(l, [ts[i]] + r);
    assert ([ts[i]] + r)[1..] == r;
    j := |EraseTokens(l)|;
  }

  lemma {:induction false} ApartErase(ts: seq<Token>)
    requires Apart(EraseTokens(ts))
    ensures Apart(ts)
  {
    forall i | 0 <= i < |ts| && ts[i].Block? ensures !Spells(ts[i + 1..]) {
      var j := EraseTokensAt(ts, i);
      if Spells(ts[i + 1..]) { SpellsEraseName(ts[i + 1..]); }
    }
  }

  /** The code put in place of placeholders: NUL-free, starting with a back-tick. */
  ghost predicate Fenced(blocks: seq<string>) {
    forall i :: 0 <= i < |blocks| ==> blocks[i] != "" && blocks[i][0] == TICK && NUL !in blocks[i]
  }

  lemma {:induction false} ReplaceSkip(a: string, b: string, pat: string, sub: string)
    requires pat != "" && pat[0] == NUL && NUL !in a
    ensures Replace(a + b, pat, sub) == a + Replace(b, pat, sub)
  {
    if a == "" {
      assert a + b == b;
    } else {
      assert (a + b)[0] == a[0] && a[0] in a;
      ReplaceSkip(a[1..], b, pat, sub);
      assert (a + b)[1..] == a[1..] + b;
    }
  }

  /** The chunk after the first `k` replacements of the loop that restores code. */
  function Restored(s: string, blocks: seq<string>, k: nat): string
    requires k <= |blocks|
  {
    if k == 0 then s else Replace(Restored(s, blocks, k - 1), Placeholder(k - 1), blocks[k - 1])
  }

  /** The two texts hold an even number of NULs together or an odd number both. */
  ghost predicate SameParity(s: string, t: string) {
    NulCount(s) % 2 == NulCount(t) % 2
  }

  lemma {:induction false} AddParity(a: nat, b: nat, x: nat, y: nat)
    requires a % 2 == b % 2 && x % 2 == y % 2
    ensures (a + x) % 2 == (b + y) % 2
  {
  }

  lemma {:induction false} ConcatParity(head: string, tail: string, whole: string, a: nat, x: nat)
    requires whole == head + tail && a == NulCount(head) && x == NulCount(tail)
    ensures NulCount(whole) == a + x
  {
    NulCountConcat(head, tail);
  }

  lemma {:induction false} SwapParity(head: string, tail: string, whole: string, head': string, tail': string,
                                      whole': string)
    requires whole == head + tail && whole' == head' + tail'
    requires SameParity(head, head') && SameParity(tail, tail')
    ensures SameParity(whole, whole')
  {
    var a, b, x, y := NulCount(head), NulCount(head'), NulCount(tail), NulCount(tail');
    ConcatParity(head, tail, whole, a, x);
    ConcatParity(head', tail', whole', b, y);
    AddParity(a, b, x, y);
  }

  /** Every replacement removes two NULs, so a chunk with a broken placeholder keeps one for ever. */
  lemma {:induction false} ReplaceParity(s: string, pat: string, sub: string)
    requires pat != "" && NulCount(pat) == 2 && NulCount(sub) == 0
    ensures SameParity(s, Replace(s, pat, sub))
    decreases |s|
  {
    if s == "" {
    } else if pat <= s {
      ReplaceParity(s[|pat|..], pat, sub);
      assert s == pat + s[|pat|..];
      SwapParity(pat, s[|pat|..], s, sub, Replace(s[|pat|..], pat, sub), Replace(s, pat, sub));
    } else {
      ReplaceParity(s[1..], pat, sub);
      assert s == [s[0]] + s[1..];
      SwapParity([s[0]], s[1..], s, [s[0]], Replace(s[1..], pat, sub), Replace(s, pat, sub));
    }
  }

  lemma {:induction false} RestoreParity(s: string, blocks: seq<string>, k: nat)
    requires k <= |blocks| && Fenced(blocks)
    ensures NulCount(Restored(s, blocks, k)) % 2 == NulCount(s) % 2
  {
    if k > 0 {
      RestoreParity(s, blocks, k - 1);
      PlaceholderCut(k - 1, 1);
      NoNul(blocks[k - 1]);
      ReplaceParity(Restored(s, blocks, k - 1), Placeholder(k - 1), blocks[k - 1]);
    }
  }
}
