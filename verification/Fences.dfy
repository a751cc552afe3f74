/** Finding fenced code and replacing it by placeholders: `re.sub` with the pattern of three back-ticks,
    anything, three back-ticks, the inner part as short as possible. */
module Fences {
  import opened Text
  import opened Placeholders

  predicate TicksAt(s: string, i: nat) {
    i + 3 <= |s| && s[i] == TICK && s[i + 1] == TICK && s[i + 2] == TICK
  }

  /** The first position from `i` on that holds three back-ticks, or -1. */
  function NextTicks(s: string, i: nat): (r: int)
    ensures r == -1 || (i <= r && TicksAt(s, r))
    decreases |s| - i
  {
    if i >= |s| then -1 else if TicksAt(s, i) then i else NextTicks(s, i + 1)
  }

  /** It is the first one: the inner part of a block is as short as possible. */
  lemma {:induction false} NextTicksFirst(s: string, i: nat, j: nat)
    requires i <= j && TicksAt(s, j)
    ensures i <= NextTicks(s, i) <= j
    decreases |s| - i
  {
    if !TicksAt(s, i) { NextTicksFirst(s, i + 1, j); }
  }

  /** Length of the fenced block that starts at `i`; 0 when none does. */
  function FenceLength(s: string, i: nat): (n: nat)
    ensures n > 0 ==> n >= 6 && i + n <= |s| && TicksAt(s, i) && TicksAt(s, i + n - 3)
  {
    if TicksAt(s, i) && NextTicks(s, i + 3) >= 0 then NextTicks(s, i + 3) + 3 - i else 0
  }

  /** Three back-ticks, later three more, and none that end in between. */
  ghost predicate IsFence(s: string, i: nat, n: nat) {
    && n >= 6 && TicksAt(s, i) && TicksAt(s, i + n - 3)
    && forall y :: i + 3 <= y < i + n - 3 ==> !TicksAt(s, y)
  }

  lemma {:induction false} FenceLengthIs(s: string, i: nat, n: nat)
    requires n > 0
    ensures FenceLength(s, i) == n <==> IsFence(s, i, n)
  {
    if FenceLength(s, i) == n {
      forall y | i + 3 <= y < i + n - 3 ensures !TicksAt(s, y) {
        if TicksAt(s, y) { NextTicksFirst(s, i + 3, y); }
      }
    }
    if IsFence(s, i, n) { NextTicksFirst(s, i + 3, i + n - 3); }
  }

  /** The fenced blocks from position `i` on, in order. */
  function CodeBlocks(s: string, i: nat): seq<string>
    requires i <= |s|
    decreases |s| - i
  {
    if i == |s| then []
    else if FenceLength(s, i) > 0 then [s[i..i + FenceLength(s, i)]] + CodeBlocks(s, i + FenceLength(s, i))
    else CodeBlocks(s, i + 1)
  }

  /** The text from `i` on with its fenced blocks numbered from `idx`. */
  function Shield(s: string, i: nat, idx: nat): seq<Token>
    requires i <= |s|
    decreases |s| - i
  {
    if i == |s| then []
    else if FenceLength(s, i) > 0 then [Block(idx)] + Shield(s, i + FenceLength(s, i), idx + 1)
    else [Plain(s[i])] + Shield(s, i + 1, idx)
  }

  /** The text that is split: every fenced block replaced by its placeholder. */
  function Protected(s: string): string {
    Render(Shield(s, 0, 0))
  }

  lemma {:induction false} FencedCons(s: string, i: nat, n: nat, rest: seq<string>)
    requires NUL !in s && 6 <= n && i + n <= |s| && TicksAt(s, i) && Fenced(rest)
    ensures Fenced([s[i..i + n]] + rest)
  {
    var b := s[i..i + n];
    forall j | 0 <= j < n ensures b[j] == s[i + j] && b[j] != NUL {
      assert s[i + j] in s;
    }
  }

  lemma {:induction false} FencesFenced(s: string, i: nat)
    requires i <= |s| && NUL !in s
    ensures Fenced(CodeBlocks(s, i))
    decreases |s| - i
  {
    if i < |s| {
      var n := FenceLength(s, i);
      if n > 0 {
        FencesFenced(s, i + n);
        FencedCons(s, i, n, CodeBlocks(s, i + n));
      } else {
        FencesFenced(s, i + 1);
      }
    }
  }

  ghost predicate EndInTicks(blocks: seq<string>) {
    forall i :: 0 <= i < |blocks| ==> blocks[i] != "" && blocks[i][|blocks[i]| - 1] == TICK
  }

  lemma {:induction false} EndCons(s: string, i: nat, n: nat, rest: seq<string>)
    requires 6 <= n && i + n <= |s| && TicksAt(s, i + n - 3) && EndInTicks(rest)
    ensures EndInTicks([s[i..i + n]] + rest)
  {
    assert s[i..i + n][n - 1] == s[i + n - 1];
  }

  lemma {:induction false} FencesEnd(s: string, i: nat)
    requires i <= |s|
    ensures EndInTicks(CodeBlocks(s, i))
    decreases |s| - i
  {
    if i < |s| {
      var n := FenceLength(s, i);
      if n > 0 {
        FencesEnd(s, i + n);
        EndCons(s, i, n, CodeBlocks(s, i + n));
      } else {
        FencesEnd(s, i + 1);
      }
    }
  }

  lemma {:induction false} FillCons(t: Token, ts: seq<Token>, blocks: seq<string>)
    requires t.Block? ==> t.k < |blocks|
    ensures Fill([t] + ts, blocks, |blocks|) == (if t.Plain? then [t.c] else blocks[t.k]) + Fill(ts, blocks, |blocks|)
  {
    assert ([t] + ts)[1..] == ts;
  }

  ghost predicate HasBlocks(ts: seq<Token>, idx: nat, n: nat) {
    Valid(ts, n) && forall k :: idx <= k < n ==> Block(k) in ts
  }

  lemma {:induction false} BlockCons(ts: seq<Token>, idx: nat, n: nat)
    requires idx < n && HasBlocks(ts, idx + 1, n)
    ensures HasBlocks([Block(idx)] + ts, idx, n)
  {
  }

  lemma {:induction false} PlainCons(ts: seq<Token>, c: char, idx: nat, n: nat)
    requires c != NUL && HasBlocks(ts, idx, n)
    ensures HasBlocks([Plain(c)] + ts, idx, n)
  {
  }

  /** Every number has its placeholder. */
  lemma {:induction false} ShieldBlocks(s: string, i: nat, idx: nat, n: nat)
    requires i <= |s| && NUL !in s && n == idx + |CodeBlocks(s, i)|
    ensures HasBlocks(Shield(s, i, idx), idx, n)
    decreases |s| - i
  {
    if i == |s| {
    } else if FenceLength(s, i) > 0 {
      ShieldBlocks(s, i + FenceLength(s, i), idx + 1, n);
      BlockCons(Shield(s, i + FenceLength(s, i), idx + 1), idx, n);
    } else {
      ShieldBlocks(s, i + 1, idx, n);
      assert s[i] in s;
      PlainCons(Shield(s, i + 1, idx), s[i], idx, n);
    }
  }

  /** The numbers of the placeholders, in order. */
  function Numbers(ts: seq<Token>): seq<nat> {
    if ts == [] then [] else (if ts[0].Block? then [ts[0].k] else []) + Numbers(ts[1..])
  }

  predicate CountsFrom(ns: seq<nat>, idx: nat, n: nat) {
    |ns| == n && forall m :: 0 <= m < n ==> ns[m] == idx + m
  }

  lemma {:induction false} CountsCons(ns: seq<nat>, idx: nat, n: nat)
    requires CountsFrom(ns, idx + 1, n)
    ensures CountsFrom([idx] + ns, idx, n + 1)
  {
  }

  lemma {:induction false} NumbersCons(t: Token, ts: seq<Token>)
    ensures Numbers([t] + ts) == if t.Block? then [t.k] + Numbers(ts) else Numbers(ts)
  {
    assert ([t] + ts)[1..] == ts;
    NothingBefore(Numbers(ts));
  }

  /** There is exactly one placeholder for each block, and they are numbered in the order of the blocks. */
  lemma {:induction false} ShieldNumbers(s: string, i: nat, idx: nat)
    requires i <= |s|
    ensures CountsFrom(Numbers(Shield(s, i, idx)), idx, |CodeBlocks(s, i)|)
    decreases |s| - i
  {
    if i == |s| {
    } else if FenceLength(s, i) > 0 {
      var j := i + FenceLength(s, i);
      ShieldNumbers(s, j, idx + 1);
      NumbersCons(Block(idx), Shield(s, j, idx + 1));
      CountsCons(Numbers(Shield(s, j, idx + 1)), idx, |CodeBlocks(s, j)|);
      CountsHere(Numbers([Block(idx)] + Shield(s, j, idx + 1)), idx, s[i..j], CodeBlocks(s, j));
      ShieldFence(s, i, idx);
    } else {
      ShieldNumbers(s, i + 1, idx);
      NumbersCons(Plain(s[i]), Shield(s, i + 1, idx));
      ShieldChar(s, i, idx);
    }
  }

  lemma {:induction false} CountsHere(ns: seq<nat>, idx: nat, block: string, rest: seq<string>)
    requires CountsFrom(ns, idx, |rest| + 1)
    ensures CountsFrom(ns, idx, |[block] + rest|)
  {
  }

  lemma {:induction false} ShieldFence(s: string, i: nat, idx: nat)
    requires i < |s| && FenceLength(s, i) > 0
    ensures var j := i + FenceLength(s, i);
      Shield(s, i, idx) == [Block(idx)] + Shield(s, j, idx + 1) && CodeBlocks(s, i) == [s[i..j]] + CodeBlocks(s, j)
  {
  }

  lemma {:induction false} ShieldChar(s: string, i: nat, idx: nat)
    requires i < |s| && FenceLength(s, i) == 0
    ensures Shield(s, i, idx) == [Plain(s[i])] + Shield(s, i + 1, idx) && CodeBlocks(s, i) == CodeBlocks(s, i + 1)
  {
  }

  function Plains(s: string): seq<Token> {
    seq(|s|, i requires 0 <= i < |s| => Plain(s[i]))
  }

  /** The next fence in the text is the next block, and the text before it stays as it is. */
  lemma {:induction false} NextFence(s: string, i: nat, a: nat, n: nat, idx: nat)
    requires i <= a && IsFence(s, a, n) && forall y :: i <= y < a ==> !TicksAt(s, y)
    ensures CodeBlocks(s, i) == [s[a..a + n]] + CodeBlocks(s, a + n)
    ensures Shield(s, i, idx) == Plains(s[i..a]) + [Block(idx)] + Shield(s, a + n, idx + 1)
    decreases a - i
  {
    if i == a {
      FenceLengthIs(s, a, n);
      ShieldFence(s, a, idx);
      assert Plains(s[i..a]) + [Block(idx)] == [Block(idx)];
    } else {
      ShieldChar(s, i, idx);
      NextFence(s, i + 1, a, n, idx);
      assert Plains(s[i..a]) == [Plain(s[i])] + Plains(s[i + 1..a]);
      Associate([Plain(s[i])], Plains(s[i + 1..a]) + [Block(idx)], Shield(s, a + n, idx + 1));
      Associate([Plain(s[i])], Plains(s[i + 1..a]), [Block(idx)]);
    }
  }

  /** Where no fence is left, there is no further block. */
  lemma {:induction false} NoFenceLeft(s: string, i: nat, idx: nat)
    requires i <= |s| && forall a, n :: i <= a ==> !IsFence(s, a, n)
    ensures CodeBlocks(s, i) == [] && Shield(s, i, idx) == Plains(s[i..])
    decreases |s| - i
  {
    if i < |s| {
      if FenceLength(s, i) > 0 { FenceLengthIs(s, i, FenceLength(s, i)); }
      ShieldChar(s, i, idx);
      NoFenceLeft(s, i + 1, idx);
      assert Plains(s[i..]) == [Plain(s[i])] + Plains(s[i + 1..]);
    }
  }

  lemma {:induction false} FillsFence(s: string, i: nat, idx: nat, blocks: seq<string>, n: nat, rest: seq<Token>)
    requires i + n <= |s| && idx < |blocks| && blocks[idx] == s[i..i + n] && Fill(rest, blocks, |blocks|) == s[i + n..]
    ensures Fill([Block(idx)] + rest, blocks, |blocks|) == s[i..]
  {
    FillCons(Block(idx), rest, blocks);
    SplitAt(s, i, i + n);
  }

  lemma {:induction false} FillsPlain(s: string, i: nat, blocks: seq<string>, rest: seq<Token>)
    requires i < |s| && Fill(rest, blocks, |blocks|) == s[i + 1..]
    ensures Fill([Plain(s[i])] + rest, blocks, |blocks|) == s[i..]
  {
    FillCons(Plain(s[i]), rest, blocks);
    SplitAt(s, i, i + 1);
    Single(s, i);
  }

  /** Filling every placeholder with its block gives the original text back. */
  lemma {:induction false} ShieldFills(s: string, i: nat, idx: nat, blocks: seq<string>)
    requires i <= |s| && idx <= |blocks| && blocks[idx..] == CodeBlocks(s, i)
    ensures Fill(Shield(s, i, idx), blocks, |blocks|) == s[i..]
    decreases |s| - i
  {
    if i == |s| {
    } else if FenceLength(s, i) > 0 {
      var n := FenceLength(s, i);
      FenceHead(s, i, idx, blocks);
      ShieldFills(s, i + n, idx + 1, blocks);
      FillsFence(s, i, idx, blocks, n, Shield(s, i + n, idx + 1));
    } else {
      ShieldFills(s, i + 1, idx, blocks);
      FillsPlain(s, i, blocks, Shield(s, i + 1, idx));
    }
  }

  lemma {:induction false} FenceHead(s: string, i: nat, idx: nat, blocks: seq<string>)
    requires i < |s| && FenceLength(s, i) > 0 && idx <= |blocks| && blocks[idx..] == CodeBlocks(s, i)
    ensures idx < |blocks| && blocks[idx] == s[i..i + FenceLength(s, i)]
    ensures blocks[idx + 1..] == CodeBlocks(s, i + FenceLength(s, i))
  {
    assert blocks[idx] == blocks[idx..][0];
    assert blocks[idx + 1..] == blocks[idx..][1..];
  }

  lemma {:induction false} ShieldPlain(s: string, i: nat, idx: nat)
    requires i <= |s| && CodeBlocks(s, i) == []
    ensures Render(Shield(s, i, idx)) == s[i..]
    decreases |s| - i
  {
    if i < |s| {
      ShieldPlain(s, i + 1, idx);
      assert s[i..] == [s[i]] + s[i + 1..];
    }
  }

  lemma {:induction false} EraseTokensCons(t: Token, ts: seq<Token>)
    ensures EraseTokens([t] + ts) == (if t.Plain? && IsSpace(t.c) then [] else [t]) + EraseTokens(ts)
  {
    assert ([t] + ts)[1..] == ts;
  }

  /** Plain tokens at the start of the protected text are characters at the start of the text. */
  lemma {:induction false} ShieldPrefix(s: string, i: nat, idx: nat, m: nat)
    requires i <= |s|
    requires var e := EraseTokens(Shield(s, i, idx)); m <= |e| && forall x :: 0 <= x < m ==> e[x].Plain?
    ensures var e := EraseTokens(Shield(s, i, idx));
      m <= |Erase(s[i..])| && forall x :: 0 <= x < m ==> e[x].c == Erase(s[i..])[x]
    decreases |s| - i
  {
    if m == 0 {
    } else if FenceLength(s, i) == 0 {
      var rest := Shield(s, i + 1, idx);
      ShieldChar(s, i, idx);
      EraseTokensCons(Plain(s[i]), rest);
      assert s[i..][0] == s[i] && s[i..][1..] == s[i + 1..];
      if IsSpace(s[i]) {
        NothingBefore(EraseTokens(rest));
        NothingBefore(Erase(s[i + 1..]));
        ShieldPrefix(s, i + 1, idx, m);
      } else {
        PlainsTail(s[i], EraseTokens(rest), m);
        ShieldPrefix(s, i + 1, idx, m - 1);
        PlainsGrow(s[i], EraseTokens(rest), Erase(s[i + 1..]), m);
      }
    } else {
      ShieldFence(s, i, idx);
      EraseTokensCons(Block(idx), Shield(s, i + FenceLength(s, i), idx + 1));
      BlockFirst(idx, EraseTokens(Shield(s, i + FenceLength(s, i), idx + 1)), m);
    }
  }

  lemma {:induction false} BlockFirst(k: nat, e: seq<Token>, m: nat)
    requires m <= |e| + 1 && forall x :: 0 <= x < m ==> ([Block(k)] + e)[x].Plain?
    ensures m == 0
  {
    assert ([Block(k)] + e)[0] == Block(k);
  }

  lemma {:induction false} PlainsTail(c: char, e: seq<Token>, m: nat)
    requires 0 < m <= |e| + 1 && forall x :: 0 <= x < m ==> ([Plain(c)] + e)[x].Plain?
    ensures forall x :: 0 <= x < m - 1 ==> e[x].Plain?
  {
    assert forall x :: 0 <= x < m - 1 ==> e[x] == ([Plain(c)] + e)[x + 1];
  }

  lemma {:induction false} PlainsGrow(c: char, e: seq<Token>, t: string, m: nat)
    requires 0 < m <= |e| + 1 && m <= |t| + 1 && forall x :: 0 <= x < m - 1 ==> e[x].Plain? && e[x].c == t[x]
    ensures forall x :: 0 <= x < m ==> ([Plain(c)] + e)[x].Plain? && ([Plain(c)] + e)[x].c == ([c] + t)[x]
  {
  }

  ghost predicate Nameless(s: string) {
    !Contains(Erase(s), NAME)
  }

  lemma {:induction false} NamelessSuffix(s: string, i: nat)
    requires i <= |s| && Nameless(s)
    ensures Nameless(s[i..])
  {
    EraseConcat(s[..i], s[i..]);
    assert s[..i] + s[i..] == s;
    ContainsSuffix(Erase(s[..i]), Erase(s[i..]), NAME);
  }

  lemma {:induction false} SpelledInText(s: string, i: nat, idx: nat)
    requires i <= |s|
    ensures Spells(EraseTokens(Shield(s, i, idx))) ==> Contains(Erase(s[i..]), NAME)
  {
    if Spells(EraseTokens(Shield(s, i, idx))) {
      ShieldPrefix(s, i, idx, |NAME|);
      assert NAME <= Erase(s[i..])[0..];
    }
  }

  /** The first token of the protected text and what follows it. */
  lemma {:induction false} ShieldHead(s: string, i: nat, idx: nat) returns (t: Token, j: nat, idx': nat)
    requires i < |s|
    ensures i < j <= |s| && Shield(s, i, idx) == [t] + Shield(s, j, idx')
  {
    if FenceLength(s, i) > 0 {
      t, j, idx' := Block(idx), i + FenceLength(s, i), idx + 1;
      ShieldFence(s, i, idx);
    } else {
      t, j, idx' := Plain(s[i]), i + 1, idx;
      ShieldChar(s, i, idx);
    }
  }

  lemma {:induction false} ShieldApart(s: string, i: nat, idx: nat)
    requires i <= |s| && Nameless(s)
    ensures Apart(EraseTokens(Shield(s, i, idx)))
    decreases |s| - i
  {
    if i < |s| {
      var t, j, idx' := ShieldHead(s, i, idx);
      ShieldApart(s, j, idx');
      NamelessSuffix(s, j);
      SpelledInText(s, j, idx');
      ApartCons(t, EraseTokens(Shield(s, j, idx')));
      EraseTokensCons(t, Shield(s, j, idx'));
    }
  }

  lemma {:induction false} ApartCons(t: Token, ts: seq<Token>)
    requires Apart(ts) && !Spells(ts)
    ensures Apart([t] + ts) && Apart([] + ts)
  {
    assert [] + ts == ts;
    forall i | 0 <= i < |[t] + ts| && ([t] + ts)[i].Block? ensures !Spells(([t] + ts)[i + 1..]) {
      TailCons(t, ts, i);
      if i > 0 { assert ts[i - 1].Block? && !Spells(ts[i - 1 + 1..]); }
    }
  }

  lemma {:induction false} TailCons(t: Token, ts: seq<Token>, i: nat)
    requires i <= |ts|
    ensures ([t] + ts)[i + 1..] == ts[i..] && ts[0..] == ts
  {
  }
}
