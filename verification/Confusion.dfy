/** When putting code back goes wrong although no placeholder was cut: the end of one placeholder, the name with a
    number, and the start of another one read like a placeholder between the two. */
module Confusion {
  import opened Text
  import opened Placeholders

  /** `rest` starts with the name and the number `k`, as plain characters, and then a placeholder that is still there
      when block `k` is put back. */
  ghost predicate LooksLike(rest: seq<Token>, k: nat) {
    Spelt(rest, NAME + Decimal(k), k)
  }

  ghost predicate Spelt(rest: seq<Token>, name: string, k: nat) {
    && |rest| > |name| && (forall m :: 0 <= m < |name| ==> rest[m] == Plain(name[m]))
    && rest[|name|].Block? && rest[|name|].k >= k
  }

  /** After a placeholder that outlives block `k` comes what looks like the placeholder of block `k`. */
  ghost predicate ConfusedAt(ts: seq<Token>, i: nat, k: nat) {
    i < |ts| && ts[i].Block? && k < ts[i].k && LooksLike(ts[i + 1..], k)
  }

  ghost predicate ClearOf(ts: seq<Token>, k: nat) {
    forall i: nat :: !ConfusedAt(ts, i, k)
  }

  ghost predicate Clear(ts: seq<Token>) {
    forall k: nat :: ClearOf(ts, k)
  }

  // ---- what looks like a placeholder ----

  lemma {:induction false} SpeltAhead(ts: seq<Token>, blocks: seq<string>, name: string, k: nat)
    requires Fenced(blocks) && Valid(ts, |blocks|) && NUL !in name && TICK !in name
    ensures name + [NUL] <= Fill(ts, blocks, k) <==> Spelt(ts, name, k)
    decreases |name|
  {
    if name == "" {
      EndAhead(ts, blocks, k);
    } else if ts != [] {
      SpeltAhead(ts[1..], blocks, name[1..], k);
      SpeltNext(ts, blocks, name, k);
    }
  }

  lemma {:induction false} EndAhead(ts: seq<Token>, blocks: seq<string>, k: nat)
    requires Fenced(blocks) && Valid(ts, |blocks|)
    ensures "" + [NUL] <= Fill(ts, blocks, k) <==> Spelt(ts, "", k)
  {
    if ts != [] {
      FirstOfFill(ts, blocks, k);
      assert ("" + [NUL])[0] == NUL;
    }
  }

  /** The first character that the tokens fill in. */
  lemma {:induction false} FirstOfFill(ts: seq<Token>, blocks: seq<string>, k: nat)
    requires Fenced(blocks) && Valid(ts, |blocks|) && ts != []
    ensures var s := Fill(ts, blocks, k);
      s != "" && s[0] == if ts[0].Plain? then ts[0].c else if ts[0].k < k then TICK else NUL
  {
  }

  lemma {:induction false} SpeltNext(ts: seq<Token>, blocks: seq<string>, name: string, k: nat)
    requires Fenced(blocks) && Valid(ts, |blocks|) && ts != [] && name != "" && NUL !in name && TICK !in name
    requires name[1..] + [NUL] <= Fill(ts[1..], blocks, k) <==> Spelt(ts[1..], name[1..], k)
    ensures name + [NUL] <= Fill(ts, blocks, k) <==> Spelt(ts, name, k)
  {
    var s, pat := Fill(ts, blocks, k), name + [NUL];
    FirstOfFill(ts, blocks, k);
    assert pat[0] == name[0] && name[0] in name && pat[1..] == name[1..] + [NUL];
    if ts[0] == Plain(name[0]) {
      assert s[1..] == Fill(ts[1..], blocks, k);
      PrefixTail(pat, s);
      SpeltTail(ts, name, k);
    }
  }

  lemma {:induction false} PrefixTail(pat: string, s: string)
    requires pat != "" && s != "" && pat[0] == s[0]
    ensures pat <= s <==> pat[1..] <= s[1..]
  {
    if pat[1..] <= s[1..] {
      assert forall i :: 0 <= i < |pat| - 1 ==> pat[i + 1] == pat[1..][i] == s[1..][i] == s[i + 1];
    }
  }

  lemma {:induction false} SpeltTail(ts: seq<Token>, name: string, k: nat)
    requires ts != [] && name != "" && ts[0] == Plain(name[0])
    ensures Spelt(ts, name, k) <==> Spelt(ts[1..], name[1..], k)
  {
    if Spelt(ts[1..], name[1..], k) {
      assert forall m :: 0 <= m < |name| - 1 ==> ts[m + 1] == ts[1..][m] == Plain(name[1..][m]);
    }
  }

  lemma {:induction false} NameClean(k: nat)
    ensures NUL !in NAME + Decimal(k) && TICK !in NAME + Decimal(k)
  {
    BodySolid(k);
    forall c | c in NAME + Decimal(k) ensures c != TICK {
      if c !in NAME { assert IsDigit(c); }
    }
  }

  /** Between two placeholders stands what looks like a third exactly when the text reads like it. */
  lemma {:induction false} LooksAhead(ts: seq<Token>, blocks: seq<string>, k: nat)
    requires Fenced(blocks) && Valid(ts, |blocks|)
    ensures Placeholder(k) <= [NUL] + Fill(ts, blocks, k) <==> LooksLike(ts, k)
  {
    var name := NAME + Decimal(k);
    NameClean(k);
    SpeltAhead(ts, blocks, name, k);
    assert Placeholder(k)[1..] == name + [NUL] && ([NUL] + Fill(ts, blocks, k))[1..] == Fill(ts, blocks, k);
    PrefixTail(Placeholder(k), [NUL] + Fill(ts, blocks, k));
  }

  // ---- without confusion ----

  lemma {:induction false} SkipOther(j: nat, k: nat, tail: string, sub: string)
    requires j != k && !(Placeholder(k) <= [NUL] + tail)
    ensures Replace(Placeholder(j) + tail, Placeholder(k), sub) == Placeholder(j) + Replace(tail, Placeholder(k), sub)
  {
    var pat, body, s := Placeholder(k), NAME + Decimal(j), Placeholder(j) + tail;
    if pat <= s { PlaceholderPrefixFree(j, k, s); }
    assert s[1..] == body + ([NUL] + tail);
    NameClean(j);
    ReplaceSkip(body, [NUL] + tail, pat, sub);
    assert ([NUL] + tail)[1..] == tail;
    Bracket(body, Replace(tail, pat, sub));
  }

  lemma {:induction false} Bracket(body: string, tail: string)
    ensures [NUL] + (body + ([NUL] + tail)) == [NUL] + body + [NUL] + tail
  {
  }

  lemma {:induction false} ClearTail(ts: seq<Token>, k: nat)
    requires ts != [] && ClearOf(ts, k)
    ensures ClearOf(ts[1..], k)
  {
    forall i: nat ensures !ConfusedAt(ts[1..], i, k) {
      if i < |ts| - 1 {
        assert ts[1..][i + 1..] == ts[i + 1 + 1..];
        assert !ConfusedAt(ts, i + 1, k);
      }
    }
  }

  /** One replacement fills in exactly its own block. */
  lemma {:induction false} ReplaceFills(ts: seq<Token>, blocks: seq<string>, k: nat)
    requires k < |blocks| && Fenced(blocks) && Valid(ts, |blocks|) && ClearOf(ts, k)
    ensures Replace(Fill(ts, blocks, k), Placeholder(k), blocks[k]) == Fill(ts, blocks, k + 1)
  {
    if ts != [] {
      ClearTail(ts, k);
      ReplaceFills(ts[1..], blocks, k);
      ReplaceFirst(ts, blocks, k);
    }
  }

  lemma {:induction false} ReplaceFirst(ts: seq<Token>, blocks: seq<string>, k: nat)
    requires k < |blocks| && Fenced(blocks) && Valid(ts, |blocks|) && ClearOf(ts, k) && ts != []
    requires Replace(Fill(ts[1..], blocks, k), Placeholder(k), blocks[k]) == Fill(ts[1..], blocks, k + 1)
    ensures Replace(Fill(ts, blocks, k), Placeholder(k), blocks[k]) == Fill(ts, blocks, k + 1)
  {
    var pat, tail := Placeholder(k), Fill(ts[1..], blocks, k);
    match ts[0] {
      case Plain(c) =>
        ReplaceSkip([c], tail, pat, blocks[k]);
      case Block(j) =>
        if j < k {
          ReplaceSkip(blocks[j], tail, pat, blocks[k]);
        } else if j == k {
          assert (pat + tail)[|pat|..] == tail;
        } else {
          assert !ConfusedAt(ts, 0, k);
          LooksAhead(ts[1..], blocks, k);
          SkipOther(j, k, tail, blocks[k]);
        }
    }
  }

  /** As long as none of the first `k` blocks is confused, the replacements do what they should. */
  lemma {:induction false} RestoreFills(ts: seq<Token>, blocks: seq<string>, k: nat)
    requires k <= |blocks| && Fenced(blocks) && Valid(ts, |blocks|) && forall j: nat :: j < k ==> ClearOf(ts, j)
    ensures Restored(Render(ts), blocks, k) == Fill(ts, blocks, k)
  {
    if k == 0 {
      FillNone(ts, blocks);
    } else {
      RestoreFills(ts, blocks, k - 1);
      ReplaceFills(ts, blocks, k - 1);
    }
  }

  // ---- with confusion: a back-tick stays between the NULs of one placeholder ----

  predicate OddNuls(s: string) {
    NulCount(s) % 2 == 1
  }

  /** Some back-tick has an odd number of NULs before it, `odd` of them in front of `s`. */
  predicate Stuck(s: string, odd: bool) {
    s != "" && ((odd && s[0] == TICK) || Stuck(s[1..], odd != (s[0] == NUL)))
  }

  lemma {:induction false} StuckAfter(a: string, b: string, odd: bool)
    requires Stuck(b, odd != OddNuls(a))
    ensures Stuck(a + b, odd)
  {
    if a == "" {
      assert a + b == b;
    } else {
      StuckAfter(a[1..], b, odd != (a[0] == NUL));
      assert (a + b)[1..] == a[1..] + b;
    }
  }

  lemma {:induction false} StuckBehind(a: string, b: string, odd: bool)
    requires TICK !in a && Stuck(a + b, odd)
    ensures Stuck(b, odd != OddNuls(a))
  {
    if a == "" {
      assert a + b == b;
    } else {
      assert (a + b)[0] == a[0] && a[0] in a && (a + b)[1..] == a[1..] + b;
      StuckBehind(a[1..], b, odd != (a[0] == NUL));
    }
  }

  /** No replacement frees it. */
  lemma {:induction false} ReplaceStuck(s: string, pat: string, sub: string, odd: bool)
    requires pat != "" && NulCount(pat) == 2 && TICK !in pat && NUL !in sub && Stuck(s, odd)
    ensures Stuck(Replace(s, pat, sub), odd)
    decreases |s|
  {
    if pat <= s {
      assert s == pat + s[|pat|..];
      StuckBehind(pat, s[|pat|..], odd);
      ReplaceStuck(s[|pat|..], pat, sub, odd);
      NoNul(sub);
      StuckAfter(sub, Replace(s[|pat|..], pat, sub), odd);
    } else {
      var rest := Replace(s[1..], pat, sub);
      assert ([s[0]] + rest)[1..] == rest;
      if !(odd && s[0] == TICK) { ReplaceStuck(s[1..], pat, sub, odd != (s[0] == NUL)); }
    }
  }

  lemma {:induction false} StuckHasNul(s: string, odd: bool)
    requires Stuck(s, odd) && !odd
    ensures NUL in s
  {
    if s[0] != NUL { StuckHasNul(s[1..], odd); }
  }

  lemma {:induction false} RestoreStuck(s: string, blocks: seq<string>, k: nat, n: nat)
    requires k <= n <= |blocks| && Fenced(blocks) && Stuck(Restored(s, blocks, k), false)
    ensures Stuck(Restored(s, blocks, n), false)
  {
    if k < n {
      RestoreStuck(s, blocks, k, n - 1);
      PlaceholderCut(n - 1, 1);
      NameClean(n - 1);
      ReplaceStuck(Restored(s, blocks, n - 1), Placeholder(n - 1), blocks[n - 1], false);
    }
  }

  // ---- a replacement in the middle ----

  /** No match starts in `a` and ends after it. */
  ghost predicate NoneAcross(a: string, b: string, pat: string) {
    forall i :: 0 <= i < |a| && i + |pat| > |a| ==> !(pat <= (a + b)[i..])
  }

  lemma {:induction false} ReplaceAt(a: string, b: string, pat: string, sub: string)
    requires pat != "" && pat <= b && NoneAcross(a, b, pat)
    ensures Replace(a + b, pat, sub) == Replace(a, pat, sub) + (sub + Replace(b[|pat|..], pat, sub))
    decreases |a|
  {
    var s := a + b;
    if a == "" {
      assert s == b;
      NothingBefore(sub + Replace(b[|pat|..], pat, sub));
    } else if pat <= s {
      assert !(0 + |pat| > |a|) by { assert s[0..] == s; }
      MatchWithin(a, b, pat);
      NoneAcrossTail(a, b, pat, |pat|);
      ReplaceAt(a[|pat|..], b, pat, sub);
      Associate(sub, Replace(a[|pat|..], pat, sub), sub + Replace(b[|pat|..], pat, sub));
    } else {
      NoMatchWithin(a, b, pat);
      NoneAcrossTail(a, b, pat, 1);
      ReplaceAt(a[1..], b, pat, sub);
      Associate([a[0]], Replace(a[1..], pat, sub), sub + Replace(b[|pat|..], pat, sub));
    }
  }

  lemma {:induction false} MatchWithin(a: string, b: string, pat: string)
    requires pat <= a + b && |pat| <= |a|
    ensures pat <= a && (a + b)[|pat|..] == a[|pat|..] + b
  {
    assert forall i :: 0 <= i < |pat| ==> a[i] == (a + b)[i];
  }

  lemma {:induction false} NoMatchWithin(a: string, b: string, pat: string)
    requires a != ""
    ensures pat <= a ==> pat <= a + b
    ensures (a + b)[1..] == a[1..] + b && (a + b)[0] == a[0]
  {
  }

  lemma {:induction false} NoneAcrossTail(a: string, b: string, pat: string, d: nat)
    requires d <= |a| && NoneAcross(a, b, pat)
    ensures NoneAcross(a[d..], b, pat)
  {
    forall i | 0 <= i < |a[d..]| && i + |pat| > |a[d..]| ensures !(pat <= (a[d..] + b)[i..]) {
      assert (a[d..] + b)[i..] == (a + b)[i + d..];
    }
  }

  /** `s[i]` is the last NUL before `end`. */
  ghost predicate LastNul(s: string, i: nat, end: nat) {
    i < end <= |s| && s[i] == NUL && forall m :: i < m < end ==> s[m] != NUL
  }

  lemma {:induction false} OneLastNul(s: string, i: nat, j: nat, end: nat)
    requires LastNul(s, i, end) && LastNul(s, j, end)
    ensures i == j
  {
  }

  lemma {:induction false} PlaceholderInner(k: nat)
    ensures var pat := Placeholder(k);
      pat[0] == NUL && pat[1..|pat| - 1] == NAME + Decimal(k) && forall m :: 0 < m < |pat| - 1 ==> pat[m] != NUL
  {
    var name, pat := NAME + Decimal(k), Placeholder(k);
    NameClean(k);
    assert pat == [NUL] + name + [NUL];
    forall m | 0 < m < |pat| - 1 ensures pat[m] != NUL { assert pat[m] == name[m - 1] && name[m - 1] in name; }
  }

  lemma {:induction false} MatchNuls(s: string, i: nat, k: nat)
    requires i <= |s| && Placeholder(k) <= s[i..]
    ensures var end := i + |Placeholder(k)| - 1;
      LastNul(s, i, end) && s[i + 1..end] == NAME + Decimal(k)
  {
    var pat := Placeholder(k);
    PlaceholderInner(k);
    assert forall m :: 0 <= m < |pat| ==> s[i + m] == s[i..][m] == pat[m];
    forall m | i < m < i + |pat| - 1 ensures s[m] != NUL { assert s[i + (m - i)] == pat[m - i]; }
    assert s[i..][..|pat|] == pat && s[i + 1..i + |pat| - 1] == s[i..][..|pat|][1..|pat| - 1];
  }

  lemma {:induction false} HeadNuls(head: string, body: string, b: string)
    requires NUL !in body
    ensures var s, end := head + ([NUL] + body) + b, |head| + 1 + |body|;
      LastNul(s, |head|, end) && s[|head| + 1..end] == body
  {
    var s, end := head + ([NUL] + body) + b, |head| + 1 + |body|;
    assert s[|head| + 1..end] == body;
    forall m | |head| < m < end ensures s[m] != NUL {
      assert s[m] == body[m - |head| - 1] && body[m - |head| - 1] in body;
    }
  }

  /** Before the end of placeholder `j` no match of placeholder `k` can begin that goes beyond it. */
  lemma {:induction false} AcrossOther(head: string, j: nat, k: nat, b: string)
    requires j != k && b != "" && b[0] == NUL
    ensures NoneAcross(head + ([NUL] + (NAME + Decimal(j))), b, Placeholder(k))
  {
    var a := head + ([NUL] + (NAME + Decimal(j)));
    forall i | 0 <= i < |a| && i + |Placeholder(k)| > |a| ensures Placeholder(k) <= (a + b)[i..] ==> j == k {
      if Placeholder(k) <= (a + b)[i..] { AcrossSame(head, j, k, b, i); }
    }
  }

  lemma {:induction false} AcrossSame(head: string, j: nat, k: nat, b: string, i: nat)
    requires b != "" && b[0] == NUL
    requires var a := head + ([NUL] + (NAME + Decimal(j)));
      i < |a| && i + |Placeholder(k)| > |a| && Placeholder(k) <= (a + b)[i..]
    ensures j == k
  {
    var body := NAME + Decimal(j);
    var a := head + ([NUL] + body);
    MatchNuls(a + b, i, k);
    NameClean(j);
    HeadNuls(head, body, b);
    assert (a + b)[|a|] == b[0];
    assert i + |Placeholder(k)| - 1 == |a|;
    OneLastNul(a + b, i, |head|, |a|);
    NameInjective(j, k);
  }

  lemma {:induction false} NameInjective(j: nat, k: nat)
    requires NAME + Decimal(j) == NAME + Decimal(k)
    ensures j == k
  {
    assert (NAME + Decimal(j))[|NAME|..] == Decimal(j) && (NAME + Decimal(k))[|NAME|..] == Decimal(k);
    DecimalInjective(j, k);
  }

  lemma {:induction false} FillEven(ts: seq<Token>, blocks: seq<string>, k: nat)
    requires Fenced(blocks) && Valid(ts, |blocks|)
    ensures NulCount(Fill(ts, blocks, k)) % 2 == 0
  {
    if ts != [] {
      FillEven(ts[1..], blocks, k);
      NulCountConcat(FillToken(ts[0], blocks, k), Fill(ts[1..], blocks, k));
      assert Valid([ts[0]], |blocks|);
      FillTokenEven(ts[0], blocks, k);
    }
  }

  lemma {:induction false} FillTokenEven(t: Token, blocks: seq<string>, k: nat)
    requires Fenced(blocks) && Valid([t], |blocks|)
    ensures NulCount(FillToken(t, blocks, k)) % 2 == 0
  {
    assert [t][0] == t;
    match t {
      case Plain(c) => NoNul([c]);
      case Block(j) => PlaceholderCut(j, 1); NoNul(blocks[j]);
    }
  }

  lemma {:induction false} FillClean(ts: seq<Token>, blocks: seq<string>)
    requires Fenced(blocks) && Valid(ts, |blocks|)
    ensures NUL !in Fill(ts, blocks, |blocks|)
  {
    if ts != [] {
      FillClean(ts[1..], blocks);
      assert NUL !in FillToken(ts[0], blocks, |blocks|);
    }
  }

  /** The tokens up to the NUL that ends placeholder `i`, and the rest. */
  lemma {:induction false} FillAround(ts: seq<Token>, blocks: seq<string>, i: nat, k: nat)
    requires i < |ts| && ts[i].Block? && k < ts[i].k
    ensures Fill(ts, blocks, k) ==
      Fill(ts[..i], blocks, k) + ([NUL] + (NAME + Decimal(ts[i].k))) + ([NUL] + Fill(ts[i + 1..], blocks, k))
  {
    var a, t, rest := ts[..i], ts[i], ts[i + 1..];
    assert ts == a + ([t] + rest) && ([t] + rest)[1..] == rest;
    FillConcat(a, [t] + rest, blocks, k);
    Around(Fill(a, blocks, k), NAME + Decimal(t.k), Fill(rest, blocks, k));
  }

  lemma {:induction false} Around(head: string, body: string, tail: string)
    ensures head + ([NUL] + body + [NUL] + tail) == head + ([NUL] + body) + ([NUL] + tail)
  {
  }

  lemma {:induction false} OddBefore(head: string, j: nat)
    requires NulCount(head) % 2 == 0
    ensures OddNuls(head + ([NUL] + (NAME + Decimal(j))))
  {
    NulCountConcat(head, [NUL] + (NAME + Decimal(j)));
    NulCountConcat([NUL], NAME + Decimal(j));
    NameClean(j);
    NoNul(NAME + Decimal(j));
  }

  /** The confused replacement puts code between the NULs of another placeholder. */
  lemma {:induction false} ConfusionSticks(ts: seq<Token>, blocks: seq<string>, i: nat, k: nat)
    requires Fenced(blocks) && Valid(ts, |blocks|) && ConfusedAt(ts, i, k) && k < |blocks|
    ensures Stuck(Replace(Fill(ts, blocks, k), Placeholder(k), blocks[k]), false)
  {
    var pat, j, head := Placeholder(k), ts[i].k, Fill(ts[..i], blocks, k);
    var a, b := head + ([NUL] + (NAME + Decimal(j))), [NUL] + Fill(ts[i + 1..], blocks, k);
    FillAround(ts, blocks, i, k);
    LooksAhead(ts[i + 1..], blocks, k);
    AcrossOther(head, j, k, b);
    ReplaceAt(a, b, pat, blocks[k]);
    FillEven(ts[..i], blocks, k);
    OddBefore(head, j);
    PlaceholderCut(k, 1);
    NoNul(blocks[k]);
    ReplaceParity(a, pat, blocks[k]);
    assert (blocks[k] + Replace(b[|pat|..], pat, blocks[k]))[0] == TICK;
    StuckAfter(Replace(a, pat, blocks[k]), blocks[k] + Replace(b[|pat|..], pat, blocks[k]), false);
  }

  lemma {:induction false} LeastConfused(ts: seq<Token>, k: nat) returns (m: nat)
    requires !ClearOf(ts, k)
    ensures m <= k && !ClearOf(ts, m) && forall j: nat :: j < m ==> ClearOf(ts, j)
  {
    if j: nat :| j < k && !ClearOf(ts, j) {
      m := LeastConfused(ts, j);
    } else {
      m := k;
    }
  }

  lemma {:induction false} ConfusionStays(ts: seq<Token>, blocks: seq<string>)
    requires Fenced(blocks) && Valid(ts, |blocks|) && !Clear(ts)
    ensures NUL in Restored(Render(ts), blocks, |blocks|)
  {
    var some: nat :| !ClearOf(ts, some);
    var k := LeastConfused(ts, some);
    var i: nat :| ConfusedAt(ts, i, k);
    RestoreFills(ts, blocks, k);
    ConfusionSticks(ts, blocks, i, k);
    RestoreStuck(Render(ts), blocks, k + 1, |blocks|);
    StuckHasNul(Restored(Render(ts), blocks, |blocks|), false);
  }

  /** Putting the blocks back one after the other gives every placeholder its own code exactly when none is confused;
      otherwise a NUL is left over. */
  lemma {:induction false} RestoresExactlyWhen(ts: seq<Token>, blocks: seq<string>)
    requires Fenced(blocks) && Valid(ts, |blocks|)
    ensures Restored(Render(ts), blocks, |blocks|) == Fill(ts, blocks, |blocks|) <==> Clear(ts)
    ensures NUL in Restored(Render(ts), blocks, |blocks|) <==> !Clear(ts)
  {
    FillClean(ts, blocks);
    if Clear(ts) {
      RestoreFills(ts, blocks, |blocks|);
    } else {
      ConfusionStays(ts, blocks);
    }
  }

  /** A text in which no placeholder is followed by the name cannot be confused. */
  lemma {:induction false} ApartClear(ts: seq<Token>)
    requires Apart(ts)
    ensures Clear(ts)
  {
    forall k: nat ensures ClearOf(ts, k) {
      forall i: nat ensures !ConfusedAt(ts, i, k) {
        if i < |ts| && ts[i].Block? { NotSpelt(ts[i + 1..], k); }
      }
    }
  }

  lemma {:induction false} NotSpelt(rest: seq<Token>, k: nat)
    ensures LooksLike(rest, k) ==> Spells(rest)
  {
    var name := NAME + Decimal(k);
    assert forall m :: 0 <= m < |NAME| ==> name[m] == NAME[m];
  }
}
