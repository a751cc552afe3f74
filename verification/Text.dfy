/** The Python string operations the splitters are built from: white space, `strip`, `split()`,
    decimal formatting, and "erasure", the view of a text in which white space does not count. */
module Text {

  /** The characters for which Python's `str.isspace` and the pattern `\s` hold. */
  predicate IsSpace(c: char) {
    var n := c as int;
    || 9 <= n <= 13 || 28 <= n <= 32 || n == 0x85 || n == 0xA0 || n == 0x1680
    || 0x2000 <= n <= 0x200A || n == 0x2028 || n == 0x2029 || n == 0x202F || n == 0x205F || n == 0x3000
  }

  ghost predicate Blank(s: string) {
    forall i :: 0 <= i < |s| ==> IsSpace(s[i])
  }

  ghost predicate Contains(s: string, p: string) {
    exists i :: 0 <= i <= |s| && p <= s[i..]
  }

  /** The text with all white space removed. */
  function Erase(s: string): string {
    if s == "" then "" else (if IsSpace(s[0]) then "" else [s[0]]) + Erase(s[1..])
  }

  lemma {:induction false} ConsAppend<T>(a: seq<T>, b: seq<T>)
    requires a != []
    ensures a + b != [] && (a + b)[0] == a[0] && (a + b)[1..] == a[1..] + b
  {
  }

  lemma {:induction false} EraseConcat(a: string, b: string)
    ensures Erase(a + b) == Erase(a) + Erase(b)
  {
    if a == "" {
      assert a + b == b;
    } else {
      EraseConcat(a[1..], b);
      ConsAppend(a, b);
      Associate(if IsSpace(a[0]) then "" else [a[0]], Erase(a[1..]), Erase(b));
    }
  }

  lemma {:induction false} EraseBlank(s: string)
    ensures Erase(s) == "" <==> Blank(s)
  {
    if s != "" {
      EraseBlank(s[1..]);
      assert s == [s[0]] + s[1..];
    }
  }

  lemma {:induction false} EraseSolid(s: string)
    requires forall i :: 0 <= i < |s| ==> !IsSpace(s[i])
    ensures Erase(s) == s
  {
    if s != "" {
      EraseSolid(s[1..]);
    }
  }

  lemma {:induction false} Regroup<T>(whole: seq<T>, a: seq<T>, b: seq<T>, c: seq<T>, d: seq<T>)
    requires whole == a + b && b == c + d
    ensures whole == (a + c) + d
  {
  }

  lemma {:induction false} Associate<T>(x: seq<T>, y: seq<T>, z: seq<T>)
    ensures x + (y + z) == x + y + z
  {
  }

  lemma {:induction false} SliceGrows<T>(s: seq<T>, a: nat, i: nat)
    requires a <= i < |s|
    ensures s[a..i + 1] == s[a..i] + [s[i]]
  {
  }

  lemma {:induction false} SplitAt<T>(s: seq<T>, a: nat, b: nat)
    requires a <= b <= |s|
    ensures s[a..] == s[a..b] + s[b..]
  {
  }

  lemma {:induction false} SplitTail<T>(s: seq<T>, a: nat, b: nat)
    requires a <= b <= |s|
    ensures s[a..][..b - a] == s[a..b] && s[a..][b - a..] == s[b..]
  {
  }

  lemma {:induction false} NothingAfter<T>(s: seq<T>)
    ensures s + [] == s
  {
  }

  lemma {:induction false} NothingBefore<T>(s: seq<T>)
    ensures [] + s == s
  {
  }

  lemma {:induction false} SliceOfSlice<T>(s: seq<T>, o: nat, p: nat, x: nat, y: nat)
    requires o <= p <= |s| && x <= y <= p - o
    ensures s[o..p][x..y] == s[o + x..o + y]
  {
    assert forall i :: 0 <= i < y - x ==> s[o..p][x..y][i] == s[o..p][x + i] == s[o + x + i];
  }

  lemma {:induction false} WholeSlice<T>(s: seq<T>)
    ensures s[..|s|] == s
  {
  }

  lemma {:induction false} PrefixNext<T>(s: seq<T>, i: nat)
    requires 0 < i <= |s|
    ensures s[..i - 1] + [s[i - 1]] == s[..i]
  {
  }

  lemma {:induction false} FirstAndRest<T>(s: seq<T>)
    requires s != []
    ensures [s[0]] + s[1..] == s
  {
  }

  lemma {:induction false} Single<T>(s: seq<T>, i: nat)
    requires i < |s|
    ensures s[i..i + 1] == [s[i]]
  {
  }

  // ---- concatenation of a list of texts ----

  function Flat(ss: seq<string>): string {
    if ss == [] then "" else Flat(ss[..|ss| - 1]) + ss[|ss| - 1]
  }

  lemma {:induction false} FlatAppend(ss: seq<string>, s: string)
    ensures Flat(ss + [s]) == Flat(ss) + s
  {
    assert (ss + [s])[..|ss|] == ss;
  }

  lemma {:induction false} FlatConcat(a: seq<string>, b: seq<string>)
    ensures Flat(a + b) == Flat(a) + Flat(b)
  {
    if b == [] {
      NothingAfter(a);
      NothingAfter(Flat(a));
    } else {
      FlatConcat(a, b[..|b| - 1]);
      FrontOfSum(a, b);
      Associate(Flat(a), Flat(b[..|b| - 1]), b[|b| - 1]);
    }
  }

  lemma {:induction false} FrontOfSum<T>(a: seq<T>, b: seq<T>)
    requires b != []
    ensures (a + b)[..|a + b| - 1] == a + b[..|b| - 1] && (a + b)[|a + b| - 1] == b[|b| - 1]
  {
  }

  lemma {:induction false} FlatCons(s: string, ss: seq<string>)
    ensures Flat([s] + ss) == s + Flat(ss)
  {
    FlatConcat([s], ss);
    assert Flat([s]) == Flat([]) + s == s;
  }

  /** The list as one text, white space erased. */
  function EraseAll(ss: seq<string>): string {
    Erase(Flat(ss))
  }

  lemma {:induction false} EraseAllAppend(ss: seq<string>, s: string)
    ensures EraseAll(ss + [s]) == EraseAll(ss) + Erase(s)
  {
    FlatAppend(ss, s);
    EraseConcat(Flat(ss), s);
  }

  lemma {:induction false} EraseAllConcat(a: seq<string>, b: seq<string>)
    ensures EraseAll(a + b) == EraseAll(a) + EraseAll(b)
  {
    FlatConcat(a, b);
    EraseConcat(Flat(a), Flat(b));
  }

  lemma {:induction false} EraseAllCons(s: string, ss: seq<string>)
    ensures EraseAll([s] + ss) == Erase(s) + EraseAll(ss)
  {
    FlatCons(s, ss);
    EraseConcat(s, Flat(ss));
  }

  lemma {:induction false} OneErase(s: string)
    ensures EraseAll([s]) == Erase(s)
  {
    EraseAllCons(s, []);
    assert [s] + [] == [s] && EraseAll([]) == "";
  }

  // ---- str.strip ----

  function LStrip(s: string): string {
    if s != "" && IsSpace(s[0]) then LStrip(s[1..]) else s
  }

  function RStrip(s: string): string {
    if s != "" && IsSpace(s[|s| - 1]) then RStrip(s[..|s| - 1]) else s
  }

  function Strip(s: string): string {
    RStrip(LStrip(s))
  }

  ghost predicate Trimmed(s: string) {
    s != "" ==> !IsSpace(s[0]) && !IsSpace(s[|s| - 1])
  }

  lemma {:induction false} LStripShape(s: string) returns (l: string)
    ensures Blank(l) && s == l + LStrip(s)
    ensures LStrip(s) != "" ==> !IsSpace(LStrip(s)[0])
  {
    if s != "" && IsSpace(s[0]) {
      l := LStripShape(s[1..]);
      l := [s[0]] + l;
    } else {
      l := "";
    }
  }

  lemma {:induction false} LStripIs(l: string, rest: string)
    requires Blank(l) && rest != "" && !IsSpace(rest[0])
    ensures LStrip(l + rest) == rest
  {
    if l == "" {
      NothingBefore(rest);
    } else {
      LStripIs(l[1..], rest);
      ConsAppend(l, rest);
    }
  }

  lemma {:induction false} RStripShape(s: string) returns (r: string)
    ensures Blank(r) && s == RStrip(s) + r
    ensures RStrip(s) != "" ==> !IsSpace(RStrip(s)[|RStrip(s)| - 1])
  {
    if s != "" && IsSpace(s[|s| - 1]) {
      r := RStripShape(s[..|s| - 1]);
      r := r + [s[|s| - 1]];
    } else {
      r := "";
    }
  }

  /** `strip` removes a blank prefix and a blank suffix and nothing else. */
  lemma {:induction false} StripShape(s: string) returns (l: string, r: string)
    ensures Blank(l) && Blank(r) && s == l + Strip(s) + r
    ensures Trimmed(Strip(s))
  {
    l := LStripShape(s);
    r := RStripShape(LStrip(s));
  }

  lemma {:induction false} StripErases(s: string)
    ensures Erase(Strip(s)) == Erase(s)
    ensures |Strip(s)| <= |s|
    ensures Strip(s) == "" <==> Blank(s)
  {
    var l, r := StripShape(s);
    EraseConcat(l + Strip(s), r);
    EraseConcat(l, Strip(s));
    EraseBlank(l);
    EraseBlank(r);
    EraseBlank(s);
    EraseBlank(Strip(s));
  }

  lemma {:induction false} StripTrimmed(s: string)
    requires Trimmed(s)
    ensures Strip(s) == s
  {
  }

  lemma {:induction false} AtWithin(s: string, l: string, c: string, r: string, p: string, i: nat)
    requires s == l + c + r && Blank(l) && Blank(r) && Trimmed(p) && p != "" && i <= |s| && p <= s[i..]
    ensures |l| <= i && i + |p| <= |l| + |c|
  {
    assert s[i] == s[i..][0] == p[0] && s[i + |p| - 1] == s[i..][|p| - 1] == p[|p| - 1];
    assert forall j :: 0 <= j < |l| ==> s[j] == l[j];
    assert forall j :: |l| + |c| <= j < |s| ==> s[j] == r[j - |l| - |c|];
  }

  lemma {:induction false} StripContains(s: string, p: string)
    requires Contains(s, p) && p != "" && Trimmed(p)
    ensures Contains(Strip(s), p) && Strip(s) != ""
  {
    var l, r := StripShape(s);
    var c := Strip(s);
    var i :| 0 <= i <= |s| && p <= s[i..];
    AtWithin(s, l, c, r, p, i);
    ContainsAt(s, l, c, r, p, i);
  }

  lemma {:induction false} ContainsAt(s: string, l: string, c: string, r: string, p: string, i: nat)
    requires s == l + c + r && |l| <= i && i + |p| <= |l| + |c| && p <= s[i..]
    ensures p <= c[i - |l|..]
  {
    forall j | 0 <= j < |p| ensures c[i - |l| + j] == p[j] {
      assert s[i + j] == s[i..][j];
    }
  }

  lemma {:induction false} ContainsSuffix(p: string, q: string, x: string)
    ensures Contains(q, x) ==> Contains(p + q, x)
  {
    if Contains(q, x) {
      var j :| 0 <= j <= |q| && x <= q[j..];
      assert (p + q)[|p| + j..] == q[j..];
    }
  }

  lemma {:induction false} ContainsPrefix(p: string, q: string, x: string)
    ensures Contains(p, x) ==> Contains(p + q, x)
  {
    if Contains(p, x) {
      var j :| 0 <= j <= |p| && x <= p[j..];
      assert (p + q)[j..] == p[j..] + q;
    }
  }

  lemma {:induction false} ContainsThrough(s: string, p: string, x: string)
    requires Contains(s, p) && Contains(p, x)
    ensures Contains(s, x)
  {
    var i :| 0 <= i <= |s| && p <= s[i..];
    var j :| 0 <= j <= |p| && x <= p[j..];
    ContainsSuffix(p[..j], p[j..], x);
    assert s[i..][..|p|] == p && s[i + j..] == s[i..][j..];
    assert p[j..] <= s[i + j..];
  }

  lemma {:induction false} ContainsStrip(s: string)
    ensures Contains(s, Strip(s))
  {
    var l, r := StripShape(s);
    assert s[|l|..] == Strip(s) + r;
  }

  // ---- str.split() ----

  /** Length of the leading run of characters that are not white space. */
  function RunLength(s: string): (n: nat)
    ensures n <= |s| && (forall i :: 0 <= i < n ==> !IsSpace(s[i])) && (n < |s| ==> IsSpace(s[n]))
  {
    if s == "" || IsSpace(s[0]) then 0 else 1 + RunLength(s[1..])
  }

  predicate IsWord(w: string) {
    w != "" && forall i :: 0 <= i < |w| ==> !IsSpace(w[i])
  }

  /** Python's `text.split()`: the maximal runs of characters that are not white space. */
  function Words(s: string): (ws: seq<string>)
    ensures forall w :: w in ws ==> IsWord(w)
    decreases |s|
  {
    if s == "" then []
    else if IsSpace(s[0]) then Words(s[1..])
    else [s[..RunLength(s)]] + Words(s[RunLength(s)..])
  }

  lemma {:induction false} WordsErase(s: string)
    ensures Flat(Words(s)) == Erase(s)
    decreases |s|
  {
    if s == "" {
    } else if IsSpace(s[0]) {
      WordsErase(s[1..]);
    } else {
      var n := RunLength(s);
      WordsErase(s[n..]);
      FlatConcat([s[..n]], Words(s[n..]));
      assert Flat([s[..n]]) == s[..n];
      EraseConcat(s[..n], s[n..]);
      EraseSolid(s[..n]);
      assert s == s[..n] + s[n..];
    }
  }

  // ---- decimal numerals ----

  predicate IsDigit(c: char) {
    '0' <= c <= '9'
  }

  function Decimal(n: nat): (s: string)
    ensures s != "" && forall i :: 0 <= i < |s| ==> IsDigit(s[i])
  {
    if n < 10 then [('0' as int + n) as char] else Decimal(n / 10) + [('0' as int + n % 10) as char]
  }

  /** The number that a string of digits stands for. */
  function Value(s: string): int {
    if s == "" then 0 else 10 * Value(s[..|s| - 1]) + (s[|s| - 1] as int - '0' as int)
  }

  /** The decimal form of a number stands for it and has no needless zero in front. */
  lemma {:induction false} DecimalValue(n: nat)
    ensures Value(Decimal(n)) == n && (n > 0 ==> Decimal(n)[0] != '0') && Decimal(0) == "0"
  {
    if n >= 10 {
      var s := Decimal(n);
      DecimalValue(n / 10);
      assert s[..|s| - 1] == Decimal(n / 10);
    } else {
      assert Decimal(n)[..0] == "";
    }
  }

  lemma {:induction false} DecimalInjective(m: nat, n: nat)
    requires Decimal(m) == Decimal(n)
    ensures m == n
  {
    var a, b := Decimal(m), Decimal(n);
    assert a[|a| - 1] == ('0' as int + m % 10) as char;
    assert b[|b| - 1] == ('0' as int + n % 10) as char;
    if m >= 10 && n >= 10 {
      assert a[..|a| - 1] == Decimal(m / 10) && b[..|b| - 1] == Decimal(n / 10);
      DecimalInjective(m / 10, n / 10);
    }
  }
}
