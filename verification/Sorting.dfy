/** Python's `sorted` and the slice `s[:k]`, as far as the ranking code uses them. */
module Sorting {

  // ---- s[:k] ----

  /** Where `s[:k]` ends; a negative `k` counts from the end. */
  function SliceEnd(n: nat, k: int): (e: nat)
    ensures e <= n
  {
    if k >= n then n else if k >= 0 then k else if n + k >= 0 then n + k else 0
  }

  function Head<T>(s: seq<T>, k: int): seq<T> {
    s[..SliceEnd(|s|, k)]
  }

  /** `s[:k]` is the first `k` elements, all of them if there are fewer, or all but the last `-k`. */
  lemma {:induction false} HeadIs<T>(s: seq<T>, k: int)
    ensures Head(s, k) <= s
    ensures 0 <= k <= |s| ==> |Head(s, k)| == k
    ensures |s| <= k ==> Head(s, k) == s
    ensures -|s| <= k < 0 ==> |Head(s, k)| == |s| + k
    ensures k < 0 && k < -|s| ==> Head(s, k) == []
  {
  }

  // ---- insertion into sorted order ----

  function Insert<T>(x: T, s: seq<T>, le: (T, T) -> bool): seq<T> {
    if s == [] || !le(s[0], x) then [x] + s else [s[0]] + Insert(x, s[1..], le)
  }

  /** Stable: an element goes after the earlier ones it ties with. */
  function Sorted<T>(s: seq<T>, le: (T, T) -> bool): seq<T> {
    if s == [] then [] else Insert(s[|s| - 1], Sorted(s[..|s| - 1], le), le)
  }

  ghost predicate Ordered<T(!new)>(s: seq<T>, le: (T, T) -> bool) {
    forall i, j :: 0 <= i < j < |s| ==> le(s[i], s[j])
  }

  ghost predicate TotalPreorder<T(!new)>(le: (T, T) -> bool) {
    && (forall x, y :: le(x, y) || le(y, x))
    && (forall x, y, z :: le(x, y) && le(y, z) ==> le(x, z))
  }

  lemma {:induction false} InsertMultiset<T>(x: T, s: seq<T>, le: (T, T) -> bool)
    ensures multiset(Insert(x, s, le)) == multiset(s) + multiset{x}
  {
    if s != [] && le(s[0], x) {
      InsertMultiset(x, s[1..], le);
      assert s == [s[0]] + s[1..];
    }
  }

  lemma {:induction false} InsertOrdered<T(!new)>(x: T, s: seq<T>, le: (T, T) -> bool)
    requires TotalPreorder(le) && Ordered(s, le)
    ensures Ordered(Insert(x, s, le), le)
  {
    if s != [] && le(s[0], x) {
      var rest := Insert(x, s[1..], le);
      InsertOrdered(x, s[1..], le);
      InsertMultiset(x, s[1..], le);
      forall y | y in rest ensures le(s[0], y) {
        assert y in multiset(rest);
        if y != x {
          assert y in s[1..];
        }
      }
    }
  }

  /** `sorted` permutes its input and puts it in order. */
  lemma {:induction false} SortedIsSort<T(!new)>(s: seq<T>, le: (T, T) -> bool)
    requires TotalPreorder(le)
    ensures multiset(Sorted(s, le)) == multiset(s) && |Sorted(s, le)| == |s| && Ordered(Sorted(s, le), le)
  {
    if s != [] {
      var front, last := s[..|s| - 1], s[|s| - 1];
      SortedIsSort(front, le);
      InsertMultiset(last, Sorted(front, le), le);
      InsertOrdered(last, Sorted(front, le), le);
      assert s == front + [last];
      assert |multiset(Sorted(s, le))| == |Sorted(s, le)|;
    }
  }

  ghost predicate Distinct<T(!new)>(s: seq<T>) {
    forall i, j :: 0 <= i < j < |s| ==> s[i] != s[j]
  }

  lemma {:induction false} DistinctMultiset<T(!new)>(s: seq<T>)
    ensures Distinct(s) <==> forall x :: multiset(s)[x] <= 1
  {
    if Distinct(s) {
      forall x ensures multiset(s)[x] <= 1 { DistinctCount(s, x); }
    } else {
      var i, j :| 0 <= i < j < |s| && s[i] == s[j];
      TwiceCount(s, i, j);
    }
  }

  lemma {:induction false} TwiceCount<T(!new)>(s: seq<T>, i: nat, j: nat)
    requires i < j < |s| && s[i] == s[j]
    ensures multiset(s)[s[i]] >= 2
  {
    assert s == s[..j] + s[j..] && s[..j][i] == s[i] && s[j..][0] == s[i];
    assert s[i] in multiset(s[..j]) && s[i] in multiset(s[j..]);
  }

  lemma {:induction false} DistinctCount<T(!new)>(s: seq<T>, x: T)
    requires Distinct(s)
    ensures multiset(s)[x] <= 1
  {
    if s != [] {
      assert s == [s[0]] + s[1..];
      DistinctCount(s[1..], x);
      if x == s[0] { assert x !in s[1..]; }
    }
  }

  // ---- the order of strings ----

  predicate StrLe(a: string, b: string) {
    a == "" || (b != "" && (a[0] < b[0] || (a[0] == b[0] && StrLe(a[1..], b[1..]))))
  }

  ghost predicate DiffersFirstAt(a: string, b: string, k: nat) {
    k < |a| && k < |b| && a[..k] == b[..k] && a[k] < b[k]
  }

  /** One string is not after another exactly when it is a prefix of it, or has the smaller character where they first
      differ. */
  lemma {:induction false} StrLeExactly(a: string, b: string)
    ensures StrLe(a, b) <==> a <= b || exists k: nat :: DiffersFirstAt(a, b, k)
  {
    if a != "" && b != "" {
      if a[0] == b[0] {
        StrLeExactly(a[1..], b[1..]);
        assert a <= b <==> a[1..] <= b[1..] by { assert a == [a[0]] + a[1..] && b == [b[0]] + b[1..]; }
        if k: nat :| DiffersFirstAt(a[1..], b[1..], k) { DifferenceMoves(a, b, k); }
        if k: nat :| DiffersFirstAt(a, b, k) { DifferenceMoves(a, b, k - 1); }
      } else {
        forall k: nat | DiffersFirstAt(a, b, k) ensures k == 0 { DifferAtStart(a, b, k); }
        if a[0] < b[0] { assert DiffersFirstAt(a, b, 0); }
      }
    }
  }

  lemma {:induction false} DifferAtStart(a: string, b: string, k: nat)
    requires k <= |a| && k <= |b| && a[..k] == b[..k] && a != "" && b != ""
    ensures k == 0 || a[0] == b[0]
  {
    if k > 0 { assert a[0] == a[..k][0] == b[..k][0] == b[0]; }
  }

  lemma {:induction false} DifferenceMoves(a: string, b: string, k: nat)
    requires a != "" && b != "" && a[0] == b[0]
    ensures DiffersFirstAt(a[1..], b[1..], k) <==> DiffersFirstAt(a, b, k + 1)
  {
    if k + 1 <= |a| && k + 1 <= |b| {
      assert a[..k + 1] == [a[0]] + a[1..][..k] && b[..k + 1] == [b[0]] + b[1..][..k];
      assert a[1..][..k] == a[..k + 1][1..] && b[1..][..k] == b[..k + 1][1..];
    }
  }

  lemma {:induction false} StrLeTotal(a: string, b: string)
    ensures StrLe(a, b) || StrLe(b, a)
    ensures StrLe(a, b) && StrLe(b, a) ==> a == b
  {
    if a != "" && b != "" {
      StrLeTotal(a[1..], b[1..]);
      assert a == [a[0]] + a[1..] && b == [b[0]] + b[1..];
    }
  }

  lemma {:induction false} StrLeTransitive(a: string, b: string, c: string)
    requires StrLe(a, b) && StrLe(b, c)
    ensures StrLe(a, c)
  {
    if a != "" && a[0] == b[0] == c[0] { StrLeTransitive(a[1..], b[1..], c[1..]); }
  }

  lemma {:induction false} StrLeOrders()
    ensures TotalPreorder(StrLe)
  {
    forall x, y ensures StrLe(x, y) || StrLe(y, x) { StrLeTotal(x, y); }
    forall x, y, z | StrLe(x, y) && StrLe(y, z) ensures StrLe(x, z) { StrLeTransitive(x, y, z); }
  }

  // ---- ranking a dictionary of scores ----

  /** `s` holds every entry of `m` once. */
  ghost predicate Lists<K(!new)>(s: seq<(K, real)>, m: map<K, real>) {
    && |s| == |m|
    && (forall i :: 0 <= i < |s| ==> s[i].0 in m && m[s[i].0] == s[i].1)
    && (forall i, j :: 0 <= i < j < |s| ==> s[i].0 != s[j].0)
    && (forall k :: k in m ==> exists i :: 0 <= i < |s| && s[i].0 == k)
  }

  ghost predicate Descending<K(!new)>(s: seq<(K, real)>) {
    forall i, j :: 0 <= i < j < |s| ==> s[i].1 >= s[j].1
  }

  predicate HigherFirst<K>(a: (K, real), b: (K, real)) {
    a.1 >= b.1
  }

  /** `m.items()`, in some order. */
  method Items<K(!new)>(m: map<K, real>) returns (s: seq<(K, real)>)
    ensures Lists(s, m)
  {
    s := [];
    var todo := m.Keys;
    while todo != {}
      invariant todo <= m.Keys && |s| + |todo| == |m.Keys|
      invariant forall i :: 0 <= i < |s| ==> s[i].0 in m.Keys - todo && m[s[i].0] == s[i].1
      invariant forall i, j :: 0 <= i < j < |s| ==> s[i].0 != s[j].0
      invariant forall k :: k in m && k !in todo ==> exists i :: 0 <= i < |s| && s[i].0 == k
    {
      var k :| k in todo;
      ghost var before := s;
      s := s + [(k, m[k])];
      todo := todo - {k};
      forall x | x in m && x !in todo ensures exists i :: 0 <= i < |s| && s[i].0 == x {
        if x == k {
          assert s[|before|].0 == k;
        } else {
          var i :| 0 <= i < |before| && before[i].0 == x;
          assert s[i].0 == x;
        }
      }
    }
  }

  /** `sorted(m.items(), key=score, reverse=True)`. */
  method Ranked<K(!new)>(m: map<K, real>) returns (s: seq<(K, real)>)
    ensures Lists(s, m) && Descending(s)
  {
    var items := Items(m);
    s := Sorted(items, HigherFirst);
    HigherFirstOrders<K>();
    SortedIsSort(items, HigherFirst);
    ListsPermuted(items, s, m);
  }

  lemma {:induction false} HigherFirstOrders<K(!new)>()
    ensures TotalPreorder<(K, real)>(HigherFirst)
  {
  }

  lemma {:induction false} ListsPermuted<K(!new)>(items: seq<(K, real)>, s: seq<(K, real)>, m: map<K, real>)
    requires Lists(items, m) && multiset(s) == multiset(items) && |s| == |items|
    ensures Lists(s, m)
  {
    forall i | 0 <= i < |s| ensures s[i].0 in m && m[s[i].0] == s[i].1 {
      assert s[i] in multiset(s);
      assert s[i] in items;
    }
    DistinctMultiset(items);
    DistinctMultiset(s);
    forall i, j | 0 <= i < j < |s| ensures s[i].0 != s[j].0 {
      assert s[i] != s[j];
    }
    forall k | k in m ensures exists i :: 0 <= i < |s| && s[i].0 == k {
      var i :| 0 <= i < |items| && items[i].0 == k;
      assert items[i] in multiset(items);
      assert items[i] in s;
    }
  }
}
