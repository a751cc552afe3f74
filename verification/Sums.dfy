/** Dictionaries of real numbers that serve as accumulators, and the sum of all their values. */
module Sums {

  function Get<T(==)>(m: map<T, real>, k: T): real {
    if k in m then m[k] else 0.0
  }

  /** `m[k] += v` on a `defaultdict(float)`. */
  function Bump<T(==)>(m: map<T, real>, k: T, v: real): map<T, real> {
    m[k := Get(m, k) + v]
  }

  /** Pointwise sum. */
  ghost function Plus<T(!new)>(a: map<T, real>, b: map<T, real>): map<T, real> {
    map k | k in a.Keys + b.Keys :: Get(a, k) + Get(b, k)
  }

  /** Multiplication under a name, so that proofs can treat a product as one quantity. */
  ghost function Prod(x: real, y: real): real {
    x * y
  }

  ghost function Scale<T(!new)>(c: real, m: map<T, real>): map<T, real> {
    map k | k in m :: Prod(c, m[k])
  }

  ghost predicate NonNegative<T(!new)>(m: map<T, real>) {
    forall k :: k in m ==> m[k] >= 0.0
  }

  /** Pointwise at most, on fewer keys. */
  ghost predicate Below<T(!new)>(a: map<T, real>, b: map<T, real>) {
    a.Keys <= b.Keys && forall k :: k in a ==> a[k] <= b[k]
  }

  ghost function Total<T(!new)>(m: map<T, real>): real {
    if m == map[] then 0.0 else var k :| k in m; m[k] + Total(m - {k})
  }

  lemma {:induction false} TotalRemove<T(!new)>(m: map<T, real>, k: T)
    requires k in m
    ensures Total(m) == m[k] + Total(m - {k})
    decreases |m|
  {
    var j :| j in m && Total(m) == m[j] + Total(m - {j});
    if j != k {
      TotalRemove(m - {j}, k);
      TotalRemove(m - {k}, j);
      assert m - {j} - {k} == m - {k} - {j};
    }
  }

  lemma {:induction false} TotalAdd<T(!new)>(m: map<T, real>, k: T, v: real)
    requires k !in m
    ensures Total(m[k := v]) == Total(m) + v
  {
    TotalRemove(m[k := v], k);
    assert m[k := v] - {k} == m;
  }

  lemma {:induction false} TotalBump<T(!new)>(m: map<T, real>, k: T, v: real)
    ensures Total(Bump(m, k, v)) == Total(m) + v
  {
    if k in m {
      TotalRemove(m, k);
      TotalRemove(Bump(m, k, v), k);
      assert Bump(m, k, v) - {k} == m - {k};
    } else {
      TotalAdd(m, k, v);
    }
  }

  lemma {:induction false} PlusAt<T(!new)>(a: map<T, real>, b: map<T, real>, k: T)
    ensures Get(Plus(a, b), k) == Get(a, k) + Get(b, k)
    ensures k in Plus(a, b) <==> k in a || k in b
  {
  }

  lemma {:induction false} PlusIs<T(!new)>(m: map<T, real>, a: map<T, real>, b: map<T, real>)
    requires forall k :: k in m <==> k in a || k in b
    requires forall k :: k in m ==> m[k] == Get(a, k) + Get(b, k)
    ensures m == Plus(a, b)
  {
  }

  lemma {:induction false} PlusOne<T(!new)>(a: map<T, real>, b: map<T, real>, k: T)
    requires k in b
    ensures Plus(a, b) == Bump(Plus(a, b - {k}), k, b[k])
  {
    var l, r := Plus(a, b), Bump(Plus(a, b - {k}), k, b[k]);
    assert l.Keys == r.Keys;
    forall j | j in l ensures l[j] == r[j] {
      assert j in (b - {k}) <==> j in b && j != k;
    }
  }

  lemma {:induction false} TotalPlus<T(!new)>(a: map<T, real>, b: map<T, real>)
    ensures Total(Plus(a, b)) == Total(a) + Total(b)
    decreases |b|
  {
    if b == map[] {
      assert Plus(a, b) == a;
    } else {
      var k :| k in b;
      var rest := b - {k};
      TotalPlus(a, rest);
      TotalRemove(b, k);
      PlusOne(a, b, k);
      TotalBump(Plus(a, rest), k, b[k]);
    }
  }

  lemma {:induction false} Distribute(c: real, x: real, y: real)
    ensures Prod(c, x + y) == Prod(c, x) + Prod(c, y)
  {
  }

  lemma {:induction false} ProdMonotone(c: real, x: real, y: real)
    requires c >= 0.0 && x <= y
    ensures Prod(c, x) <= Prod(c, y)
  {
  }

  lemma {:induction false} ProdNonNegative(x: real, y: real)
    requires x >= 0.0 && y >= 0.0
    ensures Prod(x, y) >= 0.0
  {
  }

  lemma {:induction false} ScaleRemove<T(!new)>(c: real, m: map<T, real>, k: T)
    ensures Scale(c, m) - {k} == Scale(c, m - {k})
  {
    var l, r := Scale(c, m) - {k}, Scale(c, m - {k});
    assert l.Keys == m.Keys - {k};
    assert r.Keys == (m - {k}).Keys == m.Keys - {k};
    forall j | j in l ensures l[j] == r[j] {
      assert j in m - {k} && (m - {k})[j] == m[j];
    }
  }

  lemma {:induction false} ScaleSplit<T(!new)>(c: real, m: map<T, real>, k: T)
    requires k in m
    ensures Total(Scale(c, m)) == Prod(c, m[k]) + Total(Scale(c, m - {k}))
    ensures Total(m) == m[k] + Total(m - {k})
  {
    TotalRemove(m, k);
    TotalRemove(Scale(c, m), k);
    ScaleRemove(c, m, k);
  }

  lemma {:induction false} TotalScale<T(!new)>(c: real, m: map<T, real>)
    ensures Total(Scale(c, m)) == Prod(c, Total(m))
    decreases |m|
  {
    if m != map[] {
      var k :| k in m;
      ScaleSplit(c, m, k);
      RemoveSize(m, k);
      TotalScale(c, m - {k});
      Distribute(c, m[k], Total(m - {k}));
    } else {
      assert Scale(c, m) == map[];
    }
  }

  lemma {:induction false} TotalNonNegative<T(!new)>(m: map<T, real>)
    requires NonNegative(m)
    ensures Total(m) >= 0.0
    decreases |m|
  {
    if m != map[] {
      var k :| k in m;
      TotalRemove(m, k);
      TotalNonNegative(m - {k});
    }
  }

  lemma {:induction false} TotalMonotone<T(!new)>(a: map<T, real>, b: map<T, real>)
    requires Below(a, b) && NonNegative(b)
    ensures Total(a) <= Total(b)
    decreases |a|
  {
    if a == map[] {
      TotalNonNegative(b);
    } else {
      var k :| k in a;
      TotalRemove(a, k);
      TotalRemove(b, k);
      TotalMonotone(a - {k}, b - {k});
    }
  }

  /** `c` added up `n` times. */
  ghost function Times(c: real, n: nat): real {
    if n == 0 then 0.0 else c + Times(c, n - 1)
  }

  lemma {:induction false} TimesIsProduct(c: real, n: nat)
    ensures Times(c, n) == c * (n as real)
  {
    if n > 0 {
      TimesIsProduct(c, n - 1);
    }
  }

  /** A dictionary with the same value everywhere. */
  lemma {:induction false} TotalConstant<T(!new)>(m: map<T, real>, c: real)
    requires forall k :: k in m ==> m[k] == c
    ensures Total(m) == Times(c, |m|)
    decreases |m|
  {
    if m != map[] {
      var k :| k in m;
      TotalRemove(m, k);
      TotalConstant(m - {k}, c);
      RemoveSize(m, k);
    }
  }

  lemma {:induction false} RemoveSize<T, U>(m: map<T, U>, k: T)
    requires k in m
    ensures |m - {k}| == |m| - 1
  {
    assert (m - {k}).Keys == m.Keys - {k};
    assert |(m - {k}).Keys| == |m.Keys| - 1;
  }
}
