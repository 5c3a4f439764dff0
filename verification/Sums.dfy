/** Finite sums over the values of a map and over a log, and the few laws the ledgers need. */
module Sums {

  ghost function Pick<K, V>(m: map<K, V>): (k: K)
    requires m != map[]
    ensures k in m
  {
    assert m.Keys != {};
    var k :| k in m;
    k
  }

  /** The sum of `f` over every value stored in `m`. */
  ghost function Sum<K, V>(m: map<K, V>, f: V -> int): int
    decreases |m|
  {
    if m == map[] then 0
    else
      var k := Pick(m);
      assert (m - {k}).Keys == m.Keys - {k};
      f(m[k]) + Sum(m - {k}, f)
  }

  /** Any key may be taken out first. */
  lemma {:induction false} SumPick<K, V>(m: map<K, V>, k: K, f: V -> int)
    requires k in m
    ensures Sum(m, f) == f(m[k]) + Sum(m - {k}, f)
    decreases |m|
  {
    var j := Pick(m);
    if j != k {
      assert (m - {j}).Keys == m.Keys - {j} && (m - {k}).Keys == m.Keys - {k};
      SumPick(m - {j}, k, f);
      SumPick(m - {k}, j, f);
      assert m - {j} - {k} == m - {k} - {j};
    }
  }

  /** Storing `v` under `k` replaces the old contribution of `k`, if there was one. */
  lemma SumPut<K, V>(m: map<K, V>, k: K, v: V, f: V -> int)
    ensures Sum(m[k := v], f) == Sum(m, f) + f(v) - (if k in m then f(m[k]) else 0)
  {
    var n := m[k := v];
    SumPick(n, k, f);
    if k in m {
      SumPick(m, k, f);
      assert n - {k} == m - {k};
    } else {
      assert n - {k} == m;
    }
  }

  lemma {:induction false} SumZero<K, V>(m: map<K, V>, f: V -> int)
    requires forall k :: k in m ==> f(m[k]) == 0
    ensures Sum(m, f) == 0
    decreases |m|
  {
    if m != map[] {
      var k := Pick(m);
      assert (m - {k}).Keys == m.Keys - {k};
      SumZero(m - {k}, f);
    }
  }

  lemma {:induction false} SumNonNegative<K, V>(m: map<K, V>, f: V -> int)
    requires forall k :: k in m ==> f(m[k]) >= 0
    ensures Sum(m, f) >= 0
    decreases |m|
  {
    if m != map[] {
      var k := Pick(m);
      assert (m - {k}).Keys == m.Keys - {k};
      SumNonNegative(m - {k}, f);
    }
  }

  /** Maps with the same keys and the same contributions have the same sum. */
  lemma {:induction false} SumSame<K, V>(m: map<K, V>, n: map<K, V>, f: V -> int)
    requires m.Keys == n.Keys
    requires forall k :: k in m ==> f(m[k]) == f(n[k])
    ensures Sum(m, f) == Sum(n, f)
    decreases |m|
  {
    if m == map[] {
      assert n.Keys == {};
      assert n == map[];
    } else {
      var k := Pick(m);
      assert (m - {k}).Keys == m.Keys - {k} && (n - {k}).Keys == n.Keys - {k};
      SumPick(n, k, f);
      SumSame(m - {k}, n - {k}, f);
    }
  }

  /** Sums add up. */
  lemma {:induction false} SumPlus<K, V>(m: map<K, V>, f: V -> int, g: V -> int, h: V -> int)
    requires forall k :: k in m ==> f(m[k]) == g(m[k]) + h(m[k])
    ensures Sum(m, f) == Sum(m, g) + Sum(m, h)
    decreases |m|
  {
    if m != map[] {
      var k := Pick(m);
      assert (m - {k}).Keys == m.Keys - {k};
      SumPlus(m - {k}, f, g, h);
    }
  }

  /** One contribution is never larger than the sum of all of them. */
  lemma SumCovers<K, V>(m: map<K, V>, k: K, f: V -> int)
    requires forall j :: j in m ==> f(m[j]) >= 0
    requires k in m
    ensures f(m[k]) <= Sum(m, f)
  {
    SumPick(m, k, f);
    SumNonNegative(m - {k}, f);
  }

  /** The sum of `f` over a log that grows at its end. */
  ghost function SeqSum<T>(s: seq<T>, f: T -> int): int {
    if s == [] then 0 else SeqSum(s[..|s| - 1], f) + f(s[|s| - 1])
  }

  lemma SeqSumAppend<T>(s: seq<T>, x: T, f: T -> int)
    ensures SeqSum(s + [x], f) == SeqSum(s, f) + f(x)
  {
    assert (s + [x])[..|s|] == s;
  }

  lemma {:induction false} SeqSumZero<T>(s: seq<T>, f: T -> int)
    requires forall x :: x in s ==> f(x) == 0
    ensures SeqSum(s, f) == 0
  {
    if s != [] {
      SeqSumZero(s[..|s| - 1], f);
    }
  }

  lemma {:induction false} SeqSumSame<T>(s: seq<T>, f: T -> int, g: T -> int)
    requires forall x :: x in s ==> f(x) == g(x)
    ensures SeqSum(s, f) == SeqSum(s, g)
  {
    if s != [] {
      SeqSumSame(s[..|s| - 1], f, g);
    }
  }

  lemma {:induction false} SeqSumPlus<T>(s: seq<T>, f: T -> int, g: T -> int, h: T -> int)
    requires forall x :: x in s ==> f(x) == g(x) + h(x)
    ensures SeqSum(s, f) == SeqSum(s, g) + SeqSum(s, h)
  {
    if s != [] {
      SeqSumPlus(s[..|s| - 1], f, g, h);
    }
  }

  /** No entry of a log of non-negative contributions exceeds their sum. */
  lemma {:induction false} SeqSumCovers<T>(s: seq<T>, x: T, f: T -> int)
    requires forall y :: y in s ==> f(y) >= 0
    requires x in s
    ensures f(x) <= SeqSum(s, f)
  {
    var n := |s| - 1;
    SeqSumNonNegative(s[..n], f);
    if s[n] != x {
      assert x in s[..n];
      SeqSumCovers(s[..n], x, f);
    }
  }

  lemma {:induction false} SeqSumNonNegative<T>(s: seq<T>, f: T -> int)
    requires forall x :: x in s ==> f(x) >= 0
    ensures SeqSum(s, f) >= 0
  {
    if s != [] {
      SeqSumNonNegative(s[..|s| - 1], f);
    }
  }

  lemma {:induction false} SeqSumConcat<T>(a: seq<T>, b: seq<T>, f: T -> int)
    ensures SeqSum(a + b, f) == SeqSum(a, f) + SeqSum(b, f)
  {
    if b == [] {
      assert a + b == a;
    } else {
      var n := |b| - 1;
      assert (a + b)[..|a + b| - 1] == a + b[..n];
      SeqSumConcat(a, b[..n], f);
    }
  }
}
