/** Sums of integer-valued finite maps. */
module Sums {

  ghost function Total<K>(m: map<K, int>): int
    decreases |m|
  {
    if m == map[] then 0 else
    var k :| k in m;
    m[k] + Total(m - {k})
  }

  function Get<K>(m: map<K, int>, k: K): int {
    if k in m then m[k] else 0
  }

  function Abs(x: int): int {
    if x < 0 then -x else x
  }

  function Min(x: int, y: int): int {
    if x < y then x else y
  }

  lemma {:induction false} EmptyTotal<K>()
    ensures Total<K>(map[]) == 0
  {
  }

  lemma {:induction false} TotalRemove<K>(m: map<K, int>, k: K)
    requires k in m
    ensures Total(m) == m[k] + Total(m - {k})
    decreases |m|
  {
    var j :| j in m && Total(m) == m[j] + Total(m - {j});
    if j != k {
      TotalRemove(m - {j}, k);
      TotalRemove(m - {k}, j);
      assert m - {j} - {k} == m - {k} - {j};
    }
  }

  lemma {:induction false} TotalUpdate<K>(m: map<K, int>, k: K, v: int)
    ensures Total(m[k := v]) == Total(m) - Get(m, k) + v
  {
    TotalRemove(m[k := v], k);
    assert m[k := v] - {k} == m - {k};
    if k in m {
      TotalRemove(m, k);
    } else {
      assert m - {k} == m;
    }
  }

  lemma {:induction false} TotalDelete<K>(m: map<K, int>, k: K)
    ensures Total(m - {k}) == Total(m) - Get(m, k)
  {
    if k in m {
      TotalRemove(m, k);
    } else {
      assert m - {k} == m;
    }
  }

  /** Summing is additive: `c` is the pointwise sum of `a` and `b`. */
  lemma {:induction false} TotalAdditive<K>(a: map<K, int>, b: map<K, int>, c: map<K, int>)
    requires a.Keys == b.Keys == c.Keys
    requires forall k :: k in c ==> c[k] == a[k] + b[k]
    ensures Total(c) == Total(a) + Total(b)
    decreases |c|
  {
    if c != map[] {
      var k :| k in c;
      TotalRemove(a, k);
      TotalRemove(b, k);
      TotalRemove(c, k);
      TotalAdditive(a - {k}, b - {k}, c - {k});
    } else {
      assert a == map[] && b == map[];
    }
  }

  lemma {:induction false} TotalNonNegative<K>(m: map<K, int>)
    requires forall k :: k in m ==> m[k] >= 0
    ensures Total(m) >= 0
    decreases |m|
  {
    if m != map[] {
      var k :| k in m;
      TotalRemove(m, k);
      TotalNonNegative(m - {k});
    }
  }

  lemma {:induction false} TotalMonotone<K>(a: map<K, int>, b: map<K, int>)
    requires a.Keys == b.Keys
    requires forall k :: k in a ==> a[k] <= b[k]
    ensures Total(a) <= Total(b)
  {
    var gap := map k | k in a :: b[k] - a[k];
    TotalAdditive(a, gap, b);
    TotalNonNegative(gap);
  }

  lemma {:induction false} TotalSubadditive<K>(a: map<K, int>, b: map<K, int>, c: map<K, int>)
    requires a.Keys == b.Keys == c.Keys
    requires forall k :: k in c ==> c[k] <= a[k] + b[k]
    ensures Total(c) <= Total(a) + Total(b)
  {
    var sum := map k | k in c :: a[k] + b[k];
    TotalAdditive(a, b, sum);
    TotalMonotone(c, sum);
  }

  /** Entries worth zero do not count: only the values at the keys of `a` matter. */
  lemma {:induction false} TotalPad<K>(a: map<K, int>, b: map<K, int>)
    requires a.Keys <= b.Keys
    requires forall k :: k in b ==> b[k] == Get(a, k)
    ensures Total(a) == Total(b)
    decreases |b|
  {
    if a == b {
    } else {
      var k :| k in b && k !in a;
      TotalRemove(b, k);
      TotalPad(a, b - {k});
    }
  }
}
