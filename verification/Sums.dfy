/** The sum of a finite map's values. */
module Sums {
  ghost function Sum<K>(m: map<K, int>): int
    decreases |m|
  {
    if m == map[] then 0
    else
      var k :| k in m;
      m[k] + Sum(m - {k})
  }

  /** Any key may be taken out first. */
  lemma {:induction false} SumTakeOut<K>(m: map<K, int>, k: K)
    requires k in m
    ensures Sum(m) == m[k] + Sum(m - {k})
    decreases |m|
  {
    var c :| c in m && Sum(m) == m[c] + Sum(m - {c});
    if c != k {
      var rest := m - {c};
      SumTakeOut(rest, k);
      SumTakeOut(m - {k}, c);
      assert rest - {k} == m - {k} - {c};
    }
  }

  lemma SumInsert<K>(m: map<K, int>, k: K, v: int)
    requires k !in m
    ensures Sum(m[k := v]) == Sum(m) + v
  {
    SumTakeOut(m[k := v], k);
    assert m[k := v] - {k} == m;
  }

  lemma SumUpdate<K>(m: map<K, int>, k: K, v: int)
    requires k in m
    ensures Sum(m[k := v]) == Sum(m) - m[k] + v
  {
    SumTakeOut(m, k);
    SumTakeOut(m[k := v], k);
    assert m[k := v] - {k} == m - {k};
  }

  /** Values that are nowhere negative and at least as large on a larger domain sum to no less. */
  lemma {:induction false} SumMonotone<K>(m: map<K, int>, n: map<K, int>)
    requires m.Keys <= n.Keys
    requires forall k | k in n :: 0 <= n[k] && (k in m ==> m[k] <= n[k])
    ensures Sum(m) <= Sum(n)
    decreases |n|
  {
    if n == map[] {
      assert m == map[];
    } else {
      var k :| k in n;
      SumTakeOut(n, k);
      if k in m {
        SumTakeOut(m, k);
        SumMonotone(m - {k}, n - {k});
      } else {
        SumMonotone(m, n - {k});
      }
    }
  }

  /** Two pairs of maps that differ by the same amounts everywhere differ by the same total. */
  lemma {:induction false} SumSameDifference<K>(a: map<K, int>, b: map<K, int>, c: map<K, int>, d: map<K, int>)
    requires a.Keys == b.Keys == c.Keys == d.Keys
    requires forall k | k in a :: a[k] - b[k] == c[k] - d[k]
    ensures Sum(a) - Sum(b) == Sum(c) - Sum(d)
    decreases |a|
  {
    if a == map[] {
      assert b == map[] && c == map[] && d == map[];
    } else {
      var k :| k in a;
      SumTakeOut(a, k);
      SumTakeOut(b, k);
      SumTakeOut(c, k);
      SumTakeOut(d, k);
      SumSameDifference(a - {k}, b - {k}, c - {k}, d - {k});
    }
  }
}
