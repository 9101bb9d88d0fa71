/** Sums over the values of a finite map, and sizes of finite sets. */
module Sums {

  lemma SubsetSize<T>(a: set<T>, b: set<T>)
    requires a <= b
    ensures |a| <= |b|
  {
    assert b == a + (b - a);
  }

  ghost function Pick<K(!new), V>(m: map<K, V>): (k: K)
    requires |m| != 0
    ensures k in m
  {
    var k :| k in m;
    k
  }

  ghost function SumBy<K(!new), V>(m: map<K, V>, f: V -> nat): nat
    decreases |m|
  {
    if |m| == 0 then 0 else f(m[Pick(m)]) + SumBy(m - {Pick(m)}, f)
  }

  /** Any entry may be counted first. */
  lemma {:induction false} SumRemove<K(!new), V>(m: map<K, V>, f: V -> nat, k: K)
    requires k in m
    ensures SumBy(m, f) == f(m[k]) + SumBy(m - {k}, f)
    decreases |m|
  {
    var j := Pick(m);
    if j != k {
      var without := m - {j} - {k};
      assert without == m - {k} - {j};
      assert SumBy(m - {j}, f) == f(m[k]) + SumBy(without, f) by {
        SumRemove(m - {j}, f, k);
      }
      assert SumBy(m - {k}, f) == f(m[j]) + SumBy(without, f) by {
        SumRemove(m - {k}, f, j);
      }
    }
  }

  lemma SumInsert<K(!new), V>(m: map<K, V>, f: V -> nat, k: K, v: V)
    requires k !in m
    ensures SumBy(m[k := v], f) == SumBy(m, f) + f(v)
  {
    SumRemove(m[k := v], f, k);
    assert m[k := v] - {k} == m;
  }

  lemma SumReplace<K(!new), V>(m: map<K, V>, f: V -> nat, k: K, v: V)
    requires k in m
    ensures SumBy(m[k := v], f) + f(m[k]) == SumBy(m, f) + f(v)
  {
    SumRemove(m, f, k);
    SumRemove(m[k := v], f, k);
    assert m[k := v] - {k} == m - {k};
  }

  /** Dropping entries never raises the sum. */
  lemma {:induction false} SumSubmap<K(!new), V>(m: map<K, V>, n: map<K, V>, f: V -> nat)
    requires forall k :: k in n ==> k in m && n[k] == m[k]
    ensures SumBy(n, f) <= SumBy(m, f)
    decreases |m|
  {
    if |n| != 0 {
      var k :| k in n;
      SumRemove(n, f, k);
      SumRemove(m, f, k);
      SumSubmap(m - {k}, n - {k}, f);
    }
  }
}
