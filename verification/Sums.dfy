/** Sums over the values of a finite map. */
module Sums {

  ghost function Total<K>(m: map<K, int>): int {
    if m == map[] then 0
    else
      var k :| k in m;
      m[k] + Total(m - {k})
  }

  /** The order in which the keys are taken does not matter. */
  lemma {:induction false} TotalSplit<K>(m: map<K, int>, k: K)
    requires k in m
    ensures Total(m) == m[k] + Total(m - {k})
    decreases |m|
  {
    var j :| j in m && Total(m) == m[j] + Total(m - {j});
    if j != k {
      TotalSplit(m - {j}, k);
      TotalSplit(m - {k}, j);
      assert m - {j} - {k} == m - {k} - {j};
    }
  }

  lemma TotalSet<K>(m: map<K, int>, k: K, x: int)
    ensures Total(m[k := x]) == Total(m) + x - if k in m then m[k] else 0
  {
    TotalSplit(m[k := x], k);
    if k in m {
      TotalSplit(m, k);
      assert m[k := x] - {k} == m - {k};
    } else {
      assert m[k := x] - {k} == m;
    }
  }

  lemma UnionMinus<K>(a: map<K, int>, b: map<K, int>, k: K)
    requires k !in b
    ensures (a + b) - {k} == (a - {k}) + b
  {
  }

  lemma {:induction false} TotalUnion<K>(a: map<K, int>, b: map<K, int>)
    requires a.Keys !! b.Keys
    ensures Total(a + b) == Total(a) + Total(b)
    decreases |a|
  {
    if a == map[] {
      assert a + b == b;
    } else {
      var k :| k in a;
      UnionMinus(a, b, k);
      var rest := a - {k};
      TotalUnion(rest, b);
      TotalSplit(a, k);
      TotalSplit(a + b, k);
    }
  }

  lemma {:induction false} TotalNonNegative<K>(m: map<K, int>)
    requires forall k :: k in m ==> 0 <= m[k]
    ensures 0 <= Total(m)
    ensures forall k :: k in m ==> m[k] <= Total(m)
    decreases |m|
  {
    forall k | k in m
      ensures 0 <= m[k] <= Total(m)
    {
      TotalNonNegative(m - {k});
      TotalSplit(m, k);
    }
    if m != map[] {
      var k :| k in m;
      assert 0 <= m[k] <= Total(m);
    }
  }
}
