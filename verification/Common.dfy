/** Small shared definitions: optional values and sums over finite maps. */
module Common {

  datatype Option<+T> = None | Some(value: T)

  /** The sum of the values of a finite map, in whatever order its keys are visited. */
  ghost function SumMap<K>(m: map<K, int>): int
    decreases |m|
  {
    if m == map[] then 0
    else
      var k :| k in m;
      assert |m - {k}| < |m| by { assert k !in m - {k}; RemoveSmaller(m, k); }
      m[k] + SumMap(m - {k})
  }

  lemma RemoveSmaller<K>(m: map<K, int>, k: K)
    requires k in m
    ensures |m - {k}| == |m| - 1
  {
    assert (m - {k}).Keys == m.Keys - {k};
    assert |m.Keys| == |m.Keys - {k}| + 1;
  }

  /** Any key may be taken out first: the sum does not depend on iteration order. */
  lemma {:induction false} SumMapRemove<K>(m: map<K, int>, k: K)
    requires k in m
    ensures SumMap(m) == m[k] + SumMap(m - {k})
    decreases |m|
  {
    var j :| j in m && SumMap(m) == m[j] + SumMap(m - {j});
    if j != k {
      RemoveSmaller(m, j);
      RemoveSmaller(m, k);
      SumMapRemove(m - {j}, k);
      SumMapRemove(m - {k}, j);
      assert m - {j} - {k} == m - {k} - {j};
    }
  }

  /** The sum over two maps without a common key is the sum of their sums. */
  lemma {:induction false} SumMapUnion<K>(m: map<K, int>, n: map<K, int>)
    requires m.Keys !! n.Keys
    ensures SumMap(m + n) == SumMap(m) + SumMap(n)
    decreases |n|
  {
    if n == map[] {
      assert m + n == m;
    } else {
      var k :| k in n;
      RemoveSmaller(n, k);
      SumMapRemove(n, k);
      RemoveFromUnion(m, n, k);
      SumMapRemove(m + n, k);
      SumMapUnion(m, n - {k});
    }
  }

  lemma RemoveFromUnion<K>(m: map<K, int>, n: map<K, int>, k: K)
    requires m.Keys !! n.Keys && k in n
    ensures (m + n) - {k} == m + (n - {k}) && (m + n)[k] == n[k] && m.Keys !! (n - {k}).Keys
  {}

  /** A single value is its own sum. */
  lemma SumMapOne<K>(k: K, v: int)
    ensures SumMap(map[k := v]) == v
  {
    SumMapRemove(map[k := v], k);
    assert map[k := v] - {k} == map[];
  }
}
