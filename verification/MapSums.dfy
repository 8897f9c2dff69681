/** Sums over the values of a finite map: the shape every "per-user" or "per-group" total takes. */
module MapSums {

  ghost function MapSum<K(!new)>(m: map<K, int>): int
    decreases |m|
  {
    if m == map[] then 0
    else
      var k :| k in m;
      m[k] + MapSum(m - {k})
  }

  /** Any key can be split off, whichever one the definition picks first. */
  lemma {:induction false} MapSumSplit<K(!new)>(m: map<K, int>, k: K)
    requires k in m
    ensures MapSum(m) == m[k] + MapSum(m - {k})
    decreases |m|
  {
    var j :| j in m && MapSum(m) == m[j] + MapSum(m - {j});
    if j != k {
      MapSumSplit(m - {j}, k);
      MapSumSplit(m - {k}, j);
      assert m - {j} - {k} == m - {k} - {j};
    }
  }

  lemma MapSumUpdate<K(!new)>(m: map<K, int>, k: K, v: int)
    ensures MapSum(m[k := v]) == MapSum(m) + v - (if k in m then m[k] else 0)
  {
    var n := m[k := v];
    MapSumSplit(n, k);
    assert n - {k} == m - {k};
    if k in m {
      MapSumSplit(m, k);
    } else {
      assert m - {k} == m;
    }
  }

  lemma MapSumBump<K(!new)>(m: map<K, int>, n: map<K, int>, k: K, more: int)
    requires m.Keys == n.Keys && k in m
    requires forall j :: j in m ==> n[j] == m[j] + (if j == k then more else 0)
    ensures MapSum(n) == MapSum(m) + more
  {
    MapSumSplit(m, k);
    MapSumSplit(n, k);
    assert m - {k} == n - {k};
  }

  lemma {:induction false} MapSumMonotone<K(!new)>(m: map<K, int>, n: map<K, int>)
    requires m.Keys == n.Keys
    requires forall k :: k in m ==> m[k] <= n[k]
    ensures MapSum(m) <= MapSum(n)
    decreases |m|
  {
    if m == map[] {
      assert n == map[];
    } else {
      var k :| k in m;
      MapSumSplit(m, k);
      MapSumSplit(n, k);
      MapSumMonotone(m - {k}, n - {k});
    }
  }

  lemma {:induction false} MapSumZero<K(!new)>(m: map<K, int>)
    requires forall k :: k in m ==> m[k] == 0
    ensures MapSum(m) == 0
    decreases |m|
  {
    if m != map[] {
      var k :| k in m;
      MapSumSplit(m, k);
      MapSumZero(m - {k});
    }
  }

  lemma MapSumNonNegative<K(!new)>(m: map<K, int>)
    requires forall k :: k in m ==> m[k] >= 0
    ensures MapSum(m) >= 0
  {
    var zero := map k | k in m :: 0;
    MapSumZero(zero);
    MapSumMonotone(zero, m);
  }
}
