/** Sums over the values of a finite map, independent of the order of its keys. */
module Totals {

  ghost function Total<K(!new)>(m: map<K, int>): int {
    if m == map[] then 0
    else
      var k :| k in m;
      m[k] + Total(m - {k})
  }

  /** Any key may be taken first. */
  lemma {:induction false} TotalPick<K(!new)>(m: map<K, int>, k: K)
    requires k in m
    ensures Total(m) == m[k] + Total(m - {k})
    decreases |m|
  {
    var p :| p in m && Total(m) == m[p] + Total(m - {p});
    if p != k {
      TotalPick(m - {p}, k);
      TotalPick(m - {k}, p);
      assert m - {p} - {k} == m - {k} - {p};
    }
  }

  lemma TotalUpdate<K(!new)>(m: map<K, int>, k: K, v: int)
    ensures Total(m[k := v]) == Total(m) - (if k in m then m[k] else 0) + v
  {
    TotalPick(m[k := v], k);
    assert m[k := v] - {k} == m - {k};
    if k in m {
      TotalPick(m, k);
    } else {
      assert m - {k} == m;
    }
  }

  lemma {:induction false} TotalZero<K(!new)>(m: map<K, int>)
    requires forall k :: k in m ==> m[k] == 0
    ensures Total(m) == 0
    decreases |m|
  {
    if m != map[] {
      var k :| k in m;
      TotalPick(m, k);
      TotalZero(m - {k});
    }
  }

  /** A sum splits along any division of the keys. */
  lemma {:induction false} TotalSplit<K(!new)>(m: map<K, int>, keys: set<K>)
    ensures Total(m) == Total(map k | k in m && k in keys :: m[k]) + Total(map k | k in m && k !in keys :: m[k])
    decreases |m|
  {
    if m != map[] {
      var k :| k in m;
      var part, rest := map j | j in m && j in keys :: m[j], map j | j in m && j !in keys :: m[j];
      TotalPick(m, k);
      TotalSplit(m - {k}, keys);
      if k in keys {
        TotalPick(part, k);
        assert part - {k} == map j | j in m - {k} && j in keys :: (m - {k})[j];
        assert rest == map j | j in m - {k} && j !in keys :: (m - {k})[j];
      } else {
        TotalPick(rest, k);
        assert rest - {k} == map j | j in m - {k} && j !in keys :: (m - {k})[j];
        assert part == map j | j in m - {k} && j in keys :: (m - {k})[j];
      }
    }
  }
}
