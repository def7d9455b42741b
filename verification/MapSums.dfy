/** Sums over finite maps. */
module MapSums {

  ghost function SumMap<K(!new), V>(m: map<K, V>, w: (K, V) -> int): int
    decreases |m|
  {
    if m == map[] then 0
    else
      assert m.Keys != {};
      var k :| k in m;
      w(k, m[k]) + SumMap(m - {k}, w)
  }

  lemma {:induction false} SumRemove<K(!new), V>(m: map<K, V>, w: (K, V) -> int, k: K)
    requires k in m
    ensures SumMap(m, w) == w(k, m[k]) + SumMap(m - {k}, w)
    decreases |m|
  {
    assert m.Keys != {};
    var j :| j in m && SumMap(m, w) == w(j, m[j]) + SumMap(m - {j}, w);
    if j != k {
      SumRemove(m - {j}, w, k);
      SumRemove(m - {k}, w, j);
      assert m - {j} - {k} == m - {k} - {j};
    }
  }

  lemma SumUpdate<K(!new), V>(m: map<K, V>, w: (K, V) -> int, k: K, v: V)
    ensures SumMap(m[k := v], w) == SumMap(m, w) - (if k in m then w(k, m[k]) else 0) + w(k, v)
  {
    SumRemove(m[k := v], w, k);
    assert m[k := v] - {k} == m - {k};
    if k in m {
      SumRemove(m, w, k);
    } else {
      assert m - {k} == m;
    }
  }

  /** Only the weights of present entries matter. */
  lemma {:induction false} SumAgree<K(!new), V>(m: map<K, V>, w: (K, V) -> int, w': (K, V) -> int)
    requires forall k :: k in m ==> w(k, m[k]) == w'(k, m[k])
    ensures SumMap(m, w) == SumMap(m, w')
    decreases |m|
  {
    if m != map[] {
      assert m.Keys != {};
      var k :| k in m;
      SumRemove(m, w, k);
      SumRemove(m, w', k);
      SumAgree(m - {k}, w, w');
    }
  }

  lemma {:induction false} SumNonnegative<K(!new), V>(m: map<K, V>, w: (K, V) -> int)
    requires forall k :: k in m ==> w(k, m[k]) >= 0
    ensures SumMap(m, w) >= 0
    ensures forall k :: k in m ==> w(k, m[k]) <= SumMap(m, w)
    decreases |m|
  {
    if m != map[] {
      assert m.Keys != {};
      forall k | k in m
        ensures w(k, m[k]) <= SumMap(m, w) && SumMap(m, w) >= 0
      {
        SumRemove(m, w, k);
        SumNonnegative(m - {k}, w);
      }
      var k :| k in m;
      assert SumMap(m, w) >= 0;
    }
  }

  lemma Split<K(!new), V>(m: map<K, V>, w: (K, V) -> int, k: K)
    ensures SumMap(m, w) == (if k in m then w(k, m[k]) else 0) + SumMap(m - {k}, w)
  {
    if k in m {
      SumRemove(m, w, k);
    } else {
      assert m - {k} == m;
    }
  }

  /** When map and weights change at one key only, so does the sum. */
  lemma SumsMove<K(!new), V>(m: map<K, V>, m': map<K, V>, k: K, w: (K, V) -> int, w': (K, V) -> int)
    requires m - {k} == m' - {k}
    requires forall j :: j in m - {k} ==> w(j, m[j]) == w'(j, m[j])
    ensures SumMap(m', w') - (if k in m' then w'(k, m'[k]) else 0) == SumMap(m, w) - (if k in m then w(k, m[k]) else 0)
  {
    Split(m, w, k);
    Split(m', w', k);
    SumAgree(m - {k}, w, w');
  }
}
