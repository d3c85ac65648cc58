/** Options and sums over the rows of a table. */
module Collections {

  datatype Option<+T> = None | Some(value: T)

  /**
   * The total weight of a table's rows. `SumRemove` shows that the order in which the rows are visited is irrelevant.
   */
  ghost function Sum<K(!new), V(!new)>(m: map<K, V>, w: (K, V) -> nat): nat
    decreases |m|
  {
    if m == map[] then 0
    else
      var k :| k in m;
      w(k, m[k]) + Sum(m - {k}, w)
  }

  lemma {:induction false} SumRemove<K(!new), V(!new)>(m: map<K, V>, w: (K, V) -> nat, k: K)
    requires k in m
    ensures Sum(m, w) == w(k, m[k]) + Sum(m - {k}, w)
    decreases |m|
  {
    var first :| first in m && Sum(m, w) == w(first, m[first]) + Sum(m - {first}, w);
    if first != k {
      SumRemove(m - {first}, w, k);
      SumRemove(m - {k}, w, first);
      assert (m - {first}) - {k} == (m - {k}) - {first};
    }
  }

  lemma SumUpdate<K(!new), V(!new)>(m: map<K, V>, w: (K, V) -> nat, k: K, v: V)
    ensures Sum(m[k := v], w) == Sum(m - {k}, w) + w(k, v)
    ensures k !in m ==> Sum(m[k := v], w) == Sum(m, w) + w(k, v)
    ensures k in m ==> Sum(m[k := v], w) + w(k, m[k]) == Sum(m, w) + w(k, v)
  {
    SumRemove(m[k := v], w, k);
    assert m[k := v] - {k} == m - {k};
    if k in m {
      SumRemove(m, w, k);
    } else {
      assert m - {k} == m;
    }
  }

  lemma {:induction false} SumMonotone<K(!new), V(!new)>(
    m: map<K, V>, w: (K, V) -> nat, m': map<K, V>, w': (K, V) -> nat)
    requires m.Keys == m'.Keys
    requires forall k :: k in m ==> w(k, m[k]) <= w'(k, m'[k])
    ensures Sum(m, w) <= Sum(m', w')
    decreases |m|
  {
    if m == map[] {
      assert m' == map[];
    } else {
      var k :| k in m;
      SumRemove(m, w, k);
      SumRemove(m', w', k);
      SumMonotone(m - {k}, w, m' - {k}, w');
    }
  }

  lemma SumSame<K(!new), V(!new)>(m: map<K, V>, w: (K, V) -> nat, m': map<K, V>, w': (K, V) -> nat)
    requires m.Keys == m'.Keys
    requires forall k :: k in m ==> w(k, m[k]) == w'(k, m'[k])
    ensures Sum(m, w) == Sum(m', w')
  {
    SumMonotone(m, w, m', w');
    SumMonotone(m', w', m, w);
  }

  lemma {:induction false} SumZero<K(!new), V(!new)>(m: map<K, V>, w: (K, V) -> nat)
    requires forall k :: k in m ==> w(k, m[k]) == 0
    ensures Sum(m, w) == 0
    decreases |m|
  {
    if m != map[] {
      var k :| k in m;
      SumRemove(m, w, k);
      SumZero(m - {k}, w);
    }
  }

  lemma KeysAfterUpdate<K, V>(m: map<K, V>, k: K, v: V)
    requires k in m
    ensures m[k := v].Keys == m.Keys
  {
  }

  /** Weights of zero and one count the rows of weight one. */
  lemma {:induction false} SumCounts<K(!new), V(!new)>(m: map<K, V>, w: (K, V) -> nat, rows: set<K>)
    requires forall k :: k in m ==> w(k, m[k]) == if k in rows then 1 else 0
    requires rows <= m.Keys
    ensures Sum(m, w) == |rows|
    decreases |m|
  {
    if m == map[] {
      assert rows == {};
    } else {
      var k :| k in m;
      SumRemove(m, w, k);
      SumCounts(m - {k}, w, rows - {k});
      if k !in rows {
        assert rows - {k} == rows;
      }
    }
  }
}
