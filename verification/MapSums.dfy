/** Sums over the rows of a table, where a table is a finite map from key to row. */
module MapSums {

  ghost function Sum<K(!new), V(!new)>(m: map<K, V>, w: (K, V) -> nat): nat
    decreases |m|
  {
    if m == map[] then 0 else
      var k :| k in m;
      w(k, m[k]) + Sum(m - {k}, w)
  }

  lemma SumEmpty<K(!new), V(!new)>(m: map<K, V>, w: (K, V) -> nat)
    requires m == map[]
    ensures Sum(m, w) == 0
  {}

  /** Any row may be taken out first: the sum does not depend on the order of the scan. */
  lemma {:induction false} SumRemove<K(!new), V(!new)>(m: map<K, V>, w: (K, V) -> nat, k: K)
    requires k in m
    ensures Sum(m, w) == w(k, m[k]) + Sum(m - {k}, w)
    decreases |m|
  {
    var first :| first in m && Sum(m, w) == w(first, m[first]) + Sum(m - {first}, w);
    hide Sum;
    if first != k {
      SumRemove(m - {first}, w, k);
      SumRemove(m - {k}, w, first);
      assert m - {first} - {k} == m - {k} - {first};
    }
  }

  lemma SumPut<K(!new), V(!new)>(m: map<K, V>, w: (K, V) -> nat, k: K, v: V)
    ensures k !in m ==> Sum(m[k := v], w) == Sum(m, w) + w(k, v)
    ensures k in m ==> Sum(m[k := v], w) + w(k, m[k]) == Sum(m, w) + w(k, v)
  {
    hide Sum;
    SumRemove(m[k := v], w, k);
    assert m[k := v] - {k} == m - {k};
    if k in m {
      SumRemove(m, w, k);
    } else {
      assert m - {k} == m;
    }
  }

  lemma {:induction false} SumZero<K(!new), V(!new)>(m: map<K, V>, w: (K, V) -> nat)
    requires forall k :: k in m ==> w(k, m[k]) == 0
    ensures Sum(m, w) == 0
    decreases |m|
  {
    hide Sum;
    if m == map[] {
      SumEmpty(m, w);
    } else {
      var k :| k in m;
      SumRemove(m, w, k);
      SumZero(m - {k}, w);
    }
  }

  lemma SumAtLeast<K(!new), V(!new)>(m: map<K, V>, w: (K, V) -> nat, k: K)
    requires k in m
    ensures w(k, m[k]) <= Sum(m, w)
  {
    hide Sum;
    SumRemove(m, w, k);
  }

  /** Rows that are rewritten one by one: the sum moves by the sum of the differences. */
  lemma {:induction false} SumShift<K(!new), V(!new)>(
      m: map<K, V>, m': map<K, V>, w: (K, V) -> nat, d: (K, V) -> nat)
    requires m'.Keys == m.Keys
    requires forall k :: k in m ==> w(k, m'[k]) + d(k, m[k]) == w(k, m[k])
    ensures Sum(m', w) + Sum(m, d) == Sum(m, w)
    decreases |m|
  {
    hide Sum;
    if m == map[] {
      SumEmpty(m, w);
      SumEmpty(m, d);
      SumEmpty(m', w);
    } else {
      var k :| k in m;
      SumRemove(m, w, k);
      SumRemove(m, d, k);
      SumRemove(m', w, k);
      SumShift(m - {k}, m' - {k}, w, d);
    }
  }

  /** Rows of weight zero can be deleted without changing the sum. */
  lemma {:induction false} SumDrop<K(!new), V(!new)>(m: map<K, V>, w: (K, V) -> nat, gone: set<K>)
    requires forall k :: k in m && k in gone ==> w(k, m[k]) == 0
    ensures Sum(m - gone, w) == Sum(m, w)
    decreases |m|
  {
    hide Sum;
    if m == map[] {
      assert m - gone == m;
    } else {
      var k :| k in m;
      SumRemove(m, w, k);
      SumDrop(m - {k}, w, gone);
      if k in gone {
        assert m - {k} - gone == m - gone;
      } else {
        SumRemove(m - gone, w, k);
        assert m - {k} - gone == m - gone - {k};
      }
    }
  }

  /** Two tables with the same keys and the same weights have the same sum. */
  lemma SumSame<K(!new), V(!new)>(m: map<K, V>, m': map<K, V>, w: (K, V) -> nat)
    requires m'.Keys == m.Keys
    requires forall k :: k in m ==> w(k, m'[k]) == w(k, m[k])
    ensures Sum(m', w) == Sum(m, w)
  {
    hide Sum;
    var none := (k: K, v: V) => 0;
    SumShift(m, m', w, none);
    SumZero(m, none);
  }

  lemma {:induction false} SumLe<K(!new), V(!new)>(m: map<K, V>, m': map<K, V>, w: (K, V) -> nat)
    requires m'.Keys == m.Keys
    requires forall k :: k in m ==> w(k, m'[k]) <= w(k, m[k])
    ensures Sum(m', w) <= Sum(m, w)
    decreases |m|
  {
    hide Sum;
    if m == map[] {
      SumEmpty(m', w);
    } else {
      var k :| k in m;
      SumRemove(m, w, k);
      SumRemove(m', w, k);
      SumLe(m - {k}, m' - {k}, w);
    }
  }
}
