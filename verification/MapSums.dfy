/** Sums of a weight over the values of a finite map, and how they react to one map update. */
module MapSums {

  ghost function Pick<K, V>(m: map<K, V>): (k: K)
    requires m.Keys != {}
    ensures k in m
  {
    var k :| k in m.Keys; k
  }

  ghost function Sum<K, V>(m: map<K, V>, weight: V -> nat): nat
    decreases |m|
  {
    if m.Keys == {} then 0
    else
      var k := Pick(m);
      weight(m[k]) + Sum(m - {k}, weight)
  }

  /** The sum does not depend on the order in which the keys are picked. */
  lemma {:induction false} SumRemove<K, V>(m: map<K, V>, weight: V -> nat, k: K)
    requires k in m
    ensures Sum(m, weight) == weight(m[k]) + Sum(m - {k}, weight)
    decreases |m|
  {
    var first := Pick(m);
    if first != k {
      var rest := m - {first};
      SumRemove(rest, weight, k);
      assert rest - {k} == (m - {k}) - {first};
      SumRemove(m - {k}, weight, first);
    }
  }

  lemma SumInsert<K, V>(m: map<K, V>, weight: V -> nat, k: K, v: V)
    requires k !in m
    ensures Sum(m[k := v], weight) == Sum(m, weight) + weight(v)
  {
    var extended := m[k := v];
    SumRemove(extended, weight, k);
    assert extended - {k} == m;
  }

  lemma SumReplace<K, V>(m: map<K, V>, weight: V -> nat, k: K, v: V)
    requires k in m
    ensures Sum(m[k := v], weight) + weight(m[k]) == Sum(m, weight) + weight(v)
  {
    var replaced := m[k := v];
    SumRemove(m, weight, k);
    SumRemove(replaced, weight, k);
    assert replaced - {k} == m - {k};
  }

  /** No single entry weighs more than the whole map. */
  lemma SumBoundsEntry<K, V>(m: map<K, V>, weight: V -> nat, k: K)
    requires k in m
    ensures weight(m[k]) <= Sum(m, weight)
  {
    SumRemove(m, weight, k);
  }

  lemma {:induction false} SumZero<K, V>(m: map<K, V>, weight: V -> nat)
    requires forall k :: k in m ==> weight(m[k]) == 0
    ensures Sum(m, weight) == 0
    decreases |m|
  {
    if m.Keys != {} {
      SumZero(m - {Pick(m)}, weight);
    }
  }
}
