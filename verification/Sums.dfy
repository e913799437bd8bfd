/** Adding up a share for each entry of a map, in whatever order they come. */
module Sums {

  lemma MapSmaller<K, V>(m: map<K, V>, key: K)
    requires key in m
    ensures |m - {key}| < |m|
  {
    assert (m - {key}).Keys == m.Keys - {key};
    assert |m.Keys - {key}| < |m.Keys|;
  }

  ghost function Sum<K(!new), V>(m: map<K, V>, share: (K, V) -> int): int
    decreases |m|
  {
    if m == map[] then 0
    else
      var key :| key in m;
      MapSmaller(m, key);
      share(key, m[key]) + Sum(m - {key}, share)
  }

  lemma {:induction false} SumSplit<K(!new), V>(m: map<K, V>, share: (K, V) -> int, key: K)
    requires key in m
    ensures Sum(m, share) == share(key, m[key]) + Sum(m - {key}, share)
    decreases |m|
  {
    var k :| k in m && Sum(m, share) == share(k, m[k]) + Sum(m - {k}, share);
    if k != key {
      MapSmaller(m, k);
      MapSmaller(m, key);
      SumSplit(m - {k}, share, key);
      SumSplit(m - {key}, share, k);
      assert m - {k} - {key} == m - {key} - {k};
    }
  }

  lemma SumInsert<K(!new), V>(m: map<K, V>, share: (K, V) -> int, key: K, value: V)
    requires key !in m
    ensures Sum(m[key := value], share) == Sum(m, share) + share(key, value)
  {
    SumSplit(m[key := value], share, key);
    assert m[key := value] - {key} == m;
  }

  lemma SumUpdate<K(!new), V>(m: map<K, V>, share: (K, V) -> int, key: K, value: V)
    requires key in m && share(key, m[key]) == share(key, value)
    ensures Sum(m[key := value], share) == Sum(m, share)
  {
    SumSplit(m, share, key);
    SumSplit(m[key := value], share, key);
    assert m[key := value] - {key} == m - {key};
  }

  lemma {:induction false} SumZero<K(!new), V>(m: map<K, V>, share: (K, V) -> int)
    requires forall key :: key in m ==> share(key, m[key]) == 0
    ensures Sum(m, share) == 0
    decreases |m|
  {
    if m != map[] {
      var key :| key in m;
      MapSmaller(m, key);
      SumSplit(m, share, key);
      SumZero(m - {key}, share);
    }
  }
}
