/** Rounding and the sizes of sets and maps, as several modules need them. */
module Common {

  function Ceil(x: real): int { -((-x).Floor) }

  function Smaller(x: real, y: real): real { if x <= y then x else y }

  lemma SubsetSize<T>(a: set<T>, b: set<T>)
    requires a <= b
    ensures |a| <= |b|
  {
    assert b == a + (b - a);
  }

  lemma RemovedSize<K, V>(m: map<K, V>, gone: set<K>)
    requires gone <= m.Keys
    ensures |m - gone| + |gone| == |m|
  {
    assert (m - gone).Keys == m.Keys - gone;
  }
}
