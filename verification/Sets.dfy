/** Sizes of finite sets. */
module Sets {
  lemma SubsetIsNoLarger<T>(a: set<T>, b: set<T>)
    requires a <= b
    ensures |a| <= |b|
  {
    assert b == a + (b - a);
  }

  lemma SubsetAndRest<T>(a: set<T>, b: set<T>)
    requires a <= b
    ensures |a| + |b - a| == |b|
  {
    assert b == a + (b - a);
  }
}
