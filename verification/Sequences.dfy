/** Sequences up to reordering. */
module Sequences {
  function Without<T>(s: seq<T>, k: nat): seq<T>
    requires k < |s|
  {
    s[..k] + s[k + 1..]
  }

  lemma WithoutRemovesOne<T>(s: seq<T>, k: nat)
    requires k < |s|
    ensures multiset(Without(s, k)) == multiset(s) - multiset{s[k]}
  {
    assert s == s[..k] + [s[k]] + s[k + 1..];
    assert multiset(s) == multiset(s[..k]) + multiset{s[k]} + multiset(s[k + 1..]);
  }

  /** The first element of a, found in a reordering b of it; without it they are reorderings still. */
  lemma FindFirst<T>(a: seq<T>, b: seq<T>) returns (k: nat)
    requires a != [] && multiset(a) == multiset(b)
    ensures k < |b| && b[k] == a[0]
    ensures multiset(a[1..]) == multiset(Without(b, k))
  {
    assert a[0] in multiset(b);
    k :| 0 <= k < |b| && b[k] == a[0];
    WithoutRemovesOne(b, k);
    WithoutRemovesOne(a, 0);
    assert Without(a, 0) == a[1..];
  }

  lemma EmptyReordering<T>(b: seq<T>)
    requires multiset(b) == multiset{}
    ensures b == []
  {
    assert |multiset(b)| == |b|;
  }
}
