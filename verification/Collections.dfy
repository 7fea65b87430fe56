/** Facts about finite collections that several modules need. */
module Collections {

  lemma SameMembers<T>(a: seq<T>, b: seq<T>)
    requires multiset(a) == multiset(b)
    ensures forall x :: x in a <==> x in b
  {
    forall x
      ensures x in a <==> x in b
    {
      assert x in multiset(a) <==> x in a;
      assert x in multiset(b) <==> x in b;
    }
  }

  lemma SubsetIsNoLarger<T>(a: set<T>, b: set<T>)
    requires a <= b
    ensures |a| <= |b|
  {
    assert b == a + (b - a);
  }

  lemma TakenOut<T>(s: seq<T>, k: nat)
    requires k < |s|
    ensures multiset(s) == multiset(s[..k] + s[k + 1..]) + multiset{s[k]}
  {
    assert s == s[..k] + [s[k]] + s[k + 1..];
  }

  /** Taking the same element out of two reorderings leaves two reorderings. */
  lemma WithoutLast<T>(a: seq<T>, b: seq<T>, k: nat)
    requires a != [] && k < |b| && b[k] == a[|a| - 1] && multiset(a) == multiset(b)
    ensures multiset(a[..|a| - 1]) == multiset(b[..k] + b[k + 1..])
  {
    var n := |a| - 1;
    assert a == a[..n] + [a[n]];
    var rest := b[..k] + b[k + 1..];
    TakenOut(b, k);
    forall x
      ensures multiset(a[..n])[x] == multiset(rest)[x]
    {
      assert multiset(a)[x] == multiset(a[..n])[x] + multiset{a[n]}[x];
      assert multiset(b)[x] == multiset(rest)[x] + multiset{b[k]}[x];
    }
  }

  lemma TwiceCountsTwo<T>(s: seq<T>, j: nat, k: nat)
    requires j < k < |s| && s[j] == s[k]
    ensures multiset(s)[s[j]] >= 2
  {
    var a, b := s[..k], s[k..];
    assert s == a + b && a[j] == s[j] && b[0] == s[j];
    assert s[j] in multiset(a) && s[j] in multiset(b);
  }
}
