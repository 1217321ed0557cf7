/** Counting finite sets. */
module Counting {

  lemma SubsetIsSmaller<T>(a: set<T>, b: set<T>)
    requires a < b
    ensures |a| < |b|
  {
    assert b == a + (b - a);
    assert b - a != {};
  }

  lemma SmallerSet<T>(a: set<T>, b: set<T>)
    requires a <= b
    ensures |a| <= |b|
  {
    if a != b { SubsetIsSmaller(a, b); }
  }

  lemma SameCountSameSet<T>(a: set<T>, b: set<T>)
    requires a <= b && |a| == |b|
    ensures a == b
  {
    if a != b { SubsetIsSmaller(a, b); }
  }

  lemma PickOutside<T>(a: set<T>, b: set<T>) returns (x: T)
    requires |a| > |b|
    ensures x in a && x !in b
  {
    if a <= b { SmallerSet(a, b); }
    x :| x in a && x !in b;
  }

  predicate InRange(i: int, n: nat) { 0 <= i < n }

  ghost function Range(n: nat): set<int> {
    set i | 0 <= i < n && InRange(i, n)
  }

  lemma {:induction false} RangeCount(n: nat)
    ensures |Range(n)| == n
  {
    if n == 0 {
      assert Range(0) == {};
    } else {
      RangeCount(n - 1);
      assert forall i :: InRange(i, n) <==> InRange(i, n - 1) || i == n - 1;
      assert Range(n) == Range(n - 1) + {n - 1};
    }
  }
}
