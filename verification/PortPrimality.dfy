/** Why the pool size has to be prime. */
module PortPrimality {
  import opened Counting
  import opened Ordering
  import opened Placement
  import opened NumberTheory
  import opened Ports

  /** Whatever the hash, as many distinct names as there are slots all get a port. */
  ghost predicate ServesFullLoad(base: int, n: int) {
    forall h: Hash32, names: seq<string> ::
      Distinct(names) && |names| <= n ==> AssignResult(h, names, base, n).Ports?
  }

  predicate IsStepKey(s: string) { |s| >= 5 && s[..5] == "step:" }

  /** A hash that starts every name at slot 0 and makes every stride d. */
  function StridingHash(d: nat): Hash32
    requires 1 <= d < 0x1_0000_0000
  {
    s => if IsStepKey(s) then d - 1 else 0
  }

  function Run(n: nat): string { seq(n, _ => 'a') }

  function ManyNames(k: nat): seq<string> { seq(k, i requires 0 <= i => Run(i)) }

  lemma ManyNamesAreDistinct(k: nat)
    ensures |ManyNames(k)| == k && Distinct(ManyNames(k))
    ensures forall x :: x in ManyNames(k) ==> !IsStepKey(x)
  {
    var names := ManyNames(k);
    forall i, j | 0 <= i < j < k ensures names[i] != names[j] {
      assert |names[i]| == i && |names[j]| == j;
    }
    forall x | x in names ensures !IsStepKey(x) {
      var i :| 0 <= i < k && names[i] == x;
      if |x| >= 5 { assert x[..5][0] == 'a'; }
    }
  }

  lemma StridesBy(name: string, d: nat, n: nat)
    requires 1 <= d < n < 0x8000_0000 && !IsStepKey(name)
    ensures Start(StridingHash(d), name, n) == 0 && Step(StridingHash(d), name, n) == d
  {
    var key := "step:" + name;
    assert key[..5] == "step:";
    assert StridingHash(d)(key) == d - 1 && StridingHash(d)(name) == 0;
    DivisionIsUnique(d - 1, n - 1, 0, d - 1);
    DivisionIsUnique(0, n, 0, 0);
  }

  ghost function Multiples(d: nat, b: nat): set<int> {
    set m | 0 <= m < b :: m * d
  }

  lemma {:induction false} MultiplesCount(d: nat, b: nat)
    ensures |Multiples(d, b)| <= b
  {
    if b == 0 {
      assert Multiples(d, 0) == {};
    } else {
      MultiplesCount(d, b - 1);
      assert Multiples(d, b) == Multiples(d, b - 1) + {(b - 1) * d};
    }
  }

  /** A stride that divides the pool only ever reaches its own multiples. */
  lemma StrideReaches(d: nat, b: nat, n: nat, i: int)
    requires n == b * d && 1 <= d < n && i >= 0
    ensures Slot(0, d, n, i) in Multiples(d, b)
  {
    var q, s := (i * d) / n, (i * d) % n;
    assert i * d == n * q + s;
    assert n * q == b * q * d;
    var m := i - b * q;
    assert s == m * d by { assert (i - b * q) * d == i * d - b * q * d; }
    assert m <= -1 ==> m * d <= -(d as int);
    assert m >= b ==> m * d >= b * d;
  }

  /** For these names, every slot picked is a multiple of the stride. */
  lemma {:induction false} StrideKeepsToMultiples(names: seq<string>, base: int, d: nat, b: nat, n: nat)
    requires n == b * d && 1 <= d < n <= 46341
    requires forall x :: x in names ==> !IsStepKey(x)
    ensures var r := Assign(DoubleHashing(StridingHash(d), n), names, base); r.Some? ==> r.value.used <= Multiples(d, b)
  {
    if names != [] {
      var k := |names| - 1;
      StrideKeepsToMultiples(names[..k], base, d, b, n);
      var before := Assign(DoubleHashing(StridingHash(d), n), names[..k], base);
      if before.Some? {
        StridesBy(names[k], d, n);
        StrideSlot(d, b, n, before.value.used);
      }
    }
  }

  lemma StrideSlot(d: nat, b: nat, n: nat, used: set<int>)
    requires n == b * d && 1 <= d < n <= 46341
    ensures var r := FindSlot(0, d, n, used, 0); r.Some? ==> r.value in Multiples(d, b)
  {
    FindSlotFinds(0, d, n, used, 0);
    var r := FindSlot(0, d, n, used, 0);
    if r.Some? {
      var i :| 0 <= i < n && r.value == Probe(0, d, n, i);
      ProbeIsSlot(0, d, n, i);
      StrideReaches(d, b, n, i);
    }
  }

  lemma CompositePoolFails(base: int, d: nat, b: nat, n: nat)
    requires n == b * d && 2 <= d < n <= 46341 && 0 <= base && base + n <= 0x8000_0000
    ensures Distinct(ManyNames(b + 1)) && |ManyNames(b + 1)| <= n
    ensures AssignResult(StridingHash(d), ManyNames(b + 1), base, n) == NoFreePorts
  {
    var names := ManyNames(b + 1);
    ManyNamesAreDistinct(b + 1);
    var sorted := SortStrings(names);
    DistinctMultiset(names, sorted);
    forall x | x in sorted ensures x in names {
      assert x in multiset(sorted);
    }
    StuckTable(sorted, base, d, b, n);
    PairsFit(d, b, n);
  }

  /** More names than multiples of the stride cannot all be served. */
  lemma StuckTable(names: seq<string>, base: int, d: nat, b: nat, n: nat)
    requires n == b * d && 2 <= d < n <= 46341 && 0 <= base && base + n <= 0x8000_0000
    requires Distinct(names) && |names| > b && forall x :: x in names ==> !IsStepKey(x)
    ensures Assign(DoubleHashing(StridingHash(d), n), names, base) == None
  {
    StrideKeepsToMultiples(names, base, d, b, n);
    DoubleHashingPicksFree(StridingHash(d), n);
    AssignIsSound(DoubleHashing(StridingHash(d), n), names, base, n);
    MultiplesCount(d, b);
    var r := Assign(DoubleHashing(StridingHash(d), n), names, base);
    if r.Some? {
      SmallerSet(r.value.used, Multiples(d, b));
    }
  }

  lemma PairsFit(d: nat, b: nat, n: nat)
    requires n == b * d && 2 <= d < n
    ensures b + 1 <= n
  {
    assert b == 0 ==> b * d == 0;
    assert b * d == b * (d - 2) + 2 * b;
    assert b * (d - 2) >= 0;
  }

  /** A pool serves its full load under every hash exactly when its size is prime. */
  lemma FullLoadExactlyWhenPrime(base: int, n: int)
    requires 1 <= n <= 46341 && 0 <= base && base + n <= 0x8000_0000
    ensures ServesFullLoad(base, n) <==> Prime(n)
  {
    if Prime(n) {
      forall h: Hash32, names: seq<string> | Distinct(names) && |names| <= n
        ensures AssignResult(h, names, base, n).Ports?
      {
        PrimePool(h, names, base, n);
      }
    } else if n == 1 {
      ManyNamesAreDistinct(1);
      assert AssignResult(StridingHash(1), ManyNames(1), base, 1) == DivideByZero;
    } else {
      var d :| 2 <= d < n && Divides(d, n);
      var b: int :| n == b * d;
      assert b > 0 by { assert b <= 0 ==> b * d <= 0; }
      CompositePoolFails(base, d, b, n);
      assert !AssignResult(StridingHash(d), ManyNames(b + 1), base, n).Ports?;
    }
  }
}
