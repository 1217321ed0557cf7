/** What every possible placement result satisfies. */
module PlacementTheorems {
  import opened Counting
  import opened Ordering
  import opened Placement

  // ---------- vocabulary ----------

  /** What the callers' bookkeeping gives: on the pods that still exist, each
      recorded owner is a known target recorded once, under a natural index. */
  ghost predicate CleanOwners(targets: set<string>, o: Options) {
    && (forall p :: p in o.current && p < o.numPods ==>
          0 <= p && Distinct(o.current[p]) && forall t :: t in o.current[p] ==> t in targets)
    && (forall p, q, t :: p in o.current && q in o.current && p < q < o.numPods && t in o.current[p] ==>
          t !in o.current[q])
  }

  /** No name twice, neither on one pod nor on two. */
  ghost predicate Exclusive(a: Assignment) {
    && (forall p :: p in a ==> Distinct(a[p]))
    && (forall p, q, t :: p in a && q in a && p != q && t in a[p] ==> t !in a[q])
  }

  function Ceiling(cap: int): nat { if cap < 0 then 0 else cap }

  ghost predicate Within(a: Assignment, numPods: int, cap: int) {
    forall p :: p in a ==> 0 <= p < numPods && |a[p]| <= Ceiling(cap)
  }

  ghost predicate AllFull(a: Assignment, numPods: int, cap: int) {
    forall p :: 0 <= p < numPods ==> !HasRoom(a, p, cap)
  }

  /** b has everything a has, in the same order, possibly followed by more. */
  ghost predicate Extends(a: Assignment, b: Assignment) {
    forall p :: p in a ==> p in b && a[p] <= b[p]
  }

  ghost function Elements<T>(s: seq<T>): set<T> { set x | x in s }

  function Min(a: int, b: int): int { if a <= b then a else b }

  function Capacity(targets: set<string>, o: Options): int
    requires o.numPods >= 1
  {
    EffectiveCapacity(|targets|, o)
  }

  // ---------- the kept phase ----------

  lemma SubmultisetDistinct(s: seq<string>, t: seq<string>)
    requires Distinct(s) && multiset(t) <= multiset(s)
    ensures Distinct(t) && forall x :: x in t ==> x in s
  {
    DistinctCounts(s);
    forall i, j | 0 <= i < j < |t| ensures t[i] != t[j] {
      CountTwice(t, i, j);
    }
    forall x | x in t ensures x in s {
      assert x in multiset(t);
    }
  }

  lemma KeptIsClean(score: Score, targets: set<string>, o: Options, cap: int, kept: Assignment)
    requires CleanOwners(targets, o) && KeptPhase(score, o.current, o.numPods, cap, kept)
    ensures Exclusive(kept) && Within(kept, o.numPods, cap) && Placed(kept) <= targets
  {
    forall p | p in kept ensures Distinct(kept[p]) && forall x :: x in kept[p] ==> x in o.current[p] {
      SubmultisetDistinct(o.current[p], kept[p]);
    }
    forall p, q, t | p in kept && q in kept && p != q && t in kept[p] ensures t !in kept[q] {
      assert p in o.current && q in o.current && t in o.current[p];
      assert t !in o.current[q];
    }
  }

  // ---------- one step and the fold ----------

  lemma PlacedHas(a: Assignment, p: int, t: string)
    requires t in Names(a, p)
    ensures t in Placed(a)
  {
    assert p in a && t in a[p];
  }

  lemma PutIsClean(a: Assignment, p: int, t: string)
    requires Exclusive(a) && t !in Placed(a)
    ensures Exclusive(Put(a, p, t)) && Placed(Put(a, p, t)) == Placed(a) + {t}
    ensures Extends(a, Put(a, p, t))
  {
    var b := Put(a, p, t);
    assert forall q :: q in a ==> t !in a[q] by {
      forall q | q in a ensures t !in a[q] {
        if t in a[q] { PlacedHas(a, q, t); }
      }
    }
    forall x | x in Placed(a) + {t} ensures x in Placed(b) {
      if x == t {
        assert b[p][|Names(a, p)|] == t;
        assert p in b && t in b[p];
      } else {
        var q :| q in a && x in a[q];
        assert q in b && x in Names(b, q);
      }
    }
    forall q, u, x | q in b && u in b && q != u && x in b[q] ensures x !in b[u] {
      assert x == t || x in Names(a, q);
      assert x != t ==> x !in Names(a, u);
    }
  }

  /** What the fold has reached after the names `done`: names left out mean no room left. */
  ghost predicate Filled(n: int, cap: int, kept: Assignment, done: set<string>, r: Assignment) {
    && Exclusive(r) && Within(r, n, cap) && Extends(kept, r)
    && Placed(kept) <= Placed(r) <= Placed(kept) + done
    && (done <= Placed(r) || AllFull(r, n, cap))
  }

  lemma NoneMeansFull(score: Score, t: string, n: int, cap: int, a: Assignment)
    requires Chosen(score, t, n, cap, a, None)
    ensures AllFull(a, n, cap)
  {
    forall p | 0 <= p < n ensures !HasRoom(a, p, cap) { assert p !in Roomy(n, cap, a); }
  }

  lemma PlaceOneKeeps(score: Score, n: int, cap: int, kept: Assignment, done: set<string>, a: Assignment, t: string)
    requires Filled(n, cap, kept, done, a) && t !in done
    ensures Filled(n, cap, kept, done + {t}, PlaceOne(score, n, cap, Placed(kept), a, t))
  {
    if t !in Placed(kept) {
      BestPodIsChosen(score, t, n, cap, a);
      match BestPod(score, t, n, cap, a)
      case None => NoneMeansFull(score, t, n, cap, a);
      case Some(p) =>
        assert p in Roomy(n, cap, a) && !AllFull(a, n, cap);
        PutIsClean(a, p, t);
    }
  }

  lemma {:induction false} FillKeeps(score: Score, n: int, cap: int, names: seq<string>, kept: Assignment)
    requires Distinct(names) && Filled(n, cap, kept, {}, kept)
    ensures Filled(n, cap, kept, Elements(names), Fill(score, n, cap, Placed(kept), names, kept))
  {
    if names != [] {
      var k := |names| - 1;
      FillKeeps(score, n, cap, names[..k], kept);
      PlaceOneKeeps(score, n, cap, kept, Elements(names[..k]), Fill(score, n, cap, Placed(kept), names[..k], kept), names[k]);
      assert Elements(names) == Elements(names[..k]) + {names[k]} by { assert names == names[..k] + [names[k]]; }
    } else {
      assert Elements(names) == {};
    }
  }

  /** Everything the fold keeps. */
  lemma FillInvariant(score: Score, n: int, cap: int, names: seq<string>, kept: Assignment)
    requires Distinct(names) && Exclusive(kept) && Within(kept, n, cap)
    ensures var r := Fill(score, n, cap, Placed(kept), names, kept);
            && Exclusive(r) && Within(r, n, cap) && Extends(kept, r)
            && Placed(kept) <= Placed(r) <= Placed(kept) + Elements(names)
            && (Elements(names) <= Placed(r) || AllFull(r, n, cap))
  {
    FillKeeps(score, n, cap, names, kept);
  }

  lemma {:induction false} FillExtendsPrefix(score: Score, n: int, cap: int, names: seq<string>, kept: Assignment, skip: set<string>, k: nat)
    requires k <= |names|
    ensures Extends(Fill(score, n, cap, skip, names[..k], kept), Fill(score, n, cap, skip, names, kept))
  {
    if k == |names| {
      assert names[..k] == names;
    } else {
      var m := |names| - 1;
      assert names[..m][..k] == names[..k];
      FillExtendsPrefix(score, n, cap, names[..m], kept, skip, k);
    }
  }

  // ---------- counting ----------

  function TotalLoad(a: Assignment, n: nat): nat {
    if n == 0 then 0 else TotalLoad(a, n - 1) + |Names(a, n - 1)|
  }

  ghost function PlacedBelow(a: Assignment, n: nat): set<string> {
    set p, t | p in a && 0 <= p < n && t in a[p] :: t
  }

  lemma {:induction false} TotalLoadCounts(a: Assignment, n: nat)
    requires Exclusive(a)
    ensures TotalLoad(a, n) == |PlacedBelow(a, n)|
  {
    if n > 0 {
      TotalLoadCounts(a, n - 1);
      var last := Names(a, n - 1);
      DistinctLength(last);
      OneMorePod(a, n);
      assert |PlacedBelow(a, n - 1) + Elements(last)| == |PlacedBelow(a, n - 1)| + |Elements(last)|;
    }
  }

  lemma OneMorePod(a: Assignment, n: nat)
    requires Exclusive(a) && n > 0
    ensures PlacedBelow(a, n) == PlacedBelow(a, n - 1) + Elements(Names(a, n - 1))
    ensures PlacedBelow(a, n - 1) !! Elements(Names(a, n - 1))
  {
  }

  lemma {:induction false} TotalLoadBound(a: Assignment, n: nat, cap: nat)
    requires forall p :: 0 <= p < n ==> |Names(a, p)| <= cap
    ensures TotalLoad(a, n) <= n * cap
    ensures (forall p :: 0 <= p < n ==> |Names(a, p)| == cap) ==> TotalLoad(a, n) == n * cap
    ensures forall p :: 0 <= p < n ==> TotalLoad(a, n) <= |Names(a, p)| + (n - 1) * cap
  {
    if n > 0 {
      TotalLoadBound(a, n - 1, cap);
      assert n * cap == (n - 1) * cap + cap;
      if n > 1 { assert (n - 1) * cap == (n - 2) * cap + cap; }
    }
  }

  // ---------- main results ----------

  /** Each target is on at most one pod, only known targets are placed, no pod is
      over capacity, and as many targets are placed as the pods can hold. */
  lemma Conservation(score: Score, targets: set<string>, o: Options, r: Assignment)
    requires o.numPods >= 1 && CleanOwners(targets, o) && Outcome(score, targets, o, r)
    ensures Exclusive(r) && Within(r, o.numPods, Capacity(targets, o)) && Placed(r) <= targets
    ensures TotalLoad(r, o.numPods) == |Placed(r)| == Min(|targets|, o.numPods * Ceiling(Capacity(targets, o)))
    ensures Placed(r) == targets || AllFull(r, o.numPods, Capacity(targets, o))
  {
    OutcomeIsClean(score, targets, o, r);
    LoadIsMinimum(targets, o.numPods, Capacity(targets, o), r);
  }

  lemma OutcomeIsClean(score: Score, targets: set<string>, o: Options, r: Assignment)
    requires o.numPods >= 1 && CleanOwners(targets, o) && Outcome(score, targets, o, r)
    ensures Exclusive(r) && Within(r, o.numPods, Capacity(targets, o)) && Placed(r) <= targets
    ensures Placed(r) == targets || AllFull(r, o.numPods, Capacity(targets, o))
  {
    var cap := Capacity(targets, o);
    if targets != {} {
      var kept, sorted :| KeptPhase(score, o.current, o.numPods, cap, kept) && IsNameList(targets, sorted) &&
                          OutcomeFrom(score, sorted, o.numPods, cap, kept, r);
      FillIsClean(score, targets, o, cap, kept, sorted);
    }
  }

  lemma FillIsClean(score: Score, targets: set<string>, o: Options, cap: int, kept: Assignment, sorted: seq<string>)
    requires CleanOwners(targets, o) && KeptPhase(score, o.current, o.numPods, cap, kept) && IsNameList(targets, sorted)
    ensures var r := Fill(score, o.numPods, cap, Placed(kept), sorted, kept);
            && Exclusive(r) && Within(r, o.numPods, cap) && Placed(r) <= targets
            && (Placed(r) == targets || AllFull(r, o.numPods, cap))
  {
    KeptIsClean(score, targets, o, cap, kept);
    FillInvariant(score, o.numPods, cap, sorted, kept);
    assert Elements(sorted) == targets;
  }

  lemma LoadIsMinimum(targets: set<string>, n: nat, cap: int, r: Assignment)
    requires n >= 1 && Exclusive(r) && Within(r, n, cap) && Placed(r) <= targets
    requires Placed(r) == targets || AllFull(r, n, cap)
    ensures TotalLoad(r, n) == |Placed(r)| == Min(|targets|, n * Ceiling(cap))
  {
    assert PlacedBelow(r, n) == Placed(r);
    TotalLoadCounts(r, n);
    TotalLoadBound(r, n, Ceiling(cap));
    if Placed(r) != targets {
      assert forall p :: 0 <= p < n ==> !HasRoom(r, p, cap) && |Names(r, p)| == Ceiling(cap);
      SubsetIsSmaller(Placed(r), targets);
    }
  }

  lemma NaturalFactor(n: int, c: int)
    requires n >= 1 && n * c >= 0
    ensures c >= 0
  {
    assert c < 0 ==> n * c <= c;
  }

  lemma FloorFromTotal(count: nat, r: Assignment, n: nat, cap: int, p: int)
    requires n >= 1 && Within(r, n, cap) && TotalLoad(r, n) == Min(count, n * Ceiling(cap)) && count <= n * cap && 0 <= p < n
    ensures |Names(r, p)| >= count - (n - 1) * cap
  {
    NaturalFactor(n, cap);
    TotalLoadBound(r, n, cap);
  }

  /** When everything fits, no pod is starved. */
  lemma LoadFloor(score: Score, targets: set<string>, o: Options, r: Assignment, p: int)
    requires o.numPods >= 1 && CleanOwners(targets, o) && Outcome(score, targets, o, r)
    requires |targets| <= o.numPods * Capacity(targets, o) && 0 <= p < o.numPods
    ensures |Names(r, p)| >= |targets| - (o.numPods - 1) * Capacity(targets, o)
  {
    Conservation(score, targets, o, r);
    FloorFromTotal(|targets|, r, o.numPods, Capacity(targets, o), p);
  }

  lemma CeilingDivisionCovers(n: nat, d: nat)
    requires d >= 1
    ensures d * ((n + d - 1) / d) >= n
  {
    var q, m := (n + d - 1) / d, (n + d - 1) % d;
    assert n + d - 1 == d * q + m;
  }

  lemma DefaultCovers(targets: set<string>, o: Options)
    requires o.numPods >= 1 && o.capacity == 0
    ensures Min(|targets|, o.numPods * Ceiling(Capacity(targets, o))) == |targets|
  {
    CeilingDivisionCovers(|targets|, o.numPods);
  }

  /** With the capacity left to the default no target is ever unassigned. */
  lemma DefaultCapacityPlacesAll(score: Score, targets: set<string>, o: Options, r: Assignment)
    requires o.numPods >= 1 && o.capacity == 0 && CleanOwners(targets, o) && Outcome(score, targets, o, r)
    ensures Placed(r) == targets
  {
    Conservation(score, targets, o, r);
    DefaultCovers(targets, o);
    SameCountSameSet(Placed(r), targets);
  }

  // ---------- what the configured capacity does ----------

  /** Placing never fills a pod beyond the capacity. */
  lemma {:induction false} FillStaysWithin(score: Score, n: int, cap: int, skip: set<string>, names: seq<string>, a: Assignment, p: int)
    requires |Names(a, p)| <= Ceiling(cap)
    ensures |Names(Fill(score, n, cap, skip, names, a), p)| <= Ceiling(cap)
  {
    if names != [] {
      var k := |names| - 1;
      FillStaysWithin(score, n, cap, skip, names[..k], a, p);
      BestPodIsChosen(score, names[k], n, cap, Fill(score, n, cap, skip, names[..k], a));
    }
  }

  lemma OutcomeFromStaysWithin(score: Score, current: Assignment, n: int, cap: int, kept: Assignment, sorted: seq<string>, r: Assignment, p: int)
    requires KeptPhase(score, current, n, cap, kept) && OutcomeFrom(score, sorted, n, cap, kept, r)
    ensures |Names(r, p)| <= Ceiling(cap)
  {
    if p in kept { assert IsKept(score, p, cap, current[p], kept[p]); }
    FillStaysWithin(score, n, cap, Placed(kept), sorted, kept, p);
  }

  lemma StaysWithin(score: Score, targets: set<string>, o: Options, r: Assignment, p: int)
    requires o.numPods >= 1 && Outcome(score, targets, o, r)
    ensures |Names(r, p)| <= Ceiling(Capacity(targets, o))
  {
    if targets != {} {
      var cap := Capacity(targets, o);
      var kept, sorted :|
        KeptPhase(score, o.current, o.numPods, cap, kept) && IsNameList(targets, sorted) &&
        OutcomeFrom(score, sorted, o.numPods, cap, kept, r);
      OutcomeFromStaysWithin(score, o.current, o.numPods, cap, kept, sorted, r, p);
    }
  }

  lemma CeilingIsNatural(n: nat, d: nat)
    requires d >= 1
    ensures (n + d - 1) / d >= 0
  {
  }

  /** Whatever the owners, a pod gets at most the configured number of targets, or none
      when that number is negative, or the number of targets divided by the number of
      pods, rounded up, when none is configured. */
  lemma LoadIsBounded(score: Score, targets: set<string>, o: Options, r: Assignment, p: int)
    requires o.numPods >= 1 && Outcome(score, targets, o, r)
    ensures o.capacity > 0 ==> |Names(r, p)| <= o.capacity
    ensures o.capacity < 0 ==> Names(r, p) == []
    ensures o.capacity == 0 ==> |Names(r, p)| <= (|targets| + o.numPods - 1) / o.numPods
  {
    StaysWithin(score, targets, o, r, p);
    CeilingIsNatural(|targets|, o.numPods);
  }

  /** How many targets a configured capacity places. */
  lemma ConfiguredCapacityPlaces(score: Score, targets: set<string>, o: Options, r: Assignment)
    requires o.numPods >= 1 && CleanOwners(targets, o) && Outcome(score, targets, o, r)
    ensures o.capacity > 0 ==> |Placed(r)| == if |targets| <= o.numPods * o.capacity then |targets| else o.numPods * o.capacity
    ensures o.capacity < 0 ==> Placed(r) == {}
    ensures o.capacity == 0 ==> Placed(r) == targets
  {
    Conservation(score, targets, o, r);
    if o.capacity == 0 { DefaultCapacityPlacesAll(score, targets, o, r); }
    if o.capacity < 0 { assert o.numPods * 0 == 0; }
  }
}
