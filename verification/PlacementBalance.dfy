/** How even a placement is.  The source says that with the default capacity the loads
    of two pods differ by at most one; this is when they do. */
module PlacementBalance {
  import opened Ordering
  import opened Placement
  import opened PlacementTheorems
  import opened PlacementStability
  import opened PlacementDeterminism

  ghost predicate Even(r: Assignment, n: int) {
    forall p, q :: 0 <= p < n && 0 <= q < n ==> |Names(r, p)| <= |Names(r, q)| + 1
  }

  /** Every placement at the default capacity is even, whatever the scores and the owners. */
  ghost predicate AlwaysEven(targets: set<string>, n: int)
    requires n >= 1
  {
    forall score, current, r ::
      CleanOwners(targets, Options(n, 0, current)) && Outcome(score, targets, Options(n, 0, current), r) ==> Even(r, n)
  }

  /** The pods below the last one leave it too little. */
  predicate LeavesGap(count: nat, n: int, cap: int) {
    cap >= 2 && count < n * cap - 1
  }

  lemma WholePods(count: nat, n: int, q: int, m: int, cap: int)
    requires n >= 1 && count == n * q + m && 0 <= m < n && cap == (count + n - 1) / n
    ensures cap == q + if m == 0 then 0 else 1
  {
    var x := count + n - 1;
    if m == 0 { QuotientIs(x, n, q, n - 1); } else {
      assert n * (q + 1) == n * q + n;
      QuotientIs(x, n, q + 1, m - 1);
    }
  }

  lemma QuotientIs(x: int, n: int, q: int, m: int)
    requires n >= 1 && 0 <= m < n && x == n * q + m
    ensures x / n == q
  {
    var d := x / n - q;
    assert n * d == n * (x / n) - n * q;
    assert d >= 1 ==> n * d >= n;
    assert d <= -1 ==> n * d <= -n;
  }

  lemma GapAt(count: nat, n: int, q: int, m: int, cap: int)
    requires n >= 1 && count == n * q + m && 0 <= m < n && cap == q + if m == 0 then 0 else 1
    ensures LeavesGap(count, n, cap) <==> count > n && m != 0 && m != n - 1
    ensures count > 0 ==> n * (cap - 1) < count <= n * cap && cap >= 1
  {
    assert n * (q + 1) == n * q + n && n * (q - 1) == n * q - n;
    assert q >= 2 ==> n * q >= n * 2;
    assert q <= -1 ==> n * q <= -n;
  }

  lemma GapMeans(count: nat, n: int, cap: int)
    requires n >= 1 && cap == (count + n - 1) / n
    ensures LeavesGap(count, n, cap) <==> count > n && count % n != 0 && count % n != n - 1
    ensures count > 0 ==> n * (cap - 1) < count <= n * cap && cap >= 1
  {
    WholePods(count, n, count / n, count % n, cap);
    GapAt(count, n, count / n, count % n, cap);
  }

  lemma NoGapFloor(count: nat, n: int, cap: int)
    requires n >= 1 && count > 0 && cap == (count + n - 1) / n && !LeavesGap(count, n, cap)
    ensures count <= n * cap && cap >= 1 && (cap == 1 || cap <= count - (n - 1) * cap + 1)
  {
    GapMeans(count, n, cap);
    assert (n - 1) * cap == n * cap - cap;
  }

  lemma GapShortfall(count: nat, n: int, cap: int)
    requires n >= 1 && cap == (count + n - 1) / n && LeavesGap(count, n, cap)
    ensures count > 0 && n * (cap - 1) < count && count - (n - 1) * cap < cap - 1
  {
    GapMeans(count, n, cap);
    assert (n - 1) * cap == n * cap - cap;
  }

  lemma EvenFromBounds(r: Assignment, n: int, cap: int)
    requires forall p :: 0 <= p < n ==> |Names(r, p)| <= cap <= |Names(r, p)| + 1
    ensures Even(r, n)
  {
  }

  lemma WithoutGapEven(score: Score, targets: set<string>, o: Options, r: Assignment)
    requires o.numPods >= 1 && o.capacity == 0 && CleanOwners(targets, o) && Outcome(score, targets, o, r)
    requires !LeavesGap(|targets|, o.numPods, Capacity(targets, o))
    ensures Even(r, o.numPods)
  {
    var n, cap := o.numPods, Capacity(targets, o);
    if targets == {} {
      assert r == map[];
    } else {
      NoGapFloor(|targets|, n, cap);
      OutcomeIsClean(score, targets, o, r);
      forall p | 0 <= p < n ensures |Names(r, p)| <= cap <= |Names(r, p)| + 1 {
        LoadFloor(score, targets, o, r, p);
      }
      EvenFromBounds(r, n, cap);
    }
  }

  /** Scores that rank the pods by index for every target. */
  function FirstPodFirst(n: nat): Score {
    (t, p) => if 0 <= p <= n then n - p else 0
  }

  /** With such scores nothing goes to the last pod while another has room. */
  lemma OthersFull(targets: set<string>, n: nat, r: Assignment, q: int)
    requires n >= 1 && targets != {} && Outcome(FirstPodFirst(n), targets, Options(n, 0, map[]), r)
    requires Names(r, n - 1) != [] && 0 <= q < n - 1
    ensures |Names(r, q)| == Capacity(targets, Options(n, 0, map[]))
  {
    var o, score := Options(n, 0, map[]), FirstPodFirst(n);
    var t := Names(r, n - 1)[0];
    OutcomeIsClean(score, targets, o, r);
    NoJustifiedEnvy(score, targets, o, r, t, n - 1, q);
  }

  /** The last pod gets what does not fit on the others. */
  lemma LastPodLoad(targets: set<string>, n: nat, r: Assignment)
    requires n >= 1 && targets != {} && Outcome(FirstPodFirst(n), targets, Options(n, 0, map[]), r)
    ensures var o := Options(n, 0, map[]);
            Names(r, n - 1) == [] || |Names(r, n - 1)| == |targets| - (n - 1) * Capacity(targets, o)
  {
    var o, score := Options(n, 0, map[]), FirstPodFirst(n);
    if Names(r, n - 1) != [] {
      forall q | 0 <= q < n - 1 ensures |Names(r, q)| == Capacity(targets, o) { OthersFull(targets, n, r, q); }
      AllSame(r, n - 1, Capacity(targets, o));
      Conservation(score, targets, o, r);
      DefaultCovers(targets, o);
    }
  }

  lemma AllSame(r: Assignment, n: nat, cap: int)
    requires forall q :: 0 <= q < n ==> |Names(r, q)| == cap
    ensures TotalLoad(r, n) == n * cap
  {
    if n > 0 { TotalLoadBound(r, n, |Names(r, 0)|); }
  }

  lemma SomePodAbove(r: Assignment, n: nat, low: nat)
    requires TotalLoad(r, n) > n * low
    ensures exists p :: 0 <= p < n && |Names(r, p)| > low
  {
    if forall p :: 0 <= p < n ==> |Names(r, p)| <= low {
      TotalLoadBound(r, n, low);
    }
  }

  lemma PlacementExists(score: Score, targets: set<string>, o: Options) returns (r: Assignment)
    requires o.numPods >= 1 && CleanOwners(targets, o) && targets != {}
    ensures Outcome(score, targets, o, r)
  {
    r := OutcomeOver(score, targets, o, SomeKeptPhase(score, o, Capacity(targets, o)));
  }

  /** A gap lets some scores fill the first pods and starve the last. */
  lemma GapIsReached(targets: set<string>, n: nat) returns (r: Assignment)
    requires n >= 1 && LeavesGap(|targets|, n, Capacity(targets, Options(n, 0, map[])))
    ensures Outcome(FirstPodFirst(n), targets, Options(n, 0, map[]), r) && !Even(r, n)
  {
    var o, score := Options(n, 0, map[]), FirstPodFirst(n);
    var cap := Capacity(targets, o);
    GapShortfall(|targets|, n, cap);
    r := PlacementExists(score, targets, o);
    LastPodLoad(targets, n, r);
    Conservation(score, targets, o, r);
    DefaultCovers(targets, o);
    SomePodAbove(r, n, cap - 1);
    var p :| 0 <= p < n && |Names(r, p)| > cap - 1;
    assert |Names(r, p)| > |Names(r, n - 1)| + 1;
  }

  /** The loads differ by at most one, whatever the scores, exactly when there is at most
      one target per pod, or the targets fill all pods, or all but one place. */
  lemma EvenExactly(targets: set<string>, n: nat)
    requires n >= 1
    ensures AlwaysEven(targets, n) <==> |targets| <= n || |targets| % n == 0 || |targets| % n == n - 1
  {
    var o := Options(n, 0, map[]);
    GapMeans(|targets|, n, Capacity(targets, o));
    if LeavesGap(|targets|, n, Capacity(targets, o)) {
      var r := GapIsReached(targets, n);
      assert CleanOwners(targets, o);
    } else {
      forall score, current, r | CleanOwners(targets, Options(n, 0, current)) && Outcome(score, targets, Options(n, 0, current), r)
        ensures Even(r, n)
      {
        WithoutGapEven(score, targets, Options(n, 0, current), r);
      }
    }
  }
}
