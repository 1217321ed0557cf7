/** Why a target is where it is, and what moves when the inputs change. */
module PlacementStability {
  import opened Counting
  import opened Ordering
  import opened Placement
  import opened PlacementTheorems

  // ---------- a placement rule that does not mention the algorithm ----------

  /** What occupies pod q before it is t's turn: kept owners and names earlier than t. */
  ghost function Ahead(kept: Assignment, r: Assignment, q: int, t: string): set<string> {
    set x | x in Names(r, q) && (x in Names(kept, q) || Less(x, t))
  }

  ghost function Open(kept: Assignment, r: Assignment, n: int, cap: int, t: string): set<int> {
    set q | 0 <= q < n && |Ahead(kept, r, q, t)| < cap
  }

  /** No target could claim a better pod: each one that was not kept sits on its
      highest-ranked pod among those not used up by kept owners and earlier
      names, and is left out only when there is no such pod. */
  ghost predicate Envyless(score: Score, targets: set<string>, n: int, cap: int, kept: Assignment, r: Assignment) {
    && Exclusive(r) && Placed(r) <= targets && Within(r, n, cap)
    && (forall q, x :: x in Names(kept, q) ==> x in Names(r, q))
    && (forall t, p :: t in Names(r, p) && t !in Placed(kept) ==> IsTop(score, t, n, Open(kept, r, n, cap, t), p))
    && (forall t :: t in targets && t !in Placed(r) ==> Open(kept, r, n, cap, t) == {})
  }

  ghost predicate SamePlacement(a: Assignment, b: Assignment) {
    forall p, x :: x in Names(a, p) <==> x in Names(b, p)
  }

  lemma {:induction false} FillAddsLater(score: Score, n: int, cap: int, names: seq<string>, kept: Assignment, skip: set<string>,
                                         k: nat, q: int, x: string)
    requires k <= |names|
    requires x in Names(Fill(score, n, cap, skip, names, kept), q)
    ensures x in Names(Fill(score, n, cap, skip, names[..k], kept), q) || (x in names[k..] && x !in skip)
  {
    if k == |names| {
      assert names[..k] == names;
    } else {
      var m := |names| - 1;
      assert names[..m][..k] == names[..k];
      assert names[k..] == names[..m][k..] + [names[m]];
      var a := Fill(score, n, cap, skip, names[..m], kept);
      if x in Names(a, q) {
        FillAddsLater(score, n, cap, names[..m], kept, skip, k, q, x);
      }
    }
  }

  /** At t's turn the pods hold exactly what Ahead says. */
  lemma TurnState(score: Score, n: int, cap: int, names: seq<string>, kept: Assignment, k: nat)
    requires StrictlySorted(names) && Distinct(names) && Exclusive(kept) && Within(kept, n, cap) && k < |names|
    ensures var a := Fill(score, n, cap, Placed(kept), names[..k], kept);
            var r := Fill(score, n, cap, Placed(kept), names, kept);
            && (forall q :: Ahead(kept, r, q, names[k]) == Elements(Names(a, q)) && |Elements(Names(a, q))| == |Names(a, q)|)
            && Open(kept, r, n, cap, names[k]) == Roomy(n, cap, a)
  {
    var skip, t := Placed(kept), names[k];
    var a := Fill(score, n, cap, skip, names[..k], kept);
    var r := Fill(score, n, cap, skip, names, kept);
    FillInvariant(score, n, cap, names[..k], kept);
    FillExtendsPrefix(score, n, cap, names, kept, skip, k);
    forall q ensures Ahead(kept, r, q, t) == Elements(Names(a, q)) && |Elements(Names(a, q))| == |Names(a, q)| {
      DistinctLength(Names(a, q));
      forall x | x in Ahead(kept, r, q, t) ensures x in Names(a, q) {
        if x in Names(kept, q) {
          PlacedHas(kept, q, x);
        }
        FillAddsLater(score, n, cap, names, kept, skip, k, q, x);
        if x in names[k..] && x !in skip {
          LaterIsNotLess(names, k, x);
        }
      }
      forall x | x in Names(a, q) ensures x in Ahead(kept, r, q, t) {
        InPrefix(Names(a, q), Names(r, q), x);
        if x !in Names(kept, q) {
          FillAddsLater(score, n, cap, names[..k], kept, skip, 0, q, x);
          assert names[..k][..0] == [] && names[..k][0..] == names[..k];
        }
      }
    }
  }

  lemma LaterIsNotLess(names: seq<string>, k: nat, x: string)
    requires StrictlySorted(names) && k < |names| && x in names[k..]
    ensures !Less(x, names[k])
  {
    var j :| 0 <= j < |names[k..]| && names[k..][j] == x;
    assert names[k + j] == x;
    if j == 0 { LessIrreflexive(x); } else { LessAsymmetric(names[k], names[k + j]); }
  }

  lemma InPrefix(a: seq<string>, b: seq<string>, x: string)
    requires a <= b && x in a
    ensures x in b
  {
    var i :| 0 <= i < |a| && a[i] == x;
    assert b[i] == x;
  }

  lemma FillIsEnvyless(score: Score, targets: set<string>, n: int, cap: int, names: seq<string>, kept: Assignment)
    requires IsNameList(targets, names) && Exclusive(kept) && Within(kept, n, cap) && Placed(kept) <= targets
    ensures Envyless(score, targets, n, cap, kept, Fill(score, n, cap, Placed(kept), names, kept))
  {
    SortedDistinctIsStrict(names);
    var skip := Placed(kept);
    var r := Fill(score, n, cap, skip, names, kept);
    FillInvariant(score, n, cap, names, kept);
    forall q, x | x in Names(kept, q) ensures x in Names(r, q) {
      InPrefix(Names(kept, q), Names(r, q), x);
    }
    forall t | t in targets && t !in skip
      ensures t !in Placed(r) ==> Open(kept, r, n, cap, t) == {}
      ensures forall p :: t in Names(r, p) ==> IsTop(score, t, n, Open(kept, r, n, cap, t), p)
    {
      var k :| 0 <= k < |names| && names[k] == t;
      TurnDecides(score, n, cap, names, kept, k);
    }
    forall t, p | t in Names(r, p) && t !in skip ensures t in targets {
      PlacedHas(r, p, t);
    }
    assert forall t :: t in skip ==> t in Placed(r);
  }

  /** The choice made at a target's turn is where the target ends up. */
  lemma TurnDecides(score: Score, n: int, cap: int, names: seq<string>, kept: Assignment, k: nat)
    requires StrictlySorted(names) && Distinct(names) && Exclusive(kept) && Within(kept, n, cap)
    requires k < |names| && names[k] !in Placed(kept)
    ensures var r := Fill(score, n, cap, Placed(kept), names, kept);
            var open := Open(kept, r, n, cap, names[k]);
            && (names[k] !in Placed(r) ==> open == {})
            && (forall p :: names[k] in Names(r, p) ==> IsTop(score, names[k], n, open, p))
  {
    var skip, t := Placed(kept), names[k];
    var a := Fill(score, n, cap, skip, names[..k], kept);
    var b := Fill(score, n, cap, skip, names[..k+1], kept);
    var r := Fill(score, n, cap, skip, names, kept);
    TurnState(score, n, cap, names, kept, k);
    FillInvariant(score, n, cap, names, kept);
    FillExtendsPrefix(score, n, cap, names, kept, skip, k + 1);
    BestPodIsChosen(score, t, n, cap, a);
    assert names[..k+1][..k] == names[..k];
    match BestPod(score, t, n, cap, a)
    case None =>
      forall p ensures t !in Names(r, p) {
        if t in Names(r, p) {
          FillAddsLater(score, n, cap, names, kept, skip, k + 1, p, t);
          NotBeforeItsTurn(score, n, cap, names, kept, k, p);
        }
      }
    case Some(p) =>
      assert t in Names(b, p);
      InPrefix(Names(b, p), Names(r, p), t);
      PlacedHas(r, p, t);
      assert forall q :: t in Names(r, q) ==> q == p;
  }

  lemma NotBeforeItsTurn(score: Score, n: int, cap: int, names: seq<string>, kept: Assignment, k: nat, p: int)
    requires Distinct(names) && Exclusive(kept) && Within(kept, n, cap)
    requires k < |names| && names[k] !in Placed(kept)
    ensures names[k] !in Names(Fill(score, n, cap, Placed(kept), names[..k], kept), p)
  {
    var a := Fill(score, n, cap, Placed(kept), names[..k], kept);
    FillInvariant(score, n, cap, names[..k], kept);
    if names[k] in Names(a, p) {
      PlacedHas(a, p, names[k]);
    }
  }

  lemma EmptyOrInhabited<T>(s: seq<T>)
    ensures s == [] || exists x :: x in s
  {
    if s != [] { assert s[0] in s; }
  }

  /** Every result has a kept phase it is envyless over. */
  lemma OutcomeIsEnvyless(score: Score, targets: set<string>, o: Options, r: Assignment) returns (kept: Assignment)
    requires o.numPods >= 1 && CleanOwners(targets, o) && Outcome(score, targets, o, r)
    ensures KeptPhase(score, o.current, o.numPods, Capacity(targets, o), kept)
    ensures Exclusive(kept) && Extends(kept, r)
    ensures Envyless(score, targets, o.numPods, Capacity(targets, o), kept, r)
  {
    var cap := Capacity(targets, o);
    if targets == {} {
      kept := map[];
      forall p | p in o.current && p < o.numPods ensures o.current[p] == [] {
        EmptyOrInhabited(o.current[p]);
      }
    } else {
      var sorted;
      kept, sorted :| KeptPhase(score, o.current, o.numPods, cap, kept) && IsNameList(targets, sorted) &&
                      OutcomeFrom(score, sorted, o.numPods, cap, kept, r);
      KeptIsClean(score, targets, o, cap, kept);
      FillIsEnvyless(score, targets, o.numPods, cap, sorted, kept);
      FillInvariant(score, o.numPods, cap, sorted, kept);
    }
  }

  // ---------- no justified envy ----------

  /** If t was moved to p, every pod it ranks higher is full, and full of targets
      that owned their place already or come before t in name order. */
  lemma NoJustifiedEnvy(score: Score, targets: set<string>, o: Options, r: Assignment, t: string, p: int, q: int)
    requires o.numPods >= 1 && CleanOwners(targets, o) && Outcome(score, targets, o, r)
    requires t in Names(r, p) && t !in Names(o.current, p)
    requires 0 <= q < o.numPods && (score(t, q) > score(t, p) || (score(t, q) == score(t, p) && q < p))
    ensures !HasRoom(r, q, Capacity(targets, o))
    ensures forall x :: x in Names(r, q) ==> x in Names(o.current, q) || Less(x, t)
  {
    var cap := Capacity(targets, o);
    var kept := OutcomeIsEnvyless(score, targets, o, r);
    NotKeptElsewhere(score, targets, o, kept, r, t, p);
    assert q !in Open(kept, r, o.numPods, cap, t);
    var ahead := Ahead(kept, r, q, t);
    DistinctLength(Names(r, q));
    assert ahead <= Elements(Names(r, q));
    if ahead != Elements(Names(r, q)) { SubsetIsSmaller(ahead, Elements(Names(r, q))); }
    forall x | x in Names(r, q) ensures x in Names(o.current, q) || Less(x, t) {
      assert x in ahead;
      if x in Names(kept, q) { KeptWereOwners(score, o, cap, kept, q, x); }
    }
  }

  lemma KeptWereOwners(score: Score, o: Options, cap: int, kept: Assignment, p: int, x: string)
    requires KeptPhase(score, o.current, o.numPods, cap, kept) && x in Names(kept, p)
    ensures p in o.current && p < o.numPods && x in o.current[p]
  {
    assert x in multiset(kept[p]);
  }

  lemma NotKeptElsewhere(score: Score, targets: set<string>, o: Options, kept: Assignment, r: Assignment, t: string, p: int)
    requires o.numPods >= 1 && KeptPhase(score, o.current, o.numPods, Capacity(targets, o), kept)
    requires Exclusive(r) && Extends(kept, r) && t in Names(r, p) && t !in Names(o.current, p)
    ensures t !in Placed(kept)
  {
    if t in Placed(kept) {
      var q :| q in kept && t in kept[q];
      KeptWereOwners(score, o, Capacity(targets, o), kept, q, t);
      InPrefix(kept[q], r[q], t);
    }
  }

  // ---------- churn ----------

  /** A surviving pod's owners still on it are exactly the kept ones. */
  lemma StayersAreKept(score: Score, targets: set<string>, o: Options, kept: Assignment, r: Assignment, p: int)
    requires o.numPods >= 1 && CleanOwners(targets, o) && p in o.current && p < o.numPods
    requires KeptPhase(score, o.current, o.numPods, Capacity(targets, o), kept)
    requires Envyless(score, targets, o.numPods, Capacity(targets, o), kept, r) && Extends(kept, r)
    ensures IsKept(score, p, Capacity(targets, o), o.current[p], Names(kept, p))
    ensures forall x :: x in o.current[p] ==> (x in Names(r, p) <==> x in Names(kept, p))
  {
    var cap, owned := Capacity(targets, o), o.current[p];
    if owned != [] {
      assert IsKept(score, p, cap, owned, kept[p]);
      assert kept[p] <= r[p];
      if |owned| <= Ceiling(cap) {
        assert |multiset(owned) - multiset(kept[p])| == |multiset(owned)| - |multiset(kept[p])| == 0;
        assert multiset(owned) == multiset(kept[p]) + (multiset(owned) - multiset(kept[p])) == multiset(kept[p]);
        forall x | x in owned ensures x in kept[p] && x in r[p] {
          assert x in multiset(kept[p]);
          InPrefix(kept[p], r[p], x);
        }
      } else {
        assert |r[p]| <= Ceiling(cap) == |kept[p]|;
        assert r[p] == kept[p];
      }
    }
  }

  /** Exactly the excess over capacity leaves a surviving pod, nothing that leaves
      comes back, and whoever stays scores at least as high as whoever leaves. */
  lemma BoundedChurn(score: Score, targets: set<string>, o: Options, r: Assignment, p: int)
    requires o.numPods >= 1 && CleanOwners(targets, o) && Outcome(score, targets, o, r)
    requires p in o.current && p < o.numPods
    ensures var leavers := set x | x in o.current[p] && x !in Names(r, p);
            |leavers| == |o.current[p]| - Min(|o.current[p]|, Ceiling(Capacity(targets, o)))
    ensures forall x, y :: x in o.current[p] && y in o.current[p] && x in Names(r, p) && y !in Names(r, p) ==>
              score(x, p) >= score(y, p)
  {
    var kept := OutcomeIsEnvyless(score, targets, o, r);
    StayersAreKept(score, targets, o, kept, r, p);
    ChurnOnOnePod(score, p, Capacity(targets, o), o.current[p], Names(kept, p), Names(r, p));
  }

  lemma ChurnOnOnePod(score: Score, p: int, cap: int, owned: seq<string>, kept: seq<string>, now: seq<string>)
    requires Distinct(owned) && IsKept(score, p, cap, owned, kept)
    requires forall x :: x in owned ==> (x in now <==> x in kept)
    ensures |set x | x in owned && x !in now| == |owned| - Min(|owned|, Ceiling(cap))
    ensures forall x, y :: x in owned && y in owned && x in now && y !in now ==> score(x, p) >= score(y, p)
  {
    SubmultisetDistinct(owned, kept);
    var leave := set x | x in owned && x !in now;
    assert Elements(owned) == Elements(kept) + leave && Elements(kept) !! leave;
    DistinctLength(owned);
    DistinctLength(kept);
    forall x, y | x in owned && y in owned && x in now && y !in now ensures score(x, p) >= score(y, p) {
      ReleasedScoresLower(score, p, cap, owned, kept, x, y);
    }
  }

  lemma ReleasedScoresLower(score: Score, p: int, cap: int, owned: seq<string>, kept: seq<string>, x: string, y: string)
    requires IsKept(score, p, cap, owned, kept) && x in kept && y in owned && y !in kept
    ensures score(x, p) >= score(y, p)
  {
    assert y in multiset(owned) && y !in multiset(kept);
    assert y in multiset(owned) - multiset(kept);
  }

  /** An owner on a pod that is not over capacity does not move. */
  lemma UnderloadedPodsKeepAll(score: Score, targets: set<string>, o: Options, r: Assignment, p: int, t: string)
    requires o.numPods >= 1 && CleanOwners(targets, o) && Outcome(score, targets, o, r)
    requires p in o.current && p < o.numPods && |o.current[p]| <= Ceiling(Capacity(targets, o)) && t in o.current[p]
    ensures t in Names(r, p)
  {
    BoundedChurn(score, targets, o, r, p);
    EmptySetHasNone((set x | x in o.current[p] && x !in Names(r, p)), t);
  }

  lemma EmptySetHasNone<T>(s: set<T>, t: T)
    requires |s| == 0
    ensures t !in s
  {
  }

  /** `b` is what a later run reads back of `a`: the same names per pod, each once. */
  ghost predicate ReadBack(a: Assignment, b: Assignment) {
    && SamePlacement(a, b)
    && forall p :: p in b ==> Distinct(b[p])
  }

  ghost predicate NaturalKeys(a: Assignment) {
    forall p :: p in a ==> p >= 0
  }

  lemma SameNamesSameCount(score: Score, targets: set<string>, o: Options, r: Assignment, p: int, s: seq<string>)
    requires o.numPods >= 1 && CleanOwners(targets, o) && Outcome(score, targets, o, r)
    requires Distinct(s) && forall t :: t in s <==> t in Names(r, p)
    ensures (forall t :: t in s ==> t in targets) && |s| == |Names(r, p)| <= Ceiling(Capacity(targets, o))
  {
    OutcomeIsClean(score, targets, o, r);
    forall t | t in s ensures t in targets { PlacedHas(r, p, t); }
    DistinctLength(s);
    DistinctLength(Names(r, p));
    assert Elements(s) == Elements(Names(r, p));
  }

  lemma ReadBackIsClean(score: Score, targets: set<string>, o: Options, r: Assignment, o': Options)
    requires o.numPods >= 1 && CleanOwners(targets, o) && Outcome(score, targets, o, r)
    requires ReadBack(r, o'.current)
    requires NaturalKeys(o'.current)
    ensures CleanOwners(targets, o')
    ensures forall p :: p in o'.current ==> |o'.current[p]| == |Names(r, p)| <= Ceiling(Capacity(targets, o))
  {
    forall p | p in o'.current
      ensures forall t :: t in o'.current[p] ==> t in targets
      ensures |o'.current[p]| == |Names(r, p)| <= Ceiling(Capacity(targets, o))
    {
      SameNamesSameCount(score, targets, o, r, p, o'.current[p]);
    }
    OutcomeIsClean(score, targets, o, r);
    forall p, q, t | p in o'.current && q in o'.current && p < q < o'.numPods && t in o'.current[p]
      ensures t !in o'.current[q]
    {
      assert t in Names(o'.current, p) && t in Names(r, p) && t !in Names(r, q);
      assert t !in Names(o'.current, q);
    }
  }

  lemma CeilingDivisionAntitone(n: nat, d: nat, e: nat)
    requires 1 <= d <= e
    ensures (n + e - 1) / e <= (n + d - 1) / d
  {
    var x, y := (n + e - 1) / e, (n + d - 1) / d;
    CeilingDivisionCovers(n, d);
    assert e * x <= n + e - 1;
    assert d * y <= e * y;
    assert e * (y + 1) == e * y + e;
    CancelFactor(e, x, y + 1);
  }

  lemma CancelFactor(e: nat, x: int, z: int)
    requires e * x < e * z
    ensures x < z
  {
    assert z <= x ==> e * z <= e * x;
  }

  /** Whoever was placed stays, on every pod that remains, if capacity has not shrunk. */
  lemma ReadBackStays(score: Score, targets: set<string>, o: Options, r: Assignment, o': Options, r': Assignment, p: int, t: string)
    requires o.numPods >= 1 && CleanOwners(targets, o) && Outcome(score, targets, o, r)
    requires o'.numPods >= 1 && ReadBack(r, o'.current) && NaturalKeys(o'.current)
    requires Capacity(targets, o) <= Capacity(targets, o') && Outcome(score, targets, o', r')
    requires t in Names(r, p) && p < o'.numPods
    ensures t in Names(r', p)
  {
    ReadBackIsClean(score, targets, o, r, o');
    assert t in Names(o'.current, p);
    UnderloadedPodsKeepAll(score, targets, o', r', p, t);
  }

  lemma FewerPodsHoldMore(targets: set<string>, o: Options, o': Options)
    requires 1 <= o'.numPods <= o.numPods && o.capacity == 0 && o'.capacity == 0
    ensures Capacity(targets, o) <= Capacity(targets, o')
  {
    CeilingDivisionAntitone(|targets|, o'.numPods, o.numPods);
  }

  /** Removing pods with the default capacity: nothing leaves a pod that remains. */
  lemma ScaleDownMovesNoSurvivor(score: Score, targets: set<string>, o: Options, r: Assignment, o': Options, r': Assignment,
                                 p: int, t: string)
    requires 1 <= o'.numPods <= o.numPods && o.capacity == 0 && o'.capacity == 0
    requires CleanOwners(targets, o) && Outcome(score, targets, o, r)
    requires ReadBack(r, o'.current) && NaturalKeys(o'.current)
    requires Outcome(score, targets, o', r')
    requires t in Names(r, p) && p < o'.numPods
    ensures t in Names(r', p)
  {
    FewerPodsHoldMore(targets, o, o');
    ReadBackStays(score, targets, o, r, o', r', p, t);
  }

  lemma SameSizeIsSame(a: Assignment, b: Assignment)
    requires Exclusive(b) && |Placed(a)| == |Placed(b)|
    requires forall p, t :: t in Names(a, p) ==> t in Names(b, p)
    ensures SamePlacement(a, b) && Placed(a) == Placed(b)
  {
    forall t | t in Placed(a) ensures t in Placed(b) {
      var p :| p in a && t in a[p];
      assert t in Names(a, p);
      PlacedHas(b, p, t);
    }
    if Placed(a) != Placed(b) { SubsetIsSmaller(Placed(a), Placed(b)); }
    forall p, t | t in Names(b, p) ensures t in Names(a, p) {
      PlacedHas(b, p, t);
      var q :| q in a && t in a[q];
      assert t in Names(a, q) && t in Names(b, q);
    }
  }

  lemma PlacedCount(score: Score, targets: set<string>, o: Options, r: Assignment)
    requires o.numPods >= 1 && CleanOwners(targets, o) && Outcome(score, targets, o, r)
    ensures Exclusive(r) && |Placed(r)| == Min(|targets|, o.numPods * Ceiling(Capacity(targets, o)))
  {
    Conservation(score, targets, o, r);
  }

  lemma PodsAreIndexed(score: Score, targets: set<string>, o: Options, r: Assignment, p: int, t: string)
    requires o.numPods >= 1 && CleanOwners(targets, o) && Outcome(score, targets, o, r) && t in Names(r, p)
    ensures 0 <= p < o.numPods && t in targets
  {
    OutcomeIsClean(score, targets, o, r);
    PlacedHas(r, p, t);
  }

  lemma NobodyLeaves(score: Score, targets: set<string>, o: Options, r: Assignment, o': Options, r': Assignment)
    requires o.numPods >= 1 && CleanOwners(targets, o) && Outcome(score, targets, o, r)
    requires o'.numPods == o.numPods && Capacity(targets, o') == Capacity(targets, o)
    requires ReadBack(r, o'.current) && NaturalKeys(o'.current) && Outcome(score, targets, o', r')
    ensures forall p, t :: t in Names(r, p) ==> t in Names(r', p)
  {
    forall p, t | t in Names(r, p) ensures t in Names(r', p) {
      PodsAreIndexed(score, targets, o, r, p, t);
      ReadBackStays(score, targets, o, r, o', r', p, t);
    }
  }

  lemma SameCountPlaced(score: Score, targets: set<string>, o: Options, r: Assignment, current': Assignment, r': Assignment)
    requires o.numPods >= 1 && CleanOwners(targets, o) && Outcome(score, targets, o, r)
    requires ReadBack(r, current') && NaturalKeys(current')
    requires Outcome(score, targets, o.(current := current'), r')
    ensures Exclusive(r') && |Placed(r)| == |Placed(r')|
  {
    PlacedCount(score, targets, o, r);
    ReadBackIsClean(score, targets, o, r, o.(current := current'));
    PlacedCount(score, targets, o.(current := current'), r');
  }

  /** Feeding a result back with the same targets, pods and capacity changes nothing. */
  lemma Fixpoint(score: Score, targets: set<string>, o: Options, r: Assignment, current': Assignment, r': Assignment)
    requires o.numPods >= 1 && CleanOwners(targets, o) && Outcome(score, targets, o, r)
    requires ReadBack(r, current') && NaturalKeys(current')
    requires Outcome(score, targets, o.(current := current'), r')
    ensures SamePlacement(r, r') && Placed(r) == Placed(r')
  {
    SameCountPlaced(score, targets, o, r, current', r');
    NobodyLeaves(score, targets, o, r, o.(current := current'), r');
    SameSizeIsSame(r, r');
  }

  /** The documented rule that owners stay where they are, whatever else changed: it
      holds if and only if no surviving pod owns more than the capacity. */
  lemma OwnersStayExactly(score: Score, targets: set<string>, o: Options, r: Assignment)
    requires o.numPods >= 1 && CleanOwners(targets, o) && Outcome(score, targets, o, r)
    ensures (forall p, t :: p in o.current && p < o.numPods && t in o.current[p] ==> t in Names(r, p)) <==>
            (forall p :: p in o.current && p < o.numPods ==> |o.current[p]| <= Ceiling(Capacity(targets, o)))
  {
    var cap := Ceiling(Capacity(targets, o));
    forall p | p in o.current && p < o.numPods
      ensures (forall t :: t in o.current[p] ==> t in Names(r, p)) <==> |o.current[p]| <= cap
    {
      var leavers := set x | x in o.current[p] && x !in Names(r, p);
      BoundedChurn(score, targets, o, r, p);
      assert leavers == {} <==> |o.current[p]| <= cap;
      if leavers != {} {
        var x :| x in leavers;
      } else {
        forall t | t in o.current[p] ensures t in Names(r, p) { assert t !in leavers; }
      }
    }
  }

  /** A second pod at the default capacity always takes targets away from the first. */
  lemma SecondPodMovesTargets(score: Score, targets: set<string>, r: Assignment, current: Assignment, r': Assignment)
    requires |targets| >= 2 && Outcome(score, targets, Options(1, 0, map[]), r)
    requires ReadBack(r, current) && NaturalKeys(current) && Outcome(score, targets, Options(2, 0, current), r')
    ensures exists t :: t in Names(r, 0) && t !in Names(r', 0)
  {
    var o, o' := Options(1, 0, map[]), Options(2, 0, current);
    Conservation(score, targets, o, r);
    ReadBackIsClean(score, targets, o, r, o');
    assert TotalLoad(r, 1) == TotalLoad(r, 0) + |Names(r, 0)|;
    DefaultCovers(targets, o);
    assert |Names(r, 0)| == |targets|;
    assert Names(r, 0)[0] in Names(current, 0);
    assert |current[0]| > Ceiling(Capacity(targets, o'));
    OwnersStayExactly(score, targets, o', r');
    var p, t :| p in current && p < 2 && t in current[p] && t !in Names(r', p);
    assert t in Names(r, p);
  }

  // ---------- rendezvous hashing without pressure ----------

  predicate IsPod(n: int, p: int) { 0 <= p < n }

  ghost function AllPods(n: int): set<int> { set p | 0 <= p < n && IsPod(n, p) }

  /** With room for everybody and no history, placement is plain argmax hashing. */
  lemma UnpressedIsArgmax(score: Score, targets: set<string>, o: Options, r: Assignment, t: string)
    requires o.numPods >= 1 && o.current == map[] && Capacity(targets, o) >= |targets|
    requires Outcome(score, targets, o, r) && t in targets
    ensures exists p :: t in Names(r, p)
    ensures forall p :: t in Names(r, p) <==> IsTop(score, t, o.numPods, AllPods(o.numPods), p)
  {
    var cap, n := Capacity(targets, o), o.numPods;
    var kept := OutcomeIsEnvyless(score, targets, o, r);
    assert Placed(kept) == {};
    var open := Open(kept, r, n, cap, t);
    forall q | 0 <= q < n ensures q in open {
      forall x | x in Ahead(kept, r, q, t) ensures x in targets - {t} {
        LessIrreflexive(t);
        PlacedHas(r, q, x);
      }
      SubsetIsSmaller(targets - {t}, targets);
      if Ahead(kept, r, q, t) != targets - {t} { SubsetIsSmaller(Ahead(kept, r, q, t), targets - {t}); }
    }
    assert open == AllPods(n);
    assert 0 in open;
    assert t in Placed(r);
    var p :| p in r && t in r[p];
    assert t in Names(r, p);
    assert IsTop(score, t, n, open, p);
    forall q | IsTop(score, t, n, open, q) ensures q == p { }
  }

  /** In numbers: no pod scores higher than the target's own, and none below it in index as high. */
  lemma UnpressedTakesHighestScore(score: Score, targets: set<string>, o: Options, r: Assignment, t: string, p: int, q: int)
    requires o.numPods >= 1 && o.current == map[] && Capacity(targets, o) >= |targets|
    requires Outcome(score, targets, o, r) && t in targets && t in Names(r, p) && 0 <= q < o.numPods
    ensures score(t, q) <= score(t, p) && (score(t, q) == score(t, p) ==> p <= q)
  {
    UnpressedIsArgmax(score, targets, o, r, t);
    assert q in AllPods(o.numPods);
  }

  /** Adding pod k moves targets only onto pod k; removing it moves only pod k's. */
  lemma MinimalDisruption(score: Score, targets: set<string>, k: int, capacity: int, capacity': int,
                          r: Assignment, r': Assignment, t: string, p: int, p': int)
    requires k >= 1
    requires var o := Options(k, capacity, map[]);
             Capacity(targets, o) >= |targets| && Outcome(score, targets, o, r)
    requires var o' := Options(k + 1, capacity', map[]);
             Capacity(targets, o') >= |targets| && Outcome(score, targets, o', r')
    requires t in targets && t in Names(r, p) && t in Names(r', p')
    ensures p' == p || p' == k
    ensures p' == k <==> score(t, k) > score(t, p)
  {
    UnpressedIsArgmax(score, targets, Options(k, capacity, map[]), r, t);
    UnpressedIsArgmax(score, targets, Options(k + 1, capacity', map[]), r', t);
    assert IsTop(score, t, k, AllPods(k), p);
    assert IsTop(score, t, k + 1, AllPods(k + 1), p');
    assert p' in AllPods(k + 1) && p in AllPods(k) && p in AllPods(k + 1) && k in AllPods(k + 1);
    if p' != k { assert p' in AllPods(k); }
  }
}
