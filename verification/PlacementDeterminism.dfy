/** When the inputs determine the placement.

    The only freedom Go leaves is the order of tied scores inside one pod's list
    of current owners, together with the iteration order of two maps.  The map
    orders never matter; a tie matters exactly when it lies across the capacity
    cut. */
module PlacementDeterminism {
  import opened Counting
  import opened Ordering
  import opened Placement
  import opened PlacementTheorems
  import opened PlacementStability

  ghost function Scoring(score: Score, p: int, owned: seq<string>, above: int): set<string> {
    set x | x in owned && score(x, p) > above
  }

  /** Some score value has too few owners above it to fill pod p, and too many
      owners at or above it to fit. */
  ghost predicate CutTie(score: Score, p: int, cap: int, owned: seq<string>) {
    exists v: nat :: TieAt(score, p, cap, owned, v)
  }

  ghost predicate TieAt(score: Score, p: int, cap: int, owned: seq<string>, v: nat) {
    |Scoring(score, p, owned, v)| < cap < |Scoring(score, p, owned, v - 1)|
  }

  // ---------- the rule has one solution ----------

  lemma AheadAgrees(score: Score, targets: set<string>, n: int, cap: int, names: seq<string>,
                    kept1: Assignment, r1: Assignment, kept2: Assignment, r2: Assignment, k: nat)
    requires IsNameList(targets, names) && SamePlacement(kept1, kept2) && k < |names|
    requires Envyless(score, targets, n, cap, kept1, r1) && Envyless(score, targets, n, cap, kept2, r2)
    requires forall i, p :: 0 <= i < k ==> (names[i] in Names(r1, p) <==> names[i] in Names(r2, p))
    ensures forall q :: Ahead(kept1, r1, q, names[k]) == Ahead(kept2, r2, q, names[k])
  {
    forall q ensures Ahead(kept1, r1, q, names[k]) == Ahead(kept2, r2, q, names[k]) {
      forall x ensures x in Ahead(kept1, r1, q, names[k]) <==> x in Ahead(kept2, r2, q, names[k]) {
        if x in Names(kept1, q) {
        } else if x in targets && Less(x, names[k]) {
          var i := EarlierIndex(targets, names, k, x);
        } else {
          OnlyTargets(r1, targets, q, x);
          OnlyTargets(r2, targets, q, x);
        }
      }
    }
  }

  lemma OnlyTargets(r: Assignment, targets: set<string>, q: int, x: string)
    requires Placed(r) <= targets
    ensures x in Names(r, q) ==> x in targets
  {
    if x in Names(r, q) { PlacedHas(r, q, x); }
  }

  lemma EarlierIndex(targets: set<string>, names: seq<string>, k: nat, x: string) returns (i: nat)
    requires IsNameList(targets, names) && k < |names| && x in targets && Less(x, names[k])
    ensures i < k && names[i] == x
  {
    i :| 0 <= i < |names| && names[i] == x;
    if i == k {
      LessIrreflexive(x);
    } else if i > k {
      LessAsymmetric(x, names[k]);
    }
  }

  lemma TopIsUnique(score: Score, t: string, n: int, ok: set<int>, p: int, q: int)
    requires IsTop(score, t, n, ok, p) && IsTop(score, t, n, ok, q)
    ensures p == q
  {
  }

  lemma OneTargetAgrees(score: Score, targets: set<string>, n: int, cap: int,
                        kept1: Assignment, r1: Assignment, kept2: Assignment, r2: Assignment, t: string, p: int)
    requires SamePlacement(kept1, kept2) && t in targets && t in Names(r1, p)
    requires Envyless(score, targets, n, cap, kept1, r1) && Envyless(score, targets, n, cap, kept2, r2)
    requires forall q :: Ahead(kept1, r1, q, t) == Ahead(kept2, r2, q, t)
    ensures t in Names(r2, p)
  {
    if t in Placed(kept1) {
      var q :| q in kept1 && t in kept1[q];
      assert t in Names(kept1, q) && t in Names(kept2, q);
      assert t in Names(r1, q) && t in Names(r2, q);
      assert p == q;
    } else {
      NotPlacedEither(kept1, kept2, t);
      var open := Open(kept1, r1, n, cap, t);
      assert open == Open(kept2, r2, n, cap, t);
      assert p in open;
      var q :| q in r2 && t in r2[q];
      assert t in Names(r2, q);
      TopIsUnique(score, t, n, open, p, q);
    }
  }

  lemma NotPlacedEither(a: Assignment, b: Assignment, t: string)
    requires SamePlacement(a, b) && t !in Placed(a)
    ensures t !in Placed(b)
  {
    forall p | p in b ensures t !in b[p] {
      assert t in Names(b, p) <==> t in Names(a, p);
      if t in Names(a, p) { PlacedHas(a, p, t); }
    }
  }

  lemma {:induction false} FirstNamesAgree(score: Score, targets: set<string>, n: int, cap: int, names: seq<string>,
                                           kept1: Assignment, r1: Assignment, kept2: Assignment, r2: Assignment, k: nat)
    requires IsNameList(targets, names) && SamePlacement(kept1, kept2) && k <= |names|
    requires Envyless(score, targets, n, cap, kept1, r1) && Envyless(score, targets, n, cap, kept2, r2)
    ensures forall i, p :: 0 <= i < k ==> (names[i] in Names(r1, p) <==> names[i] in Names(r2, p))
  {
    if k > 0 {
      FirstNamesAgree(score, targets, n, cap, names, kept1, r1, kept2, r2, k - 1);
      AheadAgrees(score, targets, n, cap, names, kept1, r1, kept2, r2, k - 1);
      var t := names[k - 1];
      assert t in targets;
      forall p ensures t in Names(r1, p) <==> t in Names(r2, p) {
        if t in Names(r1, p) { OneTargetAgrees(score, targets, n, cap, kept1, r1, kept2, r2, t, p); }
        if t in Names(r2, p) { OneTargetAgrees(score, targets, n, cap, kept2, r2, kept1, r1, t, p); }
      }
    }
  }

  /** The no-envy rule and the kept owners determine the whole placement. */
  lemma EnvylessIsUnique(score: Score, targets: set<string>, n: int, cap: int, names: seq<string>,
                         kept1: Assignment, r1: Assignment, kept2: Assignment, r2: Assignment)
    requires IsNameList(targets, names) && SamePlacement(kept1, kept2)
    requires Envyless(score, targets, n, cap, kept1, r1) && Envyless(score, targets, n, cap, kept2, r2)
    ensures SamePlacement(r1, r2)
  {
    FirstNamesAgree(score, targets, n, cap, names, kept1, r1, kept2, r2, |names|);
    forall p, x ensures x in Names(r1, p) <==> x in Names(r2, p) {
      OnlyTargets(r1, targets, p, x);
      OnlyTargets(r2, targets, p, x);
      if x in targets {
        var i :| 0 <= i < |names| && names[i] == x;
      }
    }
  }

  // ---------- which owners are kept ----------

  lemma KeptFacts(score: Score, p: int, cap: int, owned: seq<string>, kept: seq<string>)
    requires Distinct(owned) && IsKept(score, p, cap, owned, kept)
    ensures Distinct(kept) && |Elements(kept)| == Kept(|owned|, cap) && Elements(kept) <= Elements(owned)
    ensures forall x, y :: x in kept && y in owned && y !in kept ==> score(x, p) >= score(y, p)
  {
    SubmultisetDistinct(owned, kept);
    DistinctLength(kept);
    forall x, y | x in kept && y in owned && y !in kept ensures score(x, p) >= score(y, p) {
      assert y in multiset(owned) && y !in multiset(kept);
      assert y in multiset(owned) - multiset(kept);
    }
  }

  lemma DifferingKeptTie(score: Score, p: int, cap: int, owned: seq<string>, kept1: seq<string>, kept2: seq<string>, x: string)
    requires Distinct(owned) && IsKept(score, p, cap, owned, kept1) && IsKept(score, p, cap, owned, kept2)
    requires x in kept1 && x !in kept2
    ensures CutTie(score, p, cap, owned)
  {
    KeptFacts(score, p, cap, owned, kept1);
    KeptFacts(score, p, cap, owned, kept2);
    var k1, k2 := Elements(kept1), Elements(kept2);
    assert x in k1;
    SubsetIsSmaller(k1 - {x}, k1);
    var y := PickOutside(k2, k1 - {x});
    assert y in Elements(owned) && y !in k1 && x in Elements(owned);
    TieAcrossCut(score, p, cap, owned, k1, x, y);
  }

  lemma TieAcrossCut(score: Score, p: int, cap: int, owned: seq<string>, k: set<string>, x: string, y: string)
    requires Distinct(owned) && k <= Elements(owned) && |k| == Kept(|owned|, cap)
    requires x in k && y in owned && y !in k && score(x, p) == score(y, p)
    requires forall a, b :: a in k && b in owned && b !in k ==> score(a, p) >= score(b, p)
    ensures CutTie(score, p, cap, owned)
  {
    var v: int := score(x, p);
    DistinctLength(owned);
    SubsetIsSmaller(k, Elements(owned));
    var above, atLeast := Scoring(score, p, owned, v), Scoring(score, p, owned, v - 1);
    forall z | z in above ensures z in k - {x} { }
    forall z | z in k + {y} ensures z in atLeast { }
    TieFromSets(above, atLeast, k, x, y);
    assert TieAt(score, p, cap, owned, v);
  }

  lemma TieFromSets(above: set<string>, atLeast: set<string>, k: set<string>, x: string, y: string)
    requires above <= k - {x} && x in k && y !in k && k + {y} <= atLeast
    ensures |above| < |k| < |atLeast|
  {
    SmallerSet(above, k - {x});
    SmallerSet(k + {y}, atLeast);
  }

  lemma FindExchange(score: Score, p: int, cap: int, owned: seq<string>, k: set<string>) returns (x: string, y: string)
    requires Distinct(owned) && CutTie(score, p, cap, owned) && |k| == Kept(|owned|, cap)
    ensures x in k && y in owned && y !in k && (x in owned ==> score(y, p) >= score(x, p))
  {
    var v: nat :| TieAt(score, p, cap, owned, v);
    DistinctLength(owned);
    SmallerSet(Scoring(score, p, owned, v - 1), Elements(owned));
    x := PickOutside(k, Scoring(score, p, owned, v));
    y := PickOutside(Scoring(score, p, owned, v - 1), k);
  }

  /** Equal scores may be exchanged across the cut. */
  lemma ExchangeAtCut(score: Score, p: int, cap: int, owned: seq<string>, kept: seq<string>)
    returns (x: string, other: seq<string>)
    requires Distinct(owned) && IsKept(score, p, cap, owned, kept) && CutTie(score, p, cap, owned)
    ensures IsKept(score, p, cap, owned, other) && x in kept && x in owned && x !in other
  {
    KeptFacts(score, p, cap, owned, kept);
    var y;
    x, y := FindExchange(score, p, cap, owned, Elements(kept));
    assert x in Elements(owned);
    var i :| 0 <= i < |kept| && kept[i] == x;
    other := kept[i := y];
    ExchangeIsKept(score, p, cap, owned, kept, i, y);
  }

  lemma ExchangedElements(s: seq<string>, i: nat, y: string)
    requires Distinct(s) && i < |s| && y !in s
    ensures Distinct(s[i := y]) && s[i] !in s[i := y]
    ensures Elements(s[i := y]) == Elements(s) - {s[i]} + {y}
  {
    var other := s[i := y];
    forall z | z in s && z != s[i] ensures z in other {
      var j :| 0 <= j < |s| && s[j] == z;
      assert other[j] == z;
    }
    assert other[i] == y;
  }

  lemma KeptFromFacts(score: Score, p: int, cap: int, owned: seq<string>, kept: seq<string>)
    requires Distinct(owned) && Distinct(kept) && |kept| == Kept(|owned|, cap) && Elements(kept) <= Elements(owned)
    requires ScoreDescending(score, p, kept)
    requires forall x, y :: x in kept && y in owned && y !in kept ==> score(x, p) >= score(y, p)
    ensures IsKept(score, p, cap, owned, kept)
  {
    DistinctCounts(kept);
    DistinctCounts(owned);
    forall z ensures multiset(kept)[z] <= multiset(owned)[z] {
      if z in kept { assert z in Elements(kept) && z in multiset(owned); }
    }
    forall b | b in multiset(owned) - multiset(kept) ensures b in owned && b !in kept {
      assert b in kept ==> multiset(kept)[b] == 1;
    }
  }

  lemma ExchangeIsKept(score: Score, p: int, cap: int, owned: seq<string>, kept: seq<string>, i: nat, y: string)
    requires Distinct(owned) && IsKept(score, p, cap, owned, kept)
    requires i < |kept| && y in owned && y !in kept && score(y, p) >= score(kept[i], p)
    ensures IsKept(score, p, cap, owned, kept[i := y]) && kept[i] !in kept[i := y]
  {
    KeptFacts(score, p, cap, owned, kept);
    ExchangedElements(kept, i, y);
    var other := kept[i := y];
    assert kept[i] in kept && score(y, p) == score(kept[i], p);
    forall a, b | a in other && b in owned && b !in other ensures score(a, p) >= score(b, p) {
      assert a in Elements(other) && b !in Elements(other);
      assert b == kept[i] || b !in kept;
      if b == kept[i] && a != y {
        assert a in kept && score(a, p) >= score(y, p);
      }
    }
    assert y in Elements(owned);
    KeptFromFacts(score, p, cap, owned, other);
  }

  // ---------- existence of results ----------

  function InsertByScore(score: Score, p: int, x: string, s: seq<string>): (r: seq<string>)
    ensures multiset(r) == multiset(s) + multiset{x}
  {
    if s == [] then [x]
    else if score(x, p) >= score(s[0], p) then [x] + s
    else
      assert s == [s[0]] + s[1..];
      [s[0]] + InsertByScore(score, p, x, s[1..])
  }

  function ByScore(score: Score, p: int, s: seq<string>): (r: seq<string>)
    ensures multiset(r) == multiset(s)
  {
    if s == [] then []
    else
      assert s == [s[0]] + s[1..];
      InsertByScore(score, p, s[0], ByScore(score, p, s[1..]))
  }

  lemma {:induction false} InsertByScoreDescends(score: Score, p: int, x: string, s: seq<string>)
    requires ScoreDescending(score, p, s)
    ensures ScoreDescending(score, p, InsertByScore(score, p, x, s))
  {
    if s != [] && score(x, p) < score(s[0], p) {
      InsertByScoreDescends(score, p, x, s[1..]);
      var rest := InsertByScore(score, p, x, s[1..]);
      forall j | 0 <= j < |rest| ensures score(s[0], p) >= score(rest[j], p) {
        assert rest[j] in multiset(rest);
        assert rest[j] == x || rest[j] in s[1..];
      }
    }
  }

  lemma {:induction false} ByScoreDescends(score: Score, p: int, s: seq<string>)
    ensures ScoreDescending(score, p, ByScore(score, p, s))
  {
    if s != [] {
      ByScoreDescends(score, p, s[1..]);
      InsertByScoreDescends(score, p, s[0], ByScore(score, p, s[1..]));
    }
  }

  ghost function SomeKept(score: Score, p: int, cap: int, owned: seq<string>): (r: seq<string>)
    ensures IsKept(score, p, cap, owned, r)
  {
    ByScoreDescends(score, p, owned);
    SortedPrefixIsKept(score, p, cap, owned, ByScore(score, p, owned));
    ByScore(score, p, owned)[..Kept(|ByScore(score, p, owned)|, cap)]
  }

  ghost function SomeKeptPhase(score: Score, o: Options, cap: int): (r: Assignment)
    ensures KeptPhase(score, o.current, o.numPods, cap, r)
  {
    map p | p in SurvivingOwners(o.current, o.numPods) :: SomeKept(score, p, cap, o.current[p])
  }

  lemma SomeNameList(targets: set<string>) returns (names: seq<string>)
    ensures IsNameList(targets, names)
    decreases targets
  {
    if targets == {} {
      names := [];
    } else {
      var t :| t in targets;
      var rest := SomeNameList(targets - {t});
      names := InsertString(t, rest);
      InsertStringSorted(t, rest);
      assert forall x :: x in names <==> x in multiset(names);
      assert forall x :: x in rest <==> x in multiset(rest);
      DistinctMultiset([t] + rest, names);
    }
  }

  lemma OutcomeOver(score: Score, targets: set<string>, o: Options, kept: Assignment) returns (r: Assignment)
    requires o.numPods >= 1 && CleanOwners(targets, o) && targets != {}
    requires KeptPhase(score, o.current, o.numPods, Capacity(targets, o), kept)
    ensures Outcome(score, targets, o, r) && Extends(kept, r)
    ensures Envyless(score, targets, o.numPods, Capacity(targets, o), kept, r)
  {
    var cap := Capacity(targets, o);
    var names := SomeNameList(targets);
    r := Fill(score, o.numPods, cap, Placed(kept), names, kept);
    assert OutcomeFrom(score, names, o.numPods, cap, kept, r);
    KeptIsClean(score, targets, o, cap, kept);
    FillIsEnvyless(score, targets, o.numPods, cap, names, kept);
    FillInvariant(score, o.numPods, cap, names, kept);
  }

  // ---------- the theorem ----------

  ghost predicate Determined(score: Score, targets: set<string>, o: Options)
    requires o.numPods >= 1
  {
    forall r1, r2 :: Outcome(score, targets, o, r1) && Outcome(score, targets, o, r2) ==> SamePlacement(r1, r2)
  }

  lemma WithoutTiesDetermined(score: Score, targets: set<string>, o: Options, r1: Assignment, r2: Assignment)
    requires o.numPods >= 1 && CleanOwners(targets, o)
    requires Outcome(score, targets, o, r1) && Outcome(score, targets, o, r2)
    requires forall p :: p in o.current && p < o.numPods ==> !CutTie(score, p, Capacity(targets, o), o.current[p])
    ensures SamePlacement(r1, r2)
  {
    var cap := Capacity(targets, o);
    var kept1 := OutcomeIsEnvyless(score, targets, o, r1);
    var kept2 := OutcomeIsEnvyless(score, targets, o, r2);
    forall p, x ensures x in Names(kept1, p) <==> x in Names(kept2, p) {
      if p in kept1 {
        if x in kept1[p] && x !in kept2[p] { DifferingKeptTie(score, p, cap, o.current[p], kept1[p], kept2[p], x); }
        if x in kept2[p] && x !in kept1[p] { DifferingKeptTie(score, p, cap, o.current[p], kept2[p], kept1[p], x); }
      }
    }
    var names := SomeNameList(targets);
    EnvylessIsUnique(score, targets, o.numPods, cap, names, kept1, r1, kept2, r2);
  }

  lemma TieMeansTwoResults(score: Score, targets: set<string>, o: Options, p: int) returns (r1: Assignment, r2: Assignment)
    requires o.numPods >= 1 && CleanOwners(targets, o)
    requires p in o.current && p < o.numPods && CutTie(score, p, Capacity(targets, o), o.current[p])
    ensures Outcome(score, targets, o, r1) && Outcome(score, targets, o, r2) && !SamePlacement(r1, r2)
  {
    var cap, owned := Capacity(targets, o), o.current[p];
    EmptyOrInhabited(owned);
    var kept1 := SomeKeptPhase(score, o, cap);
    var x, other := ExchangeAtCut(score, p, cap, owned, kept1[p]);
    var kept2 := ReplaceKept(score, o, cap, kept1, p, other);
    r1 := KeptStays(score, targets, o, kept1, p, x);
    r2 := KeptStays(score, targets, o, kept2, p, x);
    assert x in Names(r1, p) && x !in Names(r2, p);
  }

  lemma ReplaceKept(score: Score, o: Options, cap: int, kept: Assignment, p: int, other: seq<string>) returns (r: Assignment)
    requires KeptPhase(score, o.current, o.numPods, cap, kept) && p in kept
    requires IsKept(score, p, cap, o.current[p], other)
    ensures KeptPhase(score, o.current, o.numPods, cap, r) && Names(r, p) == other
  {
    r := kept[p := other];
  }

  /** A result over a given kept phase, and what it says about one owner. */
  lemma KeptStays(score: Score, targets: set<string>, o: Options, kept: Assignment, p: int, x: string) returns (r: Assignment)
    requires o.numPods >= 1 && CleanOwners(targets, o) && targets != {}
    requires KeptPhase(score, o.current, o.numPods, Capacity(targets, o), kept)
    requires p in o.current && p < o.numPods && x in o.current[p]
    ensures Outcome(score, targets, o, r) && (x in Names(r, p) <==> x in Names(kept, p))
  {
    r := OutcomeOver(score, targets, o, kept);
    StayersAreKept(score, targets, o, kept, r, p);
  }

  /** The inputs determine which targets each pod gets, however the sort arranges equal
      scores, if and only if no surviving pod has a tie across its cut. */
  lemma DeterminedExactlyWithoutCutTies(score: Score, targets: set<string>, o: Options)
    requires o.numPods >= 1 && CleanOwners(targets, o)
    ensures Determined(score, targets, o) <==>
            forall p :: p in o.current && p < o.numPods ==> !CutTie(score, p, Capacity(targets, o), o.current[p])
  {
    if p :| p in o.current && p < o.numPods && CutTie(score, p, Capacity(targets, o), o.current[p]) {
      var r1, r2 := TieMeansTwoResults(score, targets, o, p);
    } else {
      forall r1, r2 | Outcome(score, targets, o, r1) && Outcome(score, targets, o, r2) ensures SamePlacement(r1, r2) {
        WithoutTiesDetermined(score, targets, o, r1, r2);
      }
    }
  }
}
