/** Splitting a plan over the pods: internal/gnmic/distribute.go. */
module Distribute {
  import opened Counting
  import opened Ordering
  import opened Placement
  import opened PlacementTheorems
  import opened PlacementStability
  import opened PlacementDeterminism

  /** The owners recorded in a plan: pod index to target names. */
  type Recorded = map<int, set<string>>

  datatype PodPlan<+C> = PodPlan(targets: map<string, Option<C>>)

  datatype DistributeResult<+C> = DistributeResult(perPod: map<int, PodPlan<C>>, unassigned: seq<string>)

  ghost predicate ListsOwners(recorded: Recorded, current: Assignment) {
    && current.Keys == (set p | p in recorded && recorded[p] != {})
    && forall p :: p in current ==> IsNameList(recorded[p], current[p])
  }

  ghost predicate PodPlanOf<C>(targets: map<string, C>, names: seq<string>, plan: PodPlan<C>) {
    && plan.targets.Keys == Elements(names)
    && forall t :: t in plan.targets ==> plan.targets[t] == if t in targets then Some(targets[t]) else None
  }

  /** The result reports one placement: its pods, their targets and their configurations,
      and the sorted list of the targets it left out. */
  ghost predicate Reports<C>(targets: map<string, C>, r: Assignment, res: DistributeResult<C>) {
    && res.perPod.Keys == r.Keys
    && (forall p :: p in r ==> PodPlanOf(targets, r[p], res.perPod[p]))
    && StrictlySorted(res.unassigned)
    && Elements(res.unassigned) == targets.Keys - Placed(r)
  }

  function OptionsFor(numPods: int, capacity: Option<int>, current: Assignment): Options {
    Options(if numPods <= 0 then 1 else numPods, match capacity case None => 0 case Some(c) => c, current)
  }

  /** What the distribution returns for these inputs. */
  ghost predicate Distribution<C>(arrange: Arrangement, score: Score, targets: map<string, C>, recorded: Recorded, numPods: int, capacity: Option<int>,
                                  res: DistributeResult<C>)
  {
    exists current, r ::
      ListsOwners(recorded, current) && OutcomeVia(arrange, score, targets.Keys, OptionsFor(numPods, capacity, current), r) &&
      Reports(targets, r, res)
  }

  method DistributePlan<C>(score: Score, arrange: Arrangement, targets: map<string, C>, recorded: Recorded, numPods: int, capacity: Option<int>)
    returns (res: DistributeResult<C>)
    requires Sorts(score, arrange)
    ensures Distribution(arrange, score, targets, recorded, numPods, capacity, res)
  {
    var pods := if numPods <= 0 then 1 else numPods;
    var currentAssignment := ListOwners(recorded);
    var opts := Options(pods, match capacity case None => 0 case Some(c) => c, currentAssignment);
    var placed := Placement.DistributeTargets(score, arrange, targets.Keys, Some(opts));
    var result, given := PlansPerPod(targets, placed);
    var unassigned := SortedNames(targets.Keys - given);
    SortedDistinctIsStrict(unassigned);
    res := DistributeResult(result, unassigned);
    assert opts == OptionsFor(numPods, capacity, currentAssignment);
    assert OutcomeVia(arrange, score, targets.Keys, opts, placed) && Reports(targets, placed, res);
  }

  /** The loop over the new assignment. */
  method PlansPerPod<C>(targets: map<string, C>, placed: Assignment) returns (result: map<int, PodPlan<C>>, given: set<string>)
    ensures result.Keys == placed.Keys && given == Placed(placed)
    ensures forall p :: p in placed ==> PodPlanOf(targets, placed[p], result[p])
  {
    result, given := map[], {};
    var indexes := Enumerate(placed.Keys);
    for k := 0 to |indexes|
      invariant result.Keys == Elements(indexes[..k])
      invariant forall p :: p in result ==> PodPlanOf(targets, placed[p], result[p])
      invariant given == set p, t | p in indexes[..k] && t in placed[p] :: t
    {
      var p := indexes[k];
      assert indexes[..k+1] == indexes[..k] + [p];
      var podPlan := PlanForPod(targets, placed[p]);
      result := result[p := podPlan];
      given := given + podPlan.targets.Keys;
    }
    assert indexes[..|indexes|] == indexes;
    assert given == Placed(placed);
  }

  method ListOwners(recorded: Recorded) returns (current: Assignment)
    ensures ListsOwners(recorded, current)
  {
    current := map[];
    var pods := Enumerate(recorded.Keys);
    for k := 0 to |pods|
      invariant current.Keys == set p | p in pods[..k] && recorded[p] != {}
      invariant forall p :: p in current ==> IsNameList(recorded[p], current[p])
    {
      var p := pods[k];
      assert pods[..k+1] == pods[..k] + [p];
      if recorded[p] != {} {
        var names := SortedNames(recorded[p]);
        current := current[p := names];
      }
    }
    assert pods[..|pods|] == pods;
  }

  method PlanForPod<C>(targets: map<string, C>, names: seq<string>) returns (plan: PodPlan<C>)
    ensures PodPlanOf(targets, names, plan)
  {
    var m: map<string, Option<C>> := map[];
    for k := 0 to |names|
      invariant PodPlanOf(targets, names[..k], PodPlan(m))
    {
      var t := names[k];
      assert names[..k+1] == names[..k] + [t];
      m := m[t := if t in targets then Some(targets[t]) else None];
    }
    assert names[..|names|] == names;
    plan := PodPlan(m);
  }

  // ---------- what the result means ----------

  /** No target is recorded on two pods and every recorded one is in the plan. */
  ghost predicate CleanRecord(targets: set<string>, recorded: Recorded, numPods: int) {
    && (forall p :: p in recorded ==> p >= 0)
    && (forall p, t :: p in recorded && p < numPods && t in recorded[p] ==> t in targets)
    && (forall p, q, t :: p in recorded && q in recorded && p < q < numPods && t in recorded[p] ==> t !in recorded[q])
  }

  lemma CleanRecordIsClean(targets: set<string>, recorded: Recorded, o: Options)
    requires CleanRecord(targets, recorded, o.numPods) && ListsOwners(recorded, o.current)
    ensures CleanOwners(targets, o)
  {
  }

  /** The pods' plans partition what is placed, and placed plus unassigned is the
      whole plan: as many as fit are placed, the rest are listed. */
  lemma DistributionConserves<C>(arrange: Arrangement, score: Score, targets: map<string, C>, recorded: Recorded, numPods: int, capacity: Option<int>,
                                 res: DistributeResult<C>)
    requires Distribution(arrange, score, targets, recorded, numPods, capacity, res)
    requires CleanRecord(targets.Keys, recorded, OptionsFor(numPods, capacity, map[]).numPods)
    ensures forall p, t :: p in res.perPod && t in res.perPod[p].targets ==>
              t in targets && res.perPod[p].targets[t] == Some(targets[t]) && t !in res.unassigned
    ensures forall p, q, t :: p in res.perPod && q in res.perPod && p != q && t in res.perPod[p].targets ==>
              t !in res.perPod[q].targets
    ensures forall t :: t in targets && t !in res.unassigned ==> exists p :: p in res.perPod && t in res.perPod[p].targets
    ensures var o := OptionsFor(numPods, capacity, map[]);
            |res.unassigned| == |targets| - Min(|targets|, o.numPods * Ceiling(Capacity(targets.Keys, o)))
  {
    var current, r :|
      ListsOwners(recorded, current) && OutcomeVia(arrange, score, targets.Keys, OptionsFor(numPods, capacity, current), r) &&
      Reports(targets, r, res);
    OutcomeViaIsOutcome(arrange, score, targets.Keys, OptionsFor(numPods, capacity, current), r);
    PlacedExactly(score, targets.Keys, recorded, numPods, capacity, current, r);
    ReportPartitions(targets, r, res);
    UnassignedCount(targets, r, res);
  }

  /** A pod's plan has no more targets than the pod was given. */
  lemma PlanIsNoLarger<C>(targets: map<string, C>, r: Assignment, res: DistributeResult<C>, p: int)
    requires Reports(targets, r, res) && p in res.perPod
    ensures |res.perPod[p].targets| <= |Names(r, p)|
  {
    assert PodPlanOf(targets, r[p], res.perPod[p]);
    ElementsCount(r[p]);
    assert |res.perPod[p].targets.Keys| == |res.perPod[p].targets|;
  }

  lemma SomeOutcome<C>(arrange: Arrangement, score: Score, targets: map<string, C>, recorded: Recorded, numPods: int,
                       capacity: Option<int>, res: DistributeResult<C>) returns (current: Assignment, r: Assignment)
    requires Distribution(arrange, score, targets, recorded, numPods, capacity, res)
    ensures ListsOwners(recorded, current) && Outcome(score, targets.Keys, OptionsFor(numPods, capacity, current), r)
    ensures Reports(targets, r, res)
  {
    current, r :|
      ListsOwners(recorded, current) && OutcomeVia(arrange, score, targets.Keys, OptionsFor(numPods, capacity, current), r) &&
      Reports(targets, r, res);
    OutcomeViaIsOutcome(arrange, score, targets.Keys, OptionsFor(numPods, capacity, current), r);
  }

  /** A configured capacity bounds the load, a negative one allows none; without one, or
      with zero, a pod takes at most its share of the targets, rounded up. */
  ghost predicate WithinShare(load: nat, count: nat, n: int, capacity: Option<int>)
    requires n >= 1
  {
    match capacity
    case None => load <= (count + n - 1) / n
    case Some(c) => if c > 0 then load <= c else if c < 0 then load == 0 else load <= (count + n - 1) / n
  }

  /** A request for no pods is taken as one for one pod. */
  function Pods(numPods: int): (n: int)
    ensures n >= 1
  {
    if numPods < 1 then 1 else numPods
  }

  lemma LoadWithinShare(score: Score, names: set<string>, count: nat, numPods: int, capacity: Option<int>, current: Assignment, r: Assignment, p: int)
    requires count == |names| && Outcome(score, names, OptionsFor(numPods, capacity, current), r)
    ensures WithinShare(|Names(r, p)|, count, Pods(numPods), capacity)
  {
    LoadIsBounded(score, names, OptionsFor(numPods, capacity, current), r, p);
  }

  lemma SmallerWithinShare(load: nat, larger: nat, count: nat, n: int, capacity: Option<int>)
    requires n >= 1 && load <= larger && WithinShare(larger, count, n, capacity)
    ensures WithinShare(load, count, n, capacity)
  {
  }

  /** What the configured pod capacity does to one pod. */
  lemma CapacityBoundsPods<C>(arrange: Arrangement, score: Score, targets: map<string, C>, recorded: Recorded, numPods: int,
                              capacity: Option<int>, res: DistributeResult<C>, p: int)
    requires Distribution(arrange, score, targets, recorded, numPods, capacity, res) && p in res.perPod
    ensures WithinShare(|res.perPod[p].targets|, |targets|, Pods(numPods), capacity)
  {
    var current, r := SomeOutcome(arrange, score, targets, recorded, numPods, capacity, res);
    PlanIsNoLarger(targets, r, res, p);
    assert |targets.Keys| == |targets|;
    LoadWithinShare(score, targets.Keys, |targets|, numPods, capacity, current, r, p);
    SmallerWithinShare(|res.perPod[p].targets|, |Names(r, p)|, |targets|, Pods(numPods), capacity);
  }

  /** And to the list of unassigned targets: as many as do not fit. */
  lemma CapacityDecidesUnassigned<C>(arrange: Arrangement, score: Score, targets: map<string, C>, recorded: Recorded, numPods: int,
                                     capacity: Option<int>, res: DistributeResult<C>)
    requires Distribution(arrange, score, targets, recorded, numPods, capacity, res)
    requires CleanRecord(targets.Keys, recorded, Pods(numPods))
    ensures capacity.Some? && capacity.value > 0 ==>
              |res.unassigned| == if |targets| <= Pods(numPods) * capacity.value then 0 else |targets| - Pods(numPods) * capacity.value
    ensures capacity.Some? && capacity.value < 0 ==> |res.unassigned| == |targets|
    ensures capacity == None || capacity == Some(0) ==> res.unassigned == []
  {
    var current, r := SomeOutcome(arrange, score, targets, recorded, numPods, capacity, res);
    CleanRecordIsClean(targets.Keys, recorded, OptionsFor(numPods, capacity, current));
    OutcomeIsClean(score, targets.Keys, OptionsFor(numPods, capacity, current), r);
    ConfiguredCapacityPlaces(score, targets.Keys, OptionsFor(numPods, capacity, current), r);
    UnassignedCount(targets, r, res);
    assert |targets.Keys| == |targets|;
  }

  lemma {:induction false} ElementsCount<T>(s: seq<T>)
    ensures |Elements(s)| <= |s|
  {
    if s != [] {
      ElementsCount(s[..|s| - 1]);
      assert s == s[..|s| - 1] + [s[|s| - 1]];
      assert Elements(s) == Elements(s[..|s| - 1]) + {s[|s| - 1]};
    }
  }

  lemma PlacedExactly(score: Score, targets: set<string>, recorded: Recorded, numPods: int, capacity: Option<int>,
                      current: Assignment, r: Assignment)
    requires CleanRecord(targets, recorded, OptionsFor(numPods, capacity, map[]).numPods) && ListsOwners(recorded, current)
    requires Outcome(score, targets, OptionsFor(numPods, capacity, current), r)
    ensures Exclusive(r) && Placed(r) <= targets
    ensures var o := OptionsFor(numPods, capacity, map[]);
            |Placed(r)| == Min(|targets|, o.numPods * Ceiling(Capacity(targets, o)))
  {
    var o := OptionsFor(numPods, capacity, current);
    CleanRecordIsClean(targets, recorded, o);
    Conservation(score, targets, o, r);
    SameRoom(targets, o, OptionsFor(numPods, capacity, map[]));
  }

  /** What fits does not depend on the owners. */
  lemma SameRoom(targets: set<string>, o: Options, o': Options)
    requires o.numPods == o'.numPods >= 1 && o.capacity == o'.capacity
    ensures o.numPods * Ceiling(Capacity(targets, o)) == o'.numPods * Ceiling(Capacity(targets, o'))
  {
    assert Capacity(targets, o) == Capacity(targets, o');
  }

  lemma ReportPartitions<C>(targets: map<string, C>, r: Assignment, res: DistributeResult<C>)
    requires Reports(targets, r, res) && Exclusive(r) && Placed(r) <= targets.Keys
    ensures forall p, t :: p in res.perPod && t in res.perPod[p].targets ==>
              t in targets && res.perPod[p].targets[t] == Some(targets[t]) && t !in res.unassigned
    ensures forall p, q, t :: p in res.perPod && q in res.perPod && p != q && t in res.perPod[p].targets ==>
              t !in res.perPod[q].targets
    ensures forall t :: t in targets && t !in res.unassigned ==> exists p :: p in res.perPod && t in res.perPod[p].targets
  {
    forall p, t | p in res.perPod && t in res.perPod[p].targets
      ensures t in r[p] && t in Placed(r)
    {
      assert PodPlanOf(targets, r[p], res.perPod[p]);
      assert t in Elements(r[p]);
      PlacedHas(r, p, t);
    }
    forall t | t in targets && t !in res.unassigned ensures exists p :: p in res.perPod && t in res.perPod[p].targets {
      assert t !in Elements(res.unassigned);
      var p :| p in r && t in r[p];
      assert PodPlanOf(targets, r[p], res.perPod[p]);
      assert t in Elements(r[p]);
    }
    forall t | t in Placed(r) ensures t !in res.unassigned {
      assert t !in Elements(res.unassigned);
    }
  }

  lemma StrictIsDistinct(s: seq<string>)
    requires StrictlySorted(s)
    ensures Distinct(s)
  {
    forall i, j | 0 <= i < j < |s| ensures s[i] != s[j] { LessAsymmetric(s[i], s[j]); }
  }

  lemma UnassignedCount<C>(targets: map<string, C>, r: Assignment, res: DistributeResult<C>)
    requires Reports(targets, r, res) && Placed(r) <= targets.Keys
    ensures |res.unassigned| == |targets| - |Placed(r)|
  {
    StrictIsDistinct(res.unassigned);
    DistinctLength(res.unassigned);
    assert |targets.Keys - Placed(r)| == |targets.Keys| - |Placed(r)|;
    assert |targets.Keys| == |targets|;
  }

  // ---------- the order in which maps are visited ----------

  lemma NameListIsUnique(targets: set<string>, s: seq<string>, t: seq<string>)
    requires IsNameList(targets, s) && IsNameList(targets, t)
    ensures s == t
  {
    DistinctSameElements(s, t);
    SortedUnique(s, t);
  }

  lemma ListedOwnersAreUnique(recorded: Recorded, current: Assignment, other: Assignment)
    requires ListsOwners(recorded, current) && ListsOwners(recorded, other)
    ensures current == other
  {
    forall p | p in current ensures current[p] == other[p] {
      NameListIsUnique(recorded[p], current[p], other[p]);
    }
  }

  lemma CutIsUnique(arrange: Arrangement, score: Score, o: Options, cap: int, kept1: Assignment, kept2: Assignment)
    requires KeptPhase(score, o.current, o.numPods, cap, kept1) && CutFrom(arrange, o.current, cap, kept1)
    requires KeptPhase(score, o.current, o.numPods, cap, kept2) && CutFrom(arrange, o.current, cap, kept2)
    ensures kept1 == kept2
  {
    forall p | p in kept1 ensures p in kept2 && kept1[p] == kept2[p] {
      assert p in kept2;
    }
  }

  lemma OutcomeViaIsUnique(arrange: Arrangement, score: Score, targets: set<string>, o: Options, r1: Assignment, r2: Assignment)
    requires o.numPods >= 1 && OutcomeVia(arrange, score, targets, o, r1) && OutcomeVia(arrange, score, targets, o, r2)
    ensures r1 == r2
  {
    if targets != {} {
      var cap := EffectiveCapacity(|targets|, o);
      var kept1, sorted1 :|
        KeptPhase(score, o.current, o.numPods, cap, kept1) && CutFrom(arrange, o.current, cap, kept1) &&
        IsNameList(targets, sorted1) && OutcomeFrom(score, sorted1, o.numPods, cap, kept1, r1);
      var kept2, sorted2 :|
        KeptPhase(score, o.current, o.numPods, cap, kept2) && CutFrom(arrange, o.current, cap, kept2) &&
        IsNameList(targets, sorted2) && OutcomeFrom(score, sorted2, o.numPods, cap, kept2, r2);
      CutIsUnique(arrange, score, o, cap, kept1, kept2);
      NameListIsUnique(targets, sorted1, sorted2);
    }
  }

  /** For one sorting procedure all results of the distribution are the same: nothing
      depends on the order in which the target map, the recorded owners or the new
      assignment are visited, since the owner lists are put in name order first. */
  lemma VisitOrderIsInvisible<C>(arrange: Arrangement, score: Score, targets: map<string, C>, recorded: Recorded,
                                 numPods: int, capacity: Option<int>, res1: DistributeResult<C>, res2: DistributeResult<C>)
    requires Distribution(arrange, score, targets, recorded, numPods, capacity, res1)
    requires Distribution(arrange, score, targets, recorded, numPods, capacity, res2)
    ensures res1 == res2
  {
    var current1, r1 :|
      ListsOwners(recorded, current1) && OutcomeVia(arrange, score, targets.Keys, OptionsFor(numPods, capacity, current1), r1) &&
      Reports(targets, r1, res1);
    var current2, r2 :|
      ListsOwners(recorded, current2) && OutcomeVia(arrange, score, targets.Keys, OptionsFor(numPods, capacity, current2), r2) &&
      Reports(targets, r2, res2);
    ListedOwnersAreUnique(recorded, current1, current2);
    OutcomeViaIsUnique(arrange, score, targets.Keys, OptionsFor(numPods, capacity, current1), r1, r2);
    ReportIsUnique(targets, r1, res1, res2);
  }

  lemma ReportIsUnique<C>(targets: map<string, C>, r: Assignment, res1: DistributeResult<C>, res2: DistributeResult<C>)
    requires Reports(targets, r, res1) && Reports(targets, r, res2)
    ensures res1 == res2
  {
    forall p | p in r ensures res1.perPod[p] == res2.perPod[p] {
      assert PodPlanOf(targets, r[p], res1.perPod[p]) && PodPlanOf(targets, r[p], res2.perPod[p]);
      assert res1.perPod[p].targets == res2.perPod[p].targets;
    }
    assert res1.perPod == res2.perPod;
    StrictIsDistinct(res1.unassigned);
    StrictIsDistinct(res2.unassigned);
    assert forall x :: x in res1.unassigned <==> x in Elements(res1.unassigned);
    assert forall x :: x in res2.unassigned <==> x in Elements(res2.unassigned);
    DistinctSameElements(res1.unassigned, res2.unassigned);
    SortedUnique(res1.unassigned, res2.unassigned);
  }

  // ---------- stale records ----------

  /** t was recorded on a surviving pod, and fewer owners than fit score above it. */
  ghost predicate MayBeKept(score: Score, o: Options, cap: int, p: int, t: string) {
    && p in o.current && p < o.numPods && t in o.current[p]
    && |Scoring(score, p, o.current[p], score(t, p))| < cap
  }

  lemma {:induction false} FillAddsOnlyNames(score: Score, n: int, cap: int, names: seq<string>, kept: Assignment, p: int, t: string)
    requires t in Names(Fill(score, n, cap, Placed(kept), names, kept), p)
    ensures t in Names(kept, p) || t in names
  {
    FillAddsLater(score, n, cap, names, kept, Placed(kept), 0, p, t);
    assert names[..0] == [] && names[0..] == names;
  }

  /** Some owner that may be kept is kept by some arrangement of the ties. */
  lemma KeepingOne(score: Score, p: int, cap: int, owned: seq<string>, t: string) returns (kept: seq<string>)
    requires Distinct(owned) && t in owned && |Scoring(score, p, owned, score(t, p))| < cap
    ensures IsKept(score, p, cap, owned, kept) && t in kept
  {
    kept := SomeKept(score, p, cap, owned);
    if t !in kept {
      KeptFacts(score, p, cap, owned, kept);
      DistinctLength(owned);
      assert t in Elements(owned) && t !in Elements(kept);
      SubsetIsSmaller(Elements(kept), Elements(owned));
      var x := PickOutside(Elements(kept), Scoring(score, p, owned, score(t, p)));
      assert x in Elements(owned);
      var i :| 0 <= i < |kept| && kept[i] == x;
      ExchangeIsKept(score, p, cap, owned, kept, i, t);
      kept := kept[i := t];
      assert kept[i] == t;
    }
  }

  lemma KeptMayBeKept(score: Score, o: Options, cap: int, kept: Assignment, p: int, t: string)
    requires KeptPhase(score, o.current, o.numPods, cap, kept) && t in Names(kept, p)
    requires Distinct(o.current[p])
    ensures MayBeKept(score, o, cap, p, t)
  {
    var owned := o.current[p];
    KeptFacts(score, p, cap, owned, kept[p]);
    var k := Elements(kept[p]);
    assert t in k && t in Elements(owned);
    forall z | z in Scoring(score, p, owned, score(t, p)) ensures z in k - {t} { }
    SmallerSet(Scoring(score, p, owned, score(t, p)), k - {t});
  }

  /** A pod can be sent a target that has no configuration exactly when a recorded
      name outside the plan may be kept.  A recorded target whose profile is missing
      is such a name: it is recorded but not planned. */
  lemma StaleNamePlannedExactly(score: Score, targets: set<string>, o: Options)
    requires o.numPods >= 1 && targets != {}
    requires forall p :: p in o.current ==> Distinct(o.current[p])
    ensures (exists r, p, t :: Outcome(score, targets, o, r) && t in Names(r, p) && t !in targets) <==>
            (exists p, t :: MayBeKept(score, o, Capacity(targets, o), p, t) && t !in targets)
  {
    var cap := Capacity(targets, o);
    if r, p, t :| Outcome(score, targets, o, r) && t in Names(r, p) && t !in targets {
      var kept, sorted :| KeptPhase(score, o.current, o.numPods, cap, kept) && IsNameList(targets, sorted) &&
                          OutcomeFrom(score, sorted, o.numPods, cap, kept, r);
      FillAddsOnlyNames(score, o.numPods, cap, sorted, kept, p, t);
      KeptMayBeKept(score, o, cap, kept, p, t);
    }
    if p, t :| MayBeKept(score, o, cap, p, t) && t !in targets {
      var r := StaleOutcome(score, targets, o, p, t);
      assert Outcome(score, targets, o, r) && t in Names(r, p) && t !in targets;
    }
  }

  lemma StaleOutcome(score: Score, targets: set<string>, o: Options, p: int, t: string) returns (r: Assignment)
    requires o.numPods >= 1 && targets != {} && MayBeKept(score, o, Capacity(targets, o), p, t)
    requires forall p :: p in o.current ==> Distinct(o.current[p])
    ensures Outcome(score, targets, o, r) && t in Names(r, p)
  {
    var cap := Capacity(targets, o);
    var one := KeepingOne(score, p, cap, o.current[p], t);
    var kept := ReplaceKept(score, o, cap, SomeKeptPhase(score, o, cap), p, one);
    var names := SomeNameList(targets);
    r := Fill(score, o.numPods, cap, Placed(kept), names, kept);
    assert OutcomeFrom(score, names, o.numPods, cap, kept, r);
    FillExtendsPrefix(score, o.numPods, cap, names, kept, Placed(kept), 0);
    assert names[..0] == [];
    assert p in kept;
    InPrefix(Names(kept, p), Names(r, p), t);
  }
}
