/** The feedback loop: a placement is pushed to the pods, the pods report into target
    status, and the next reconcile reads the placement back out of the pod names. */
module ClosedLoop {
  import opened Ordering
  import opened Placement
  import opened PlacementTheorems
  import opened PlacementStability
  import opened PodNames
  import opened PlanRelations
  import opened PlanBuilding
  import opened Distribute

  /** A namespaced name denotes one Target object, whichever pipeline holds it. */
  ghost predicate OneObjectPerName(ps: set<PipelineData>) {
    forall p, q, t :: p in ps && q in ps && t in p.targets && t in q.targets ==> p.targets[t] == q.targets[t]
  }

  ghost predicate AllPlanned(ps: set<PipelineData>, targets: set<string>) {
    forall p, t :: p in ps && t in p.targets ==> t in targets
  }

  function PodOf(cluster: string, target: Target): string {
    if cluster in target.pods then target.pods[cluster] else ""
  }

  /** Status after the pods have reported: each placed target names its pod, the others none. */
  ghost predicate StatusReflects(ps: set<PipelineData>, cluster: string, sts: string, r: Assignment) {
    && (forall p, t, i :: p in ps && t in p.targets && i >= 0 && t in Names(r, i) ==>
          PodOf(cluster, p.targets[t]) == PodName(sts, i))
    && (forall p, t :: p in ps && t in p.targets && t !in Placed(r) ==> PodOf(cluster, p.targets[t]) == "")
  }

  /** What collectRelationships records never puts a target on two pods, given one
      object per name; it stays inside the plan if every target has its profile. */
  lemma RecordIsClean(ps: set<PipelineData>, cluster: string, targets: set<string>, recorded: Recorded, numPods: int)
    requires OneObjectPerName(ps) && AllPlanned(ps, targets)
    requires Records(ps, cluster, map[], recorded)
    ensures CleanRecord(targets, recorded, numPods)
  {
    forall p, t | p in recorded && t in recorded[p]
      ensures t in targets && t in OwnedBy(ps, cluster, p)
    {
      assert Owners(recorded, p) == OwnedBy(ps, cluster, p);
    }
    forall p, q, t | p in recorded && q in recorded && p < q && t in recorded[p] ensures t !in recorded[q] {
      OwnedOnce(ps, cluster, p, q, t);
      assert Owners(recorded, q) == OwnedBy(ps, cluster, q);
    }
  }

  lemma OwnedOnce(ps: set<PipelineData>, cluster: string, i: int, j: int, t: string)
    requires OneObjectPerName(ps) && i != j && t in OwnedBy(ps, cluster, i)
    ensures t !in OwnedBy(ps, cluster, j)
  {
  }

  lemma OwnerIsWhereStatusSays(ps: set<PipelineData>, cluster: string, sts: string, n: int, cap: int, r: Assignment, i: int, t: string)
    requires StatusReflects(ps, cluster, sts, r) && Within(r, n, cap) && n <= MAX_INT
    requires t in OwnedBy(ps, cluster, i)
    ensures t in Names(r, i)
  {
    var p :| p in ps && t in p.targets && RecordedPod(cluster, p.targets[t]) == Some(i);
    assert PodOrdinal("") == None;
    assert t in Placed(r);
    var j :| j in r && t in r[j];
    assert t in Names(r, j);
    OrdinalRoundTrip(sts, j);
  }

  lemma PlacedIsRecorded(ps: set<PipelineData>, cluster: string, sts: string, n: int, cap: int, r: Assignment, i: int, t: string)
    requires StatusReflects(ps, cluster, sts, r) && Within(r, n, cap) && n <= MAX_INT
    requires t in Names(r, i) && t in AllKeys(ps, TargetNames)
    ensures t in OwnedBy(ps, cluster, i)
  {
    var p :| p in ps && t in TargetNames(p);
    assert i in r && t in p.targets;
    assert PodOf(cluster, p.targets[t]) == PodName(sts, i);
    OrdinalRoundTrip(sts, i);
    assert RecordedPod(cluster, p.targets[t]) == Some(i);
  }

  lemma StatusReadsBack(ps: set<PipelineData>, cluster: string, sts: string, n: int, cap: int, r: Assignment,
                        recorded: Recorded, current: Assignment)
    requires StatusReflects(ps, cluster, sts, r) && Within(r, n, cap) && n <= MAX_INT
    requires Placed(r) <= AllKeys(ps, TargetNames)
    requires Records(ps, cluster, map[], recorded) && ListsOwners(recorded, current)
    ensures ReadBack(r, current) && NaturalKeys(current)
  {
    assert NaturalKeys(current);
    forall i, t ensures t in Names(r, i) <==> t in Names(current, i) {
      if t in Names(r, i) {
        PlacedHas(r, i, t);
        PlacedIsRecorded(ps, cluster, sts, n, cap, r, i, t);
        assert t in Owners(recorded, i);
        assert i in current && IsNameList(recorded[i], current[i]);
      }
      if t in Names(current, i) {
        assert i >= 0 && IsNameList(recorded[i], current[i]);
        assert t in Owners(recorded, i);
        OwnerIsWhereStatusSays(ps, cluster, sts, n, cap, r, i, t);
      }
    }
  }

  ghost predicate SameTargets<C>(a: DistributeResult<C>, b: DistributeResult<C>) {
    && (forall p, t :: p in a.perPod && t in a.perPod[p].targets ==> p in b.perPod && t in b.perPod[p].targets)
    && (forall p, t :: p in b.perPod && t in b.perPod[p].targets ==> p in a.perPod && t in a.perPod[p].targets)
  }

  lemma SamePlacementSameReport<C>(targets: map<string, C>, targets': map<string, C>, r: Assignment, r': Assignment,
                                   res: DistributeResult<C>, res': DistributeResult<C>)
    requires targets.Keys == targets'.Keys && SamePlacement(r, r') && Placed(r) == Placed(r')
    requires Reports(targets, r, res) && Reports(targets', r', res')
    ensures SameTargets(res, res') && res.unassigned == res'.unassigned
  {
    OneWay(targets, targets', r, r', res, res');
    OneWay(targets', targets, r', r, res', res);
    StrictIsDistinct(res.unassigned);
    StrictIsDistinct(res'.unassigned);
    assert forall x :: x in res.unassigned <==> x in Elements(res.unassigned);
    assert forall x :: x in res'.unassigned <==> x in Elements(res'.unassigned);
    DistinctSameElements(res.unassigned, res'.unassigned);
    SortedUnique(res.unassigned, res'.unassigned);
  }

  lemma OneWay<C>(targets: map<string, C>, targets': map<string, C>, r: Assignment, r': Assignment,
                  res: DistributeResult<C>, res': DistributeResult<C>)
    requires SamePlacement(r, r') && Reports(targets, r, res) && Reports(targets', r', res')
    ensures forall p, t :: p in res.perPod && t in res.perPod[p].targets ==> p in res'.perPod && t in res'.perPod[p].targets
  {
    forall p, t | p in res.perPod && t in res.perPod[p].targets ensures p in res'.perPod && t in res'.perPod[p].targets {
      assert PodPlanOf(targets, r[p], res.perPod[p]) && t in Elements(r[p]);
      assert t in Names(r, p) && t in Names(r', p);
      assert PodPlanOf(targets', r'[p], res'.perPod[p]) && t in Elements(r'[p]);
    }
  }

  /** Reconciling again after the pods have reported changes nothing: with the same
      target names, pods and capacity, every pod gets the same targets and the same
      targets stay unassigned.  `recorded` is what the plan builder reads from the
      reported status of the pipelines ps. */
  lemma ReconcileIsFixpoint<C>(score: Score, targets: map<string, C>, targets': map<string, C>, numPods: int, capacity: Option<int>,
                               current: Assignment, r: Assignment, res: DistributeResult<C>,
                               ps: set<PipelineData>, cluster: string, sts: string, recorded: Recorded,
                               current': Assignment, r': Assignment, res': DistributeResult<C>)
    requires numPods <= MAX_INT && targets'.Keys == targets.Keys
    // the first reconcile
    requires CleanOwners(targets.Keys, OptionsFor(numPods, capacity, current))
    requires Outcome(score, targets.Keys, OptionsFor(numPods, capacity, current), r) && Reports(targets, r, res)
    // the pods report, the builder reads
    requires StatusReflects(ps, cluster, sts, r) && targets.Keys <= AllKeys(ps, TargetNames)
    requires Records(ps, cluster, map[], recorded) && ListsOwners(recorded, current')
    // the second reconcile
    requires Outcome(score, targets'.Keys, OptionsFor(numPods, capacity, current'), r') && Reports(targets', r', res')
    ensures SameTargets(res, res') && res.unassigned == res'.unassigned
  {
    var o := OptionsFor(numPods, capacity, current);
    Conservation(score, targets.Keys, o, r);
    StatusReadsBack(ps, cluster, sts, o.numPods, Capacity(targets.Keys, o), r, recorded, current');
    Fixpoint(score, targets.Keys, o, r, current', r');
    SamePlacementSameReport(targets, targets', r, r', res, res');
  }
}
