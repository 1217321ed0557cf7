/** A target without its profile, from pipeline to pod: recorded by the plan builder
    (internal/gnmic/plan.go:180-193), skipped by it (281-284), and kept by the placement
    (internal/gnmic/placement_blrh.go:87-98). */
module StaleTargets {
  import opened Ordering
  import opened Placement
  import opened PlacementTheorems
  import opened PodNames
  import opened PlanRelations
  import opened PlanBuilding
  import opened Distribute

  const CLUSTER := "c"
  const OLD := "ns/a"
  const NEW := "ns/b"

  /** The old target runs on pod 0 and names a profile that is gone; the new one is complete. */
  const FLEET := PipelineData(
    map[OLD := Target("gone", map[CLUSTER := "gnmic-c-0"]), NEW := Target("default", map[])],
    map["ns/default" := Profile("")], {}, map[], map[], map[], map[], map[])

  const RECORDED: Recorded := map[0 := {OLD}]
  const PLANNED := TargetConfig(Target("default", map[]), Profile(""), [])

  lemma OldIsOnPodZero()
    ensures RecordedPod(CLUSTER, FLEET.targets[OLD]) == Some(0) && RecordedPod(CLUSTER, FLEET.targets[NEW]) == None
  {
    OrdinalRoundTrip("gnmic-c", 0);
    assert "gnmic-c-0" == PodName("gnmic-c", 0);
    assert PodOrdinal("") == None;
  }

  lemma OneRecorded(p: PipelineData, a: string, b: string)
    requires p.targets.Keys == {a, b} && RecordedPod(CLUSTER, p.targets[a]) == Some(0) && RecordedPod(CLUSTER, p.targets[b]) == None
    ensures Records({p}, CLUSTER, map[], map[0 := {a}])
  {
    forall i | i >= 0 ensures Owners(map[0 := {a}], i) == OwnedBy({p}, CLUSTER, i) {
      forall t ensures t in OwnedBy({p}, CLUSTER, i) <==> t in p.targets && RecordedPod(CLUSTER, p.targets[t]) == Some(i) { }
    }
  }

  lemma FleetRecords()
    ensures Records({FLEET}, CLUSTER, map[], RECORDED)
  {
    OldIsOnPodZero();
    OneRecorded(FLEET, OLD, NEW);
  }

  lemma NamesDiffer()
    ensures OLD != NEW && Namespace(OLD) == Namespace(NEW) == "ns"
    ensures ProfileKey(OLD, FLEET.targets[OLD]) !in FLEET.profiles && ProfileKey(NEW, FLEET.targets[NEW]) == "ns/default"
  {
    assert OLD[3] != NEW[3];
    NamespaceOf("a");
    NamespaceOf("b");
    assert ("ns" + "/" + "gone")[3] != "ns/default"[3];
  }

  lemma NamespaceOf(name: string)
    ensures Namespace("ns/" + name) == "ns"
  {
    var s := "ns/" + name;
    assert s[0] == 'n' && s[1] == 's' && s[2] == '/' && '/' in s;
    assert s[1..][0] == 's' && s[1..][1..][0] == '/';
    assert BeforeSlash(s[1..][1..]) == "" && BeforeSlash(s[1..]) == "s";
  }

  lemma FleetPlans(rel: Relationships)
    requires Collected({FLEET}, NO_RELATIONSHIPS, rel)
    ensures TargetsBuilt({FLEET}, rel, map[NEW := PLANNED])
  {
    NamesDiffer();
    FreshRelation({FLEET}, TargetNames, SubscriptionNames, rel.targetSubscriptions, NEW);
    assert Related(rel.targetSubscriptions, NEW) == {};
    assert TargetFrom(FLEET, rel, NEW, PLANNED);
    assert FLEET in {FLEET};
  }

  lemma AloneIsKept(arrange: Arrangement, score: Score, a: string)
    requires Sorts(score, arrange)
    ensures KeptPhase(score, map[0 := [a]], 1, 1, map[0 := [a]]) && CutFrom(arrange, map[0 := [a]], 1, map[0 := [a]])
  {
    var s := arrange(0, [a]);
    assert |s| == |multiset(s)| == 1 && s[0] in multiset(s) && s == [a];
    CutIsKept(score, arrange, 0, 1, [a]);
    assert Cut(arrange, 0, 1, [a]) == [a];
  }

  lemma NoRoomForOther(score: Score, a: string, b: string)
    requires a != b
    ensures var kept: Assignment := map[0 := [a]]; OutcomeFrom(score, [b], 1, 1, kept, kept)
  {
    var kept: Assignment := map[0 := [a]];
    assert !HasRoom(kept, 0, 1);
    BestPodIsChosen(score, b, 1, 1, kept);
    assert Roomy(1, 1, kept) == {};
    assert [b][..0] == [];
  }

  /** One pod with a capacity of one keeps the old target and has no room for the new one. */
  lemma OldIsKept(arrange: Arrangement, score: Score, a: string, b: string)
    requires Sorts(score, arrange) && a != b
    ensures OutcomeVia(arrange, score, {b}, Options(1, 0, map[0 := [a]]), map[0 := [a]])
  {
    AloneIsKept(arrange, score, a);
    NoRoomForOther(score, a, b);
    assert |{b}| == 1 && EffectiveCapacity(1, Options(1, 0, map[0 := [a]])) == 1;
    assert IsNameList({b}, [b]);
  }

  lemma OneReported<C>(a: string, b: string, cfg: C)
    requires a != b
    ensures ListsOwners(map[0 := {a}], map[0 := [a]])
    ensures Reports(map[b := cfg], map[0 := [a]], DistributeResult(map[0 := PodPlan(map[a := None])], [b]))
  {
    var r: Assignment := map[0 := [a]];
    assert Placed(r) == {a} by { assert 0 in r && a in r[0]; }
    assert Elements([b]) == {b} && Elements([a]) == {a};
  }

  lemma OneDistributed<C>(arrange: Arrangement, score: Score, a: string, b: string, cfg: C)
    requires Sorts(score, arrange) && a != b
    ensures Distribution(arrange, score, map[b := cfg], map[0 := {a}], 1, None,
                         DistributeResult(map[0 := PodPlan(map[a := None])], [b]))
  {
    OldIsKept(arrange, score, a, b);
    OneReported(a, b, cfg);
    var current: Assignment := map[0 := [a]];
    assert OptionsFor(1, None, current) == Options(1, 0, current);
    assert map[b := cfg].Keys == {b};
    assert OutcomeVia(arrange, score, map[b := cfg].Keys, OptionsFor(1, None, current), current);
  }

  /** The builder records the old target and does not plan it; the pod is sent the old name
      without a configuration, and the new target, which is planned, stays unassigned. */
  lemma StaleTargetIsSent(arrange: Arrangement, score: Score, rel: Relationships)
    requires Sorts(score, arrange) && Collected({FLEET}, NO_RELATIONSHIPS, rel)
    ensures Records({FLEET}, CLUSTER, map[], RECORDED) && TargetsBuilt({FLEET}, rel, map[NEW := PLANNED])
    ensures OLD in RECORDED[0] && OLD !in map[NEW := PLANNED]
    ensures Distribution(arrange, score, map[NEW := PLANNED], RECORDED, 1, None,
                         DistributeResult(map[0 := PodPlan(map[OLD := None])], [NEW]))
  {
    FleetRecords();
    FleetPlans(rel);
    NamesDiffer();
    OneDistributed(arrange, score, OLD, NEW, PLANNED);
  }
}
