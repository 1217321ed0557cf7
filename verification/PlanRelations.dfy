/** What the pipelines say about each other's resources: collectRelationships in
    internal/gnmic/plan.go. */
module PlanRelations {
  import opened Ordering
  import opened Placement
  import opened PlacementTheorems
  import opened PodNames

  // ---------- inputs ----------

  /** `pods` is the Pod field of Status.ClusterStates, by cluster name. */
  datatype Target = Target(profile: string, pods: map<string, string>)
  datatype Profile = Profile(credentialsRef: string)
  /** A tunnel target policy names the profile of the targets it matches. */
  datatype TunnelPolicy = TunnelPolicy(profile: string)
  /** `parses` says whether the raw configuration can be unmarshalled. */
  datatype OutputSpec = OutputSpec(kind: string, parses: bool)
  datatype PluginSpec = PluginSpec(parses: bool)

  datatype PipelineData = PipelineData(
    targets: map<string, Target>,
    profiles: map<string, Profile>,
    subscriptions: set<string>,
    outputs: map<string, OutputSpec>,
    inputs: map<string, PluginSpec>,
    outputProcessors: map<string, PluginSpec>,
    inputProcessors: map<string, PluginSpec>,
    policies: map<string, TunnelPolicy>)

  // ---------- relations between names, as sets over the pipelines ----------

  type Relation = map<string, set<string>>
  type KeysOf = PipelineData -> set<string>

  ghost function AllKeys(ps: set<PipelineData>, keys: KeysOf): set<string> {
    set p, x | p in ps && x in keys(p) :: x
  }

  /** Everything some pipeline holds next to x. */
  ghost function Beside(ps: set<PipelineData>, keys: KeysOf, vals: KeysOf, x: string): set<string> {
    set p, y | p in ps && x in keys(p) && y in vals(p) :: y
  }

  function Related(rel: Relation, x: string): set<string> {
    if x in rel then rel[x] else {}
  }

  /** `rel'` is `rel` with `names` entered next to every one of `keys`. */
  ghost predicate Entered(keys: set<string>, names: set<string>, rel: Relation, rel': Relation) {
    && rel'.Keys == rel.Keys + keys
    && forall x :: x in rel' ==> rel'[x] == Related(rel, x) + if x in keys then names else {}
  }

  /** `rel` is `before` with the contribution of the pipelines ps. */
  ghost predicate Extended(ps: set<PipelineData>, keys: KeysOf, vals: KeysOf, before: Relation, rel: Relation) {
    && rel.Keys == before.Keys + AllKeys(ps, keys)
    && forall x :: x in rel ==> rel[x] == Related(before, x) + Beside(ps, keys, vals, x)
  }

  lemma BesideOneMore(ps: set<PipelineData>, p: PipelineData, keys: KeysOf, vals: KeysOf, x: string)
    ensures Beside(ps + {p}, keys, vals, x) == Beside(ps, keys, vals, x) + if x in keys(p) then vals(p) else {}
    ensures x !in AllKeys(ps, keys) ==> Beside(ps, keys, vals, x) == {}
  {
  }

  lemma AllKeysOneMore(ps: set<PipelineData>, p: PipelineData, keys: KeysOf)
    ensures AllKeys(ps + {p}, keys) == AllKeys(ps, keys) + keys(p)
  {
  }

  lemma RelatedTo(ps: set<PipelineData>, keys: KeysOf, vals: KeysOf, before: Relation, rel: Relation, x: string)
    requires Extended(ps, keys, vals, before, rel)
    ensures Related(rel, x) == Related(before, x) + Beside(ps, keys, vals, x)
  {
    if x !in rel {
      assert x !in AllKeys(ps, keys);
    }
  }

  lemma EntryByOne(ps: set<PipelineData>, p: PipelineData, keys: KeysOf, vals: KeysOf, before: Relation, rel: Relation, rel': Relation, x: string)
    requires Extended(ps, keys, vals, before, rel) && Entered(keys(p), vals(p), rel, rel') && x in rel'
    ensures rel'[x] == Related(before, x) + Beside(ps + {p}, keys, vals, x)
  {
    BesideOneMore(ps, p, keys, vals, x);
    RelatedTo(ps, keys, vals, before, rel, x);
    var now := if x in keys(p) then vals(p) else {};
    assert rel'[x] == (Related(before, x) + Beside(ps, keys, vals, x)) + now;
  }

  lemma ExtendedByOne(ps: set<PipelineData>, p: PipelineData, keys: KeysOf, vals: KeysOf, before: Relation, rel: Relation, rel': Relation)
    requires Extended(ps, keys, vals, before, rel)
    requires Entered(keys(p), vals(p), rel, rel')
    ensures Extended(ps + {p}, keys, vals, before, rel')
  {
    AllKeysOneMore(ps, p, keys);
    forall x | x in rel' ensures rel'[x] == Related(before, x) + Beside(ps + {p}, keys, vals, x) {
      EntryByOne(ps, p, keys, vals, before, rel, rel', x);
    }
  }

  /** The double loop that enters one pipeline's names into a relation. */
  method Relate(rel: Relation, keys: set<string>, names: set<string>) returns (rel': Relation)
    ensures Entered(keys, names, rel, rel')
  {
    rel' := rel;
    var order := Enumerate(keys);
    for k := 0 to |order|
      invariant rel'.Keys == rel.Keys + Elements(order[..k])
      invariant forall x :: x in rel' ==> rel'[x] == Related(rel, x) + if x in order[..k] then names else {}
    {
      var x := order[k];
      assert order[..k+1] == order[..k] + [x];
      if x !in rel' { rel' := rel'[x := {}]; }
      rel' := rel'[x := rel'[x] + names];
    }
    assert order[..|order|] == order;
  }

  // ---------- the recorded pods ----------

  function RecordedPod(cluster: string, t: Target): Option<int> {
    PodOrdinal(if cluster in t.pods then t.pods[cluster] else "")
  }

  /** Targets some pipeline in ps holds with pod i recorded for the cluster. */
  ghost function OwnedBy(ps: set<PipelineData>, cluster: string, i: int): set<string> {
    set p, t | p in ps && t in p.targets && RecordedPod(cluster, p.targets[t]) == Some(i) :: t
  }

  function Owners(current: map<int, set<string>>, i: int): set<string> {
    if i in current then current[i] else {}
  }

  /** `current` is `before` with everything the pipelines record under natural indexes. */
  ghost predicate Records(ps: set<PipelineData>, cluster: string, before: map<int, set<string>>, current: map<int, set<string>>) {
    && (forall i :: i in current ==> i in before || i >= 0)
    && (forall i :: i >= 0 ==> Owners(current, i) == Owners(before, i) + OwnedBy(ps, cluster, i))
  }

  ghost function OwnedAmong(names: seq<string>, p: PipelineData, cluster: string, i: int): set<string> {
    set t | t in names && t in p.targets && RecordedPod(cluster, p.targets[t]) == Some(i)
  }

  method RecordOne(cluster: string, target: Target, t: string, current: map<int, set<string>>) returns (current': map<int, set<string>>)
    ensures forall i :: i in current' ==> i in current || i >= 0
    ensures forall i :: i >= 0 ==> Owners(current', i) == Owners(current, i) + if RecordedPod(cluster, target) == Some(i) then {t} else {}
  {
    var podIdx := FindCurrentAssignment(if cluster in target.pods then target.pods[cluster] else "");
    current' := current;
    if podIdx.Some? && podIdx.value >= 0 {
      var i := podIdx.value;
      if i !in current' { current' := current'[i := {}]; }
      current' := current'[i := current'[i] + {t}];
    }
  }

  /** The recording step for the targets of one pipeline. */
  method RecordOwners(cluster: string, p: PipelineData, current: map<int, set<string>>) returns (current': map<int, set<string>>)
    ensures Records({p}, cluster, current, current')
  {
    current' := current;
    var order := Enumerate(p.targets.Keys);
    for k := 0 to |order|
      invariant forall i :: i in current' ==> i in current || i >= 0
      invariant forall i :: i >= 0 ==> Owners(current', i) == Owners(current, i) + OwnedAmong(order[..k], p, cluster, i)
    {
      OneMoreOwned(order, k, p, cluster);
      current' := RecordOne(cluster, p.targets[order[k]], order[k], current');
    }
    AllOwned(order, p, cluster);
  }

  lemma OneMoreOwned(order: seq<string>, k: nat, p: PipelineData, cluster: string)
    requires k < |order| && order[k] in p.targets
    ensures forall i :: OwnedAmong(order[..k+1], p, cluster, i) ==
              OwnedAmong(order[..k], p, cluster, i) + if RecordedPod(cluster, p.targets[order[k]]) == Some(i) then {order[k]} else {}
  {
    assert order[..k+1] == order[..k] + [order[k]];
  }

  lemma AllOwned(order: seq<string>, p: PipelineData, cluster: string)
    requires forall t :: t in order <==> t in p.targets
    ensures order[..|order|] == order && forall i :: OwnedBy({p}, cluster, i) == OwnedAmong(order, p, cluster, i)
  {
    forall i ensures OwnedBy({p}, cluster, i) == OwnedAmong(order, p, cluster, i) { }
  }

  lemma RecordsOneMore(ps: set<PipelineData>, p: PipelineData, cluster: string,
                       before: map<int, set<string>>, current: map<int, set<string>>, current': map<int, set<string>>)
    requires Records(ps, cluster, before, current) && Records({p}, cluster, current, current')
    ensures Records(ps + {p}, cluster, before, current')
  {
    forall i | i >= 0 ensures OwnedBy(ps + {p}, cluster, i) == OwnedBy(ps, cluster, i) + OwnedBy({p}, cluster, i) { }
  }

  // ---------- the relationships struct ----------

  function TargetNames(p: PipelineData): set<string> { p.targets.Keys }
  function SubscriptionNames(p: PipelineData): set<string> { p.subscriptions }
  function OutputNames(p: PipelineData): set<string> { p.outputs.Keys }
  function InputNames(p: PipelineData): set<string> { p.inputs.Keys }
  function OutputProcessorNames(p: PipelineData): set<string> { p.outputProcessors.Keys }
  function InputProcessorNames(p: PipelineData): set<string> { p.inputProcessors.Keys }

  datatype Relationships = Relationships(
    subscriptionOutputs: Relation,
    targetSubscriptions: Relation,
    inputOutputs: Relation,
    outputProcessors: map<string, seq<string>>,
    inputProcessors: map<string, seq<string>>)

  const NO_RELATIONSHIPS := Relationships(map[], map[], map[], map[], map[])

  ghost function AsSets(m: map<string, seq<string>>): Relation {
    map x | x in m :: Elements(m[x])
  }

  ghost predicate Collected(ps: set<PipelineData>, before: Relationships, after: Relationships) {
    && Extended(ps, SubscriptionNames, OutputNames, before.subscriptionOutputs, after.subscriptionOutputs)
    && Extended(ps, TargetNames, SubscriptionNames, before.targetSubscriptions, after.targetSubscriptions)
    && Extended(ps, InputNames, OutputNames, before.inputOutputs, after.inputOutputs)
    && Extended(ps, OutputNames, OutputProcessorNames, AsSets(before.outputProcessors), AsSets(after.outputProcessors))
    && Extended(ps, InputNames, InputProcessorNames, AsSets(before.inputProcessors), AsSets(after.inputProcessors))
  }

  /** Every list under one of the keys has the names behind what it had, in their order. */
  ghost predicate Appended(keys: set<string>, names: seq<string>, rel: map<string, seq<string>>, rel': map<string, seq<string>>) {
    && rel'.Keys == rel.Keys + keys
    && forall x :: x in rel' ==> rel'[x] == (if x in rel then rel[x] else []) + (if x in keys then names else [])
  }

  /** The list under x, empty when there is none. */
  function Listing(m: map<string, seq<string>>, x: string): seq<string> {
    if x in m then m[x] else []
  }

  lemma ListingElements(m: map<string, seq<string>>, x: string)
    ensures Elements(Listing(m, x)) == Related(AsSets(m), x)
  {
  }

  lemma NextName(names: seq<string>, k: nat)
    requires k < |names| && Distinct(names)
    ensures names[k] !in Elements(names[..k]) && Elements(names[..k + 1]) == Elements(names[..k]) + {names[k]}
  {
    assert names[..k + 1] == names[..k] + [names[k]];
  }

  lemma AppendedOneMore(keys: set<string>, x: string, names: seq<string>, rel: map<string, seq<string>>, rel': map<string, seq<string>>)
    requires Appended(keys, names, rel, rel') && x !in keys
    ensures Appended(keys + {x}, names, rel, rel'[x := Listing(rel', x) + names])
  {
  }

  /** The double loop that appends one pipeline's processor names to ordered lists. */
  method AppendAll(rel: map<string, seq<string>>, keys: set<string>, names: seq<string>) returns (rel': map<string, seq<string>>)
    ensures Appended(keys, names, rel, rel')
    ensures Entered(keys, Elements(names), AsSets(rel), AsSets(rel'))
  {
    rel' := rel;
    var order := Enumerate(keys);
    for k := 0 to |order|
      invariant Appended(Elements(order[..k]), names, rel, rel')
    {
      var x := order[k];
      NextName(order, k);
      AppendedOneMore(Elements(order[..k]), x, names, rel, rel');
      if x !in rel' { rel' := rel'[x := []]; }
      rel' := rel'[x := rel'[x] + names];
    }
    assert order[..|order|] == order && Elements(order) == keys;
    AppendedEntered(keys, names, rel, rel');
  }

  lemma AppendedEntered(keys: set<string>, names: seq<string>, rel: map<string, seq<string>>, rel': map<string, seq<string>>)
    requires Appended(keys, names, rel, rel')
    ensures Entered(keys, Elements(names), AsSets(rel), AsSets(rel'))
  {
    forall x | x in rel' ensures AsSets(rel')[x] == Related(AsSets(rel), x) + if x in keys then Elements(names) else {} {
      assert Elements(rel'[x]) == Elements(if x in rel then rel[x] else []) + Elements(if x in keys then names else []);
    }
  }

  /** How often y is in the list under x. */
  ghost function Occurs(m: map<string, seq<string>>, x: string, y: string): nat {
    multiset(Listing(m, x))[y]
  }

  /** Each of the names has been added once to the list of each of the keys. */
  ghost predicate EachOnce(keys: set<string>, names: set<string>, rel: map<string, seq<string>>, rel': map<string, seq<string>>) {
    forall x, y :: Occurs(rel', x, y) == Occurs(rel, x, y) + if x in keys && y in names then 1 else 0
  }

  lemma AppendedEachOnce(keys: set<string>, names: seq<string>, rel: map<string, seq<string>>, rel': map<string, seq<string>>)
    requires Appended(keys, names, rel, rel') && Distinct(names)
    ensures EachOnce(keys, Elements(names), rel, rel')
  {
    DistinctCounts(names);
    forall x, y ensures Occurs(rel', x, y) == Occurs(rel, x, y) + if x in keys && y in Elements(names) then 1 else 0 {
      assert y in Elements(names) <==> y in names;
      assert y in names <==> y in multiset(names);
      assert Listing(rel', x) == Listing(rel, x) + if x in keys then names else [];
    }
  }

  /** The pipelines, by name, that hold x and y beside it. */
  ghost function Holders(pipelines: map<string, PipelineData>, among: set<string>, keys: KeysOf, vals: KeysOf, x: string, y: string): set<string> {
    set n | n in among && n in pipelines && x in keys(pipelines[n]) && y in vals(pipelines[n])
  }

  /** Each list has grown by one occurrence of y for each of these pipelines that holds both. */
  ghost predicate CountedOver(pipelines: map<string, PipelineData>, among: set<string>, keys: KeysOf, vals: KeysOf,
                              before: map<string, seq<string>>, after: map<string, seq<string>>)
  {
    forall x, y :: Occurs(after, x, y) == Occurs(before, x, y) + |Holders(pipelines, among, keys, vals, x, y)|
  }

  lemma HoldersOneMore(pipelines: map<string, PipelineData>, among: set<string>, n: string, keys: KeysOf, vals: KeysOf, x: string, y: string)
    requires n in pipelines && n !in among
    ensures |Holders(pipelines, among + {n}, keys, vals, x, y)| ==
            |Holders(pipelines, among, keys, vals, x, y)| + if x in keys(pipelines[n]) && y in vals(pipelines[n]) then 1 else 0
  {
    var more, less := Holders(pipelines, among + {n}, keys, vals, x, y), Holders(pipelines, among, keys, vals, x, y);
    if x in keys(pipelines[n]) && y in vals(pipelines[n]) {
      assert more == less + {n} && n !in less;
    } else {
      assert more == less;
    }
  }

  lemma CountedOneMore(pipelines: map<string, PipelineData>, among: set<string>, n: string, keys: KeysOf, vals: KeysOf,
                       before: map<string, seq<string>>, rel: map<string, seq<string>>, rel': map<string, seq<string>>)
    requires n in pipelines && n !in among
    requires CountedOver(pipelines, among, keys, vals, before, rel) && EachOnce(keys(pipelines[n]), vals(pipelines[n]), rel, rel')
    ensures CountedOver(pipelines, among + {n}, keys, vals, before, rel')
  {
    forall x, y ensures Occurs(rel', x, y) == Occurs(before, x, y) + |Holders(pipelines, among + {n}, keys, vals, x, y)| {
      HoldersOneMore(pipelines, among, n, keys, vals, x, y);
    }
  }

  lemma CountedNone(pipelines: map<string, PipelineData>, keys: KeysOf, vals: KeysOf, rel: map<string, seq<string>>)
    ensures CountedOver(pipelines, {}, keys, vals, rel, rel)
  {
    forall x, y ensures Holders(pipelines, {}, keys, vals, x, y) == {} { }
  }

  /** Lists the processors of a pipeline, in some order, and appends them. */
  method AppendProcessors(rel: map<string, seq<string>>, keys: set<string>, processors: set<string>) returns (rel': map<string, seq<string>>)
    ensures Entered(keys, processors, AsSets(rel), AsSets(rel')) && EachOnce(keys, processors, rel, rel')
  {
    var names := Enumerate(processors);
    rel' := AppendAll(rel, keys, names);
    AppendedEachOnce(keys, names, rel, rel');
    assert Elements(names) == processors;
  }

  /** One pass of the loop over the pipelines. */
  method CollectOne(rel: Relationships, p: PipelineData) returns (rel': Relationships)
    ensures Entered(SubscriptionNames(p), OutputNames(p), rel.subscriptionOutputs, rel'.subscriptionOutputs)
    ensures Entered(TargetNames(p), SubscriptionNames(p), rel.targetSubscriptions, rel'.targetSubscriptions)
    ensures Entered(InputNames(p), OutputNames(p), rel.inputOutputs, rel'.inputOutputs)
    ensures Entered(OutputNames(p), OutputProcessorNames(p), AsSets(rel.outputProcessors), AsSets(rel'.outputProcessors))
    ensures Entered(InputNames(p), InputProcessorNames(p), AsSets(rel.inputProcessors), AsSets(rel'.inputProcessors))
    ensures EachOnce(OutputNames(p), OutputProcessorNames(p), rel.outputProcessors, rel'.outputProcessors)
    ensures EachOnce(InputNames(p), InputProcessorNames(p), rel.inputProcessors, rel'.inputProcessors)
  {
    var subscriptionOutputs := Relate(rel.subscriptionOutputs, p.subscriptions, p.outputs.Keys);
    var targetSubscriptions := Relate(rel.targetSubscriptions, p.targets.Keys, p.subscriptions);
    var inputOutputs := Relate(rel.inputOutputs, p.inputs.Keys, p.outputs.Keys);
    var outputProcessors := AppendProcessors(rel.outputProcessors, p.outputs.Keys, p.outputProcessors.Keys);
    var inputProcessors := AppendProcessors(rel.inputProcessors, p.inputs.Keys, p.inputProcessors.Keys);
    rel' := Relationships(subscriptionOutputs, targetSubscriptions, inputOutputs, outputProcessors, inputProcessors);
  }

  lemma CollectedOneMore(ps: set<PipelineData>, p: PipelineData, before: Relationships, rel: Relationships, rel': Relationships)
    requires Collected(ps, before, rel)
    requires Entered(SubscriptionNames(p), OutputNames(p), rel.subscriptionOutputs, rel'.subscriptionOutputs)
    requires Entered(TargetNames(p), SubscriptionNames(p), rel.targetSubscriptions, rel'.targetSubscriptions)
    requires Entered(InputNames(p), OutputNames(p), rel.inputOutputs, rel'.inputOutputs)
    requires Entered(OutputNames(p), OutputProcessorNames(p), AsSets(rel.outputProcessors), AsSets(rel'.outputProcessors))
    requires Entered(InputNames(p), InputProcessorNames(p), AsSets(rel.inputProcessors), AsSets(rel'.inputProcessors))
    ensures Collected(ps + {p}, before, rel')
  {
    ExtendedByOne(ps, p, SubscriptionNames, OutputNames, before.subscriptionOutputs, rel.subscriptionOutputs, rel'.subscriptionOutputs);
    ExtendedByOne(ps, p, TargetNames, SubscriptionNames, before.targetSubscriptions, rel.targetSubscriptions, rel'.targetSubscriptions);
    ExtendedByOne(ps, p, InputNames, OutputNames, before.inputOutputs, rel.inputOutputs, rel'.inputOutputs);
    ExtendedByOne(ps, p, OutputNames, OutputProcessorNames, AsSets(before.outputProcessors), AsSets(rel.outputProcessors), AsSets(rel'.outputProcessors));
    ExtendedByOne(ps, p, InputNames, InputProcessorNames, AsSets(before.inputProcessors), AsSets(rel.inputProcessors), AsSets(rel'.inputProcessors));
  }

  /** Every processor list has grown by one occurrence for each of these pipelines that
      holds the resource and the processor. */
  ghost predicate ProcessorsCounted(pipelines: map<string, PipelineData>, among: set<string>, before: Relationships, after: Relationships) {
    && CountedOver(pipelines, among, OutputNames, OutputProcessorNames, before.outputProcessors, after.outputProcessors)
    && CountedOver(pipelines, among, InputNames, InputProcessorNames, before.inputProcessors, after.inputProcessors)
  }

  lemma ProcessorsCountedNone(pipelines: map<string, PipelineData>, rel: Relationships)
    ensures ProcessorsCounted(pipelines, {}, rel, rel)
  {
    CountedNone(pipelines, OutputNames, OutputProcessorNames, rel.outputProcessors);
    CountedNone(pipelines, InputNames, InputProcessorNames, rel.inputProcessors);
  }

  lemma ProcessorsCountedOneMore(pipelines: map<string, PipelineData>, among: set<string>, n: string,
                                 before: Relationships, rel: Relationships, rel': Relationships)
    requires n in pipelines && n !in among && ProcessorsCounted(pipelines, among, before, rel)
    requires EachOnce(OutputNames(pipelines[n]), OutputProcessorNames(pipelines[n]), rel.outputProcessors, rel'.outputProcessors)
    requires EachOnce(InputNames(pipelines[n]), InputProcessorNames(pipelines[n]), rel.inputProcessors, rel'.inputProcessors)
    ensures ProcessorsCounted(pipelines, among + {n}, before, rel')
  {
    CountedOneMore(pipelines, among, n, OutputNames, OutputProcessorNames, before.outputProcessors, rel.outputProcessors, rel'.outputProcessors);
    CountedOneMore(pipelines, among, n, InputNames, InputProcessorNames, before.inputProcessors, rel.inputProcessors, rel'.inputProcessors);
  }

  lemma CollectedNone(rel: Relationships)
    ensures Collected({}, rel, rel)
  {
  }
}
