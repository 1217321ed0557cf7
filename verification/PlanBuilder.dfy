/** Merging pipelines into one plan: internal/gnmic/plan.go. */
module PlanBuilding {
  import opened Ordering
  import opened Placement
  import opened PlacementTheorems
  import opened Ports
  import opened PlanRelations
  import opened PlanPorts

  // ---------- the plan ----------

  datatype TargetConfig = TargetConfig(target: Target, profile: Profile, subscriptions: seq<string>)
  datatype SubscriptionConfig = SubscriptionConfig(outputs: seq<string>)
  datatype OutputConfig = OutputConfig(spec: OutputSpec, processors: seq<string>, listen: Option<int>)
  datatype InputConfig = InputConfig(spec: PluginSpec, outputs: seq<string>, processors: seq<string>)

  datatype TunnelMatch = TunnelMatch(policy: TunnelPolicy, profile: Profile)

  class ApplyPlan {
    var targets: map<string, TargetConfig>
    var current: map<int, set<string>>
    var subscriptions: map<string, SubscriptionConfig>
    var outputs: map<string, OutputConfig>
    var inputs: map<string, InputConfig>
    var processors: map<string, PluginSpec>
    var tunnelMatches: map<string, TunnelMatch>
    var prometheusPorts: map<string, int>

    constructor ()
      ensures targets == map[] && current == map[] && subscriptions == map[] && outputs == map[]
      ensures inputs == map[] && processors == map[] && tunnelMatches == map[] && prometheusPorts == map[]
    {
      targets, current, subscriptions, outputs := map[], map[], map[], map[];
      inputs, processors, tunnelMatches, prometheusPorts := map[], map[], map[], map[];
    }
  }

  // ---------- what each section of the plan must be ----------

  function Namespace(nn: string): string {
    if '/' in nn then BeforeSlash(nn) else ""
  }

  function BeforeSlash(nn: string): string {
    if nn == "" || nn[0] == '/' then "" else [nn[0]] + BeforeSlash(nn[1..])
  }

  function ProfileKey(t: string, target: Target): string {
    Namespace(t) + "/" + target.profile
  }

  predicate HasProfile(p: PipelineData, t: string) {
    t in p.targets && ProfileKey(t, p.targets[t]) in p.profiles
  }

  ghost function PlannedTargets(ps: set<PipelineData>): set<string> {
    set p, t | p in ps && t in p.targets && HasProfile(p, t) :: t
  }

  ghost predicate Lists(s: seq<string>, names: set<string>) {
    Distinct(s) && Elements(s) == names
  }

  ghost predicate TargetFrom(p: PipelineData, rel: Relationships, t: string, cfg: TargetConfig) {
    && HasProfile(p, t) && cfg.target == p.targets[t] && cfg.profile == p.profiles[ProfileKey(t, p.targets[t])]
    && Lists(cfg.subscriptions, Related(rel.targetSubscriptions, t))
  }

  ghost predicate TargetsBuilt(ps: set<PipelineData>, rel: Relationships, m: map<string, TargetConfig>) {
    && m.Keys == PlannedTargets(ps)
    && forall t :: t in m ==> exists p :: p in ps && TargetFrom(p, rel, t, m[t])
  }

  ghost predicate SubscriptionFrom(rel: Relationships, s: string, cfg: SubscriptionConfig) {
    Lists(cfg.outputs, Related(rel.subscriptionOutputs, s))
  }

  ghost predicate SubscriptionsBuilt(ps: set<PipelineData>, rel: Relationships, m: map<string, SubscriptionConfig>) {
    && m.Keys == AllKeys(ps, SubscriptionNames)
    && forall s :: s in m ==> SubscriptionFrom(rel, s, m[s])
  }

  ghost predicate OutputFrom(p: PipelineData, rel: Relationships, o: string, cfg: OutputConfig) {
    && o in p.outputs && cfg.spec == p.outputs[o]
    && cfg.processors == Listing(rel.outputProcessors, o)
  }

  ghost predicate OutputsBuilt(ps: set<PipelineData>, rel: Relationships, m: map<string, OutputConfig>) {
    && m.Keys == AllKeys(ps, OutputNames)
    && forall o :: o in m ==> exists p :: p in ps && OutputFrom(p, rel, o, m[o])
  }

  ghost predicate InputFrom(p: PipelineData, rel: Relationships, i: string, cfg: InputConfig) {
    && i in p.inputs && cfg.spec == p.inputs[i]
    && Lists(cfg.outputs, Related(rel.inputOutputs, i))
    && cfg.processors == Listing(rel.inputProcessors, i)
  }

  ghost predicate InputsBuilt(ps: set<PipelineData>, rel: Relationships, m: map<string, InputConfig>) {
    && m.Keys == AllKeys(ps, InputNames)
    && forall i :: i in m ==> exists p :: p in ps && InputFrom(p, rel, i, m[i])
  }

  ghost predicate ProcessorFrom(p: PipelineData, x: string, cfg: PluginSpec) {
    (x in p.outputProcessors && cfg == p.outputProcessors[x]) || (x in p.inputProcessors && cfg == p.inputProcessors[x])
  }

  ghost predicate ProcessorsBuilt(ps: set<PipelineData>, m: map<string, PluginSpec>) {
    && m.Keys == AllKeys(ps, OutputProcessorNames) + AllKeys(ps, InputProcessorNames)
    && forall x :: x in m ==> exists p :: p in ps && ProcessorFrom(p, x, m[x])
  }

  function PolicyKey(x: string, policy: TunnelPolicy): string {
    Namespace(x) + "/" + policy.profile
  }

  predicate HasPolicyProfile(p: PipelineData, x: string) {
    x in p.policies && PolicyKey(x, p.policies[x]) in p.profiles
  }

  ghost function MatchedPolicies(ps: set<PipelineData>): set<string> {
    set p, x | p in ps && x in p.policies && HasPolicyProfile(p, x) :: x
  }

  ghost predicate MatchFrom(p: PipelineData, x: string, cfg: TunnelMatch) {
    HasPolicyProfile(p, x) && cfg.policy == p.policies[x] && cfg.profile == p.profiles[PolicyKey(x, p.policies[x])]
  }

  ghost predicate MatchesBuilt(ps: set<PipelineData>, m: map<string, TunnelMatch>) {
    && m.Keys == MatchedPolicies(ps)
    && forall x :: x in m ==> exists p :: p in ps && MatchFrom(p, x, m[x])
  }

  /** Every reported port is the port its output listens on, and no other output listens. */
  ghost predicate PortsListen(ports: map<string, int>, outputs: map<string, OutputConfig>) {
    && (forall o :: o in ports ==>
          o in outputs && outputs[o].listen == Some(ports[o]) && DEFAULT_PORT <= ports[o] < DEFAULT_PORT + POOL_SIZE)
    && (forall o :: o in outputs && o !in ports ==> outputs[o].listen == None)
  }

  /** Within one pipeline no two Prometheus outputs share a port. */
  ghost predicate PortsApart(p: PipelineData, ports: map<string, int>) {
    && PrometheusOutputs(p) <= ports.Keys
    && forall x, y :: x in PrometheusOutputs(p) && y in PrometheusOutputs(p) && x != y ==> ports[x] != ports[y]
  }

  /** The sections filled in pipeline by pipeline. */
  datatype Sections = Sections(
    targets: map<string, TargetConfig>,
    subscriptions: map<string, SubscriptionConfig>,
    outputs: map<string, OutputConfig>,
    inputs: map<string, InputConfig>,
    processors: map<string, PluginSpec>,
    tunnelMatches: map<string, TunnelMatch>,
    prometheusPorts: map<string, int>)

  const NO_SECTIONS := Sections(map[], map[], map[], map[], map[], map[], map[])

  ghost function SectionsOf(plan: ApplyPlan): Sections
    reads plan
  {
    Sections(plan.targets, plan.subscriptions, plan.outputs, plan.inputs, plan.processors, plan.tunnelMatches, plan.prometheusPorts)
  }

  ghost predicate SectionsBuilt(ps: set<PipelineData>, rel: Relationships, s: Sections) {
    && TargetsBuilt(ps, rel, s.targets)
    && SubscriptionsBuilt(ps, rel, s.subscriptions)
    && OutputsBuilt(ps, rel, s.outputs)
    && InputsBuilt(ps, rel, s.inputs)
    && ProcessorsBuilt(ps, s.processors)
    && MatchesBuilt(ps, s.tunnelMatches)
    && s.prometheusPorts.Keys == AllKeys(ps, PrometheusOutputs)
  }

  lemma NothingBuilt(rel: Relationships)
    ensures SectionsBuilt({}, rel, NO_SECTIONS)
  {
  }

  /** What one pipeline adds to the sections. */
  ghost predicate SectionsAdded(p: PipelineData, rel: Relationships, s: Sections, s': Sections) {
    && TargetsAdded(p, rel, s.targets, s'.targets)
    && SubscriptionsAdded(p, rel, s.subscriptions, s'.subscriptions)
    && (exists outputs :: OutputsAdded(p, rel, s.outputs, outputs) && SameButListen(outputs, s'.outputs))
    && InputsAdded(p, rel, s.inputs, s'.inputs)
    && ProcessorsAdded(p, s.processors, s'.processors)
    && MatchesAdded(p, s.tunnelMatches, s'.tunnelMatches)
    && s'.prometheusPorts.Keys == s.prometheusPorts.Keys + PrometheusOutputs(p)
  }

  /** The sections filled before ports are assigned. */
  ghost predicate ConfigsAdded(p: PipelineData, rel: Relationships, s: Sections, s': Sections) {
    && TargetsAdded(p, rel, s.targets, s'.targets)
    && SubscriptionsAdded(p, rel, s.subscriptions, s'.subscriptions)
    && OutputsAdded(p, rel, s.outputs, s'.outputs)
    && InputsAdded(p, rel, s.inputs, s'.inputs)
    && ProcessorsAdded(p, s.processors, s'.processors)
    && MatchesAdded(p, s.tunnelMatches, s'.tunnelMatches)
  }

  lemma ConfigsKeepListening(p: PipelineData, rel: Relationships, s: Sections, s1: Sections)
    requires ConfigsAdded(p, rel, s, s1) && s1.prometheusPorts == s.prometheusPorts && PortsListen(s.prometheusPorts, s.outputs)
    ensures PortsListen(s1.prometheusPorts, s1.outputs) && p.outputs.Keys <= s1.outputs.Keys
  {
    MoreOutputsListen(p, rel, s.prometheusPorts, s.outputs, s1.outputs);
  }

  lemma AllSectionsAdded(p: PipelineData, rel: Relationships, s: Sections, s1: Sections, s': Sections)
    requires ConfigsAdded(p, rel, s, s1)
    requires s' == s1.(outputs := s'.outputs, prometheusPorts := s'.prometheusPorts) && SameButListen(s1.outputs, s'.outputs)
    requires s'.prometheusPorts.Keys == s.prometheusPorts.Keys + PrometheusOutputs(p)
    ensures SectionsAdded(p, rel, s, s')
  {
  }

  lemma SectionsGrow(ps: set<PipelineData>, p: PipelineData, rel: Relationships, s: Sections, s': Sections)
    requires SectionsBuilt(ps, rel, s) && SectionsAdded(p, rel, s, s')
    ensures SectionsBuilt(ps + {p}, rel, s')
  {
    TargetsGrow(ps, p, rel, s.targets, s'.targets);
    SubscriptionsGrow(ps, p, rel, s.subscriptions, s'.subscriptions);
    var outputs :| OutputsAdded(p, rel, s.outputs, outputs) && SameButListen(outputs, s'.outputs);
    OutputsGrow(ps, p, rel, s.outputs, outputs);
    ListenOnly(ps + {p}, rel, outputs, s'.outputs);
    InputsGrow(ps, p, rel, s.inputs, s'.inputs);
    ProcessorsGrow(ps, p, s.processors, s'.processors);
    MatchesGrow(ps, p, s.tunnelMatches, s'.tunnelMatches);
    AllKeysOneMore(ps, p, PrometheusOutputs);
  }

  /** An output processor takes precedence over an input processor of the same name. */
  ghost predicate ProcessorsAdded(p: PipelineData, m: map<string, PluginSpec>, m': map<string, PluginSpec>) {
    && Retains(m, m') && m'.Keys == m.Keys + p.outputProcessors.Keys + p.inputProcessors.Keys
    && forall x :: x in m' && x !in m ==>
         m'[x] == if x in p.outputProcessors then p.outputProcessors[x] else p.inputProcessors[x]
  }

  lemma ProcessorOrigin(ps: set<PipelineData>, p: PipelineData, m: map<string, PluginSpec>, m': map<string, PluginSpec>, x: string)
    requires ProcessorsBuilt(ps, m) && ProcessorsAdded(p, m, m') && x in m'
    ensures exists q :: q in ps + {p} && ProcessorFrom(q, x, m'[x])
  {
    if x in m {
      var q :| q in ps && ProcessorFrom(q, x, m[x]);
      assert q in ps + {p};
    } else {
      assert p in ps + {p} && ProcessorFrom(p, x, m'[x]);
    }
  }

  lemma ProcessorKeysGrow(ps: set<PipelineData>, p: PipelineData, m: map<string, PluginSpec>, m': map<string, PluginSpec>)
    requires ProcessorsBuilt(ps, m) && ProcessorsAdded(p, m, m')
    ensures m'.Keys == AllKeys(ps + {p}, OutputProcessorNames) + AllKeys(ps + {p}, InputProcessorNames)
  {
    AllKeysOneMore(ps, p, OutputProcessorNames);
    AllKeysOneMore(ps, p, InputProcessorNames);
  }

  lemma ProcessorsGrow(ps: set<PipelineData>, p: PipelineData, m: map<string, PluginSpec>, m': map<string, PluginSpec>)
    requires ProcessorsBuilt(ps, m) && ProcessorsAdded(p, m, m')
    ensures ProcessorsBuilt(ps + {p}, m')
  {
    ProcessorKeysGrow(ps, p, m, m');
    forall x | x in m' ensures exists q :: q in ps + {p} && ProcessorFrom(q, x, m'[x]) {
      ProcessorOrigin(ps, p, m, m', x);
    }
  }

  ghost predicate MatchesAdded(p: PipelineData, m: map<string, TunnelMatch>, m': map<string, TunnelMatch>) {
    && Retains(m, m') && m'.Keys == m.Keys + (set x | x in p.policies && HasPolicyProfile(p, x))
    && forall x :: x in m' && x !in m ==> MatchFrom(p, x, m'[x])
  }

  lemma MatchedOneMore(ps: set<PipelineData>, p: PipelineData)
    ensures MatchedPolicies(ps + {p}) == MatchedPolicies(ps) + set x | x in p.policies && HasPolicyProfile(p, x)
  {
  }

  lemma MatchesGrow(ps: set<PipelineData>, p: PipelineData, m: map<string, TunnelMatch>, m': map<string, TunnelMatch>)
    requires MatchesBuilt(ps, m) && MatchesAdded(p, m, m')
    ensures MatchesBuilt(ps + {p}, m')
  {
    MatchedOneMore(ps, p);
    forall x | x in m' ensures exists q :: q in ps + {p} && MatchFrom(q, x, m'[x]) {
      if x in m {
        var q :| q in ps && MatchFrom(q, x, m[x]);
        assert q in ps + {p} && MatchFrom(q, x, m'[x]);
      } else {
        assert p in ps + {p} && MatchFrom(p, x, m'[x]);
      }
    }
  }

  /** The plan a successful build returns for the pipelines ps. */
  ghost predicate Built(ps: set<PipelineData>, cluster: string, rel: Relationships, plan: ApplyPlan)
    reads plan
  {
    && Records(ps, cluster, map[], plan.current)
    && SectionsBuilt(ps, rel, SectionsOf(plan))
    && PortsListen(plan.prometheusPorts, plan.outputs)
  }

  ghost predicate Retains<C>(before: map<string, C>, after: map<string, C>) {
    forall x :: x in before ==> x in after && after[x] == before[x]
  }

  lemma PlannedOneMore(ps: set<PipelineData>, p: PipelineData)
    ensures PlannedTargets(ps + {p}) == PlannedTargets(ps) + set t | t in p.targets && HasProfile(p, t)
  {
  }

  ghost predicate TargetsAdded(p: PipelineData, rel: Relationships, m: map<string, TargetConfig>, m': map<string, TargetConfig>) {
    && Retains(m, m') && m'.Keys == m.Keys + (set t | t in p.targets && HasProfile(p, t))
    && forall t :: t in m' && t !in m ==> TargetFrom(p, rel, t, m'[t])
  }

  ghost predicate SubscriptionsAdded(p: PipelineData, rel: Relationships, m: map<string, SubscriptionConfig>, m': map<string, SubscriptionConfig>) {
    && Retains(m, m') && m'.Keys == m.Keys + p.subscriptions
    && forall s :: s in m' && s !in m ==> SubscriptionFrom(rel, s, m'[s])
  }

  ghost predicate OutputsAdded(p: PipelineData, rel: Relationships, m: map<string, OutputConfig>, m': map<string, OutputConfig>) {
    && Retains(m, m') && m'.Keys == m.Keys + p.outputs.Keys
    && forall o :: o in m' && o !in m ==> OutputFrom(p, rel, o, m'[o]) && m'[o].listen == None
  }

  ghost predicate InputsAdded(p: PipelineData, rel: Relationships, m: map<string, InputConfig>, m': map<string, InputConfig>) {
    && Retains(m, m') && m'.Keys == m.Keys + p.inputs.Keys
    && forall i :: i in m' && i !in m ==> InputFrom(p, rel, i, m'[i])
  }

  lemma SubscriptionsGrow(ps: set<PipelineData>, p: PipelineData, rel: Relationships, m: map<string, SubscriptionConfig>, m': map<string, SubscriptionConfig>)
    requires SubscriptionsBuilt(ps, rel, m) && SubscriptionsAdded(p, rel, m, m')
    ensures SubscriptionsBuilt(ps + {p}, rel, m')
  {
    AllKeysOneMore(ps, p, SubscriptionNames);
  }

  lemma TargetsGrow(ps: set<PipelineData>, p: PipelineData, rel: Relationships, m: map<string, TargetConfig>, m': map<string, TargetConfig>)
    requires TargetsBuilt(ps, rel, m) && TargetsAdded(p, rel, m, m')
    ensures TargetsBuilt(ps + {p}, rel, m')
  {
    PlannedOneMore(ps, p);
    forall t | t in m' ensures exists q :: q in ps + {p} && TargetFrom(q, rel, t, m'[t]) {
      if t in m {
        var q :| q in ps && TargetFrom(q, rel, t, m[t]);
        assert q in ps + {p} && TargetFrom(q, rel, t, m'[t]);
      } else {
        assert p in ps + {p} && TargetFrom(p, rel, t, m'[t]);
      }
    }
  }

  lemma OutputsGrow(ps: set<PipelineData>, p: PipelineData, rel: Relationships, m: map<string, OutputConfig>, m': map<string, OutputConfig>)
    requires OutputsBuilt(ps, rel, m) && OutputsAdded(p, rel, m, m')
    ensures OutputsBuilt(ps + {p}, rel, m')
  {
    AllKeysOneMore(ps, p, OutputNames);
    forall o | o in m' ensures exists q :: q in ps + {p} && OutputFrom(q, rel, o, m'[o]) {
      if o in m {
        var q :| q in ps && OutputFrom(q, rel, o, m[o]);
        assert q in ps + {p} && OutputFrom(q, rel, o, m'[o]);
      } else {
        assert p in ps + {p} && OutputFrom(p, rel, o, m'[o]);
      }
    }
  }

  lemma InputsGrow(ps: set<PipelineData>, p: PipelineData, rel: Relationships, m: map<string, InputConfig>, m': map<string, InputConfig>)
    requires InputsBuilt(ps, rel, m) && InputsAdded(p, rel, m, m')
    ensures InputsBuilt(ps + {p}, rel, m')
  {
    AllKeysOneMore(ps, p, InputNames);
    forall i | i in m' ensures exists q :: q in ps + {p} && InputFrom(q, rel, i, m'[i]) {
      if i in m {
        var q :| q in ps && InputFrom(q, rel, i, m[i]);
        assert q in ps + {p} && InputFrom(q, rel, i, m'[i]);
      } else {
        assert p in ps + {p} && InputFrom(p, rel, i, m'[i]);
      }
    }
  }

  ghost predicate SameButListen(m: map<string, OutputConfig>, m': map<string, OutputConfig>) {
    && m'.Keys == m.Keys
    && forall o :: o in m ==> m'[o].spec == m[o].spec && m'[o].processors == m[o].processors
  }

  /** Setting listen addresses changes nothing else about the outputs. */
  lemma ListenOnly(ps: set<PipelineData>, rel: Relationships, m: map<string, OutputConfig>, m': map<string, OutputConfig>)
    requires OutputsBuilt(ps, rel, m) && SameButListen(m, m')
    ensures OutputsBuilt(ps, rel, m')
  {
    forall o | o in m' ensures exists q :: q in ps && OutputFrom(q, rel, o, m'[o]) {
      var q :| q in ps && OutputFrom(q, rel, o, m[o]);
      assert OutputFrom(q, rel, o, m'[o]);
    }
  }

  function SetListen(outputs: map<string, OutputConfig>, ports: map<string, int>): map<string, OutputConfig> {
    map o | o in outputs :: if o in ports then outputs[o].(listen := Some(ports[o])) else outputs[o]
  }

  lemma NewPortsListen(outputs: map<string, OutputConfig>, before: map<string, int>, ports: map<string, int>)
    requires PortsListen(before, outputs) && ports.Keys <= outputs.Keys
    requires forall o :: o in ports ==> DEFAULT_PORT <= ports[o] < DEFAULT_PORT + POOL_SIZE
    ensures PortsListen(before + ports, SetListen(outputs, ports))
    ensures SameButListen(outputs, SetListen(outputs, ports))
  {
  }

  lemma MoreOutputsListen(p: PipelineData, rel: Relationships, ports: map<string, int>, before: map<string, OutputConfig>, after: map<string, OutputConfig>)
    requires PortsListen(ports, before) && OutputsAdded(p, rel, before, after)
    ensures PortsListen(ports, after) && p.outputs.Keys <= after.Keys
  {
  }

  lemma NewPortsApart(p: PipelineData, before: map<string, int>, ports: map<string, int>)
    requires ports.Keys == PrometheusOutputs(p)
    requires forall x, y :: x in ports && y in ports && x != y ==> ports[x] != ports[y]
    ensures PortsApart(p, before + ports)
  {
  }

  // ---------- when building succeeds ----------

  type Fetcher = (string, string) -> bool

  predicate CanUse(canFetch: Fetcher, ns: string, profile: Profile) {
    profile.credentialsRef == "" || canFetch(ns, profile.credentialsRef)
  }

  predicate TargetReady(canFetch: Fetcher, p: PipelineData, t: string)
    requires t in p.targets
  {
    HasProfile(p, t) ==> CanUse(canFetch, Namespace(t), p.profiles[ProfileKey(t, p.targets[t])])
  }

  predicate PolicyReady(canFetch: Fetcher, p: PipelineData, x: string)
    requires x in p.policies
  {
    HasPolicyProfile(p, x) ==> CanUse(canFetch, Namespace(x), p.profiles[PolicyKey(x, p.policies[x])])
  }

  ghost predicate TargetsReady(canFetch: Fetcher, p: PipelineData, except: set<string>) {
    forall t :: t in p.targets && t !in except ==> TargetReady(canFetch, p, t)
  }

  ghost predicate OutputsReady(p: PipelineData, except: set<string>) {
    forall o :: o in p.outputs && o !in except ==> p.outputs[o].parses
  }

  ghost predicate PluginsReady(specs: map<string, PluginSpec>, except: set<string>) {
    forall x :: x in specs && x !in except ==> specs[x].parses
  }

  ghost predicate PoliciesReady(canFetch: Fetcher, p: PipelineData, except: set<string>) {
    forall x :: x in p.policies && x !in except ==> PolicyReady(canFetch, p, x)
  }

  /** Everything of p that the sections do not have yet can be added to them. */
  ghost predicate ConfigsAddable(canFetch: Fetcher, p: PipelineData, s: Sections) {
    && TargetsReady(canFetch, p, s.targets.Keys) && OutputsReady(p, s.outputs.Keys) && PluginsReady(p.inputs, s.inputs.Keys)
    && PluginsReady(p.outputProcessors, s.processors.Keys)
    && PluginsReady(p.inputProcessors, s.processors.Keys + p.outputProcessors.Keys)
    && PoliciesReady(canFetch, p, s.tunnelMatches.Keys)
  }

  /** All raw configurations parse, needed credentials can be fetched, and there are not
      too many Prometheus outputs. */
  ghost predicate Buildable(canFetch: Fetcher, p: PipelineData) {
    && TargetsReady(canFetch, p, {}) && OutputsReady(p, {}) && PluginsReady(p.inputs, {})
    && PluginsReady(p.outputProcessors, {}) && PluginsReady(p.inputProcessors, {})
    && PoliciesReady(canFetch, p, {})
    && FitsPool(p)
  }

  lemma NotBuildable(canFetch: Fetcher, p: PipelineData, s: Sections)
    requires !(ConfigsAddable(canFetch, p, s) && FitsPool(p))
    ensures !Buildable(canFetch, p)
  {
  }

  /** Everything in the sections parsed and had its credentials. */
  ghost predicate Ready(canFetch: Fetcher, s: Sections) {
    && (forall t :: t in s.targets ==> CanUse(canFetch, Namespace(t), s.targets[t].profile))
    && (forall o :: o in s.outputs ==> s.outputs[o].spec.parses)
    && (forall i :: i in s.inputs ==> s.inputs[i].spec.parses)
    && (forall x :: x in s.processors ==> s.processors[x].parses)
    && (forall x :: x in s.tunnelMatches ==> CanUse(canFetch, Namespace(x), s.tunnelMatches[x].profile))
  }

  lemma TargetsStayReady(canFetch: Fetcher, p: PipelineData, rel: Relationships, m: map<string, TargetConfig>, m': map<string, TargetConfig>)
    requires TargetsAdded(p, rel, m, m') && TargetsReady(canFetch, p, m.Keys)
    requires forall t :: t in m ==> CanUse(canFetch, Namespace(t), m[t].profile)
    ensures forall t :: t in m' ==> CanUse(canFetch, Namespace(t), m'[t].profile)
  {
    forall t | t in m' ensures CanUse(canFetch, Namespace(t), m'[t].profile) {
      if t !in m { assert TargetFrom(p, rel, t, m'[t]) && TargetReady(canFetch, p, t); }
    }
  }

  lemma OutputsStayReady(p: PipelineData, rel: Relationships, m: map<string, OutputConfig>, outputs: map<string, OutputConfig>, m': map<string, OutputConfig>)
    requires OutputsAdded(p, rel, m, outputs) && SameButListen(outputs, m') && OutputsReady(p, m.Keys)
    requires forall o :: o in m ==> m[o].spec.parses
    ensures forall o :: o in m' ==> m'[o].spec.parses
  {
    forall o | o in m' ensures m'[o].spec.parses {
      assert m'[o].spec == outputs[o].spec;
      if o !in m { assert OutputFrom(p, rel, o, outputs[o]); }
    }
  }

  lemma ProcessorsStayReady(p: PipelineData, m: map<string, PluginSpec>, m': map<string, PluginSpec>)
    requires ProcessorsAdded(p, m, m')
    requires PluginsReady(p.outputProcessors, m.Keys) && PluginsReady(p.inputProcessors, m.Keys + p.outputProcessors.Keys)
    requires forall x :: x in m ==> m[x].parses
    ensures forall x :: x in m' ==> m'[x].parses
  {
  }

  lemma MatchesStayReady(canFetch: Fetcher, p: PipelineData, m: map<string, TunnelMatch>, m': map<string, TunnelMatch>)
    requires MatchesAdded(p, m, m') && PoliciesReady(canFetch, p, m.Keys)
    requires forall x :: x in m ==> CanUse(canFetch, Namespace(x), m[x].profile)
    ensures forall x :: x in m' ==> CanUse(canFetch, Namespace(x), m'[x].profile)
  {
    forall x | x in m' ensures CanUse(canFetch, Namespace(x), m'[x].profile) {
      if x !in m { assert MatchFrom(p, x, m'[x]) && PolicyReady(canFetch, p, x); }
    }
  }

  lemma StaysReady(canFetch: Fetcher, p: PipelineData, rel: Relationships, s: Sections, s': Sections)
    requires Ready(canFetch, s) && ConfigsAddable(canFetch, p, s) && SectionsAdded(p, rel, s, s')
    ensures Ready(canFetch, s')
  {
    TargetsStayReady(canFetch, p, rel, s.targets, s'.targets);
    var outputs :| OutputsAdded(p, rel, s.outputs, outputs) && SameButListen(outputs, s'.outputs);
    OutputsStayReady(p, rel, s.outputs, outputs, s'.outputs);
    forall i | i in s'.inputs ensures s'.inputs[i].spec.parses {
      if i !in s.inputs { assert InputFrom(p, rel, i, s'.inputs[i]); }
    }
    ProcessorsStayReady(p, s.processors, s'.processors);
    MatchesStayReady(canFetch, p, s.tunnelMatches, s'.tunnelMatches);
  }

  /** A namespaced name denotes one object of its kind, whichever pipeline holds it. */
  ghost predicate OneObjectEach(ps: set<PipelineData>) {
    forall p, q :: p in ps && q in ps ==> SameObjects(p, q)
  }

  ghost predicate SameObjects(p: PipelineData, q: PipelineData) {
    && Agree(p.targets, q.targets) && Agree(p.profiles, q.profiles) && Agree(p.outputs, q.outputs) && Agree(p.inputs, q.inputs)
    && Agree(p.outputProcessors, q.outputProcessors) && Agree(p.outputProcessors, q.inputProcessors)
    && Agree(p.inputProcessors, q.outputProcessors) && Agree(p.inputProcessors, q.inputProcessors)
    && Agree(p.policies, q.policies)
  }

  ghost predicate Agree<C>(m: map<string, C>, m': map<string, C>) {
    forall x :: x in m && x in m' ==> m[x] == m'[x]
  }

  lemma BuiltTargetsReady(canFetch: Fetcher, ps: set<PipelineData>, rel: Relationships, m: map<string, TargetConfig>, p: PipelineData)
    requires OneObjectEach(ps) && TargetsBuilt(ps, rel, m) && p in ps
    requires forall t :: t in m ==> CanUse(canFetch, Namespace(t), m[t].profile)
    ensures TargetsReady(canFetch, p, {})
  {
    forall t | t in p.targets ensures TargetReady(canFetch, p, t) {
      if HasProfile(p, t) {
        assert t in PlannedTargets(ps);
        var q :| q in ps && TargetFrom(q, rel, t, m[t]);
        assert SameObjects(p, q);
      }
    }
  }

  lemma BuiltOutputsParse(ps: set<PipelineData>, rel: Relationships, m: map<string, OutputConfig>, p: PipelineData)
    requires OneObjectEach(ps) && OutputsBuilt(ps, rel, m) && p in ps && forall o :: o in m ==> m[o].spec.parses
    ensures OutputsReady(p, {})
  {
    forall o | o in p.outputs ensures p.outputs[o].parses {
      assert o in AllKeys(ps, OutputNames) by { assert o in OutputNames(p); }
      var q :| q in ps && OutputFrom(q, rel, o, m[o]);
      assert SameObjects(p, q);
    }
  }

  lemma BuiltInputsParse(ps: set<PipelineData>, rel: Relationships, m: map<string, InputConfig>, p: PipelineData)
    requires OneObjectEach(ps) && InputsBuilt(ps, rel, m) && p in ps && forall i :: i in m ==> m[i].spec.parses
    ensures PluginsReady(p.inputs, {})
  {
    forall i | i in p.inputs ensures p.inputs[i].parses {
      assert i in AllKeys(ps, InputNames) by { assert i in InputNames(p); }
      var q :| q in ps && InputFrom(q, rel, i, m[i]);
      assert SameObjects(p, q);
    }
  }

  lemma BuiltMatchesReady(canFetch: Fetcher, ps: set<PipelineData>, m: map<string, TunnelMatch>, p: PipelineData)
    requires OneObjectEach(ps) && MatchesBuilt(ps, m) && p in ps
    requires forall x :: x in m ==> CanUse(canFetch, Namespace(x), m[x].profile)
    ensures PoliciesReady(canFetch, p, {})
  {
    forall x | x in p.policies ensures PolicyReady(canFetch, p, x) {
      if HasPolicyProfile(p, x) {
        assert x in MatchedPolicies(ps);
        var q :| q in ps && MatchFrom(q, x, m[x]);
        assert SameObjects(p, q);
      }
    }
  }

  /** If shared names denote the same objects, what has been built says of each pipeline
      that it was buildable. */
  lemma BuiltMeansBuildable(canFetch: Fetcher, ps: set<PipelineData>, rel: Relationships, s: Sections, p: PipelineData)
    requires OneObjectEach(ps) && SectionsBuilt(ps, rel, s) && Ready(canFetch, s) && p in ps && FitsPool(p)
    ensures Buildable(canFetch, p)
  {
    BuiltTargetsReady(canFetch, ps, rel, s.targets, p);
    BuiltOutputsParse(ps, rel, s.outputs, p);
    BuiltInputsParse(ps, rel, s.inputs, p);
    BuiltProcessorsParse(ps, s.processors, p);
    BuiltMatchesReady(canFetch, ps, s.tunnelMatches, p);
  }

  lemma SameProcessor(p: PipelineData, q: PipelineData, x: string, cfg: PluginSpec)
    requires SameObjects(p, q) && ProcessorFrom(q, x, cfg)
    ensures (x in p.outputProcessors ==> p.outputProcessors[x] == cfg) && (x in p.inputProcessors ==> p.inputProcessors[x] == cfg)
  {
  }

  lemma BuiltProcessorParses(ps: set<PipelineData>, m: map<string, PluginSpec>, p: PipelineData, x: string)
    requires OneObjectEach(ps) && ProcessorsBuilt(ps, m) && p in ps && x in m && m[x].parses
    ensures x in p.outputProcessors ==> p.outputProcessors[x].parses
    ensures x in p.inputProcessors ==> p.inputProcessors[x].parses
  {
    var q :| q in ps && ProcessorFrom(q, x, m[x]);
    SameProcessor(p, q, x, m[x]);
  }

  lemma BuiltProcessorsParse(ps: set<PipelineData>, m: map<string, PluginSpec>, p: PipelineData)
    requires OneObjectEach(ps) && ProcessorsBuilt(ps, m) && p in ps && forall x :: x in m ==> m[x].parses
    ensures PluginsReady(p.outputProcessors, {}) && PluginsReady(p.inputProcessors, {})
  {
    forall x | x in p.outputProcessors ensures p.outputProcessors[x].parses {
      assert x in AllKeys(ps, OutputProcessorNames) by { assert x in OutputProcessorNames(p); }
      BuiltProcessorParses(ps, m, p, x);
    }
    forall x | x in p.inputProcessors ensures p.inputProcessors[x].parses {
      assert x in AllKeys(ps, InputProcessorNames) by { assert x in InputProcessorNames(p); }
      BuiltProcessorParses(ps, m, p, x);
    }
  }

  // ---------- one pass over the pipelines ----------

  /** What a pass for pipeline p makes of the sections. */
  ghost predicate Passed(h: Hash32, p: PipelineData, rel: Relationships, s: Sections, s': Sections) {
    && SectionsAdded(p, rel, s, s')
    && PortsListen(s'.prometheusPorts, s'.outputs) && PortsApart(p, s'.prometheusPorts)
    && s'.prometheusPorts == s.prometheusPorts + PipelinePorts(h, p)
  }

  /** The ports of p are entered and listened on, they are distinct, and nothing else changes. */
  ghost predicate PortsAssigned(h: Hash32, p: PipelineData, s: Sections, s': Sections) {
    && s' == s.(outputs := s'.outputs, prometheusPorts := s.prometheusPorts + PipelinePorts(h, p))
    && SameButListen(s.outputs, s'.outputs) && PortsListen(s'.prometheusPorts, s'.outputs) && PortsApart(p, s'.prometheusPorts)
  }

  ghost function Listening(s: Sections, ports: map<string, int>): Sections {
    s.(outputs := SetListen(s.outputs, ports), prometheusPorts := s.prometheusPorts + ports)
  }

  lemma ListenAssigned(h: Hash32, p: PipelineData, s: Sections)
    requires FitsPool(p) && p.outputs.Keys <= s.outputs.Keys && PortsListen(s.prometheusPorts, s.outputs)
    ensures PortsAssigned(h, p, s, Listening(s, PipelinePorts(h, p)))
  {
    var ports := PipelinePorts(h, p);
    TableMeans(h, p);
    NewPortsListen(s.outputs, s.prometheusPorts, ports);
    NewPortsApart(p, s.prometheusPorts, ports);
  }

  lemma PassedFrom(h: Hash32, p: PipelineData, rel: Relationships, s: Sections, s1: Sections, s': Sections)
    requires ConfigsAdded(p, rel, s, s1) && s1.prometheusPorts == s.prometheusPorts && FitsPool(p)
    requires PortsAssigned(h, p, s1, s')
    ensures Passed(h, p, rel, s, s')
  {
    TableMeans(h, p);
    AllSectionsAdded(p, rel, s, s1, s');
  }

  /** Where the loop stands after the pipelines ps. */
  ghost predicate Reached(canFetch: Fetcher, ps: set<PipelineData>, rel: Relationships, s: Sections) {
    && SectionsBuilt(ps, rel, s) && PortsListen(s.prometheusPorts, s.outputs)
    && Ready(canFetch, s) && (forall p :: p in ps ==> FitsPool(p))
  }

  lemma NothingReached(canFetch: Fetcher, rel: Relationships)
    ensures Reached(canFetch, {}, rel, NO_SECTIONS)
  {
    NothingBuilt(rel);
  }

  lemma PassKeeps(canFetch: Fetcher, h: Hash32, ps: set<PipelineData>, p: PipelineData, rel: Relationships, s: Sections, s': Sections)
    requires Reached(canFetch, ps, rel, s) && Passed(h, p, rel, s, s')
    requires ConfigsAddable(canFetch, p, s) && FitsPool(p)
    ensures Reached(canFetch, ps + {p}, rel, s')
  {
    SectionsGrow(ps, p, rel, s, s');
    StaysReady(canFetch, p, rel, s, s');
  }

  ghost predicate AllBuildable(canFetch: Fetcher, ps: set<PipelineData>) {
    forall p :: p in ps ==> Buildable(canFetch, p)
  }

  ghost function HeldBy(pipelines: Pipelines, names: seq<string>): set<PipelineData> {
    set n | n in names && n in pipelines :: pipelines[n]
  }

  lemma HeldByOneMore(pipelines: Pipelines, names: seq<string>, k: nat)
    requires k < |names| && names[k] in pipelines
    ensures HeldBy(pipelines, names[..k + 1]) == HeldBy(pipelines, names[..k]) + {pipelines[names[k]]}
  {
    assert names[..k + 1] == names[..k] + [names[k]];
  }

  /** The sections and the ports after the first k pipelines of the order. */
  ghost predicate Stands(canFetch: Fetcher, h: Hash32, pipelines: Pipelines, rel: Relationships, order: seq<string>, k: nat, s: Sections)
    requires IsOrder(order, pipelines.Keys) && k <= |order|
  {
    && Reached(canFetch, HeldBy(pipelines, order[..k]), rel, s)
    && s.prometheusPorts == Overlaid(TablesOf(h, pipelines), order[..k])
  }

  lemma StandsFirst(canFetch: Fetcher, h: Hash32, pipelines: Pipelines, rel: Relationships, order: seq<string>)
    requires IsOrder(order, pipelines.Keys)
    ensures Stands(canFetch, h, pipelines, rel, order, 0, NO_SECTIONS)
  {
    assert order[..0] == [] && HeldBy(pipelines, []) == {};
    NothingReached(canFetch, rel);
  }

  lemma StandsNext(canFetch: Fetcher, h: Hash32, pipelines: Pipelines, rel: Relationships, order: seq<string>, k: nat, s: Sections, s': Sections)
    requires IsOrder(order, pipelines.Keys) && k < |order| && Stands(canFetch, h, pipelines, rel, order, k, s)
    requires var p := pipelines[order[k]];
             Passed(h, p, rel, s, s') && ConfigsAddable(canFetch, p, s) && FitsPool(p)
    ensures Stands(canFetch, h, pipelines, rel, order, k + 1, s')
  {
    PassKeeps(canFetch, h, HeldBy(pipelines, order[..k]), pipelines[order[k]], rel, s, s');
    HeldByOneMore(pipelines, order, k);
    OverlaidPass(h, pipelines, order, k);
  }

  lemma StandsLast(canFetch: Fetcher, h: Hash32, pipelines: Pipelines, rel: Relationships, order: seq<string>, s: Sections)
    requires IsOrder(order, pipelines.Keys) && Stands(canFetch, h, pipelines, rel, order, |order|, s)
    ensures Reached(canFetch, pipelines.Values, rel, s) && s.prometheusPorts == Overlaid(TablesOf(h, pipelines), order)
    ensures OneObjectEach(pipelines.Values) ==> AllBuildable(canFetch, pipelines.Values)
  {
    AllHeld(pipelines, order);
    if OneObjectEach(pipelines.Values) { ReachedMeansBuildable(canFetch, pipelines.Values, rel, s); }
  }

  lemma AllHeld(pipelines: Pipelines, order: seq<string>)
    requires forall n :: n in order <==> n in pipelines
    ensures order[..|order|] == order && HeldBy(pipelines, order) == pipelines.Values
  {
  }

  lemma ReachedMeansBuildable(canFetch: Fetcher, ps: set<PipelineData>, rel: Relationships, s: Sections)
    requires OneObjectEach(ps) && Reached(canFetch, ps, rel, s)
    ensures AllBuildable(canFetch, ps)
  {
    forall p | p in ps ensures Buildable(canFetch, p) {
      BuiltMeansBuildable(canFetch, ps, rel, s, p);
    }
  }

  function Profiled(p: PipelineData, names: seq<string>): set<string> {
    set t | t in names && HasProfile(p, t)
  }

  lemma OneMoreProfiled(p: PipelineData, names: seq<string>, k: nat)
    requires k < |names|
    ensures names[..k+1] == names[..k] + [names[k]]
    ensures Profiled(p, names[..k+1]) == Profiled(p, names[..k]) + if HasProfile(p, names[k]) then {names[k]} else {}
  {
    assert names[..k+1] == names[..k] + [names[k]];
  }

  function Matched(p: PipelineData, names: seq<string>): set<string> {
    set x | x in names && HasPolicyProfile(p, x)
  }

  lemma OneMoreMatched(p: PipelineData, names: seq<string>, k: nat)
    requires k < |names|
    ensures names[..k+1] == names[..k] + [names[k]]
    ensures Matched(p, names[..k+1]) == Matched(p, names[..k]) + if HasPolicyProfile(p, names[k]) then {names[k]} else {}
  {
    assert names[..k+1] == names[..k] + [names[k]];
  }

  class PlanBuilder {
    const clusterName: string
    const canFetch: Fetcher
    const hash: Hash32
    var pipelines: map<string, PipelineData>
    var relationships: Relationships

    constructor (clusterName: string, canFetch: Fetcher, hash: Hash32)
      ensures pipelines == map[] && relationships == NO_RELATIONSHIPS
      ensures this.clusterName == clusterName && this.canFetch == canFetch && this.hash == hash
    {
      this.clusterName, this.canFetch, this.hash := clusterName, canFetch, hash;
      pipelines, relationships := map[], NO_RELATIONSHIPS;
    }

    method AddPipeline(name: string, data: PipelineData)
      modifies this`pipelines
      ensures pipelines == old(pipelines)[name := data]
    {
      pipelines := pipelines[name := data];
    }

    method CollectRelationships(plan: ApplyPlan)
      modifies this`relationships, plan`current
      ensures Collected(pipelines.Values, old(relationships), relationships)
      ensures Records(pipelines.Values, clusterName, old(plan.current), plan.current)
      ensures ProcessorsCounted(pipelines, pipelines.Keys, old(relationships), relationships)
    {
      var names := Enumerate(pipelines.Keys);
      ghost var ps: set<PipelineData> := {};
      CollectedNone(relationships);
      ProcessorsCountedNone(pipelines, relationships);
      for k := 0 to |names|
        invariant ps == HeldBy(pipelines, names[..k])
        invariant Collected(ps, old(relationships), relationships)
        invariant Records(ps, clusterName, old(plan.current), plan.current)
        invariant ProcessorsCounted(pipelines, Elements(names[..k]), old(relationships), relationships)
      {
        var p := pipelines[names[k]];
        HeldByOneMore(pipelines, names, k);
        var rel := CollectOne(relationships, p);
        var current := RecordOwners(clusterName, p, plan.current);
        CollectedOneMore(ps, p, old(relationships), relationships, rel);
        RecordsOneMore(ps, p, clusterName, old(plan.current), plan.current, current);
        NextName(names, k);
        ProcessorsCountedOneMore(pipelines, Elements(names[..k]), names[k], old(relationships), relationships, rel);
        relationships, plan.current, ps := rel, current, ps + {p};
      }
      AllHeld(pipelines, names);
      assert Elements(names) == pipelines.Keys;
    }

    method BuildTargets(plan: ApplyPlan, p: PipelineData) returns (ok: bool)
      modifies plan`targets
      ensures ok ==> TargetsAdded(p, relationships, old(plan.targets), plan.targets)
      ensures ok <==> TargetsReady(canFetch, p, old(plan.targets.Keys))
    {
      var names := Enumerate(p.targets.Keys);
      ghost var before := plan.targets;
      for k := 0 to |names|
        invariant plan.targets.Keys == before.Keys + Profiled(p, names[..k])
        invariant Retains(before, plan.targets)
        invariant forall t :: t in plan.targets && t !in before ==> TargetFrom(p, relationships, t, plan.targets[t])
        invariant forall t :: t in names[..k] && t !in before ==> TargetReady(canFetch, p, t)
      {
        var t := names[k];
        OneMoreProfiled(p, names, k);
        if t in plan.targets {
          continue;
        }
        var target := p.targets[t];
        var key := ProfileKey(t, target);
        if key !in p.profiles {
          continue;
        }
        var profile := p.profiles[key];
        if profile.credentialsRef != "" && !canFetch(Namespace(t), profile.credentialsRef) {
          assert !TargetReady(canFetch, p, t);
          return false;
        }
        var subscriptions := Enumerate(Related(relationships.targetSubscriptions, t));
        var cfg := TargetConfig(target, profile, subscriptions);
        assert TargetFrom(p, relationships, t, cfg);
        plan.targets := plan.targets[t := cfg];
      }
      assert names[..|names|] == names;
      return true;
    }

    method BuildSubscriptions(plan: ApplyPlan, p: PipelineData)
      modifies plan`subscriptions
      ensures SubscriptionsAdded(p, relationships, old(plan.subscriptions), plan.subscriptions)
    {
      var names := Enumerate(p.subscriptions);
      ghost var before := plan.subscriptions;
      for k := 0 to |names|
        invariant plan.subscriptions.Keys == before.Keys + Elements(names[..k])
        invariant Retains(before, plan.subscriptions)
        invariant forall s :: s in plan.subscriptions && s !in before ==> SubscriptionFrom(relationships, s, plan.subscriptions[s])
      {
        var s := names[k];
        assert names[..k+1] == names[..k] + [s];
        if s in plan.subscriptions {
          continue;
        }
        var outputs := Enumerate(Related(relationships.subscriptionOutputs, s));
        plan.subscriptions := plan.subscriptions[s := SubscriptionConfig(outputs)];
      }
      assert names[..|names|] == names;
    }

    method BuildOutputs(plan: ApplyPlan, p: PipelineData) returns (ok: bool)
      modifies plan`outputs
      ensures ok ==> OutputsAdded(p, relationships, old(plan.outputs), plan.outputs)
      ensures ok <==> OutputsReady(p, old(plan.outputs.Keys))
    {
      var names := Enumerate(p.outputs.Keys);
      ghost var before := plan.outputs;
      for k := 0 to |names|
        invariant plan.outputs.Keys == before.Keys + Elements(names[..k])
        invariant Retains(before, plan.outputs)
        invariant forall o :: o in plan.outputs && o !in before ==> OutputFrom(p, relationships, o, plan.outputs[o]) && plan.outputs[o].listen == None
        invariant forall o :: o in names[..k] && o !in before ==> p.outputs[o].parses
      {
        var o := names[k];
        assert names[..k+1] == names[..k] + [o];
        if o in plan.outputs {
          continue;
        }
        if !p.outputs[o].parses {
          return false;
        }
        plan.outputs := plan.outputs[o := OutputConfig(p.outputs[o], Listing(relationships.outputProcessors, o), None)];
      }
      assert names[..|names|] == names;
      return true;
    }

    method BuildInputs(plan: ApplyPlan, p: PipelineData) returns (ok: bool)
      modifies plan`inputs
      ensures ok ==> InputsAdded(p, relationships, old(plan.inputs), plan.inputs)
      ensures ok <==> PluginsReady(p.inputs, old(plan.inputs.Keys))
    {
      var names := Enumerate(p.inputs.Keys);
      ghost var before := plan.inputs;
      for k := 0 to |names|
        invariant plan.inputs.Keys == before.Keys + Elements(names[..k])
        invariant Retains(before, plan.inputs)
        invariant forall i :: i in plan.inputs && i !in before ==> InputFrom(p, relationships, i, plan.inputs[i])
        invariant forall i :: i in names[..k] && i !in before ==> p.inputs[i].parses
      {
        var i := names[k];
        assert names[..k+1] == names[..k] + [i];
        if i in plan.inputs {
          continue;
        }
        if !p.inputs[i].parses {
          return false;
        }
        var cfg := InputConfigFor(p, i);
        plan.inputs := plan.inputs[i := cfg];
      }
      assert names[..|names|] == names;
      return true;
    }

    method InputConfigFor(p: PipelineData, i: string) returns (cfg: InputConfig)
      requires i in p.inputs
      ensures InputFrom(p, relationships, i, cfg)
    {
      var outputs := Enumerate(Related(relationships.inputOutputs, i));
      cfg := InputConfig(p.inputs[i], outputs, Listing(relationships.inputProcessors, i));
    }

    /** One of the two loops of buildProcessors. */
    method AddProcessors(plan: ApplyPlan, specs: map<string, PluginSpec>) returns (ok: bool)
      modifies plan`processors
      ensures ok ==> plan.processors.Keys == old(plan.processors.Keys) + specs.Keys && Retains(old(plan.processors), plan.processors)
      ensures ok ==> forall x :: x in specs && x !in old(plan.processors) ==> plan.processors[x] == specs[x]
      ensures ok <==> PluginsReady(specs, old(plan.processors.Keys))
    {
      var names := Enumerate(specs.Keys);
      ghost var before := plan.processors;
      for k := 0 to |names|
        invariant plan.processors.Keys == before.Keys + Elements(names[..k]) && Retains(before, plan.processors)
        invariant forall x :: x in names[..k] && x !in before ==> plan.processors[x] == specs[x] && specs[x].parses
      {
        var x := names[k];
        assert names[..k+1] == names[..k] + [x];
        if x in plan.processors {
          continue;
        }
        if !specs[x].parses {
          return false;
        }
        plan.processors := plan.processors[x := specs[x]];
      }
      assert names[..|names|] == names;
      return true;
    }

    method BuildProcessors(plan: ApplyPlan, p: PipelineData) returns (ok: bool)
      modifies plan`processors
      ensures ok ==> ProcessorsAdded(p, old(plan.processors), plan.processors)
      ensures ok <==> PluginsReady(p.outputProcessors, old(plan.processors.Keys)) &&
                      PluginsReady(p.inputProcessors, old(plan.processors.Keys) + p.outputProcessors.Keys)
    {
      ok := AddProcessors(plan, p.outputProcessors);
      if ok {
        ok := AddProcessors(plan, p.inputProcessors);
      }
    }

    method BuildTunnelTargetMatches(plan: ApplyPlan, p: PipelineData) returns (ok: bool)
      modifies plan`tunnelMatches
      ensures ok ==> MatchesAdded(p, old(plan.tunnelMatches), plan.tunnelMatches)
      ensures ok <==> PoliciesReady(canFetch, p, old(plan.tunnelMatches.Keys))
    {
      var names := Enumerate(p.policies.Keys);
      ghost var before := plan.tunnelMatches;
      for k := 0 to |names|
        invariant plan.tunnelMatches.Keys == before.Keys + Matched(p, names[..k])
        invariant Retains(before, plan.tunnelMatches)
        invariant forall x :: x in plan.tunnelMatches && x !in before ==> MatchFrom(p, x, plan.tunnelMatches[x])
        invariant forall x :: x in names[..k] && x !in before ==> PolicyReady(canFetch, p, x)
      {
        var x := names[k];
        OneMoreMatched(p, names, k);
        if x in plan.tunnelMatches {
          continue;
        }
        var policy := p.policies[x];
        var key := PolicyKey(x, policy);
        if key !in p.profiles {
          continue;
        }
        var profile := p.profiles[key];
        if profile.credentialsRef != "" && !canFetch(Namespace(x), profile.credentialsRef) {
          assert !PolicyReady(canFetch, p, x);
          return false;
        }
        plan.tunnelMatches := plan.tunnelMatches[x := TunnelMatch(policy, profile)];
      }
      assert names[..|names|] == names;
      return true;
    }

    /** Assigns ports to one pipeline's Prometheus outputs and writes them into the plan. */
    method AssignPrometheusOutputPorts(plan: ApplyPlan, p: PipelineData, ghost s: Sections) returns (ok: bool)
      requires s == SectionsOf(plan) && p.outputs.Keys <= s.outputs.Keys && PortsListen(s.prometheusPorts, s.outputs)
      modifies plan
      ensures plan.current == old(plan.current)
      ensures ok <==> FitsPool(p)
      ensures ok ==> PortsAssigned(hash, p, s, SectionsOf(plan))
    {
      var ports;
      ok, ports := PortsFor(p);
      if !ok {
        return;
      }
      ghost var s' := Listening(s, ports);
      ListenAssigned(hash, p, s);
      plan.prometheusPorts := plan.prometheusPorts + ports;
      plan.outputs := SetListen(plan.outputs, ports);
      assert SectionsOf(plan) == s';
    }

    method PortsFor(p: PipelineData) returns (ok: bool, ports: map<string, int>)
      ensures ok <==> FitsPool(p)
      ensures ok ==> ports == PipelinePorts(hash, p) && ports.Keys == PrometheusOutputs(p)
    {
      var names := Enumerate(PrometheusOutputs(p));
      TableInAnyOrder(hash, p, names);
      TableMeans(hash, p);
      var r := AssignPorts(hash, names, DEFAULT_PORT, POOL_SIZE);
      match r
      case Ports(m) => ok, ports := true, m;
      case _ => ok, ports := false, map[];
    }

    /** Steps 2.1 to 2.4 for one pipeline. */
    method BuildEndpoints(plan: ApplyPlan, p: PipelineData) returns (ok: bool)
      modifies plan`targets, plan`subscriptions, plan`outputs, plan`inputs
      ensures ok ==> TargetsAdded(p, relationships, old(plan.targets), plan.targets)
      ensures ok ==> SubscriptionsAdded(p, relationships, old(plan.subscriptions), plan.subscriptions)
      ensures ok ==> OutputsAdded(p, relationships, old(plan.outputs), plan.outputs)
      ensures ok ==> InputsAdded(p, relationships, old(plan.inputs), plan.inputs)
      ensures ok <==> TargetsReady(canFetch, p, old(plan.targets.Keys)) && OutputsReady(p, old(plan.outputs.Keys)) &&
                      PluginsReady(p.inputs, old(plan.inputs.Keys))
    {
      ok := BuildTargets(plan, p);
      if !ok { return; }
      BuildSubscriptions(plan, p);
      ok := BuildOutputs(plan, p);
      if !ok { return; }
      ok := BuildInputs(plan, p);
    }

    /** Steps 2.1 to 2.6 for one pipeline. */
    method BuildConfigs(plan: ApplyPlan, p: PipelineData, ghost s: Sections) returns (ok: bool)
      requires s == SectionsOf(plan)
      modifies plan
      ensures plan.current == old(plan.current) && plan.prometheusPorts == s.prometheusPorts
      ensures ok ==> ConfigsAdded(p, relationships, s, SectionsOf(plan))
      ensures ok <==> ConfigsAddable(canFetch, p, s)
    {
      ok := BuildEndpoints(plan, p);
      if !ok { return; }
      ok := BuildRest(plan, p);
    }

    /** Steps 2.5 and 2.6 for one pipeline. */
    method BuildRest(plan: ApplyPlan, p: PipelineData) returns (ok: bool)
      modifies plan`processors, plan`tunnelMatches
      ensures ok ==> ProcessorsAdded(p, old(plan.processors), plan.processors)
      ensures ok ==> MatchesAdded(p, old(plan.tunnelMatches), plan.tunnelMatches)
      ensures ok <==> PluginsReady(p.outputProcessors, old(plan.processors.Keys)) &&
                      PluginsReady(p.inputProcessors, old(plan.processors.Keys) + p.outputProcessors.Keys) &&
                      PoliciesReady(canFetch, p, old(plan.tunnelMatches.Keys))
    {
      ok := BuildProcessors(plan, p);
      if !ok { return; }
      ok := BuildTunnelTargetMatches(plan, p);
    }

    /** Steps 2.1 to 2.7 for one pipeline. */
    method BuildPipeline(plan: ApplyPlan, p: PipelineData, ghost s: Sections) returns (ok: bool)
      requires s == SectionsOf(plan) && PortsListen(s.prometheusPorts, s.outputs)
      modifies plan
      ensures plan.current == old(plan.current)
      ensures ok <==> ConfigsAddable(canFetch, p, s) && FitsPool(p)
      ensures ok ==> Passed(hash, p, relationships, s, SectionsOf(plan))
    {
      ok := BuildConfigs(plan, p, s);
      if !ok { return; }
      ok := FinishPipeline(plan, p, s);
    }

    /** Step 2.7, behind the others. */
    method FinishPipeline(plan: ApplyPlan, p: PipelineData, ghost s: Sections) returns (ok: bool)
      requires ConfigsAdded(p, relationships, s, SectionsOf(plan)) && plan.prometheusPorts == s.prometheusPorts
      requires PortsListen(s.prometheusPorts, s.outputs)
      modifies plan
      ensures plan.current == old(plan.current)
      ensures ok <==> FitsPool(p)
      ensures ok ==> Passed(hash, p, relationships, s, SectionsOf(plan))
    {
      ghost var s1 := SectionsOf(plan);
      ConfigsKeepListening(p, relationships, s, s1);
      ok := AssignPrometheusOutputPorts(plan, p, s1);
      if ok { PassedFrom(hash, p, relationships, s, s1, SectionsOf(plan)); }
    }

    /** The k-th pass of the loop over the pipelines. */
    method Pass(plan: ApplyPlan, p: PipelineData, ghost order: seq<string>, ghost k: nat) returns (ok: bool)
      requires IsOrder(order, pipelines.Keys) && k < |order| && p == pipelines[order[k]]
      requires Stands(canFetch, hash, pipelines, relationships, order, k, SectionsOf(plan))
      modifies plan
      ensures plan.current == old(plan.current)
      ensures ok ==> Stands(canFetch, hash, pipelines, relationships, order, k + 1, SectionsOf(plan))
      ensures !ok ==> !Buildable(canFetch, p)
    {
      ghost var s := SectionsOf(plan);
      ok := BuildPipeline(plan, p, s);
      if ok {
        StandsNext(canFetch, hash, pipelines, relationships, order, k, s, SectionsOf(plan));
      } else {
        NotBuildable(canFetch, p, s);
      }
    }

    /** The loop over the pipelines, in any order. */
    method BuildAll(plan: ApplyPlan) returns (ok: bool, ghost order: seq<string>)
      requires SectionsOf(plan) == NO_SECTIONS
      modifies plan
      ensures plan.current == old(plan.current)
      ensures IsOrder(order, pipelines.Keys)
      ensures ok ==> Stands(canFetch, hash, pipelines, relationships, order, |order|, SectionsOf(plan))
      ensures !ok ==> exists n :: n in pipelines && !Buildable(canFetch, pipelines[n])
    {
      var names := Enumerate(pipelines.Keys);
      order := names;
      StandsFirst(canFetch, hash, pipelines, relationships, order);
      for k := 0 to |names|
        invariant plan.current == old(plan.current)
        invariant Stands(canFetch, hash, pipelines, relationships, order, k, SectionsOf(plan))
      {
        ok := Pass(plan, pipelines[names[k]], order, k);
        if !ok {
          assert names[k] in pipelines;
          return;
        }
      }
      ok := true;
    }

    /** Null is the error return.  A plan is returned if every pipeline is buildable, and
        only then if shared names denote the same objects. */
    method Build() returns (plan: ApplyPlan?)
      modifies this`relationships
      ensures Collected(pipelines.Values, old(relationships), relationships)
      ensures ProcessorsCounted(pipelines, pipelines.Keys, old(relationships), relationships)
      ensures plan != null ==> fresh(plan) && Built(pipelines.Values, clusterName, relationships, plan)
      ensures plan != null ==>
                exists order :: IsOrder(order, pipelines.Keys) && plan.prometheusPorts == Overlaid(TablesOf(hash, pipelines), order)
      ensures AllBuildable(canFetch, pipelines.Values) ==> plan != null
      ensures OneObjectEach(pipelines.Values) ==> (plan != null <==> AllBuildable(canFetch, pipelines.Values))
    {
      var building := new ApplyPlan();
      CollectRelationships(building);
      var ok;
      ghost var order;
      ok, order := BuildAll(building);
      if ok {
        StandsLast(canFetch, hash, pipelines, relationships, order, SectionsOf(building));
      }
      plan := if ok then building else null;
    }
  }

  // ---------- exact union and closure ----------

  lemma FreshRelation(ps: set<PipelineData>, keys: KeysOf, vals: KeysOf, rel: Relation, x: string)
    requires Extended(ps, keys, vals, map[], rel)
    ensures Related(rel, x) == Beside(ps, keys, vals, x)
  {
    if x !in rel { assert x !in AllKeys(ps, keys); }
  }

  /** For a fresh builder every list in the plan is the union, over the pipelines that
      hold the resource, of what they hold beside it: nothing about the order in which
      pipelines are visited remains. */
  lemma PlanIsExactUnion(ps: set<PipelineData>, cluster: string, rel: Relationships, plan: ApplyPlan)
    requires Collected(ps, NO_RELATIONSHIPS, rel) && Built(ps, cluster, rel, plan)
    ensures forall t :: t in plan.targets ==>
      Elements(plan.targets[t].subscriptions) == Beside(ps, TargetNames, SubscriptionNames, t)
    ensures forall s :: s in plan.subscriptions ==>
      Elements(plan.subscriptions[s].outputs) == Beside(ps, SubscriptionNames, OutputNames, s)
    ensures forall i :: i in plan.inputs ==>
      Elements(plan.inputs[i].outputs) == Beside(ps, InputNames, OutputNames, i) &&
      Elements(plan.inputs[i].processors) == Beside(ps, InputNames, InputProcessorNames, i)
    ensures forall o :: o in plan.outputs ==>
      Elements(plan.outputs[o].processors) == Beside(ps, OutputNames, OutputProcessorNames, o)
    ensures forall i :: i >= 0 ==> Owners(plan.current, i) == OwnedBy(ps, cluster, i)
  {
    assert AsSets(map[]) == map[];
    forall t | t in plan.targets ensures Elements(plan.targets[t].subscriptions) == Beside(ps, TargetNames, SubscriptionNames, t) {
      FreshRelation(ps, TargetNames, SubscriptionNames, rel.targetSubscriptions, t);
    }
    forall s | s in plan.subscriptions ensures Elements(plan.subscriptions[s].outputs) == Beside(ps, SubscriptionNames, OutputNames, s) {
      FreshRelation(ps, SubscriptionNames, OutputNames, rel.subscriptionOutputs, s);
    }
    forall i | i in plan.inputs
      ensures Elements(plan.inputs[i].outputs) == Beside(ps, InputNames, OutputNames, i)
      ensures Elements(plan.inputs[i].processors) == Beside(ps, InputNames, InputProcessorNames, i)
    {
      FreshRelation(ps, InputNames, OutputNames, rel.inputOutputs, i);
      FreshRelation(ps, InputNames, InputProcessorNames, AsSets(rel.inputProcessors), i);
      ListingElements(rel.inputProcessors, i);
    }
    forall o | o in plan.outputs ensures Elements(plan.outputs[o].processors) == Beside(ps, OutputNames, OutputProcessorNames, o) {
      FreshRelation(ps, OutputNames, OutputProcessorNames, AsSets(rel.outputProcessors), o);
      ListingElements(rel.outputProcessors, o);
    }
  }

  lemma BesideIsKnown(ps: set<PipelineData>, keys: KeysOf, vals: KeysOf, x: string)
    ensures Beside(ps, keys, vals, x) <= AllKeys(ps, vals)
  {
  }

  /** For a fresh builder a processor is listed for an output or input once for each added
      pipeline that holds both. */
  lemma ProcessorsListedPerPipeline(pipelines: Pipelines, cluster: string, rel: Relationships, plan: ApplyPlan)
    requires ProcessorsCounted(pipelines, pipelines.Keys, NO_RELATIONSHIPS, rel) && Built(pipelines.Values, cluster, rel, plan)
    ensures forall o, x :: o in plan.outputs ==>
              multiset(plan.outputs[o].processors)[x] ==
              |set n | n in pipelines && o in pipelines[n].outputs && x in pipelines[n].outputProcessors|
    ensures forall i, x :: i in plan.inputs ==>
              multiset(plan.inputs[i].processors)[x] ==
              |set n | n in pipelines && i in pipelines[n].inputs && x in pipelines[n].inputProcessors|
  {
    forall o, x | o in plan.outputs
      ensures multiset(plan.outputs[o].processors)[x] ==
              |set n | n in pipelines && o in pipelines[n].outputs && x in pipelines[n].outputProcessors|
    {
      OutputProcessorCount(pipelines, rel, o, x);
    }
    forall i, x | i in plan.inputs
      ensures multiset(plan.inputs[i].processors)[x] ==
              |set n | n in pipelines && i in pipelines[n].inputs && x in pipelines[n].inputProcessors|
    {
      InputProcessorCount(pipelines, rel, i, x);
    }
  }

  lemma OutputProcessorCount(pipelines: Pipelines, rel: Relationships, o: string, x: string)
    requires ProcessorsCounted(pipelines, pipelines.Keys, NO_RELATIONSHIPS, rel)
    ensures multiset(Listing(rel.outputProcessors, o))[x] ==
            |set n | n in pipelines && o in pipelines[n].outputs && x in pipelines[n].outputProcessors|
  {
    assert Occurs(rel.outputProcessors, o, x) == 0 + |Holders(pipelines, pipelines.Keys, OutputNames, OutputProcessorNames, o, x)| by {
      assert Occurs(NO_RELATIONSHIPS.outputProcessors, o, x) == 0;
    }
    assert Holders(pipelines, pipelines.Keys, OutputNames, OutputProcessorNames, o, x) ==
           set n | n in pipelines && o in pipelines[n].outputs && x in pipelines[n].outputProcessors;
  }

  lemma InputProcessorCount(pipelines: Pipelines, rel: Relationships, i: string, x: string)
    requires ProcessorsCounted(pipelines, pipelines.Keys, NO_RELATIONSHIPS, rel)
    ensures multiset(Listing(rel.inputProcessors, i))[x] ==
            |set n | n in pipelines && i in pipelines[n].inputs && x in pipelines[n].inputProcessors|
  {
    assert Occurs(rel.inputProcessors, i, x) == 0 + |Holders(pipelines, pipelines.Keys, InputNames, InputProcessorNames, i, x)| by {
      assert Occurs(NO_RELATIONSHIPS.inputProcessors, i, x) == 0;
    }
    assert Holders(pipelines, pipelines.Keys, InputNames, InputProcessorNames, i, x) ==
           set n | n in pipelines && i in pipelines[n].inputs && x in pipelines[n].inputProcessors;
  }

  /** Every subscription, output and processor the plan names is a key of the plan. */
  lemma PlanIsClosed(ps: set<PipelineData>, cluster: string, rel: Relationships, plan: ApplyPlan)
    requires Collected(ps, NO_RELATIONSHIPS, rel) && Built(ps, cluster, rel, plan)
    ensures forall t, s :: t in plan.targets && s in plan.targets[t].subscriptions ==> s in plan.subscriptions
    ensures forall s, o :: s in plan.subscriptions && o in plan.subscriptions[s].outputs ==> o in plan.outputs
    ensures forall i, o :: i in plan.inputs && o in plan.inputs[i].outputs ==> o in plan.outputs
    ensures forall i, x :: i in plan.inputs && x in plan.inputs[i].processors ==> x in plan.processors
    ensures forall o, x :: o in plan.outputs && x in plan.outputs[o].processors ==> x in plan.processors
    ensures forall o :: o in plan.prometheusPorts ==> o in plan.outputs && plan.outputs[o].listen == Some(plan.prometheusPorts[o])
  {
    PlanIsExactUnion(ps, cluster, rel, plan);
    forall t, s | t in plan.targets && s in plan.targets[t].subscriptions ensures s in plan.subscriptions {
      assert s in Elements(plan.targets[t].subscriptions);
      BesideIsKnown(ps, TargetNames, SubscriptionNames, t);
    }
    forall s, o | s in plan.subscriptions && o in plan.subscriptions[s].outputs ensures o in plan.outputs {
      assert o in Elements(plan.subscriptions[s].outputs);
      BesideIsKnown(ps, SubscriptionNames, OutputNames, s);
    }
    forall i, o | i in plan.inputs && o in plan.inputs[i].outputs ensures o in plan.outputs {
      assert o in Elements(plan.inputs[i].outputs);
      BesideIsKnown(ps, InputNames, OutputNames, i);
    }
    forall i, x | i in plan.inputs && x in plan.inputs[i].processors ensures x in plan.processors {
      assert x in Elements(plan.inputs[i].processors);
      BesideIsKnown(ps, InputNames, InputProcessorNames, i);
    }
    forall o, x | o in plan.outputs && x in plan.outputs[o].processors ensures x in plan.processors {
      assert x in Elements(plan.outputs[o].processors);
      BesideIsKnown(ps, OutputNames, OutputProcessorNames, o);
    }
  }

  // ---------- which profiles and which outputs ----------

  lemma NamespaceBeforeSlash(ns: string, name: string)
    requires '/' !in ns
    ensures Namespace(ns + "/" + name) == ns
  {
    assert (ns + "/" + name)[|ns|] == '/';
    BeforeSlashOf(ns, name);
  }

  lemma {:induction false} BeforeSlashOf(ns: string, name: string)
    requires '/' !in ns
    ensures BeforeSlash(ns + "/" + name) == ns
  {
    var nn := ns + "/" + name;
    if ns == "" {
      assert nn[0] == '/';
    } else {
      assert nn[0] == ns[0] && nn[1..] == ns[1..] + "/" + name;
      BeforeSlashOf(ns[1..], name);
    }
  }

  /** A planned target has the profile that it names, looked up in its own namespace. */
  lemma TargetsUseOwnProfile(ps: set<PipelineData>, cluster: string, rel: Relationships, plan: ApplyPlan, ns: string, name: string)
    requires Built(ps, cluster, rel, plan) && '/' !in ns && ns + "/" + name in plan.targets
    ensures exists p :: p in ps && ns + "/" + name in p.targets &&
              var key := ns + "/" + p.targets[ns + "/" + name].profile;
              key in p.profiles && plan.targets[ns + "/" + name].profile == p.profiles[key] &&
              plan.targets[ns + "/" + name].target == p.targets[ns + "/" + name]
  {
    var t := ns + "/" + name;
    NamespaceBeforeSlash(ns, name);
    var p :| p in ps && TargetFrom(p, rel, t, plan.targets[t]);
  }

  /** A target is planned exactly when some pipeline holds it together with that profile. */
  lemma PlannedExactly(ps: set<PipelineData>, cluster: string, rel: Relationships, plan: ApplyPlan, ns: string, name: string)
    requires Built(ps, cluster, rel, plan) && '/' !in ns
    ensures ns + "/" + name in plan.targets <==>
            exists p :: p in ps && ns + "/" + name in p.targets && ns + "/" + p.targets[ns + "/" + name].profile in p.profiles
  {
    NamespaceBeforeSlash(ns, name);
    assert forall p :: p in ps && ns + "/" + name in p.targets ==>
      ProfileKey(ns + "/" + name, p.targets[ns + "/" + name]) == ns + "/" + p.targets[ns + "/" + name].profile;
  }

  /** A matched tunnel policy has the profile that it names, looked up in its own namespace. */
  lemma PoliciesUseOwnProfile(ps: set<PipelineData>, cluster: string, rel: Relationships, plan: ApplyPlan, ns: string, name: string)
    requires Built(ps, cluster, rel, plan) && '/' !in ns && ns + "/" + name in plan.tunnelMatches
    ensures exists p :: p in ps && ns + "/" + name in p.policies &&
              var key := ns + "/" + p.policies[ns + "/" + name].profile;
              key in p.profiles && plan.tunnelMatches[ns + "/" + name].profile == p.profiles[key] &&
              plan.tunnelMatches[ns + "/" + name].policy == p.policies[ns + "/" + name]
  {
    var x := ns + "/" + name;
    NamespaceBeforeSlash(ns, name);
    var p :| p in ps && MatchFrom(p, x, plan.tunnelMatches[x]);
  }

  /** And a policy is matched exactly when some pipeline holds it together with that profile. */
  lemma MatchedExactly(ps: set<PipelineData>, cluster: string, rel: Relationships, plan: ApplyPlan, ns: string, name: string)
    requires Built(ps, cluster, rel, plan) && '/' !in ns
    ensures ns + "/" + name in plan.tunnelMatches <==>
            exists p :: p in ps && ns + "/" + name in p.policies && ns + "/" + p.policies[ns + "/" + name].profile in p.profiles
  {
    NamespaceBeforeSlash(ns, name);
    assert forall p :: p in ps && ns + "/" + name in p.policies ==>
      PolicyKey(ns + "/" + name, p.policies[ns + "/" + name]) == ns + "/" + p.policies[ns + "/" + name].profile;
  }

  /** The outputs that get a port, and listen on it, are those of type "prometheus". */
  lemma PortsGoToPrometheus(ps: set<PipelineData>, cluster: string, rel: Relationships, plan: ApplyPlan, o: string)
    requires Built(ps, cluster, rel, plan)
    ensures o in plan.prometheusPorts <==> exists p :: p in ps && o in p.outputs && p.outputs[o].kind == "prometheus"
    ensures o in plan.outputs && o !in plan.prometheusPorts ==> plan.outputs[o].listen == None
    ensures o in plan.prometheusPorts ==>
              o in plan.outputs && plan.outputs[o].listen == Some(plan.prometheusPorts[o]) && 9804 <= plan.prometheusPorts[o] <= 10812
  {
    assert o in plan.prometheusPorts <==> o in AllKeys(ps, PrometheusOutputs);
    assert forall p :: p in ps ==> (o in PrometheusOutputs(p) <==> o in p.outputs && p.outputs[o].kind == "prometheus");
  }
}
