/** Which clusters a changed resource wakes, and which resources a pipeline resolves:
    findClustersReferencingResource, pipelineReferencesResource, listPipelinesForCluster
    and the resolve functions in internal/controller/cluster_controller.go. */
module WatchMap {
  import opened Ordering
  import opened Placement
  import opened PlacementTheorems

  type Labels = map<string, string>

  /** A label selector: whether it has no terms, whether it can be compiled, and what it matches. */
  datatype Selector = Selector(isEmpty: bool, valid: bool, matches: Labels -> bool)

  datatype Kind = TargetKind | SubscriptionKind | OutputKind | InputKind | TunnelTargetPolicyKind

  datatype Pipeline = Pipeline(enabled: bool, clusterRef: string, refs: Kind -> seq<string>, selectors: Kind -> seq<Selector>)

  /** The objects of one kind in the namespace, with their labels. */
  type Objects = map<string, Labels>

  /** Selected by one of the first k selectors. */
  ghost predicate SelectedBy(selectors: seq<Selector>, labels: Labels, k: int) {
    exists i :: 0 <= i < k && i < |selectors| && !selectors[i].isEmpty && selectors[i].valid && selectors[i].matches(labels)
  }

  ghost predicate AllValid(selectors: seq<Selector>) {
    forall i :: 0 <= i < |selectors| ==> selectors[i].isEmpty || selectors[i].valid
  }

  ghost predicate References(refs: seq<string>, selectors: seq<Selector>, name: string, labels: Labels) {
    name in refs || SelectedBy(selectors, labels, |selectors|)
  }

  /** pipelineReferencesResource: by name, or by any selector that compiles and matches. */
  method PipelineReferencesResource(p: Pipeline, name: string, labels: Labels, kind: Kind) returns (r: bool)
    ensures r <==> References(p.refs(kind), p.selectors(kind), name, labels)
  {
    var refs, selectors := p.refs(kind), p.selectors(kind);
    if name in refs {
      return true;
    }
    for k := 0 to |selectors|
      invariant !SelectedBy(selectors, labels, k)
    {
      if selectors[k].isEmpty || !selectors[k].valid {
        continue;
      }
      if selectors[k].matches(labels) {
        return true;
      }
    }
    return false;
  }

  /** The clusters of the enabled pipelines that reference the resource. */
  ghost predicate Wakes(pipelines: seq<Pipeline>, kind: Kind, name: string, labels: Labels, clusters: set<string>) {
    forall c :: c in clusters <==>
      exists i :: 0 <= i < |pipelines| && Runs(pipelines[i], c) &&
                  References(pipelines[i].refs(kind), pipelines[i].selectors(kind), name, labels)
  }

  /** findClustersReferencingResource: the clusters of the enabled pipelines that reference it. */
  method FindClusters(pipelines: seq<Pipeline>, name: string, labels: Labels, kind: Kind) returns (clusters: set<string>)
    ensures Wakes(pipelines, kind, name, labels, clusters)
  {
    clusters := {};
    for k := 0 to |pipelines|
      invariant forall c :: c in clusters <==>
                  exists i :: 0 <= i < k && Runs(pipelines[i], c) &&
                              References(pipelines[i].refs(kind), pipelines[i].selectors(kind), name, labels)
    {
      if !pipelines[k].enabled {
        continue;
      }
      var referenced := PipelineReferencesResource(pipelines[k], name, labels, kind);
      if referenced {
        clusters := clusters + {pipelines[k].clusterRef};
      }
    }
  }

  /** listPipelinesForCluster: the enabled pipelines of a cluster, in list order. */
  function PipelinesFor(pipelines: seq<Pipeline>, cluster: string): seq<Pipeline> {
    if pipelines == [] then []
    else
      var k := |pipelines| - 1;
      PipelinesFor(pipelines[..k], cluster) +
      if pipelines[k].clusterRef == cluster && pipelines[k].enabled then [pipelines[k]] else []
  }

  method ListPipelinesForCluster(pipelines: seq<Pipeline>, cluster: string) returns (result: seq<Pipeline>)
    ensures result == PipelinesFor(pipelines, cluster)
  {
    result := [];
    for k := 0 to |pipelines|
      invariant result == PipelinesFor(pipelines[..k], cluster)
    {
      assert pipelines[..k+1][..k] == pipelines[..k];
      if pipelines[k].clusterRef == cluster && pipelines[k].enabled {
        result := result + [pipelines[k]];
      }
    }
    assert pipelines[..|pipelines|] == pipelines;
  }

  /** What a pipeline resolves: existing objects named or selected. */
  ghost predicate Resolves(refs: seq<string>, selectors: seq<Selector>, objects: Objects, name: string, k: int) {
    name in objects && (name in refs || SelectedBy(selectors, objects[name], k))
  }

  /** The objects a selector lists, in the order the server returns them. */
  method ListMatching(objects: Objects, s: Selector) returns (names: seq<string>)
    ensures Distinct(names) && forall n :: n in names <==> n in objects && s.matches(objects[n])
  {
    names := Enumerate(set n | n in objects && s.matches(objects[n]));
  }

  /** Appends the names not seen yet. */
  method AppendUnseen(result: seq<string>, seen: set<string>, names: seq<string>) returns (result': seq<string>, seen': set<string>)
    requires Distinct(result) && seen == Elements(result)
    ensures Distinct(result') && seen' == Elements(result') == seen + Elements(names)
  {
    result', seen' := result, seen;
    for k := 0 to |names|
      invariant Distinct(result') && seen' == Elements(result') == seen + Elements(names[..k])
    {
      assert names[..k+1] == names[..k] + [names[k]];
      if names[k] !in seen' {
        result', seen' := result' + [names[k]], seen' + {names[k]};
      }
    }
    assert names[..|names|] == names;
  }

  /** resolveTargets and its siblings: refs that exist, then selections, without
      duplicates; nothing when a selector does not compile. */
  method Resolve(refs: seq<string>, selectors: seq<Selector>, objects: Objects) returns (r: Option<seq<string>>)
    ensures r.Some? <==> AllValid(selectors)
    ensures r.Some? ==> Distinct(r.value) && forall n :: n in r.value <==> Resolves(refs, selectors, objects, n, |selectors|)
  {
    var existing: seq<string> := [];
    for k := 0 to |refs|
      invariant forall n :: n in existing <==> n in refs[..k] && n in objects
    {
      assert refs[..k+1] == refs[..k] + [refs[k]];
      if refs[k] in objects { existing := existing + [refs[k]]; }
    }
    assert refs[..|refs|] == refs;
    var result, seen := AppendUnseen([], {}, existing);
    assert forall n :: n in result <==> n in Elements(result);
    assert forall n :: n in existing <==> n in Elements(existing);
    for k := 0 to |selectors|
      invariant Distinct(result) && seen == Elements(result)
      invariant forall i :: 0 <= i < k ==> selectors[i].isEmpty || selectors[i].valid
      invariant forall n :: n in seen <==> Resolves(refs, selectors, objects, n, k)
    {
      if selectors[k].isEmpty {
        continue;
      }
      if !selectors[k].valid {
        return None;
      }
      var names := ListMatching(objects, selectors[k]);
      result, seen := AppendUnseen(result, seen, names);
      assert forall n :: n in names <==> n in Elements(names);
      OneMoreSelector(refs, selectors, objects, k);
    }
    assert forall n :: n in result <==> n in Elements(result);
    return Some(result);
  }

  lemma OneMoreSelector(refs: seq<string>, selectors: seq<Selector>, objects: Objects, k: nat)
    requires k < |selectors| && !selectors[k].isEmpty && selectors[k].valid
    ensures forall n :: Resolves(refs, selectors, objects, n, k + 1) <==>
              Resolves(refs, selectors, objects, n, k) || (n in objects && selectors[k].matches(objects[n]))
  {
  }

  // ---------- agreement ----------

  /** Resolution succeeds and includes the object; Resolve returns such lists. */
  ghost predicate PipelineResolves(p: Pipeline, kind: Kind, objects: Objects, name: string) {
    AllValid(p.selectors(kind)) && Resolves(p.refs(kind), p.selectors(kind), objects, name, |p.selectors(kind)|)
  }

  /** Some pipeline the cluster runs resolves the object. */
  ghost predicate ClusterResolves(pipelines: seq<Pipeline>, cluster: string, kind: Kind, objects: Objects, name: string) {
    exists j :: 0 <= j < |PipelinesFor(pipelines, cluster)| && PipelineResolves(PipelinesFor(pipelines, cluster)[j], kind, objects, name)
  }

  ghost predicate Runs(p: Pipeline, cluster: string) { p.enabled && p.clusterRef == cluster }

  lemma {:induction false} ClusterResolvesMeans(pipelines: seq<Pipeline>, cluster: string, kind: Kind, objects: Objects, name: string)
    ensures ClusterResolves(pipelines, cluster, kind, objects, name) <==>
            exists i :: 0 <= i < |pipelines| && Runs(pipelines[i], cluster) && PipelineResolves(pipelines[i], kind, objects, name)
  {
    if pipelines != [] {
      var k := |pipelines| - 1;
      var rest, all := PipelinesFor(pipelines[..k], cluster), PipelinesFor(pipelines, cluster);
      ClusterResolvesMeans(pipelines[..k], cluster, kind, objects, name);
      if j :| 0 <= j < |all| && PipelineResolves(all[j], kind, objects, name) {
        if j < |rest| {
          assert rest[j] == all[j];
          var i :| 0 <= i < k && Runs(pipelines[..k][i], cluster) && PipelineResolves(pipelines[..k][i], kind, objects, name);
          assert pipelines[i] == pipelines[..k][i];
        } else {
          assert all[j] == pipelines[k] && Runs(pipelines[k], cluster);
        }
      }
      if i :| 0 <= i < |pipelines| && Runs(pipelines[i], cluster) && PipelineResolves(pipelines[i], kind, objects, name) {
        if i < k {
          assert pipelines[..k][i] == pipelines[i];
          var j :| 0 <= j < |rest| && PipelineResolves(rest[j], kind, objects, name);
          assert all[j] == rest[j];
        } else {
          assert all[|rest|] == pipelines[k];
        }
      }
    }
  }

  /** A change to an existing object wakes every cluster that resolves it, and no other
      cluster except through a pipeline with a selector that does not compile. */
  lemma WakesExactlyResolvers(pipelines: seq<Pipeline>, kind: Kind, objects: Objects, name: string, clusters: set<string>, c: string)
    requires name in objects && Wakes(pipelines, kind, name, objects[name], clusters)
    ensures ClusterResolves(pipelines, c, kind, objects, name) ==> c in clusters
    ensures (forall i :: 0 <= i < |pipelines| && Runs(pipelines[i], c) ==> AllValid(pipelines[i].selectors(kind))) ==>
              (c in clusters <==> ClusterResolves(pipelines, c, kind, objects, name))
  {
    ClusterResolvesMeans(pipelines, c, kind, objects, name);
    if ClusterResolves(pipelines, c, kind, objects, name) {
      var i :| 0 <= i < |pipelines| && Runs(pipelines[i], c) && PipelineResolves(pipelines[i], kind, objects, name);
      assert References(pipelines[i].refs(kind), pipelines[i].selectors(kind), name, objects[name]);
    }
    if c in clusters && forall i :: 0 <= i < |pipelines| && Runs(pipelines[i], c) ==> AllValid(pipelines[i].selectors(kind)) {
      var i :| 0 <= i < |pipelines| && Runs(pipelines[i], c) &&
               References(pipelines[i].refs(kind), pipelines[i].selectors(kind), name, objects[name]);
      assert PipelineResolves(pipelines[i], kind, objects, name);
    }
  }
}
