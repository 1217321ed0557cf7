/** The status of a Target: per-cluster states, their summary, and the history of
    committed writes that a status object stands for. */
module TargetStatus {
  import opened Ordering
  import opened Placement
  import opened PlacementTheorems

  datatype ClusterState = ClusterState(pod: string, state: string, failedReason: string, connectionState: string)

  type ClusterStates = map<string, ClusterState>

  datatype Status = Status(clusters: nat, state: string, clusterStates: ClusterStates)

  const EMPTY_STATUS := Status(0, "", map[])

  predicate Healthy(s: ClusterState) {
    s.state == "running" && s.connectionState == "READY"
  }

  ghost predicate AllHealthy(m: ClusterStates) {
    forall c :: c in m ==> Healthy(m[c])
  }

  /** The summary fields agree with the map. */
  ghost predicate Summarized(s: Status) {
    && s.clusters == |s.clusterStates|
    && (s.clusterStates == map[] <==> s.state == "")
    && (s.state == "READY" <==> s.clusterStates != map[] && AllHealthy(s.clusterStates))
    && (s.state == "DEGRADED" <==> !AllHealthy(s.clusterStates))
  }

  /** The summary is determined by the map. */
  lemma SummaryIsUnique(s: Status, t: Status)
    requires Summarized(s) && Summarized(t) && s.clusterStates == t.clusterStates
    ensures s == t
  {
    assert s.state == "" || s.state == "READY" || s.state == "DEGRADED";
  }

  /** computeStatusSummary: counts, then scans for an unhealthy cluster. */
  method ComputeStatusSummary(m: ClusterStates) returns (s: Status)
    ensures s.clusterStates == m && Summarized(s) && s.clusters == |m|
    ensures s.state == "" <==> m == map[]
    ensures s.state == "READY" <==> m != map[] && forall c :: c in m ==> m[c].state == "running" && m[c].connectionState == "READY"
    ensures s.state == "DEGRADED" <==> exists c :: c in m && (m[c].state != "running" || m[c].connectionState != "READY")
  {
    if |m| == 0 {
      return Status(0, "", m);
    }
    var allHealthy := true;
    var names := Enumerate(m.Keys);
    var k := 0;
    while k < |names|
      invariant 0 <= k <= |names|
      invariant forall j :: 0 <= j < k ==> Healthy(m[names[j]])
      invariant allHealthy
    {
      if !Healthy(m[names[k]]) {
        allHealthy := false;
        assert names[k] in m;
        break;
      }
      k := k + 1;
    }
    s := Status(|m|, if allHealthy then "READY" else "DEGRADED", m);
    if allHealthy {
      forall c | c in m ensures Healthy(m[c]) {
        var j :| 0 <= j < |names| && names[j] == c;
      }
    }
    assert m != map[];
  }

  // ---------- what one writer does to the map ----------

  datatype Change = Put(cluster: string, value: ClusterState) | Remove(cluster: string)

  function Changed(m: ClusterStates, c: Change): ClusterStates {
    match c
    case Put(cluster, value) => m[cluster := value]
    case Remove(cluster) => m - {cluster}
  }

  /** A write touches its own cluster's key only: a put leaves its value there, a removal nothing. */
  lemma ChangeIsLocal(m: ClusterStates, c: Change, other: string)
    ensures other != c.cluster ==> (other in Changed(m, c) <==> other in m) && (other in m ==> Changed(m, c)[other] == m[other])
    ensures other == c.cluster && c.Put? ==> other in Changed(m, c) && Changed(m, c)[other] == c.value
    ensures other == c.cluster && c.Remove? ==> other !in Changed(m, c)
  {
  }

  // ---------- history ----------

  /** Everything that happens to Target objects, in commit order. */
  datatype Entry =
    | Created(target: string)
    | Deleted(target: string)
    | Touched(target: string)   // metadata or spec written by somebody else
    | Wrote(target: string, writer: nat, change: Change)

  /** The cluster states of t after a history: the fold of its committed writes. */
  function Folded(log: seq<Entry>, t: string): Option<ClusterStates> {
    if log == [] then None
    else
      var k := |log| - 1;
      var before := Folded(log[..k], t);
      if log[k].target != t then before
      else match log[k]
        case Created(_) => Some(map[])
        case Deleted(_) => None
        case Touched(_) => before
        case Wrote(_, _, change) => match before case None => None case Some(m) => Some(Changed(m, change))
  }

  /** How often the object t has been changed. */
  function Changes(log: seq<Entry>, t: string): nat {
    if log == [] then 0
    else Changes(log[..|log| - 1], t) + if log[|log| - 1].target == t then 1 else 0
  }

  function WritesBy(log: seq<Entry>, w: nat): nat {
    if log == [] then 0
    else
      var e := log[|log| - 1];
      WritesBy(log[..|log| - 1], w) + if e.Wrote? && e.writer == w then 1 else 0
  }

  lemma Appended(log: seq<Entry>, e: Entry, t: string, w: nat)
    ensures (log + [e])[..|log + [e]| - 1] == log
    ensures Changes(log + [e], t) == Changes(log, t) + if e.target == t then 1 else 0
    ensures WritesBy(log + [e], w) == WritesBy(log, w) + if e.Wrote? && e.writer == w then 1 else 0
    ensures e.target != t ==> Folded(log + [e], t) == Folded(log, t)
  {
  }

  /** What an entry makes of its target's cluster states. */
  lemma FoldedLast(log: seq<Entry>, e: Entry)
    ensures e.Created? ==> Folded(log + [e], e.target) == Some(map[])
    ensures e.Deleted? ==> Folded(log + [e], e.target) == None
    ensures e.Touched? ==> Folded(log + [e], e.target) == Folded(log, e.target)
    ensures e.Wrote? && Folded(log, e.target).Some? ==>
              Folded(log + [e], e.target) == Some(Changed(Folded(log, e.target).value, e.change))
  {
    assert (log + [e])[..|log|] == log;
  }

  /** An object as the API server stores it. */
  datatype Object = Object(version: nat, status: Status)

  /** The store and the history agree: every status is the fold of the committed
      writes, its summary is up to date, and versions never run ahead. */
  ghost predicate Agree(store: map<string, Object>, revision: nat, log: seq<Entry>) {
    && (forall t :: t in store <==> Folded(log, t).Some?)
    && (forall t :: t in store ==>
          store[t].version <= revision && Summarized(store[t].status) &&
          store[t].status.clusterStates == Folded(log, t).value)
  }

  lemma AgreeAfter(store: map<string, Object>, revision: nat, log: seq<Entry>, e: Entry, stored: Option<Object>)
    requires Agree(store, revision, log)
    requires match stored
             case None => Folded(log + [e], e.target) == None
             case Some(o) => o.version <= revision + 1 && Summarized(o.status) && Folded(log + [e], e.target) == Some(o.status.clusterStates)
    ensures Agree(match stored case None => store - {e.target} case Some(o) => store[e.target := o], revision + 1, log + [e])
  {
    var store' := match stored case None => store - {e.target} case Some(o) => store[e.target := o];
    forall t ensures t in store' <==> Folded(log + [e], t).Some? { Appended(log, e, t, 0); }
    forall t | t in store'
      ensures store'[t].version <= revision + 1 && Summarized(store'[t].status)
      ensures store'[t].status.clusterStates == Folded(log + [e], t).value
    {
      Appended(log, e, t, 0);
    }
  }
}
