/** The table of SSE streams: Reconcile, stopStreamsForCluster and streamKey in
    internal/controller/targetstate_controller.go. */
module Streams {
  import opened Ordering
  import opened Placement
  import opened PlacementTheorems
  import opened PodNames

  predicate SlashFree(s: string) { '/' !in s }

  function Prefix(ns: string, cluster: string): string {
    ns + "/" + cluster + "/"
  }

  function StreamKey(ns: string, cluster: string, podIndex: nat): string {
    Prefix(ns, cluster) + Itoa(podIndex)
  }

  // ---------- keys ----------

  function FirstSlash(s: string): nat {
    if s == "" || s[0] == '/' then 0 else 1 + FirstSlash(s[1..])
  }

  lemma {:induction false} FirstSlashAfter(a: string, x: string)
    requires SlashFree(a)
    ensures FirstSlash(a + "/" + x) == |a|
  {
    var s := a + "/" + x;
    if a == "" {
      assert s[0] == '/';
    } else {
      assert s[0] == a[0] && s[1..] == a[1..] + "/" + x;
      FirstSlashAfter(a[1..], x);
    }
  }

  /** The text before the first slash is determined by the whole. */
  lemma SplitAtSlash(a: string, b: string, x: string, y: string)
    requires SlashFree(a) && SlashFree(b) && a + "/" + x == b + "/" + y
    ensures a == b && x == y
  {
    var s := a + "/" + x;
    FirstSlashAfter(a, x);
    FirstSlashAfter(b, y);
    assert a == s[..|a|] == b && x == s[|a| + 1..] == y;
  }

  /** The prefix test is exact: it finds the cluster's own keys and no others. */
  lemma PrefixIsExact(ns: string, cluster: string, ns': string, cluster': string, i: nat)
    requires SlashFree(ns) && SlashFree(cluster) && SlashFree(ns') && SlashFree(cluster')
    ensures Prefix(ns, cluster) <= StreamKey(ns', cluster', i) <==> ns == ns' && cluster == cluster'
  {
    var p, key := Prefix(ns, cluster), StreamKey(ns', cluster', i);
    if p <= key {
      var rest := key[|p|..];
      assert key == p + rest;
      assert ns + "/" + (cluster + "/" + rest) == key;
      assert ns' + "/" + (cluster' + "/" + Itoa(i)) == key;
      SplitAtSlash(ns, ns', cluster + "/" + rest, cluster' + "/" + Itoa(i));
      SplitAtSlash(cluster, cluster', rest, Itoa(i));
    }
  }

  /** Different pods have different keys. */
  lemma KeysAreInjective(ns: string, cluster: string, i: nat, ns': string, cluster': string, j: nat)
    requires SlashFree(ns) && SlashFree(cluster) && SlashFree(ns') && SlashFree(cluster')
    requires StreamKey(ns, cluster, i) == StreamKey(ns', cluster', j)
    ensures ns == ns' && cluster == cluster' && i == j
  {
    PrefixIsExact(ns, cluster, ns', cluster', j);
    var p := Prefix(ns, cluster);
    assert StreamKey(ns, cluster, i)[|p|..] == Itoa(i) && StreamKey(ns', cluster', j)[|p|..] == Itoa(j);
    DigitsOfItoa(i);
    DigitsOfItoa(j);
  }

  /** What follows the prefix reads back as the pod's index. */
  lemma KeyNamesPod(ns: string, cluster: string, i: nat)
    requires i <= MAX_INT
    ensures var key, n := StreamKey(ns, cluster, i), |ns| + |cluster| + 2;
            |key| > n && key[..n] == ns + "/" + cluster + "/" && Atoi(key[n..]) == Some(i)
  {
    AtoiOfItoa(i);
    assert StreamKey(ns, cluster, i)[|ns| + |cluster| + 2..] == Itoa(i);
  }

  /** For any names at all, slashes or not, the test finds the keys of another cluster
      exactly when the one's prefix begins the other's. */
  lemma PrefixFindsExactly(ns: string, cluster: string, ns': string, cluster': string, i: nat)
    ensures Prefix(ns, cluster) <= StreamKey(ns', cluster', i) <==> Prefix(ns, cluster) <= Prefix(ns', cluster')
  {
    var p, q, key := Prefix(ns, cluster), Prefix(ns', cluster'), StreamKey(ns', cluster', i);
    assert p[|p| - 1] == '/' && key[..|q|] == q;
    assert forall k :: |q| <= k < |key| ==> key[k] == Itoa(i)[k - |q|] && key[k] != '/';
  }

  // ---------- what the reconciler finds ----------

  datatype StatefulSet = StsPresent | StsNotFound | StsError

  datatype ClusterView = ClusterNotFound | ClusterError | ClusterFound(replicas: Option<int>, sts: StatefulSet)

  ghost predicate OwnKey(ns: string, cluster: string, key: string) {
    Prefix(ns, cluster) <= key
  }

  /** The keys a cluster of n pods has. */
  ghost function PodKeys(ns: string, cluster: string, n: int): set<string> {
    set i: nat | i < n :: StreamKey(ns, cluster, i)
  }

  /** Outside the cluster's own keys the two tables are the same. */
  ghost predicate OthersKept(ns: string, cluster: string, before: map<string, nat>, after: map<string, nat>) {
    forall key :: !OwnKey(ns, cluster, key) ==>
      (key in after <==> key in before) && (key in before ==> after[key] == before[key])
  }

  /** Every stream of the cluster has been started since context number n. */
  ghost predicate StartedSince(ns: string, cluster: string, streams: map<string, nat>, n: nat) {
    forall key :: key in streams && OwnKey(ns, cluster, key) ==> streams[key] >= n
  }

  /** What has been added runs in contexts from number n on. */
  ghost predicate OnlyNew(before: set<nat>, after: set<nat>, n: nat) {
    before <= after && forall c :: c in after ==> c in before || c >= n
  }

  /** No stream that the cluster had before is still running. */
  ghost predicate NoneLeft(ns: string, cluster: string, before: map<string, nat>, live: set<nat>) {
    forall key :: key in before && OwnKey(ns, cluster, key) ==> before[key] !in live
  }

  class TargetStateReconciler {
    /** The cancel function of each running stream, as a context id. */
    var streams: map<string, nat>
    /** The contexts that have not been cancelled. */
    var live: set<nat>
    var next: nat

    /** The uncancelled contexts are exactly the ones in the table, one key each. */
    ghost predicate Valid()
      reads this
    {
      && live == streams.Values
      && (forall k, l :: k in streams && l in streams && k != l ==> streams[k] != streams[l])
      && (forall c :: c in live ==> c < next)
    }

    constructor ()
      ensures Valid() && streams == map[] && live == {}
    {
      streams, live, next := map[], {}, 0;
    }

    /** Cancels a stream and removes it from the table. */
    method CancelStream(key: string)
      requires Valid() && key in streams
      modifies this`streams, this`live
      ensures Valid() && streams == old(streams) - {key} && live == old(live) - {old(streams)[key]}
    {
      DropOne(streams, key);
      live := live - {streams[key]};
      streams := streams - {key};
    }

    method StopStreamsForCluster(ns: string, cluster: string)
      requires Valid()
      modifies this`streams, this`live
      ensures Valid() && OthersKept(ns, cluster, old(streams), streams)
      ensures forall key :: key in streams ==> !OwnKey(ns, cluster, key)
      ensures NoneLeft(ns, cluster, old(streams), live)
    {
      var prefix := ns + "/" + cluster + "/";
      var keys := Enumerate(streams.Keys);
      for k := 0 to |keys|
        invariant Valid() && OthersKept(ns, cluster, old(streams), streams) && streams.Keys <= old(streams).Keys
        invariant forall j :: k <= j < |keys| ==> keys[j] in streams
        invariant forall j :: 0 <= j < k ==> keys[j] in streams ==> !OwnKey(ns, cluster, keys[j])
      {
        var key := keys[k];
        if prefix <= key {
          CancelStream(key);
        }
      }
      assert forall key :: key in streams ==> key in keys;
      StoppedContexts(ns, cluster, old(streams), streams);
    }

    /** Starts one stream in a context of its own. */
    method StartStream(key: string)
      requires Valid() && key !in streams
      modifies this
      ensures Valid() && streams == old(streams)[key := old(next)]
      ensures live == old(live) + {old(next)} && next == old(next) + 1
    {
      AddOne(streams, key, next);
      streams := streams[key := next];
      live := live + {next};
      next := next + 1;
    }

    /** The loop that starts one stream per pod. */
    method StartStreams(ns: string, cluster: string, desiredPods: int)
      requires Valid() && forall key :: key in streams ==> !OwnKey(ns, cluster, key)
      modifies this
      ensures Valid() && OthersKept(ns, cluster, old(streams), streams)
      ensures streams.Keys == old(streams).Keys + PodKeys(ns, cluster, desiredPods)
      ensures StartedSince(ns, cluster, streams, old(next)) && OnlyNew(old(live), live, old(next))
    {
      var i: nat := 0;
      while i < desiredPods
        invariant i <= (if desiredPods < 0 then 0 else desiredPods)
        invariant Valid() && OthersKept(ns, cluster, old(streams), streams)
        invariant streams.Keys == old(streams).Keys + PodKeys(ns, cluster, i)
        invariant StartedSince(ns, cluster, streams, old(next)) && old(next) <= next
        invariant OnlyNew(old(live), live, old(next))
      {
        var key := StreamKey(ns, cluster, i);
        FreshKey(ns, cluster, i, old(streams).Keys);
        StartStream(key);
        OneMorePodKey(ns, cluster, i);
        i := i + 1;
      }
      assert desiredPods < 0 ==> PodKeys(ns, cluster, desiredPods) == PodKeys(ns, cluster, 0);
    }

    /** The stream table's part of Reconcile. */
    method Reconcile(ns: string, cluster: string, view: ClusterView)
      requires Valid()
      modifies this
      ensures Valid() && OthersKept(ns, cluster, old(streams), streams)
      ensures view.ClusterError? || (view.ClusterFound? && view.replicas.Some? && view.replicas.value != 0 && view.sts.StsError?) ==>
                streams == old(streams)
      ensures view.ClusterNotFound? || (view.ClusterFound? && (view.replicas.None? || view.replicas.value == 0 || view.sts.StsNotFound?)) ==>
                forall key :: key in streams ==> !OwnKey(ns, cluster, key)
      ensures view.ClusterFound? && view.replicas.Some? && view.replicas.value != 0 && view.sts.StsPresent? ==>
                forall key :: OwnKey(ns, cluster, key) ==> (key in streams <==> key in PodKeys(ns, cluster, view.replicas.value))
      ensures view.ClusterFound? && view.replicas.Some? && view.replicas.value != 0 && view.sts.StsPresent? ==>
                StartedSince(ns, cluster, streams, old(next))
      ensures view.ClusterNotFound? ||
              (view.ClusterFound? && (view.replicas.None? || view.replicas.value == 0 || !view.sts.StsError?)) ==>
                NoneLeft(ns, cluster, old(streams), live)
    {
      if view.ClusterNotFound? {
        StopStreamsForCluster(ns, cluster);
        return;
      }
      if view.ClusterError? {
        return;
      }
      if view.replicas.None? || view.replicas.value == 0 {
        StopStreamsForCluster(ns, cluster);
        return;
      }
      match view.sts
      case StsNotFound =>
        StopStreamsForCluster(ns, cluster);
      case StsError =>
      case StsPresent =>
        ghost var before := streams;
        StopStreamsForCluster(ns, cluster);
        StartStreams(ns, cluster, view.replicas.value);
        assert forall key :: key in before ==> before[key] in old(live) && before[key] < old(next);
    }
  }

  /** Dropping the cluster's keys cancels their contexts, since each context has one key. */
  lemma StoppedContexts(ns: string, cluster: string, before: map<string, nat>, after: map<string, nat>)
    requires forall k, l :: k in before && l in before && k != l ==> before[k] != before[l]
    requires OthersKept(ns, cluster, before, after) && forall key :: key in after ==> !OwnKey(ns, cluster, key)
    ensures NoneLeft(ns, cluster, before, after.Values)
  {
    forall key, k | key in before && OwnKey(ns, cluster, key) && k in after ensures after[k] != before[key] {
      assert k in before && k != key;
    }
  }

  lemma OneMorePodKey(ns: string, cluster: string, i: nat)
    ensures PodKeys(ns, cluster, i + 1) == PodKeys(ns, cluster, i) + {StreamKey(ns, cluster, i)}
  {
  }

  lemma DropOne(streams: map<string, nat>, key: string)
    requires key in streams
    requires forall k, l :: k in streams && l in streams && k != l ==> streams[k] != streams[l]
    ensures (streams - {key}).Values == streams.Values - {streams[key]}
  {
    var rest := streams - {key};
    forall c | c in streams.Values - {streams[key]} ensures c in rest.Values {
      var k :| k in streams && streams[k] == c;
      assert k in rest && rest[k] == c;
    }
  }

  lemma AddOne(streams: map<string, nat>, key: string, c: nat)
    requires key !in streams
    ensures streams[key := c].Values == streams.Values + {c}
  {
    var more := streams[key := c];
    assert key in more && more[key] == c;
    forall d | d in streams.Values ensures d in more.Values {
      var k :| k in streams && streams[k] == d;
      assert k in more && more[k] == d;
    }
  }

  lemma FreshKey(ns: string, cluster: string, i: nat, others: set<string>)
    requires forall key :: key in others ==> !OwnKey(ns, cluster, key)
    ensures OwnKey(ns, cluster, StreamKey(ns, cluster, i))
    ensures StreamKey(ns, cluster, i) !in others + PodKeys(ns, cluster, i)
  {
    var p, key := Prefix(ns, cluster), StreamKey(ns, cluster, i);
    assert key[..|p|] == p;
    forall j: nat | j < i ensures StreamKey(ns, cluster, j) != key {
      assert StreamKey(ns, cluster, j)[|p|..] == Itoa(j) && key[|p|..] == Itoa(i);
      DigitsOfItoa(i);
      DigitsOfItoa(j);
    }
  }

  /** After a successful reconcile a stream runs for exactly the desired pods of the
      cluster, and whatever ran for the pods of another cluster still does. */
  lemma TableMeansPods(ns: string, cluster: string, n: int, before: map<string, nat>, after: map<string, nat>,
                       ns': string, cluster': string, i: nat)
    requires SlashFree(ns) && SlashFree(cluster) && SlashFree(ns') && SlashFree(cluster')
    requires OthersKept(ns, cluster, before, after)
    requires forall key :: OwnKey(ns, cluster, key) ==> (key in after <==> key in PodKeys(ns, cluster, n))
    ensures StreamKey(ns, cluster, i) in after <==> i < n
    ensures ns != ns' || cluster != cluster' ==>
              var key := StreamKey(ns', cluster', i);
              (key in after <==> key in before) && (key in before ==> after[key] == before[key])
  {
    PrefixIsExact(ns, cluster, ns, cluster, i);
    PrefixIsExact(ns, cluster, ns', cluster', i);
    if StreamKey(ns, cluster, i) in PodKeys(ns, cluster, n) {
      var j: nat :| j < n && StreamKey(ns, cluster, j) == StreamKey(ns, cluster, i);
      KeysAreInjective(ns, cluster, i, ns, cluster, j);
    }
  }
}
