/** The API server under the status writers: a versioned store, and with it every
    earlier store, since the reconciler reads through a cache that may lag behind
    (the manager's client, internal/controller/targetstate_controller.go and cmd/main.go). */
module StatusServer {
  import opened Ordering
  import opened Placement
  import opened TargetStatus

  type Store = map<string, Object>

  /** past[k] is the store after the first k entries of the log; the last one is current.
      The version of an object is the length of the log right after its last change. */
  datatype Data = Data(past: seq<Store>, log: seq<Entry>)

  const EMPTY := Data([map[]], [])

  function At(d: Data, k: nat): Store {
    if k < |d.past| then d.past[k] else map[]
  }

  function Now(d: Data): Store { At(d, |d.log|) }

  function Stored(store: Store, t: string, o: Option<Object>): Store {
    match o case None => store - {t} case Some(v) => store[t := v]
  }

  function Commit(d: Data, e: Entry, o: Option<Object>): Data {
    Data(d.past + [Stored(Now(d), e.target, o)], d.log + [e])
  }

  // ---------- the invariant ----------

  ghost predicate ChangedBetween(log: seq<Entry>, t: string, a: nat, b: nat) {
    exists j :: a <= j < b && j < |log| && log[j].target == t
  }

  /** What has become of an object seen at moment k: it is still the same, or it has been
      changed since and then carries a later version, or it is gone. */
  ghost predicate Since(d: Data, k: nat, t: string)
    requires t in At(d, k)
  {
    && (!ChangedBetween(d.log, t, k, |d.log|) ==> t in Now(d) && Now(d)[t] == At(d, k)[t])
    && (t in Now(d) && Now(d)[t] != At(d, k)[t] ==> Now(d)[t].version > k)
  }

  /** Each store agrees with the history up to its moment. */
  ghost predicate Sound(d: Data) {
    && |d.past| == |d.log| + 1
    && (forall k :: 0 <= k <= |d.log| ==> Agree(At(d, k), k, d.log[..k]))
    && (forall k: nat, t :: k <= |d.log| && t in At(d, k) ==> Since(d, k, t))
  }

  lemma EmptyIsSound()
    ensures Sound(EMPTY)
  {
  }

  /** What an entry stores fits the entry. */
  ghost predicate Fits(d: Data, e: Entry, o: Option<Object>) {
    match o
    case None => Folded(d.log + [e], e.target) == None
    case Some(v) => v.version == |d.log| + 1 && Summarized(v.status) && Folded(d.log + [e], e.target) == Some(v.status.clusterStates)
  }

  lemma PastStays(d: Data, e: Entry, o: Option<Object>)
    requires |d.past| == |d.log| + 1
    ensures var d' := Commit(d, e, o);
            && |d'.past| == |d'.log| + 1 == |d.log| + 2
            && (forall k :: 0 <= k <= |d.log| ==> At(d', k) == At(d, k) && d'.log[..k] == d.log[..k])
            && Now(d') == Stored(Now(d), e.target, o)
  {
  }

  lemma SinceStays(d: Data, e: Entry, o: Option<Object>, k: nat, t: string)
    requires Sound(d) && Fits(d, e, o) && k <= |d.log| && t in At(d, k)
    ensures At(Commit(d, e, o), k) == At(d, k) && Since(Commit(d, e, o), k, t)
  {
    var d' := Commit(d, e, o);
    PastStays(d, e, o);
    assert Since(d, k, t);
    if e.target == t {
      assert d'.log[|d.log|] == e;
    } else if ChangedBetween(d.log, t, k, |d.log|) {
      var j :| k <= j < |d.log| && d.log[j].target == t;
      assert d'.log[j].target == t;
    }
  }

  lemma CommitSound(d: Data, e: Entry, o: Option<Object>)
    requires Sound(d) && Fits(d, e, o)
    ensures Sound(Commit(d, e, o))
  {
    var d' := Commit(d, e, o);
    var n := |d.log|;
    PastStays(d, e, o);
    assert d.log[..n] == d.log && d'.log[..n + 1] == d'.log;
    AgreeAfter(At(d, n), n, d.log, e, o);
    forall k | 0 <= k <= n + 1 ensures Agree(At(d', k), k, d'.log[..k]) {
      if k <= n { assert Agree(At(d, k), k, d.log[..k]); }
    }
    forall k: nat, t | k <= n + 1 && t in At(d', k) ensures Since(d', k, t) {
      if k <= n { SinceStays(d, e, o, k, t); }
    }
  }

  /** Equal versions mean equal objects: the check that an update makes is exact. */
  lemma SameVersionIsSame(d: Data, k: nat, t: string)
    requires Sound(d) && k <= |d.log| && t in At(d, k) && t in Now(d)
    ensures Now(d)[t].version == At(d, k)[t].version <==> Now(d)[t] == At(d, k)[t]
    ensures Now(d)[t].version != At(d, k)[t].version ==>
              At(d, k)[t].version < Now(d)[t].version && ChangedBetween(d.log, t, k, |d.log|)
  {
    assert Since(d, k, t);
    assert Agree(At(d, k), k, d.log[..k]);
  }

  lemma NowIsFolded(d: Data, t: string)
    requires Sound(d)
    ensures t in Now(d) <==> Folded(d.log, t).Some?
    ensures t in Now(d) ==> Folded(d.log, t) == Some(Now(d)[t].status.clusterStates) && Summarized(Now(d)[t].status)
  {
    assert Agree(At(d, |d.log|), |d.log|, d.log[..|d.log|]);
    assert d.log[..|d.log|] == d.log;
  }

  lemma SeenIsFolded(d: Data, k: nat, t: string)
    requires Sound(d) && k <= |d.log| && t in At(d, k)
    ensures Folded(d.log[..k], t) == Some(At(d, k)[t].status.clusterStates)
  {
    assert Agree(At(d, k), k, d.log[..k]);
  }

  // ---------- refused updates ----------

  /** An update refused at moment `when`, of a copy that shows the object at moment `seen`. */
  datatype Refusal = Refusal(seen: nat, when: nat)

  /** The copy was older than the store: the object had been changed in between. */
  ghost predicate Stale(d: Data, t: string, r: Refusal) {
    && r.seen < r.when <= |d.log|
    && t in At(d, r.seen) && t in At(d, r.when) && At(d, r.seen)[t].version < At(d, r.when)[t].version
    && ChangedBetween(d.log, t, r.seen, r.when)
  }

  ghost predicate AllStale(d: Data, t: string, refused: seq<Refusal>) {
    forall i :: 0 <= i < |refused| ==> Stale(d, t, refused[i])
  }

  lemma StaleStays(d: Data, e: Entry, o: Option<Object>, t: string, refused: seq<Refusal>)
    requires Sound(d) && AllStale(d, t, refused)
    ensures AllStale(Commit(d, e, o), t, refused)
  {
    PastStays(d, e, o);
    forall i | 0 <= i < |refused| ensures Stale(Commit(d, e, o), t, refused[i]) {
      var r := refused[i];
      assert Stale(d, t, r);
      var j :| r.seen <= j < r.when && j < |d.log| && d.log[j].target == t;
      assert Commit(d, e, o).log[j].target == t;
    }
  }

  lemma RefusalIsStale(d: Data, t: string, seen: nat)
    requires Sound(d) && seen <= |d.log| && t in At(d, seen) && t in Now(d)
    requires Now(d)[t].version != At(d, seen)[t].version
    ensures Stale(d, t, Refusal(seen, |d.log|))
  {
    SameVersionIsSame(d, seen, t);
  }

  /** No copy was older than the attempt before it, or than the start. */
  predicate UpToDate(refused: seq<Refusal>, started: nat) {
    forall i :: 0 <= i < |refused| ==> refused[i].seen >= LastAttempt(refused[..i], started)
  }

  function LastAttempt(refused: seq<Refusal>, started: nat): nat {
    if refused == [] then started else refused[|refused| - 1].when
  }

  lemma ChangesSplit(log: seq<Entry>, t: string, a: nat, b: nat)
    requires a <= b <= |log|
    ensures Changes(log[..a], t) <= Changes(log[..b], t)
    ensures ChangedBetween(log, t, a, b) ==> Changes(log[..a], t) < Changes(log[..b], t)
    decreases b
  {
    if a < b {
      assert log[..b][..b - 1] == log[..b - 1];
      ChangesSplit(log, t, a, b - 1);
      if ChangedBetween(log, t, a, b) && log[b - 1].target != t {
        var j :| a <= j < b && j < |log| && log[j].target == t;
        assert j < b - 1;
      }
    }
  }

  /** With reads that are up to date, each refusal is a change of its own. */
  lemma {:induction false} RefusalsAreChanges(d: Data, t: string, refused: seq<Refusal>, started: nat)
    requires AllStale(d, t, refused) && UpToDate(refused, started) && started <= |d.log|
    ensures var end := LastAttempt(refused, started);
            started <= end <= |d.log| && Changes(d.log[..end], t) >= Changes(d.log[..started], t) + |refused|
  {
    if refused != [] {
      var k := |refused| - 1;
      var r := refused[k];
      var end := LastAttempt(refused[..k], started);
      assert forall i :: 0 <= i < k ==> refused[..k][..i] == refused[..i];
      RefusalsAreChanges(d, t, refused[..k], started);
      assert Stale(d, t, r);
      ChangesSplit(d.log, t, end, r.seen);
      ChangesSplit(d.log, t, r.seen, r.when);
    }
  }
}
