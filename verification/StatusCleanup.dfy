/** Whose entry a cleanup removes.

    pollAndSync and removeStalePodsFromTargets look at the pod of an entry in the listing
    and never again, so what a retry removes may have been put there by another pod. */
module StatusCleanup {
  import opened Ordering
  import opened Placement
  import opened TargetStatus
  import opened StatusServer
  import opened StatusWriters

  // ---------- runs continued ----------

  ghost function Continue(s: State, actions: seq<Action>): State
    decreases actions
  {
    if actions == [] then s else Continue(Step(s, actions[0]), actions[1..])
  }

  lemma {:induction false} ContinueRun(actions: seq<Action>, more: seq<Action>)
    ensures Run(actions + more) == Continue(Run(actions), more)
    decreases more
  {
    if more == [] {
      assert actions + more == actions;
    } else {
      assert actions + more == (actions + [more[0]]) + more[1..];
      assert (actions + [more[0]])[..|actions|] == actions;
      ContinueRun(actions + [more[0]], more[1..]);
    }
  }

  /** The history only grows, and a writer keeps its target, its change and the pod it listed. */
  ghost predicate Later(s: State, s': State) {
    && |s.data.log| <= |s'.data.log| && s'.data.log[..|s.data.log|] == s.data.log
    && (forall id :: id in s.writers ==>
          id in s'.writers && s'.writers[id].target == s.writers[id].target &&
          s'.writers[id].change == s.writers[id].change && s'.writers[id].listedPod == s.writers[id].listedPod)
  }

  lemma CommitIsLater(s: State, e: Entry, o: Option<Object>)
    ensures Later(s, DoCommit(s, e, o))
  {
  }

  lemma UpdateIsLater(s: State, id: nat)
    requires id in s.writers && s.writers[id].phase.Holding?
    ensures Later(s, DoUpdate(s, id, s.writers[id]))
  {
    var w := s.writers[id];
    CommitIsLater(s, WriteEntry(id, w), Some(Written(s, w)));
  }

  lemma StepIsLater(s: State, a: Action)
    ensures Later(s, Step(s, a))
  {
    match a
    case Create(t) => CommitIsLater(s, Created(t), Some(Object(|s.data.log| + 1, EMPTY_STATUS)));
    case Delete(t) => CommitIsLater(s, Deleted(t), None);
    case Touch(t) => if t in Now(s.data) { CommitIsLater(s, Touched(t), Some(Object(|s.data.log| + 1, Now(s.data)[t].status))); }
    case Update(id) => if id in s.writers && s.writers[id].phase.Holding? { UpdateIsLater(s, id); }
    case _ =>
  }

  lemma {:induction false} ContinueIsLater(s: State, actions: seq<Action>)
    ensures Later(s, Continue(s, actions))
    decreases actions
  {
    if actions != [] {
      var s1 := Step(s, actions[0]);
      StepIsLater(s, actions[0]);
      ContinueIsLater(s1, actions[1..]);
      var n := |s.data.log|;
      assert Continue(s, actions).data.log[..n] == Continue(s, actions).data.log[..|s1.data.log|][..n];
    }
  }

  // ---------- what the history says about one entry ----------

  /** The entry decides what t's status says about cluster c. */
  predicate Decides(e: Entry, t: string, c: string) {
    e.target == t && (e.Created? || e.Deleted? || (e.Wrote? && e.change.cluster == c))
  }

  predicate PutsForeign(e: Entry, t: string, c: string, pod: string) {
    e.Wrote? && e.target == t && e.change.Put? && e.change.cluster == c && e.change.value.pod != pod
  }

  /** Since moment k another pod has put its entry for c, and nothing has overridden it. */
  ghost predicate TakenOver(log: seq<Entry>, k: nat, t: string, c: string, pod: string) {
    exists j :: k <= j < |log| && PutsForeign(log[j], t, c, pod) && forall m :: j < m < |log| ==> !Decides(log[m], t, c)
  }

  /** The status says that cluster c has the target on another pod. */
  ghost predicate Foreign(log: seq<Entry>, t: string, c: string, pod: string) {
    Folded(log, t).Some? && c in Folded(log, t).value && Folded(log, t).value[c].pod != pod
  }

  lemma TakenOverOneMore(log: seq<Entry>, e: Entry, k: nat, t: string, c: string, pod: string)
    requires k <= |log|
    ensures TakenOver(log + [e], k, t, c, pod) <==> PutsForeign(e, t, c, pod) || (!Decides(e, t, c) && TakenOver(log, k, t, c, pod))
  {
    var all := log + [e];
    assert all[|log|] == e && forall m :: 0 <= m < |log| ==> all[m] == log[m];
    if TakenOver(all, k, t, c, pod) {
      var j :| k <= j < |all| && PutsForeign(all[j], t, c, pod) && forall m :: j < m < |all| ==> !Decides(all[m], t, c);
      if j < |log| {
        assert !Decides(all[|log|], t, c);
        assert forall m :: j < m < |log| ==> !Decides(log[m], t, c) by {
          forall m | j < m < |log| ensures !Decides(log[m], t, c) { assert !Decides(all[m], t, c); }
        }
      }
    }
    if PutsForeign(e, t, c, pod) {
      assert PutsForeign(all[|log|], t, c, pod);
    } else if !Decides(e, t, c) && TakenOver(log, k, t, c, pod) {
      var j :| k <= j < |log| && PutsForeign(log[j], t, c, pod) && forall m :: j < m < |log| ==> !Decides(log[m], t, c);
      assert PutsForeign(all[j], t, c, pod) && forall m :: j < m < |all| ==> !Decides(all[m], t, c);
    }
  }

  lemma ForeignOneMore(log: seq<Entry>, e: Entry, t: string, c: string, pod: string)
    requires Folded(log + [e], t).Some?
    ensures Foreign(log + [e], t, c, pod) <==> PutsForeign(e, t, c, pod) || (!Decides(e, t, c) && Foreign(log, t, c, pod))
    ensures Folded(log, t).Some? || Decides(e, t, c)
  {
    assert (log + [e])[..|log|] == log;
  }

  /** The condition on the history and the status it folds to are the same. */
  lemma {:induction false} ForeignMeansTakenOver(log: seq<Entry>, k: nat, t: string, c: string, pod: string)
    requires k <= |log| && !Foreign(log[..k], t, c, pod) && Folded(log, t).Some?
    ensures Foreign(log, t, c, pod) <==> TakenOver(log, k, t, c, pod)
  {
    if k == |log| {
      assert log[..k] == log;
    } else {
      var m := |log| - 1;
      var e := log[m];
      assert log == log[..m] + [e] && log[..m][..k] == log[..k];
      TakenOverOneMore(log[..m], e, k, t, c, pod);
      ForeignOneMore(log[..m], e, t, c, pod);
      if !Decides(e, t, c) { ForeignMeansTakenOver(log[..m], k, t, c, pod); }
    }
  }

  // ---------- the exact condition ----------

  /** The update that writer id is about to make goes through. */
  ghost predicate WillCommit(s: State, id: nat) {
    && id in s.writers && s.writers[id].phase.Holding?
    && s.writers[id].target in Now(s.data)
    && Now(s.data)[s.writers[id].target].version == s.writers[id].phase.copy.version
  }

  /** The state after such an update. */
  lemma CommittingStep(s: State, id: nat)
    requires WillCommit(s, id)
    ensures var w := s.writers[id];
            Step(s, Update(id)) == SetWriter(DoCommit(s, WriteEntry(id, w), Some(Written(s, w))), id, w.(phase := Finished(Committed)))
  {
  }

  lemma InvOfWriter(s: State, id: nat)
    requires Inv(s) && id in s.writers
    ensures Sound(s.data) && WriterOk(s, id, s.writers[id])
  {
  }

  lemma CommittedStore(s: State, id: nat)
    requires Inv(s) && WillCommit(s, id)
    ensures var w, r := s.writers[id], Step(s, Update(id));
            && w.phase.copy == Now(s.data)[w.target]
            && Now(r.data) == Now(s.data)[w.target := Written(s, w)] && |r.data.log| == |s.data.log| + 1
            && r.writers == s.writers[id := w.(phase := Finished(Committed))]
  {
    var w := s.writers[id];
    InvOfWriter(s, id);
    WriteFits(s, id, w);
    CommittingStep(s, id);
    NextStore(s.data, WriteEntry(id, w), Some(Written(s, w)));
  }

  lemma CleanupRemoves(s: State, id: nat, t: string, c: string)
    requires Inv(s) && WillCommit(s, id) && s.writers[id].target == t && s.writers[id].change == Remove(c)
    ensures var after := Now(Step(s, Update(id)).data);
            t in after && after[t].status.clusterStates == Now(s.data)[t].status.clusterStates - {c}
  {
    CommittedStore(s, id);
  }

  /** The stored status has the entry for c on another pod. */
  ghost predicate OnOtherPod(s: State, t: string, c: string, pod: string) {
    t in Now(s.data) && c in Now(s.data)[t].status.clusterStates && Now(s.data)[t].status.clusterStates[c].pod != pod
  }

  lemma OnOtherPodExactly(s0: State, s: State, t: string, c: string, seen: nat)
    requires Inv(s0) && Inv(s) && Lists(s0, t, c, seen) && t in Now(s.data)
    requires |s0.data.log| <= |s.data.log| && s.data.log[..|s0.data.log|] == s0.data.log
    ensures var pod := ListedPod(s0, t, c, seen);
            OnOtherPod(s, t, c, pod) <==> TakenOver(s.data.log, seen, t, c, pod)
  {
    assert s.data.log[..seen] == s.data.log[..|s0.data.log|][..seen] == s0.data.log[..seen];
    SeenIsFolded(s0.data, seen, t);
    NowIsFolded(s.data, t);
    ForeignMeansTakenOver(s.data.log, seen, t, c, ListedPod(s0, t, c, seen));
  }

  /** What follows the start of a cleanup. */
  lemma AfterStart(s0: State, i: nat, t: string, c: string, seen: nat, s: State)
    requires i !in s0.writers && Lists(s0, t, c, seen) && Later(Step(s0, StartCleanup(i, t, c, seen)), s)
    ensures |s0.data.log| <= |s.data.log| && s.data.log[..|s0.data.log|] == s0.data.log
    ensures i in s.writers && s.writers[i].target == t && s.writers[i].change == Remove(c)
    ensures s.writers[i].listedPod == Some(ListedPod(s0, t, c, seen))
  {
    assert i in Step(s0, StartCleanup(i, t, c, seen)).writers;
  }

  /** A cleanup lists target t with an entry for cluster c on some pod.  Whatever happens
      until its update goes through, at whichever attempt, what it removes is the entry of
      another pod if and only if another pod has put its entry since the moment the
      listing shows, and since then the object has not been created again and the entry
      not been written or removed. */
  lemma CleanupRemovesForeignExactly(before: seq<Action>, i: nat, t: string, c: string, seen: nat, more: seq<Action>)
    requires i !in Run(before).writers && Lists(Run(before), t, c, seen)
    requires WillCommit(Run(before + [StartCleanup(i, t, c, seen)] + more), i)
    ensures var pod := ListedPod(Run(before), t, c, seen);
            var s := Run(before + [StartCleanup(i, t, c, seen)] + more);
            OnOtherPod(s, t, c, pod) <==> TakenOver(s.data.log, seen, t, c, pod)
    ensures var s := Run(before + [StartCleanup(i, t, c, seen)] + more);
            var after := Now(Step(s, Update(i)).data);
            t in Now(s.data) && t in after && after[t].status.clusterStates == Now(s.data)[t].status.clusterStates - {c}
  {
    var start := before + [StartCleanup(i, t, c, seen)];
    assert start[..|start| - 1] == before;
    ContinueRun(start, more);
    ContinueIsLater(Run(start), more);
    RunKeeps(before);
    RunKeeps(start + more);
    AfterStart(Run(before), i, t, c, seen, Run(start + more));
    CleanupRemoves(Run(start + more), i, t, c);
    OnOtherPodExactly(Run(before), Run(start + more), t, c, seen);
  }

  /** A cleanup that goes through at the first attempt removes the entry it was meant to. */
  lemma FirstAttemptRemovesOwn(actions: seq<Action>, id: nat)
    requires WillCommit(Run(actions), id)
    requires Run(actions).writers[id].listedPod.Some? && Run(actions).writers[id].refused == []
    ensures var s := Run(actions);
            var w := s.writers[id];
            var before := Now(s.data)[w.target].status.clusterStates;
            w.change.cluster in before && before[w.change.cluster].pod == w.listedPod.value
  {
    RunKeeps(actions);
    var s := Run(actions);
    assert WriterOk(s, id, s.writers[id]);
    SameVersionIsSame(s.data, s.writers[id].phase.seen, s.writers[id].target);
  }

  // ---------- a run in which it happens ----------

  /** Cleanup i lists the entry for c; writer j puts a new one; i then updates, conflicts,
      reads again and updates again.  n is the moment at which this starts. */
  function Takeover(t: string, c: string, i: nat, j: nat, v: ClusterState, n: nat): seq<Action> {
    [StartCleanup(i, t, c, n), StartWrite(j, t, Put(c, v)), Read(j, n), Update(j), Update(i), Read(i, n + 1), Update(i)]
  }

  lemma PutCommits(s: State, t: string, c: string, i: nat, j: nat, v: ClusterState) returns (r: State)
    requires Inv(s) && t in Now(s.data) && i in s.writers && i != j && j !in s.writers
    ensures r == Step(Step(Step(s, StartWrite(j, t, Put(c, v))), Read(j, |s.data.log|)), Update(j))
    ensures Inv(r) && i in r.writers && r.writers[i] == s.writers[i]
    ensures |r.data.log| == |s.data.log| + 1 && t in Now(r.data) && Now(r.data)[t].version == |s.data.log| + 1
    ensures Now(r.data)[t].status.clusterStates == Now(s.data)[t].status.clusterStates[c := v]
  {
    var a := Step(s, StartWrite(j, t, Put(c, v)));
    var b := Step(a, Read(j, |s.data.log|));
    StepKeeps(s, StartWrite(j, t, Put(c, v)));
    StepKeeps(a, Read(j, |s.data.log|));
    assert b.data == s.data && b.writers[i] == s.writers[i];
    r := UpdateCommits(b, t, j);
  }

  lemma UpdateCommits(s: State, t: string, j: nat) returns (r: State)
    requires Inv(s) && WillCommit(s, j) && s.writers[j].target == t && s.writers[j].phase.copy == Now(s.data)[t]
    ensures r == Step(s, Update(j)) && Inv(r)
    ensures r.writers == s.writers[j := s.writers[j].(phase := Finished(Committed))]
    ensures |r.data.log| == |s.data.log| + 1 && t in Now(r.data) && Now(r.data)[t].version == |s.data.log| + 1
    ensures Now(r.data)[t].status.clusterStates == Changed(Now(s.data)[t].status.clusterStates, s.writers[j].change)
  {
    r := Step(s, Update(j));
    StepKeeps(s, Update(j));
    CommittedStore(s, j);
  }

  lemma StaleThenFresh(s: State, t: string, c: string, i: nat) returns (r: State)
    requires Inv(s) && t in Now(s.data) && i in s.writers && s.writers[i].target == t && s.writers[i].change == Remove(c)
    requires s.writers[i].refused == [] && s.writers[i].phase.Holding? && s.writers[i].phase.copy.version != Now(s.data)[t].version
    ensures r == Step(Step(Step(s, Update(i)), Read(i, |s.data.log|)), Update(i))
    ensures t in Now(r.data) && Now(r.data)[t].status.clusterStates == Now(s.data)[t].status.clusterStates - {c}
  {
    var a := Step(s, Update(i));
    var b := Step(a, Read(i, |s.data.log|));
    r := Step(b, Update(i));
    ConflictThenRead(s, t, i);
    StepKeeps(s, Update(i));
    StepKeeps(a, Read(i, |s.data.log|));
    CleanupRemoves(b, i, t, c);
  }

  lemma ConflictThenRead(s: State, t: string, i: nat)
    requires t in Now(s.data) && i in s.writers && s.writers[i].target == t
    requires s.writers[i].refused == [] && s.writers[i].phase.Holding? && s.writers[i].phase.copy.version != Now(s.data)[t].version
    ensures var b := Step(Step(s, Update(i)), Read(i, |s.data.log|));
            b.data == s.data && i in b.writers && b.writers[i].target == t && b.writers[i].change == s.writers[i].change &&
            b.writers[i].phase == Holding(Now(s.data)[t], |s.data.log|)
  {
    var a := Step(s, Update(i));
    assert a.data == s.data && a.writers[i].phase == Reading;
  }

  /** From any reachable state in which a cleanup can start there is a run in which it
      removes an entry that another writer, for whatever pod, has put there since. */
  lemma CleanupCanRemoveForeignEntry(actions: seq<Action>, t: string, c: string, i: nat, j: nat, v: ClusterState)
    requires var s := Run(actions);
             Lists(s, t, c, |s.data.log|) && i !in s.writers && j !in s.writers && i != j
    ensures var n := |Run(actions).data.log|;
            var d := Run(actions + Takeover(t, c, i, j, v, n)[..4]).data;
            t in Now(d) && Now(d)[t].status.clusterStates == Now(Run(actions).data)[t].status.clusterStates[c := v]
    ensures var n := |Run(actions).data.log|;
            var d := Run(actions + Takeover(t, c, i, j, v, n)).data;
            t in Now(d) && c !in Now(d)[t].status.clusterStates
  {
    var s, n := Run(actions), |Run(actions).data.log|;
    var all := Takeover(t, c, i, j, v, n);
    RunKeeps(actions);
    var s4, s7 := TakeoverStates(s, t, c, i, j, v, n);
    ContinueRun(actions, all[..4]);
    ContinueRun(actions, all);
  }

  lemma CleanupStarts(s: State, t: string, c: string, i: nat)
    requires Inv(s) && Lists(s, t, c, |s.data.log|) && i !in s.writers
    ensures var r := Step(s, StartCleanup(i, t, c, |s.data.log|));
            && Inv(r) && r.data == s.data && t in Now(s.data) && Now(s.data)[t].version <= |s.data.log|
            && i in r.writers && (forall id :: id in r.writers <==> id in s.writers || id == i)
            && r.writers[i].target == t && r.writers[i].change == Remove(c) && r.writers[i].refused == []
            && r.writers[i].phase == Holding(Now(s.data)[t], |s.data.log|)
  {
    var n := |s.data.log|;
    StepKeeps(s, StartCleanup(i, t, c, n));
    assert Agree(At(s.data, n), n, s.data.log[..n]);
  }

  lemma TakeoverStates(s: State, t: string, c: string, i: nat, j: nat, v: ClusterState, n: nat) returns (s4: State, s7: State)
    requires Inv(s) && n == |s.data.log| && Lists(s, t, c, n) && i !in s.writers && j !in s.writers && i != j
    ensures s4 == Continue(s, Takeover(t, c, i, j, v, n)[..4]) && s7 == Continue(s, Takeover(t, c, i, j, v, n))
    ensures t in Now(s.data) && t in Now(s4.data)
    ensures Now(s4.data)[t].status.clusterStates == Now(s.data)[t].status.clusterStates[c := v]
    ensures t in Now(s7.data) && c !in Now(s7.data)[t].status.clusterStates
  {
    CleanupStarts(s, t, c, i);
    s4 := PutCommits(Step(s, StartCleanup(i, t, c, n)), t, c, i, j, v);
    s7 := StaleThenFresh(s4, t, c, i);
    TakeoverUnfolds(s, t, c, i, j, v, n);
  }

  lemma TakeoverUnfolds(s: State, t: string, c: string, i: nat, j: nat, v: ClusterState, n: nat)
    ensures var s1 := Step(s, StartCleanup(i, t, c, n));
            var s4 := Step(Step(Step(s1, StartWrite(j, t, Put(c, v))), Read(j, n)), Update(j));
            Continue(s, Takeover(t, c, i, j, v, n)[..4]) == s4 &&
            Continue(s, Takeover(t, c, i, j, v, n)) == Step(Step(Step(s4, Update(i)), Read(i, n + 1)), Update(i))
  {
    var all := Takeover(t, c, i, j, v, n);
    var s1 := Step(s, all[0]);
    Unroll3(s1, all[1], all[2], all[3], []);
    Unroll3(s1, all[1], all[2], all[3], all[4..]);
    var s4 := Step(Step(Step(s1, all[1]), all[2]), all[3]);
    Unroll3(s4, all[4], all[5], all[6], []);
    assert all[..4][1..] == [all[1], all[2], all[3]] + [];
    assert all[1..] == [all[1], all[2], all[3]] + all[4..];
    assert all[4..] == [all[4], all[5], all[6]] + [];
  }

  lemma Unroll(s: State, a: Action, rest: seq<Action>)
    ensures Continue(s, [a] + rest) == Continue(Step(s, a), rest)
  {
    assert ([a] + rest)[1..] == rest;
  }

  lemma Unroll3(s: State, a: Action, b: Action, c: Action, rest: seq<Action>)
    ensures Continue(s, [a, b, c] + rest) == Continue(Step(Step(Step(s, a), b), c), rest)
  {
    assert [a, b, c] + rest == [a] + ([b] + ([c] + rest));
    Unroll(s, a, [b] + ([c] + rest));
    Unroll(Step(s, a), b, [c] + rest);
    Unroll(Step(Step(s, a), b), c, rest);
  }

  // ---------- one change can use up all attempts ----------

  /** A read that lags behind, and the update refused for it. */
  function LaggingAttempt(id: nat, seen: nat): seq<Action> { [Read(id, seen), Update(id)] }

  /** A writer that is about to read a copy that is not current. */
  ghost predicate Lagging(s: State, id: nat, t: string, seen: nat) {
    && id in s.writers && s.writers[id].target == t
    && seen <= |s.data.log| && t in At(s.data, seen) && t in Now(s.data) && At(s.data, seen)[t].version != Now(s.data)[t].version
  }

  lemma ReadThenConflict(s: State, id: nat, t: string, seen: nat)
    requires Lagging(s, id, t, seen) && s.writers[id].phase == Reading
    ensures var a := Step(s, Read(id, seen));
            a.data == s.data && id in a.writers && a.writers[id] == s.writers[id].(phase := Holding(At(s.data, seen)[t], seen)) &&
            Step(a, Update(id)) == SetWriter(a, id, Conflicted(a.writers[id], |s.data.log|))
  {
  }

  lemma LaggingAttemptConflicts(s: State, id: nat, t: string, seen: nat)
    requires Inv(s) && Lagging(s, id, t, seen) && s.writers[id].phase == Reading
    ensures var r := Continue(s, LaggingAttempt(id, seen));
            && Inv(r) && r.data == s.data && id in r.writers && r.writers[id].target == t
            && |r.writers[id].refused| == |s.writers[id].refused| + 1
            && r.writers[id].phase == if |r.writers[id].refused| < 5 then Reading else Finished(GaveUp)
  {
    var a := Step(s, Read(id, seen));
    ReadThenConflict(s, id, t, seen);
    StepKeeps(s, Read(id, seen));
    StepKeeps(a, Update(id));
    TwoUnrolled(s, Read(id, seen), Update(id));
  }

  lemma TwoUnrolled(s: State, a: Action, b: Action)
    ensures Continue(s, [a, b]) == Step(Step(s, a), b)
  {
    assert [a, b] == [a] + ([b] + []);
    Unroll(s, a, [b] + []);
    Unroll(Step(s, a), b, []);
  }

  function LaggingAttempts(id: nat, seen: nat, k: nat): seq<Action> {
    if k == 0 then [] else LaggingAttempts(id, seen, k - 1) + LaggingAttempt(id, seen)
  }

  /** After k refused attempts, on the same data. */
  ghost predicate Refused(s: State, r: State, id: nat, t: string, k: nat) {
    && Inv(r) && r.data == s.data && id in r.writers && r.writers[id].target == t && |r.writers[id].refused| == k
    && r.writers[id].phase == if k < 5 then Reading else Finished(GaveUp)
  }

  lemma OneMoreRefused(s: State, r: State, id: nat, t: string, seen: nat, k: nat)
    requires Lagging(s, id, t, seen) && Refused(s, r, id, t, k) && k < 5
    ensures Refused(s, Continue(r, LaggingAttempt(id, seen)), id, t, k + 1)
  {
    LaggingAttemptConflicts(r, id, t, seen);
  }

  lemma {:induction false} LaggingAttemptsConflict(s: State, id: nat, t: string, seen: nat, k: nat)
    requires Inv(s) && Lagging(s, id, t, seen) && s.writers[id].phase == Reading && s.writers[id].refused == [] && k <= 5
    ensures Refused(s, Continue(s, LaggingAttempts(id, seen, k)), id, t, k)
  {
    if k > 0 {
      LaggingAttemptsConflict(s, id, t, seen, k - 1);
      OneMoreRefused(s, Continue(s, LaggingAttempts(id, seen, k - 1)), id, t, seen, k - 1);
      ContinueSplit(s, LaggingAttempts(id, seen, k - 1), LaggingAttempt(id, seen));
    }
  }

  lemma {:induction false} ContinueSplit(s: State, a: seq<Action>, b: seq<Action>)
    ensures Continue(s, a + b) == Continue(Continue(s, a), b)
    decreases a
  {
    if a == [] {
      assert a + b == b;
    } else {
      assert (a + b)[1..] == a[1..] + b;
      ContinueSplit(Step(s, a[0]), a[1..], b);
    }
  }

  /** A cache that lags behind a single change makes a writer give up: its five attempts
      leave the history as it was. */
  lemma OneChangeCanUseUpAttempts(actions: seq<Action>, id: nat, t: string, seen: nat)
    requires var s := Run(actions);
             Lagging(s, id, t, seen) && s.writers[id].phase == Reading && s.writers[id].refused == []
    ensures var r := Run(actions + LaggingAttempts(id, seen, 5));
            r.data.log == Run(actions).data.log && id in r.writers && r.writers[id].phase == Finished(GaveUp)
  {
    RunKeeps(actions);
    LaggingAttemptsConflict(Run(actions), id, t, seen, 5);
    ContinueRun(actions, LaggingAttempts(id, seen, 5));
  }
}
