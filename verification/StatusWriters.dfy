/** The writers of target status as interleaved steps over a versioned store:
    handleEvent, pollAndSync, removeClusterFromTargets and removeStalePodsFromTargets in
    internal/controller/targetstate_controller.go.

    A run is any sequence of actions: writers start, read, and update in any order,
    while Target objects are created, deleted and edited by others.  Reads and listings
    go through a cache: each one shows the store as it was at some earlier moment.  An
    action that is not possible in a state leaves it unchanged. */
module StatusWriters {
  import opened Ordering
  import opened Placement
  import opened TargetStatus
  import opened StatusServer

  const MAX_CONFLICT_RETRIES: nat := 5

  datatype Outcome = Committed | NotFound | GaveUp | Failed

  /** Before a read, holding a copy that shows the object at moment `seen`, or finished. */
  datatype Phase = Reading | Holding(copy: Object, seen: nat) | Finished(outcome: Outcome)

  /** `refused` lists the attempts that met a conflict.  A cleanup starts from a listed
      copy and remembers the pod it found in it. */
  datatype Writer = Writer(target: string, change: Change, started: nat, refused: seq<Refusal>, phase: Phase, listedPod: Option<string>)

  datatype State = State(data: Data, writers: map<nat, Writer>)

  datatype Action =
    | Create(target: string)
    | Delete(target: string)
    | Touch(target: string)
    | StartWrite(writer: nat, target: string, change: Change)
    | StartCleanup(writer: nat, target: string, cluster: string, seen: nat)
    | Read(writer: nat, seen: nat)
    | Update(writer: nat)
    | Fail(writer: nat)

  const INITIAL := State(EMPTY, map[])

  /** The summarized status for a map; ComputeStatusSummary computes it. */
  ghost function Summary(m: ClusterStates): (s: Status)
    ensures s.clusterStates == m && Summarized(s)
  {
    var s := Status(|m|, if m == map[] then "" else if AllHealthy(m) then "READY" else "DEGRADED", m);
    s
  }

  ghost function DoCommit(s: State, e: Entry, o: Option<Object>): State {
    s.(data := Commit(s.data, e, o))
  }

  ghost function SetWriter(s: State, id: nat, w: Writer): State {
    s.(writers := s.writers[id := w])
  }

  ghost function WriteEntry(id: nat, w: Writer): Entry { Wrote(w.target, id, w.change) }

  ghost function Written(s: State, w: Writer): Object
    requires w.phase.Holding?
  {
    Object(|s.data.log| + 1, Summary(Changed(w.phase.copy.status.clusterStates, w.change)))
  }

  /** One more attempt has met a conflict. */
  function Conflicted(w: Writer, now: nat): Writer
    requires w.phase.Holding?
  {
    var refused := w.refused + [Refusal(w.phase.seen, now)];
    w.(refused := refused, phase := if |refused| < MAX_CONFLICT_RETRIES then Reading else Finished(GaveUp))
  }

  /** An update: refused on a stale version, otherwise committed. */
  ghost function DoUpdate(s: State, id: nat, w: Writer): State
    requires w.phase.Holding?
  {
    var store := Now(s.data);
    if w.target !in store then SetWriter(s, id, w.(phase := Finished(NotFound)))
    else if store[w.target].version != w.phase.copy.version then SetWriter(s, id, Conflicted(w, |s.data.log|))
    else SetWriter(DoCommit(s, WriteEntry(id, w), Some(Written(s, w))), id, w.(phase := Finished(Committed)))
  }

  ghost function DoCreate(s: State, t: string): State {
    if t in Now(s.data) then s else DoCommit(s, Created(t), Some(Object(|s.data.log| + 1, EMPTY_STATUS)))
  }

  ghost function DoDelete(s: State, t: string): State {
    if t !in Now(s.data) then s else DoCommit(s, Deleted(t), None)
  }

  ghost function DoTouch(s: State, t: string): State {
    if t !in Now(s.data) then s else DoCommit(s, Touched(t), Some(Object(|s.data.log| + 1, Now(s.data)[t].status)))
  }

  ghost function DoStartWrite(s: State, id: nat, t: string, change: Change): State {
    if id in s.writers then s else SetWriter(s, id, Writer(t, change, |s.data.log|, [], Reading, None))
  }

  /** The listing at moment `seen` shows the target with an entry for the cluster. */
  predicate Lists(s: State, t: string, cluster: string, seen: nat) {
    seen <= |s.data.log| && t in At(s.data, seen) && cluster in At(s.data, seen)[t].status.clusterStates
  }

  function ListedPod(s: State, t: string, cluster: string, seen: nat): string
    requires Lists(s, t, cluster, seen)
  {
    At(s.data, seen)[t].status.clusterStates[cluster].pod
  }

  ghost function DoStartCleanup(s: State, id: nat, t: string, cluster: string, seen: nat): State {
    if id in s.writers || !Lists(s, t, cluster, seen) then s
    else
      SetWriter(s, id, Writer(t, Remove(cluster), |s.data.log|, [], Holding(At(s.data, seen)[t], seen), Some(ListedPod(s, t, cluster, seen))))
  }

  ghost function DoRead(s: State, id: nat, seen: nat): State {
    if id !in s.writers || !s.writers[id].phase.Reading? || seen > |s.data.log| then s
    else
      var w := s.writers[id];
      SetWriter(s, id, w.(phase := if w.target in At(s.data, seen) then Holding(At(s.data, seen)[w.target], seen) else Finished(NotFound)))
  }

  /** The call the writer is about to make fails for another reason. */
  ghost function DoFail(s: State, id: nat): State {
    if id !in s.writers || s.writers[id].phase.Finished? then s
    else SetWriter(s, id, s.writers[id].(phase := Finished(Failed)))
  }

  ghost function Step(s: State, a: Action): State {
    match a
    case Create(t) => DoCreate(s, t)
    case Delete(t) => DoDelete(s, t)
    case Touch(t) => DoTouch(s, t)
    case StartWrite(id, t, change) => DoStartWrite(s, id, t, change)
    case StartCleanup(id, t, cluster, seen) => DoStartCleanup(s, id, t, cluster, seen)
    case Read(id, seen) => DoRead(s, id, seen)
    case Update(id) => if id in s.writers && s.writers[id].phase.Holding? then DoUpdate(s, id, s.writers[id]) else s
    case Fail(id) => DoFail(s, id)
  }

  ghost function Run(actions: seq<Action>): State {
    if actions == [] then INITIAL
    else Step(Run(actions[..|actions| - 1]), actions[|actions| - 1])
  }

  // ---------- the invariant ----------

  ghost predicate CopyOk(s: State, w: Writer) {
    w.phase.Holding? ==>
      && w.phase.seen <= |s.data.log| && w.target in At(s.data, w.phase.seen)
      && w.phase.copy == At(s.data, w.phase.seen)[w.target]
  }

  /** A cleanup before its first conflict still holds the copy it listed. */
  ghost predicate ListingOk(w: Writer) {
    w.listedPod.Some? && w.refused == [] ==>
      && !w.phase.Reading?
      && (w.phase.Holding? ==>
            w.change.cluster in w.phase.copy.status.clusterStates &&
            w.phase.copy.status.clusterStates[w.change.cluster].pod == w.listedPod.value)
  }

  ghost predicate WriterOk(s: State, id: nat, w: Writer) {
    && w.started <= |s.data.log|
    && AllStale(s.data, w.target, w.refused)
    && WritesBy(s.data.log, id) == (if w.phase == Finished(Committed) then 1 else 0)
    && |w.refused| <= MAX_CONFLICT_RETRIES
    && (w.phase == Finished(GaveUp) ==> |w.refused| == MAX_CONFLICT_RETRIES)
    && (!w.phase.Finished? ==> |w.refused| < MAX_CONFLICT_RETRIES)
    && CopyOk(s, w) && ListingOk(w)
  }

  ghost predicate Inv(s: State) {
    && Sound(s.data)
    && (forall id :: id in s.writers ==> WriterOk(s, id, s.writers[id]))
    && (forall id: nat :: id !in s.writers ==> WritesBy(s.data.log, id) == 0)
  }

  /** A commit keeps the invariant of everybody who did not make it. */
  lemma OthersKeepAfterCommit(s: State, e: Entry, o: Option<Object>, id: nat, w: Writer)
    requires Sound(s.data) && WriterOk(s, id, w) && (e.Wrote? ==> e.writer != id)
    ensures WriterOk(DoCommit(s, e, o), id, w)
  {
    PastStays(s.data, e, o);
    StaleStays(s.data, e, o, w.target, w.refused);
    Appended(s.data.log, e, w.target, id);
  }

  lemma NobodyWrote(s: State, e: Entry)
    requires Inv(s)
    ensures forall i: nat :: i !in s.writers && (e.Wrote? ==> e.writer != i) ==> WritesBy(s.data.log + [e], i) == 0
  {
    forall i: nat | i !in s.writers && (e.Wrote? ==> e.writer != i) ensures WritesBy(s.data.log + [e], i) == 0 {
      Appended(s.data.log, e, e.target, i);
    }
  }

  lemma CommitKeeps(s: State, e: Entry, o: Option<Object>)
    requires Inv(s) && !e.Wrote? && Fits(s.data, e, o)
    ensures Inv(DoCommit(s, e, o))
  {
    var s' := DoCommit(s, e, o);
    CommitSound(s.data, e, o);
    forall id | id in s'.writers ensures WriterOk(s', id, s'.writers[id]) {
      OthersKeepAfterCommit(s, e, o, id, s.writers[id]);
    }
    NobodyWrote(s, e);
  }

  lemma SetWriterKeeps(s: State, id: nat, w: Writer)
    requires Sound(s.data) && WriterOk(s, id, w)
    requires forall i :: i in s.writers && i != id ==> WriterOk(s, i, s.writers[i])
    requires forall i: nat :: i !in s.writers && i != id ==> WritesBy(s.data.log, i) == 0
    ensures Inv(SetWriter(s, id, w))
  {
    var s' := SetWriter(s, id, w);
    forall i | i in s'.writers ensures WriterOk(s', i, s'.writers[i]) {
      assert WriterOk(s, i, s'.writers[i]);
    }
  }

  lemma OwnWriterAfterCommit(s: State, id: nat, w: Writer, o: Object)
    requires Sound(s.data) && WriterOk(s, id, w) && w.phase.Holding?
    ensures WriterOk(DoCommit(s, WriteEntry(id, w), Some(o)), id, w.(phase := Finished(Committed)))
  {
    var e := WriteEntry(id, w);
    PastStays(s.data, e, Some(o));
    StaleStays(s.data, e, Some(o), w.target, w.refused);
    Appended(s.data.log, e, w.target, id);
  }

  /** The heart of it: a successful update was computed from the current object. */
  lemma WriteFits(s: State, id: nat, w: Writer)
    requires Inv(s) && WriterOk(s, id, w) && w.phase.Holding?
    requires w.target in Now(s.data) && Now(s.data)[w.target].version == w.phase.copy.version
    ensures Now(s.data)[w.target] == w.phase.copy && Fits(s.data, WriteEntry(id, w), Some(Written(s, w)))
  {
    SameVersionIsSame(s.data, w.phase.seen, w.target);
    NowIsFolded(s.data, w.target);
    FoldedLast(s.data.log, WriteEntry(id, w));
  }

  lemma OthersAfterWrite(s: State, id: nat, w: Writer)
    requires Inv(s) && w.phase.Holding?
    ensures var s' := DoCommit(s, WriteEntry(id, w), Some(Written(s, w)));
            && (forall i :: i in s.writers && i != id ==> WriterOk(s', i, s.writers[i]))
            && (forall i: nat :: i !in s.writers && i != id ==> WritesBy(s'.data.log, i) == 0)
  {
    var e, o := WriteEntry(id, w), Some(Written(s, w));
    forall i | i in s.writers && i != id ensures WriterOk(DoCommit(s, e, o), i, s.writers[i]) {
      OthersKeepAfterCommit(s, e, o, i, s.writers[i]);
    }
    NobodyWrote(s, e);
  }

  lemma WriteKeeps(s: State, id: nat, w: Writer)
    requires Inv(s) && WriterOk(s, id, w) && w.phase.Holding?
    requires w.target in Now(s.data) && Now(s.data)[w.target].version == w.phase.copy.version
    ensures Inv(DoUpdate(s, id, w))
  {
    var e, o := WriteEntry(id, w), Written(s, w);
    WriteFits(s, id, w);
    CommitSound(s.data, e, Some(o));
    OthersAfterWrite(s, id, w);
    OwnWriterAfterCommit(s, id, w, o);
    SetWriterKeeps(DoCommit(s, e, Some(o)), id, w.(phase := Finished(Committed)));
  }

  lemma ConflictKeeps(s: State, id: nat, w: Writer)
    requires Inv(s) && WriterOk(s, id, w) && w.phase.Holding?
    requires w.target in Now(s.data) && Now(s.data)[w.target].version != w.phase.copy.version
    ensures WriterOk(s, id, Conflicted(w, |s.data.log|))
  {
    RefusalIsStale(s.data, w.target, w.phase.seen);
  }

  lemma UpdateKeeps(s: State, id: nat)
    requires Inv(s) && id in s.writers && s.writers[id].phase.Holding?
    ensures Inv(DoUpdate(s, id, s.writers[id]))
  {
    var w := s.writers[id];
    assert WriterOk(s, id, w);
    if w.target !in Now(s.data) {
      SetWriterKeeps(s, id, w.(phase := Finished(NotFound)));
    } else if Now(s.data)[w.target].version != w.phase.copy.version {
      ConflictKeeps(s, id, w);
      SetWriterKeeps(s, id, Conflicted(w, |s.data.log|));
    } else {
      WriteKeeps(s, id, w);
    }
  }

  lemma EmptyIsSummarized()
    ensures Summarized(EMPTY_STATUS) && EMPTY_STATUS.clusterStates == map[]
  {
  }

  lemma CreateKeeps(s: State, t: string)
    requires Inv(s)
    ensures Inv(DoCreate(s, t))
  {
    if t !in Now(s.data) {
      EmptyIsSummarized();
      FoldedLast(s.data.log, Created(t));
      CommitKeeps(s, Created(t), Some(Object(|s.data.log| + 1, EMPTY_STATUS)));
    }
  }

  lemma DeleteKeeps(s: State, t: string)
    requires Inv(s)
    ensures Inv(DoDelete(s, t))
  {
    if t in Now(s.data) {
      FoldedLast(s.data.log, Deleted(t));
      CommitKeeps(s, Deleted(t), None);
    }
  }

  lemma TouchKeeps(s: State, t: string)
    requires Inv(s)
    ensures Inv(DoTouch(s, t))
  {
    if t in Now(s.data) {
      NowIsFolded(s.data, t);
      FoldedLast(s.data.log, Touched(t));
      CommitKeeps(s, Touched(t), Some(Object(|s.data.log| + 1, Now(s.data)[t].status)));
    }
  }

  lemma StartWriteKeeps(s: State, id: nat, t: string, change: Change)
    requires Inv(s)
    ensures Inv(DoStartWrite(s, id, t, change))
  {
    if id !in s.writers {
      SetWriterKeeps(s, id, Writer(t, change, |s.data.log|, [], Reading, None));
    }
  }

  lemma StartCleanupKeeps(s: State, id: nat, t: string, cluster: string, seen: nat)
    requires Inv(s)
    ensures Inv(DoStartCleanup(s, id, t, cluster, seen))
  {
    if id !in s.writers && Lists(s, t, cluster, seen) {
      SetWriterKeeps(s, id, DoStartCleanup(s, id, t, cluster, seen).writers[id]);
    }
  }

  lemma ReadKeeps(s: State, id: nat, seen: nat)
    requires Inv(s)
    ensures Inv(DoRead(s, id, seen))
  {
    if id in s.writers && s.writers[id].phase.Reading? && seen <= |s.data.log| {
      assert WriterOk(s, id, s.writers[id]);
      SetWriterKeeps(s, id, DoRead(s, id, seen).writers[id]);
    }
  }

  lemma FailKeeps(s: State, id: nat)
    requires Inv(s)
    ensures Inv(DoFail(s, id))
  {
    if id in s.writers && !s.writers[id].phase.Finished? {
      assert WriterOk(s, id, s.writers[id]);
      SetWriterKeeps(s, id, s.writers[id].(phase := Finished(Failed)));
    }
  }

  lemma StepKeeps(s: State, a: Action)
    requires Inv(s)
    ensures Inv(Step(s, a))
  {
    match a
    case Create(t) => CreateKeeps(s, t);
    case Delete(t) => DeleteKeeps(s, t);
    case Touch(t) => TouchKeeps(s, t);
    case StartWrite(id, t, change) => StartWriteKeeps(s, id, t, change);
    case StartCleanup(id, t, cluster, seen) => StartCleanupKeeps(s, id, t, cluster, seen);
    case Read(id, seen) => ReadKeeps(s, id, seen);
    case Update(id) => if id in s.writers && s.writers[id].phase.Holding? { UpdateKeeps(s, id); }
    case Fail(id) => FailKeeps(s, id);
  }

  lemma {:induction false} RunKeeps(actions: seq<Action>)
    ensures Inv(Run(actions))
  {
    if actions == [] {
      EmptyIsSound();
    } else {
      RunKeeps(actions[..|actions| - 1]);
      StepKeeps(Run(actions[..|actions| - 1]), actions[|actions| - 1]);
    }
  }

  // ---------- main results ----------

  /** No update is lost, however old the copies are that writers read: after any run,
      every target's cluster states are the fold of all committed writes in commit order,
      and the summary matches them. */
  lemma NoLostUpdates(actions: seq<Action>, t: string)
    ensures var d := Run(actions).data;
            && (t in Now(d) <==> Folded(d.log, t).Some?)
            && (t in Now(d) ==> Now(d)[t].status == Summary(Folded(d.log, t).value))
  {
    RunKeeps(actions);
    var d := Run(actions).data;
    NowIsFolded(d, t);
    if t in Now(d) {
      SummaryIsUnique(Now(d)[t].status, Summary(Folded(d.log, t).value));
    }
  }

  /** A writer commits at most once, exactly when it reports success.  It gives up only
      after five refused attempts, each with a copy older than the store was then; and
      when no read lagged behind the attempt before it, these are five changes of the
      target made since the writer started. */
  lemma WriterOutcome(actions: seq<Action>, id: nat)
    requires id in Run(actions).writers
    ensures var d, w := Run(actions).data, Run(actions).writers[id];
            && WritesBy(d.log, id) == (if w.phase == Finished(Committed) then 1 else 0)
            && (w.phase == Finished(GaveUp) ==> |w.refused| == 5 && AllStale(d, w.target, w.refused))
            && (w.phase == Finished(GaveUp) && UpToDate(w.refused, w.started) ==>
                  w.started <= |d.log| && Changes(d.log, w.target) >= Changes(d.log[..w.started], w.target) + 5)
  {
    RunKeeps(actions);
    var d, w := Run(actions).data, Run(actions).writers[id];
    if w.phase == Finished(GaveUp) && UpToDate(w.refused, w.started) {
      RefusalsAreChanges(d, w.target, w.refused, w.started);
      ChangesSplit(d.log, w.target, LastAttempt(w.refused, w.started), |d.log|);
      assert d.log[..|d.log|] == d.log;
    }
  }

  ghost predicate SameEntry(m: ClusterStates, m': ClusterStates, cluster: string) {
    (cluster in m' <==> cluster in m) && (cluster in m ==> m'[cluster] == m[cluster])
  }

  lemma NextStore(d: Data, e: Entry, o: Option<Object>)
    requires Sound(d)
    ensures Now(Commit(d, e, o)) == Stored(Now(d), e.target, o)
  {
    PastStays(d, e, o);
  }

  lemma UpdateIsLocal(s: State, id: nat, w: Writer, t: string, cluster: string)
    requires Inv(s) && WriterOk(s, id, w) && w.phase.Holding? && w.change.cluster != cluster
    requires t in Now(s.data)
    ensures t in Now(DoUpdate(s, id, w).data)
    ensures SameEntry(Now(s.data)[t].status.clusterStates, Now(DoUpdate(s, id, w).data)[t].status.clusterStates, cluster)
  {
    if w.target in Now(s.data) && Now(s.data)[w.target].version == w.phase.copy.version {
      WriteFits(s, id, w);
      NextStore(s.data, WriteEntry(id, w), Some(Written(s, w)));
      ChangeIsLocal(w.phase.copy.status.clusterStates, w.change, cluster);
    }
  }

  lemma OthersKeepStatus(s: State, a: Action, t: string)
    requires Sound(s.data) && !a.Update? && t in Now(s.data) && t in Now(Step(s, a).data)
    ensures Now(Step(s, a).data)[t].status == Now(s.data)[t].status
  {
    match a
    case Create(u) => NextStore(s.data, Created(u), Some(Object(|s.data.log| + 1, EMPTY_STATUS)));
    case Delete(u) => NextStore(s.data, Deleted(u), None);
    case Touch(u) => if u in Now(s.data) { NextStore(s.data, Touched(u), Some(Object(|s.data.log| + 1, Now(s.data)[u].status))); }
    case _ =>
  }

  /** Any step changes the cluster states of a target that stays at most under the key of
      the one write it commits. */
  lemma StepIsLocal(actions: seq<Action>, a: Action, t: string, cluster: string)
    requires t in Now(Run(actions).data) && t in Now(Step(Run(actions), a).data)
    requires a.Update? && a.writer in Run(actions).writers ==> Run(actions).writers[a.writer].change.cluster != cluster
    ensures SameEntry(Now(Run(actions).data)[t].status.clusterStates, Now(Step(Run(actions), a).data)[t].status.clusterStates, cluster)
  {
    var s := Run(actions);
    RunKeeps(actions);
    if !a.Update? {
      OthersKeepStatus(s, a, t);
    } else if a.writer in s.writers && s.writers[a.writer].phase.Holding? {
      assert WriterOk(s, a.writer, s.writers[a.writer]);
      UpdateIsLocal(s, a.writer, s.writers[a.writer], t, cluster);
    }
  }
}
