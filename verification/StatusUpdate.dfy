/** The retry loops of the status writers, run against a server that others write to in
    between: handleEvent and the cleanup loops of targetstate_controller.go.  The
    interleaving of any number of writers is the subject of StatusWriters; here the
    others' writes, and how far each read lags behind, are parameters. */
module StatusUpdate {
  import opened Ordering
  import opened Placement
  import opened TargetStatus
  import opened StatusServer
  import opened StatusWriters

  datatype UpdateResult = Updated | Conflict | Missing | Error

  /** The same history, continued. */
  ghost predicate Continues(a: Data, b: Data) {
    && |a.log| <= |b.log| && b.log[..|a.log|] == a.log
    && (forall k :: 0 <= k <= |a.log| ==> At(b, k) == At(a, k))
  }

  lemma ContinuesItself(d: Data)
    ensures Continues(d, d)
  {
  }

  lemma ContinuesTransitive(a: Data, b: Data, c: Data)
    requires Continues(a, b) && Continues(b, c)
    ensures Continues(a, c)
  {
    assert c.log[..|b.log|][..|a.log|] == c.log[..|a.log|];
  }

  lemma StaleContinues(a: Data, b: Data, t: string, refused: seq<Refusal>)
    requires Continues(a, b) && AllStale(a, t, refused)
    ensures AllStale(b, t, refused)
  {
    forall i | 0 <= i < |refused| ensures Stale(b, t, refused[i]) {
      var r := refused[i];
      assert Stale(a, t, r);
      var j :| r.seen <= j < r.when && j < |a.log| && a.log[j].target == t;
      assert b.log[j] == b.log[..|a.log|][j];
    }
  }

  lemma WritesAppended(log: seq<Entry>, e: Entry)
    ensures forall w :: WritesBy(log + [e], w) == WritesBy(log, w) + if e.Wrote? && e.writer == w then 1 else 0
  {
    forall w: nat ensures WritesBy(log + [e], w) == WritesBy(log, w) + if e.Wrote? && e.writer == w then 1 else 0 {
      Appended(log, e, e.target, w);
    }
  }

  /** An update whose version is current was computed from the current object. */
  lemma WriteOfCurrentFits(d: Data, w: nat, t: string, copy: Object, seen: nat, status: Status, change: Change)
    requires Sound(d) && Summarized(status) && status.clusterStates == Changed(copy.status.clusterStates, change)
    requires seen <= |d.log| && t in At(d, seen) && At(d, seen)[t] == copy
    requires t in Now(d) && Now(d)[t].version == copy.version
    ensures var e, o := Wrote(t, w, change), Some(Object(|d.log| + 1, status));
            Fits(d, e, o) && Now(Commit(d, e, o)) == Now(d)[t := o.value]
  {
    SameVersionIsSame(d, seen, t);
    NowIsFolded(d, t);
    FoldedLast(d.log, Wrote(t, w, change));
    PastStays(d, Wrote(t, w, change), Some(Object(|d.log| + 1, status)));
  }

  ghost predicate NotBy(others: seq<Entry>, w: nat) {
    forall i :: 0 <= i < |others| && others[i].Wrote? ==> others[i].writer != w
  }

  class Server {
    var past: seq<Store>
    ghost var log: seq<Entry>

    ghost function View(): Data
      reads this
    {
      Data(past, log)
    }

    ghost predicate Valid()
      reads this
    {
      Sound(View())
    }

    constructor ()
      ensures Valid() && View() == EMPTY
    {
      past, log := [map[]], [];
      new;
      EmptyIsSound();
    }

    /** The store as it is now. */
    function Current(): Store
      requires past != []
      reads this`past
    {
      past[|past| - 1]
    }

    /** Stores or removes an object, recording why. */
    method Record(ghost e: Entry, t: string, o: Option<Object>)
      requires Valid() && e.target == t && Fits(View(), e, o)
      modifies this
      ensures Valid() && View() == Commit(old(View()), e, o) && Continues(old(View()), View())
      ensures forall w :: WritesBy(log, w) == WritesBy(old(log), w) + if e.Wrote? && e.writer == w then 1 else 0
    {
      CommitSound(View(), e, o);
      PastStays(View(), e, o);
      WritesAppended(log, e);
      ghost var next := Commit(View(), e, o);
      past := past + [Stored(Current(), t, o)];
      log := log + [e];
      assert View() == next;
    }

    /** Get through the cache, which shows moment `seen`. */
    method Get(t: string, seen: nat) returns (r: Option<Object>)
      requires seen < |past|
      ensures r == if t in At(View(), seen) then Some(At(View(), seen)[t]) else None
    {
      r := if t in past[seen] then Some(past[seen][t]) else None;
    }

    /** Status().Update: refused unless the version is current.  `change` is what the
        caller did to the status of the copy, which shows moment `seen`. */
    method Update(ghost w: nat, t: string, copy: Object, ghost seen: nat, status: Status, ghost change: Change, fails: bool)
      returns (r: UpdateResult)
      requires Valid() && Summarized(status) && status.clusterStates == Changed(copy.status.clusterStates, change)
      requires seen <= |log| && t in At(View(), seen) && At(View(), seen)[t] == copy
      modifies this
      ensures Valid() && Continues(old(View()), View())
      ensures r == if fails then Error else if t !in Now(old(View())) then Missing
                   else if Now(old(View()))[t].version != copy.version then Conflict else Updated
      ensures r != Updated ==> View() == old(View())
      ensures r == Updated ==> log == old(log) + [Wrote(t, w, change)] && Now(View()) == Now(old(View()))[t := Object(|log|, status)]
      ensures r == Conflict ==> Stale(View(), t, Refusal(seen, |log|))
      ensures forall v :: WritesBy(log, v) == WritesBy(old(log), v) + if r == Updated && v == w then 1 else 0
    {
      ContinuesItself(View());
      if fails { return Error; }
      if t !in Current() { return Missing; }
      if Current()[t].version != copy.version {
        RefusalIsStale(View(), t, seen);
        return Conflict;
      }
      CommitWrite(w, t, copy, seen, status, change);
      r := Updated;
    }

    method CommitWrite(ghost w: nat, t: string, ghost copy: Object, ghost seen: nat, status: Status, ghost change: Change)
      requires Valid() && Summarized(status) && status.clusterStates == Changed(copy.status.clusterStates, change)
      requires seen <= |log| && t in At(View(), seen) && At(View(), seen)[t] == copy
      requires t in Now(View()) && Now(View())[t].version == copy.version
      modifies this
      ensures Valid() && Continues(old(View()), View())
      ensures log == old(log) + [Wrote(t, w, change)] && Now(View()) == Now(old(View()))[t := Object(|log|, status)]
      ensures forall v :: WritesBy(log, v) == WritesBy(old(log), v) + if v == w then 1 else 0
    {
      WriteOfCurrentFits(View(), w, t, copy, seen, status, change);
      Record(Wrote(t, w, change), t, Some(Object(|past|, status)));
    }

    /** What others do between a read and an update, each step taken if it is possible. */
    method Interfere(others: seq<Entry>)
      requires Valid()
      modifies this
      ensures Valid() && Continues(old(View()), View())
      ensures forall w :: NotBy(others, w) ==> WritesBy(log, w) == WritesBy(old(log), w)
      ensures others == [] ==> View() == old(View())
    {
      ContinuesItself(View());
      for k := 0 to |others|
        invariant Valid() && Continues(old(View()), View()) && (k == 0 ==> View() == old(View()))
        invariant forall w :: NotBy(others, w) ==> WritesBy(log, w) == WritesBy(old(log), w)
      {
        ghost var before := View();
        InterfereOnce(others[k]);
        ContinuesTransitive(old(View()), before, View());
      }
    }

    method InterfereOnce(e: Entry)
      requires Valid()
      modifies this
      ensures Valid() && Continues(old(View()), View())
      ensures forall w :: !(e.Wrote? && e.writer == w) ==> WritesBy(log, w) == WritesBy(old(log), w)
    {
      var t := e.target;
      if t in Current() <==> e.Created? {
        return;
      }
      NowIsFolded(View(), t);
      FoldedLast(log, e);
      EmptyIsSummarized();
      var o: Option<Object> := None;
      match e
      case Created(_) => o := Some(Object(|past|, EMPTY_STATUS));
      case Deleted(_) =>
      case Touched(_) => o := Some(Object(|past|, Current()[t].status));
      case Wrote(_, _, change) =>
        var status := ComputeStatusSummary(Changed(Current()[t].status.clusterStates, change));
        o := Some(Object(|past|, status));
      Record(e, t, o);
    }
  }

  /** One attempt: mutate the copy, let others in, update. */
  method Attempt(server: Server, ghost w: nat, t: string, copy: Object, ghost seen: nat, change: Change, others: seq<Entry>, fails: bool)
    returns (r: UpdateResult, ghost refusal: Refusal)
    requires server.Valid() && seen <= |server.log| && t in At(server.View(), seen) && At(server.View(), seen)[t] == copy
    requires NotBy(others, w)
    modifies server
    ensures server.Valid() && Continues(old(server.View()), server.View())
    ensures WritesBy(server.log, w) == WritesBy(old(server.log), w) + if r == Updated then 1 else 0
    ensures r == Updated ==> CommittedLast(server.log, t, w, change) && t in Now(server.View())
    ensures r == Conflict ==> refusal == Refusal(seen, |server.log|) && Stale(server.View(), t, refusal)
    ensures r == Conflict ==> !(seen == |old(server.log)| && others == [])
    ensures r == Error ==> fails
    ensures r == Missing ==> t !in Now(server.View())
  {
    var status := ComputeStatusSummary(Changed(copy.status.clusterStates, change));
    server.Interfere(others);
    ghost var between := server.View();
    r := server.Update(w, t, copy, seen, status, change, fails);
    ContinuesTransitive(old(server.View()), between, server.View());
    refusal := Refusal(seen, |server.log|);
  }

  /** The writer's change is the last entry of the log. */
  ghost predicate CommittedLast(log: seq<Entry>, t: string, w: nat, change: Change) {
    log != [] && log[|log| - 1] == Wrote(t, w, change)
  }

  /** At some moment from the given one on, the object was not there. */
  ghost predicate Missed(d: Data, t: string, from: int) {
    exists j: nat :: from <= j <= |d.log| && t !in At(d, j)
  }

  /** The object has the change in it. */
  ghost predicate Applied(d: Data, t: string, change: Change) {
    && t in Now(d)
    && match change
       case Put(c, v) => c in Now(d)[t].status.clusterStates && Now(d)[t].status.clusterStates[c] == v
       case Remove(c) => c !in Now(d)[t].status.clusterStates
  }

  lemma CommittedIsApplied(d: Data, t: string, w: nat, change: Change)
    requires Sound(d) && CommittedLast(d.log, t, w, change) && t in Now(d)
    ensures Applied(d, t, change) && Summarized(Now(d)[t].status)
  {
    var k := |d.log| - 1;
    assert d.log == d.log[..k] + [d.log[k]];
    NowIsFolded(d, t);
    assert Folded(d.log[..k], t).Some?;
    FoldedLast(d.log[..k], d.log[k]);
  }

  /** One pass of a retry loop that reads first: nothing is returned on a conflict. */
  method ReadAndAttempt(server: Server, ghost w: nat, t: string, change: Change, others: seq<Entry>, lag: nat, getFails: bool, updateFails: bool)
    returns (r: Option<Outcome>, ghost refusal: Refusal)
    requires server.Valid()
    requires NotBy(others, w)
    modifies server
    ensures server.Valid() && Continues(old(server.View()), server.View())
    ensures r != Some(GaveUp)
    ensures WritesBy(server.log, w) == WritesBy(old(server.log), w) + if r == Some(Committed) then 1 else 0
    ensures r == Some(Committed) ==> CommittedLast(server.log, t, w, change) && t in Now(server.View())
    ensures r == None ==> Stale(server.View(), t, refusal) && refusal.when == |server.log|
    ensures r == None && lag == 0 ==> refusal.seen == |old(server.log)| && others != []
    ensures r == Some(Failed) ==> getFails || updateFails || t !in Now(server.View())
    ensures r == Some(NotFound) ==> Missed(server.View(), t, |old(server.log)| - lag)
  {
    var now := |server.past| - 1;
    var seen := if lag <= now then now - lag else 0;
    refusal := Refusal(seen, now);
    if getFails {
      return Some(Failed), refusal;
    }
    var target := server.Get(t, seen);
    if target.None? {
      return Some(NotFound), refusal;
    }
    var result;
    result, refusal := Attempt(server, w, t, target.value, seen, change, others, updateFails);
    r := match result case Conflict => None case Updated => Some(Committed) case _ => Some(Failed);
  }

  /** What the five attempts of a loop meet. */
  datatype Plan = Plan(others: seq<seq<Entry>>, lag: nat -> nat, getFails: nat -> bool, updateFails: nat -> bool)

  /** Attempt a reads the current object and nobody writes before it updates. */
  predicate Chance(plan: Plan, a: nat)
    requires a < |plan.others|
  {
    plan.lag(a) == 0 && plan.others[a] == []
  }

  ghost predicate NoChance(k: nat, n: nat, plan: Plan)
    requires n <= |plan.others|
  {
    forall a: nat :: k <= a < n ==> !Chance(plan, a)
  }

  ghost predicate HasChance(k: nat, plan: Plan)
    requires |plan.others| == 5
  {
    exists a: nat :: k <= a < 5 && Chance(plan, a)
  }

  predicate CallFails(plan: Plan, a: nat) { plan.getFails(a) || plan.updateFails(a) }

  /** Why attempts k to 4 ended as they did: giving up means that none had a chance; a
      failure, that some call failed or the object was gone at the update; not found, that
      a read showed a moment without the object.  The history was `from` entries long before. */
  ghost predicate Explained(outcome: Outcome, d: Data, t: string, from: nat, k: nat, plan: Plan)
    requires |plan.others| == 5
  {
    match outcome
    case Committed => true
    case GaveUp => NoChance(k, 5, plan)
    case Failed => (exists a: nat :: k <= a < 5 && CallFails(plan, a)) || t !in Now(d)
    case NotFound => exists a: nat :: k <= a < 5 && Missed(d, t, from - plan.lag(a))
  }

  /** No call of attempts k to 4 fails, and the object is there at every moment they can see. */
  ghost predicate Untroubled(d: Data, t: string, from: nat, k: nat, plan: Plan) {
    t in Now(d) && forall a: nat :: k <= a < 5 ==> !CallFails(plan, a) && !Missed(d, t, from - plan.lag(a))
  }

  /** An untroubled loop with a chance commits. */
  lemma UntroubledCommits(outcome: Outcome, d: Data, t: string, from: nat, k: nat, plan: Plan)
    requires |plan.others| == 5 && Explained(outcome, d, t, from, k, plan)
    ensures Untroubled(d, t, from, k, plan) && HasChance(k, plan) ==> outcome == Committed
  {
  }

  lemma GoneExplains(d: Data, t: string, from: nat, k: nat, plan: Plan)
    requires |plan.others| == 5 && t !in Now(d)
    ensures Explained(Failed, d, t, from, k, plan)
  {
  }

  lemma MissedEarlier(d: Data, t: string, from: int, later: int)
    requires from <= later && Missed(d, t, later)
    ensures Missed(d, t, from)
  {
  }

  lemma ExplainedEarlier(outcome: Outcome, d: Data, t: string, from: nat, later: nat, k: nat, plan: Plan)
    requires |plan.others| == 5 && from <= later && Explained(outcome, d, t, later, k, plan)
    ensures Explained(outcome, d, t, from, k, plan)
  {
    if outcome == NotFound {
      var a: nat :| k <= a < 5 && Missed(d, t, later - plan.lag(a));
      MissedEarlier(d, t, from - plan.lag(a), later - plan.lag(a));
    }
  }

  /** What one pass says is what the loop says. */
  lemma PassExplains(outcome: Outcome, d: Data, t: string, from: nat, now: nat, k: nat, a: nat, plan: Plan)
    requires |plan.others| == 5 && k <= a < 5 && from <= now && outcome != GaveUp
    requires outcome == Failed ==> CallFails(plan, a) || t !in Now(d)
    requires outcome == NotFound ==> Missed(d, t, now - plan.lag(a))
    ensures Explained(outcome, d, t, from, k, plan)
  {
    if outcome == NotFound { MissedEarlier(d, t, from - plan.lag(a), now - plan.lag(a)); }
  }

  /** The refusals so far, and how they relate to a history that started at `start`. */
  ghost predicate Refused(start: Data, now: Data, t: string, refused: seq<Refusal>) {
    Continues(start, now) && AllStale(now, t, refused) && LastAttempt(refused, |start.log|) <= |now.log|
  }

  lemma RefusedLater(start: Data, before: Data, now: Data, t: string, refused: seq<Refusal>)
    requires Refused(start, before, t, refused) && Continues(before, now)
    ensures Refused(start, now, t, refused)
  {
    ContinuesTransitive(start, before, now);
    StaleContinues(before, now, t, refused);
  }

  lemma OneMoreRefusal(start: Data, now: Data, t: string, refused: seq<Refusal>, r: Refusal)
    requires Refused(start, now, t, refused) && Stale(now, t, r) && r.when == |now.log|
    ensures Refused(start, now, t, refused + [r])
    ensures UpToDate(refused, |start.log|) && r.seen >= LastAttempt(refused, |start.log|) ==> UpToDate(refused + [r], |start.log|)
  {
    var all := refused + [r];
    assert all[..|refused|] == refused;
    assert forall i :: 0 <= i < |refused| ==> all[..i] == refused[..i];
  }

  /** The pass for one attempt, from k on, of a loop that began when the history had `from` entries. */
  method Pass(server: Server, ghost w: nat, t: string, change: Change, ghost k: nat, attempt: nat, plan: Plan,
              ghost start: Data, ghost from: nat, ghost before: seq<Refusal>)
    returns (r: Option<Outcome>, ghost refused: seq<Refusal>)
    requires server.Valid() && k <= attempt < 5 == |plan.others| && NotBy(plan.others[attempt], w)
    requires Refused(start, server.View(), t, before) && NoChance(k, attempt, plan) && from <= |server.log|
    modifies server
    ensures server.Valid() && Refused(start, server.View(), t, refused) && from <= |server.log|
    ensures WritesBy(server.log, w) == WritesBy(old(server.log), w) + if r == Some(Committed) then 1 else 0
    ensures r == Some(Committed) ==> CommittedLast(server.log, t, w, change) && t in Now(server.View())
    ensures r == None ==> |refused| == |before| + 1 && NoChance(k, attempt + 1, plan)
    ensures r.Some? ==> refused == before && r.value != GaveUp && Explained(r.value, server.View(), t, from, k, plan)
    ensures plan.lag(attempt) == 0 && UpToDate(before, |start.log|) ==> UpToDate(refused, |start.log|)
  {
    ghost var d := server.View();
    ghost var refusal;
    r, refusal := ReadAndAttempt(server, w, t, change, plan.others[attempt], plan.lag(attempt), plan.getFails(attempt), plan.updateFails(attempt));
    RefusedLater(start, d, server.View(), t, before);
    refused := before;
    if r.Some? {
      PassExplains(r.value, server.View(), t, from, |d.log|, k, attempt, plan);
    } else {
      OneMoreRefusal(start, server.View(), t, before, refusal);
      refused := before + [refusal];
    }
  }

  /** The passes of a retry loop from the k-th on, k conflicts having been met before. */
  method Retry(server: Server, ghost w: nat, t: string, change: Change, k: nat, plan: Plan, ghost start: Data, ghost before: seq<Refusal>)
    returns (outcome: Outcome, ghost refused: seq<Refusal>)
    requires server.Valid() && k == |before| <= MAX_CONFLICT_RETRIES == |plan.others| && Refused(start, server.View(), t, before)
    requires forall a :: 0 <= a < 5 ==> NotBy(plan.others[a], w)
    modifies server
    ensures server.Valid() && Refused(start, server.View(), t, refused)
    ensures WritesBy(server.log, w) == WritesBy(old(server.log), w) + if outcome == Committed then 1 else 0
    ensures outcome == Committed ==> CommittedLast(server.log, t, w, change) && t in Now(server.View())
    ensures outcome == GaveUp <==> |refused| == 5
    ensures Explained(outcome, server.View(), t, |old(server.log)|, k, plan)
    ensures (forall a :: plan.lag(a) == 0) && UpToDate(before, |start.log|) ==> UpToDate(refused, |start.log|)
  {
    refused := before;
    ghost var from := |server.log|;
    for attempt := k to MAX_CONFLICT_RETRIES
      invariant server.Valid() && Refused(start, server.View(), t, refused) && |refused| == attempt
      invariant WritesBy(server.log, w) == WritesBy(old(server.log), w)
      invariant (forall a :: plan.lag(a) == 0) && UpToDate(before, |start.log|) ==> UpToDate(refused, |start.log|)
      invariant NoChance(k, attempt, plan) && from <= |server.log|
    {
      var r;
      r, refused := Pass(server, w, t, change, k, attempt, plan, start, from, refused);
      if r.Some? {
        return r.value, refused;
      }
    }
    return GaveUp, refused;
  }

  /** handleEvent, and the update loop of a poll: reads before every attempt, gives up
      after five conflicts.  It commits at most once, exactly when it reports so, on top of
      everything committed before, and the object then has the change; each refused attempt
      had a copy older than the store.  Every other outcome has its reason, and a loop
      without trouble in which some attempt has a chance commits. */
  method HandleEvent(server: Server, ghost w: nat, t: string, change: Change, plan: Plan)
    returns (outcome: Outcome, ghost refused: seq<Refusal>)
    requires server.Valid() && |plan.others| == MAX_CONFLICT_RETRIES
    requires forall a :: 0 <= a < 5 ==> NotBy(plan.others[a], w)
    modifies server
    ensures server.Valid() && Continues(old(server.View()), server.View())
    ensures WritesBy(server.log, w) == WritesBy(old(server.log), w) + if outcome == Committed then 1 else 0
    ensures outcome == Committed ==> CommittedLast(server.log, t, w, change) && Applied(server.View(), t, change)
    ensures AllStale(server.View(), t, refused) && (outcome == GaveUp <==> |refused| == 5)
    ensures (forall a :: plan.lag(a) == 0) ==> UpToDate(refused, |old(server.log)|)
    ensures Explained(outcome, server.View(), t, |old(server.log)|, 0, plan)
    ensures Untroubled(server.View(), t, |old(server.log)|, 0, plan) && HasChance(0, plan) ==> outcome == Committed
  {
    ContinuesItself(server.View());
    outcome, refused := Retry(server, w, t, change, 0, plan, server.View(), []);
    if outcome == Committed { CommittedIsApplied(server.View(), t, w, change); }
    UntroubledCommits(outcome, server.View(), t, |old(server.log)|, 0, plan);
  }

  /** A cleanup loop: the first attempt uses the copy listed at moment `listed`. */
  method Cleanup(server: Server, ghost w: nat, t: string, cluster: string, listed: nat, early: seq<Entry>, plan: Plan)
    returns (outcome: Outcome, ghost refused: seq<Refusal>)
    requires server.Valid() && |plan.others| == MAX_CONFLICT_RETRIES
    requires listed < |server.past| && t in At(server.View(), listed)
    requires NotBy(early, w) && forall a :: 0 <= a < 5 ==> NotBy(plan.others[a], w)
    modifies server
    ensures server.Valid() && Continues(old(server.View()), server.View())
    ensures WritesBy(server.log, w) == WritesBy(old(server.log), w) + if outcome == Committed then 1 else 0
    ensures outcome == Committed ==> CommittedLast(server.log, t, w, Remove(cluster)) && Applied(server.View(), t, Remove(cluster))
    ensures AllStale(server.View(), t, refused) && (outcome == GaveUp <==> |refused| == 5)
    ensures outcome == GaveUp ==> !(listed == |old(server.log)| && early == [])
    ensures Explained(outcome, server.View(), t, |old(server.log)|, 1, plan) || (outcome == Failed && plan.updateFails(0))
    ensures !plan.updateFails(0) && Untroubled(server.View(), t, |old(server.log)|, 1, plan) &&
            ((listed == |old(server.log)| && early == []) || HasChance(1, plan)) ==>
              outcome == Committed
  {
    ghost var start := server.View();
    var result;
    ghost var refusal;
    result, refusal := Attempt(server, w, t, server.past[listed][t], listed, Remove(cluster), early, plan.updateFails(0));
    if result != Conflict {
      outcome, refused := if result == Updated then Committed else Failed, [];
      if result == Updated { CommittedIsApplied(server.View(), t, w, Remove(cluster)); }
      if result == Missing { GoneExplains(server.View(), t, |start.log|, 1, plan); }
      return;
    }
    OneMoreRefusal(start, server.View(), t, [], refusal);
    ghost var middle := |server.log|;
    outcome, refused := Retry(server, w, t, Remove(cluster), 1, plan, start, [] + [refusal]);
    if outcome == Committed { CommittedIsApplied(server.View(), t, w, Remove(cluster)); }
    ExplainedEarlier(outcome, server.View(), t, |start.log|, middle, 1, plan);
    UntroubledCommits(outcome, server.View(), t, |start.log|, 1, plan);
  }
}
