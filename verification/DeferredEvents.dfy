/** What becomes of events that arrive while a snapshot is being collected.

    The processor means to apply them after the snapshot.  It replays them while the
    snapshot is still active, so they are deferred a second time and then dropped. */
module DeferredEvents {
  import opened Ordering
  import opened Placement
  import opened PlacementTheorems
  import opened Discovery
  import opened SnapshotProtocol
  import opened Reassembly

  /** The events of a run as the processor sees them, in order. */
  function Events(ms: seq<Message>, source: string): seq<Event> {
    if ms == [] then []
    else
      var k := |ms| - 1;
      Events(ms[..k], source) +
      match ms[k] case SnapshotMessage(_) => [] case EventMessage(e) => [e.(target := NormalizeTarget(e.target, source))]
  }

  ghost predicate IsLastOn(events: seq<Event>, k: int) {
    0 <= k < |events| && forall j :: k < j < |events| ==> events[j].target.name != events[k].target.name
  }

  /** The event would change the store. */
  predicate Bites(ts: Source, store: Store, e: Event) {
    match e.action
    case Delete => e.target.name in store
    case Apply => !(e.target.name in store && store[e.target.name] == GenerateTargetResource(e.target, ts))
  }

  /** A run of events changes the store exactly when the last event on some name would. */
  lemma EventsChangeExactly(ts: Source, store: Store, events: seq<Event>, ok: nat -> bool, call: nat)
    requires forall k :: ok(k)
    ensures ApplyAll(ts, store, events, ok, call) != store <==> exists k :: IsLastOn(events, k) && Bites(ts, store, events[k])
  {
    var after := ApplyAll(ts, store, events, ok, call);
    if k :| IsLastOn(events, k) && Bites(ts, store, events[k]) {
      LastEventDecides(ts, store, events, ok, call, k);
    } else {
      forall n ensures (n in after <==> n in store) && (n in store ==> after[n] == store[n]) {
        if Touches(events, n) {
          var k := LastTouch(events, n);
          assert IsLastOn(events, k);
          LastEventDecides(ts, store, events, ok, call, k);
        } else {
          UntouchedStays(ts, store, events, ok, call, n);
        }
      }
    }
  }

  /** The store the processor documents for such a run: the snapshot, then the events. */
  function Documented(env: Env, s: State, targets: seq<DiscoveredTarget>, ms: seq<Message>): Store {
    var after := AfterApply(env, s.store, s.calls, Normalized(targets, env.source.name));
    ApplyAll(env.source, after.store, Events(ms, env.source.name), env.ok, after.calls)
  }

  /** Nothing is lost with the event: a snapshot of `all` leaves the store as the event would. */
  ghost predicate Harmless(ts: Source, before: Store, all: seq<DiscoveredTarget>, e: Event) {
    match e.action
    case Delete => e.target.name !in NameSet(all) && (e.target.name in before ==> e.target.name in Labelled(before, ts.name))
    case Apply =>
      exists i :: LastOccurrence(all, i) && all[i].name == e.target.name &&
                  GenerateTargetResource(all[i], ts) == GenerateTargetResource(e.target, ts)
  }

  lemma BitesExactly(ts: Source, before: Store, after: Store, all: seq<DiscoveredTarget>, e: Event)
    requires Converged(ts, before, after, all)
    ensures Bites(ts, after, e) <==> !Harmless(ts, before, all, e)
  {
    var n := e.target.name;
    if n in NameSet(all) {
      var i := HasLastOccurrence(all, n);
      assert n in after && after[n] == GenerateTargetResource(all[i], ts);
      if e.action == Apply && Harmless(ts, before, all, e) {
        var j :| LastOccurrence(all, j) && all[j].name == n && GenerateTargetResource(all[j], ts) == GenerateTargetResource(e.target, ts);
        assert i == j;
      }
    } else {
      assert n !in Labelled(after, ts.name);
      assert SOURCE_LABEL in GenerateTargetResource(e.target, ts).labels;
    }
  }

  /** Over a run that delivers one snapshot with events in between, the processor ends
      where it says it does exactly when the last event on each name is harmless: a delete
      of a name that is not in the snapshot and belongs to the source or to nobody, or an
      apply of what the snapshot says about that name anyway. */
  lemma DeferredEventsLostExactly(env: Env, s: State, targets: seq<DiscoveredTarget>, id: string, size: nat, ms: seq<Message>)
    requires size > 0 && targets != [] && StartsFresh(s, id) && forall k :: env.ok(k)
    requires multiset(Chunks(ms)) == multiset(AllChunks(targets, id, size))
    requires ms != [] && ms[0].SnapshotMessage? && ms[|ms| - 1].SnapshotMessage?
    ensures var all, events := Normalized(targets, env.source.name), Events(ms, env.source.name);
            Run(env, s, ms).state.store == Documented(env, s, targets, ms) <==>
            forall k :: IsLastOn(events, k) ==> Harmless(env.source, s.store, all, events[k])
  {
    var all, events := Normalized(targets, env.source.name), Events(ms, env.source.name);
    var after := AfterApply(env, s.store, s.calls, all);
    ReassemblyRoundTrip(env, s, targets, id, size, ms);
    AppliedConverges(env, s.store, s.calls, all);
    EventsHarmlessExactly(env.source, s.store, after.store, all, events, env.ok, after.calls);
    DocumentedIs(env, s, targets, ms, all, after);
  }

  lemma DocumentedIs(env: Env, s: State, targets: seq<DiscoveredTarget>, ms: seq<Message>, all: seq<DiscoveredTarget>, after: State)
    requires all == Normalized(targets, env.source.name) && after == AfterApply(env, s.store, s.calls, all)
    ensures Documented(env, s, targets, ms) == ApplyAll(env.source, after.store, Events(ms, env.source.name), env.ok, after.calls)
  {
  }

  /** On a store that has converged on a snapshot, events change nothing exactly when the
      last one on each name is harmless. */
  lemma EventsHarmlessExactly(ts: Source, before: Store, after: Store, all: seq<DiscoveredTarget>, events: seq<Event>,
                              ok: nat -> bool, call: nat)
    requires Converged(ts, before, after, all) && forall k :: ok(k)
    ensures after == ApplyAll(ts, after, events, ok, call) <==>
            forall k :: IsLastOn(events, k) ==> Harmless(ts, before, all, events[k])
  {
    EventsChangeExactly(ts, after, events, ok, call);
    forall k | IsLastOn(events, k) ensures Bites(ts, after, events[k]) <==> !Harmless(ts, before, all, events[k]) {
      BitesExactly(ts, before, after, all, events[k]);
    }
  }

  // ---------- a concrete run ----------

  function Device(name: string): DiscoveredTarget { DiscoveredTarget(name, "10.0.0.1", 57400, map[], "default") }

  const LAB := Source("lab", 57400, "default", map[])

  /** Two chunks with a delete for the first chunk's device between them. */
  function LostDelete(): seq<Message> {
    [SnapshotMessage(Chunk("s1", 0, 2, [Device("a")])),
     EventMessage(Event(Device("a"), Delete)),
     SnapshotMessage(Chunk("s1", 1, 2, [Device("b")]))]
  }

  /** The deleted device is still there when the run ends. */
  lemma DeleteIsLost(env: Env, s: State)
    requires env.source == LAB && StartsFresh(s, "s1") && forall k :: env.ok(k)
    ensures "lab-a" in Run(env, s, LostDelete()).state.store
    ensures "lab-a" !in Documented(env, s, [Device("a"), Device("b")], LostDelete())
  {
    var ms, targets := LostDelete(), [Device("a"), Device("b")];
    LostDeleteDelivers();
    ReassemblyRoundTrip(env, s, targets, "s1", 1, ms);
    FirstDeviceWritten(env, s);
    DeleteWouldRemove(env, AfterApply(env, s.store, s.calls, Normalized(targets, "lab")));
  }

  lemma FirstDeviceWritten(env: Env, s: State)
    requires env.source == LAB && forall k :: env.ok(k)
    ensures "lab-a" in AfterApply(env, s.store, s.calls, Normalized([Device("a"), Device("b")], "lab")).store
  {
    var all := Normalized([Device("a"), Device("b")], "lab");
    assert all[0].name == "lab-a" && all[1].name == "lab-b";
    assert LastOccurrence(all, 0);
    SnapshotWrites(LAB, s.store, ExistingNames(env, s.store, s.calls), all, env.ok, s.calls + 1, 0);
  }

  lemma DeleteWouldRemove(env: Env, after: State)
    requires env.source == LAB && forall k :: env.ok(k)
    ensures "lab-a" !in ApplyAll(LAB, after.store, Events(LostDelete(), "lab"), env.ok, after.calls)
  {
    LostDeleteEvents();
    var events := Events(LostDelete(), "lab");
    assert events[0].target.name == "lab-a";
    LastEventDecides(LAB, after.store, events, env.ok, after.calls, 0);
  }

  lemma LostDeletePrefixes()
    ensures LostDelete()[..2] == [LostDelete()[0], LostDelete()[1]]
    ensures [LostDelete()[0], LostDelete()[1]][..1] == [LostDelete()[0]]
    ensures [LostDelete()[0]][..0] == []
  {
  }

  lemma LostDeleteEvents()
    ensures Events(LostDelete(), "lab") == [Event(NormalizeTarget(Device("a"), "lab"), Delete)]
  {
    LostDeletePrefixes();
    var ms := LostDelete();
    assert Events([ms[0]], "lab") == Events([], "lab") + [];
    assert Events([ms[0], ms[1]], "lab") == Events([ms[0]], "lab") + [Event(NormalizeTarget(Device("a"), "lab"), Delete)];
    assert Events(ms, "lab") == Events([ms[0], ms[1]], "lab") + [];
  }

  lemma LostDeleteDelivers()
    ensures multiset(Chunks(LostDelete())) == multiset(AllChunks([Device("a"), Device("b")], "s1", 1))
  {
    LostDeletePrefixes();
    var ms, targets := LostDelete(), [Device("a"), Device("b")];
    assert Chunks([ms[0]]) == Chunks([]) + [ms[0].chunk];
    assert Chunks([ms[0], ms[1]]) == Chunks([ms[0]]) + [];
    assert Chunks(ms) == Chunks([ms[0], ms[1]]) + [ms[2].chunk];
    assert targets[0..1] == [Device("a")] && targets[1..2] == [Device("b")];
    assert AllChunks(targets, "s1", 1) == [ms[0].chunk, ms[2].chunk];
  }
}
