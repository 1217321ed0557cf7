/** Discovered targets, the events they turn into, and the Target objects they become:
    internal/controller/discovery/mapper.go and client.go. */
module Discovery {
  import opened Ordering
  import opened Placement
  import opened PlacementTheorems

  datatype DiscoveredTarget = DiscoveredTarget(
    name: string, address: string, port: int, labels: map<string, string>, profile: string)

  datatype Action = Delete | Apply

  datatype Event = Event(target: DiscoveredTarget, action: Action)

  /** A TargetSource: its name and the defaults in its spec. */
  datatype Source = Source(name: string, port: int, profile: string, labels: map<string, string>)

  /** The part of a Target object that discovery writes; the address is kept as its two parts. */
  datatype Resource = Resource(host: string, port: int, profile: string, labels: map<string, string>)

  /** The Target objects of the source's namespace. */
  type Store = map<string, Resource>

  const SOURCE_LABEL := "operator.gnmic.dev/targetsource"

  /** The prefix that makes a discovered name unique to its source. */
  function NormalizeTarget(t: DiscoveredTarget, source: string): DiscoveredTarget {
    t.(name := source + "-" + t.name)
  }

  function Normalized(ts: seq<DiscoveredTarget>, source: string): seq<DiscoveredTarget> {
    seq(|ts|, i requires 0 <= i < |ts| => NormalizeTarget(ts[i], source))
  }

  /** Discovered values take precedence over the source's defaults, the source label over all. */
  function GenerateTargetResource(d: DiscoveredTarget, ts: Source): Resource {
    var port := if d.port != 0 then d.port else ts.port;
    var profile := if d.profile != "" then d.profile else ts.profile;
    Resource(d.address, port, profile, (ts.labels + d.labels)[SOURCE_LABEL := ts.name])
  }

  /** The names the label selector finds. */
  function Labelled(store: Store, source: string): set<string> {
    set n | n in store && SOURCE_LABEL in store[n].labels && store[n].labels[SOURCE_LABEL] == source
  }

  function NameSet(ts: seq<DiscoveredTarget>): set<string> {
    set i | 0 <= i < |ts| :: ts[i].name
  }

  function DeleteEvent(name: string): Event {
    Event(DiscoveredTarget(name, "", 0, map[], ""), Delete)
  }

  function DeleteEvents(existing: seq<string>, keep: set<string>): seq<Event> {
    if existing == [] then []
    else
      var k := |existing| - 1;
      DeleteEvents(existing[..k], keep) + if existing[k] in keep then [] else [DeleteEvent(existing[k])]
  }

  function ApplyEvents(ts: seq<DiscoveredTarget>): seq<Event> {
    seq(|ts|, i requires 0 <= i < |ts| => Event(ts[i], Apply))
  }

  /** Deletes for what disappeared, then an apply for every discovered target in order. */
  method GenerateEvents(existing: seq<string>, discovered: seq<DiscoveredTarget>) returns (events: seq<Event>)
    ensures events == DeleteEvents(existing, NameSet(discovered)) + ApplyEvents(discovered)
  {
    var discoveredMap: map<string, DiscoveredTarget> := map[];
    for k := 0 to |discovered|
      invariant discoveredMap.Keys == NameSet(discovered[..k])
    {
      discoveredMap := discoveredMap[discovered[k].name := discovered[k]];
      NameSetGrows(discovered, k);
    }
    assert discovered[..|discovered|] == discovered;
    events := [];
    for k := 0 to |existing|
      invariant events == DeleteEvents(existing[..k], NameSet(discovered))
    {
      assert existing[..k+1][..k] == existing[..k];
      if existing[k] !in discoveredMap {
        events := events + [DeleteEvent(existing[k])];
      }
    }
    assert existing[..|existing|] == existing;
    for k := 0 to |discovered|
      invariant events == DeleteEvents(existing, NameSet(discovered)) + ApplyEvents(discovered[..k])
    {
      events := events + [Event(discovered[k], Apply)];
    }
  }

  lemma NameSetGrows(ts: seq<DiscoveredTarget>, k: nat)
    requires k < |ts|
    ensures NameSet(ts[..k+1]) == NameSet(ts[..k]) + {ts[k].name}
  {
    assert ts[..k+1] == ts[..k] + [ts[k]];
    forall x | x in NameSet(ts[..k]) ensures x in NameSet(ts[..k+1]) {
      var i :| 0 <= i < k && ts[..k][i].name == x;
      assert ts[..k+1][i].name == x;
    }
    assert ts[..k+1][k].name == ts[k].name;
  }

  // ---------- applying events ----------

  /** One event against the API server; a failed call leaves the object as it was. */
  function ApplyEvent(ts: Source, store: Store, e: Event, ok: bool): Store {
    if !ok then store
    else match e.action
      case Delete => store - {e.target.name}
      case Apply => store[e.target.name := GenerateTargetResource(e.target, ts)]
  }

  /** A run of events, one client call each; call number n succeeds when ok(n). */
  function ApplyAll(ts: Source, store: Store, events: seq<Event>, ok: nat -> bool, call: nat): Store {
    if events == [] then store
    else
      var k := |events| - 1;
      ApplyEvent(ts, ApplyAll(ts, store, events[..k], ok, call), events[k], ok(call + k))
  }

  ghost predicate Touches(events: seq<Event>, n: string) {
    exists i :: 0 <= i < |events| && events[i].target.name == n
  }

  lemma {:induction false} UntouchedStays(ts: Source, store: Store, events: seq<Event>, ok: nat -> bool, call: nat, n: string)
    requires !Touches(events, n)
    ensures var after := ApplyAll(ts, store, events, ok, call);
            (n in after <==> n in store) && (n in store ==> after[n] == store[n])
  {
    if events != [] {
      var k := |events| - 1;
      assert forall i :: 0 <= i < k ==> events[..k][i] == events[i];
      UntouchedStays(ts, store, events[..k], ok, call, n);
    }
  }

  /** The event took effect on its name. */
  ghost predicate Decided(ts: Source, e: Event, after: Store) {
    match e.action
    case Delete => e.target.name !in after
    case Apply => e.target.name in after && after[e.target.name] == GenerateTargetResource(e.target, ts)
  }

  /** The last event on a name decides, if its call succeeds. */
  lemma {:induction false} LastEventDecides(ts: Source, store: Store, events: seq<Event>, ok: nat -> bool, call: nat, k: nat)
    requires k < |events| && ok(call + k)
    requires forall j :: k < j < |events| ==> events[j].target.name != events[k].target.name
    ensures Decided(ts, events[k], ApplyAll(ts, store, events, ok, call))
    decreases |events|
  {
    var m := |events| - 1;
    if k < m {
      assert forall j :: 0 <= j < m ==> events[..m][j] == events[j];
      LastEventDecides(ts, store, events[..m], ok, call, k);
      var before := ApplyAll(ts, store, events[..m], ok, call);
      OtherEventKeeps(ts, before, events[k], events[m], ok(call + m));
    }
  }

  lemma OtherEventKeeps(ts: Source, store: Store, e: Event, other: Event, ok: bool)
    requires Decided(ts, e, store) && other.target.name != e.target.name
    ensures Decided(ts, e, ApplyEvent(ts, store, other, ok))
  {
  }

  lemma {:induction false} ApplyAllSplit(ts: Source, store: Store, a: seq<Event>, b: seq<Event>, ok: nat -> bool, call: nat)
    ensures ApplyAll(ts, store, a + b, ok, call) == ApplyAll(ts, ApplyAll(ts, store, a, ok, call), b, ok, call + |a|)
  {
    if b == [] {
      assert a + b == a;
    } else {
      var k := |b| - 1;
      assert (a + b)[..|a + b| - 1] == a + b[..k];
      ApplyAllSplit(ts, store, a, b[..k], ok, call);
    }
  }

  /** Deletes, one or more for each name to go, and none for a name to keep. */
  ghost predicate DeletesExactly(es: seq<Event>, existing: seq<string>, keep: set<string>) {
    && (forall i :: 0 <= i < |es| ==> es[i].action == Delete && es[i].target.name in existing && es[i].target.name !in keep)
    && (forall x :: x in existing && x !in keep ==> Touches(es, x))
  }

  lemma {:induction false} DeleteEventsAre(existing: seq<string>, keep: set<string>)
    ensures DeletesExactly(DeleteEvents(existing, keep), existing, keep)
  {
    if existing != [] {
      var k := |existing| - 1;
      DeleteEventsAre(existing[..k], keep);
      var before, es := DeleteEvents(existing[..k], keep), DeleteEvents(existing, keep);
      forall x | x in existing && x !in keep ensures Touches(es, x) {
        if x == existing[k] {
          assert es[|es| - 1].target.name == x;
        } else {
          assert existing == existing[..k] + [existing[k]];
          var i :| 0 <= i < |before| && before[i].target.name == x;
          assert es[i].target.name == x;
        }
      }
    }
  }

  // ---------- snapshots against the store ----------

  /** One list of events, then another. */
  function InTurn(ts: Source, store: Store, first: seq<Event>, second: seq<Event>, ok: nat -> bool, call: nat): Store {
    ApplyAll(ts, ApplyAll(ts, store, first, ok, call), second, ok, call + |first|)
  }

  /** What reconciling a snapshot makes of the store, given the listing of existing names:
      the deletes, then the applies. */
  function Reconciled(ts: Source, store: Store, existing: seq<string>, discovered: seq<DiscoveredTarget>, ok: nat -> bool, call: nat): Store {
    InTurn(ts, store, DeleteEvents(existing, NameSet(discovered)), ApplyEvents(discovered), ok, call)
  }

  lemma InTurnIsOneRun(ts: Source, store: Store, first: seq<Event>, second: seq<Event>, ok: nat -> bool, call: nat, events: seq<Event>)
    requires events == first + second
    ensures ApplyAll(ts, store, events, ok, call) == InTurn(ts, store, first, second, ok, call)
    ensures |events| == |first| + |second|
  {
    ApplyAllSplit(ts, store, first, second, ok, call);
  }

  /** The processor applies one event list; that is the same. */
  lemma ReconciledIsOneRun(ts: Source, store: Store, existing: seq<string>, discovered: seq<DiscoveredTarget>,
                           ok: nat -> bool, call: nat, events: seq<Event>)
    requires events == DeleteEvents(existing, NameSet(discovered)) + ApplyEvents(discovered)
    ensures ApplyAll(ts, store, events, ok, call) == Reconciled(ts, store, existing, discovered, ok, call)
    ensures |events| == |DeleteEvents(existing, NameSet(discovered))| + |discovered|
  {
    InTurnIsOneRun(ts, store, DeleteEvents(existing, NameSet(discovered)), ApplyEvents(discovered), ok, call, events);
  }

  /** The position of a name's last occurrence. */
  ghost predicate LastOccurrence(ts: seq<DiscoveredTarget>, i: int) {
    0 <= i < |ts| && forall j :: i < j < |ts| ==> ts[j].name != ts[i].name
  }

  lemma {:induction false} HasLastOccurrence(ts: seq<DiscoveredTarget>, n: string) returns (i: int)
    requires n in NameSet(ts)
    ensures LastOccurrence(ts, i) && ts[i].name == n
  {
    var k := |ts| - 1;
    if ts[k].name == n {
      i := k;
    } else {
      NameSetGrows(ts, k);
      assert ts[..k+1] == ts;
      i := HasLastOccurrence(ts[..k], n);
      assert ts[..k][i] == ts[i];
      forall j | i < j < |ts| ensures ts[j].name != n { assert j < k ==> ts[..k][j] == ts[j]; }
    }
  }

  /** Whatever calls fail, a snapshot touches nothing but the names it lists and the
      source's own earlier names. */
  lemma SnapshotTouchesOnlyItsNames(ts: Source, store: Store, existing: seq<string>, discovered: seq<DiscoveredTarget>,
                                    ok: nat -> bool, call: nat, n: string)
    requires n !in existing && n !in NameSet(discovered)
    ensures var after := Reconciled(ts, store, existing, discovered, ok, call);
            (n in after <==> n in store) && (n in store ==> after[n] == store[n])
  {
    var deletes, applies := DeleteEvents(existing, NameSet(discovered)), ApplyEvents(discovered);
    DeleteEventsAre(existing, NameSet(discovered));
    forall i | 0 <= i < |deletes| ensures deletes[i].target.name != n { assert deletes[i].target.name in existing; }
    UntouchedStays(ts, store, deletes, ok, call, n);
    AppliesTouchOnlyNames(discovered, n);
    UntouchedStays(ts, ApplyAll(ts, store, deletes, ok, call), applies, ok, call + |deletes|, n);
  }

  lemma AppliesTouchOnlyNames(discovered: seq<DiscoveredTarget>, n: string)
    requires n !in NameSet(discovered)
    ensures !Touches(ApplyEvents(discovered), n)
  {
    forall i | 0 <= i < |discovered| ensures ApplyEvents(discovered)[i].target.name != n {
      assert discovered[i].name in NameSet(discovered);
    }
  }

  lemma LastApplyWrites(ts: Source, store: Store, discovered: seq<DiscoveredTarget>, ok: nat -> bool, call: nat, i: int)
    requires (forall k :: ok(k)) && LastOccurrence(discovered, i)
    ensures var after := ApplyAll(ts, store, ApplyEvents(discovered), ok, call);
            discovered[i].name in after && after[discovered[i].name] == GenerateTargetResource(discovered[i], ts)
  {
    var applies := ApplyEvents(discovered);
    assert applies[i] == Event(discovered[i], Apply);
    forall j | i < j < |applies| ensures applies[j].target.name != applies[i].target.name { assert applies[j].target == discovered[j]; }
    LastEventDecides(ts, store, applies, ok, call, i);
  }

  /** A listed name ends with the resource of its last occurrence. */
  lemma SnapshotWrites(ts: Source, store: Store, existing: seq<string>, discovered: seq<DiscoveredTarget>, ok: nat -> bool, call: nat, i: int)
    requires (forall k :: ok(k)) && LastOccurrence(discovered, i)
    ensures var after := Reconciled(ts, store, existing, discovered, ok, call);
            discovered[i].name in after && after[discovered[i].name] == GenerateTargetResource(discovered[i], ts)
  {
    var deletes := DeleteEvents(existing, NameSet(discovered));
    LastApplyWrites(ts, ApplyAll(ts, store, deletes, ok, call), discovered, ok, call + |deletes|, i);
  }

  lemma DeletesRemove(ts: Source, store: Store, existing: seq<string>, keep: set<string>, ok: nat -> bool, call: nat, n: string)
    requires (forall k :: ok(k)) && n in existing && n !in keep
    ensures n !in ApplyAll(ts, store, DeleteEvents(existing, keep), ok, call)
  {
    var deletes := DeleteEvents(existing, keep);
    DeleteEventsAre(existing, keep);
    var k := LastTouch(deletes, n);
    LastEventDecides(ts, store, deletes, ok, call, k);
  }

  lemma AppliesLeaveOthers(ts: Source, store: Store, discovered: seq<DiscoveredTarget>, ok: nat -> bool, call: nat, n: string)
    requires n !in NameSet(discovered) && n !in store
    ensures n !in ApplyAll(ts, store, ApplyEvents(discovered), ok, call)
  {
    AppliesTouchOnlyNames(discovered, n);
    UntouchedStays(ts, store, ApplyEvents(discovered), ok, call, n);
  }

  /** A name that disappeared is deleted. */
  lemma SnapshotDeletes(ts: Source, store: Store, existing: seq<string>, discovered: seq<DiscoveredTarget>, ok: nat -> bool, call: nat, n: string)
    requires (forall k :: ok(k)) && n in existing && n !in NameSet(discovered)
    ensures n !in Reconciled(ts, store, existing, discovered, ok, call)
  {
    var deletes := DeleteEvents(existing, NameSet(discovered));
    DeletesRemove(ts, store, existing, NameSet(discovered), ok, call, n);
    AppliesLeaveOthers(ts, ApplyAll(ts, store, deletes, ok, call), discovered, ok, call + |deletes|, n);
  }

  lemma {:induction false} LastTouch(events: seq<Event>, n: string) returns (k: nat)
    requires Touches(events, n)
    ensures k < |events| && events[k].target.name == n && forall j :: k < j < |events| ==> events[j].target.name != n
  {
    var m := |events| - 1;
    if events[m].target.name == n {
      k := m;
    } else {
      var i :| 0 <= i < |events| && events[i].target.name == n;
      assert events[..m][i].target.name == n;
      k := LastTouch(events[..m], n);
      assert events[..m][k] == events[k];
      forall j | k < j < |events| ensures events[j].target.name != n { assert j < m ==> events[..m][j] == events[j]; }
    }
  }

  /** The store holds exactly the snapshot for this source, and nothing else changed. */
  ghost predicate Converged(ts: Source, before: Store, after: Store, discovered: seq<DiscoveredTarget>) {
    && Labelled(after, ts.name) == NameSet(discovered)
    && (forall n :: n in Labelled(before, ts.name) && n !in NameSet(discovered) ==> n !in after)
    && (forall i :: LastOccurrence(discovered, i) ==>
          discovered[i].name in after && after[discovered[i].name] == GenerateTargetResource(discovered[i], ts))
    && (forall n :: n !in Labelled(before, ts.name) && n !in NameSet(discovered) ==>
          (n in after <==> n in before) && (n in before ==> after[n] == before[n]))
  }

  /** With successful calls the store converges on the snapshot, from any state. */
  lemma StoreConverges(ts: Source, store: Store, existing: seq<string>, discovered: seq<DiscoveredTarget>, ok: nat -> bool, call: nat)
    requires (forall k :: ok(k)) && Elements(existing) == Labelled(store, ts.name)
    ensures Converged(ts, store, Reconciled(ts, store, existing, discovered, ok, call), discovered)
  {
    var after := Reconciled(ts, store, existing, discovered, ok, call);
    forall i | LastOccurrence(discovered, i)
      ensures discovered[i].name in after && after[discovered[i].name] == GenerateTargetResource(discovered[i], ts)
    {
      SnapshotWrites(ts, store, existing, discovered, ok, call, i);
    }
    forall n | n !in Labelled(store, ts.name) && n !in NameSet(discovered)
      ensures (n in after <==> n in store) && (n in store ==> after[n] == store[n])
    {
      assert n !in Elements(existing);
      SnapshotTouchesOnlyItsNames(ts, store, existing, discovered, ok, call, n);
    }
    forall n | n in Labelled(store, ts.name) && n !in NameSet(discovered) ensures n !in after {
      assert n in Elements(existing);
      SnapshotDeletes(ts, store, existing, discovered, ok, call, n);
    }
    forall n ensures n in Labelled(after, ts.name) <==> n in NameSet(discovered) {
      if n in NameSet(discovered) {
        var i := HasLastOccurrence(discovered, n);
      }
    }
  }

  /** Convergence determines the store, so applying a snapshot again changes nothing. */
  lemma ReapplyIsNoOp(ts: Source, store: Store, existing: seq<string>, existing': seq<string>,
                      discovered: seq<DiscoveredTarget>, ok: nat -> bool, call: nat, call': nat)
    requires (forall k :: ok(k)) && Elements(existing) == Labelled(store, ts.name)
    requires Elements(existing') == Labelled(Reconciled(ts, store, existing, discovered, ok, call), ts.name)
    ensures var once := Reconciled(ts, store, existing, discovered, ok, call);
            Reconciled(ts, once, existing', discovered, ok, call') == once
  {
    var once := Reconciled(ts, store, existing, discovered, ok, call);
    var twice := Reconciled(ts, once, existing', discovered, ok, call');
    StoreConverges(ts, store, existing, discovered, ok, call);
    StoreConverges(ts, once, existing', discovered, ok, call');
    forall n ensures (n in twice <==> n in once) && (n in once ==> twice[n] == once[n]) {
      if n in NameSet(discovered) {
        var i := HasLastOccurrence(discovered, n);
      }
    }
  }

  // ---------- field by field ----------

  /** The object that discovery writes for d: the discovered port, profile and labels where
      there are any, the source's otherwise, and the source's name under its own label. */
  ghost predicate HasFields(r: Resource, d: DiscoveredTarget, ts: Source) {
    && r.host == d.address
    && (d.port != 0 ==> r.port == d.port) && (d.port == 0 ==> r.port == ts.port)
    && (d.profile != "" ==> r.profile == d.profile) && (d.profile == "" ==> r.profile == ts.profile)
    && (forall k :: k in r.labels <==> k == "operator.gnmic.dev/targetsource" || k in d.labels || k in ts.labels)
    && (forall k :: k in r.labels ==>
          if k == "operator.gnmic.dev/targetsource" then r.labels[k] == ts.name
          else if k in d.labels then r.labels[k] == d.labels[k]
          else k in ts.labels && r.labels[k] == ts.labels[k])
  }

  lemma GeneratedFields(d: DiscoveredTarget, ts: Source)
    ensures HasFields(GenerateTargetResource(d, ts), d, ts)
  {
  }

  /** After a snapshot, whose calls succeed, the last occurrence of a name has its object. */
  lemma SnapshotFields(ts: Source, store: Store, existing: seq<string>, discovered: seq<DiscoveredTarget>, ok: nat -> bool, call: nat, i: int)
    requires (forall k :: ok(k)) && LastOccurrence(discovered, i)
    ensures var after := Reconciled(ts, store, existing, discovered, ok, call);
            discovered[i].name in after && HasFields(after[discovered[i].name], discovered[i], ts)
  {
    SnapshotWrites(ts, store, existing, discovered, ok, call, i);
    GeneratedFields(discovered[i], ts);
  }

  /** Normalizing puts the source's name and a dash before the name and touches nothing else. */
  lemma NormalizedFields(targets: seq<DiscoveredTarget>, source: string, i: nat)
    requires i < |targets|
    ensures |Normalized(targets, source)| == |targets|
    ensures Normalized(targets, source)[i] ==
            DiscoveredTarget(source + "-" + targets[i].name, targets[i].address, targets[i].port, targets[i].labels, targets[i].profile)
  {
  }

  lemma SamePrefixSameName(source: string, a: string, b: string)
    requires source + "-" + a == source + "-" + b
    ensures a == b
  {
    var n := |source| + 1;
    assert a == (source + "-" + a)[n..] && b == (source + "-" + b)[n..];
  }

  /** A store that has converged on what a loader reported holds, for the last report of
      each name, the object with its fields under the prefixed name. */
  lemma ConvergedFields(ts: Source, before: Store, after: Store, targets: seq<DiscoveredTarget>, i: nat)
    requires Converged(ts, before, after, Normalized(targets, ts.name)) && LastOccurrence(targets, i)
    ensures var name := ts.name + "-" + targets[i].name;
            name in after && HasFields(after[name], targets[i], ts)
  {
    var all := Normalized(targets, ts.name);
    forall j | i < j < |all| ensures all[j].name != all[i].name {
      if all[j].name == all[i].name { SamePrefixSameName(ts.name, targets[j].name, targets[i].name); }
    }
    assert LastOccurrence(all, i);
    GeneratedFields(all[i], ts);
  }

  /** Of the objects that are not in the snapshot, exactly those labelled with this source
      are gone; those of other sources, and those of none, are as they were. */
  lemma OnlyOwnObjectsGo(ts: Source, before: Store, after: Store, discovered: seq<DiscoveredTarget>, n: string)
    requires Converged(ts, before, after, discovered) && n !in NameSet(discovered)
    ensures n in after <==>
            n in before && !("operator.gnmic.dev/targetsource" in before[n].labels &&
                             before[n].labels["operator.gnmic.dev/targetsource"] == ts.name)
    ensures n in after ==> after[n] == before[n]
  {
    if n in Labelled(before, ts.name) { assert n !in after; }
  }
}
