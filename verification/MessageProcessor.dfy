/** The message processor itself: internal/controller/discovery/message_processor.go.

    Chunks arrive as slices of the loader's array and are normalized in place, so the
    buffer holds windows on arrays that later messages also touch.  Each method is
    proved to take the step that SnapshotProtocol gives for the viewed values. */
module MessageProcessing {
  import opened Ordering
  import opened Placement
  import opened PlacementTheorems
  import opened Discovery
  import opened SnapshotProtocol
  import opened Reassembly

  datatype WireMessage = WireSnapshot(chunk: WireChunk) | WireEvent(event: Event) {
    ghost predicate Valid() { WireSnapshot? ==> chunk.slice.Valid() }

    function Base(): set<array<DiscoveredTarget>> {
      if WireSnapshot? then {chunk.slice.base} else {}
    }

    ghost function View(): Message
      requires Valid()
      reads Base()
    {
      match this
      case WireSnapshot(c) => SnapshotMessage(c.View())
      case WireEvent(e) => EventMessage(e)
    }
  }

  datatype WireBuffer = WireBuffer(id: string, total: int, received: map<int, Slice>, complete: bool)

  /** The API server as one source sees it: each call succeeds or not as env.ok says. */
  class Client {
    const env: Env
    var store: Store
    var calls: nat

    constructor (env: Env, store: Store)
      ensures this.env == env && this.store == store && calls == 0
    {
      this.env, this.store, calls := env, store, 0;
    }

    method FetchExistingTargets() returns (names: seq<string>)
      modifies this`calls
      ensures calls == old(calls) + 1
      ensures names == if env.ok(old(calls)) then env.listing(old(calls), Labelled(store, env.source.name)) else []
      ensures Elements(names) == if env.ok(old(calls)) then Labelled(store, env.source.name) else {}
    {
      names := if env.ok(calls) then env.listing(calls, Labelled(store, env.source.name)) else [];
      calls := calls + 1;
    }

    method ApplyEvent(e: Event) returns (ok: bool)
      modifies this
      ensures ok == env.ok(old(calls)) && calls == old(calls) + 1
      ensures store == Discovery.ApplyEvent(env.source, old(store), e, ok)
    {
      ok := env.ok(calls);
      calls := calls + 1;
      if ok {
        match e.action
        case Delete => store := store - {e.target.name};
        case Apply => store := store[e.target.name := GenerateTargetResource(e.target, env.source)];
      }
    }

    method ApplyEvents(events: seq<Event>)
      modifies this
      ensures calls == old(calls) + |events|
      ensures store == ApplyAll(env.source, old(store), events, env.ok, old(calls))
    {
      for k := 0 to |events|
        invariant calls == old(calls) + k
        invariant store == ApplyAll(env.source, old(store), events[..k], env.ok, old(calls))
      {
        assert events[..k+1][..k] == events[..k];
        var _ := ApplyEvent(events[k]);
      }
      assert events[..|events|] == events;
    }
  }

  /** Normalizes every element of a slice where it lies. */
  method NormalizeInPlace(s: Slice, source: string)
    requires s.Valid()
    modifies s.base
    ensures s.Contents() == Normalized(old(s.Contents()), source)
    ensures forall i :: 0 <= i < s.base.Length && !(s.lo <= i < s.hi) ==> s.base[i] == old(s.base[i])
  {
    for i := s.lo to s.hi
      invariant forall j :: s.lo <= j < i ==> s.base[j] == NormalizeTarget(old(s.base[j]), source)
      invariant forall j :: 0 <= j < s.base.Length && !(s.lo <= j < i) ==> s.base[j] == old(s.base[j])
    {
      s.base[i] := NormalizeTarget(s.base[i], source);
    }
  }

  ghost function Bases(received: map<int, Slice>): set<array<DiscoveredTarget>> {
    set k | k in received :: received[k].base
  }

  ghost predicate ValidSlices(received: map<int, Slice>) {
    forall k :: k in received ==> received[k].Valid()
  }

  ghost function ViewSlices(received: map<int, Slice>): map<int, seq<DiscoveredTarget>>
    requires ValidSlices(received)
    reads Bases(received)
  {
    map k | k in received :: received[k].Contents()
  }

  /** Nothing is buffered but what was, and the slice just received. */
  ghost predicate GrewBy(before: map<int, Slice>, after: map<int, Slice>, s: Slice) {
    forall k :: k in after ==> after[k] == s || (k in before && after[k] == before[k])
  }

  ghost predicate ApartFromAll(s: Slice, received: map<int, Slice>) {
    forall k :: k in received ==> s.Apart(received[k])
  }

  /** What is buffered reads the same while no backing array changes. */
  twostate lemma SameSlices(received: map<int, Slice>)
    requires ValidSlices(received)
    requires forall k :: k in received ==> Untouched(received[k].base)
    ensures ViewSlices(received) == old(ViewSlices(received))
  {
    forall k | k in received ensures received[k].Contents() == old(received[k].Contents()) { }
  }

  /** The slice's array changed at most inside the slice. */
  twostate predicate OnlyInside(s: Slice)
    reads s.base
  {
    forall i :: 0 <= i < s.base.Length && !(s.lo <= i < s.hi) ==> s.base[i] == old(s.base[i])
  }

  twostate predicate Untouched(a: array<DiscoveredTarget>)
    reads a
  {
    forall i :: 0 <= i < a.Length ==> a[i] == old(a[i])
  }

  // ---------- the queue ----------

  /** What normalizing in place makes of a message: the targets of a chunk get their prefix. */
  function NormalizedMessage(m: Message, source: string): Message {
    match m
    case SnapshotMessage(c) => SnapshotMessage(NormalizeChunk(c, source))
    case EventMessage(_) => m
  }

  function NormalizedMessages(ms: seq<Message>, source: string): (r: seq<Message>)
    ensures |r| == |ms| && forall i :: 0 <= i < |ms| ==> r[i] == NormalizedMessage(ms[i], source)
  {
    seq(|ms|, i requires 0 <= i < |ms| => NormalizedMessage(ms[i], source))
  }

  function QueueBases(q: seq<WireMessage>): set<array<DiscoveredTarget>> {
    set i, a | 0 <= i < |q| && a in q[i].Base() :: a
  }

  ghost predicate AllValid(q: seq<WireMessage>) {
    forall i :: 0 <= i < |q| ==> q[i].Valid()
  }

  ghost function ViewAll(q: seq<WireMessage>): (r: seq<Message>)
    requires AllValid(q)
    reads QueueBases(q)
    ensures |r| == |q| && forall i :: 0 <= i < |q| ==> r[i] == q[i].View()
  {
    assert forall i :: 0 <= i < |q| ==> q[i].Base() <= QueueBases(q);
    seq(|q|, i requires 0 <= i < |q| && q[i].Valid() reads if 0 <= i < |q| then q[i].Base() else {} => q[i].View())
  }

  ghost predicate MessageApart(m: WireMessage, n: WireMessage) {
    m.WireSnapshot? && n.WireSnapshot? ==> m.chunk.slice.Apart(n.chunk.slice)
  }

  ghost predicate PairsApart(q: seq<WireMessage>) {
    forall i, j :: 0 <= i < |q| && 0 <= j < |q| && i != j ==> MessageApart(q[i], q[j])
  }

  /** The messages from the k-th on do not overlap anything buffered. */
  ghost predicate ApartFrom(q: seq<WireMessage>, k: nat, received: map<int, Slice>) {
    forall i :: k <= i < |q| && q[i].WireSnapshot? ==> ApartFromAll(q[i].chunk.slice, received)
  }

  /** Queued slices overlap neither each other nor anything buffered: each chunk of a
      snapshot is its own window, and each snapshot has its own array. */
  ghost predicate Sound(q: seq<WireMessage>, received: map<int, Slice>) {
    AllValid(q) && PairsApart(q) && ApartFrom(q, 0, received)
  }

  /** If the array of m changed inside m's slice only, other still reads the same. */
  twostate predicate OthersUntouched(m: WireMessage, other: WireMessage)
    reads other.Base()
  {
    m.WireSnapshot? && other.WireSnapshot? ==>
      forall j :: other.chunk.slice.lo <= j < other.chunk.slice.hi && j < other.chunk.slice.base.Length ==>
        other.chunk.slice.base[j] == old(other.chunk.slice.base[j])
  }

  lemma {:induction false} RunStops(env: Env, s: State, ms: seq<Message>, k: nat)
    requires k <= |ms| && Run(env, s, ms[..k]).failed
    ensures Run(env, s, ms) == Run(env, s, ms[..k])
  {
    if k == |ms| {
      assert ms[..k] == ms;
    } else {
      assert ms[..|ms| - 1][..k] == ms[..k];
      RunStops(env, s, ms[..|ms| - 1], k);
    }
  }

  /** One listing and one run of events lead to the state after a snapshot. */
  lemma AfterApplyIs(env: Env, store: Store, calls: nat, all: seq<DiscoveredTarget>, existing: seq<string>, events: seq<Event>)
    requires existing == ExistingNames(env, store, calls)
    requires events == DeleteEvents(existing, NameSet(all)) + Discovery.ApplyEvents(all)
    ensures AfterApply(env, store, calls, all).store == ApplyAll(env.source, store, events, env.ok, calls + 1)
    ensures AfterApply(env, store, calls, all).calls == calls + 1 + |events|
  {
    ReconciledIsOneRun(env.source, store, existing, all, env.ok, calls + 1, events);
  }

  lemma ViewOfStored(received: map<int, Slice>, index: int, slice: Slice)
    requires ValidSlices(received) && slice.Valid()
    ensures ViewSlices(received[index := slice]) == ViewSlices(received)[index := slice.Contents()]
    ensures |ViewSlices(received[index := slice])| == |received[index := slice]|
  {
    assert ViewSlices(received[index := slice]).Keys == received[index := slice].Keys;
  }

  class MessageProcessor {
    const client: Client
    var queue: seq<WireMessage>
    var active: Option<WireBuffer>
    var deferred: seq<Event>
    var count: int

    constructor (client: Client)
      ensures this.client == client && queue == [] && active == None && deferred == [] && count == 0
    {
      this.client := client;
      queue, active, deferred, count := [], None, [], 0;
    }

    function Slices(): map<int, Slice>
      reads this`active
    {
      if active.Some? then active.value.received else map[]
    }

    ghost predicate Valid()
      reads this`active
    {
      ValidSlices(Slices())
    }

    ghost function ViewActive(): Option<Buffer>
      requires Valid()
      reads this`active, Bases(Slices())
    {
      match active
      case None => None
      case Some(b) => Some(Buffer(b.id, b.total, ViewSlices(b.received), b.complete))
    }

    /** The processor's state as values, read through the buffered slices. */
    ghost function View(): State
      requires Valid()
      reads this`active, this`deferred, this`count, client, Bases(Slices())
    {
      State(ViewActive(), deferred, count, client.store, client.calls)
    }

    method ApplySnapshot(b: WireBuffer) returns (ok: bool)
      requires Valid() && active == Some(b)
      modifies this`active, this`deferred, this`count, client
      ensures Valid() && active == None
      ensures var r := SnapshotProtocol.ApplySnapshot(client.env, old(View()), old(ViewActive()).value);
              View() == r.state && ok == !r.failed
    {
      var all: seq<DiscoveredTarget> := [];
      var i := 0;
      ghost var received := ViewSlices(b.received);
      while i < b.total
        invariant 0 <= i && (i > 0 ==> i <= b.total)
        invariant Gather(received, i) == Some(all)
        invariant active == Some(b) && deferred == old(deferred) && count == old(count)
        invariant client.store == old(client.store) && client.calls == old(client.calls)
      {
        if i !in b.received {
          active := None;
          MissingChunk(received, i, b.total);
          return false;
        }
        var s := b.received[i];
        all := all + s.base[s.lo..s.hi];
        i := i + 1;
      }
      assert Gather(received, b.total) == Some(all);
      Reconcile(all);
      ReplayDeferred();
      count := SnapshotProtocol.Int32(|all|);
      active := None;
      deferred := [];
      return true;
    }

    method Reconcile(all: seq<DiscoveredTarget>)
      modifies client
      ensures client.store == AfterApply(client.env, old(client.store), old(client.calls), all).store
      ensures client.calls == AfterApply(client.env, old(client.store), old(client.calls), all).calls
    {
      var existing := client.FetchExistingTargets();
      var events := GenerateEvents(existing, all);
      AfterApplyIs(client.env, old(client.store), old(client.calls), all, existing, events);
      client.ApplyEvents(events);
    }

    /** The replay loop: it ranges over the queue as it was, and every event is deferred again. */
    method ReplayDeferred()
      requires active.Some?
      modifies this`deferred
      ensures deferred == old(deferred) + old(deferred)
    {
      var events := deferred;
      for k := 0 to |events|
        invariant deferred == events + events[..k]
      {
        assert events[..k+1] == events[..k] + [events[k]];
        deferred := deferred + [events[k]];
      }
      assert events[..|events|] == events;
    }

    method ProcessEvent(e: Event) returns (ok: bool)
      requires Valid()
      modifies this`deferred, this`count, client
      ensures Valid() && active == old(active)
      ensures var r := SnapshotProtocol.ProcessEvent(client.env, old(View()), e);
              View() == r.state && ok == !r.failed
    {
      if active.Some? {
        deferred := deferred + [e];
        SameSlices(Slices());
        return true;
      }
      ok := client.ApplyEvent(e);
      if ok {
        match e.action
        case Apply => count := SnapshotProtocol.Int32(count + 1);
        case Delete => count := SnapshotProtocol.Int32(count - 1);
      }
    }

    method CollectSnapshot(c: WireChunk) returns (ok: bool)
      requires Valid() && active.Some? && c.slice.Valid()
      modifies this`active, this`deferred, this`count, client
      ensures Valid() && GrewBy(old(Slices()), Slices(), c.slice)
      ensures var r := CollectChunk(client.env, old(View()), old(ViewActive()).value, old(c.View()));
              View() == r.state && ok == !r.failed
    {
      var b := active.value;
      if c.total != b.total {
        return false;
      }
      if c.index < 0 || c.index >= b.total {
        active := None;
        return false;
      }
      if c.index in b.received {
        active := None;
        return false;
      }
      ok := StoreChunk(c, b);
    }

    /** Buffers a good chunk, and applies the snapshot if that was the last one missing. */
    method StoreChunk(c: WireChunk, b: WireBuffer) returns (ok: bool)
      requires Valid() && active == Some(b) && c.slice.Valid() && c.index !in b.received
      modifies this`active, this`deferred, this`count, client
      ensures Valid() && GrewBy(old(Slices()), Slices(), c.slice)
      ensures var r := StoreValue(client.env, old(View()), old(ViewActive()).value, old(c.View()));
              View() == r.state && ok == !r.failed
    {
      var received := b.received[c.index := c.slice];
      ViewOfStored(b.received, c.index, c.slice);
      active := Some(b.(received := received, complete := |received| == b.total || b.complete));
      SameSlices(received);
      ok := true;
      if |received| == b.total {
        ok := ApplySnapshot(active.value);
      }
    }

    method StartNewSnapshot(c: WireChunk) returns (ok: bool)
      requires Valid() && c.slice.Valid()
      modifies this`active, this`deferred, this`count, client
      ensures Valid() && GrewBy(old(Slices()), Slices(), c.slice)
      ensures var r := StartSnapshot(client.env, old(View()), old(c.View()));
              View() == r.state && ok == !r.failed
    {
      active := Some(WireBuffer(c.id, c.total, map[], false));
      deferred := [];
      assert ViewSlices(map[]) == map[];
      ok := CollectSnapshot(c);
    }

    method ProcessSnapshot(c: WireChunk) returns (ok: bool)
      requires Valid() && c.slice.Valid()
      modifies this`active, this`deferred, this`count, client
      ensures Valid() && GrewBy(old(Slices()), Slices(), c.slice)
      ensures var r := SnapshotProtocol.ProcessSnapshot(client.env, old(View()), old(c.View()));
              View() == r.state && ok == !r.failed
    {
      if active.None? {
        ok := StartNewSnapshot(c);
        return;
      }
      var b := active.value;
      if b.id != c.id {
        if b.complete {
          ok := ApplySnapshot(b);
          if !ok {
            return;
          }
        }
        ok := StartNewSnapshot(c);
        return;
      }
      ok := CollectSnapshot(c);
    }

    /** Normalizes the message where it lies, then hands it on. */
    method ProcessMessage(m: WireMessage) returns (ok: bool)
      requires Valid() && m.Valid() && (m.WireSnapshot? ==> ApartFromAll(m.chunk.slice, Slices()))
      modifies this`active, this`deferred, this`count, client, m.Base()
      ensures Valid()
      ensures var r := Process(client.env, old(View()), old(m.View()));
              View() == r.state && ok == !r.failed
      ensures if m.WireSnapshot? then GrewBy(old(Slices()), Slices(), m.chunk.slice) else Slices() == old(Slices())
      ensures m.WireSnapshot? ==> OnlyInside(m.chunk.slice)
      ensures m.View() == NormalizedMessage(old(m.View()), client.env.source.name)
    {
      if m.WireSnapshot? {
        var c := m.chunk;
        NormalizeInPlace(c.slice, client.env.source.name);
        forall k | k in Slices() ensures Slices()[k].Contents() == old(Slices()[k].Contents()) {
          var t := Slices()[k];
          assert c.slice.Apart(t);
          assert forall i :: t.lo <= i < t.hi ==> t.base[i] == old(t.base[i]);
        }
        assert ViewSlices(Slices()) == old(ViewSlices(Slices()));
        ok := ProcessSnapshot(c);
      } else {
        ok := ProcessEvent(m.event.(target := NormalizeTarget(m.event.target, client.env.source.name)));
      }
    }

    /** Processing the k-th of the messages `all` normalizes that one and leaves the others as they are. */
    method ProcessNth(ghost all: seq<WireMessage>, ghost k: nat, msg: WireMessage) returns (ok: bool)
      requires k < |all| && all[k] == msg
      requires Valid() && AllValid(all) && PairsApart(all) && ApartFrom(all, k, Slices())
      modifies this`active, this`deferred, this`count, client, msg.Base()
      ensures Valid() && ApartFrom(all, k + 1, Slices())
      ensures ViewAll(all) == old(ViewAll(all))[k := NormalizedMessage(old(ViewAll(all))[k], client.env.source.name)]
      ensures var r := Process(client.env, old(View()), old(ViewAll(all))[k]);
              View() == r.state && ok == !r.failed
    {
      ghost var before := Slices();
      assert msg.View() == ViewAll(all)[k];
      ok := ProcessMessage(msg);
      NextStaysApart(all, k, before, Slices());
      forall i | 0 <= i < |all| && i != k ensures all[i].View() == old(all[i].View()) {
        assert MessageApart(msg, all[i]);
        assert OthersUntouched(msg, all[i]);
      }
    }

    /** Takes the first message off the queue and processes it; k messages of `all` went before. */
    method ProcessHead(ghost all: seq<WireMessage>, ghost k: nat) returns (ok: bool)
      requires k < |all| && queue == all[k..]
      requires Valid() && AllValid(all) && PairsApart(all) && ApartFrom(all, k, Slices())
      modifies this`queue, this`active, this`deferred, this`count, client, all[k].Base()
      ensures queue == all[k + 1..] && Valid() && ApartFrom(all, k + 1, Slices())
      ensures ViewAll(all) == old(ViewAll(all))[k := NormalizedMessage(old(ViewAll(all))[k], client.env.source.name)]
      ensures var r := Process(client.env, old(View()), old(ViewAll(all))[k]);
              View() == r.state && ok == !r.failed
    {
      var msg := queue[0];
      ghost var s0 := View();
      queue := queue[1..];
      SameSlices(Slices());
      assert View() == s0;
      ok := ProcessNth(all, k, msg);
    }

    /** The queue loop: messages in order until the queue is empty or one fails.  When none
        fails, every queued chunk has been normalized where it lies, exactly once. */
    method ProcessQueue() returns (ok: bool)
      requires Valid() && Sound(queue, Slices())
      modifies this`queue, this`active, this`deferred, this`count, client, QueueBases(queue)
      ensures Valid()
      ensures var r := Run(client.env, old(View()), old(ViewAll(queue)));
              View() == r.state && ok == !r.failed
      ensures ok ==> queue == []
      ensures ok ==> ViewAll(old(queue)) == NormalizedMessages(old(ViewAll(queue)), client.env.source.name)
    {
      ghost var ms, s0, all := ViewAll(queue), View(), queue;
      ghost var k := 0;
      assert ms[..0] == [];
      while |queue| > 0
        invariant k <= |all| && queue == all[k..]
        invariant Valid() && ApartFrom(all, k, Slices())
        invariant ViewAll(all) == NormalizedMessages(ms[..k], client.env.source.name) + ms[k..]
        invariant Reached(client.env, s0, ms, k, View())
        decreases |queue|
      {
        ghost var s := View();
        BaseIsQueued(all, k);
        OneMoreMessage(ms, client.env.source.name, k);
        ok := ProcessHead(all, k);
        ReachedNext(client.env, s0, ms, k, s);
        k := k + 1;
        if !ok {
          return;
        }
      }
      assert ms[..k] == ms && ms[k..] == [];
      ok := true;
    }
  }

  lemma BaseIsQueued(q: seq<WireMessage>, k: nat)
    requires k < |q|
    ensures q[k].Base() <= QueueBases(q)
  {
  }

  /** The first k messages lead to state s without a failure. */
  ghost predicate Reached(env: Env, s0: State, ms: seq<Message>, k: nat, s: State)
    requires k <= |ms|
  {
    !Run(env, s0, ms[..k]).failed && Run(env, s0, ms[..k]).state == s
  }

  lemma ReachedNext(env: Env, s0: State, ms: seq<Message>, k: nat, s: State)
    requires k < |ms| && Reached(env, s0, ms, k, s)
    ensures var r := Process(env, s, ms[k]);
            if r.failed then Run(env, s0, ms).failed && Run(env, s0, ms).state == r.state else Reached(env, s0, ms, k + 1, r.state)
  {
    assert ms[..k + 1][..k] == ms[..k];
    if Process(env, s, ms[k]).failed { RunStops(env, s0, ms, k + 1); }
  }

  lemma OneMoreMessage(ms: seq<Message>, source: string, k: nat)
    requires k < |ms|
    ensures (NormalizedMessages(ms[..k], source) + ms[k..])[k] == ms[k]
    ensures (NormalizedMessages(ms[..k], source) + ms[k..])[k := NormalizedMessage(ms[k], source)] ==
            NormalizedMessages(ms[..k + 1], source) + ms[k + 1..]
  {
  }

  /** What the next message buffers does not overlap the messages behind it. */
  lemma NextStaysApart(q: seq<WireMessage>, k: nat, before: map<int, Slice>, after: map<int, Slice>)
    requires k < |q| && PairsApart(q) && ApartFrom(q, k, before)
    requires if q[k].WireSnapshot? then GrewBy(before, after, q[k].chunk.slice) else after == before
    ensures ApartFrom(q, k + 1, after)
  {
    forall i | k + 1 <= i < |q| && q[i].WireSnapshot? ensures ApartFromAll(q[i].chunk.slice, after) {
      assert MessageApart(q[k], q[i]);
      assert ApartFromAll(q[i].chunk.slice, before);
    }
  }

  lemma {:induction false} MissingChunk(received: map<int, seq<DiscoveredTarget>>, i: int, k: int)
    requires 0 <= i < k && i !in received
    ensures Gather(received, k) == None
    decreases k
  {
    if i < k - 1 { MissingChunk(received, i, k - 1); }
  }

  // ---------- in-place normalization of a whole snapshot ----------

  lemma WindowOf(n: nat, size: nat, i: nat, k: nat)
    requires size > 0 && i < n
    ensures Upto(n, size, k) <= i < Upto(n, size, k + 1) <==> i / size == k
  {
    var q := i / size;
    assert i == size * q + i % size;
    assert q * size == size * q && (q + 1) * size == q * size + size && (k + 1) * size == k * size + size;
    assert k < q ==> (k + 1) * size <= q * size;
    assert q < k ==> (q + 1) * size <= k * size;
  }

  lemma EveryIndexHasAWindow(n: nat, size: nat, i: nat)
    requires size > 0 && i < n
    ensures i / size < ChunkCount(n, size)
  {
    var q := i / size;
    assert i == size * q + i % size && q * size == size * q;
    ChunkIsNeeded(n, size, q);
  }
}
