/** From the loader's array to the store: SendSnapshot (loaders/utils/send.go) hands its
    chunks to the message processor, whose queue loop runs until they are used up. */
module Delivery {
  import opened Ordering
  import opened Placement
  import opened PlacementTheorems
  import opened Discovery
  import opened SnapshotProtocol
  import opened Reassembly
  import opened MessageProcessing

  /** The windows of one array, in the order in which they are delivered. */
  function InOrder(r: seq<WireChunk>, order: seq<nat>): (q: seq<WireMessage>)
    requires forall k :: 0 <= k < |order| ==> order[k] < |r|
    ensures |q| == |order| && forall k :: 0 <= k < |q| ==> q[k] == WireSnapshot(r[order[k]])
  {
    seq(|order|, k requires 0 <= k < |order| => WireSnapshot(r[order[k]]))
  }

  ghost predicate AllWindows(r: seq<WireChunk>, targets: array<DiscoveredTarget>, id: string, size: nat)
    requires size > 0
    reads targets
  {
    forall k :: 0 <= k < |r| ==> IsWindow(r[k], targets, id, size, k)
  }

  /** Each index once. */
  ghost predicate Permutes(order: seq<nat>, n: nat) {
    && (forall j :: 0 <= j < |order| ==> order[j] < n)
    && Distinct(order) && forall k: nat :: k in order <==> k < n
  }

  /** The sender keeps what the processor needs: its chunks overlap neither each other nor,
      if its array is new to the processor, anything buffered. */
  lemma WindowsAreSound(r: seq<WireChunk>, targets: array<DiscoveredTarget>, id: string, size: nat, order: seq<nat>, received: map<int, Slice>)
    requires size > 0 && AllWindows(r, targets, id, size) && Permutes(order, |r|)
    requires forall k :: k in received ==> received[k].base != targets
    ensures Sound(InOrder(r, order), received)
  {
    var q := InOrder(r, order);
    forall i, j | 0 <= i < |q| && 0 <= j < |q| && i != j ensures MessageApart(q[i], q[j]) {
      var a, b := order[i], order[j];
      assert a != b;
      if a < b { WindowsAreApart(r, targets, id, size, a, b); } else { WindowsAreApart(r, targets, id, size, b, a); }
    }
  }

  lemma BasesAreTargets(r: seq<WireChunk>, targets: array<DiscoveredTarget>, id: string, size: nat, order: seq<nat>)
    requires size > 0 && AllWindows(r, targets, id, size) && Permutes(order, |r|)
    ensures QueueBases(InOrder(r, order)) <= {targets}
  {
  }

  /** The chunks of the list in that order, as messages. */
  function ChunksInOrder(targets: seq<DiscoveredTarget>, id: string, size: nat, order: seq<nat>): (ms: seq<Message>)
    requires size > 0
    ensures |ms| == |order| && forall k :: 0 <= k < |ms| ==> ms[k] == SnapshotMessage(ChunkAt(targets, id, size, order[k]))
  {
    seq(|order|, k requires 0 <= k < |order| => SnapshotMessage(ChunkAt(targets, id, size, order[k])))
  }

  lemma {:induction false} ChunksOfSnapshots(ms: seq<Message>)
    requires forall k :: 0 <= k < |ms| ==> ms[k].SnapshotMessage?
    ensures |Chunks(ms)| == |ms| && forall k :: 0 <= k < |ms| ==> Chunks(ms)[k] == ms[k].chunk
  {
    if ms != [] { ChunksOfSnapshots(ms[..|ms| - 1]); }
  }

  lemma ChunksAreDistinct(targets: seq<DiscoveredTarget>, id: string, size: nat, order: seq<nat>, cs: seq<Chunk>)
    requires size > 0 && Distinct(order) && |cs| == |order|
    requires forall k :: 0 <= k < |cs| ==> cs[k] == ChunkAt(targets, id, size, order[k])
    ensures Distinct(cs)
  {
    forall i, j | 0 <= i < j < |cs| ensures cs[i] != cs[j] { assert cs[i].index == order[i] && cs[j].index == order[j]; }
  }

  lemma SameChunks(targets: seq<DiscoveredTarget>, id: string, size: nat, order: seq<nat>, cs: seq<Chunk>)
    requires size > 0 && Permutes(order, ChunkCount(|targets|, size)) && |cs| == |order|
    requires forall k :: 0 <= k < |cs| ==> cs[k] == ChunkAt(targets, id, size, order[k])
    ensures forall c :: c in cs <==> c in AllChunks(targets, id, size)
  {
    var all := AllChunks(targets, id, size);
    forall c | c in cs ensures c in all {
      var i :| 0 <= i < |cs| && cs[i] == c;
      assert all[order[i]] == c;
    }
    forall c | c in all ensures c in cs {
      var k: nat :| k < |all| && all[k] == c;
      assert k in order;
      var i :| 0 <= i < |order| && order[i] == k;
      assert cs[i] == c;
    }
  }

  /** Any order of the indices delivers the whole snapshot. */
  lemma OrderDelivers(targets: seq<DiscoveredTarget>, id: string, size: nat, order: seq<nat>)
    requires size > 0 && Permutes(order, ChunkCount(|targets|, size))
    ensures multiset(Chunks(ChunksInOrder(targets, id, size, order))) == multiset(AllChunks(targets, id, size))
  {
    var n, all := ChunkCount(|targets|, size), AllChunks(targets, id, size);
    var cs := Chunks(ChunksInOrder(targets, id, size, order));
    ChunksOfSnapshots(ChunksInOrder(targets, id, size, order));
    ChunksAreDistinct(targets, id, size, order, cs);
    ChunksAreDistinct(targets, id, size, seq(n, k requires 0 <= k => k), all);
    SameChunks(targets, id, size, order, cs);
    DistinctSameElements(cs, all);
  }

  lemma ViewsAreChunks(r: seq<WireChunk>, targets: array<DiscoveredTarget>, id: string, size: nat, order: seq<nat>)
    requires size > 0 && AllWindows(r, targets, id, size) && Permutes(order, |r|)
    ensures AllValid(InOrder(r, order)) && ViewAll(InOrder(r, order)) == ChunksInOrder(targets[..], id, size, order)
  {
    var q := InOrder(r, order);
    forall k | 0 <= k < |q| ensures q[k].Valid() && q[k].View() == SnapshotMessage(ChunkAt(targets[..], id, size, order[k])) {
      assert IsWindow(r[order[k]], targets, id, size, order[k]);
    }
  }

  /** The window that holds element i. */
  lemma WindowElement(w: Slice, targets: array<DiscoveredTarget>, before: seq<DiscoveredTarget>, id: string, size: nat, i: nat, source: string)
    requires size > 0 && |before| == targets.Length && i < |before|
    requires w == Slice(targets, Upto(|before|, size, i / size), Upto(|before|, size, i / size + 1)) && w.Valid()
    requires w.Contents() == Normalized(ChunkAt(before, id, size, i / size).targets, source)
    ensures targets[i] == NormalizeTarget(before[i], source)
  {
    WindowOf(|before|, size, i, i / size);
    assert w.Contents()[i - w.lo] == targets[i];
    assert ChunkAt(before, id, size, i / size).targets[i - w.lo] == before[i];
  }

  /** When every window of an array holds the normalized targets, so does the array. */
  lemma WindowsCover(r: seq<WireChunk>, targets: array<DiscoveredTarget>, before: seq<DiscoveredTarget>, id: string, size: nat, order: seq<nat>, source: string)
    requires size > 0 && |before| == targets.Length && |r| == ChunkCount(|before|, size) && Permutes(order, |r|)
    requires forall k :: 0 <= k < |r| ==>
               r[k].slice == Slice(targets, Upto(|before|, size, k), Upto(|before|, size, k + 1)) && r[k].slice.Valid()
    requires ViewAll(InOrder(r, order)) == NormalizedMessages(ChunksInOrder(before, id, size, order), source)
    ensures targets[..] == Normalized(before, source)
  {
    forall i | 0 <= i < |before| ensures targets[i] == NormalizeTarget(before[i], source) {
      EveryIndexHasAWindow(|before|, size, i);
      var k := i / size;
      assert k in order;
      var j :| 0 <= j < |order| && order[j] == k;
      assert ViewAll(InOrder(r, order))[j] == SnapshotMessage(r[k].View());
      WindowElement(r[k].slice, targets, before, id, size, i, source);
    }
  }

  /** SendSnapshot, with the chunks in any order, as far as the processor's queue. */
  method Send(p: MessageProcessor, targets: array<DiscoveredTarget>, id: string, chunkSize: nat, order: seq<nat>) returns (r: seq<WireChunk>)
    requires chunkSize > 0 && Permutes(order, ChunkCount(targets.Length, chunkSize))
    requires forall k :: k in p.Slices() ==> p.Slices()[k].base != targets
    modifies p`queue
    ensures |r| == ChunkCount(targets.Length, chunkSize) && AllWindows(r, targets, id, chunkSize)
    ensures p.queue == InOrder(r, order) && Sound(p.queue, p.Slices()) && QueueBases(p.queue) <= {targets}
    ensures ViewAll(p.queue) == ChunksInOrder(targets[..], id, chunkSize, order)
  {
    r := CreateDiscoverySnapshots(targets, id, chunkSize);
    WindowsAreSound(r, targets, id, chunkSize, order, p.Slices());
    BasesAreTargets(r, targets, id, chunkSize, order);
    ViewsAreChunks(r, targets, id, chunkSize, order);
    p.queue := InOrder(r, order);
  }

  /** A snapshot is chunked, its chunks are delivered in any order, and the queue is
      drained.  Every element of the loader's array has then been prefixed exactly once, and
      the processor has reconciled exactly that list. */
  method Deliver(p: MessageProcessor, targets: array<DiscoveredTarget>, id: string, chunkSize: nat, order: seq<nat>) returns (ok: bool)
    requires chunkSize > 0 && targets.Length > 0 && Permutes(order, ChunkCount(targets.Length, chunkSize))
    requires p.Valid() && p.queue == [] && StartsFresh(p.View(), id)
    requires forall k :: k in p.Slices() ==> p.Slices()[k].base != targets
    modifies p`queue, p`active, p`deferred, p`count, p.client, targets
    ensures ok && p.Valid()
    ensures targets[..] == Normalized(old(targets[..]), p.client.env.source.name)
    ensures p.View() == AfterApply(p.client.env, old(p.View()).store, old(p.View()).calls, Normalized(old(targets[..]), p.client.env.source.name))
  {
    ghost var before, s := targets[..], p.View();
    var r := Send(p, targets, id, chunkSize, order);
    ghost var q := p.queue;
    SameSlices(p.Slices());
    assert p.View() == s;
    OrderRuns(p.client.env, s, before, id, chunkSize, order);
    ok := p.ProcessQueue();
    WindowsCover(r, targets, before, id, chunkSize, order, p.client.env.source.name);
  }

  /** With successful client calls the store has then converged on the loader's list. */
  method DeliverToStore(p: MessageProcessor, targets: array<DiscoveredTarget>, id: string, chunkSize: nat, order: seq<nat>)
    requires chunkSize > 0 && targets.Length > 0 && Permutes(order, ChunkCount(targets.Length, chunkSize))
    requires p.Valid() && p.queue == [] && StartsFresh(p.View(), id) && forall k :: p.client.env.ok(k)
    requires forall k :: k in p.Slices() ==> p.Slices()[k].base != targets
    modifies p`queue, p`active, p`deferred, p`count, p.client, targets
    ensures p.active == None && p.deferred == []
    ensures targets.Length < 0x8000_0000 ==> p.count == targets.Length
    ensures var ts, reported, store := p.client.env.source, old(targets[..]), p.client.store;
            forall i :: LastOccurrence(reported, i) ==>
              var name := ts.name + "-" + reported[i].name;
              name in store && HasFields(store[name], reported[i], ts)
    ensures Converged(p.client.env.source, old(p.client.store), p.client.store, Normalized(old(targets[..]), p.client.env.source.name))
  {
    ghost var before, s := targets[..], p.View();
    var ok := Deliver(p, targets, id, chunkSize, order);
    AppliedConverges(p.client.env, s.store, s.calls, Normalized(before, p.client.env.source.name));
    AfterApplyIsIdle(p.client.env, s.store, s.calls, Normalized(before, p.client.env.source.name));
    assert p.View().store == p.client.store && p.View().deferred == p.deferred && p.View().active == p.ViewActive() && p.View().count == p.count;
    forall i | LastOccurrence(before, i)
      ensures var name := p.client.env.source.name + "-" + before[i].name;
              name in p.client.store && HasFields(p.client.store[name], before[i], p.client.env.source)
    {
      ConvergedFields(p.client.env.source, s.store, p.client.store, before, i);
    }
  }

  lemma AfterApplyIsIdle(env: Env, store: Store, calls: nat, all: seq<DiscoveredTarget>)
    ensures AfterApply(env, store, calls, all).active == None && AfterApply(env, store, calls, all).deferred == []
    ensures |all| < 0x8000_0000 ==> AfterApply(env, store, calls, all).count == |all|
  {
  }

  lemma OrderRuns(env: Env, s: State, targets: seq<DiscoveredTarget>, id: string, size: nat, order: seq<nat>)
    requires size > 0 && targets != [] && StartsFresh(s, id) && Permutes(order, ChunkCount(|targets|, size))
    ensures var r := Run(env, s, ChunksInOrder(targets, id, size, order));
            !r.failed && r.state == AfterApply(env, s.store, s.calls, Normalized(targets, env.source.name))
  {
    OrderDelivers(targets, id, size, order);
    ChunkCountBounds(|targets|, size);
    assert 0 in order;
    ReassemblyRoundTrip(env, s, targets, id, size, ChunksInOrder(targets, id, size, order));
  }
}
