/** Chunking a target list (loaders/utils/send.go) and getting it back. */
module Reassembly {
  import opened Counting
  import opened Ordering
  import opened Placement
  import opened PlacementTheorems
  import opened Discovery
  import opened SnapshotProtocol

  function ChunkCount(n: nat, size: nat): nat
    requires size > 0
  {
    (n + size - 1) / size
  }

  function Upto(n: nat, size: nat, k: nat): nat {
    if k * size < n then k * size else n
  }

  lemma UptoGrows(n: nat, size: nat, k: nat)
    ensures Upto(n, size, k) <= Upto(n, size, k + 1) <= n
  {
    assert (k + 1) * size == k * size + size;
  }

  /** The k-th chunk of the list. */
  function ChunkAt(targets: seq<DiscoveredTarget>, id: string, size: nat, k: nat): Chunk
    requires size > 0
  {
    UptoGrows(|targets|, size, k);
    Chunk(id, k, ChunkCount(|targets|, size), targets[Upto(|targets|, size, k)..Upto(|targets|, size, k + 1)])
  }

  function AllChunks(targets: seq<DiscoveredTarget>, id: string, size: nat): seq<Chunk>
    requires size > 0
  {
    seq(ChunkCount(|targets|, size), k requires 0 <= k => ChunkAt(targets, id, size, k))
  }

  lemma ChunkCountBounds(n: nat, size: nat)
    requires size > 0
    ensures ChunkCount(n, size) * size - size < n <= ChunkCount(n, size) * size || n == 0 == ChunkCount(n, size)
  {
    var c, m := ChunkCount(n, size), (n + size - 1) % size;
    assert n + size - 1 == size * c + m;
    assert c * size == size * c;
    assert c >= 1 ==> c * size >= size;
  }

  lemma LastChunkEnds(n: nat, size: nat)
    requires size > 0
    ensures Upto(n, size, ChunkCount(n, size)) == n
  {
    ChunkCountBounds(n, size);
  }

  // ---------- slices of one backing array ----------

  /** A Go slice: a window on a backing array. */
  datatype Slice = Slice(base: array<DiscoveredTarget>, lo: nat, hi: nat) {
    ghost predicate Valid() { lo <= hi <= base.Length }

    ghost function Contents(): seq<DiscoveredTarget>
      requires Valid()
      reads base
    {
      base[lo..hi]
    }

    ghost predicate Apart(other: Slice) {
      base != other.base || hi <= other.lo || other.hi <= lo
    }
  }

  datatype WireChunk = WireChunk(id: string, index: int, total: int, slice: Slice) {
    ghost function View(): Chunk
      requires slice.Valid()
      reads slice.base
    {
      Chunk(id, index, total, slice.Contents())
    }
  }

  /** w is the k-th window of the array. */
  ghost predicate IsWindow(w: WireChunk, targets: array<DiscoveredTarget>, id: string, size: nat, k: nat)
    requires size > 0
    reads targets
  {
    && w.slice == Slice(targets, Upto(targets.Length, size, k), Upto(targets.Length, size, k + 1))
    && w.slice.Valid() && w.View() == ChunkAt(targets[..], id, size, k)
  }

  /** createDiscoverySnapshots: consecutive windows on the caller's array. */
  method CreateDiscoverySnapshots(targets: array<DiscoveredTarget>, id: string, chunkSize: nat) returns (r: seq<WireChunk>)
    requires chunkSize > 0
    ensures |r| == ChunkCount(targets.Length, chunkSize)
    ensures forall k :: 0 <= k < |r| ==> IsWindow(r[k], targets, id, chunkSize, k)
  {
    var total := targets.Length;
    var totalChunks := (total + chunkSize - 1) / chunkSize;
    r := [];
    var i := 0;
    while i < total
      invariant i == |r| * chunkSize && |r| <= totalChunks
      invariant forall k :: 0 <= k < |r| ==> IsWindow(r[k], targets, id, chunkSize, k)
      decreases total - i
    {
      var end := i + chunkSize;
      if end > total { end := total; }
      ChunkIndexIs(|r|, chunkSize);
      ChunkIsNeeded(total, chunkSize, |r|);
      assert (|r| + 1) * chunkSize == i + chunkSize;
      assert targets[..][i..end] == targets[i..end];
      r := r + [WireChunk(id, i / chunkSize, totalChunks, Slice(targets, i, end))];
      i := i + chunkSize;
    }
    ChunksSuffice(total, chunkSize, |r|);
  }

  lemma WindowsAreApart(r: seq<WireChunk>, targets: array<DiscoveredTarget>, id: string, size: nat, j: nat, k: nat)
    requires size > 0 && j < k < |r| && IsWindow(r[j], targets, id, size, j) && IsWindow(r[k], targets, id, size, k)
    ensures r[j].slice.Apart(r[k].slice)
  {
    UptoIsMonotone(targets.Length, size, j + 1, k);
  }

  lemma UptoIsMonotone(n: nat, size: nat, j: nat, k: nat)
    requires j <= k
    ensures Upto(n, size, j) <= Upto(n, size, k)
  {
    assert j * size <= k * size;
  }

  lemma ChunkIndexIs(k: nat, size: nat)
    requires size > 0
    ensures k * size / size == k
  {
    var q, m := k * size / size, k * size % size;
    assert k * size == size * q + m;
    assert size * (k - q) == m by { assert size * (k - q) == size * k - size * q; }
    assert k - q >= 1 ==> size * (k - q) >= size;
    assert k - q <= -1 ==> size * (k - q) <= -(size as int);
  }

  lemma ChunkIsNeeded(n: nat, size: nat, k: nat)
    requires size > 0 && k * size < n
    ensures k < ChunkCount(n, size)
  {
    ChunkCountBounds(n, size);
    var c := ChunkCount(n, size);
    assert c <= k ==> c * size <= k * size;
  }

  lemma ChunksSuffice(n: nat, size: nat, k: nat)
    requires size > 0 && n <= k * size && k <= ChunkCount(n, size)
    ensures k == ChunkCount(n, size)
  {
    ChunkCountBounds(n, size);
    var c := ChunkCount(n, size);
    assert k <= c - 1 ==> k * size <= (c - 1) * size;
    assert (c - 1) * size == c * size - size;
  }

  // ---------- what has been received part of the way ----------

  ghost predicate Belongs(targets: seq<DiscoveredTarget>, id: string, size: nat, c: Chunk)
    requires size > 0
  {
    0 <= c.index < ChunkCount(|targets|, size) && c == ChunkAt(targets, id, size, c.index)
  }

  /** Some of the chunks, no index twice. */
  ghost predicate SomeChunks(targets: seq<DiscoveredTarget>, id: string, size: nat, cs: seq<Chunk>)
    requires size > 0
  {
    && (forall i :: 0 <= i < |cs| ==> Belongs(targets, id, size, cs[i]))
    && (forall i, j :: 0 <= i < j < |cs| ==> cs[i].index != cs[j].index)
  }

  lemma DeliveryIsSomeChunks(targets: seq<DiscoveredTarget>, id: string, size: nat, cs: seq<Chunk>)
    requires size > 0 && multiset(cs) == multiset(AllChunks(targets, id, size))
    ensures SomeChunks(targets, id, size, cs) && |cs| == ChunkCount(|targets|, size)
  {
    var all := AllChunks(targets, id, size);
    assert |cs| == |multiset(cs)| == |multiset(all)| == |all|;
    assert Distinct(all) by {
      forall i, j | 0 <= i < j < |all| ensures all[i] != all[j] { assert all[i].index == i && all[j].index == j; }
    }
    DistinctMultiset(all, cs);
    forall i | 0 <= i < |cs| ensures Belongs(targets, id, size, cs[i]) {
      assert cs[i] in multiset(all);
      var k :| 0 <= k < |all| && all[k] == cs[i];
    }
    forall i, j | 0 <= i < j < |cs| ensures cs[i].index != cs[j].index {
      assert cs[i] != cs[j] && Belongs(targets, id, size, cs[i]) && Belongs(targets, id, size, cs[j]);
    }
  }

  /** The chunks received so far, as the buffer holds them. */
  function Received(cs: seq<Chunk>, source: string): map<int, seq<DiscoveredTarget>> {
    if cs == [] then map[]
    else
      var k := |cs| - 1;
      Received(cs[..k], source)[cs[k].index := Normalized(cs[k].targets, source)]
  }

  lemma {:induction false} NotReceived(cs: seq<Chunk>, source: string, k: int)
    requires forall i :: 0 <= i < |cs| ==> cs[i].index != k
    ensures k !in Received(cs, source)
  {
    if cs != [] {
      NotReceived(cs[..|cs| - 1], source, k);
    }
  }

  lemma {:induction false} ReceivedHolds(targets: seq<DiscoveredTarget>, id: string, size: nat, cs: seq<Chunk>, source: string)
    requires size > 0 && SomeChunks(targets, id, size, cs)
    ensures var m := Received(cs, source);
            && |m| == |cs|
            && (forall k :: k in m ==> 0 <= k < ChunkCount(|targets|, size) &&
                                       m[k] == Normalized(ChunkAt(targets, id, size, k).targets, source))
  {
    if cs != [] {
      var k := |cs| - 1;
      ReceivedHolds(targets, id, size, cs[..k], source);
      NotReceived(cs[..k], source, cs[k].index);
      assert Belongs(targets, id, size, cs[k]);
    }
  }

  lemma {:induction false} GatherRebuilds(targets: seq<DiscoveredTarget>, id: string, size: nat,
                                          received: map<int, seq<DiscoveredTarget>>, source: string, k: nat)
    requires size > 0 && k <= ChunkCount(|targets|, size)
    requires forall i :: 0 <= i < k ==> i in received && received[i] == Normalized(ChunkAt(targets, id, size, i).targets, source)
    ensures Gather(received, k) == Some(Normalized(targets[..Upto(|targets|, size, k)], source))
  {
    if k > 0 {
      GatherRebuilds(targets, id, size, received, source, k - 1);
      UptoGrows(|targets|, size, k - 1);
      var a, b := Upto(|targets|, size, k - 1), Upto(|targets|, size, k);
      assert Normalized(targets[..b], source) == Normalized(targets[..a], source) + Normalized(targets[a..b], source);
    }
  }

  lemma AllReceivedRebuilds(targets: seq<DiscoveredTarget>, id: string, size: nat, cs: seq<Chunk>, source: string)
    requires size > 0 && SomeChunks(targets, id, size, cs) && |cs| == ChunkCount(|targets|, size)
    ensures Gather(Received(cs, source), ChunkCount(|targets|, size)) == Some(Normalized(targets, source))
  {
    var m, n := Received(cs, source), ChunkCount(|targets|, size);
    ReceivedHolds(targets, id, size, cs, source);
    FullBufferHasAll(m, n);
    forall i | 0 <= i < n ensures i in m { assert InRange(i, n) && i in Range(n); }
    GatherRebuilds(targets, id, size, m, source, n);
    LastChunkEnds(|targets|, size);
    assert targets[..|targets|] == targets;
  }

  // ---------- the round trip ----------

  ghost predicate StartsFresh(s: State, id: string) {
    Inv(s) && (s.active.Some? ==> s.active.value.id != id)
  }

  lemma {:induction false} ChunksPrefix(ms: seq<Message>, j: nat)
    requires j <= |ms|
    ensures Chunks(ms[..j]) <= Chunks(ms)
  {
    if j == |ms| {
      assert ms[..j] == ms;
    } else {
      var k := |ms| - 1;
      assert ms[..k][..j] == ms[..j];
      ChunksPrefix(ms[..k], j);
    }
  }

  /** Where the collection of snapshot `id` stands: nothing received yet, or a buffer. */
  ghost predicate Stage(s: State, id: string, total: int, received: map<int, seq<DiscoveredTarget>>) {
    if received == map[] then StartsFresh(s, id) else s.active == Some(Buffer(id, total, received, false)) && Inv(s)
  }

  /** One good chunk: stored while others are missing, applied when it is the last. */
  lemma GoodChunk(env: Env, s: State, n: Chunk, received: map<int, seq<DiscoveredTarget>>)
    requires Stage(s, n.id, n.total, received) && 0 <= n.index < n.total && n.index !in received
    ensures var r := ProcessSnapshot(env, s, n);
            var received' := received[n.index := n.targets];
            && !r.failed
            && (|received| + 1 < n.total ==>
                  r.applied == [] && r.state.store == s.store && r.state.calls == s.calls && Stage(r.state, n.id, n.total, received'))
            && (|received| + 1 == n.total ==>
                  var g := Gather(received', n.total);
                  g.Some? && r.applied == [g.value] && r.state == AfterApply(env, s.store, s.calls, g.value))
  {
    SnapshotStep(env, s, n);
    assert ReceivedBefore(s, n) == received;
    assert n.index in received[n.index := n.targets];
  }

  /** Part of the way through, nothing has been applied, the store is as it was, and the
      buffer holds exactly the chunks that have arrived. */
  ghost predicate Waiting(s: State, r: Result, id: string, total: int, cs: seq<Chunk>, source: string) {
    && !r.failed && r.applied == []
    && r.state.store == s.store && r.state.calls == s.calls
    && Stage(r.state, id, total, Received(cs, source))
  }

  /** What the next chunk does to the set of received chunks. */
  lemma NextArrival(targets: seq<DiscoveredTarget>, id: string, size: nat, cs: seq<Chunk>, source: string, total: int)
    requires size > 0 && SomeChunks(targets, id, size, cs) && cs != [] && total == ChunkCount(|targets|, size)
    ensures var k := |cs| - 1;
            var c, before := cs[k], Received(cs[..k], source);
            && SomeChunks(targets, id, size, cs[..k])
            && c.id == id && c.total == total && 0 <= c.index < total && c.index !in before && |before| == k
            && Received(cs, source) == before[c.index := Normalized(c.targets, source)]
  {
    var k := |cs| - 1;
    var prefix := cs[..k];
    forall i | 0 <= i < k ensures Belongs(targets, id, size, prefix[i]) && prefix[i].index != cs[k].index { assert prefix[i] == cs[i]; }
    forall i, j | 0 <= i < j < k ensures prefix[i].index != prefix[j].index { assert prefix[i] == cs[i] && prefix[j] == cs[j]; }
    NotReceived(prefix, source, cs[k].index);
    ReceivedHolds(targets, id, size, prefix, source);
    assert Belongs(targets, id, size, cs[k]);
  }

  lemma {:induction false} PartOfTheWay(env: Env, s: State, targets: seq<DiscoveredTarget>, id: string, size: nat, ms: seq<Message>, total: int)
    requires size > 0 && StartsFresh(s, id) && (ms != [] ==> ms[0].SnapshotMessage?) && total == ChunkCount(|targets|, size)
    requires SomeChunks(targets, id, size, Chunks(ms)) && |Chunks(ms)| < total
    ensures Waiting(s, Run(env, s, ms), id, total, Chunks(ms), env.source.name)
    ensures ms != [] ==> Chunks(ms) != []
  {
    if ms != [] {
      var k, source := |ms| - 1, env.source.name;
      var cs := Chunks(ms);
      assert k > 0 ==> ms[..k][0] == ms[0];
      if ms[k].SnapshotMessage? {
        assert cs[..|cs| - 1] == Chunks(ms[..k]) && cs[|cs| - 1] == ms[k].chunk;
        NextArrival(targets, id, size, cs, source, total);
        PartOfTheWay(env, s, targets, id, size, ms[..k], total);
        GoodChunk(env, Run(env, s, ms[..k]).state, NormalizeChunk(ms[k].chunk, source), Received(Chunks(ms[..k]), source));
      } else {
        assert cs == Chunks(ms[..k]);
        PartOfTheWay(env, s, targets, id, size, ms[..k], total);
        EventIsDeferred(env, Run(env, s, ms[..k]).state, ms[k].event, id, total, Chunks(ms[..k]), source);
      }
    }
  }

  lemma EventIsDeferred(env: Env, s: State, e: Event, id: string, total: int, cs: seq<Chunk>, source: string)
    requires Stage(s, id, total, Received(cs, source)) && cs != []
    ensures var r := Process(env, s, EventMessage(e));
            !r.failed && r.applied == [] && r.state.store == s.store && r.state.calls == s.calls &&
            Stage(r.state, id, total, Received(cs, source))
  {
    var k := |cs| - 1;
    assert cs[k].index in Received(cs, source);
  }

  /** Whatever order the chunks of one snapshot arrive in and whatever events come in
      between, the snapshot is applied exactly once, on the last chunk, as the original
      list with every name prefixed; and the final state does not depend on the events. */
  lemma ReassemblyRoundTrip(env: Env, s: State, targets: seq<DiscoveredTarget>, id: string, size: nat, ms: seq<Message>)
    requires size > 0 && targets != [] && StartsFresh(s, id)
    requires multiset(Chunks(ms)) == multiset(AllChunks(targets, id, size))
    requires ms != [] && ms[0].SnapshotMessage? && ms[|ms| - 1].SnapshotMessage?
    ensures var r := Run(env, s, ms);
            && !r.failed && r.applied == [Normalized(targets, env.source.name)]
            && r.state == AfterApply(env, s.store, s.calls, Normalized(targets, env.source.name))
    ensures forall j :: 0 <= j < |ms| ==> Run(env, s, ms[..j]).applied == []
  {
    var total := ChunkCount(|targets|, size);
    DeliveryIsSomeChunks(targets, id, size, Chunks(ms));
    forall j | 0 <= j < |ms| ensures Waiting(s, Run(env, s, ms[..j]), id, total, Chunks(ms[..j]), env.source.name) {
      ProperPrefix(targets, id, size, ms, j);
      PartOfTheWay(env, s, targets, id, size, ms[..j], total);
    }
    LastArrivalApplies(env, s, targets, id, size, ms, total);
  }

  /** So a run that delivers a snapshot ends with the store converged on it. */
  lemma RunConverges(env: Env, s: State, targets: seq<DiscoveredTarget>, id: string, size: nat, ms: seq<Message>)
    requires size > 0 && targets != [] && StartsFresh(s, id) && forall k :: env.ok(k)
    requires multiset(Chunks(ms)) == multiset(AllChunks(targets, id, size))
    requires ms != [] && ms[0].SnapshotMessage? && ms[|ms| - 1].SnapshotMessage?
    ensures Converged(env.source, s.store, Run(env, s, ms).state.store, Normalized(targets, env.source.name))
  {
    ReassemblyRoundTrip(env, s, targets, id, size, ms);
    AppliedConverges(env, s.store, s.calls, Normalized(targets, env.source.name));
  }

  lemma AppliedConverges(env: Env, store: Store, calls: nat, all: seq<DiscoveredTarget>)
    requires forall k :: env.ok(k)
    ensures Converged(env.source, store, AfterApply(env, store, calls, all).store, all)
  {
    StoreConverges(env.source, store, ExistingNames(env, store, calls), all, env.ok, calls + 1);
  }

  lemma ProperPrefix(targets: seq<DiscoveredTarget>, id: string, size: nat, ms: seq<Message>, j: nat)
    requires size > 0 && SomeChunks(targets, id, size, Chunks(ms))
    requires j < |ms| && ms[0].SnapshotMessage? && ms[|ms| - 1].SnapshotMessage?
    ensures SomeChunks(targets, id, size, Chunks(ms[..j])) && |Chunks(ms[..j])| < |Chunks(ms)|
    ensures j > 0 ==> ms[..j][0] == ms[0]
  {
    var k := |ms| - 1;
    assert ms[..k][..j] == ms[..j];
    ChunksPrefix(ms[..k], j);
    var cs, all := Chunks(ms[..j]), Chunks(ms);
    assert |Chunks(ms[..k])| + 1 == |all|;
    forall i | 0 <= i < |cs| ensures cs[i] == all[i] { }
  }

  lemma LastArrivalApplies(env: Env, s: State, targets: seq<DiscoveredTarget>, id: string, size: nat, ms: seq<Message>, total: int)
    requires size > 0 && total == ChunkCount(|targets|, size)
    requires SomeChunks(targets, id, size, Chunks(ms)) && |Chunks(ms)| == total
    requires ms != [] && ms[|ms| - 1].SnapshotMessage?
    requires Waiting(s, Run(env, s, ms[..|ms| - 1]), id, total, Chunks(ms[..|ms| - 1]), env.source.name)
    ensures var r := Run(env, s, ms);
            && !r.failed && r.applied == [Normalized(targets, env.source.name)]
            && r.state == AfterApply(env, s.store, s.calls, Normalized(targets, env.source.name))
  {
    var k, source, cs := |ms| - 1, env.source.name, Chunks(ms);
    var now := Run(env, s, ms[..k]).state;
    assert cs[..|cs| - 1] == Chunks(ms[..k]) && cs[|cs| - 1] == ms[k].chunk;
    NextArrival(targets, id, size, cs, source, total);
    AllReceivedRebuilds(targets, id, size, cs, source);
    LastGoodChunk(env, now, NormalizeChunk(ms[k].chunk, source), Received(Chunks(ms[..k]), source), Normalized(targets, source));
    assert [] + [Normalized(targets, source)] == [Normalized(targets, source)];
  }

  lemma LastGoodChunk(env: Env, s: State, n: Chunk, received: map<int, seq<DiscoveredTarget>>, all: seq<DiscoveredTarget>)
    requires Stage(s, n.id, n.total, received) && 0 <= n.index < n.total && n.index !in received && |received| + 1 == n.total
    requires Gather(received[n.index := n.targets], n.total) == Some(all)
    ensures ProcessSnapshot(env, s, n) == Result(AfterApply(env, s.store, s.calls, all), false, [all])
  {
    GoodChunk(env, s, n, received);
  }
}
