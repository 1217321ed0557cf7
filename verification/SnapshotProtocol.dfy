/** The discovery message processor as a state machine on values.  The class in
    MessageProcessor.dfy refines it; the laws of the protocol are proved here. */
module SnapshotProtocol {
  import opened Counting
  import opened Ordering
  import opened Placement
  import opened PlacementTheorems
  import opened Discovery

  datatype Chunk = Chunk(id: string, index: int, total: int, targets: seq<DiscoveredTarget>)

  datatype Message = SnapshotMessage(chunk: Chunk) | EventMessage(event: Event)

  datatype Buffer = Buffer(id: string, total: int, received: map<int, seq<DiscoveredTarget>>, complete: bool)

  /** A listing names exactly the objects there are, in an order that may differ each time. */
  type Lister = f: (nat, set<string>) -> seq<string> | forall n, names :: Elements(f(n, names)) == names
    ghost witness (n: nat, names: set<string>) => Listed(names)

  /** The source being served, which client calls succeed, and the order listings come in. */
  datatype Env = Env(source: Source, ok: nat -> bool, listing: Lister)

  datatype State = State(active: Option<Buffer>, deferred: seq<Event>, count: int, store: Store, calls: nat)

  /** `applied` lists the snapshots applied on the way, each as one target list. */
  datatype Result = Result(state: State, failed: bool, applied: seq<seq<DiscoveredTarget>>)

  /** Conversion to a 32-bit counter. */
  function Int32(x: int): int {
    (x + 0x8000_0000) % 0x1_0000_0000 - 0x8000_0000
  }

  // ---------- the steps ----------

  /** Chunks 0 to k-1 in index order, unless one is missing. */
  function Gather(received: map<int, seq<DiscoveredTarget>>, k: int): Option<seq<DiscoveredTarget>>
    decreases k
  {
    if k <= 0 then Some([])
    else match Gather(received, k - 1)
      case None => None
      case Some(s) => if k - 1 in received then Some(s + received[k - 1]) else None
  }

  function ExistingNames(env: Env, store: Store, calls: nat): seq<string> {
    if env.ok(calls) then env.listing(calls, Labelled(store, env.source.name)) else []
  }

  /** The state after the list `all` has been reconciled.  Deferred events are replayed
      while the snapshot is still active, so each one is deferred again, and then the
      whole queue is dropped: of the state before, only the store matters. */
  function AfterApply(env: Env, store: Store, calls: nat, all: seq<DiscoveredTarget>): State {
    var existing := ExistingNames(env, store, calls);
    var count := |DeleteEvents(existing, NameSet(all))| + |all|;
    State(None, [], Int32(|all|), Reconciled(env.source, store, existing, all, env.ok, calls + 1), calls + 1 + count)
  }

  function ApplySnapshot(env: Env, s: State, b: Buffer): Result {
    match Gather(b.received, b.total)
    case None => Result(s.(active := None), true, [])
    case Some(all) => Result(AfterApply(env, s.store, s.calls, all), false, [all])
  }

  /** A good chunk joins the buffer; a full buffer is complete and applied at once. */
  function StoreValue(env: Env, s: State, b: Buffer, c: Chunk): Result {
    var received := b.received[c.index := c.targets];
    var full := |received| == b.total;
    var b' := b.(received := received, complete := full || b.complete);
    var s' := s.(active := Some(b'));
    if full then ApplySnapshot(env, s', b') else Result(s', false, [])
  }

  function CollectChunk(env: Env, s: State, b: Buffer, c: Chunk): Result {
    if c.total != b.total then Result(s, true, [])
    else if c.index < 0 || c.index >= b.total then Result(s.(active := None), true, [])
    else if c.index in b.received then Result(s.(active := None), true, [])
    else StoreValue(env, s, b, c)
  }

  function NewBuffer(c: Chunk): Buffer {
    Buffer(c.id, c.total, map[], false)
  }

  function StartSnapshot(env: Env, s: State, c: Chunk): Result {
    CollectChunk(env, s.(active := Some(NewBuffer(c)), deferred := []), NewBuffer(c), c)
  }

  function ProcessSnapshot(env: Env, s: State, c: Chunk): Result {
    match s.active
    case None => StartSnapshot(env, s, c)
    case Some(b) =>
      if b.id != c.id then
        if b.complete then
          var r := ApplySnapshot(env, s, b);
          if r.failed then r
          else
            var next := StartSnapshot(env, r.state, c);
            next.(applied := r.applied + next.applied)
        else StartSnapshot(env, s, c)
      else CollectChunk(env, s, b, c)
  }

  function ProcessEvent(env: Env, s: State, e: Event): Result {
    if s.active.Some? then Result(s.(deferred := s.deferred + [e]), false, [])
    else
      var ok := env.ok(s.calls);
      var s' := s.(store := ApplyEvent(env.source, s.store, e, ok), calls := s.calls + 1);
      if !ok then Result(s', true, [])
      else Result(s'.(count := Int32(if e.action == Apply then s.count + 1 else s.count - 1)), false, [])
  }

  function NormalizeChunk(c: Chunk, source: string): Chunk {
    c.(targets := Normalized(c.targets, source))
  }

  function Process(env: Env, s: State, m: Message): Result {
    match m
    case SnapshotMessage(c) => ProcessSnapshot(env, s, NormalizeChunk(c, env.source.name))
    case EventMessage(e) => ProcessEvent(env, s, e.(target := NormalizeTarget(e.target, env.source.name)))
  }

  /** One more message after a result. */
  function Then(env: Env, r: Result, m: Message): Result {
    if r.failed then r
    else
      var t := Process(env, r.state, m);
      t.(applied := r.applied + t.applied)
  }

  /** The queue loop: it stops at the first message that fails. */
  function Run(env: Env, s: State, ms: seq<Message>): Result {
    if ms == [] then Result(s, false, [])
    else
      Then(env, Run(env, s, ms[..|ms| - 1]), ms[|ms| - 1])
  }

  // ---------- batches ----------

  /** A result after a result. */
  function Joined(r: Result, t: Result): Result {
    if r.failed then r else t.(applied := r.applied + t.applied)
  }

  /** A run of any step function. */
  function Fold(step: (State, Message) -> Result, s: State, ms: seq<Message>): Result {
    if ms == [] then Result(s, false, [])
    else
      var r := Fold(step, s, ms[..|ms| - 1]);
      if r.failed then r else Joined(r, step(r.state, ms[|ms| - 1]))
  }

  lemma {:induction false} FoldSplit(step: (State, Message) -> Result, s: State, a: seq<Message>, b: seq<Message>)
    ensures Fold(step, s, a + b) == Joined(Fold(step, s, a), Fold(step, Fold(step, s, a).state, b))
  {
    var r := Fold(step, s, a);
    if b == [] {
      assert a + b == a;
      assert r.applied + [] == r.applied;
    } else {
      var k, all := |b| - 1, a + b;
      assert all[..|all| - 1] == a + b[..k] && all[|all| - 1] == b[k];
      FoldSplit(step, s, a, b[..k]);
      var t := Fold(step, r.state, b[..k]);
      var u := step(t.state, b[k]);
      assert (r.applied + t.applied) + u.applied == r.applied + (t.applied + u.applied);
    }
  }

  function StepOf(env: Env): (State, Message) -> Result {
    (s, m) => Process(env, s, m)
  }

  lemma {:induction false} RunIsFold(env: Env, s: State, ms: seq<Message>)
    ensures Run(env, s, ms) == Fold(StepOf(env), s, ms)
  {
    if ms != [] {
      RunIsFold(env, s, ms[..|ms| - 1]);
    }
  }

  /** Batches may be processed one after the other: the queue they arrive in is the run. */
  lemma RunSplit(env: Env, s: State, a: seq<Message>, b: seq<Message>)
    ensures Run(env, s, a + b) == Joined(Run(env, s, a), Run(env, Run(env, s, a).state, b))
  {
    FoldSplit(StepOf(env), s, a, b);
    RunIsFold(env, s, a);
    RunIsFold(env, s, a + b);
    RunIsFold(env, Run(env, s, a).state, b);
  }

  // ---------- the invariant ----------

  /** Between messages a snapshot is being collected only if it is neither empty nor full. */
  ghost predicate Inv(s: State) {
    match s.active
    case None => true
    case Some(b) =>
      && 0 < |b.received| < b.total && !b.complete
      && forall k :: k in b.received ==> 0 <= k < b.total
  }

  lemma FullBufferHasAll(received: map<int, seq<DiscoveredTarget>>, total: int)
    requires |received| == total && forall k :: k in received ==> 0 <= k < total
    ensures received.Keys == Range(total)
  {
    RangeCount(total);
    assert |received.Keys| == |received|;
    assert received.Keys <= Range(total) by {
      forall k | k in received.Keys ensures k in Range(total) { assert InRange(k, total); }
    }
    SameCountSameSet(received.Keys, Range(total));
  }

  lemma {:induction false} GatherFinds(received: map<int, seq<DiscoveredTarget>>, k: int)
    requires forall i :: 0 <= i < k ==> i in received
    ensures Gather(received, k).Some?
    decreases k
  {
    if k > 0 { GatherFinds(received, k - 1); }
  }

  /** A chunk that collecting refuses. */
  predicate Refused(s: State, c: Chunk) {
    if s.active.Some? && s.active.value.id == c.id then
      c.total != s.active.value.total || c.index < 0 || c.index >= c.total || c.index in s.active.value.received
    else c.index < 0 || c.index >= c.total
  }

  function ReceivedBefore(s: State, c: Chunk): map<int, seq<DiscoveredTarget>> {
    if s.active.Some? && s.active.value.id == c.id then s.active.value.received else map[]
  }

  /** The last chunk its snapshot was waiting for. */
  predicate Completes(s: State, c: Chunk) {
    !Refused(s, c) && |ReceivedBefore(s, c)| + 1 == c.total
  }

  lemma CollectKeeps(env: Env, s: State, b: Buffer, c: Chunk)
    requires s.active == Some(b) && |b.received| < b.total && !b.complete
    requires forall k :: k in b.received ==> 0 <= k < b.total
    requires !(c.total != b.total || c.index < 0 || c.index >= b.total || c.index in b.received)
    ensures var r := CollectChunk(env, s, b, c);
            var received := b.received[c.index := c.targets];
            && !r.failed && Inv(r.state)
            && (|b.received| + 1 == b.total ==>
                  var g := Gather(received, b.total);
                  g.Some? && r.applied == [g.value] && r.state == AfterApply(env, s.store, s.calls, g.value))
            && (|b.received| + 1 != b.total ==> r.applied == [] && r.state == s.(active := Some(b.(received := received))))
  {
    var received := b.received[c.index := c.targets];
    assert |received| == |b.received| + 1;
    if |received| == b.total {
      FullBufferHasAll(received, b.total);
      forall i | 0 <= i < b.total ensures i in received {
        assert InRange(i, b.total) && i in Range(b.total);
      }
      GatherFinds(received, b.total);
    }
  }

  /** A chunk that disagrees about the number of chunks is refused without giving up the buffer. */
  predicate KeepsBuffer(s: State, c: Chunk) {
    s.active.Some? && s.active.value.id == c.id && c.total != s.active.value.total
  }

  /** What a snapshot message does to a good state. */
  ghost predicate StepIs(env: Env, s: State, c: Chunk, r: Result) {
    && Inv(r.state)
    && (r.failed <==> Refused(s, c))
    && (Completes(s, c) ==>
          var g := Gather(ReceivedBefore(s, c)[c.index := c.targets], c.total);
          g.Some? && r.applied == [g.value] && r.state == AfterApply(env, s.store, s.calls, g.value))
    && (!Completes(s, c) ==> r.applied == [] && r.state.store == s.store && r.state.calls == s.calls && r.state.count == s.count)
    && (Refused(s, c) ==> r.state.active == if KeepsBuffer(s, c) then s.active else None)
    && (!Refused(s, c) && !Completes(s, c) ==>
          r.state.deferred == (if s.active.Some? && s.active.value.id == c.id then s.deferred else []) &&
          r.state.active == Some(Buffer(c.id, c.total, ReceivedBefore(s, c)[c.index := c.targets], false)))
  }

  lemma ContinuingStep(env: Env, s: State, c: Chunk)
    requires Inv(s) && s.active.Some? && s.active.value.id == c.id
    ensures StepIs(env, s, c, CollectChunk(env, s, s.active.value, c))
  {
    if !Refused(s, c) { CollectKeeps(env, s, s.active.value, c); }
  }

  lemma StartingStep(env: Env, s: State, c: Chunk)
    requires Inv(s) && (s.active.Some? ==> s.active.value.id != c.id)
    ensures StepIs(env, s, c, StartSnapshot(env, s, c))
  {
    var s' := s.(active := Some(NewBuffer(c)), deferred := []);
    if !Refused(s, c) { CollectKeeps(env, s', NewBuffer(c), c); }
  }

  /** One snapshot message from a good state: it fails exactly when the chunk is refused,
      and applies something exactly when the chunk completes its snapshot.  So the
      "missing chunk" error and the late application of a complete snapshot never happen. */
  lemma SnapshotStep(env: Env, s: State, c: Chunk)
    requires Inv(s)
    ensures StepIs(env, s, c, ProcessSnapshot(env, s, c))
  {
    if s.active.Some? && s.active.value.id == c.id {
      ContinuingStep(env, s, c);
    } else {
      StartingStep(env, s, c);
    }
  }

  /** Every run from a good state stays in good states. */
  lemma {:induction false} RunKeepsInvariant(env: Env, s: State, ms: seq<Message>)
    requires Inv(s)
    ensures Inv(Run(env, s, ms).state)
  {
    if ms != [] {
      var k := |ms| - 1;
      RunKeepsInvariant(env, s, ms[..k]);
      var r := Run(env, s, ms[..k]);
      if !r.failed && ms[k].SnapshotMessage? {
        SnapshotStep(env, r.state, NormalizeChunk(ms[k].chunk, env.source.name));
      }
    }
  }

  // ---------- the history behind a buffer ----------

  /** The snapshot messages of a run, in order. */
  function Chunks(ms: seq<Message>): seq<Chunk> {
    if ms == [] then []
    else
      var k := |ms| - 1;
      Chunks(ms[..k]) + match ms[k] case SnapshotMessage(c) => [c] case EventMessage(_) => []
  }

  /** The last n snapshot messages all belong to snapshot `id` of `total` chunks, carry
      distinct indices, and delivered exactly what is in `received`. */
  ghost predicate DeliveredBy(cs: seq<Chunk>, source: string, id: string, total: int, received: map<int, seq<DiscoveredTarget>>) {
    && |received| <= |cs|
    && (forall i :: |cs| - |received| <= i < |cs| ==>
          cs[i].id == id && cs[i].total == total && cs[i].index in received &&
          received[cs[i].index] == Normalized(cs[i].targets, source))
    && (forall i, j :: |cs| - |received| <= i < j < |cs| ==> cs[i].index != cs[j].index)
  }

  ghost predicate HistoryOf(s: State, cs: seq<Chunk>, source: string) {
    s.active.Some? ==> DeliveredBy(cs, source, s.active.value.id, s.active.value.total, s.active.value.received)
  }

  lemma DeliveredOneMore(cs: seq<Chunk>, c: Chunk, source: string, received: map<int, seq<DiscoveredTarget>>)
    requires DeliveredBy(cs, source, c.id, c.total, received) && c.index !in received
    ensures DeliveredBy(cs + [c], source, c.id, c.total, received[c.index := Normalized(c.targets, source)])
  {
    var received' := received[c.index := Normalized(c.targets, source)];
    assert |received'| == |received| + 1;
    forall i | |cs| + 1 - |received'| <= i < |cs| ensures cs[i].index in received && cs[i].index != c.index { }
  }

  /** Every buffer was filled by the most recent snapshot messages, and every application
      is preceded by `total` consecutive snapshot messages of one snapshot that cover
      each index once; what is applied is their targets in index order. */
  lemma {:induction false} ApplicationsAreEarned(env: Env, s: State, ms: seq<Message>)
    requires s.active == None
    ensures var r := Run(env, s, ms); !r.failed ==> HistoryOf(r.state, Chunks(ms), env.source.name)
    ensures var r := Run(env, s, ms);
            ms != [] && !r.failed && r.applied != Run(env, s, ms[..|ms| - 1]).applied ==>
              exists id, received ::
                && DeliveredBy(Chunks(ms), env.source.name, id, |received|, received)
                && received.Keys == Range(|received|)
                && Gather(received, |received|).Some?
                && r.applied == Run(env, s, ms[..|ms| - 1]).applied + [Gather(received, |received|).value]
  {
    if ms != [] {
      var k := |ms| - 1;
      var cs, source := Chunks(ms[..k]), env.source.name;
      ApplicationsAreEarned(env, s, ms[..k]);
      RunKeepsInvariant(env, s, ms[..k]);
      var r := Run(env, s, ms[..k]);
      if !r.failed && ms[k].SnapshotMessage? {
        var c := ms[k].chunk;
        OneApplication(env, r.state, cs, c);
        assert r.applied + [] == r.applied;
      }
    }
  }

  lemma OneApplication(env: Env, s: State, cs: seq<Chunk>, c: Chunk)
    requires Inv(s) && HistoryOf(s, cs, env.source.name)
    ensures var r := ProcessSnapshot(env, s, NormalizeChunk(c, env.source.name));
            && (!r.failed ==> HistoryOf(r.state, cs + [c], env.source.name))
            && (!r.failed && r.applied != [] ==>
                  exists id, received ::
                    && DeliveredBy(cs + [c], env.source.name, id, |received|, received)
                    && received.Keys == Range(|received|)
                    && Gather(received, |received|).Some?
                    && r.applied == [Gather(received, |received|).value])
  {
    var source := env.source.name;
    var n := NormalizeChunk(c, source);
    SnapshotStep(env, s, n);
    if !Refused(s, n) {
      var before := ReceivedBefore(s, n);
      var received := before[n.index := n.targets];
      assert DeliveredBy(cs, source, c.id, c.total, before);
      DeliveredOneMore(cs, c, source, before);
      assert |received| == |before| + 1;
      if Completes(s, n) {
        FullBufferHasAll(received, n.total);
        assert DeliveredBy(cs + [c], source, c.id, |received|, received);
      }
    }
  }

  // ---------- single events ----------

  /** An event outside a snapshot acts on the object with the prefixed name, and on no
      other: an apply leaves it there with the fields of the event's target, a delete
      leaves it gone, and the count moves by one; if the call fails nothing changes. */
  lemma EventOutsideSnapshot(env: Env, s: State, e: Event)
    requires s.active == None && -0x8000_0000 < s.count < 0x7FFF_FFFF
    ensures var r := Process(env, s, EventMessage(e));
            var name := env.source.name + "-" + e.target.name;
            && r.failed == !env.ok(s.calls) && r.applied == [] && r.state.active == None
            && (forall n :: n != name ==> (n in r.state.store <==> n in s.store) && (n in s.store ==> r.state.store[n] == s.store[n]))
            && (r.failed ==> r.state.store == s.store && r.state.count == s.count)
            && (!r.failed && e.action == Apply ==>
                  name in r.state.store && HasFields(r.state.store[name], e.target, env.source) && r.state.count == s.count + 1)
            && (!r.failed && e.action == Delete ==> name !in r.state.store && r.state.count == s.count - 1)
  {
    GeneratedFields(NormalizeTarget(e.target, env.source.name), env.source);
  }

  /** An event during a snapshot only joins the queue of deferred events. */
  lemma EventDuringSnapshot(env: Env, s: State, e: Event)
    requires s.active.Some?
    ensures var r := Process(env, s, EventMessage(e));
            !r.failed && r.applied == [] &&
            r.state == s.(deferred := s.deferred + [Event(e.target.(name := env.source.name + "-" + e.target.name), e.action)])
  {
  }
}
