/** The Prometheus port pool: assignPorts in internal/gnmic/plan.go, open addressing
    with double hashing and 32-bit arithmetic.  The string hash is a parameter. */
module Ports {
  import opened Counting
  import opened Ordering
  import opened Placement
  import opened NumberTheory

  type Int32 = x: int | -0x8000_0000 <= x < 0x8000_0000
  type UInt32 = x: int | 0 <= x < 0x1_0000_0000
  type Hash32 = string -> UInt32

  const DEFAULT_PORT: Int32 := 9804
  const POOL_SIZE: Int32 := 1009

  /** Conversion and overflow of a 32-bit signed integer. */
  function I32(x: int): Int32 {
    (x + 0x8000_0000) % 0x1_0000_0000 - 0x8000_0000
  }

  /** Go's remainder: the sign of the dividend. */
  function Rem(x: int, n: int): int
    requires n > 0
  {
    if x >= 0 then x % n else -((-x) % n)
  }

  function Start(h: Hash32, name: string, n: int): int
    requires n > 0
  {
    h(name) % n
  }

  function Step(h: Hash32, name: string, n: int): int
    requires n > 1
  {
    h("step:" + name) % (n - 1) + 1
  }

  /** The i-th slot probed, in 32-bit arithmetic. */
  function Probe(start: int, step: int, n: int, i: int): int
    requires n > 0
  {
    Rem(I32(start + I32(i * step)), n)
  }

  function FindSlot(start: int, step: int, n: int, used: set<int>, i: int): Option<int>
    requires 0 <= i <= n && n > 0
    decreases n - i
  {
    if i == n then None
    else if Probe(start, step, n, i) !in used then Some(Probe(start, step, n, i))
    else FindSlot(start, step, n, used, i + 1)
  }

  /** How a slot is found for a name when some slots are used. */
  type Picker = (string, set<int>) -> Option<int>

  function DoubleHashing(h: Hash32, n: int): Picker
    requires n > 1
  {
    (name: string, used: set<int>) => FindSlot(Start(h, name, n), Step(h, name, n), n, used, 0)
  }

  datatype PortState = PortState(used: set<int>, result: map<string, int>)

  /** The table after one more name, or nothing if it finds no slot. */
  function Next(pick: Picker, before: Option<PortState>, name: string, base: int): Option<PortState> {
    match before
    case None => None
    case Some(st) =>
      match pick(name, st.used)
      case None => None
      case Some(slot) => Some(PortState(st.used + {slot}, st.result[name := I32(base + slot)]))
  }

  /** The table after the given names, taken in this order. */
  function Assign(pick: Picker, names: seq<string>, base: int): Option<PortState> {
    if names == [] then Some(PortState({}, map[]))
    else
      var k := |names| - 1;
      Next(pick, Assign(pick, names[..k], base), names[k], base)
  }

  /** DivideByZero is the panic of a one-slot pool. */
  datatype PortResult = Ports(ports: map<string, int>) | NoFreePorts | BadRange | DivideByZero

  function AssignResult(h: Hash32, names: seq<string>, base: int, n: int): PortResult {
    if n <= 0 then BadRange
    else if names == [] then Ports(map[])
    else if n == 1 then DivideByZero
    else match Assign(DoubleHashing(h, n), SortStrings(names), base)
      case None => NoFreePorts
      case Some(st) => Ports(st.result)
  }

  /** The probe loop for one name. */
  method ProbePool(start: int, step: int, n: int, used: set<int>) returns (r: Option<int>)
    requires n > 0
    ensures r == FindSlot(start, step, n, used, 0)
  {
    var i := 0;
    while i < n
      invariant 0 <= i <= n
      invariant FindSlot(start, step, n, used, 0) == FindSlot(start, step, n, used, i)
    {
      var slot := Probe(start, step, n, i);
      if slot !in used {
        return Some(slot);
      }
      i := i + 1;
    }
    return None;
  }

  /** The loop over the sorted names. */
  method PlaceAll(h: Hash32, sorted: seq<string>, base: Int32, n: Int32) returns (r: Option<PortState>)
    requires n > 1
    ensures r == Assign(DoubleHashing(h, n), sorted, base)
  {
    var used: set<int> := {};
    var result: map<string, int> := map[];
    for k := 0 to |sorted|
      invariant Assign(DoubleHashing(h, n), sorted[..k], base) == Some(PortState(used, result))
    {
      assert sorted[..k+1][..k] == sorted[..k];
      var found := ProbePool(Start(h, sorted[k], n), Step(h, sorted[k], n), n, used);
      if found.None? {
        AssignPrefixFails(DoubleHashing(h, n), sorted, base, k + 1);
        return None;
      }
      used := used + {found.value};
      result := result[sorted[k] := I32(base + found.value)];
    }
    assert sorted[..|sorted|] == sorted;
    return Some(PortState(used, result));
  }

  method AssignPorts(h: Hash32, names: seq<string>, base: Int32, rangeSize: Int32) returns (r: PortResult)
    ensures r == AssignResult(h, names, base, rangeSize)
    ensures r == BadRange <==> rangeSize <= 0
    ensures r == DivideByZero <==> rangeSize == 1 && names != []
    ensures names == [] && rangeSize > 0 ==> r == Ports(map[])
  {
    if rangeSize <= 0 {
      return BadRange;
    }
    var sorted := SortStrings(names);
    if sorted == [] {
      return Ports(map[]);
    }
    if rangeSize == 1 {
      return DivideByZero;
    }
    var st := PlaceAll(h, sorted, base, rangeSize);
    r := match st case None => NoFreePorts case Some(v) => Ports(v.result);
  }

  lemma {:induction false} AssignPrefixFails(pick: Picker, names: seq<string>, base: int, k: nat)
    requires k <= |names| && Assign(pick, names[..k], base) == None
    ensures Assign(pick, names, base) == None
  {
    if k == |names| {
      assert names[..k] == names;
    } else {
      assert names[..|names| - 1][..k] == names[..k];
      AssignPrefixFails(pick, names[..|names| - 1], base, k);
    }
  }

  // ---------- the arithmetic does not overflow ----------

  /** The probe sequence over unbounded integers. */
  function Slot(start: int, step: int, n: int, i: int): int
    requires n > 0
  {
    (start + i * step) % n
  }

  predicate InPool(start: int, step: int, n: int, i: int) {
    0 <= start < n && 1 <= step < n && 0 <= i < n
  }

  lemma FitsUnchanged(x: int)
    requires -0x8000_0000 <= x < 0x8000_0000
    ensures I32(x) == x
  {
  }

  lemma StrideBound(i: int, step: int, m: int)
    requires 0 <= i <= m && 0 <= step <= m
    ensures 0 <= i * step <= m * m
  {
    assert i * step <= m * step <= m * m;
  }

  lemma ProbeIsSlot(start: int, step: int, n: int, i: int)
    requires 1 < n <= 46341 && InPool(start, step, n, i)
    ensures Probe(start, step, n, i) == Slot(start, step, n, i)
  {
    StrideBound(i, step, 46340);
    FitsUnchanged(i * step);
    FitsUnchanged(start + i * step);
  }

  lemma WrapOnce(a: int, b: int)
    ensures I32(a + I32(b)) == I32(a + b)
  {
  }

  lemma DivisionIsUnique(x: int, n: int, q: int, r: int)
    requires n > 0 && 0 <= r < n && x == n * q + r
    ensures x / n == q && x % n == r
  {
    var d := x / n - q;
    assert n * d == n * (x / n) - n * q;
    assert -n < n * d < n;
    assert d >= 1 ==> n * d >= n;
    assert d <= -1 ==> n * d <= -n;
  }

  lemma NextHasRemainder(x: int, n: int)
    requires n > 1 && x % n == 0
    ensures (x + 1) % n == 1
  {
    DivisionIsUnique(x + 1, n, x / n, 1);
  }

  lemma QuotientBelow(i: int, step: int, rest: int, n: int)
    requires step == n - 1 && n > 46341 && rest >= 0 && 0x8000_0000 == i * step + rest
    ensures i < n
  {
    assert n * step >= n * 46341;
    assert i >= n ==> i * step >= n * step;
  }

  /** A value that just overflows lands on the wrong slot. */
  lemma OverflowMisses(start: int, step: int, n: int, i: int)
    requires n > 1 && (start + i * step == 0x8000_0000 || start + i * step == 0x8000_0001)
    requires (start + i * step) % n != 0
    ensures Probe(start, step, n, i) != Slot(start, step, n, i)
  {
    WrapOnce(start, i * step);
    assert I32(start + i * step) < 0;
  }

  lemma OverflowProbe(n: int) returns (start: int, step: int, i: int)
    requires 46341 < n < 0x8000_0000
    ensures InPool(start, step, n, i) && Probe(start, step, n, i) != Slot(start, step, n, i)
  {
    step := n - 1;
    i := 0x8000_0000 / step;
    var rest := 0x8000_0000 % step;
    assert 0x8000_0000 == step * i + rest == i * step + rest;
    QuotientBelow(i, step, rest, n);
    if 0x8000_0000 % n == 0 {
      start := rest + 1;
      NextHasRemainder(0x8000_0000, n);
    } else {
      start := rest;
    }
    OverflowMisses(start, step, n, i);
  }

  /** 32-bit probing agrees with exact probing for every start and step exactly
      when the pool has at most 46341 slots. */
  lemma ProbingExactUpTo46341(n: Int32)
    requires n > 1
    ensures (forall start, step, i :: InPool(start, step, n, i) ==> Probe(start, step, n, i) == Slot(start, step, n, i)) <==>
            n <= 46341
  {
    if n <= 46341 {
      forall start, step, i | InPool(start, step, n, i) ensures Probe(start, step, n, i) == Slot(start, step, n, i) {
        ProbeIsSlot(start, step, n, i);
      }
    } else {
      var start, step, i := OverflowProbe(n);
    }
  }

  // ---------- every slot is probed ----------

  ghost function Slots(start: int, step: int, n: int, k: int): set<int>
    requires n > 0
  {
    set i | 0 <= i < k :: Slot(start, step, n, i)
  }

  lemma PrimeProbesDiffer(start: int, step: int, n: int, i: int, j: int)
    requires Prime(n) && 1 <= step < n && 0 <= i < j < n
    ensures Slot(start, step, n, i) != Slot(start, step, n, j)
  {
    if Slot(start, step, n, i) == Slot(start, step, n, j) {
      SameRemainder(start + j * step, start + i * step, n);
      assert start + j * step - (start + i * step) == step * (j - i);
      Euclid(n, step, j - i);
      DividesPositive(n, j - i);
    }
  }

  lemma {:induction false} PrimeProbesCount(start: int, step: int, n: int, k: nat)
    requires Prime(n) && 1 <= step < n && k <= n
    ensures |Slots(start, step, n, k)| == k
  {
    if k == 0 {
      assert Slots(start, step, n, k) == {};
    } else {
      PrimeProbesCount(start, step, n, k - 1);
      assert Slots(start, step, n, k) == Slots(start, step, n, k - 1) + {Slot(start, step, n, k - 1)};
      forall i | 0 <= i < k - 1 ensures Slot(start, step, n, i) != Slot(start, step, n, k - 1) {
        PrimeProbesDiffer(start, step, n, i, k - 1);
      }
    }
  }

  lemma {:induction false} FindSlotFinds(start: int, step: int, n: int, used: set<int>, i: int)
    requires 0 <= i <= n && n > 0
    ensures var r := FindSlot(start, step, n, used, i);
            && (r.Some? ==> r.value !in used && exists j :: i <= j < n && r.value == Probe(start, step, n, j))
            && (r.None? ==> forall j :: i <= j < n ==> Probe(start, step, n, j) in used)
    decreases n - i
  {
    if i < n { FindSlotFinds(start, step, n, used, i + 1); }
  }

  /** A prime pool that is not full always has a slot for the next name. */
  lemma RoomMeansSlot(start: int, step: int, n: int, used: set<int>)
    requires Prime(n) && n <= 46341 && 0 <= start < n && 1 <= step < n && |used| < n
    ensures FindSlot(start, step, n, used, 0).Some?
  {
    FindSlotFinds(start, step, n, used, 0);
    if FindSlot(start, step, n, used, 0).None? {
      forall i | 0 <= i < n ensures Slot(start, step, n, i) in used {
        ProbeIsSlot(start, step, n, i);
      }
      PrimeProbesCount(start, step, n, n);
      SmallerSet(Slots(start, step, n, n), used);
    }
  }

  // ---------- the table ----------

  /** What the table holds after placing `names`. */
  ghost predicate Sound(st: PortState, names: seq<string>, base: int, n: nat) {
    && st.used <= Range(n) && |st.used| == |names|
    && (forall x :: x in st.result <==> x in names)
    && (forall x :: x in st.result ==> st.result[x] - base in st.used)
    && (forall x, y :: x in st.result && y in st.result && x != y ==> st.result[x] != st.result[y])
  }

  /** Only free slots of the pool are picked. */
  ghost predicate PicksFree(pick: Picker, n: nat) {
    forall name, used :: pick(name, used).Some? ==> pick(name, used).value !in used && pick(name, used).value in Range(n)
  }

  /** A slot is picked whenever fewer slots than there are have been used. */
  ghost predicate PicksWhileRoom(pick: Picker, n: nat) {
    forall name, used :: |used| < n ==> pick(name, used).Some?
  }

  lemma DoubleHashingPicksFree(h: Hash32, n: nat)
    requires 1 < n <= 46341
    ensures PicksFree(DoubleHashing(h, n), n)
  {
    forall name, used: set<int>
      ensures var r := DoubleHashing(h, n)(name, used); r.Some? ==> r.value !in used && r.value in Range(n)
    {
      var start, step := Start(h, name, n), Step(h, name, n);
      FindSlotFinds(start, step, n, used, 0);
      var r := FindSlot(start, step, n, used, 0);
      if r.Some? {
        var i :| 0 <= i < n && r.value == Probe(start, step, n, i);
        ProbeIsSlot(start, step, n, i);
        assert InRange(r.value, n);
      }
    }
  }

  lemma PrimePicksWhileRoom(h: Hash32, n: nat)
    requires Prime(n) && n <= 46341
    ensures PicksWhileRoom(DoubleHashing(h, n), n)
  {
    forall name, used: set<int> | |used| < n ensures DoubleHashing(h, n)(name, used).Some? {
      RoomMeansSlot(Start(h, name, n), Step(h, name, n), n, used);
    }
  }

  lemma {:induction false} AssignIsSound(pick: Picker, names: seq<string>, base: int, n: nat)
    requires PicksFree(pick, n) && Distinct(names) && 0 <= base && base + n <= 0x8000_0000
    ensures var r := Assign(pick, names, base); r.Some? ==> Sound(r.value, names, base, n)
  {
    if names != [] {
      var k := |names| - 1;
      AssignIsSound(pick, names[..k], base, n);
      SoundNext(pick, Assign(pick, names[..k], base), names[..k], names[k], base, n);
      assert names[..k] + [names[k]] == names;
    }
  }

  lemma SoundNext(pick: Picker, before: Option<PortState>, names: seq<string>, name: string, base: int, n: nat)
    requires PicksFree(pick, n) && name !in names && 0 <= base && base + n <= 0x8000_0000
    requires before.Some? ==> Sound(before.value, names, base, n)
    ensures var r := Next(pick, before, name, base); r.Some? ==> Sound(r.value, names + [name], base, n)
  {
    match before
    case None =>
    case Some(st) =>
      match pick(name, st.used)
      case None =>
      case Some(slot) =>
        SoundStep(st, names, name, slot, base, n);
        assert Next(pick, before, name, base) == Some(PortState(st.used + {slot}, st.result[name := I32(base + slot)]));
  }

  lemma SoundStep(st: PortState, names: seq<string>, name: string, slot: int, base: int, n: nat)
    requires Sound(st, names, base, n) && name !in names && slot !in st.used && slot in Range(n)
    requires 0 <= base && base + n <= 0x8000_0000
    ensures Sound(PortState(st.used + {slot}, st.result[name := I32(base + slot)]), names + [name], base, n)
  {
    FitsUnchanged(base + slot);
  }

  lemma {:induction false} RoomServesAll(pick: Picker, names: seq<string>, base: int, n: nat)
    requires PicksFree(pick, n) && PicksWhileRoom(pick, n)
    requires Distinct(names) && 0 <= base && base + n <= 0x8000_0000 && |names| <= n
    ensures Assign(pick, names, base).Some?
  {
    if names != [] {
      var k := |names| - 1;
      RoomServesAll(pick, names[..k], base, n);
      AssignIsSound(pick, names[..k], base, n);
    }
  }

  /** For a prime pool: distinct names all get ports exactly when there are not more
      of them than slots, and the ports are then distinct and inside the range. */
  lemma PrimePool(h: Hash32, names: seq<string>, base: int, n: nat)
    requires Prime(n) && n <= 46341 && Distinct(names) && 0 <= base && base + n <= 0x8000_0000
    ensures AssignResult(h, names, base, n).Ports? <==> |names| <= n
    ensures |names| > n ==> AssignResult(h, names, base, n) == NoFreePorts
    ensures var r := AssignResult(h, names, base, n);
            r.Ports? ==>
              && (forall x :: x in r.ports <==> x in names)
              && (forall x :: x in r.ports ==> base <= r.ports[x] < base + n)
              && (forall x, y :: x in r.ports && y in r.ports && x != y ==> r.ports[x] != r.ports[y])
  {
    var sorted := SortStrings(names);
    DistinctMultiset(names, sorted);
    assert forall x :: x in names <==> x in multiset(names);
    assert forall x :: x in sorted <==> x in multiset(sorted);
    var pick := DoubleHashing(h, n);
    DoubleHashingPicksFree(h, n);
    PrimePicksWhileRoom(h, n);
    AssignIsSound(pick, sorted, base, n);
    RangeCount(n);
    if |names| <= n {
      RoomServesAll(pick, sorted, base, n);
    } else if Assign(pick, sorted, base).Some? {
      SmallerSet(Assign(pick, sorted, base).value.used, Range(n));
    }
  }

  /** The pool the operator uses serves up to 1009 outputs of a pipeline. */
  lemma PrometheusPool(h: Hash32, names: seq<string>)
    requires Distinct(names)
    ensures AssignResult(h, names, DEFAULT_PORT, POOL_SIZE).Ports? <==> |names| <= 1009
    ensures var r := AssignResult(h, names, DEFAULT_PORT, POOL_SIZE);
            r.Ports? ==>
              && (forall x :: x in r.ports <==> x in names)
              && (forall x :: x in r.ports ==> 9804 <= r.ports[x] <= 10812)
              && (forall x, y :: x in r.ports && y in r.ports && x != y ==> r.ports[x] != r.ports[y])
  {
    Prime1009();
    PrimePool(h, names, DEFAULT_PORT, POOL_SIZE);
  }

  lemma LoneSlot(start: int, step: int, n: int)
    requires 1 < n <= 46341 && 0 <= start < n && 1 <= step < n
    ensures FindSlot(start, step, n, {}, 0) == Some(start)
  {
    ProbeIsSlot(start, step, n, 0);
    assert start + 0 * step == start;
    DivisionIsUnique(start, n, 0, start);
  }

  /** A name alone gets the slot its hash says. */
  lemma LoneName(h: Hash32, name: string, base: int, n: int)
    requires 1 < n <= 46341 && 0 <= base && base + n <= 0x8000_0000
    ensures AssignResult(h, [name], base, n) == Ports(map[name := base + h(name) % n])
  {
    var pick, start, none: set<int> := DoubleHashing(h, n), Start(h, name, n), {};
    LoneSlot(start, Step(h, name, n), n);
    assert pick(name, none) == FindSlot(start, Step(h, name, n), n, none, 0);
    assert [name][..0] == [];
    assert Assign(pick, [name], base) == Next(pick, Assign(pick, [], base), name, base);
    FitsUnchanged(base + start);
  }

  /** The order of the names does not matter. */
  lemma PortsOrderBlind(h: Hash32, names: seq<string>, other: seq<string>, base: int, n: int)
    requires multiset(names) == multiset(other)
    ensures AssignResult(h, names, base, n) == AssignResult(h, other, base, n)
  {
    SortStringsOrderBlind(names, other);
    assert |names| == |multiset(names)| == |multiset(other)| == |other|;
  }
}
