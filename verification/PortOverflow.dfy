/** Pools of more than 46341 slots: 32-bit probing then leaves the pool. */
module PortOverflow {
  import opened Counting
  import opened Ordering
  import opened Placement
  import opened NumberTheory
  import opened Ports
  import opened PortPrimality

  ghost predicate InRangeOf(ports: map<string, int>, base: int, n: int) {
    forall x :: x in ports ==> base <= ports[x] < base + n
  }

  /** Whatever the hash, ports of a pool that is not overfull lie in its range. */
  ghost predicate StaysInRange(base: int, n: int) {
    forall h: Hash32, names: seq<string> ::
      var r := AssignResult(h, names, base, n);
      Distinct(names) && |names| <= n && r.Ports? ==> InRangeOf(r.ports, base, n)
  }

  // ---------- a hash that uses up the good probes ----------

  /** Names 'a'^k for k < i start where the last name's k-th probe is. */
  function FillingHash(start: int, n: int, i: nat): Hash32
    requires 1 < n < 0x8000_0000 && 0 <= start < n
  {
    s => if IsStepKey(s) then n - 2 else if |s| < i then Slot(start, n - 1, n, |s|) else start
  }

  lemma RunIsNoStepKey(k: nat)
    ensures !IsStepKey(Run(k))
  {
    if k >= 5 { assert Run(k)[..5][0] == 'a'; }
  }

  lemma FillingStarts(start: int, n: int, i: nat, k: nat)
    requires 1 < n < 0x8000_0000 && 0 <= start < n
    ensures var h := FillingHash(start, n, i);
            Start(h, Run(k), n) == (if k < i then Slot(start, n - 1, n, k) else start) && Step(h, Run(k), n) == n - 1
  {
    var h, key := FillingHash(start, n, i), "step:" + Run(k);
    RunIsNoStepKey(k);
    assert key[..5] == "step:" && |Run(k)| == k;
    assert h(key) == n - 2;
    DivisionIsUnique(n - 2, n - 1, 0, n - 2);
    DivisionIsUnique(h(Run(k)), n, 0, h(Run(k)));
  }

  /** With stride n - 1 the probes walk backwards, so they differ. */
  lemma BackwardsDiffer(start: int, n: int, j: nat, k: nat)
    requires n > 1 && 0 <= start < n && j < k < n
    ensures Slot(start, n - 1, n, j) != Slot(start, n - 1, n, k)
  {
    if Slot(start, n - 1, n, j) == Slot(start, n - 1, n, k) {
      SameRemainder(start + k * (n - 1), start + j * (n - 1), n);
      assert start + k * (n - 1) - (start + j * (n - 1)) == (k - j) * n - (k - j);
      assert Divides(n, (k - j) * n);
      DividesSum(n, (k - j) * n, (k - j) * n - (k - j));
      assert (k - j) * n - ((k - j) * n - (k - j)) == k - j;
      DividesPositive(n, k - j);
    }
  }

  lemma FirstProbe(start: int, step: int, n: int)
    requires n > 1 && 0 <= start < n < 0x8000_0000
    ensures Probe(start, step, n, 0) == start
  {
    assert 0 * step == 0;
    FitsUnchanged(start);
    DivisionIsUnique(start, n, 0, start);
  }

  lemma EarlyProbe(start: int, step: int, n: int, j: int, i: int)
    requires n > 1 && 0 <= start && 1 <= step && 0 <= j < i && start + i * step <= 0x8000_0001 && step >= 2
    ensures Probe(start, step, n, j) == Slot(start, step, n, j)
  {
    assert (j + 1) * step <= i * step;
    assert (j + 1) * step == j * step + step;
    assert 0 <= j * step;
    FitsUnchanged(j * step);
    FitsUnchanged(start + j * step);
  }

  /** The probe that overflows. */
  lemma NegativeProbe(n: int) returns (start: int, i: int)
    requires 46341 < n < 0x8000_0000
    ensures 0 <= start < n && 0 <= i < n && start + i * (n - 1) <= 0x8000_0001
    ensures -n < Probe(start, n - 1, n, i) < 0
  {
    var step := n - 1;
    i := 0x8000_0000 / step;
    var rest := 0x8000_0000 % step;
    assert 0x8000_0000 == step * i + rest == i * step + rest;
    QuotientBelow(i, step, rest, n);
    if 0x8000_0000 % n == 0 {
      start := rest + 1;
      NextHasRemainder(0x8000_0000, n);
    } else {
      start := rest;
    }
    OverflowIsNegative(start, step, n, i);
  }

  lemma OverflowIsNegative(start: int, step: int, n: int, i: int)
    requires 1 < n < 0x8000_0000
    requires var x := start + i * step;
             (x == 0x8000_0000 && 0x8000_0000 % n != 0) || (x == 0x8000_0001 && 0x8000_0000 % n == 0)
    ensures -n < Probe(start, step, n, i) < 0
  {
    WrapOnce(start, i * step);
    var x := start + i * step;
    assert I32(x) == x - 0x1_0000_0000;
    if x == 0x8000_0001 { PreviousRemainder(0x8000_0000, n); }
  }

  lemma PreviousRemainder(x: int, n: int)
    requires n > 1 && x % n == 0
    ensures (x - 1) % n == n - 1
  {
    assert n * (x / n - 1) == n * (x / n) - n;
    DivisionIsUnique(x - 1, n, x / n - 1, n - 1);
  }

  // ---------- the table that hash leads to ----------

  lemma {:induction false} LongerRunIsLater(j: nat, k: nat)
    requires j < k
    ensures Less(Run(j), Run(k))
  {
    if j > 0 {
      assert Run(j)[1..] == Run(j - 1) && Run(k)[1..] == Run(k - 1);
      LongerRunIsLater(j - 1, k - 1);
    }
  }

  lemma RunsAreSorted(k: nat)
    ensures SortStrings(ManyNames(k)) == ManyNames(k)
  {
    var names := ManyNames(k);
    forall i, j | 0 <= i < j < k ensures AtMost(names[i], names[j]) { LongerRunIsLater(i, j); }
    SortStringsSorted(names);
    SortedUnique(SortStrings(names), names);
  }

  /** The slots of the first k probes. */
  ghost function Early(start: int, n: int, k: nat): set<int>
    requires n > 0
  {
    Slots(start, n - 1, n, k)
  }

  lemma NextIsFree(start: int, n: int, k: nat)
    requires n > 1 && 0 <= start < n && k < n
    ensures Slot(start, n - 1, n, k) !in Early(start, n, k)
    ensures Early(start, n, k + 1) == Early(start, n, k) + {Slot(start, n - 1, n, k)}
  {
    var step := n - 1;
    forall j: nat | j < k ensures Slot(start, step, n, j) != Slot(start, step, n, k) { BackwardsDiffer(start, n, j, k); }
  }

  /** The k-th name, k < i, takes the slot of the k-th probe. */
  lemma EarlyName(start: int, n: int, i: nat, k: nat)
    requires 1 < n < 0x8000_0000 && 0 <= start < n && k < i <= n
    ensures DoubleHashing(FillingHash(start, n, i), n)(Run(k), Early(start, n, k)) == Some(Slot(start, n - 1, n, k))
  {
    FillingStarts(start, n, i, k);
    NextIsFree(start, n, k);
    FirstProbe(Slot(start, n - 1, n, k), n - 1, n);
  }

  lemma {:induction false} EarlyTable(start: int, n: int, i: nat, k: nat, base: int)
    requires 1 < n < 0x8000_0000 && 0 <= start < n && k <= i <= n
    ensures var r := Assign(DoubleHashing(FillingHash(start, n, i), n), ManyNames(k), base);
            r.Some? && r.value.used == Early(start, n, k)
  {
    if k == 0 {
      assert ManyNames(0) == [] && Early(start, n, 0) == {};
    } else {
      assert ManyNames(k)[..k - 1] == ManyNames(k - 1) && ManyNames(k)[k - 1] == Run(k - 1);
      EarlyTable(start, n, i, k - 1, base);
      EarlyName(start, n, i, k - 1);
      NextIsFree(start, n, k - 1);
    }
  }

  /** When the first i probes are used, the next one is taken. */
  lemma {:induction false} SkipUsed(start: int, step: int, n: int, used: set<int>, i: int, k: int)
    requires n > 0 && 0 <= k <= i < n
    requires forall j :: k <= j < i ==> Probe(start, step, n, j) in used
    requires Probe(start, step, n, i) !in used
    ensures FindSlot(start, step, n, used, k) == Some(Probe(start, step, n, i))
    decreases i - k
  {
    if k < i { SkipUsed(start, step, n, used, i, k + 1); }
  }

  lemma LastName(start: int, n: int, i: nat)
    requires 46341 < n < 0x8000_0000 && 0 <= start < n && i < n && start + i * (n - 1) <= 0x8000_0001
    requires Probe(start, n - 1, n, i) < 0
    ensures DoubleHashing(FillingHash(start, n, i), n)(Run(i), Early(start, n, i)) == Some(Probe(start, n - 1, n, i))
  {
    FillingStarts(start, n, i, i);
    var step := n - 1;
    forall j | 0 <= j < i ensures Probe(start, step, n, j) in Early(start, n, i) { EarlyProbe(start, step, n, j, i); }
    SkipUsed(start, step, n, Early(start, n, i), i, 0);
  }

  lemma LastPort(pick: Picker, names: seq<string>, name: string, base: int, slot: int)
    requires var before := Assign(pick, names, base);
             before.Some? && pick(name, before.value.used) == Some(slot)
    requires -0x8000_0000 <= base + slot < 0x8000_0000
    ensures var r := Assign(pick, names + [name], base);
            r.Some? && name in r.value.result && r.value.result[name] == base + slot
  {
    assert (names + [name])[..|names|] == names;
    FitsUnchanged(base + slot);
  }

  lemma SortedResult(h: Hash32, names: seq<string>, base: int, n: int)
    requires n > 1 && names != [] && SortStrings(names) == names && Assign(DoubleHashing(h, n), names, base).Some?
    ensures AssignResult(h, names, base, n) == Ports(Assign(DoubleHashing(h, n), names, base).value.result)
  {
  }

  /** Beyond 46341 slots some hash gives the last of a few names a port below the range. */
  lemma LeavesRange(base: int, n: int)
    requires 46341 < n < 0x8000_0000 && 0 <= base && base + n <= 0x8000_0000
    ensures !StaysInRange(base, n)
  {
    var start, i := NegativeProbe(n);
    var h, names := FillingHash(start, n, i), ManyNames(i + 1);
    var slot := Probe(start, n - 1, n, i);
    EarlyTable(start, n, i, i, base);
    LastName(start, n, i);
    assert names == ManyNames(i) + [Run(i)];
    LastPort(DoubleHashing(h, n), ManyNames(i), Run(i), base, slot);
    ManyNamesAreDistinct(i + 1);
    RunsAreSorted(i + 1);
    SortedResult(h, names, base, n);
    OutOfRange(h, names, base, n, Run(i), base + slot);
  }

  lemma OutOfRange(h: Hash32, names: seq<string>, base: int, n: int, name: string, port: int)
    requires Distinct(names) && |names| <= n && AssignResult(h, names, base, n).Ports?
    requires name in AssignResult(h, names, base, n).ports && AssignResult(h, names, base, n).ports[name] == port < base
    ensures !StaysInRange(base, n)
  {
    assert !InRangeOf(AssignResult(h, names, base, n).ports, base, n);
  }

  lemma SmallPoolStays(base: int, n: int)
    requires 1 < n <= 46341 && 0 <= base && base + n <= 0x8000_0000
    ensures StaysInRange(base, n)
  {
    forall h: Hash32, names: seq<string> | Distinct(names) && AssignResult(h, names, base, n).Ports?
      ensures InRangeOf(AssignResult(h, names, base, n).ports, base, n)
    {
      SmallPoolInRange(h, names, base, n);
    }
  }

  lemma SmallPoolInRange(h: Hash32, names: seq<string>, base: int, n: int)
    requires 1 < n <= 46341 && 0 <= base && base + n <= 0x8000_0000
    requires Distinct(names) && AssignResult(h, names, base, n).Ports?
    ensures InRangeOf(AssignResult(h, names, base, n).ports, base, n)
  {
    var sorted := SortStrings(names);
    DistinctMultiset(names, sorted);
    DoubleHashingPicksFree(h, n);
    AssignIsSound(DoubleHashing(h, n), sorted, base, n);
  }

  /** Ports lie in the range, whatever the hash, if and only if the pool has at most
      46341 slots. */
  lemma PortsStayInRangeExactly(base: int, n: int)
    requires 1 < n < 0x8000_0000 && 0 <= base && base + n <= 0x8000_0000
    ensures StaysInRange(base, n) <==> n <= 46341
  {
    if n <= 46341 { SmallPoolStays(base, n); } else { LeavesRange(base, n); }
  }
}
