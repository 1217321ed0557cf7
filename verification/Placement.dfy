/** Bounded-load rendezvous placement: internal/gnmic/placement_blrh.go.

    The hash is a parameter: any function to naturals, which may collide.
    The Go code sorts kept targets with an unstable sort, so what happens to tied
    scores is up to the sort, which is a parameter of the methods: any function that
    sorts.  OutcomeVia has the result for one sort, Outcome the results for all of
    them, and the theorems in PlacementTheorems hold for every outcome. */
module Placement {
  import opened Ordering

  type Score = (string, int) -> nat

  /** Pod index to the names placed on that pod, in placement order. */
  type Assignment = map<int, seq<string>>

  /** A nil CurrentAssignment and an empty one behave alike; both are map[]. */
  datatype Options = Options(numPods: int, capacity: int, current: Assignment)

  datatype Option<+T> = None | Some(value: T)

  function NormalizeOptions(o: Option<Options>): (r: Options)
    ensures r.numPods >= 1
    ensures o.None? ==> r.numPods == 1 && r.capacity == 0 && r.current == map[]
    ensures o.Some? ==> r == o.value.(numPods := r.numPods) && (o.value.numPods >= 1 ==> r == o.value)
  {
    match o
    case None => Options(1, 0, map[])
    case Some(v) => if v.numPods <= 0 then v.(numPods := 1) else v
  }

  function EffectiveCapacity(numTargets: nat, o: Options): int
    requires o.numPods >= 1
  {
    if o.capacity == 0 then (numTargets + o.numPods - 1) / o.numPods else o.capacity
  }

  function Names(a: Assignment, p: int): seq<string> {
    if p in a then a[p] else []
  }

  function Put(a: Assignment, p: int, t: string): Assignment {
    a[p := Names(a, p) + [t]]
  }

  predicate HasRoom(a: Assignment, p: int, cap: int) {
    |Names(a, p)| < cap
  }

  // ---------- choosing a pod for one target ----------

  /** Pod p ranks above pod q for t: higher score, the lower index on a tie. */
  predicate Above(score: Score, t: string, p: int, q: int) {
    score(t, p) > score(t, q) || (score(t, p) == score(t, q) && p < q)
  }

  /** p is the highest-ranked of the pods 0..numPods-1 that satisfy `ok`. */
  ghost predicate IsTop(score: Score, t: string, numPods: int, ok: set<int>, p: int) {
    0 <= p < numPods && p in ok &&
    forall q :: 0 <= q < numPods && q in ok && q != p ==> Above(score, t, p, q)
  }

  ghost function Roomy(numPods: int, cap: int, a: Assignment): set<int> {
    set p | 0 <= p < numPods && HasRoom(a, p, cap)
  }

  /** The reference definition of the choice: the argmax over pods with room. */
  ghost predicate Chosen(score: Score, t: string, numPods: int, cap: int, a: Assignment, r: Option<int>) {
    match r
    case None => Roomy(numPods, cap, a) == {}
    case Some(p) => IsTop(score, t, numPods, Roomy(numPods, cap, a), p)
  }

  /** The same choice as a fold over the pods. */
  function BestPod(score: Score, t: string, numPods: int, cap: int, a: Assignment): Option<int>
    decreases numPods
  {
    if numPods <= 0 then None
    else
      var best := BestPod(score, t, numPods - 1, cap, a);
      if !HasRoom(a, numPods - 1, cap) then best
      else if best.Some? && !Above(score, t, numPods - 1, best.value) then best
      else Some(numPods - 1)
  }

  lemma {:induction false} BestPodIsChosen(score: Score, t: string, numPods: int, cap: int, a: Assignment)
    ensures Chosen(score, t, numPods, cap, a, BestPod(score, t, numPods, cap, a))
    decreases numPods
  {
    if numPods > 0 {
      BestPodIsChosen(score, t, numPods - 1, cap, a);
      var k := numPods - 1;
      var rest := Roomy(k, cap, a);
      var all := Roomy(numPods, cap, a);
      assert forall p :: p in all <==> p in rest || (p == k && HasRoom(a, k, cap));
      match BestPod(score, t, k, cap, a)
      case None =>
      case Some(b) =>
        assert b in rest;
    }
  }

  lemma ChosenIsUnique(score: Score, t: string, numPods: int, cap: int, a: Assignment,
                       r: Option<int>, s: Option<int>)
    requires Chosen(score, t, numPods, cap, a, r) && Chosen(score, t, numPods, cap, a, s)
    ensures r == s
  {
    if r.Some? { assert r.value in Roomy(numPods, cap, a); }
    if s.Some? { assert s.value in Roomy(numPods, cap, a); }
  }

  datatype PodScore = PodScore(index: int, score: nat)

  predicate PodBefore(x: PodScore, y: PodScore) {
    if x.score == y.score then x.index < y.index else x.score > y.score
  }

  /** Scores every pod, sorts, and takes the first pod that has room. */
  method BoundedRendezvousHash(score: Score, t: string, numPods: int, cap: int, a: Assignment)
    returns (r: Option<int>)
    ensures r == BestPod(score, t, numPods, cap, a)
  {
    var scores: seq<PodScore> := [];
    var i := 0;
    while i < numPods
      invariant 0 <= i <= (if numPods < 0 then 0 else numPods)
      invariant |scores| == i
      invariant forall k :: 0 <= k < i ==> scores[k] == PodScore(k, score(t, k))
    {
      scores := scores + [PodScore(i, score(t, i))];
      i := i + 1;
    }
    var sorted := SortSlice(scores, PodBefore);
    BestPodIsChosen(score, t, numPods, cap, a);
    var j := 0;
    while j < |sorted|
      invariant 0 <= j <= |sorted|
      invariant forall k :: 0 <= k < j ==> !HasRoom(a, sorted[k].index, cap)
    {
      if HasRoom(a, sorted[j].index, cap) {
        FirstRoomyIsTop(score, t, numPods, cap, a, scores, sorted, j);
        ChosenIsUnique(score, t, numPods, cap, a, Some(sorted[j].index), BestPod(score, t, numPods, cap, a));
        return Some(sorted[j].index);
      }
      j := j + 1;
    }
    NoRoomAnywhere(score, t, numPods, cap, a, scores, sorted);
    ChosenIsUnique(score, t, numPods, cap, a, None, BestPod(score, t, numPods, cap, a));
    return None;
  }

  ghost predicate ScoreTable(score: Score, t: string, numPods: int, scores: seq<PodScore>) {
    |scores| == (if numPods < 0 then 0 else numPods) &&
    forall k :: 0 <= k < |scores| ==> scores[k] == PodScore(k, score(t, k))
  }

  lemma SortedTableIndex(score: Score, t: string, numPods: int, scores: seq<PodScore>, sorted: seq<PodScore>, p: int)
    returns (k: int)
    requires ScoreTable(score, t, numPods, scores) && multiset(sorted) == multiset(scores)
    requires 0 <= p < numPods
    ensures 0 <= k < |sorted| && sorted[k] == PodScore(p, score(t, p))
  {
    assert scores[p] in multiset(sorted);
    k :| 0 <= k < |sorted| && sorted[k] == scores[p];
  }

  lemma FirstRoomyIsTop(score: Score, t: string, numPods: int, cap: int, a: Assignment,
                        scores: seq<PodScore>, sorted: seq<PodScore>, j: int)
    requires ScoreTable(score, t, numPods, scores)
    requires multiset(sorted) == multiset(scores) && SortedBy(sorted, PodBefore)
    requires 0 <= j < |sorted| && HasRoom(a, sorted[j].index, cap)
    requires forall k :: 0 <= k < j ==> !HasRoom(a, sorted[k].index, cap)
    ensures Chosen(score, t, numPods, cap, a, Some(sorted[j].index))
  {
    assert sorted[j] in multiset(scores);
    var p := sorted[j].index;
    assert sorted[j] == PodScore(p, score(t, p)) && 0 <= p < numPods;
    forall q | 0 <= q < numPods && HasRoom(a, q, cap) && q != p ensures Above(score, t, p, q) {
      var k := SortedTableIndex(score, t, numPods, scores, sorted, q);
      assert k > j;
      assert !PodBefore(sorted[k], sorted[j]);
    }
  }

  lemma NoRoomAnywhere(score: Score, t: string, numPods: int, cap: int, a: Assignment,
                       scores: seq<PodScore>, sorted: seq<PodScore>)
    requires ScoreTable(score, t, numPods, scores) && multiset(sorted) == multiset(scores)
    requires forall k :: 0 <= k < |sorted| ==> !HasRoom(a, sorted[k].index, cap)
    ensures Chosen(score, t, numPods, cap, a, None)
  {
    forall q | 0 <= q < numPods ensures !HasRoom(a, q, cap) {
      var k := SortedTableIndex(score, t, numPods, scores, sorted, q);
    }
  }

  // ---------- keeping current owners ----------

  predicate ScoreDescending(score: Score, p: int, s: seq<string>) {
    forall i, j :: 0 <= i < j < |s| ==> score(s[i], p) >= score(s[j], p)
  }

  function Kept(numOwned: nat, cap: int): nat {
    if cap <= 0 then 0 else if numOwned <= cap then numOwned else cap
  }

  /** `kept` is what pod p may keep of `owned`: as many as fit, best scores first. */
  ghost predicate IsKept(score: Score, p: int, cap: int, owned: seq<string>, kept: seq<string>) {
    && |kept| == Kept(|owned|, cap)
    && multiset(kept) <= multiset(owned)
    && ScoreDescending(score, p, kept)
    && forall x, y :: x in kept && y in multiset(owned) - multiset(kept) ==> score(x, p) >= score(y, p)
  }

  ghost function SurvivingOwners(current: Assignment, numPods: int): set<int> {
    set p | p in current && p < numPods && current[p] != []
  }

  ghost predicate KeptPhase(score: Score, current: Assignment, numPods: int, cap: int, kept: Assignment) {
    && kept.Keys == SurvivingOwners(current, numPods)
    && forall p :: p in kept ==> IsKept(score, p, cap, current[p], kept[p])
  }

  ghost function Placed(a: Assignment): set<string> {
    set p, t | p in a && t in a[p] :: t
  }

  // ---------- placing the rest ----------

  function PlaceOne(score: Score, numPods: int, cap: int, skip: set<string>, a: Assignment, t: string): Assignment {
    if t in skip then a
    else match BestPod(score, t, numPods, cap, a)
      case None => a
      case Some(p) => Put(a, p, t)
  }

  function Fill(score: Score, numPods: int, cap: int, skip: set<string>, names: seq<string>, a: Assignment): Assignment {
    if names == [] then a
    else
      var k := |names| - 1;
      PlaceOne(score, numPods, cap, skip, Fill(score, numPods, cap, skip, names[..k], a), names[k])
  }

  ghost predicate OutcomeFrom(score: Score, sorted: seq<string>, numPods: int, cap: int, kept: Assignment, r: Assignment) {
    r == Fill(score, numPods, cap, Placed(kept), sorted, kept)
  }

  ghost predicate IsNameList(targets: set<string>, s: seq<string>) {
    Sorted(s) && Distinct(s) && forall t :: t in s <==> t in targets
  }

  /** How the sort arranges the owners of a pod: a function of the pod and of the list it is given. */
  type Arrangement = (int, seq<string>) -> seq<string>

  /** The arrangement sorts by descending score; what it does with ties is left open. */
  ghost predicate Sorts(score: Score, arrange: Arrangement) {
    forall p, s :: multiset(arrange(p, s)) == multiset(s) && ScoreDescending(score, p, arrange(p, s))
  }

  /** The first of pod p's owners as they were arranged, as many as fit. */
  function Cut(arrange: Arrangement, p: int, cap: int, owned: seq<string>): seq<string> {
    var s := arrange(p, owned);
    s[..Kept(|s|, cap)]
  }

  ghost predicate CutFrom(arrange: Arrangement, current: Assignment, cap: int, kept: Assignment) {
    forall p :: p in kept ==> p in current && kept[p] == Cut(arrange, p, cap, current[p])
  }

  lemma CutIsKept(score: Score, arrange: Arrangement, p: int, cap: int, owned: seq<string>)
    requires Sorts(score, arrange)
    ensures IsKept(score, p, cap, owned, Cut(arrange, p, cap, owned))
  {
    SortedPrefixIsKept(score, p, cap, owned, arrange(p, owned));
  }

  /** The assignment the placement returns when the sort is known. */
  ghost predicate OutcomeVia(arrange: Arrangement, score: Score, targets: set<string>, o: Options, r: Assignment)
    requires o.numPods >= 1
  {
    if targets == {} then r == map[]
    else
      var cap := EffectiveCapacity(|targets|, o);
      exists kept, sorted ::
        KeptPhase(score, o.current, o.numPods, cap, kept) && CutFrom(arrange, o.current, cap, kept) &&
        IsNameList(targets, sorted) && OutcomeFrom(score, sorted, o.numPods, cap, kept, r)
  }

  lemma OutcomeViaIsOutcome(arrange: Arrangement, score: Score, targets: set<string>, o: Options, r: Assignment)
    requires o.numPods >= 1 && OutcomeVia(arrange, score, targets, o, r)
    ensures Outcome(score, targets, o, r)
  {
  }

  /** Every assignment the placement may return for these inputs. */
  ghost predicate Outcome(score: Score, targets: set<string>, o: Options, r: Assignment)
    requires o.numPods >= 1
  {
    if targets == {} then r == map[]
    else
      var cap := EffectiveCapacity(|targets|, o);
      exists kept, sorted ::
        KeptPhase(score, o.current, o.numPods, cap, kept) && IsNameList(targets, sorted) &&
        OutcomeFrom(score, sorted, o.numPods, cap, kept, r)
  }

  // ---------- the imperative algorithm ----------

  /** One pod's current owners, sorted and kept while there is room. */
  method KeepOwners(score: Score, arrange: Arrangement, p: int, cap: int, owned: seq<string>, a: Assignment, pre: set<string>)
    returns (a': Assignment, pre': set<string>)
    requires Sorts(score, arrange) && p !in a
    ensures owned == [] ==> a' == a && pre' == pre
    ensures owned != [] ==>
              var kept := Cut(arrange, p, cap, owned);
              a' == a[p := kept] && pre' == (pre + set t | t in kept) && IsKept(score, p, cap, owned, kept)
  {
    var sorted := arrange(p, owned);
    assert |multiset(sorted)| == |sorted| && |multiset(owned)| == |owned|;
    CutIsKept(score, arrange, p, cap, owned);
    a', pre' := KeepWhileRoom(p, cap, sorted, a, pre);
  }

  /** The loop over one pod's current owners, in sorted order. */
  method KeepWhileRoom(p: int, cap: int, sorted: seq<string>, a: Assignment, pre: set<string>)
    returns (a': Assignment, pre': set<string>)
    requires p !in a
    ensures sorted == [] ==> a' == a && pre' == pre
    ensures sorted != [] ==> a' == a[p := sorted[..Kept(|sorted|, cap)]]
    ensures pre' == pre + set t | t in sorted[..Kept(|sorted|, cap)]
  {
    a', pre' := a, pre;
    for k := 0 to |sorted|
      invariant k == 0 ==> a' == a && pre' == pre
      invariant k > 0 ==> a' == a[p := sorted[..Kept(k, cap)]]
      invariant pre' == pre + set t | t in sorted[..Kept(k, cap)]
    {
      if p !in a' { a' := a'[p := []]; }
      if |a'[p]| >= cap {
        continue;
      }
      assert sorted[..k+1] == sorted[..k] + [sorted[k]];
      a' := a'[p := a'[p] + [sorted[k]]];
      pre' := pre' + {sorted[k]};
    }
  }

  lemma SortedPrefixIsKept(score: Score, p: int, cap: int, owned: seq<string>, sorted: seq<string>)
    requires multiset(sorted) == multiset(owned) && ScoreDescending(score, p, sorted)
    ensures |sorted| == |owned| && IsKept(score, p, cap, owned, sorted[..Kept(|sorted|, cap)])
  {
    assert |multiset(sorted)| == |sorted| && |multiset(owned)| == |owned|;
    var k := Kept(|sorted|, cap);
    assert sorted == sorted[..k] + sorted[k..];
    assert multiset(owned) - multiset(sorted[..k]) == multiset(sorted[k..]);
  }

  /** Collect the keys of the target map and sort them. */
  method SortedNames(targets: set<string>) returns (sorted: seq<string>)
    ensures IsNameList(targets, sorted)
  {
    var names := Enumerate(targets);
    sorted := SortStrings(names);
    SortStringsSorted(names);
    DistinctMultiset(names, sorted);
    assert forall t :: t in sorted <==> t in multiset(sorted);
    assert forall t :: t in names <==> t in multiset(names);
  }

  ghost function OwnersAmong(pods: seq<int>, current: Assignment, numPods: int): set<int> {
    set p | p in pods && p in current && p < numPods && current[p] != []
  }

  lemma OneMoreOwner(pods: seq<int>, k: nat, current: Assignment, numPods: int)
    requires k < |pods| && pods[k] in current
    ensures OwnersAmong(pods[..k+1], current, numPods) ==
            OwnersAmong(pods[..k], current, numPods) + if pods[k] < numPods && current[pods[k]] != [] then {pods[k]} else {}
  {
    assert pods[..k+1] == pods[..k] + [pods[k]];
  }

  lemma CutsAreKept(score: Score, arrange: Arrangement, current: Assignment, numPods: int, cap: int, kept: Assignment)
    requires Sorts(score, arrange) && kept.Keys == SurvivingOwners(current, numPods) && CutFrom(arrange, current, cap, kept)
    ensures KeptPhase(score, current, numPods, cap, kept)
  {
    forall p | p in kept ensures IsKept(score, p, cap, current[p], kept[p]) {
      CutIsKept(score, arrange, p, cap, current[p]);
    }
  }

  /** The range over CurrentAssignment; Go visits the pods in any order. */
  method KeepCurrent(score: Score, arrange: Arrangement, current: Assignment, numPods: int, cap: int)
    returns (kept: Assignment, pre: set<string>)
    requires Sorts(score, arrange)
    ensures KeptPhase(score, current, numPods, cap, kept) && CutFrom(arrange, current, cap, kept)
    ensures pre == Placed(kept)
  {
    kept, pre := map[], {};
    var pods := Enumerate(current.Keys);
    for k := 0 to |pods|
      invariant kept.Keys == OwnersAmong(pods[..k], current, numPods)
      invariant CutFrom(arrange, current, cap, kept)
      invariant pre == Placed(kept)
    {
      var p := pods[k];
      OneMoreOwner(pods, k, current, numPods);
      if p >= numPods {
        continue;
      }
      ghost var before := kept;
      kept, pre := KeepOwners(score, arrange, p, cap, current[p], kept, pre);
      if current[p] != [] {
        PlacedUpdate(before, p, kept[p]);
      }
    }
    assert pods[..|pods|] == pods;
    CutsAreKept(score, arrange, current, numPods, cap, kept);
  }

  /** The loop that hands every remaining target to its best pod with room. */
  method PlaceRest(score: Score, numPods: int, cap: int, pre: set<string>, sorted: seq<string>, kept: Assignment)
    returns (r: Assignment)
    ensures r == Fill(score, numPods, cap, pre, sorted, kept)
  {
    r := kept;
    for k := 0 to |sorted|
      invariant r == Fill(score, numPods, cap, pre, sorted[..k], kept)
    {
      assert sorted[..k+1][..k] == sorted[..k];
      if sorted[k] in pre {
        continue;
      }
      var pod := BoundedRendezvousHash(score, sorted[k], numPods, cap, r);
      if pod.None? {
        continue;
      }
      r := Put(r, pod.value, sorted[k]);
    }
    assert sorted[..|sorted|] == sorted;
  }

  method BoundedLoadRendezvousHash(score: Score, arrange: Arrangement, targets: set<string>, o: Options) returns (r: Assignment)
    requires o.numPods >= 1 && Sorts(score, arrange)
    ensures OutcomeVia(arrange, score, targets, o, r) && Outcome(score, targets, o, r)
  {
    if |targets| == 0 {
      return map[];
    }
    var cap := EffectiveCapacity(|targets|, o);
    var sorted := SortedNames(targets);
    var kept, pre := KeepCurrent(score, arrange, o.current, o.numPods, cap);
    r := PlaceRest(score, o.numPods, cap, pre, sorted, kept);
    assert OutcomeFrom(score, sorted, o.numPods, cap, kept, r);
    OutcomeViaIsOutcome(arrange, score, targets, o, r);
  }

  lemma PlacedUpdate(a: Assignment, p: int, s: seq<string>)
    requires p !in a
    ensures Placed(a[p := s]) == Placed(a) + set t | t in s
  {
    var b := a[p := s];
    forall t | t in Placed(a) + set t | t in s ensures t in Placed(b) {
      if t in s {
        assert p in b && t in b[p];
      } else {
        var q :| q in a && t in a[q];
        assert q in b && t in b[q];
      }
    }
  }

  method DistributeTargets(score: Score, arrange: Arrangement, targets: set<string>, options: Option<Options>) returns (r: Assignment)
    requires Sorts(score, arrange)
    ensures OutcomeVia(arrange, score, targets, NormalizeOptions(options), r)
  {
    var opts := NormalizeOptions(options);
    r := BoundedLoadRendezvousHash(score, arrange, targets, opts);
  }
}
