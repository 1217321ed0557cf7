/** The ports of a whole plan: assignPrometheusOutputPorts in internal/gnmic/plan.go assigns
    ports pipeline by pipeline, each time from an empty pool, and later pipelines override
    earlier ones. */
module PlanPorts {
  import opened Ordering
  import opened Placement
  import opened PlacementTheorems
  import opened NumberTheory
  import opened Ports
  import opened PortPrimality
  import opened PlanRelations

  const PROMETHEUS := "prometheus"

  function PrometheusOutputs(p: PipelineData): set<string> {
    set o | o in p.outputs && p.outputs[o].kind == PROMETHEUS
  }

  type Pipelines = map<string, PipelineData>

  // ---------- the ports of one pipeline ----------

  /** What assigning ports to a pipeline's Prometheus outputs gives. */
  ghost function PortTable(h: Hash32, p: PipelineData): PortResult {
    AssignResult(h, Listed(PrometheusOutputs(p)), DEFAULT_PORT, POOL_SIZE)
  }

  ghost function PipelinePorts(h: Hash32, p: PipelineData): map<string, int> {
    match PortTable(h, p) case Ports(m) => m case _ => map[]
  }

  ghost predicate FitsPool(p: PipelineData) { |PrometheusOutputs(p)| <= 1009 }

  ghost predicate AllDistinct(ports: map<string, int>) {
    forall x, y :: x in ports && y in ports && x != y ==> ports[x] != ports[y]
  }

  lemma TableInAnyOrder(h: Hash32, p: PipelineData, names: seq<string>)
    requires Distinct(names) && forall o :: o in names <==> o in PrometheusOutputs(p)
    ensures AssignResult(h, names, DEFAULT_PORT, POOL_SIZE) == PortTable(h, p)
  {
    DistinctSameElements(names, Listed(PrometheusOutputs(p)));
    PortsOrderBlind(h, names, Listed(PrometheusOutputs(p)), DEFAULT_PORT, POOL_SIZE);
  }

  lemma TableMeans(h: Hash32, p: PipelineData)
    ensures PortTable(h, p).Ports? <==> FitsPool(p)
    ensures FitsPool(p) ==> PipelinePorts(h, p).Keys == PrometheusOutputs(p)
    ensures var ports := PipelinePorts(h, p);
            AllDistinct(ports) && forall o :: o in ports ==> DEFAULT_PORT <= ports[o] < DEFAULT_PORT + POOL_SIZE
  {
    var names := Listed(PrometheusOutputs(p));
    DistinctLength(names);
    assert Elements(names) == PrometheusOutputs(p);
    PrometheusPool(h, names);
  }

  // ---------- the ports of a plan ----------

  /** The ports each pipeline has of its own, by pipeline name. */
  type Tables = map<string, map<string, int>>

  ghost function TablesOf(h: Hash32, pipelines: Pipelines): Tables {
    TablesBy((p: PipelineData) => PipelinePorts(h, p), pipelines)
  }

  ghost function TablesBy(ports: PipelineData -> map<string, int>, pipelines: Pipelines): (tables: Tables)
    ensures tables.Keys == pipelines.Keys && forall n :: n in tables ==> tables[n] == ports(pipelines[n])
  {
    map n | n in pipelines :: ports(pipelines[n])
  }

  /** Each table in turn over the ones before it. */
  ghost function Overlaid(tables: Tables, order: seq<string>): map<string, int>
    requires forall n :: n in order ==> n in tables
  {
    if order == [] then map[]
    else
      var k := |order| - 1;
      Overlaid(tables, order[..k]) + tables[order[k]]
  }

  /** Each name once. */
  ghost predicate IsOrder(order: seq<string>, names: set<string>) {
    Distinct(order) && forall n :: n in order <==> n in names
  }

  lemma OverlaidOneMore(tables: Tables, order: seq<string>, k: nat)
    requires k < |order| && forall n :: n in order ==> n in tables
    ensures Overlaid(tables, order[..k + 1]) == Overlaid(tables, order[..k]) + tables[order[k]]
  {
    assert order[..k + 1][..k] == order[..k];
  }

  lemma OverlaidPass(h: Hash32, pipelines: Pipelines, order: seq<string>, k: nat)
    requires k < |order| && forall n :: n in order ==> n in pipelines
    ensures var tables := TablesOf(h, pipelines);
            Overlaid(tables, order[..k + 1]) == Overlaid(tables, order[..k]) + PipelinePorts(h, pipelines[order[k]])
  {
    OverlaidOneMore(TablesOf(h, pipelines), order, k);
  }

  /** The last pipeline with an output decides its port. */
  ghost predicate DecidedBy(tables: Tables, order: seq<string>, o: string, k: int)
    requires forall n :: n in order ==> n in tables
  {
    0 <= k < |order| && o in tables[order[k]] && forall j :: k < j < |order| ==> o !in tables[order[j]]
  }

  lemma {:induction false} LastTableDecides(tables: Tables, order: seq<string>, o: string, k: int)
    requires forall n :: n in order ==> n in tables
    requires DecidedBy(tables, order, o, k)
    ensures o in Overlaid(tables, order) && Overlaid(tables, order)[o] == tables[order[k]][o]
  {
    var m := |order| - 1;
    if k < m {
      assert forall j :: 0 <= j < m ==> order[..m][j] == order[j];
      assert DecidedBy(tables, order[..m], o, k);
      LastTableDecides(tables, order[..m], o, k);
    }
  }

  lemma {:induction false} SomeTableDecides(tables: Tables, order: seq<string>, o: string) returns (k: int)
    requires forall n :: n in order ==> n in tables
    requires o in Overlaid(tables, order)
    ensures DecidedBy(tables, order, o, k)
  {
    var m := |order| - 1;
    if o in tables[order[m]] {
      k := m;
    } else {
      k := SomeTableDecides(tables, order[..m], o);
      assert forall j :: 0 <= j < m ==> order[..m][j] == order[j];
    }
  }

  // ---------- when two outputs share a port ----------

  /** Pipeline a gives x the port that b gives y, and not both outputs are in both. */
  ghost predicate Clash(tables: Tables, a: string, b: string, x: string, y: string) {
    && a in tables && b in tables && x != y && x in tables[a] && y in tables[b]
    && tables[a][x] == tables[b][y] && !(x in tables[b] && y in tables[a])
  }

  /** Two outputs with one port in the end come from two pipelines that clash. */
  lemma SharedPortMeansClash(tables: Tables, order: seq<string>, x: string, y: string)
    requires (forall n :: n in tables ==> AllDistinct(tables[n])) && IsOrder(order, tables.Keys)
    requires var ports := Overlaid(tables, order); x in ports && y in ports && x != y && ports[x] == ports[y]
    ensures exists a, b, u, v :: Clash(tables, a, b, u, v)
  {
    var i := SomeTableDecides(tables, order, x);
    var j := SomeTableDecides(tables, order, y);
    LastTableDecides(tables, order, x, i);
    LastTableDecides(tables, order, y, j);
    assert order[i] in tables && order[j] in tables;
    assert i != j by { assert AllDistinct(tables[order[i]]); }
    assert Clash(tables, order[i], order[j], x, y);
  }

  /** An order that ends with a and b. */
  ghost function EndingWith(names: set<string>, a: string, b: string): (order: seq<string>)
    requires a in names && b in names && a != b
    ensures IsOrder(order, names) && |order| >= 2 && order[|order| - 2] == a && order[|order| - 1] == b
  {
    Listed(names - {a, b}) + [a, b]
  }

  /** If x is not in b, both keep their ports when a and b come last. */
  lemma LastTwoShare(tables: Tables, a: string, b: string, x: string, y: string)
    requires a in tables && b in tables && a != b && x in tables[a] && y in tables[b] && x !in tables[b]
    requires tables[a][x] == tables[b][y]
    ensures var ports := Overlaid(tables, EndingWith(tables.Keys, a, b)); x in ports && y in ports && ports[x] == ports[y]
  {
    var order := EndingWith(tables.Keys, a, b);
    LastTableDecides(tables, order, x, |order| - 2);
    LastTableDecides(tables, order, y, |order| - 1);
  }

  lemma ClashSharesPort(tables: Tables, a: string, b: string, x: string, y: string) returns (order: seq<string>)
    requires (forall n :: n in tables ==> AllDistinct(tables[n])) && Clash(tables, a, b, x, y)
    ensures IsOrder(order, tables.Keys) && !AllDistinct(Overlaid(tables, order))
  {
    assert a != b by { assert AllDistinct(tables[a]); }
    if x !in tables[b] {
      order := EndingWith(tables.Keys, a, b);
      LastTwoShare(tables, a, b, x, y);
    } else {
      order := EndingWith(tables.Keys, b, a);
      LastTwoShare(tables, b, a, y, x);
    }
  }

  lemma ApartExactly(tables: Tables)
    requires forall n :: n in tables ==> AllDistinct(tables[n])
    ensures (forall order :: IsOrder(order, tables.Keys) ==> AllDistinct(Overlaid(tables, order))) <==>
            !exists a, b, x, y :: Clash(tables, a, b, x, y)
  {
    if a, b, x, y :| Clash(tables, a, b, x, y) {
      var order := ClashSharesPort(tables, a, b, x, y);
    } else {
      forall order | IsOrder(order, tables.Keys) ensures AllDistinct(Overlaid(tables, order)) {
        var ports := Overlaid(tables, order);
        forall x, y | x in ports && y in ports && x != y ensures ports[x] != ports[y] {
          if ports[x] == ports[y] { SharedPortMeansClash(tables, order, x, y); }
        }
      }
    }
  }

  lemma TablesAreDistinct(h: Hash32, pipelines: Pipelines)
    ensures TablesOf(h, pipelines).Keys == pipelines.Keys
    ensures forall n :: n in pipelines ==> AllDistinct(TablesOf(h, pipelines)[n])
  {
    forall n | n in pipelines ensures AllDistinct(TablesOf(h, pipelines)[n]) { TableMeans(h, pipelines[n]); }
  }

  /** All ports of a plan are distinct in every visit order if and only if no two pipelines
      clash: none gives one output the port that another gives a different output, unless
      both outputs are in both. */
  lemma PortsApartExactly(h: Hash32, pipelines: Pipelines)
    ensures TablesOf(h, pipelines).Keys == pipelines.Keys
    ensures var tables := TablesOf(h, pipelines);
            (forall order :: IsOrder(order, tables.Keys) ==> AllDistinct(Overlaid(tables, order))) <==>
            !exists a, b, x, y :: Clash(tables, a, b, x, y)
  {
    TablesAreDistinct(h, pipelines);
    ApartExactly(TablesOf(h, pipelines));
  }

  // ---------- an example ----------

  const SCRAPED := OutputSpec(PROMETHEUS, true)

  function OutputsOnly(outputs: map<string, OutputSpec>): PipelineData {
    PipelineData(map[], map[], {}, outputs, map[], map[], map[], map[])
  }

  const FIRST := OutputsOnly(map["x" := SCRAPED, "y" := SCRAPED])
  const SECOND := OutputsOnly(map["w" := SCRAPED, "x" := SCRAPED])

  lemma FirstSlots(n: int, used: set<int>)
    requires 1 < n <= 46341
    ensures 0 !in used ==> FindSlot(0, 1, n, used, 0) == Some(0)
    ensures 0 in used && 1 !in used ==> FindSlot(0, 1, n, used, 0) == Some(1)
  {
    ProbeIsSlot(0, 1, n, 0);
    ProbeIsSlot(0, 1, n, 1);
    DivisionIsUnique(0, n, 0, 0);
    DivisionIsUnique(1, n, 0, 1);
  }

  lemma TwoPlaced(pick: Picker, a: string, b: string)
    requires pick(a, {}) == Some(0) && pick(b, {0}) == Some(1)
    ensures Assign(pick, [a, b], DEFAULT_PORT) == Some(PortState({0, 1}, map[a := 9804][b := 9805]))
  {
    assert [a, b][..1] == [a] && [a][..0] == [];
    assert Assign(pick, [a], DEFAULT_PORT) == Next(pick, Assign(pick, [], DEFAULT_PORT), a, DEFAULT_PORT);
    assert Assign(pick, [a, b], DEFAULT_PORT) == Next(pick, Assign(pick, [a], DEFAULT_PORT), b, DEFAULT_PORT);
    assert {} + {0} == {0} && {0} + {1} == {0, 1};
  }

  lemma SortedPair(a: string, b: string)
    requires Less(a, b)
    ensures SortStrings([a, b]) == [a, b]
  {
    SortStringsSorted([a, b]);
    SortedUnique(SortStrings([a, b]), [a, b]);
  }

  lemma PairPlaced(h: Hash32, a: string, b: string)
    requires Start(h, a, 1009) == 0 && Step(h, a, 1009) == 1 && Start(h, b, 1009) == 0 && Step(h, b, 1009) == 1
    ensures Assign(DoubleHashing(h, 1009), [a, b], DEFAULT_PORT) == Some(PortState({0, 1}, map[a := 9804][b := 9805]))
  {
    var pick := DoubleHashing(h, 1009);
    FirstSlots(1009, {});
    FirstSlots(1009, {0});
    assert pick(a, {}) == FindSlot(0, 1, 1009, {}, 0) && pick(b, {0}) == FindSlot(0, 1, 1009, {0}, 0);
    TwoPlaced(pick, a, b);
  }

  lemma TableIs(h: Hash32, p: PipelineData, names: seq<string>, ports: map<string, int>)
    requires Distinct(names) && (forall o :: o in names <==> o in PrometheusOutputs(p))
    requires AssignResult(h, names, DEFAULT_PORT, POOL_SIZE) == Ports(ports)
    ensures PipelinePorts(h, p) == ports
  {
    TableInAnyOrder(h, p, names);
  }

  lemma PairAssigned(a: string, b: string)
    requires !IsStepKey(a) && !IsStepKey(b)
    ensures Assign(DoubleHashing(StridingHash(1), 1009), [a, b], DEFAULT_PORT) == Some(PortState({0, 1}, map[a := 9804][b := 9805]))
  {
    StridesBy(a, 1, 1009);
    StridesBy(b, 1, 1009);
    PairPlaced(StridingHash(1), a, b);
  }

  lemma PairPorts(h: Hash32, p: PipelineData, a: string, b: string, ports: map<string, int>)
    requires Assign(DoubleHashing(h, 1009), [a, b], DEFAULT_PORT) == Some(PortState({0, 1}, ports))
    requires PrometheusOutputs(p) == {a, b} && Less(a, b) && a != b
    ensures PipelinePorts(h, p) == ports
  {
    PairInOrder(h, a, b, ports);
    TableIs(h, p, [a, b], ports);
  }

  lemma PortsOfPair(p: PipelineData, a: string, b: string)
    requires PrometheusOutputs(p) == {a, b} && Less(a, b) && !IsStepKey(a) && !IsStepKey(b) && a != b
    ensures PipelinePorts(StridingHash(1), p) == map[a := 9804, b := 9805]
  {
    PairAssigned(a, b);
    PairPorts(StridingHash(1), p, a, b, map[a := 9804][b := 9805]);
    assert map[a := 9804][b := 9805] == map[a := 9804, b := 9805];
  }

  lemma PairInOrder(h: Hash32, a: string, b: string, ports: map<string, int>)
    requires Less(a, b)
    requires Assign(DoubleHashing(h, 1009), [a, b], DEFAULT_PORT).Some?
    requires Assign(DoubleHashing(h, 1009), [a, b], DEFAULT_PORT).value.result == ports
    ensures AssignResult(h, [a, b], DEFAULT_PORT, POOL_SIZE) == Ports(ports)
  {
    SortedPair(a, b);
  }

  lemma TwoOverlaid(tables: Tables)
    requires tables.Keys == {"a", "b"}
    ensures IsOrder(["a", "b"], tables.Keys) && Overlaid(tables, ["a", "b"]) == tables["a"] + tables["b"]
  {
    assert ["a", "b"][..1] == ["a"] && ["a"][..0] == [];
    assert Overlaid(tables, ["a"]) == Overlaid(tables, []) + tables["a"];
  }

  lemma TwoTables(h: Hash32, pipelines: Pipelines, first: map<string, int>, second: map<string, int>)
    requires pipelines.Keys == {"a", "b"} && PipelinePorts(h, pipelines["a"]) == first && PipelinePorts(h, pipelines["b"]) == second
    ensures var tables := TablesOf(h, pipelines);
            tables.Keys == {"a", "b"} && tables["a"] == first && tables["b"] == second
  {
  }

  lemma ExampleOutputs()
    ensures PrometheusOutputs(FIRST) == {"x", "y"} && PrometheusOutputs(SECOND) == {"w", "x"}
  {
  }

  /** In this order both outputs end up on the port. */
  ghost predicate SharesPort(tables: Tables, order: seq<string>, x: string, y: string, port: int) {
    IsOrder(order, tables.Keys) && var ports := Overlaid(tables, order);
    x != y && x in ports && y in ports && ports[x] == port && ports[y] == port
  }

  /** Two outputs of one pipeline on one port: the second pipeline moves x to the port
      that the first one gave y. */
  lemma SecondPipelineSharesPort()
    ensures {"x", "y"} <= PrometheusOutputs(FIRST)
    ensures SharesPort(TablesOf(StridingHash(1), map["a" := FIRST, "b" := SECOND]), ["a", "b"], "x", "y", 9805)
  {
    ExampleOutputs();
    PortsOfPair(FIRST, "x", "y");
    PortsOfPair(SECOND, "w", "x");
    MovedOnto(StridingHash(1), FIRST, SECOND);
  }

  lemma MovedOnto(h: Hash32, p: PipelineData, q: PipelineData)
    requires PipelinePorts(h, p) == map["x" := 9804, "y" := 9805] && PipelinePorts(h, q) == map["w" := 9804, "x" := 9805]
    ensures SharesPort(TablesOf(h, map["a" := p, "b" := q]), ["a", "b"], "x", "y", 9805)
  {
    TwoTables(h, map["a" := p, "b" := q], map["x" := 9804, "y" := 9805], map["w" := 9804, "x" := 9805]);
    TablesMeet(TablesOf(h, map["a" := p, "b" := q]));
  }

  lemma TablesMeet(tables: Tables)
    requires tables.Keys == {"a", "b"}
    requires tables["a"] == map["x" := 9804, "y" := 9805] && tables["b"] == map["w" := 9804, "x" := 9805]
    ensures SharesPort(tables, ["a", "b"], "x", "y", 9805)
  {
    TwoOverlaid(tables);
    FourNames();
  }

  lemma FourNames()
    ensures "x" != "y" && "y" != "w" && "x" != "w"
  {
    assert "x"[0] != "y"[0] && "y"[0] != "w"[0] && "x"[0] != "w"[0];
  }
}
