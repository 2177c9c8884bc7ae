/** The map and the two cars that model_manager starts with. */
module Shipped {
  import opened Layout
  import opened MapInit
  import opened RoadNetwork
  import opened AStar
  import opened AStarTheorems
  import opened Dispatch
  import opened CarRecords
  import opened RoadStatus
  import opened DispatchRuns
  import TableReset

  const ROAD_COUNT: nat := 18
  const NODE_COUNT: nat := 15

  /** The table of init_map. */
  function ShippedRoads(): (rs: seq<Road>)
    ensures |rs| == ROAD_COUNT
  {
    [ Road(1, 4, 10, Occupied), Road(2, 5, 10, Occupied), Road(3, 6, 10, EdgeIdle),
      Road(4, 5, 10, EdgeIdle), Road(5, 6, 10, EdgeIdle),
      Road(4, 7, 10, EdgeIdle), Road(5, 8, 10, EdgeIdle), Road(6, 9, 10, EdgeIdle),
      Road(7, 8, 10, EdgeIdle), Road(8, 9, 10, EdgeIdle),
      Road(7, 10, 10, EdgeIdle), Road(8, 11, 10, EdgeIdle), Road(9, 12, 10, EdgeIdle),
      Road(10, 11, 10, EdgeIdle), Road(11, 12, 10, EdgeIdle),
      Road(10, 13, 10, EdgeIdle), Road(11, 14, 10, EdgeIdle), Road(12, 15, 10, EdgeIdle) ]
  }

  /** The nodes stand in five columns of three, 190 and 120 apart; the other 17 entries are zero. */
  function ShippedNodes(): (ns: seq<Node>)
    ensures |ns| == MAX_NODES
  {
    seq(MAX_NODES, i requires 0 <= i < MAX_NODES =>
      if i < NODE_COUNT then Node(i + 1, 70 + 190 * (i / 3), 70 + 120 * (i % 3), NodeIdle) else Node(0, 0, 0, NodeIdle))
  }

  function NoEdges(): (es: seq<Edge>)
    ensures |es| == MAX_EDGES - 2 * ROAD_COUNT
  {
    seq(MAX_EDGES - 2 * ROAD_COUNT, _ => Edge(0, 0, 0, 0, EdgeIdle))
  }

  /** The road list with other statuses. */
  ghost predicate SameTable(roads: seq<Road>) {
    && |roads| == ROAD_COUNT
    && forall k :: 0 <= k < ROAD_COUNT ==> roads[k] == ShippedRoads()[k].(status := roads[k].status)
  }

  /** Road k leads from node a to node b, in the first column of roads or the second of each group of five. */
  predicate RoadShape(k: nat, a: nat, b: nat) {
    var c, r := k / 5, k % 5;
    if r < 3 then a == 3 * c + 1 + r && b == a + 3 else a == 3 * c + 1 + r && b == a + 1
  }

  lemma ShippedShape(k: nat)
    requires k < ROAD_COUNT
    ensures var r := ShippedRoads()[k]; RoadShape(k, r.fromNode, r.toNode) && 1 <= r.fromNode < r.toNode <= NODE_COUNT && r.weight == 10
  {
    assert k == 0 || k == 1 || k == 2 || k == 3 || k == 4 || k == 5 || k == 6 || k == 7 || k == 8 || k == 9
        || k == 10 || k == 11 || k == 12 || k == 13 || k == 14 || k == 15 || k == 16 || k == 17;
  }

  /** L1 and L2 start OCCUPIED and all other roads IDLE; every road runs along the grid, 190 across or 120 down. */
  lemma ShippedGrid(k: nat)
    requires k < ROAD_COUNT
    ensures var r := ShippedRoads()[k];
            && r.status == (if (r.fromNode == 1 && r.toNode == 4) || (r.fromNode == 2 && r.toNode == 5) then Occupied else EdgeIdle)
            && 1 <= r.fromNode <= NODE_COUNT && 1 <= r.toNode <= NODE_COUNT
            && var a, b := ShippedNodes()[r.fromNode - 1], ShippedNodes()[r.toNode - 1];
               a.id == r.fromNode && b.id == r.toNode && a.status == b.status == NodeIdle
               && ((b.x == a.x + 190 && b.y == a.y) || (b.x == a.x && b.y == a.y + 120))
  {
    ShippedShape(k);
    assert k == 0 || k == 1 || k == 2 || k == 3 || k == 4 || k == 5 || k == 6 || k == 7 || k == 8 || k == 9
        || k == 10 || k == 11 || k == 12 || k == 13 || k == 14 || k == 15 || k == 16 || k == 17;
  }

  lemma ShapeIsUnique(k: nat, l: nat, a: nat, b: nat)
    requires RoadShape(k, a, b) && RoadShape(l, a, b) && k < ROAD_COUNT && l < ROAD_COUNT
    ensures k == l
  {
  }

  lemma TableRoad(roads: seq<Road>, k: nat)
    requires SameTable(roads) && k < ROAD_COUNT
    ensures var r := roads[k]; RoadShape(k, r.fromNode, r.toNode) && 1 <= r.fromNode < r.toNode <= NODE_COUNT && r.weight == 10
  {
    ShippedShape(k);
  }

  lemma TableIsPlain(roads: seq<Road>)
    requires SameTable(roads)
    ensures PlainRoads(roads, NODE_COUNT)
  {
    hide SameTable, RoadShape;
    assert |roads| == ROAD_COUNT by { TableSize(roads); }
    forall k | 0 <= k < |roads| ensures 1 <= roads[k].fromNode < roads[k].toNode <= NODE_COUNT { TableRoad(roads, k); }
    forall k, l | 0 <= k < l < |roads|
      ensures !(roads[k].fromNode == roads[l].fromNode && roads[k].toNode == roads[l].toNode)
      ensures !(roads[k].fromNode == roads[l].toNode && roads[k].toNode == roads[l].fromNode)
    {
      TableRoad(roads, k);
      TableRoad(roads, l);
      if roads[k].fromNode == roads[l].fromNode && roads[k].toNode == roads[l].toNode {
        ShapeIsUnique(k, l, roads[k].fromNode, roads[k].toNode);
      }
    }
  }

  lemma TableSize(roads: seq<Road>)
    requires SameTable(roads)
    ensures |roads| == ROAD_COUNT
  {
  }

  /** Which of the four neighbours an edge from n leads to. */
  function Side(n: nat, t: nat): nat { if t + 3 == n then 1 else if t + 1 == n then 2 else if t == n + 1 then 3 else 4 }

  lemma EdgeSide(roads: seq<Road>, e: nat)
    requires SameTable(roads) && 1 <= e <= 2 * ROAD_COUNT
    ensures var d := Edges(roads)[e - 1];
            if e <= ROAD_COUNT then RoadShape(e - 1, d.fromNode, d.toNode) else RoadShape(e - 1 - ROAD_COUNT, d.toNode, d.fromNode)
    ensures var d := Edges(roads)[e - 1];
            && (d.toNode == d.fromNode + 1 || d.toNode == d.fromNode + 3 || d.toNode + 1 == d.fromNode || d.toNode + 3 == d.fromNode)
            && (e <= ROAD_COUNT <==> d.fromNode < d.toNode)
  {
    EdgeAt(roads, e);
    TableRoad(roads, if e <= ROAD_COUNT then e - 1 else e - 1 - ROAD_COUNT);
  }

  lemma SidesDiffer(roads: seq<Road>, n: nat, e: nat, f: nat)
    requires SameTable(roads) && 1 <= e <= 2 * ROAD_COUNT && 1 <= f <= 2 * ROAD_COUNT
    requires Edges(roads)[e - 1].fromNode == n && Edges(roads)[f - 1].fromNode == n
    requires Side(n, Edges(roads)[e - 1].toNode) == Side(n, Edges(roads)[f - 1].toNode)
    ensures e == f
  {
    hide SameTable, RoadShape;
    TableSize(roads);
    EdgeSide(roads, e);
    EdgeSide(roads, f);
    var t := Edges(roads)[e - 1].toNode;
    assert Edges(roads)[f - 1].toNode == t;
    if e <= ROAD_COUNT && f <= ROAD_COUNT { ShapeIsUnique(e - 1, f - 1, n, t); }
    if e > ROAD_COUNT && f > ROAD_COUNT { ShapeIsUnique(e - 1 - ROAD_COUNT, f - 1 - ROAD_COUNT, t, n); }
  }

  /** At most four edges leave a node. */
  lemma FewRoadsOut(roads: seq<Road>, n: nat)
    requires SameTable(roads)
    ensures |OutIds(Edges(roads), n, 0)| <= 4
  {
    hide SameTable, Side, RoadShape, PlainRoads, OutIds, Edges;
    TableIsPlain(roads);
    PlainIsValid(roads);
    TableSize(roads);
    EdgesFromOk(roads);
    var es := Edges(roads);
    var ids := OutIds(es, n, 0);
    OutIdsDistinct(es, n, 0);
    var sides := seq(|ids|, i requires 0 <= i < |ids| => if 1 <= ids[i] <= |es| then Side(n, es[ids[i] - 1].toNode) else 0);
    forall i | 0 <= i < |ids| ensures 1 <= ids[i] <= |es| && es[ids[i] - 1].fromNode == n && 1 <= sides[i] <= 4 {
      OutIdsMembers(es, n, 0, ids[i]);
      SideRange(n, es[ids[i] - 1].toNode);
    }
    forall i, j | 0 <= i < j < |sides| ensures sides[i] != sides[j] {
      if sides[i] == sides[j] { SidesDiffer(roads, n, ids[i], ids[j]); }
    }
    Pigeonhole(sides, 4);
  }

  lemma SideRange(n: nat, t: nat)
    ensures 1 <= Side(n, t) <= 4
  {
  }

  ghost function StartMap(roads: seq<Road>, times: nat): MapData
    requires FromOk(Edges(roads))
  {
    BuiltMap(ShippedNodes(), NODE_COUNT, NoEdges(), roads, times)
  }

  /** Whatever the statuses and however often the map was reset, the shipped table gives a network. */
  lemma ShippedNetwork(roads: seq<Road>, times: nat)
    requires SameTable(roads) && times >= 1
    ensures FromOk(Edges(roads)) && Network(StartMap(roads, times), Bipaths(roads))
  {
    hide Network, SameTable, PlainRoads, OutIds;
    TableSize(roads);
    TableIsPlain(roads);
    PlainIsValid(roads);
    EdgesFromOk(roads);
    forall n | 1 <= n <= MAX_NODES ensures |OutIds(Edges(roads), n, 0)| <= MAX_NEIGHBORS { FewRoadsOut(roads, n); }
    BuiltMapIsNetwork(ShippedNodes(), NODE_COUNT, NoEdges(), roads, times);
  }

  lemma PlainIsValid(roads: seq<Road>)
    requires PlainRoads(roads, NODE_COUNT)
    ensures ValidRoads(roads)
  {
  }

  // ---------------------------------------------------------------- the start of every run

  /** init_car */
  function ShippedCars(): seq<Car> {
    [Car(1, CarIdle, 4, 0, 0, 1, 1, []), Car(2, CarIdle, 5, 0, 0, 2, 2, [])]
  }

  ghost function StartWorld(): World
    requires FromOk(Edges(ShippedRoads()))
  {
    World(StartMap(ShippedRoads(), 1), Bipaths(ShippedRoads()), ShippedCars(), [], [])
  }

  lemma StartEdge(m: MapData, e: nat)
    requires FromOk(Edges(ShippedRoads())) && m == StartMap(ShippedRoads(), 1) && ValidEid(m, e)
    ensures e <= 2 * ROAD_COUNT && m.edges[e - 1] == Edges(ShippedRoads())[e - 1]
    ensures var r := ShippedRoads()[if e <= ROAD_COUNT then e - 1 else e - 1 - ROAD_COUNT];
            StatusOf(m, e) == r.status && OnRoad(m, e, r.fromNode, r.toNode)
  {
    EdgeAt(ShippedRoads(), e);
  }

  lemma StartPaired(m: MapData)
    requires FromOk(Edges(ShippedRoads())) && m == StartMap(ShippedRoads(), 1)
    ensures Paired(m, ROAD_COUNT)
  {
    hide StartMap, OnRoad, ShippedRoads;
    forall e: nat | ValidEid(m, e) && ValidEid(m, Partner(ROAD_COUNT, e)) ensures StatusOf(m, e) == StatusOf(m, Partner(ROAD_COUNT, e)) {
      StartEdge(m, e);
      StartEdge(m, Partner(ROAD_COUNT, e));
    }
  }

  lemma OccupiedAtStart(k: nat)
    requires k < ROAD_COUNT && ShippedRoads()[k].status == Occupied
    ensures k < 2 && var c := ShippedCars()[k]; c.status == CarIdle && c.last == ShippedRoads()[k].fromNode && c.current == ShippedRoads()[k].toNode
  {
  }

  lemma StartOccupancy(m: MapData)
    requires FromOk(Edges(ShippedRoads())) && m == StartMap(ShippedRoads(), 1)
    ensures Occupancy(m, ShippedCars())
  {
    hide StartMap, OnRoad, ShippedRoads;
    forall e: nat | ValidEid(m, e) && StatusOf(m, e) == Occupied ensures HasOwner(m, ShippedCars(), e) {
      StartEdge(m, e);
      var k := if e <= ROAD_COUNT then e - 1 else e - 1 - ROAD_COUNT;
      OccupiedAtStart(k);
      assert ParkedOn(m, ShippedCars()[k], e);
    }
  }

  lemma StartFleet(m: MapData)
    requires FromOk(Edges(ShippedRoads())) && m == StartMap(ShippedRoads(), 1)
    ensures FleetOk(m, ShippedCars())
  {
    forall i | 0 <= i < 2 ensures CarOk(m, i + 1, ShippedCars()[i]) {
      assert ValidEid(m, i + 1);
      EdgeAt(ShippedRoads(), i + 1);
      assert From(m, i + 1) == ShippedCars()[i].last && To(m, i + 1) == ShippedCars()[i].current;
    }
  }

  /** Start-up establishes everything that runs keep. */
  lemma StartIsSafe()
    ensures FromOk(Edges(ShippedRoads())) && Safe(StartWorld())
  {
    hide Network, Paired, Occupancy, FleetOk, ShippedRoads, ShippedCars;
    SameTableReflexive();
    ShippedNetwork(ShippedRoads(), 1);
    StartPaired(StartMap(ShippedRoads(), 1));
    StartOccupancy(StartMap(ShippedRoads(), 1));
    StartFleet(StartMap(ShippedRoads(), 1));
  }

  lemma SameTableReflexive()
    ensures SameTable(ShippedRoads())
  {
    hide ShippedRoads;
  }

  // ---------------------------------------------------------------- every run from start-up

  /** The nodes that init_map writes. */
  function TableNodes(): (ns: seq<Node>)
    ensures |ns| == NODE_COUNT
  {
    ShippedNodes()[..NODE_COUNT]
  }

  lemma StartFromTable(m: MapData)
    requires FromOk(Edges(ShippedRoads())) && m == StartMap(ShippedRoads(), 1)
    ensures FromTable(m, TableNodes(), ShippedRoads())
  {
    hide ShippedRoads, ShippedNodes, Edges, AfterRuns;
    var es := Edges(ShippedRoads());
    assert forall i :: 0 <= i < 2 * ROAD_COUNT ==> m.edges[i] == es[i];
    assert forall i :: 0 <= i < NODE_COUNT ==> m.nodes[i] == TableNodes()[i];
  }

  /**
   * In every run from start-up, harmful events included, roads and records stay as they must be and a reset is possible at any time;
   * the whole invariant holds up to the first event that is not harmless.
   */
  lemma ShippedRunsStaySafe(r: seq<World>, evs: seq<Event>, dist: (Node, Node) -> real, fl: real -> real, i: nat)
    requires FromOk(Edges(ShippedRoads())) && DispatchRuns.IsRun(r, evs, dist, fl) && r[0] == StartWorld() && i < |r|
    ensures RoadsOk(r[i]) && Plausible(r[i], ResetEvent(TableNodes(), ShippedRoads()), dist, fl)
    ensures (forall k :: 0 <= k < i ==> Harmless(r[k], evs[k])) ==> Safe(r[i])
  {
    hide RoadsOk, Safe, Harmless, ShippedRoads, ShippedNodes, SameRoads, FromTable, StartMap, DispatchRuns.Step;
    StartIsSafe();
    assert RoadsOk(r[0]) by { SafeRoads(r[0]); }
    RunsKeepRecords(r, evs, dist, fl, i);
    StartFromTable(r[0].m);
    FromTableKept(r[0].m, r[i].m, TableNodes(), ShippedRoads());
    if forall k :: 0 <= k < i ==> Harmless(r[k], evs[k]) { RunsStaySafe(r, evs, dist, fl, i); }
  }

  lemma SafeRoads(w: World)
    requires Safe(w)
    ensures RoadsOk(w)
  {
  }

  /** A reset of the shipped map is harmless exactly while IDLE cars stand on L1 and on L2. */
  lemma ShippedResetIff(cars: seq<Car>)
    ensures TableOwned(ShippedRoads(), cars) <==> Owned(cars, 1, 4) && Owned(cars, 2, 5)
  {
    hide Owned;
    var rs := ShippedRoads();
    assert rs[0] == Road(1, 4, 10, Occupied) && rs[1] == Road(2, 5, 10, Occupied);
    forall k: nat | k < ROAD_COUNT && rs[k].status == Occupied ensures k == 0 || k == 1 { OccupiedAtStart(k); }
  }

  // ---------------------------------------------------------------- the edge that is never admitted

  lemma OutOfLastNode(roads: seq<Road>, e: nat)
    requires SameTable(roads) && 1 <= e <= 2 * ROAD_COUNT && Edges(roads)[e - 1].fromNode == NODE_COUNT
    ensures e == 2 * ROAD_COUNT
  {
    EdgeAt(roads, e);
    TableRoad(roads, if e <= ROAD_COUNT then e - 1 else e - 1 - ROAD_COUNT);
  }

  lemma NoStepFromLastNode(m: MapData, e: nat, v: nat)
    requires FromOk(Edges(ShippedRoads())) && SameRoads(StartMap(ShippedRoads(), 1), m) && MapShape(m)
    ensures !CanStep(m, NODE_COUNT, e, v)
  {
    hide ShippedRoads, StartMap, SameRoads, Network;
    if CanStep(m, NODE_COUNT, e, v) {
      SameTableReflexive();
      ShippedNetwork(ShippedRoads(), 1);
      NetworkKept(StartMap(ShippedRoads(), 1), m, Bipaths(ShippedRoads()));
      StepEdge(m, Bipaths(ShippedRoads()), NODE_COUNT, e, v);
      EdgeKept(StartMap(ShippedRoads(), 1), m, e);
      StartEdge(StartMap(ShippedRoads(), 1), e);
      OutOfLastNode(ShippedRoads(), e);
    }
  }

  /**
   * The guard that shuts out the highest edge id shuts out the only road out of N15: whatever the statuses of edges and nodes have
   * become, and in the planner's copy too, no path from there to any other node is found.
   */
  lemma NoPathFromLastNode(q: Query, p: seq<nat>)
    requires FromOk(Edges(ShippedRoads())) && SameRoads(StartMap(ShippedRoads(), 1), q.m)
    requires ValidQuery(q) && q.start == NODE_COUNT && MayReturn(q, p)
    ensures p == []
  {
    hide ShippedRoads, StartMap, SameRoads;
    if q.target == q.start {
      ResultEmptyAtTarget(q, p);
    } else {
      forall r: seq<nat> ensures !IsRoute(q.m, q.start, r, q.target) {
        if r != [] && 1 <= r[0] <= MAX_EDGES { NoStepFromLastNode(q.m, r[0], Next(q.m.edges[r[0] - 1], q.start)); }
      }
      ResultEmptyIffUnreachable(q, p);
    }
  }

  /** So no search of a plan that starts at N15 finds a path. */
  lemma NoPlanFromLastNode(w: World, t: Task, dist: (Node, Node) -> real, fl: real -> real, p: seq<nat>)
    requires FromOk(Edges(ShippedRoads())) && SameRoads(StartMap(ShippedRoads(), 1), w.m)
    requires PlannerReady(w, t) && Binary32(fl) && Plannable(w, t) && PlanFinds(w, t, dist, fl, p)
    requires PlanStart(w.m, t, CarOf(w, t.carId)) == Some(NODE_COUNT)
    ensures p == []
  {
    hide ShippedRoads, StartMap, SameRoads, Binary32, MayReturn;
    var c := CarOf(w, t.carId);
    var copy := PlanningMap(w.m, c);
    PlanningMapShape(w.m, c);
    SameRoadsTransitive(StartMap(ShippedRoads(), 1), w.m, copy);
    if InRange(copy, NODE_COUNT) && InRange(copy, PlanTarget(t, c)) {
      NoPathFromLastNode(Query(copy, NODE_COUNT, PlanTarget(t, c), dist, fl), p);
    }
  }

  /** The planner would search from N15. */
  ghost predicate StartsAtLast(w: World, t: Task) {
    PlannerReady(w, t) && Plannable(w, t) && PlanStart(w.m, t, CarOf(w, t.carId)) == Some(NODE_COUNT)
  }

  /** In every run from start-up, harmful events included, every plan from N15 is refused. */
  lemma ShippedRunsRefuseN15(r: seq<World>, evs: seq<Event>, dist: (Node, Node) -> real, fl: real -> real,
                             i: nat, t: Task, p: seq<nat>)
    requires FromOk(Edges(ShippedRoads())) && DispatchRuns.IsRun(r, evs, dist, fl) && r[0] == StartWorld()
    requires i < |evs| && evs[i] == PlanEvent(t, p) && StartsAtLast(r[i], t)
    ensures p == [] && r[i + 1].cars == r[i].cars && r[i + 1].m == r[i].m
  {
    hide RoadsOk, ShippedRoads, ShippedCars, StartMap, SameRoads, Binary32, PlanFinds, Planned, Plannable, PlannerReady, PlanStart;
    StartIsSafe();
    assert RoadsOk(r[0]) by { SafeRoads(r[0]); }
    RunsKeepRecords(r, evs, dist, fl, i);
    assert DispatchRuns.Step(r[i], evs[i], dist, fl, r[i + 1]);
    NoPlanFromLastNode(r[i], t, dist, fl, p);
    PlannedCases(r[i], t, p);
  }

  /** The races of handlers with resets start from the shipped map as well as from any other. */
  lemma ShippedRace(h: TableReset.Handler)
    requires FromOk(Edges(ShippedRoads())) && 1 <= h.edge <= (if h.readsFirst then ROAD_COUNT else 2 * ROAD_COUNT)
    ensures TableReset.BaseOk(StartMap(ShippedRoads(), 1), TableReset.Setup(Bipaths(ShippedRoads()), TableNodes(), ShippedRoads()), h)
  {
    hide ShippedRoads, ShippedNodes, Network, FromTable, Paired, FleetOk, Occupancy;
    StartIsSafe();
    StartFromTable(StartMap(ShippedRoads(), 1));
  }
}
