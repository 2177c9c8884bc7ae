/** Two runs from start-up that lead a handler out of its tables. */
module OutOfRange {
  import opened Layout
  import opened MapInit
  import opened RoadNetwork
  import opened AStar
  import opened AStarTheorems
  import opened FindPathMethod
  import opened Dispatch
  import opened CarRecords
  import opened RoadStatus
  import opened DispatchRuns
  import opened Interleaving
  import opened Shipped

  ghost function StartShared(): Shared
    requires FromOk(Edges(ShippedRoads()))
  {
    Shared(StartMap(ShippedRoads(), 1), ShippedCars(), [Free])
  }

  lemma FleetIsCars(m: MapData, cars: seq<Car>)
    requires FleetOk(m, cars)
    ensures CarsOk(m, cars)
  {
    forall i | 0 <= i < |cars| ensures RecordOk(m, i + 1, cars[i]) { assert CarOk(m, i + 1, cars[i]); }
  }

  lemma StartInv()
    ensures FromOk(Edges(ShippedRoads())) && Inv(StartShared(), Bipaths(ShippedRoads()))
  {
    hide Network, ShippedRoads, ShippedCars, Paired, Occupancy, FleetOk, CarsOk;
    StartIsSafe();
    FleetIsCars(StartMap(ShippedRoads(), 1), ShippedCars());
  }

  lemma RunAgain(r: seq<Shared>, dist: (Node, Node) -> real, fl: real -> real, s: Shared)
    requires Interleaving.IsRun(r, dist, fl) && Interleaving.Step(r[|r| - 1], dist, fl, s)
    ensures Interleaving.IsRun(r + [s], dist, fl)
  {
    var t := r + [s];
    forall i | 0 <= i < |t| - 1 ensures Interleaving.Step(t[i], dist, fl, t[i + 1]) {
      if i < |r| - 1 { assert Interleaving.Step(r[i], dist, fl, r[i + 1]); }
    }
  }

  /** One more phase of the only process. */
  lemma Phase(r: seq<Shared>, dist: (Node, Node) -> real, fl: real -> real, l: Local, cars: seq<Car>) returns (r': seq<Shared>)
    requires Interleaving.IsRun(r, dist, fl) && |r[|r| - 1].procs| == 1
    requires var s := r[|r| - 1]; Advances(s, s.procs[0], dist, fl, l, cars)
    ensures Interleaving.IsRun(r', dist, fl) && r' == r + [Shared(r[|r| - 1].m, cars, [l])]
  {
    hide Advances;
    var s := r[|r| - 1];
    var t := Shared(s.m, cars, [l]);
    assert s.procs[0 := l] == [l];
    assert ProcessStep(s, 0, dist, fl, t);
    RunAgain(r, dist, fl, t);
    r' := r + [t];
  }

  /** A lookup reads the map and is done. */
  lemma LookupDone(r: seq<Shared>, dist: (Node, Node) -> real, fl: real -> real, road: Stretch, next: Option<Pending>)
      returns (r': seq<Shared>)
    requires Interleaving.IsRun(r, dist, fl) && r[|r| - 1].procs == [LooksUp(road, next)] && LookupInRange(r[|r| - 1].m, road.last)
    ensures Interleaving.IsRun(r', dist, fl) && r'[0] == r[0] && r'[|r'| - 1] == r[|r| - 1].(procs := [AfterLookup(next)])
  {
    hide LookupInRange;
    var s := r[|r| - 1];
    r' := Phase(r, dist, fl, LookupHasMap(road, s.m, next), s.cars);
    r' := Phase(r', dist, fl, AfterLookup(next), s.cars);
  }

  // ---------------------------------------------------------------- a car that was never given a target

  /** The replan that a permanent obstacle past the junction mark sends for car 1. */
  const REPLAN: Task := Task(Replan, 1, 0, UturnNoCross)

  /** Car 1 has had no plan since start-up, so its target is 0, and find_path reads the record of node 0. */
  lemma ReplanWithoutTarget(dist: (Node, Node) -> real, fl: real -> real) returns (r: seq<Shared>)
    requires Binary32(fl)
    ensures FromOk(Edges(ShippedRoads())) && Inv(StartShared(), Bipaths(ShippedRoads()))
    ensures Interleaving.IsRun(r, dist, fl) && r[0] == StartShared()
    ensures |r| == 3 && r[2].procs == [PlannerHasCar(REPLAN, r[0].m, ShippedCars()[0])]
    ensures !OnCourse(r[2].procs[0]) && !CanAdvance(r[2], 0, dist, fl)
  {
    StartInv();
    hide Network, ShippedRoads, StartMap, MapShape, WellFormed, CanAdvance, SameRoads, HasRoad, Inv, PlannerInRange, RevNode;
    var s := StartShared();
    r := Phase([s], dist, fl, PlannerHasMap(REPLAN, s.m), s.cars);
    r := Phase(r, dist, fl, PlannerHasCar(REPLAN, s.m, s.cars[0]), s.cars);
    RecordsStayWellFormed(r, Bipaths(ShippedRoads()), dist, fl, 2);
    PhaseInRangeIff(r[2], Bipaths(ShippedRoads()), 0, dist, fl);
  }

  /** Nothing but that obstacle is needed to send the message. */
  lemma ObstacleSendsReplan()
    ensures FromOk(Edges(ShippedRoads())) && Ready(StartWorld(), ObstacleEvent(1, false, true))
    ensures ObstacleSeen(StartWorld(), 1, false, true).tasks == [REPLAN]
  {
    StartIsSafe();
    hide Network, ShippedRoads, Paired, Occupancy, FleetOk;
    NetworkSane(StartWorld().m, StartWorld().paths);
  }

  // ---------------------------------------------------------------- a car that has arrived already

  const TRIP: Task := Task(Assign, 1, 5, AfterSegment)

  lemma EdgeN4N5(m: MapData)
    requires FromOk(Edges(ShippedRoads())) && m == StartMap(ShippedRoads(), 1)
    ensures ValidEid(m, 4) && m.edges[3] == Edge(4, 4, 5, 10, EdgeIdle)
  {
    EdgeAt(ShippedRoads(), 4);
  }

  lemma RoadN4N5(m: MapData)
    requires FromOk(Edges(ShippedRoads())) && m == StartMap(ShippedRoads(), 1)
    ensures ValidEid(m, 4) && From(m, 4) == 4 && To(m, 4) == 5 && StatusOf(m, 4) == EdgeIdle
    ensures HasRoad(m, 4, 5) && |m.nodes| == MAX_NODES && m.nodes[4].status == NodeIdle && m.nodeCount == NODE_COUNT && m.edgeCount == 36
  {
    hide ShippedRoads, Edges, AfterRuns;
    EdgeN4N5(m);
    assert ValidEid(m, 4) && From(m, 4) == 4 && To(m, 4) == 5;
  }

  lemma OneStep(m: MapData, copy: MapData)
    requires FromOk(Edges(ShippedRoads())) && m == StartMap(ShippedRoads(), 1) && MapShape(copy) && SameRoads(m, copy)
    requires copy.nodes == m.nodes && (copy.edges[3] == m.edges[3] || copy.edges[3] == m.edges[3].(status := EdgeIdle))
    ensures CanStep(copy, 4, 4, 5)
  {
    hide MapShape, ShippedRoads, StartMap, Network, SameRoads;
    SameTableReflexive();
    ShippedNetwork(ShippedRoads(), 1);
    RoadN4N5(m);
    ListedRoadOfN4(m, copy);
    SizesKept(m, copy);
    EdgeKept(m, copy, 4);
    SizesOf(copy);
  }

  lemma SizesKept(m: MapData, copy: MapData)
    requires SameRoads(m, copy)
    ensures copy.nodeCount == m.nodeCount && copy.edgeCount == m.edgeCount
  {
  }

  lemma SizesOf(m: MapData)
    requires MapShape(m)
    ensures |m.nodes| == MAX_NODES && |m.edges| == MAX_EDGES && |m.adj| == MAX_NODES
  {
  }

  lemma ListedRoadOfN4(m: MapData, copy: MapData)
    requires Network(m, Bipaths(ShippedRoads())) && SameRoads(m, copy) && ValidEid(m, 4) && From(m, 4) == 4
    ensures Listed(copy, 4, 4)
  {
    assert Listed(m, 4, 4);
  }

  /** From N4 the planner finds some path to N5. */
  lemma TripIsFound(m: MapData, c: Car, dist: (Node, Node) -> real, fl: real -> real) returns (p: seq<nat>)
    requires FromOk(Edges(ShippedRoads())) && m == StartMap(ShippedRoads(), 1) && MapShape(m) && NodesOk(m, c) && Binary32(fl)
    ensures MapShape(PlanningMap(m, c)) && Finds(PlanningMap(m, c), 4, 5, dist, fl, p) && 0 < |p| <= MAX_PATHLEN
  {
    hide ShippedRoads, StartMap, Binary32, Network;
    var copy := PlanningMap(m, c);
    PlanningMapShape(m, c);
    OneStep(m, copy);
    RoadN4N5(m);
    var q := Query(copy, 4, 5, dist, fl);
    p := ResultExists(q);
    StepIsRoute(copy, 4, 4, 5);
    assert Reachable(copy, 4, 5);
    FindPathPromise(q, p);
  }

  lemma StepIsRoute(m: MapData, u: nat, e: nat, v: nat)
    requires MapShape(m) && CanStep(m, u, e, v)
    ensures IsRoute(m, u, [e], v)
  {
    assert [e][1..] == [] && IsRoute(m, v, [], v);
  }

  /** Car 1 is sent to N5, reports its position there, and its process has been given the report's record. */
  lemma PositionAtTarget(dist: (Node, Node) -> real, fl: real -> real) returns (r: seq<Shared>, b: Car)
    requires Binary32(fl)
    ensures FromOk(Edges(ShippedRoads())) && Inv(StartShared(), Bipaths(ShippedRoads()))
    ensures Interleaving.IsRun(r, dist, fl) && r[0] == StartShared() && b.current == b.target && b.path == [] && Available(b)
    ensures r[|r| - 1] == Shared(StartMap(ShippedRoads(), 1), [b, ShippedCars()[1]], [Free])
  {
    StartInv();
    hide Network, ShippedRoads, StartMap, WellFormed, PlanningMap, Finds, Binary32;
    var s := StartShared();
    var m, cars := s.m, s.cars;
    SizedStart(m);
    r := Phase([s], dist, fl, PlannerHasMap(TRIP, m), cars);
    r := Phase(r, dist, fl, PlannerHasCar(TRIP, m, cars[0]), cars);
    var p := TripIsFound(m, cars[0], dist, fl);
    var a := AcceptedCar(cars[0], TRIP, 4, 5, p);
    var road := RoadOf(cars[0]);
    assert PlannerComputes(TRIP, m, cars[0], dist, fl, Writes(1, a, Some(road)));
    r := Phase(r, dist, fl, Writes(1, a, Some(road)), cars);
    r := Phase(r, dist, fl, LooksUp(road, None), cars[0 := a]);
    ShapeListOk(m, road.last);
    r := LookupDone(r, dist, fl, road, None);
    RoadN4N5(m);
    ShapeListOk(m, a.last);
    r, b := PlaceAtN5(r, dist, fl, a);
  }

  lemma SizedStart(m: MapData)
    requires FromOk(Edges(ShippedRoads())) && m == StartMap(ShippedRoads(), 1)
    ensures MapShape(m) && NodesOk(m, ShippedCars()[0])
  {
    hide ShippedRoads, StartMap;
    SameTableReflexive();
    ShippedNetwork(ShippedRoads(), 1);
    SizesOf(m);
  }

  lemma PlaceAtN5(r: seq<Shared>, dist: (Node, Node) -> real, fl: real -> real, a: Car) returns (r': seq<Shared>, b: Car)
    requires Interleaving.IsRun(r, dist, fl) && |r[|r| - 1].procs| == 1 && r[|r| - 1].procs == [Free]
    requires var s := r[|r| - 1]; |s.cars| == 2 && s.cars[0] == a && a.target == 5 && HasRoad(s.m, 4, 5) && LookupInRange(s.m, a.last)
    ensures Interleaving.IsRun(r', dist, fl) && r'[0] == r[0] && b.current == b.target && b.path == [] && Available(b)
    ensures var s := r[|r| - 1]; r'[|r'| - 1] == Shared(s.m, [b, s.cars[1]], [Free])
  {
    hide HasRoad;
    var s := r[|r| - 1];
    assert Known(s.cars, 1) && s.cars[1 - 1] == a;
    assert Starts(s, PositionLooksUp(1, s.cars[1 - 1], 4, 5));
    b := PlacedCar(a, 4, 5);
    r' := Phase(r, dist, fl, PositionLooksUp(1, a, 4, 5), s.cars);
    r' := LookupDone(r', dist, fl, RoadOf(a), Some(Pending(1, b)));
    r' := Phase(r', dist, fl, Free, s.cars[0 := b]);
    assert s.cars[0 := b] == [b, s.cars[1]];
  }

  /** An ARRIVE of that car makes the router read path_stack[-1]. */
  lemma ArriveWithoutPath(dist: (Node, Node) -> real, fl: real -> real) returns (r: seq<Shared>)
    requires Binary32(fl)
    ensures FromOk(Edges(ShippedRoads())) && Inv(StartShared(), Bipaths(ShippedRoads()))
    ensures Interleaving.IsRun(r, dist, fl) && r[0] == StartShared()
    ensures |r[|r| - 1].procs| == 1 && r[|r| - 1].procs[0].RouterHasCar? && r[|r| - 1].procs[0].car.path == []
    ensures !OnCourse(r[|r| - 1].procs[0]) && !CanAdvance(r[|r| - 1], 0, dist, fl)
  {
    hide Network, ShippedRoads, StartMap, WellFormed, Binary32, CanAdvance;
    var b;
    r, b := PositionAtTarget(dist, fl);
    var s := r[|r| - 1];
    r := Phase(r, dist, fl, RouterHasMap(1, s.m), s.cars);
    r := Phase(r, dist, fl, RouterHasCar(1, s.m, b), s.cars);
    RecordsStayWellFormed(r, Bipaths(ShippedRoads()), dist, fl, |r| - 1);
    PhaseInRangeIff(r[|r| - 1], Bipaths(ShippedRoads()), 0, dist, fl);
  }
}
