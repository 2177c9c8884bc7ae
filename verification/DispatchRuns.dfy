/** Runs of the dispatch protocol, one handler at a time: what holds after every sequence of events. */
module DispatchRuns {
  import opened Layout
  import opened MapInit
  import opened RoadNetwork
  import opened Geometry
  import opened AStar
  import opened Dispatch
  import opened CarRecords
  import opened RoadStatus

  datatype Event =
    | ObstacleEvent(carId: nat, temporary: bool, passTh: bool)
    | RepairedEvent(carId: nat)
    | PositionEvent(carId: nat, behind: nat, ahead: nat)
    | ArriveEvent(carId: nat)
    | PlanEvent(t: Task, path: seq<nat>)
    | BanEvent(eids: seq<nat>)
    | AccessEvent(eids: seq<nat>)
    | RepairEvent(eids: seq<nat>)
    | NodeEvent(idx: nat, st: NodeStatus)
    | ResetEvent(nodes: seq<Node>, roads: seq<Road>)

  /** What the handlers index with is in range. */
  ghost predicate Ready(w: World, ev: Event) {
    && Sane(w.m, w.paths)
    && match ev
       case ObstacleEvent(carId, temporary, passTh) => ValidCarId(w, carId) && 1 <= CarOf(w, carId).last <= MAX_NODES
       case RepairedEvent(carId) => ValidCarId(w, carId) && 1 <= CarOf(w, carId).last <= MAX_NODES
       case PositionEvent(carId, behind, ahead) => ValidCarId(w, carId) && 1 <= CarOf(w, carId).last <= MAX_NODES
       case ArriveEvent(carId) => Routable(w, carId)
       case PlanEvent(t, path) => PlannerReady(w, t)
       case NodeEvent(idx, st) => idx < |w.m.nodes|
       case ResetEvent(nodes, roads) => FromOk(Edges(roads)) && 2 * |roads| <= |w.m.edges| && |nodes| <= |w.m.nodes|
       case _ => true
  }

  function WithReplans(w: World): World { w.(tasks := w.tasks + Replans(w.cars)) }

  ghost function Handled(w: World, ev: Event): World
    requires Ready(w, ev)
  {
    match ev
    case ObstacleEvent(carId, temporary, passTh) => ObstacleSeen(w, carId, temporary, passTh)
    case RepairedEvent(carId) => ObstacleGone(w, carId)
    case PositionEvent(carId, behind, ahead) => Positioned(w, carId, behind, ahead)
    case ArriveEvent(carId) => Arrived(w, carId)
    case PlanEvent(t, path) => Planned(w, t, path)
    case BanEvent(eids) => WithReplans(SetAllByApi(w, eids, Blocked))
    case AccessEvent(eids) => WithReplans(SetAllByApi(w, eids, EdgeIdle))
    case RepairEvent(eids) => WithReplans(SetAllForRepair(w, eids))
    case NodeEvent(idx, st) => w.(m := w.m.(nodes := w.m.nodes[idx := w.m.nodes[idx].(status := st)]))
    case ResetEvent(nodes, roads) => w.(m := ResetMap(w.m, nodes, roads), paths := Bipaths(roads))
  }

  /** An ARRIVE finds the car available and at its target only while it has a path. */
  predicate OnTrip(w: World, carId: nat) {
    ValidCarId(w, carId) && Available(CarOf(w, carId)) && CarOf(w, carId).current == CarOf(w, carId).target ==>
      CarOf(w, carId).path != []
  }

  /** The planner reaches its search for an assignment or a replan only with a node as target. A cancel needs no such care. */
  ghost predicate HasTarget(w: World, t: Task) {
    MapShape(w.m) && ValidCarId(w, t.carId) && NodesOk(w.m, CarOf(w, t.carId)) && Plannable(w, t) && t.action != Cancel ==>
      1 <= PlanTarget(t, CarOf(w, t.carId))
  }

  /** The environment: known cars, real roads, trips and targets as above, the planner's own search, init_map's own tables. */
  ghost predicate Plausible(w: World, ev: Event, dist: (Node, Node) -> real, fl: real -> real) {
    match ev
    case ObstacleEvent(carId, temporary, passTh) => ValidCarId(w, carId)
    case RepairedEvent(carId) => ValidCarId(w, carId)
    case PositionEvent(carId, behind, ahead) => ValidCarId(w, carId) && HasRoad(w.m, behind, ahead)
    case ArriveEvent(carId) => OnTrip(w, carId)
    case PlanEvent(t, path) => HasTarget(w, t) && Binary32(fl) && (PlannerReady(w, t) ==> PlanFinds(w, t, dist, fl, path))
    case NodeEvent(idx, st) => idx < |w.m.nodes|
    case ResetEvent(nodes, roads) => FromTable(w.m, nodes, roads)
    case _ => true
  }

  /** Some IDLE car stands on the road between a and b. */
  predicate Owned(cars: seq<Car>, a: nat, b: nat) {
    exists i :: 0 <= i < |cars| && ParkedBetween(cars[i], a, b)
  }

  predicate ParkedBetween(c: Car, a: nat, b: nat) {
    c.status == CarIdle && ((c.last == a && c.current == b) || (c.last == b && c.current == a))
  }

  /** Every road that the table marks OCCUPIED is the road of an IDLE car. */
  predicate TableOwned(roads: seq<Road>, cars: seq<Car>) {
    forall k :: 0 <= k < |roads| && roads[k].status == Occupied ==> Owned(cars, roads[k].fromNode, roads[k].toNode)
  }

  /** The API lists and the resets that keep the invariant of runs; every other event does so anyway. */
  ghost predicate Harmless(w: World, ev: Event) {
    match ev
    case BanEvent(eids) => ApiSafe(w.m, |w.paths|, eids, Blocked)
    case AccessEvent(eids) => ApiSafe(w.m, |w.paths|, eids, EdgeIdle)
    case RepairEvent(eids) => RepairSafe(w.m, |w.paths|, eids)
    case ResetEvent(nodes, roads) => TableOwned(roads, w.cars)
    case _ => true
  }

  // ---------------------------------------------------------------- the invariant

  /** The record of car carId is well formed, and an IDLE car has no path. */
  ghost predicate CarOk(m: MapData, carId: nat, c: Car) { c.id == carId && WellFormed(m, c) && (c.status == CarIdle ==> c.path == []) }

  ghost predicate FleetOk(m: MapData, cars: seq<Car>) { forall i :: 0 <= i < |cars| ==> CarOk(m, i + 1, cars[i]) }

  predicate ParkedOn(m: MapData, c: Car, e: nat)
    requires ValidEid(m, e)
  {
    c.status == CarIdle && OnRoad(m, e, c.last, c.current)
  }

  /** Some IDLE car is parked on the road of edge e. */
  ghost predicate HasOwner(m: MapData, cars: seq<Car>, e: nat)
    requires ValidEid(m, e)
  {
    exists i :: 0 <= i < |cars| && ParkedOn(m, cars[i], e)
  }

  /** Every OCCUPIED edge belongs to the road last-current of an IDLE car. */
  ghost predicate Occupancy(m: MapData, cars: seq<Car>) {
    forall e: nat :: ValidEid(m, e) && StatusOf(m, e) == Occupied ==> HasOwner(m, cars, e)
  }

  ghost predicate RoadsOk(w: World) { Network(w.m, w.paths) && FleetOk(w.m, w.cars) }

  ghost predicate Safe(w: World) { RoadsOk(w) && Paired(w.m, |w.paths|) && Occupancy(w.m, w.cars) }

  // ---------------------------------------------------------------- occupancy

  /** The car gives its road back, whatever its record becomes. */
  lemma FreedKeepsOccupancy(m: MapData, m': MapData, cars: seq<Car>, i: nat, c': Car)
    requires i < |cars| && Occupancy(m, cars) && Freed(m, m', cars[i].last, cars[i].current)
    ensures Occupancy(m', cars[i := c'])
  {
    forall e: nat | ValidEid(m', e) && StatusOf(m', e) == Occupied ensures HasOwner(m', cars[i := c'], e) {
      EdgeKept(m, m', e);
      assert HasOwner(m, cars, e);
      var j :| 0 <= j < |cars| && ParkedOn(m, cars[j], e);
      assert ParkedOn(m', cars[i := c'][j], e);
    }
  }

  /** A car that is not IDLE owns nothing. */
  lemma MovingOwnsNothing(m: MapData, cars: seq<Car>, i: nat, c': Car)
    requires i < |cars| && Occupancy(m, cars) && cars[i].status != CarIdle
    ensures Occupancy(m, cars[i := c'])
  {
    forall e: nat | ValidEid(m, e) && StatusOf(m, e) == Occupied ensures HasOwner(m, cars[i := c'], e) {
      assert HasOwner(m, cars, e);
      var j :| 0 <= j < |cars| && ParkedOn(m, cars[j], e);
      assert ParkedOn(m, cars[i := c'][j], e);
    }
  }

  /** A car that parks on the road it drove last owns it. */
  lemma ParkingOwns(m: MapData, m': MapData, cars: seq<Car>, i: nat, c': Car)
    requires i < |cars| && Occupancy(m, cars) && cars[i].status != CarIdle
    requires c'.status == CarIdle && RoadSet(m, m', c'.last, c'.current, Occupied)
    ensures Occupancy(m', cars[i := c'])
  {
    MovingOwnsNothing(m, cars, i, c');
    forall e: nat | ValidEid(m', e) && StatusOf(m', e) == Occupied ensures HasOwner(m', cars[i := c'], e) {
      EdgeKept(m, m', e);
      if OnRoad(m, e, c'.last, c'.current) {
        assert ParkedOn(m', cars[i := c'][i], e);
      } else {
        assert HasOwner(m, cars[i := c'], e);
        var j :| 0 <= j < |cars| && ParkedOn(m, cars[i := c'][j], e);
        assert ParkedOn(m', cars[i := c'][j], e);
      }
    }
  }

  /** No road becomes OCCUPIED. */
  ghost predicate Fewer(m: MapData, m': MapData) {
    SameRoads(m, m') && forall e: nat :: ValidEid(m, e) && StatusOf(m', e) == Occupied ==> StatusOf(m, e) == Occupied
  }

  lemma FewerKeepsOccupancy(m: MapData, m': MapData, cars: seq<Car>)
    requires Occupancy(m, cars) && Fewer(m, m')
    ensures Occupancy(m', cars)
  {
    forall e: nat | ValidEid(m', e) && StatusOf(m', e) == Occupied ensures HasOwner(m', cars, e) {
      EdgeKept(m, m', e);
      assert HasOwner(m, cars, e);
      var j :| 0 <= j < |cars| && ParkedOn(m, cars[j], e);
      assert ParkedOn(m', cars[j], e);
    }
  }

  // ---------------------------------------------------------------- records

  lemma FleetKept(m: MapData, m': MapData, cars: seq<Car>)
    requires FleetOk(m, cars) && SameRoads(m, m')
    ensures FleetOk(m', cars)
  {
    forall i | 0 <= i < |cars| ensures CarOk(m', i + 1, cars[i]) {
      assert CarOk(m, i + 1, cars[i]);
      WellFormedKept(m, m', cars[i]);
    }
  }

  lemma FleetWith(m: MapData, m': MapData, cars: seq<Car>, i: nat, c': Car)
    requires FleetOk(m, cars) && SameRoads(m, m') && i < |cars| && CarOk(m, i + 1, c')
    ensures FleetOk(m', cars[i := c'])
  {
    var cars' := cars[i := c'];
    forall j | 0 <= j < |cars'| ensures CarOk(m, j + 1, cars'[j]) {
      assert j != i ==> CarOk(m, j + 1, cars[j]);
    }
    FleetKept(m, m', cars');
  }

  /** What the invariant gives a handler about one car. */
  lemma CarFacts(w: World, carId: nat)
    requires RoadsOk(w) && ValidCarId(w, carId)
    ensures Sane(w.m, w.paths)
    ensures var c := CarOf(w, carId);
            && CarOk(w.m, carId, c) && HasRoad(w.m, c.last, c.current) && NodesOk(w.m, c) && c.last < MAX_NODES && 1 <= c.lastStart
            && (c.path != [] ==> PathOk(w.m, c.path))
  {
    NetworkSane(w.m, w.paths);
    assert CarOk(w.m, carId - 1 + 1, w.cars[carId - 1]);
    RecordIsRoutable(w.m, w.paths, CarOf(w, carId));
    HasRoadNodes(w.m, w.paths, CarOf(w, carId).last, CarOf(w, carId).current);
  }

  lemma PathInRange(m: MapData, p: seq<nat>)
    requires |m.edges| == MAX_EDGES && (p != [] ==> PathOk(m, p))
    ensures PathOk(m, p) && (p != [] ==> 1 <= p[|p| - 1] <= MAX_EDGES)
  {
  }

  /** The router's indices are in range exactly while a car at its target still has a path. */
  lemma ArriveInRangeIff(w: World, carId: nat)
    requires RoadsOk(w)
    ensures Routable(w, carId) <==> OnTrip(w, carId)
  {
    hide Network, FleetOk;
    NetworkSane(w.m, w.paths);
    if ValidCarId(w, carId) {
      CarFacts(w, carId);
      PathInRange(w.m, CarOf(w, carId).path);
    }
  }

  /** The planner's indices are in range exactly when an assignment or replan that reaches the search has a node as target. */
  lemma PlanInRangeIff(w: World, t: Task)
    requires RoadsOk(w)
    ensures PlannerReady(w, t) <==> HasTarget(w, t)
  {
    hide Network, FleetOk, MapShape, RevNode;
    NetworkSane(w.m, w.paths);
    if ValidCarId(w, t.carId) {
      CarFacts(w, t.carId);
      StartIsNode(w, t);
    }
  }

  lemma StartIsNode(w: World, t: Task)
    requires RoadsOk(w) && ValidCarId(w, t.carId) && MapShape(w.m) && NodesOk(w.m, CarOf(w, t.carId))
    ensures PlanStart(w.m, t, CarOf(w, t.carId)) != Some(0)
  {
    var c := CarOf(w, t.carId);
    var r := PlanStart(w.m, t, c);
    if t.immediate == Uturn && r.Some? {
      PlanStartRoad(w.m, w.paths, t, c);
      HasRoadNodes(w.m, w.paths, c.last, r.value);
    }
  }

  /** A plausible event finds every table index in range. */
  lemma PlausibleIsReady(w: World, ev: Event, dist: (Node, Node) -> real, fl: real -> real)
    requires RoadsOk(w) && Plausible(w, ev, dist, fl)
    ensures Ready(w, ev)
  {
    hide Network, FleetOk, MapShape, HasTarget, OnTrip, Routable, PlannerReady, PlanFinds;
    NetworkSane(w.m, w.paths);
    match ev
    case ObstacleEvent(carId, temporary, passTh) => CarFacts(w, carId);
    case RepairedEvent(carId) => CarFacts(w, carId);
    case PositionEvent(carId, behind, ahead) => CarFacts(w, carId);
    case ArriveEvent(carId) => ArriveInRangeIff(w, carId);
    case PlanEvent(t, path) => PlanInRangeIff(w, t);
    case ResetEvent(nodes, roads) => TableIsSound(w.m, w.paths, nodes, roads);
    case _ =>
  }

  // ---------------------------------------------------------------- preservation

  /** Only map, pair table and car table matter. */
  lemma SafeAgain(w: World, w': World)
    requires Safe(w) && w'.m == w.m && w'.paths == w.paths && w'.cars == w.cars
    ensures Safe(w')
  {
  }

  lemma Assemble(w: World, w': World, i: nat, c': Car)
    requires RoadsOk(w) && i < |w.cars| && w'.paths == w.paths && w'.cars == w.cars[i := c'] && SameRoads(w.m, w'.m)
    requires CarOk(w.m, i + 1, c') && Paired(w'.m, |w'.paths|) && Occupancy(w'.m, w'.cars)
    ensures Safe(w')
  {
    NetworkKept(w.m, w'.m, w.paths);
    FleetWith(w.m, w'.m, w.cars, i, c');
  }

  /** A handler that frees the road of the car whose record it writes. */
  lemma FreeingKeepsSafe(w: World, w': World, carId: nat, c': Car)
    requires Safe(w) && ValidCarId(w, carId) && w'.paths == w.paths && w'.cars == w.cars[carId - 1 := c']
    requires Freed(w.m, w'.m, CarOf(w, carId).last, CarOf(w, carId).current) && Paired(w'.m, |w'.paths|) && CarOk(w.m, carId, c')
    ensures Safe(w')
  {
    hide Network, FleetOk, Occupancy, Paired;
    FreedKeepsOccupancy(w.m, w'.m, w.cars, carId - 1, c');
    Assemble(w, w', carId - 1, c');
  }

  /** OBSTACLE and REPAIRED set the car's road to something else than OCCUPIED. */
  lemma AlteringKeepsSafe(w: World, w': World, carId: nat, st: EdgeStatus, c': Car)
    requires Safe(w) && Sane(w.m, w.paths) && ValidCarId(w, carId) && 1 <= CarOf(w, carId).last <= MAX_NODES
    requires st != Occupied && CarOk(w.m, carId, c') && w'.paths == w.paths && w'.cars == w.cars[carId - 1 := c']
    requires w'.m == AlterEdges(w, carId, st)
    ensures Safe(w')
  {
    CarFacts(w, carId);
    var c := CarOf(w, carId);
    AlterSetsRoad(w, carId, st);
    RoadSetKeepsPairs(w.m, w'.m, w.paths, c.last, c.current, st);
    RoadSetFrees(w.m, w'.m, c.last, c.current, st);
    FreeingKeepsSafe(w, w', carId, c');
  }

  lemma ObstacleKeepsSafe(w: World, carId: nat, temporary: bool, passTh: bool)
    requires Safe(w) && ValidCarId(w, carId) && Ready(w, ObstacleEvent(carId, temporary, passTh))
    ensures Safe(ObstacleSeen(w, carId, temporary, passTh))
  {
    hide Network, Occupancy, Paired, AlterEdges;
    var c := CarOf(w, carId);
    CarFacts(w, carId);
    StatusKeepsWellFormed(w.m, c, Wait);
    var c' := if temporary then c.(status := Wait) else c;
    AlteringKeepsSafe(w, ObstacleSeen(w, carId, temporary, passTh), carId, if temporary then FaultTemp else FaultRepair, c');
  }

  lemma RepairedKeepsSafe(w: World, carId: nat)
    requires Safe(w) && ValidCarId(w, carId) && Ready(w, RepairedEvent(carId))
    ensures Safe(ObstacleGone(w, carId))
  {
    hide Network, Occupancy, Paired, AlterEdges;
    var c := CarOf(w, carId);
    CarFacts(w, carId);
    StatusKeepsWellFormed(w.m, c, Moving);
    AlteringKeepsSafe(w, ObstacleGone(w, carId), carId, EdgeIdle, c.(status := Moving));
  }

  /** POSITION and an accepted plan release the car's road. */
  lemma ReleasingKeepsSafe(w: World, w': World, carId: nat, c': Car)
    requires Safe(w) && Sane(w.m, w.paths) && ValidCarId(w, carId) && CarOf(w, carId).last <= MAX_NODES
    requires CarOk(w.m, carId, c') && w'.paths == w.paths && w'.cars == w.cars[carId - 1 := c']
    requires w'.m == Release(w.m, w.paths, CarOf(w, carId).last, CarOf(w, carId).current)
    ensures Safe(w')
  {
    CarFacts(w, carId);
    var c := CarOf(w, carId);
    ReleaseFrees(w.m, w.paths, c.last, c.current);
    if w'.m != w.m { RoadSetKeepsPairs(w.m, w'.m, w.paths, c.last, c.current, EdgeIdle); }
    FreeingKeepsSafe(w, w', carId, c');
  }

  lemma PositionKeepsSafe(w: World, carId: nat, behind: nat, ahead: nat)
    requires Safe(w) && ValidCarId(w, carId) && HasRoad(w.m, behind, ahead) && Ready(w, PositionEvent(carId, behind, ahead))
    ensures Safe(Positioned(w, carId, behind, ahead))
  {
    CarFacts(w, carId);
    var c' := PlacedCar(CarOf(w, carId), behind, ahead);
    assert WellFormed(w.m, c');
    ReleasingKeepsSafe(w, Positioned(w, carId, behind, ahead), carId, c');
  }

  // ---------------------------------------------------------------- ARRIVE

  /** At its target a car stands on the last edge of its path. */
  lemma TargetEdge(m: MapData, c: Car)
    requires WellFormed(m, c) && c.path != [] && c.current == c.target
    ensures var e := c.path[|c.path| - 1]; ValidEid(m, e) && From(m, e) == c.last && To(m, e) == c.current
  {
    var j: nat :| HeadsFor(m, c, j);
    TargetIsLast(m, c, j);
    assert NodesOf(m, c.path)[j - 1] == From(m, c.path[j - 1]);
  }

  lemma ArrivedAtTarget(w: World, carId: nat)
    requires Routable(w, carId) && ValidCarId(w, carId) && Available(CarOf(w, carId)) && CarOf(w, carId).current == CarOf(w, carId).target
    ensures var c, w' := CarOf(w, carId), Arrived(w, carId);
            && w'.paths == w.paths && w'.cars == w.cars[carId - 1 := ArrivedCar(c)]
            && w'.m == PairStatus(w.m, w.paths, c.path[|c.path| - 1], Occupied)
            && w'.published == w.published + [Orient(carId, HasArrived)]
  {
  }

  /** An arrival occupies exactly the road that the car has driven last, both ways, and parks the car on it. */
  lemma ArrivalOccupies(w: World, carId: nat)
    requires RoadsOk(w) && Routable(w, carId) && ValidCarId(w, carId) && Available(CarOf(w, carId))
    requires CarOf(w, carId).current == CarOf(w, carId).target
    ensures var c, w' := CarOf(w, carId), Arrived(w, carId);
            && RoadSet(w.m, w'.m, c.last, c.current, Occupied) && w'.cars == w.cars[carId - 1 := ArrivedCar(c)]
            && w'.published == w.published + [Orient(carId, HasArrived)]
  {
    var c := CarOf(w, carId);
    CarFacts(w, carId);
    TargetEdge(w.m, c);
    PairStatusSetsRoad(w.m, w.paths, c.path[|c.path| - 1], Occupied);
    ArrivedAtTarget(w, carId);
  }

  lemma ArrivedUnderway(w: World, carId: nat)
    requires Routable(w, carId) && ValidCarId(w, carId) && Available(CarOf(w, carId)) && CarOf(w, carId).current != CarOf(w, carId).target
    ensures var c, w' := CarOf(w, carId), Arrived(w, carId);
            && w'.paths == w.paths && w'.m == w.m
            && match RouterCar(w.m, c)
               case None => w'.cars == w.cars
               case Some((c', ori)) => w'.cars == w.cars[carId - 1 := c'] && w'.published == w.published + [Orient(carId, ori)]
  {
  }

  lemma TargetKeepsSafe(w: World, carId: nat)
    requires Safe(w) && Routable(w, carId) && ValidCarId(w, carId) && Available(CarOf(w, carId))
    requires CarOf(w, carId).current == CarOf(w, carId).target
    ensures Safe(Arrived(w, carId))
  {
    hide Network, OnPath, HasRoad, Occupancy, Paired, RoadSet, Arrived, MapShape;
    var c, w' := CarOf(w, carId), Arrived(w, carId);
    CarFacts(w, carId);
    ArrivalOccupies(w, carId);
    ArrivedAtTarget(w, carId);
    RoadSetKeepsPairs(w.m, w'.m, w.paths, c.last, c.current, Occupied);
    ParkingOwns(w.m, w'.m, w.cars, carId - 1, ArrivedCar(c));
    Assemble(w, w', carId - 1, ArrivedCar(c));
  }

  /** An ARRIVE away from the target: one node further on a path, and nothing at all without one. */
  lemma UnderwayKeepsSafe(w: World, carId: nat)
    requires Safe(w) && Routable(w, carId) && ValidCarId(w, carId) && Available(CarOf(w, carId))
    requires CarOf(w, carId).current != CarOf(w, carId).target
    ensures Safe(Arrived(w, carId))
  {
    hide Network, WellFormed, Occupancy, Paired, Arrived, MapShape;
    var c, w' := CarOf(w, carId), Arrived(w, carId);
    CarFacts(w, carId);
    ArrivedUnderway(w, carId);
    if c.path == [] {
      assert RouterCar(w.m, c) == None;
      SafeAgain(w, w');
    } else {
      RouterKeepsWellFormed(w.m, c);
      var c' := RouterCar(w.m, c).value.0;
      assert c'.status == c.status && c'.id == c.id;
      MovingOwnsNothing(w.m, w.cars, carId - 1, c');
      SameRoadsReflexive(w.m);
      Assemble(w, w', carId - 1, c');
    }
  }

  lemma ArriveKeepsSafe(w: World, carId: nat)
    requires Safe(w) && Routable(w, carId)
    ensures Safe(Arrived(w, carId))
  {
    if ValidCarId(w, carId) && Available(CarOf(w, carId)) {
      if CarOf(w, carId).current == CarOf(w, carId).target { TargetKeepsSafe(w, carId); } else { UnderwayKeepsSafe(w, carId); }
    }
  }

  // ---------------------------------------------------------------- plans

  /** A plan that is not accepted leaves map and cars alone; an accepted one releases the old road. */
  lemma PlannedCases(w: World, t: Task, p: seq<nat>)
    requires PlannerReady(w, t)
    ensures var w' := Planned(w, t, p);
            && w'.paths == w.paths
            && if !Plannable(w, t) || p == [] || |p| > MAX_PATHLEN then w'.m == w.m && w'.cars == w.cars
               else
                 var c := CarOf(w, t.carId);
                 && w'.m == Release(w.m, w.paths, c.last, c.current)
                 && w'.cars == w.cars[t.carId - 1 := AcceptedCar(c, t, PlanStart(w.m, t, c).value, PlanTarget(t, c), p)]
  {
  }

  /** The record that an accepted plan leaves: well formed, and heading for the first node of its path. */
  lemma AcceptedRecord(w: World, t: Task, dist: (Node, Node) -> real, fl: real -> real, p: seq<nat>)
    requires RoadsOk(w) && PlannerReady(w, t) && Plannable(w, t) && Binary32(fl) && PlanFinds(w, t, dist, fl, p) && p != []
    ensures var c := CarOf(w, t.carId);
            var c' := AcceptedCar(c, t, PlanStart(w.m, t, c).value, PlanTarget(t, c), p);
            CarOk(w.m, t.carId, c') && FreshPlan(w.m, c') && |p| < MAX_PATHLEN
  {
    var c := CarOf(w, t.carId);
    CarFacts(w, t.carId);
    PlanningMapShape(w.m, c);
    SameRoadsReflexive(w.m);
    AcceptedIsWellFormed(w.m, w.m, w.paths, c, t, PlanStart(w.m, t, c).value, dist, fl, p);
    RecordPathIsShort(w.m, w.paths, AcceptedCar(c, t, PlanStart(w.m, t, c).value, PlanTarget(t, c), p));
  }

  lemma PlanKeepsSafe(w: World, t: Task, dist: (Node, Node) -> real, fl: real -> real, p: seq<nat>)
    requires Safe(w) && PlannerReady(w, t) && Binary32(fl) && PlanFinds(w, t, dist, fl, p)
    ensures Safe(Planned(w, t, p))
  {
    hide Network, WellFormed, Occupancy, Paired, Planned, PlanFinds, Release;
    PlannedCases(w, t, p);
    if Plannable(w, t) && p != [] {
      AcceptedRecord(w, t, dist, fl, p);
      var c := CarOf(w, t.carId);
      ReleasingKeepsSafe(w, Planned(w, t, p), t.carId, AcceptedCar(c, t, PlanStart(w.m, t, c).value, PlanTarget(t, c), p));
    } else {
      SafeAgain(w, Planned(w, t, p));
    }
  }

  // ---------------------------------------------------------------- topology API

  lemma NetworkTables(m: MapData, paths: seq<Bipath>)
    requires Network(m, paths)
    ensures Tables(m, paths)
  {
    NetworkIds(m, paths);
  }

  /** Only statuses change, the pairs stay equal and no road becomes OCCUPIED. */
  lemma FewerKeepsSafe(w: World, w': World)
    requires Safe(w) && w'.paths == w.paths && w'.cars == w.cars && Fewer(w.m, w'.m) && Paired(w'.m, |w'.paths|)
    ensures Safe(w')
  {
    NetworkKept(w.m, w'.m, w.paths);
    FleetKept(w.m, w'.m, w.cars);
    FewerKeepsOccupancy(w.m, w'.m, w.cars);
  }

  lemma ApiKeepsSafeIff(w: World, eids: seq<nat>, st: EdgeStatus)
    requires Safe(w) && MapShape(w.m) && st != Occupied
    ensures Safe(WithReplans(SetAllByApi(w, eids, st))) <==> ApiSafe(w.m, |w.paths|, eids, st)
  {
    hide Network, Occupancy, FleetOk;
    NetworkTables(w.m, w.paths);
    ApiSetsAll(w, eids, st);
    ApiKeepsPairsIff(w, eids, st);
    if ApiSafe(w.m, |w.paths|, eids, st) { FewerKeepsSafe(w, WithReplans(SetAllByApi(w, eids, st))); }
  }

  lemma RepairKeepsSafeIff(w: World, eids: seq<nat>)
    requires Safe(w) && MapShape(w.m)
    ensures Safe(WithReplans(SetAllForRepair(w, eids))) <==> RepairSafe(w.m, |w.paths|, eids)
  {
    hide Network, Occupancy, FleetOk;
    NetworkTables(w.m, w.paths);
    RepairSetsAll(w, eids);
    RepairKeepsPairsIff(w, eids);
    if RepairSafe(w.m, |w.paths|, eids) { FewerKeepsSafe(w, WithReplans(SetAllForRepair(w, eids))); }
  }

  lemma NodeKeepsSafe(w: World, idx: nat, st: NodeStatus)
    requires Safe(w) && idx < |w.m.nodes|
    ensures Safe(w.(m := w.m.(nodes := w.m.nodes[idx := w.m.nodes[idx].(status := st)])))
  {
    var w' := w.(m := w.m.(nodes := w.m.nodes[idx := w.m.nodes[idx].(status := st)]));
    forall e: nat ensures SameBothWays(w'.m, |w.paths|, e) { assert SameBothWays(w.m, |w.paths|, e); }
    FewerKeepsSafe(w, w');
  }

  // ---------------------------------------------------------------- resets

  /** After a reset every edge has the status of its table entry. */
  lemma ResetStatus(m: MapData, m': MapData, nodes: seq<Node>, roads: seq<Road>, e: nat)
    requires FromTable(m, nodes, roads) && |m.adj| == MAX_NODES && FromOk(Edges(roads)) && m' == ResetMap(m, nodes, roads) && ValidEid(m', e)
    ensures var r := roads[if e <= |roads| then e - 1 else e - 1 - |roads|];
            StatusOf(m', e) == r.status && OnRoad(m', e, r.fromNode, r.toNode)
  {
    EdgeAt(roads, e);
  }

  lemma ResetPaired(m: MapData, m': MapData, nodes: seq<Node>, roads: seq<Road>)
    requires FromTable(m, nodes, roads) && |m.adj| == MAX_NODES && FromOk(Edges(roads)) && m' == ResetMap(m, nodes, roads)
    ensures Paired(m', |roads|)
  {
    hide ResetMap, OnRoad, FromTable;
    ResetSizes(m, m', nodes, roads);
    forall e: nat | ValidEid(m', e) && ValidEid(m', Partner(|roads|, e)) ensures StatusOf(m', e) == StatusOf(m', Partner(|roads|, e)) {
      ResetStatus(m, m', nodes, roads, e);
      ResetStatus(m, m', nodes, roads, Partner(|roads|, e));
    }
  }

  /** A parked car owns an edge of the road between a and b exactly if it stands between a and b. */
  lemma OwnerIsParked(m: MapData, cars: seq<Car>, e: nat, a: nat, b: nat)
    requires ValidEid(m, e) && OnRoad(m, e, a, b)
    ensures HasOwner(m, cars, e) <==> Owned(cars, a, b)
  {
    if HasOwner(m, cars, e) {
      var i :| 0 <= i < |cars| && ParkedOn(m, cars[i], e);
      assert ParkedBetween(cars[i], a, b);
    }
    if Owned(cars, a, b) {
      var i :| 0 <= i < |cars| && ParkedBetween(cars[i], a, b);
      assert ParkedOn(m, cars[i], e);
    }
  }

  lemma ResetOccupancyIff(m: MapData, m': MapData, nodes: seq<Node>, roads: seq<Road>, cars: seq<Car>)
    requires FromTable(m, nodes, roads) && |m.adj| == MAX_NODES && FromOk(Edges(roads)) && m' == ResetMap(m, nodes, roads)
    ensures Occupancy(m', cars) <==> TableOwned(roads, cars)
  {
    hide ResetMap, OnRoad, FromTable, HasOwner, Owned;
    ResetSizes(m, m', nodes, roads);
    if TableOwned(roads, cars) {
      forall e: nat | ValidEid(m', e) && StatusOf(m', e) == Occupied ensures HasOwner(m', cars, e) {
        ResetStatus(m, m', nodes, roads, e);
        var r := roads[if e <= |roads| then e - 1 else e - 1 - |roads|];
        OwnerIsParked(m', cars, e, r.fromNode, r.toNode);
      }
    }
    if Occupancy(m', cars) {
      forall k | 0 <= k < |roads| && roads[k].status == Occupied ensures Owned(cars, roads[k].fromNode, roads[k].toNode) {
        ResetStatus(m, m', nodes, roads, k + 1);
        OwnerIsParked(m', cars, k + 1, roads[k].fromNode, roads[k].toNode);
      }
    }
  }

  lemma ResetSizes(m: MapData, m': MapData, nodes: seq<Node>, roads: seq<Road>)
    requires FromTable(m, nodes, roads) && |m.adj| == MAX_NODES && FromOk(Edges(roads)) && m' == ResetMap(m, nodes, roads)
    ensures m'.edgeCount == 2 * |roads| <= |m'.edges|
  {
  }

  lemma TablePaths(m: MapData, paths: seq<Bipath>, nodes: seq<Node>, roads: seq<Road>)
    requires Network(m, paths) && FromTable(m, nodes, roads)
    ensures paths == Bipaths(roads)
  {
    hide MapShape;
    assert |paths| == |roads|;
    assert forall k :: 0 <= k < |paths| ==> paths[k] == Bipaths(roads)[k];
  }

  /** A reset keeps the invariant of runs if and only if every road that the table marks OCCUPIED is the road of an IDLE car. */
  lemma ResetKeepsSafeIff(w: World, nodes: seq<Node>, roads: seq<Road>)
    requires Safe(w) && FromTable(w.m, nodes, roads) && Ready(w, ResetEvent(nodes, roads))
    ensures Safe(Handled(w, ResetEvent(nodes, roads))) <==> TableOwned(roads, w.cars)
  {
    hide Network, Paired, Occupancy, FleetOk, TableOwned, ResetMap, FromTable, MapShape;
    var w' := Handled(w, ResetEvent(nodes, roads));
    TableIsSound(w.m, w.paths, nodes, roads);
    ResetKeepsRoads(w.m, w.paths, nodes, roads);
    TablePaths(w.m, w.paths, nodes, roads);
    ResetPaired(w.m, w'.m, nodes, roads);
    ResetOccupancyIff(w.m, w'.m, nodes, roads, w.cars);
    NetworkKept(w.m, w'.m, w.paths);
    FleetKept(w.m, w'.m, w.cars);
  }

  // ---------------------------------------------------------------- runs

  ghost predicate Step(w: World, ev: Event, dist: (Node, Node) -> real, fl: real -> real, w': World) {
    Plausible(w, ev, dist, fl) && Ready(w, ev) && w' == Handled(w, ev)
  }

  /** One event keeps the invariant if and only if it is harmless. */
  lemma StepKeepsSafeIff(w: World, ev: Event, dist: (Node, Node) -> real, fl: real -> real, w': World)
    requires Safe(w) && Step(w, ev, dist, fl, w')
    ensures Safe(w') <==> Harmless(w, ev)
  {
    hide Safe;
    match ev
    case ObstacleEvent(carId, temporary, passTh) => ObstacleKeepsSafe(w, carId, temporary, passTh);
    case RepairedEvent(carId) => RepairedKeepsSafe(w, carId);
    case PositionEvent(carId, behind, ahead) => PositionKeepsSafe(w, carId, behind, ahead);
    case ArriveEvent(carId) => ArriveKeepsSafe(w, carId);
    case PlanEvent(t, path) => PlanKeepsSafe(w, t, dist, fl, path);
    case BanEvent(eids) => ApiKeepsSafeIff(w, eids, Blocked);
    case AccessEvent(eids) => ApiKeepsSafeIff(w, eids, EdgeIdle);
    case RepairEvent(eids) => RepairKeepsSafeIff(w, eids);
    case NodeEvent(idx, st) => NodeKeepsSafe(w, idx, st);
    case ResetEvent(nodes, roads) => ResetKeepsSafeIff(w, nodes, roads);
  }

  // ---------------------------------------------------------------- roads

  lemma ArriveKeepsRoads(w: World, carId: nat)
    requires RoadsOk(w) && Routable(w, carId)
    ensures SameRoads(w.m, Arrived(w, carId).m)
  {
    hide Network, FleetOk, MapShape, RouterInRange, PairStatus, RouterCar;
    SameRoadsReflexive(w.m);
    if ValidCarId(w, carId) && Available(CarOf(w, carId)) {
      if CarOf(w, carId).current == CarOf(w, carId).target { ArrivalOccupies(w, carId); } else { ArrivedUnderway(w, carId); }
    }
  }

  lemma ReleaseKeepsRoads(m: MapData, paths: seq<Bipath>, a: nat, b: nat)
    requires Sane(m, paths) && a <= MAX_NODES
    ensures SameRoads(m, Release(m, paths, a, b))
  {
    SameRoadsReflexive(m);
    if a > 0 && b > 0 {
      ShapeListOk(m, a);
      var r := OccupiedTo(m, m.adj[a - 1], b);
      if r.Some? { PairStatusKeepsRoads(m, paths, r.value, EdgeIdle); }
    }
  }

  lemma PairStatusKeepsRoads(m: MapData, paths: seq<Bipath>, e: nat, st: EdgeStatus)
    requires Sane(m, paths) && 1 <= e <= MAX_EDGES
    ensures SameRoads(m, PairStatus(m, paths, e, st))
  {
    FindPartnerOk(paths, e);
    WithStatusKeeps(m, e, st);
    var f := FindPartner(paths, e);
    if f.Some? { TwoEdgesSet(m, e, f.value, st); }
  }

  lemma AlteredRoads(w: World, carId: nat, st: EdgeStatus)
    requires RoadsOk(w) && Sane(w.m, w.paths) && ValidCarId(w, carId) && 1 <= CarOf(w, carId).last <= MAX_NODES
    ensures SameRoads(w.m, AlterEdges(w, carId, st))
  {
    hide Network, FleetOk, MapShape, AlterEdges;
    CarFacts(w, carId);
    AlterSetsRoad(w, carId, st);
  }

  /** No event changes a road: only statuses and the order of lists do. */
  lemma StepKeepsRoads(w: World, ev: Event, dist: (Node, Node) -> real, fl: real -> real, w': World)
    requires RoadsOk(w) && Step(w, ev, dist, fl, w')
    ensures SameRoads(w.m, w'.m)
  {
    hide RoadsOk, SameRoads, AlterEdges, Release, Arrived, Planned, SetAllByApi, SetAllForRepair, MapShape, Network, ResetMap, Plausible;
    SameRoadsReflexive(w.m);
    match ev
    case ObstacleEvent(carId, temporary, passTh) => AlteredRoads(w, carId, FaultTemp); AlteredRoads(w, carId, FaultRepair);
    case RepairedEvent(carId) => AlteredRoads(w, carId, EdgeIdle);
    case PositionEvent(carId, behind, ahead) => ReleaseKeepsRoads(w.m, w.paths, CarOf(w, carId).last, CarOf(w, carId).current);
    case ArriveEvent(carId) => ArriveKeepsRoads(w, carId);
    case PlanEvent(t, path) => PlanKeepsRoads(w, t, path);
    case BanEvent(eids) => ApiKeepsRoads(w, eids, Blocked);
    case AccessEvent(eids) => ApiKeepsRoads(w, eids, EdgeIdle);
    case RepairEvent(eids) => ApiKeepsRoads(w, eids, EdgeIdle);
    case NodeEvent(idx, st) => NodeKeepsRoads(w.m, idx, st);
    case ResetEvent(nodes, roads) => ResetEventKeepsRoads(w, nodes, roads, dist, fl);
  }

  lemma PlanKeepsRoads(w: World, t: Task, p: seq<nat>)
    requires PlannerReady(w, t)
    ensures SameRoads(w.m, Planned(w, t, p).m)
  {
    hide SameRoads, MapShape, Release, RevNode, PlanTarget;
    SameRoadsReflexive(w.m);
    PlannedCases(w, t, p);
    if Plannable(w, t) { ReleaseKeepsRoads(w.m, w.paths, CarOf(w, t.carId).last, CarOf(w, t.carId).current); }
  }

  lemma ApiKeepsRoads(w: World, eids: seq<nat>, st: EdgeStatus)
    requires RoadsOk(w) && MapShape(w.m)
    ensures SameRoads(w.m, SetAllByApi(w, eids, st).m) && SameRoads(w.m, SetAllForRepair(w, eids).m)
  {
    hide Network, FleetOk, SameRoads;
    NetworkTables(w.m, w.paths);
    ApiSetsAll(w, eids, st);
    RepairSetsAll(w, eids);
  }

  lemma NodeKeepsRoads(m: MapData, idx: nat, st: NodeStatus)
    requires idx < |m.nodes|
    ensures SameRoads(m, m.(nodes := m.nodes[idx := m.nodes[idx].(status := st)]))
  {
  }

  lemma ResetEventKeepsRoads(w: World, nodes: seq<Node>, roads: seq<Road>, dist: (Node, Node) -> real, fl: real -> real)
    requires RoadsOk(w) && Plausible(w, ResetEvent(nodes, roads), dist, fl) && Ready(w, ResetEvent(nodes, roads))
    ensures SameRoads(w.m, Handled(w, ResetEvent(nodes, roads)).m)
  {
    hide Network, FleetOk, SameRoads, FromTable;
    TableIsSound(w.m, w.paths, nodes, roads);
    ResetKeepsRoads(w.m, w.paths, nodes, roads);
  }

  // ---------------------------------------------------------------- records, whatever happens

  /** The event writes no record, or one that fits the roads. */
  ghost predicate WritesRecord(w: World, w': World) {
    w'.paths == w.paths && (w'.cars == w.cars || exists i: nat :: WritesOne(w, w', i))
  }

  ghost predicate WritesOne(w: World, w': World, i: nat) {
    i < |w.cars| == |w'.cars| && CarOk(w.m, i + 1, w'.cars[i]) && w'.cars == w.cars[i := w'.cars[i]]
  }

  lemma ReportWrites(w: World, ev: Event, dist: (Node, Node) -> real, fl: real -> real)
    requires RoadsOk(w) && Plausible(w, ev, dist, fl) && Ready(w, ev) && (ev.ObstacleEvent? || ev.RepairedEvent? || ev.PositionEvent?)
    ensures WritesRecord(w, Handled(w, ev))
  {
    hide Network, FleetOk, MapShape, HasRoad, AlterEdges, Release;
    var c, w' := CarOf(w, ev.carId), Handled(w, ev);
    CarFacts(w, ev.carId);
    StatusKeepsWellFormed(w.m, c, Wait);
    StatusKeepsWellFormed(w.m, c, Moving);
    assert WritesOne(w, w', ev.carId - 1);
  }

  lemma ArriveIgnored(w: World, carId: nat)
    requires Routable(w, carId) && (!ValidCarId(w, carId) || !Available(CarOf(w, carId)))
    ensures Arrived(w, carId) == w
  {
  }

  lemma ArriveWrites(w: World, carId: nat)
    requires RoadsOk(w) && Routable(w, carId)
    ensures WritesRecord(w, Arrived(w, carId))
  {
    hide Network, FleetOk, MapShape, Arrived, PairStatus;
    if !ValidCarId(w, carId) || !Available(CarOf(w, carId)) {
      ArriveIgnored(w, carId);
    } else {
      var c, w' := CarOf(w, carId), Arrived(w, carId);
      CarFacts(w, carId);
      if c.current == c.target {
        ArrivedAtTarget(w, carId);
        assert WritesOne(w, w', carId - 1);
      } else {
        ArrivedUnderway(w, carId);
        if c.path == [] {
          assert RouterCar(w.m, c) == None;
        } else {
          RouterKeepsWellFormed(w.m, c);
          assert WritesOne(w, w', carId - 1);
        }
      }
    }
  }

  lemma PlanWrites(w: World, t: Task, dist: (Node, Node) -> real, fl: real -> real, p: seq<nat>)
    requires RoadsOk(w) && PlannerReady(w, t) && Binary32(fl) && PlanFinds(w, t, dist, fl, p)
    ensures WritesRecord(w, Planned(w, t, p))
  {
    hide Network, WellFormed, Planned, PlanFinds, Release, FreshPlan;
    PlannedCases(w, t, p);
    if Plannable(w, t) && p != [] {
      AcceptedRecord(w, t, dist, fl, p);
      assert WritesOne(w, Planned(w, t, p), t.carId - 1);
    }
  }

  lemma ResetWrites(w: World, nodes: seq<Node>, roads: seq<Road>)
    requires RoadsOk(w) && FromTable(w.m, nodes, roads) && Ready(w, ResetEvent(nodes, roads))
    ensures WritesRecord(w, Handled(w, ResetEvent(nodes, roads)))
  {
    hide Network, FleetOk, FromTable;
    TablePaths(w.m, w.paths, nodes, roads);
  }

  lemma ApiWrites(w: World, eids: seq<nat>, st: EdgeStatus)
    requires RoadsOk(w) && MapShape(w.m)
    ensures WritesRecord(w, WithReplans(SetAllByApi(w, eids, st))) && WritesRecord(w, WithReplans(SetAllForRepair(w, eids)))
  {
    hide Network, FleetOk, ApiEffect, RepairEffect;
    NetworkTables(w.m, w.paths);
    ApiSetsAll(w, eids, st);
    RepairSetsAll(w, eids);
  }

  lemma StepWrites(w: World, ev: Event, dist: (Node, Node) -> real, fl: real -> real, w': World)
    requires RoadsOk(w) && Step(w, ev, dist, fl, w')
    ensures WritesRecord(w, w')
  {
    hide RoadsOk, WritesRecord, MapShape, FromTable, PlanFinds;
    match ev
    case ArriveEvent(carId) => ArriveWrites(w, carId);
    case PlanEvent(t, path) => PlanWrites(w, t, dist, fl, path);
    case BanEvent(eids) => ApiWrites(w, eids, Blocked);
    case AccessEvent(eids) => ApiWrites(w, eids, EdgeIdle);
    case RepairEvent(eids) => ApiWrites(w, eids, EdgeIdle);
    case NodeEvent(idx, st) => assert WritesRecord(w, w') by { NodeWrites(w, w'); }
    case ResetEvent(nodes, roads) => ResetWrites(w, nodes, roads);
    case _ => ReportWrites(w, ev, dist, fl);
  }

  lemma NodeWrites(w: World, w': World)
    requires w'.paths == w.paths && w'.cars == w.cars
    ensures WritesRecord(w, w')
  {
  }

  /** Every event, harmful ones included, leaves a road network and well-formed records. */
  lemma StepKeepsRecords(w: World, ev: Event, dist: (Node, Node) -> real, fl: real -> real, w': World)
    requires RoadsOk(w) && Step(w, ev, dist, fl, w')
    ensures RoadsOk(w')
  {
    hide Network, FleetOk, SameRoads, Step;
    StepKeepsRoads(w, ev, dist, fl, w');
    StepWrites(w, ev, dist, fl, w');
    NetworkKept(w.m, w'.m, w.paths);
    if w'.cars == w.cars {
      FleetKept(w.m, w'.m, w.cars);
    } else {
      var i: nat :| WritesOne(w, w', i);
      FleetWith(w.m, w'.m, w.cars, i, w'.cars[i]);
    }
  }

  // ---------------------------------------------------------------- targets

  lemma ApiKeepsCars(w: World, eids: seq<nat>, st: EdgeStatus)
    requires RoadsOk(w) && MapShape(w.m)
    ensures SetAllByApi(w, eids, st).cars == w.cars && SetAllForRepair(w, eids).cars == w.cars
  {
    hide Network, FleetOk, ApiEffect, RepairEffect;
    NetworkTables(w.m, w.paths);
    ApiSetsAll(w, eids, st);
    RepairSetsAll(w, eids);
  }

  /** Once a car has accepted a plan its target is a node, whatever happens afterwards: such a car may be replanned. */
  lemma TargetsStay(w: World, ev: Event, dist: (Node, Node) -> real, fl: real -> real, w': World, i: nat)
    requires RoadsOk(w) && Step(w, ev, dist, fl, w') && i < |w.cars|
    ensures |w'.cars| == |w.cars|
    ensures 1 <= w.cars[i].target ==> 1 <= w'.cars[i].target
    ensures ev.PlanEvent? && ev.t.carId == i + 1 && w'.cars[i].path != w.cars[i].path ==> 1 <= w'.cars[i].target
  {
    hide Network, FleetOk, Plausible, SetAllByApi, SetAllForRepair, AlterEdges, Release, PairStatus, RouterCar, Arrived, Planned, ResetMap, Replans;
    NetworkSane(w.m, w.paths);
    match ev
    case ArriveEvent(carId) => ArriveKeepsTarget(w, carId, i);
    case PlanEvent(t, path) => PlannedCases(w, t, path);
    case BanEvent(eids) => ApiKeepsCars(w, eids, Blocked);
    case AccessEvent(eids) => ApiKeepsCars(w, eids, EdgeIdle);
    case RepairEvent(eids) => ApiKeepsCars(w, eids, EdgeIdle);
    case _ =>
  }

  lemma ArriveKeepsTarget(w: World, carId: nat, i: nat)
    requires Routable(w, carId) && i < |w.cars|
    ensures |Arrived(w, carId).cars| == |w.cars| && Arrived(w, carId).cars[i].target == w.cars[i].target
  {
  }

  /** A run: r[i + 1] is what event evs[i] makes of r[i]. */
  ghost predicate IsRun(r: seq<World>, evs: seq<Event>, dist: (Node, Node) -> real, fl: real -> real) {
    |r| == |evs| + 1 && forall i :: 0 <= i < |evs| ==> Step(r[i], evs[i], dist, fl, r[i + 1])
  }

  /**
   * After every sequence of plausible events whose API lists and resets are harmless: both directions of every road have the same status,
   * every OCCUPIED road is the road of an IDLE car, and every record is well formed.
   */
  lemma {:induction false} RunsStaySafe(r: seq<World>, evs: seq<Event>, dist: (Node, Node) -> real, fl: real -> real, i: nat)
    requires IsRun(r, evs, dist, fl) && Safe(r[0]) && i < |r|
    requires forall k :: 0 <= k < i ==> Harmless(r[k], evs[k])
    ensures Safe(r[i])
    decreases i
  {
    hide Safe, Harmless;
    if i > 0 {
      RunsStaySafe(r, evs, dist, fl, i - 1);
      StepKeepsSafeIff(r[i - 1], evs[i - 1], dist, fl, r[i]);
    }
  }

  /** Whatever the events of a run do to statuses, roads and records stay as they must be. */
  lemma {:induction false} RunsKeepRecords(r: seq<World>, evs: seq<Event>, dist: (Node, Node) -> real, fl: real -> real, i: nat)
    requires IsRun(r, evs, dist, fl) && RoadsOk(r[0]) && i < |r|
    ensures RoadsOk(r[i]) && SameRoads(r[0].m, r[i].m)
    decreases i
  {
    hide RoadsOk, SameRoads, Step;
    if i == 0 {
      SameRoadsReflexive(r[0].m);
    } else {
      RunsKeepRecords(r, evs, dist, fl, i - 1);
      StepKeepsRecords(r[i - 1], evs[i - 1], dist, fl, r[i]);
      StepKeepsRoads(r[i - 1], evs[i - 1], dist, fl, r[i]);
      SameRoadsTransitive(r[0].m, r[i - 1].m, r[i].m);
    }
  }

  /** No handler is ever blocked: in every such state whatever plausible event comes next can be handled. */
  lemma SafeCanHandle(w: World, ev: Event, dist: (Node, Node) -> real, fl: real -> real)
    requires RoadsOk(w) && Plausible(w, ev, dist, fl)
    ensures exists w': World :: Step(w, ev, dist, fl, w')
  {
    PlausibleIsReady(w, ev, dist, fl);
    assert Step(w, ev, dist, fl, Handled(w, ev));
  }

  // ---------------------------------------------------------------- POSITION, plan, first ARRIVE

  /** The coordinates of nodes and the ends of edges do not change. */
  lemma SameTurn(m: MapData, m': MapData, a: nat, b: nat, c: nat)
    requires SameRoads(m, m') && 1 <= a <= |m.nodes| && 1 <= b <= |m.nodes| && 1 <= c <= |m.nodes|
    ensures GenerateTurn(At(m', a), At(m', b), At(m', c)) == GenerateTurn(At(m, a), At(m, b), At(m, c))
  {
  }

  /** The first ARRIVE of a fresh plan moves the car over the first edge of its path. */
  lemma FirstTurn(m: MapData, c: Car)
    requires FreshPlan(m, c) && PathOk(m, c.path) && NodesOk(m, c)
    ensures c.current != c.target && ValidEid(m, c.path[0]) && From(m, c.path[0]) == c.current && 1 <= To(m, c.path[0]) <= MAX_NODES
    ensures RouterCar(m, c) == Some((c.(last := c.current, current := To(m, c.path[0])),
                                     GenerateTurn(At(m, c.last), At(m, c.current), At(m, To(m, c.path[0])))))
  {
    RouterFollowsPath(m, c, 0);
    assert NodesOf(m, c.path)[1] == To(m, c.path[0]);
  }

  /**
   * A car reported between `behind` and `ahead` and then assigned a path is told, at its first junction, the turn that leads
   * from `behind` through `ahead` to the far end of the path's first edge.
   */
  lemma FirstOrderAfterPosition(w: World, carId: nat, behind: nat, ahead: nat, t: Task,
                                dist: (Node, Node) -> real, fl: real -> real, p: seq<nat>)
    requires Safe(w) && ValidCarId(w, carId) && HasRoad(w.m, behind, ahead) && Ready(w, PositionEvent(carId, behind, ahead))
    requires t.carId == carId && t.action == Assign && (t.immediate == AfterSegment || t.immediate == Immediately)
    requires var w1 := Positioned(w, carId, behind, ahead);
             PlannerReady(w1, t) && Binary32(fl) && PlanFinds(w1, t, dist, fl, p) && p != []
    ensures var w2 := Planned(Positioned(w, carId, behind, ahead), t, p);
            && Routable(w2, carId) && ValidEid(w.m, p[0]) && From(w.m, p[0]) == ahead
            && 1 <= behind <= |w.m.nodes| && 1 <= ahead <= |w.m.nodes| && 1 <= To(w.m, p[0]) <= |w.m.nodes|
            && Arrived(w2, carId).published == w2.published +
                 [Orient(carId, GenerateTurn(At(w.m, behind), At(w.m, ahead), At(w.m, To(w.m, p[0]))))]
  {
    hide Network, Occupancy, Paired, FleetOk, WellFormed, PlanFinds, Release, FreshPlan, MapShape, SameRoads, PlannerReady, Routable, Arrived;
    var w1 := Positioned(w, carId, behind, ahead);
    PositionKeepsSafe(w, carId, behind, ahead);
    CarFacts(w, carId);
    ReleaseKeepsRoads(w.m, w.paths, CarOf(w, carId).last, CarOf(w, carId).current);
    PlacedIsPlannable(w1, t);
    AcceptedRecord(w1, t, dist, fl, p);
    PlannedCases(w1, t, p);
    PlanKeepsSafe(w1, t, dist, fl, p);
    CarFacts(w1, carId);
    ReleaseKeepsRoads(w1.m, w1.paths, behind, ahead);
    var w2 := Planned(w1, t, p);
    FirstOrder(w1, w2, carId);
    SameRoadsTransitive(w.m, w1.m, w2.m);
    EdgeKept(w.m, w2.m, p[0]);
    SameSizes(w.m, w2.m);
    SameTurn(w.m, w2.m, behind, ahead, To(w.m, p[0]));
  }

  lemma SameSizes(m: MapData, m': MapData)
    requires SameRoads(m, m')
    ensures |m'.nodes| == |m.nodes|
  {
  }

  lemma PlacedIsPlannable(w: World, t: Task)
    requires PlannerReady(w, t) && ValidCarId(w, t.carId) && CarOf(w, t.carId).status == CarIdle
    requires t.immediate == AfterSegment || t.immediate == Immediately
    ensures Plannable(w, t) && PlanStart(w.m, t, CarOf(w, t.carId)) == Some(CarOf(w, t.carId).current)
  {
  }

  /** The record of a fresh plan, kept over a change of statuses, at its first ARRIVE. */
  lemma FirstOrder(w1: World, w2: World, carId: nat)
    requires RoadsOk(w2) && SameRoads(w1.m, w2.m) && ValidCarId(w2, carId) && CarOf(w2, carId).status == Moving
    requires FreshPlan(w1.m, CarOf(w2, carId))
    ensures Routable(w2, carId) && |w2.m.nodes| == MAX_NODES && NodesOk(w2.m, CarOf(w2, carId))
    ensures var c := CarOf(w2, carId); var e := c.path[0];
            && ValidEid(w2.m, e) && From(w2.m, e) == c.current && 1 <= To(w2.m, e) <= MAX_NODES
            && Arrived(w2, carId).published == w2.published +
                 [Orient(carId, GenerateTurn(At(w2.m, c.last), At(w2.m, c.current), At(w2.m, To(w2.m, e))))]
  {
    hide Network, FleetOk, MapShape, Arrived, RouterCar;
    var c := CarOf(w2, carId);
    CarFacts(w2, carId);
    WellFormedKept(w1.m, w2.m, c);
    ChainKept(w1.m, w2.m, c.path);
    FirstTurn(w2.m, c);
    ArrivedUnderway(w2, carId);
  }

  // ---------------------------------------------------------------- what one event undoes

  /** The maps differ in no road and no edge status. */
  ghost predicate SameStatuses(m: MapData, m': MapData) {
    SameRoads(m, m') && forall e: nat :: ValidEid(m, e) ==> StatusOf(m', e) == StatusOf(m, e)
  }

  ghost predicate RoadIdle(m: MapData, a: nat, b: nat) {
    forall e: nat :: ValidEid(m, e) && OnRoad(m, e, a, b) ==> StatusOf(m, e) == EdgeIdle
  }

  lemma SetTwice(m: MapData, m1: MapData, m2: MapData, a: nat, b: nat, st: EdgeStatus)
    requires RoadSet(m, m1, a, b, st) && RoadSet(m1, m2, a, b, EdgeIdle) && RoadIdle(m, a, b)
    ensures SameStatuses(m, m2)
  {
    SameRoadsTransitive(m, m1, m2);
    forall e: nat | ValidEid(m, e) ensures StatusOf(m2, e) == StatusOf(m, e) { EdgeKept(m, m1, e); }
  }

  /** REPAIRED takes a temporary OBSTACLE back: a car that was driving on a free road is again, and nothing was sent. */
  lemma RepairedUndoesObstacle(w: World, carId: nat, passTh: bool)
    requires Safe(w) && Ready(w, RepairedEvent(carId)) && CarOf(w, carId).status == Moving
    requires RoadIdle(w.m, CarOf(w, carId).last, CarOf(w, carId).current)
    ensures var w1 := ObstacleSeen(w, carId, true, passTh);
            && Ready(w1, RepairedEvent(carId)) && CarOf(w1, carId).status == Wait
            && var w2 := ObstacleGone(w1, carId);
               w2 == w.(m := w2.m) && SameStatuses(w.m, w2.m)
  {
    hide Network, Occupancy, Paired, FleetOk, WellFormed, AlterEdges, RoadSet, MapShape;
    var c := CarOf(w, carId);
    var w1 := ObstacleSeen(w, carId, true, passTh);
    CarFacts(w, carId);
    ObstacleKeepsSafe(w, carId, true, passTh);
    CarFacts(w1, carId);
    var w2 := ObstacleGone(w1, carId);
    AlterSetsRoad(w, carId, FaultTemp);
    AlterSetsRoad(w1, carId, EdgeIdle);
    SetTwice(w.m, w1.m, w2.m, c.last, c.current, FaultTemp);
    assert w2.cars == w.cars[carId - 1 := c];
  }

  /** /api/access takes a /api/ban of the same list back where the roads were free. */
  lemma AccessUndoesBan(w: World, eids: seq<nat>)
    requires Tables(w.m, w.paths)
    requires forall e: nat :: ValidEid(w.m, e) && HitByApi(|w.paths|, eids, e) ==> StatusOf(w.m, e) == EdgeIdle
    ensures var w1 := SetAllByApi(w, eids, Blocked);
            && Tables(w1.m, w1.paths) && SameStatuses(w.m, SetAllByApi(w1, eids, EdgeIdle).m)
  {
    var w1 := SetAllByApi(w, eids, Blocked);
    ApiSetsAll(w, eids, Blocked);
    TablesKept(w.m, w1.m, w.paths);
    ApiSetsAll(w1, eids, EdgeIdle);
    var m2 := SetAllByApi(w1, eids, EdgeIdle).m;
    SameRoadsTransitive(w.m, w1.m, m2);
    forall e: nat | ValidEid(w.m, e) ensures StatusOf(m2, e) == StatusOf(w.m, e) { EdgeKept(w.m, w1.m, e); }
  }

  lemma TablesKept(m: MapData, m': MapData, paths: seq<Bipath>)
    requires Tables(m, paths) && SameRoads(m, m')
    ensures Tables(m', paths)
  {
    forall e: nat | ValidEid(m', e) ensures m'.edges[e - 1].id == e { EdgeKept(m, m', e); }
    forall i, j | 0 <= i < MAX_NODES && 0 <= j < |m'.adj[i]|
      ensures var e := m'.adj[i][j];
              1 <= e <= MAX_EDGES && 1 <= m'.edges[e - 1].fromNode <= MAX_NODES && 1 <= m'.edges[e - 1].toNode <= MAX_NODES
    {
      ListedInBoth(m, m', i, j);
    }
  }

  lemma ListedInBoth(m: MapData, m': MapData, i: nat, j: nat)
    requires MapShape(m) && SameRoads(m, m') && i < MAX_NODES && j < |m'.adj[i]|
    ensures var e := m'.adj[i][j];
            1 <= e <= MAX_EDGES && 1 <= m'.edges[e - 1].fromNode <= MAX_NODES && 1 <= m'.edges[e - 1].toNode <= MAX_NODES
  {
    var e := m'.adj[i][j];
    assert Listed(m', i + 1, e);
    assert Listed(m, i + 1, e);
    var k :| 0 <= k < |m.adj[i]| && m.adj[i][k] == e;
  }
}
