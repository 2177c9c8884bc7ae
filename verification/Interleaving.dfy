/**
 * Planner, router and subscriber as processes whose reads of the map, reads of the car table, computations, road lookups and
 * writes of whole records interleave in any order, while edge, node and car statuses change and the map is reset at any time.
 */
module Interleaving {
  import opened Layout
  import opened MapInit
  import opened RoadNetwork
  import Geometry
  import opened AStar
  import opened FindPathMethod
  import opened Dispatch
  import opened CarRecords

  /** A record that is still to be written. */
  datatype Pending = Pending(carId: nat, record: Car)

  /** A road that is still to be looked up and released. */
  datatype Stretch = Stretch(last: nat, current: nat)

  /**
   * How far a handler has come, and its private copies of what it has read. A road is looked up by OBSTACLE and REPAIRED, by
   * POSITION before it writes a record, and by the planner after it has written one.
   */
  datatype Local =
    | Free
    | PlannerHasMap(t: Task, snap: MapData)
    | PlannerHasCar(t: Task, snap: MapData, car: Car)
    | RouterHasMap(carId: nat, snap: MapData)
    | RouterHasCar(carId: nat, snap: MapData, car: Car)
    | LooksUp(road: Stretch, next: Option<Pending>)
    | LookupHasMap(road: Stretch, snap: MapData, next: Option<Pending>)
    | Writes(carId: nat, record: Car, left: Option<Stretch>)

  datatype Shared = Shared(m: MapData, cars: seq<Car>, procs: seq<Local>)

  predicate Known(cars: seq<Car>, carId: nat) { 1 <= carId <= |cars| }

  // ---------------------------------------------------------------- steps

  function RoadOf(c: Car): Stretch { Stretch(c.last, c.current) }

  /** What find_path may make of the planner's copies, if its indices are in range: nothing to write, or an accepted record. */
  ghost predicate PlannerComputes(t: Task, snap: MapData, c: Car, dist: (Node, Node) -> real, fl: real -> real, l: Local) {
    && Binary32(fl) && MapShape(snap) && PlannerInRange(snap, t, c)
    && match PlanStart(snap, t, c)
       case None => l == Free
       case Some(start) =>
         PlanningMapShape(snap, c);
         exists p: seq<nat> :: Finds(PlanningMap(snap, c), start, PlanTarget(t, c), dist, fl, p) &&
           l == if p == [] || |p| > MAX_PATHLEN then Free else PlannerWrites(c, t, start, p)
  }

  function PlannerWrites(c: Car, t: Task, start: nat, p: seq<nat>): Local {
    Writes(t.carId, AcceptedCar(c, t, start, PlanTarget(t, c), p), Some(RoadOf(c)))
  }

  /** What the router makes of its copies, if its indices are in range. */
  ghost predicate RouterComputes(carId: nat, snap: MapData, c: Car, l: Local) {
    && RouterInRange(snap, c)
    && l == match RouterCar(snap, c) case None => Free case Some((c', ori)) => Writes(carId, c', None)
  }

  /** What the lookup of a road indexes: the list of the node behind, and the edges in it. */
  predicate LookupInRange(snap: MapData, last: nat) {
    |snap.adj| == MAX_NODES && 1 <= last <= MAX_NODES && ListOk(snap, snap.adj[last - 1])
  }

  /** A new message: the planner and the router read the map first, OBSTACLE, REPAIRED and POSITION the car. */
  ghost predicate Starts(s: Shared, l: Local) {
    || (exists t: Task :: l == PlannerHasMap(t, s.m))
    || (exists carId: nat :: l == RouterHasMap(carId, s.m))
    || (exists carId: nat :: Known(s.cars, carId) && l == LooksUp(RoadOf(s.cars[carId - 1]), None))
    || (exists carId: nat, behind: nat, ahead: nat :: Known(s.cars, carId) && HasRoad(s.m, behind, ahead) &&
          l == PositionLooksUp(carId, s.cars[carId - 1], behind, ahead))
  }

  function PositionLooksUp(carId: nat, c: Car, behind: nat, ahead: nat): Local {
    LooksUp(RoadOf(c), Some(Pending(carId, PlacedCar(c, behind, ahead))))
  }

  function AfterLookup(next: Option<Pending>): Local {
    match next case None => Free case Some(p) => Writes(p.carId, p.record, None)
  }

  function AfterWrite(left: Option<Stretch>): Local {
    match left case None => Free case Some(road) => LooksUp(road, None)
  }

  /** One phase of a handler. What lookups do to edge statuses is in `MapStep`; records are touched by `Writes` alone. */
  ghost predicate Advances(s: Shared, l: Local, dist: (Node, Node) -> real, fl: real -> real, l': Local, cars': seq<Car>) {
    match l
    case Free => cars' == s.cars && Starts(s, l')
    case PlannerHasMap(t, snap) =>
      cars' == s.cars &&
      l' == if Known(s.cars, t.carId) && Available(s.cars[t.carId - 1]) then PlannerHasCar(t, snap, s.cars[t.carId - 1]) else Free
    case PlannerHasCar(t, snap, c) => cars' == s.cars && PlannerComputes(t, snap, c, dist, fl, l')
    case RouterHasMap(carId, snap) =>
      cars' == s.cars &&
      l' == if Known(s.cars, carId) && Available(s.cars[carId - 1]) then RouterHasCar(carId, snap, s.cars[carId - 1]) else Free
    case RouterHasCar(carId, snap, c) => cars' == s.cars && RouterComputes(carId, snap, c, l')
    case LooksUp(road, next) => cars' == s.cars && l' == LookupHasMap(road, s.m, next)
    case LookupHasMap(road, snap, next) => cars' == s.cars && LookupInRange(snap, road.last) && l' == AfterLookup(next)
    case Writes(carId, record, left) => Known(s.cars, carId) && cars' == s.cars[carId - 1 := record] && l' == AfterWrite(left)
  }

  ghost predicate ProcessStep(s: Shared, p: nat, dist: (Node, Node) -> real, fl: real -> real, s': Shared) {
    && p < |s.procs| && p < |s'.procs| && s'.m == s.m && s'.procs == s.procs[p := s'.procs[p]]
    && Advances(s, s.procs[p], dist, fl, s'.procs[p], s'.cars)
  }

  /** Any write of edge or node statuses, and a reset of the map. */
  ghost predicate MapStep(s: Shared, s': Shared) { s' == s.(m := s'.m) && SameRoads(s.m, s'.m) }

  /** shm_set_car_status */
  ghost predicate StatusStep(s: Shared, carId: nat, st: CarStatus, s': Shared) {
    Known(s.cars, carId) && s' == s.(cars := s.cars[carId - 1 := s.cars[carId - 1].(status := st)])
  }

  ghost predicate Step(s: Shared, dist: (Node, Node) -> real, fl: real -> real, s': Shared) {
    || MapStep(s, s')
    || (exists carId: nat, st: CarStatus :: StatusStep(s, carId, st, s'))
    || (exists p: nat :: ProcessStep(s, p, dist, fl, s'))
  }

  ghost predicate IsRun(r: seq<Shared>, dist: (Node, Node) -> real, fl: real -> real) {
    |r| > 0 && forall i :: 0 <= i < |r| - 1 ==> Step(r[i], dist, fl, r[i + 1])
  }

  // ---------------------------------------------------------------- the invariant

  /** The record of car carId: it keeps its id and is well formed. */
  ghost predicate RecordOk(m: MapData, carId: nat, c: Car) { c.id == carId && WellFormed(m, c) }

  ghost predicate PendingOk(m: MapData, count: nat, next: Option<Pending>) {
    next.Some? ==> 1 <= next.value.carId <= count && RecordOk(m, next.value.carId, next.value.record)
  }

  /** What a handler holds may be out of date, but it is well formed too. */
  ghost predicate LocalOk(m: MapData, count: nat, l: Local) {
    match l
    case Free => true
    case PlannerHasMap(t, snap) => SameRoads(m, snap)
    case PlannerHasCar(t, snap, c) => SameRoads(m, snap) && 1 <= t.carId <= count && RecordOk(m, t.carId, c)
    case RouterHasMap(carId, snap) => SameRoads(m, snap)
    case RouterHasCar(carId, snap, c) => SameRoads(m, snap) && 1 <= carId <= count && RecordOk(m, carId, c)
    case LooksUp(road, next) => 1 <= road.last <= MAX_NODES && PendingOk(m, count, next)
    case LookupHasMap(road, snap, next) => SameRoads(m, snap) && 1 <= road.last <= MAX_NODES && PendingOk(m, count, next)
    case Writes(carId, record, left) =>
      1 <= carId <= count && RecordOk(m, carId, record) && (left.Some? ==> 1 <= left.value.last <= MAX_NODES)
  }

  ghost predicate CarsOk(m: MapData, cars: seq<Car>) { forall i :: 0 <= i < |cars| ==> RecordOk(m, i + 1, cars[i]) }

  ghost predicate LocalsOk(m: MapData, count: nat, procs: seq<Local>) { forall p :: 0 <= p < |procs| ==> LocalOk(m, count, procs[p]) }

  ghost predicate Inv(s: Shared, paths: seq<Bipath>) {
    Network(s.m, paths) && CarsOk(s.m, s.cars) && LocalsOk(s.m, |s.cars|, s.procs)
  }

  // ---------------------------------------------------------------- preservation

  lemma LocalKept(m: MapData, m': MapData, count: nat, l: Local)
    requires LocalOk(m, count, l) && SameRoads(m, m')
    ensures LocalOk(m', count, l)
  {
    SameRoadsSymmetric(m, m');
    match l
    case Free =>
    case PlannerHasMap(t, snap) => SameRoadsTransitive(m', m, snap);
    case PlannerHasCar(t, snap, c) => SameRoadsTransitive(m', m, snap); WellFormedKept(m, m', c);
    case RouterHasMap(carId, snap) => SameRoadsTransitive(m', m, snap);
    case RouterHasCar(carId, snap, c) => SameRoadsTransitive(m', m, snap); WellFormedKept(m, m', c);
    case LooksUp(road, next) => PendingKept(m, m', count, next);
    case LookupHasMap(road, snap, next) => SameRoadsTransitive(m', m, snap); PendingKept(m, m', count, next);
    case Writes(carId, record, left) => WellFormedKept(m, m', record);
  }

  lemma PendingKept(m: MapData, m': MapData, count: nat, next: Option<Pending>)
    requires PendingOk(m, count, next) && SameRoads(m, m')
    ensures PendingOk(m', count, next)
  {
    if next.Some? { WellFormedKept(m, m', next.value.record); }
  }

  /** A well-formed record is on a road between two nodes. */
  lemma OnRealRoad(m: MapData, paths: seq<Bipath>, c: Car)
    requires Network(m, paths) && WellFormed(m, c)
    ensures 1 <= c.last <= MAX_NODES
  {
    HasRoadNodes(m, paths, c.last, c.current);
  }

  lemma MapStepKeeps(s: Shared, s': Shared, paths: seq<Bipath>)
    requires Inv(s, paths) && MapStep(s, s')
    ensures Inv(s', paths)
  {
    NetworkKept(s.m, s'.m, paths);
    forall i | 0 <= i < |s'.cars| ensures RecordOk(s'.m, i + 1, s'.cars[i]) {
      assert RecordOk(s.m, i + 1, s.cars[i]);
      WellFormedKept(s.m, s'.m, s.cars[i]);
    }
    forall p | 0 <= p < |s'.procs| ensures LocalOk(s'.m, |s'.cars|, s'.procs[p]) {
      assert LocalOk(s.m, |s.cars|, s.procs[p]);
      LocalKept(s.m, s'.m, |s.cars|, s.procs[p]);
    }
  }

  /** The router's new record, computed on an old map and an old record, is well formed on the map of now. */
  lemma RouterWritesWellFormed(m: MapData, snap: MapData, carId: nat, c: Car, l: Local)
    requires SameRoads(m, snap) && RecordOk(m, carId, c) && RouterComputes(carId, snap, c, l) && PathOk(snap, c.path) && NodesOk(snap, c)
    ensures l != Free ==> l.Writes? && l.carId == carId && RecordOk(m, carId, l.record) && l.left == None
  {
    WellFormedKept(m, snap, c);
    if c.path != [] {
      RouterKeepsWellFormed(snap, c);
      var c' := RouterCar(snap, c).value.0;
      assert WellFormed(snap, c') && c'.id == c.id;
      SameRoadsSymmetric(m, snap);
      WellFormedKept(snap, m, c');
    } else {
      assert RouterCar(snap, c) == None;
    }
  }

  /** A copy of the map and a record are as good as the shared ones: the record's nodes and path fit the copy. */
  lemma CopyIsRoutable(m: MapData, paths: seq<Bipath>, snap: MapData, c: Car)
    requires Network(m, paths) && SameRoads(m, snap) && WellFormed(m, c)
    ensures MapShape(snap) && Network(snap, paths) && WellFormed(snap, c) && PathOk(snap, c.path) && NodesOk(snap, c)
  {
    NetworkKept(m, snap, paths);
    WellFormedKept(m, snap, c);
    RecordIsRoutable(snap, paths, c);
    if c.path == [] { assert PathOk(snap, c.path); }
  }

  /** So is the planner's, whatever path the search returns. */
  lemma PlannerWritesWellFormed(m: MapData, paths: seq<Bipath>, snap: MapData, t: Task, c: Car,
                                dist: (Node, Node) -> real, fl: real -> real, l: Local)
    requires Network(m, paths) && SameRoads(m, snap) && RecordOk(m, t.carId, c) && PlannerComputes(t, snap, c, dist, fl, l)
    ensures l != Free ==> l.Writes? && l.carId == t.carId && RecordOk(m, t.carId, l.record) && l.left == Some(RoadOf(c))
  {
    hide Network, SameRoads, WellFormed, Finds, MapShape, PlanningMap;
    if l != Free {
      var start := PlanStart(snap, t, c).value;
      PlanningMapShape(snap, c);
      var p: seq<nat> :| Finds(PlanningMap(snap, c), start, PlanTarget(t, c), dist, fl, p) && p != [] && l == PlannerWrites(c, t, start, p);
      AcceptedIsWellFormed(m, snap, paths, c, t, start, dist, fl, p);
      assert PlannerWrites(c, t, start, p).record == AcceptedCar(c, t, start, PlanTarget(t, c), p);
    }
  }

  /** The phases that only copy. */
  lemma CopyKeeps(s: Shared, l: Local, dist: (Node, Node) -> real, fl: real -> real, l': Local, cars': seq<Car>)
    requires CarsOk(s.m, s.cars) && LocalOk(s.m, |s.cars|, l) && Advances(s, l, dist, fl, l', cars')
    requires l.PlannerHasMap? || l.RouterHasMap? || l.LooksUp? || l.LookupHasMap?
    ensures cars' == s.cars && LocalOk(s.m, |s.cars|, l')
  {
  }

  lemma StartKeeps(s: Shared, paths: seq<Bipath>, l: Local)
    requires Network(s.m, paths) && CarsOk(s.m, s.cars) && Starts(s, l)
    ensures LocalOk(s.m, |s.cars|, l)
  {
    hide Network, HasRoad, OnPath, SameRoads;
    SameRoadsReflexive(s.m);
    if carId: nat :| Known(s.cars, carId) && l == LooksUp(RoadOf(s.cars[carId - 1]), None) {
      OnRealRoad(s.m, paths, s.cars[carId - 1]);
    } else if carId: nat, behind: nat, ahead: nat :|
        Known(s.cars, carId) && HasRoad(s.m, behind, ahead) && l == PositionLooksUp(carId, s.cars[carId - 1], behind, ahead) {
      OnRealRoad(s.m, paths, s.cars[carId - 1]);
      assert WellFormed(s.m, PlacedCar(s.cars[carId - 1], behind, ahead));
    }
  }

  /** Every phase of every handler leaves well-formed records and well-formed private copies. */
  lemma AdvanceKeeps(s: Shared, paths: seq<Bipath>, l: Local, dist: (Node, Node) -> real, fl: real -> real, l': Local, cars': seq<Car>)
    requires Network(s.m, paths) && CarsOk(s.m, s.cars) && LocalOk(s.m, |s.cars|, l) && Advances(s, l, dist, fl, l', cars')
    ensures |cars'| == |s.cars| && CarsOk(s.m, cars') && LocalOk(s.m, |s.cars|, l')
  {
    hide Network, HasRoad, OnPath, SameRoads, PlannerComputes, RouterComputes;
    match l
    case Free => StartKeeps(s, paths, l');
    case PlannerHasCar(t, snap, c) =>
      PlannerWritesWellFormed(s.m, paths, snap, t, c, dist, fl, l');
      OnRealRoad(s.m, paths, c);
    case RouterHasCar(carId, snap, c) =>
      CopyIsRoutable(s.m, paths, snap, c);
      RouterWritesWellFormed(s.m, snap, carId, c, l');
    case Writes(carId, record, left) =>
    case _ => CopyKeeps(s, l, dist, fl, l', cars');
  }

  lemma StepKeeps(s: Shared, s': Shared, paths: seq<Bipath>, dist: (Node, Node) -> real, fl: real -> real)
    requires Inv(s, paths) && Step(s, dist, fl, s')
    ensures Inv(s', paths)
  {
    hide Network, WellFormed, SameRoads, Advances;
    if MapStep(s, s') {
      MapStepKeeps(s, s', paths);
    } else if carId: nat, st: CarStatus :| StatusStep(s, carId, st, s') {
      StatusStepKeeps(s, carId, st, s');
    } else {
      var p: nat :| ProcessStep(s, p, dist, fl, s');
      assert LocalOk(s.m, |s.cars|, s.procs[p]);
      AdvanceKeeps(s, paths, s.procs[p], dist, fl, s'.procs[p], s'.cars);
    }
  }

  lemma StatusStepKeeps(s: Shared, carId: nat, st: CarStatus, s': Shared)
    requires CarsOk(s.m, s.cars) && StatusStep(s, carId, st, s')
    ensures s'.m == s.m && s'.procs == s.procs && |s'.cars| == |s.cars| && CarsOk(s'.m, s'.cars)
  {
    StatusKeepsWellFormed(s.m, s.cars[carId - 1], st);
  }

  /** However the phases interleave, every record in shared memory stays well formed. */
  lemma {:induction false} RecordsStayWellFormed(r: seq<Shared>, paths: seq<Bipath>, dist: (Node, Node) -> real, fl: real -> real, i: nat)
    requires IsRun(r, dist, fl) && Inv(r[0], paths) && i < |r|
    ensures Inv(r[i], paths)
    decreases i
  {
    if i > 0 {
      RecordsStayWellFormed(r, paths, dist, fl, i - 1);
      assert Step(r[i - 1], dist, fl, r[i - 1 + 1]);
      StepKeeps(r[i - 1], r[i], paths, dist, fl);
    }
  }

  // ---------------------------------------------------------------- phases that leave the tables

  /** The router at its car's target has a path; the planner that reaches its search has a node as target. */
  ghost predicate OnCourse(l: Local) {
    match l
    case PlannerHasCar(t, snap, c) =>
      MapShape(snap) && NodesOk(snap, c) && (PlanStart(snap, t, c).Some? ==> 1 <= PlanTarget(t, c))
    case RouterHasCar(carId, snap, c) => c.path != [] || c.current != c.target
    case _ => true
  }

  lemma RouterPhaseIff(carId: nat, snap: MapData, c: Car)
    requires PathOk(snap, c.path) && NodesOk(snap, c)
    ensures (exists l: Local :: RouterComputes(carId, snap, c, l)) <==> c.path != [] || c.current != c.target
  {
    if RouterInRange(snap, c) {
      var l := match RouterCar(snap, c) case None => Free case Some((c', ori)) => Writes(carId, c', None);
      assert RouterComputes(carId, snap, c, l);
    }
    assert c.path != [] ==> 1 <= c.path[|c.path| - 1] <= MAX_EDGES;
  }

  lemma StartOnCopy(snap: MapData, paths: seq<Bipath>, t: Task, c: Car)
    requires Network(snap, paths) && WellFormed(snap, c) && MapShape(snap) && NodesOk(snap, c)
    ensures PlanStart(snap, t, c) != Some(0)
  {
    hide MapShape;
    var r := PlanStart(snap, t, c);
    if t.immediate == Uturn && r.Some? {
      PlanStartRoad(snap, paths, t, c);
      HasRoadNodes(snap, paths, c.last, r.value);
    }
  }

  /** find_path has a result for every pair of ends. */
  lemma SomethingIsFound(m: MapData, start: nat, target: nat, dist: (Node, Node) -> real, fl: real -> real) returns (p: seq<nat>)
    requires MapShape(m) && Binary32(fl)
    ensures Finds(m, start, target, dist, fl, p)
  {
    if InRange(m, start) && InRange(m, target) {
      p := ResultExists(Query(m, start, target, dist, fl));
    } else {
      p := [];
    }
  }

  lemma PlannerPhaseIff(t: Task, snap: MapData, c: Car, dist: (Node, Node) -> real, fl: real -> real)
    requires Binary32(fl) && MapShape(snap) && NodesOk(snap, c) && PlanStart(snap, t, c) != Some(0)
    ensures (exists l: Local :: PlannerComputes(t, snap, c, dist, fl, l)) <==> OnCourse(PlannerHasCar(t, snap, c))
  {
    hide Binary32, Finds, MapShape, NodesOk, RevNode;
    if OnCourse(PlannerHasCar(t, snap, c)) {
      if PlanStart(snap, t, c).None? {
        assert PlannerComputes(t, snap, c, dist, fl, Free);
      } else {
        var start := PlanStart(snap, t, c).value;
        PlanningMapShape(snap, c);
        var p := SomethingIsFound(PlanningMap(snap, c), start, PlanTarget(t, c), dist, fl);
        var l := if p == [] || |p| > MAX_PATHLEN then Free else PlannerWrites(c, t, start, p);
        assert PlannerComputes(t, snap, c, dist, fl, l);
      }
    }
  }

  /** A process can take its next step. */
  ghost predicate CanAdvance(s: Shared, p: nat, dist: (Node, Node) -> real, fl: real -> real) {
    exists s': Shared :: ProcessStep(s, p, dist, fl, s')
  }

  lemma Advancing(s: Shared, p: nat, dist: (Node, Node) -> real, fl: real -> real, l: Local, cars: seq<Car>)
    requires p < |s.procs| && Advances(s, s.procs[p], dist, fl, l, cars)
    ensures CanAdvance(s, p, dist, fl)
  {
    var s' := s.(procs := s.procs[p := l], cars := cars);
    assert ProcessStep(s, p, dist, fl, s');
  }

  /**
   * A handler indexes within the tables, and can go on, if and only if: the router at a car's target has a path left there, and
   * the planner that reaches its search has a target of at least 1. Copies being out of date is never a reason to fail.
   */
  lemma PhaseInRangeIff(s: Shared, paths: seq<Bipath>, p: nat, dist: (Node, Node) -> real, fl: real -> real)
    requires Inv(s, paths) && Binary32(fl) && p < |s.procs|
    ensures CanAdvance(s, p, dist, fl) <==> OnCourse(s.procs[p])
  {
    hide Network, MapShape, WellFormed, SameRoads, Binary32, CarsOk, PlannerComputes, RouterComputes;
    var l := s.procs[p];
    assert LocalOk(s.m, |s.cars|, l);
    match l
    case Free =>
      assert Starts(s, RouterHasMap(1, s.m));
      Advancing(s, p, dist, fl, RouterHasMap(1, s.m), s.cars);
    case PlannerHasMap(t, snap) =>
      Advancing(s, p, dist, fl,
                if Known(s.cars, t.carId) && Available(s.cars[t.carId - 1]) then PlannerHasCar(t, snap, s.cars[t.carId - 1]) else Free,
                s.cars);
    case PlannerHasCar(t, snap, c) => PlannerAdvancesIff(s, paths, p, dist, fl);
    case RouterHasMap(carId, snap) =>
      Advancing(s, p, dist, fl,
                if Known(s.cars, carId) && Available(s.cars[carId - 1]) then RouterHasCar(carId, snap, s.cars[carId - 1]) else Free,
                s.cars);
    case RouterHasCar(carId, snap, c) => RouterAdvancesIff(s, paths, p, dist, fl);
    case LooksUp(road, next) => Advancing(s, p, dist, fl, LookupHasMap(road, s.m, next), s.cars);
    case LookupHasMap(road, snap, next) =>
      CopyLists(s.m, paths, snap, road.last);
      Advancing(s, p, dist, fl, AfterLookup(next), s.cars);
    case Writes(carId, record, left) => Advancing(s, p, dist, fl, AfterWrite(left), s.cars[carId - 1 := record]);
  }

  lemma CopyLists(m: MapData, paths: seq<Bipath>, snap: MapData, last: nat)
    requires Network(m, paths) && SameRoads(m, snap) && 1 <= last <= MAX_NODES
    ensures LookupInRange(snap, last)
  {
    NetworkKept(m, snap, paths);
    ShapeListOk(snap, last);
  }

  lemma PlannerAdvancesIff(s: Shared, paths: seq<Bipath>, p: nat, dist: (Node, Node) -> real, fl: real -> real)
    requires Network(s.m, paths) && Binary32(fl) && p < |s.procs| && s.procs[p].PlannerHasCar? && LocalOk(s.m, |s.cars|, s.procs[p])
    ensures CanAdvance(s, p, dist, fl) <==> OnCourse(s.procs[p])
  {
    hide Network, WellFormed, SameRoads, Binary32, PlannerComputes, OnCourse;
    var l := s.procs[p];
    CopyIsRoutable(s.m, paths, l.snap, l.car);
    StartOnCopy(l.snap, paths, l.t, l.car);
    PlannerPhaseIff(l.t, l.snap, l.car, dist, fl);
    if OnCourse(l) {
      var next: Local :| PlannerComputes(l.t, l.snap, l.car, dist, fl, next);
      Advancing(s, p, dist, fl, next, s.cars);
    }
    if CanAdvance(s, p, dist, fl) {
      var s': Shared :| ProcessStep(s, p, dist, fl, s');
      assert PlannerComputes(l.t, l.snap, l.car, dist, fl, s'.procs[p]);
    }
  }

  lemma RouterAdvancesIff(s: Shared, paths: seq<Bipath>, p: nat, dist: (Node, Node) -> real, fl: real -> real)
    requires Network(s.m, paths) && p < |s.procs| && s.procs[p].RouterHasCar? && LocalOk(s.m, |s.cars|, s.procs[p])
    ensures CanAdvance(s, p, dist, fl) <==> OnCourse(s.procs[p])
  {
    hide Network, WellFormed, SameRoads, RouterComputes;
    var l := s.procs[p];
    CopyIsRoutable(s.m, paths, l.snap, l.car);
    RouterPhaseIff(l.carId, l.snap, l.car);
    if OnCourse(l) {
      var next: Local :| RouterComputes(l.carId, l.snap, l.car, next);
      Advancing(s, p, dist, fl, next, s.cars);
    }
    if CanAdvance(s, p, dist, fl) {
      var s': Shared :| ProcessStep(s, p, dist, fl, s');
      assert RouterComputes(l.carId, l.snap, l.car, s'.procs[p]);
    }
  }

  // ---------------------------------------------------------------- a handler that nobody interrupts

  /** The records of w, with a handler about to work on them. */
  predicate Alone(s: Shared, w: World) { s.m == w.m && s.cars == w.cars }

  /** Run in one go, the router's phases leave the records that its function leaves. */
  lemma RouterAlone(s: Shared, w: World, carId: nat, dist: (Node, Node) -> real, fl: real -> real,
                    l1: Local, l2: Local, l3: Local, cars3: seq<Car>)
    requires Alone(s, w) && Routable(w, carId)
    requires Advances(s, RouterHasMap(carId, s.m), dist, fl, l1, s.cars)
    requires l1 != Free ==> Advances(s, l1, dist, fl, l2, s.cars)
    requires l1 != Free && l2 != Free ==> Advances(s, l2, dist, fl, l3, cars3)
    ensures l1 == Free || l2 == Free ==> Arrived(w, carId).cars == w.cars
    ensures l1 != Free && l2 != Free ==> Arrived(w, carId).cars == cars3 && l3 == Free
  {
  }

  /** So do the planner's, for a path that its search may return; then it goes on to release its car's road. */
  lemma PlannerAlone(s: Shared, w: World, t: Task, dist: (Node, Node) -> real, fl: real -> real,
                     l1: Local, l2: Local, l3: Local, cars3: seq<Car>) returns (p: seq<nat>)
    requires Alone(s, w) && PlannerReady(w, t) && Binary32(fl)
    requires Advances(s, PlannerHasMap(t, s.m), dist, fl, l1, s.cars)
    requires l1 != Free ==> Advances(s, l1, dist, fl, l2, s.cars)
    requires l1 != Free && l2 != Free ==> Advances(s, l2, dist, fl, l3, cars3)
    ensures PlanFinds(w, t, dist, fl, p)
    ensures l1 == Free || l2 == Free ==> Planned(w, t, p).cars == w.cars
    ensures l1 != Free && l2 != Free ==> Planned(w, t, p).cars == cars3 && l3 == LooksUp(RoadOf(w.cars[t.carId - 1]), None)
  {
    hide Binary32, Finds, MapShape, RevNode, PlanningMap, Release;
    p := [];
    if l1 != Free && PlanStart(w.m, t, l1.car).Some? {
      var start := PlanStart(w.m, t, l1.car).value;
      PlanningMapShape(w.m, l1.car);
      p :| Finds(PlanningMap(w.m, l1.car), start, PlanTarget(t, l1.car), dist, fl, p) &&
        l2 == if p == [] || |p| > MAX_PATHLEN then Free else PlannerWrites(l1.car, t, start, p);
    }
  }

  /** And POSITION's. */
  lemma PositionAlone(s: Shared, w: World, carId: nat, behind: nat, ahead: nat, dist: (Node, Node) -> real, fl: real -> real,
                      l1: Local, l2: Local, l3: Local, cars3: seq<Car>)
    requires Alone(s, w) && Sane(w.m, w.paths) && ValidCarId(w, carId) && CarOf(w, carId).last <= MAX_NODES
    requires Advances(s, PositionLooksUp(carId, s.cars[carId - 1], behind, ahead), dist, fl, l1, s.cars)
    requires Advances(s, l1, dist, fl, l2, s.cars) && Advances(s, l2, dist, fl, l3, cars3)
    ensures Positioned(w, carId, behind, ahead).cars == cars3 && l3 == Free
  {
    hide MapShape, Release;
  }
}
