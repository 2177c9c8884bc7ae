/** What one event does to the records: edge statuses, the car's record, and what is sent, told without the handlers' own functions. */
module HandlerEffects {
  import opened Layout
  import opened MapInit
  import opened RoadNetwork
  import opened Geometry
  import opened AStar
  import opened Dispatch
  import opened CarRecords
  import opened RoadStatus
  import opened DispatchRuns

  // ---------------------------------------------------------------- vocabulary

  /** Edges, pair table and queues apart, the map of w' is that of w: nodes and lists are left alone. */
  predicate OnlyEdges(m: MapData, m': MapData) { m' == m.(edges := m'.edges) }

  /** The OCCUPIED directions of the road between a and b have become IDLE, and no other status has changed. */
  ghost predicate RoadReleased(m: MapData, m': MapData, a: nat, b: nat) {
    && SameRoads(m, m')
    && forall e: nat :: ValidEid(m, e) ==>
         StatusOf(m', e) == if OnRoad(m, e, a, b) && StatusOf(m, e) == Occupied then EdgeIdle else StatusOf(m, e)
  }

  lemma PairOnlyEdges(m: MapData, paths: seq<Bipath>, e: nat, st: EdgeStatus)
    requires Sane(m, paths) && 1 <= e <= MAX_EDGES
    ensures OnlyEdges(m, PairStatus(m, paths, e, st))
  {
    FindPartnerOk(paths, e);
  }

  lemma AlterOnlyEdges(w: World, carId: nat, st: EdgeStatus)
    requires Sane(w.m, w.paths) && ValidCarId(w, carId) && 1 <= CarOf(w, carId).last <= MAX_NODES
    ensures OnlyEdges(w.m, AlterEdges(w, carId, st))
  {
    var c := CarOf(w, carId);
    ShapeListOk(w.m, c.last);
    var r := RoadTo(w.m, w.m.adj[c.last - 1], c.current);
    if r.Some? { PairOnlyEdges(w.m, w.paths, r.value, st); }
  }

  lemma ReleaseOnlyEdges(m: MapData, paths: seq<Bipath>, a: nat, b: nat)
    requires Sane(m, paths) && a <= MAX_NODES
    ensures OnlyEdges(m, Release(m, paths, a, b))
  {
    if a > 0 && b > 0 {
      ShapeListOk(m, a);
      var r := OccupiedTo(m, m.adj[a - 1], b);
      if r.Some? { PairOnlyEdges(m, paths, r.value, EdgeIdle); }
    }
  }

  /** While the directions agree, release frees both. */
  lemma ReleaseIs(m: MapData, paths: seq<Bipath>, a: nat, b: nat)
    requires Network(m, paths) && Sane(m, paths) && Paired(m, |paths|) && 1 <= a < MAX_NODES && 1 <= b
    ensures RoadReleased(m, Release(m, paths, a, b), a, b)
  {
    hide MapShape, Sane;
    var m' := Release(m, paths, a, b);
    ReleaseFrees(m, paths, a, b);
    SameRoadsReflexive(m);
    forall e: nat | ValidEid(m, e)
      ensures StatusOf(m', e) == if OnRoad(m, e, a, b) && StatusOf(m, e) == Occupied then EdgeIdle else StatusOf(m, e)
    {
      if OnRoad(m, e, a, b) && m' != m && StatusOf(m, e) != Occupied { ReleasedWasOccupied(m, paths, a, b, e); }
    }
  }

  /** Something is released only from a road that is OCCUPIED both ways. */
  lemma ReleasedWasOccupied(m: MapData, paths: seq<Bipath>, a: nat, b: nat, e: nat)
    requires Network(m, paths) && Sane(m, paths) && Paired(m, |paths|) && 1 <= a < MAX_NODES && 1 <= b
    requires Release(m, paths, a, b) != m && ValidEid(m, e) && OnRoad(m, e, a, b)
    ensures StatusOf(m, e) == Occupied
  {
    hide Network, Paired, MapShape, Release;
    var f := ReleasedEdge(m, paths, a, b);
    RoadIsPair(m, paths, f, e);
    PartnerLookup(m, paths, f);
    SameBoth(m, |paths|, f);
  }

  lemma ReleasedEdge(m: MapData, paths: seq<Bipath>, a: nat, b: nat) returns (f: nat)
    requires Network(m, paths) && Sane(m, paths) && 1 <= a < MAX_NODES && 1 <= b && Release(m, paths, a, b) != m
    ensures ValidEid(m, f) && From(m, f) == a && To(m, f) == b && StatusOf(m, f) == Occupied
  {
    hide Network, MapShape, PairStatus;
    NetworkLists(m, paths, a, 0);
    ShapeListOk(m, a);
    f := OccupiedTo(m, m.adj[a - 1], b).value;
    ListedEdge(m, paths, a, f);
  }

  // ---------------------------------------------------------------- OBSTACLE, REPAIRED, POSITION

  /**
   * OBSTACLE: the car's road is FAULT_TEMP or FAULT_REPAIR both ways and every other status is kept. A passing obstacle makes the car
   * wait and sends nothing; any other leaves its record and queues one replan, across the junction mark with UTURN_NO_CROSS.
   */
  lemma ObstacleDoes(w: World, carId: nat, temporary: bool, passTh: bool, dist: (Node, Node) -> real, fl: real -> real, w': World)
    requires RoadsOk(w) && Step(w, ObstacleEvent(carId, temporary, passTh), dist, fl, w')
    ensures var c := w.cars[carId - 1];
            && HasRoad(w.m, c.last, c.current) && HasRoad(w.m, c.current, c.last)
            && RoadSet(w.m, w'.m, c.last, c.current, if temporary then FaultTemp else FaultRepair) && OnlyEdges(w.m, w'.m)
            && w'.cars == (if temporary then w.cars[carId - 1 := c.(status := Wait)] else w.cars)
            && w'.tasks == w.tasks + (if temporary then [] else [Task(Replan, carId, 0, if passTh then UturnNoCross else Uturn)])
            && w'.published == w.published && w'.paths == w.paths
  {
    hide Network, FleetOk, MapShape, HasRoad, RoadSet, AlterEdges, OnlyEdges;
    var c, st := CarOf(w, carId), if temporary then FaultTemp else FaultRepair;
    CarFacts(w, carId);
    HasRoadNodes(w.m, w.paths, c.last, c.current);
    AlterSetsRoad(w, carId, FaultTemp);
    AlterSetsRoad(w, carId, FaultRepair);
    AlterOnlyEdges(w, carId, FaultTemp);
    AlterOnlyEdges(w, carId, FaultRepair);
  }

  /** REPAIRED: the car's road is IDLE both ways, and the car moves. */
  lemma RepairedDoes(w: World, carId: nat, dist: (Node, Node) -> real, fl: real -> real, w': World)
    requires RoadsOk(w) && Step(w, RepairedEvent(carId), dist, fl, w')
    ensures var c := w.cars[carId - 1];
            && RoadSet(w.m, w'.m, c.last, c.current, EdgeIdle) && OnlyEdges(w.m, w'.m)
            && w' == w.(m := w'.m, cars := w.cars[carId - 1 := c.(status := Moving)])
  {
    hide Network, FleetOk, MapShape, HasRoad, RoadSet, AlterEdges, OnlyEdges;
    CarFacts(w, carId);
    AlterSetsRoad(w, carId, EdgeIdle);
    AlterOnlyEdges(w, carId, EdgeIdle);
  }

  /** POSITION: the road that the car held is free, and the car stands, without task or path, where it says. */
  lemma PositionDoes(w: World, carId: nat, behind: nat, ahead: nat, dist: (Node, Node) -> real, fl: real -> real, w': World)
    requires Safe(w) && Step(w, PositionEvent(carId, behind, ahead), dist, fl, w')
    ensures var c := w.cars[carId - 1];
            && RoadReleased(w.m, w'.m, c.last, c.current) && OnlyEdges(w.m, w'.m)
            && w' == w.(m := w'.m, cars := w.cars[carId - 1 := Car(c.id, CarIdle, ahead, 0, c.target, behind, c.lastStart, [])])
  {
    hide Network, FleetOk, Paired, Occupancy, MapShape, HasRoad, RoadReleased, Release, OnlyEdges;
    CarFacts(w, carId);
    ReleaseIs(w.m, w.paths, CarOf(w, carId).last, CarOf(w, carId).current);
    ReleaseOnlyEdges(w.m, w.paths, CarOf(w, carId).last, CarOf(w, carId).current);
  }

  // ---------------------------------------------------------------- ARRIVE

  /** An ARRIVE at the target: the road driven last is OCCUPIED both ways, the car is parked, and it is told that it has arrived. */
  lemma ArrivalDoes(w: World, carId: nat, dist: (Node, Node) -> real, fl: real -> real, w': World)
    requires RoadsOk(w) && Step(w, ArriveEvent(carId), dist, fl, w') && 1 <= carId <= |w.cars|
    requires var c := w.cars[carId - 1]; c.status != CarFault && c.status != Offline && c.current == c.target
    ensures var c := w.cars[carId - 1];
            && RoadSet(w.m, w'.m, c.last, c.current, Occupied) && OnlyEdges(w.m, w'.m)
            && w'.cars == w.cars[carId - 1 := Car(c.id, CarIdle, c.current, 0, c.target, c.last, c.current, [])]
            && w'.published == w.published + [Orient(carId, HasArrived)] && w'.tasks == w.tasks && w'.paths == w.paths
  {
    hide Network, FleetOk, MapShape, RoadSet, OnlyEdges, PairStatus;
    CarFacts(w, carId);
    ArrivalOccupies(w, carId);
    ArrivedAtTarget(w, carId);
    PairOnlyEdges(w.m, w.paths, CarOf(w, carId).path[|CarOf(w, carId).path| - 1], Occupied);
  }

  /**
   * An ARRIVE on the way: the car has come one edge further along its path, over the edge of the path that leaves the node it was
   * heading for, and gets the order for the three nodes. Nothing else changes.
   */
  lemma PassingDoes(w: World, carId: nat, dist: (Node, Node) -> real, fl: real -> real, w': World) returns (k: nat)
    requires RoadsOk(w) && Step(w, ArriveEvent(carId), dist, fl, w') && 1 <= carId <= |w.cars|
    requires var c := w.cars[carId - 1]; c.status != CarFault && c.status != Offline && c.current != c.target && c.path != []
    ensures var c := w.cars[carId - 1];
            && k < |c.path| && ValidEid(w.m, c.path[k]) && From(w.m, c.path[k]) == c.current
            && 1 <= c.last <= |w.m.nodes| && 1 <= c.current <= |w.m.nodes| && 1 <= To(w.m, c.path[k]) <= |w.m.nodes|
            && w'.cars == w.cars[carId - 1 := c.(last := c.current, current := To(w.m, c.path[k]))]
            && w'.published == w.published +
                 [Orient(carId, GenerateTurn(At(w.m, c.last), At(w.m, c.current), At(w.m, To(w.m, c.path[k]))))]
            && w'.m == w.m && w'.tasks == w.tasks && w'.paths == w.paths
  {
    hide Network, FleetOk, MapShape, Arrived, RouterInRange;
    var c := CarOf(w, carId);
    CarFacts(w, carId);
    var j: nat :| HeadsFor(w.m, c, j);
    RouterFollowsPath(w.m, c, j);
    k := j;
    assert From(w.m, c.path[j]) == NodesOf(w.m, c.path)[j] && NodesOf(w.m, c.path)[j + 1] == To(w.m, c.path[j]);
    ArrivedUnderway(w, carId);
    ArriveSendsOnly(w, carId);
  }

  lemma ArriveSendsOnly(w: World, carId: nat)
    requires Routable(w, carId)
    ensures Arrived(w, carId).tasks == w.tasks && Arrived(w, carId).paths == w.paths
  {
  }

  /** An ARRIVE of an unknown car, of one in FAULT or OFFLINE, or of one on its way without a path does nothing. */
  lemma IdleArriveDoes(w: World, carId: nat, dist: (Node, Node) -> real, fl: real -> real, w': World)
    requires RoadsOk(w) && Step(w, ArriveEvent(carId), dist, fl, w')
    requires carId == 0 || carId > |w.cars| ||
             (var c := w.cars[carId - 1]; c.status == CarFault || c.status == Offline || (c.current != c.target && c.path == []))
    ensures w' == w
  {
  }

  // ---------------------------------------------------------------- the planner's ends and copy

  /**
   * Edge e, below the edge count and IDLE, leads from a straight back to v, seen from a car that has driven from a to b, and v is
   * not b.
   */
  ghost predicate RoadBack(m: MapData, e: nat, a: nat, b: nat, v: nat) {
    && ValidEid(m, e) && e < m.edgeCount && From(m, e) == a && To(m, e) == v && v != b && StatusOf(m, e) == EdgeIdle
    && 1 <= a <= |m.nodes| && 1 <= b <= |m.nodes| && 1 <= v <= |m.nodes| && StraightBack(At(m, a), At(m, b), At(m, v))
  }

  lemma ListedEnds(m: MapData, paths: seq<Bipath>, n: nat, e: nat)
    requires Network(m, paths) && 1 <= n <= MAX_NODES && e in m.adj[n - 1]
    ensures ValidEid(m, e) && From(m, e) == n && 1 <= To(m, e) <= |m.nodes| && m.nodes[To(m, e) - 1].id == To(m, e)
  {
    assert Listed(m, n, e);
    assert SoundEdge(m, e);
  }

  lemma TurnsBackIff(m: MapData, paths: seq<Bipath>, e: nat, a: nat, b: nat)
    requires Network(m, paths) && MapShape(m) && 1 <= a <= MAX_NODES && 1 <= b <= MAX_NODES && e in m.adj[a - 1]
    ensures 1 <= e <= MAX_EDGES && 1 <= m.edges[e - 1].toNode <= MAX_NODES
    ensures TurnsBack(m, e, a, b) <==> RoadBack(m, e, a, b, m.edges[e - 1].toNode)
  {
    ListedEnds(m, paths, a, e);
    JudRevIsStraightBack(At(m, a), At(m, b), At(m, m.edges[e - 1].toNode));
  }

  /** Edge e is a road back to its far end. */
  ghost predicate ServesBack(m: MapData, e: nat, a: nat, b: nat) { 1 <= e <= |m.edges| && RoadBack(m, e, a, b, m.edges[e - 1].toNode) }

  ghost predicate NoneServes(m: MapData, ids: seq<nat>, a: nat, b: nat) { forall e :: e in ids ==> !ServesBack(m, e, a, b) }

  ghost predicate HasRoadBack(m: MapData, a: nat, b: nat, v: nat) { exists e: nat :: RoadBack(m, e, a, b, v) }

  /** One round of the kUturn loop. */
  lemma RevNodeStep(m: MapData, paths: seq<Bipath>, a: nat, b: nat, i: nat, found: Option<nat>) returns (next: Option<nat>)
    requires Network(m, paths) && MapShape(m) && 1 <= a <= MAX_NODES && 1 <= b <= MAX_NODES && i < |m.adj[a - 1]|
    ensures RevNode(m, a, b, i, found) == RevNode(m, a, b, i + 1, next)
    ensures next == found || (next.Some? && HasRoadBack(m, a, b, next.value))
    ensures ServesBack(m, m.adj[a - 1][i], a, b) ==> next.Some?
  {
    hide Network, RoadBack, TurnsBack;
    var e := m.adj[a - 1][i];
    TurnsBackIff(m, paths, e, a, b);
    ListedEnds(m, paths, a, e);
    next := if TurnsBack(m, e, a, b) then Some(m.nodes[m.edges[e - 1].toNode - 1].id) else found;
  }

  /** The kUturn loop: what it finds is the far end of a road back, and it finds nothing only if there is none. */
  lemma {:induction false} RevNodeIs(m: MapData, paths: seq<Bipath>, a: nat, b: nat, i: nat, found: Option<nat>)
    requires Network(m, paths) && MapShape(m) && 1 <= a <= MAX_NODES && 1 <= b <= MAX_NODES && i <= |m.adj[a - 1]|
    requires found.Some? ==> HasRoadBack(m, a, b, found.value)
    ensures var r := RevNode(m, a, b, i, found);
            (r.Some? ==> HasRoadBack(m, a, b, r.value)) && (r.None? ==> found.None? && NoneServes(m, m.adj[a - 1][i..], a, b))
    decreases |m.adj[a - 1]| - i
  {
    hide Network, ServesBack, HasRoadBack, TurnsBack;
    var ids := m.adj[a - 1];
    if i < |ids| {
      var next := RevNodeStep(m, paths, a, b, i, found);
      RevNodeIs(m, paths, a, b, i + 1, next);
      assert ids[i..] == [ids[i]] + ids[i + 1..];
    }
  }

  /** A U-turn plan starts at the far end of a road back, and is refused exactly if there is none. */
  lemma UturnStart(m: MapData, paths: seq<Bipath>, t: Task, c: Car)
    requires Network(m, paths) && MapShape(m) && NodesOk(m, c) && t.immediate == Uturn
    ensures PlanStart(m, t, c).Some? ==> HasRoadBack(m, c.last, c.current, PlanStart(m, t, c).value)
    ensures PlanStart(m, t, c).None? ==> forall e: nat, v: nat :: !RoadBack(m, e, c.last, c.current, v)
  {
    hide MapShape, RevNode;
    RevNodeIs(m, paths, c.last, c.current, 0, None);
    forall e: nat, v: nat | RoadBack(m, e, c.last, c.current, v) ensures PlanStart(m, t, c).Some? {
      assert Listed(m, c.last, e);
      assert ServesBack(m, e, c.last, c.current);
    }
  }

  /** The planner's copy: an OCCUPIED edge of the car's own road counts as free. The highest edge id is overlooked, and then its reverse too. */
  ghost predicate OwnRoadFree(m: MapData, copy: MapData, out: nat, back: nat) {
    && OnlyEdges(m, copy) && SameRoads(m, copy) && ValidEid(m, out) && ValidEid(m, back)
    && forall e: nat :: ValidEid(m, e) ==>
         StatusOf(copy, e) ==
           if StatusOf(m, e) == Occupied && StatusOf(m, out) == Occupied && out < m.edgeCount && (e == out || (e == back && e < m.edgeCount))
           then EdgeIdle else StatusOf(m, e)
  }

  /** Below the edge count the guarded search finds the OCCUPIED edge from a to b, and nothing else. */
  lemma FindsOccupied(m: MapData, paths: seq<Bipath>, a: nat, b: nat, e: nat)
    requires Network(m, paths) && MapShape(m) && 1 <= a <= MAX_NODES && ValidEid(m, e) && From(m, e) == a && To(m, e) == b
    ensures OccupiedTo(m, AdmittedOut(m, a), b) == if StatusOf(m, e) == Occupied && e < m.edgeCount then Some(e) else None
  {
    hide MapShape;
    assert Listed(m, a, e);
    var ids := AdmittedOut(m, a);
    var r := OccupiedTo(m, ids, b);
    assert AdmittedOut(m, a) == Below(m.adj[a - 1], m.edgeCount);
    if r.Some? {
      assert Listed(m, a, r.value);
      assert SameEnds(m, r.value, e);
    }
  }

  lemma LiftedIs(m: MapData, ids: seq<nat>, a: nat, back: seq<nat>, b: nat, e: nat, f: nat, here: bool, there: bool)
    requires ListOk(m, ids) && ListOk(m, back) && 1 <= e <= |m.edges| && 1 <= f <= |m.edges| && e != f
    requires OccupiedTo(m, ids, b) == if here then Some(e) else None
    requires ListOk(WithStatus(m, e, EdgeIdle), back)
    requires OccupiedTo(WithStatus(m, e, EdgeIdle), back, a) == if there then Some(f) else None
    ensures var r := LiftedMap(m, ids, b, back, a);
            && OnlyEdges(m, r) && |r.edges| == |m.edges|
            && forall i :: 0 <= i < |m.edges| ==>
                 r.edges[i].status == if here && (i + 1 == e || (i + 1 == f && there)) then EdgeIdle else m.edges[i].status
  {
    hide OccupiedTo;
  }

  lemma CopyFrees(m: MapData, paths: seq<Bipath>, c: Car, out: nat, back: nat)
    requires Network(m, paths) && MapShape(m) && NodesOk(m, c) && Reverses(m, out, back) && From(m, out) == c.last && To(m, out) == c.current
    ensures OwnRoadFree(m, PlanningMap(m, c), out, back)
  {
    hide Network, MapShape, AdmittedOut, OccupiedTo, SameRoads, WithStatus, LiftedMap;
    PlanningMapShape(m, c);
    FindsOccupied(m, paths, c.last, c.current, out);
    var m1 := WithStatus(m, out, EdgeIdle);
    WithStatusKeeps(m, out, EdgeIdle);
    AfterWith(m, out, back, EdgeIdle);
    SameOut(m, m1, c.current);
    NetworkKept(m, m1, paths);
    FindsOccupied(m1, paths, c.current, c.last, back);
    DifferentEnds(m, paths, out);
    LiftedIs(m, AdmittedOut(m, c.last), c.last, AdmittedOut(m, c.current), c.current, out, back,
             StatusOf(m, out) == Occupied && out < m.edgeCount, StatusOf(m, back) == Occupied && back < m.edgeCount);
  }

  lemma AfterWith(m: MapData, e: nat, f: nat, st: EdgeStatus)
    requires ValidEid(m, e) && ValidEid(m, f)
    ensures var m1 := WithStatus(m, e, st);
            && m1.adj == m.adj && m1.edgeCount == m.edgeCount && |m1.edges| == |m.edges| && ValidEid(m1, f)
            && From(m1, f) == From(m, f) && To(m1, f) == To(m, f) && (f != e ==> StatusOf(m1, f) == StatusOf(m, f))
  {
  }

  lemma DifferentEnds(m: MapData, paths: seq<Bipath>, e: nat)
    requires Network(m, paths) && ValidEid(m, e)
    ensures From(m, e) != To(m, e)
  {
    assert SoundEdge(m, e);
  }

  lemma SameOut(m: MapData, m1: MapData, n: nat)
    requires MapShape(m) && MapShape(m1) && m1.adj == m.adj && m1.edgeCount == m.edgeCount && 1 <= n <= MAX_NODES
    ensures AdmittedOut(m1, n) == AdmittedOut(m, n)
  {
  }

  // ---------------------------------------------------------------- plans

  /** The message is for a known car in service, and for kUturn there is a road back. */
  ghost predicate Startable(w: World, t: Task) {
    && 1 <= t.carId <= |w.cars|
    && var c := w.cars[t.carId - 1];
       c.status != CarFault && c.status != Offline && (t.immediate == Uturn ==> exists v: nat :: HasRoadBack(w.m, c.last, c.current, v))
  }

  lemma PlannableIff(w: World, t: Task)
    requires RoadsOk(w) && PlannerReady(w, t)
    ensures Plannable(w, t) <==> Startable(w, t)
  {
    hide Network, FleetOk, MapShape, RevNode, RoadBack;
    if ValidCarId(w, t.carId) {
      CarFacts(w, t.carId);
      if t.immediate == Uturn { UturnStart(w.m, w.paths, t, CarOf(w, t.carId)); }
    }
  }

  /** Target by action; ends by mode: on as before, turned round on its road, or off along a road back. */
  ghost predicate Redirected(m: MapData, t: Task, c: Car, c': Car) {
    && c'.target == (if t.action == Assign then t.target else if t.action == Replan then c.target else c.lastStart)
    && (t.immediate == AfterSegment || t.immediate == Immediately ==> c'.last == c.last && c'.current == c.current)
    && (t.immediate == UturnNoCross ==> c'.last == c.current && c'.current == c.last)
    && (t.immediate == Uturn ==> c'.last == c.last && HasRoadBack(m, c.last, c.current, c'.current))
  }

  lemma StartIs(w: World, t: Task, p: seq<nat>)
    requires RoadsOk(w) && PlannerReady(w, t) && Plannable(w, t)
    ensures var c := CarOf(w, t.carId); Redirected(w.m, t, c, AcceptedCar(c, t, PlanStart(w.m, t, c).value, PlanTarget(t, c), p))
  {
    hide Network, FleetOk, MapShape, RevNode, HasRoadBack;
    CarFacts(w, t.carId);
    if t.immediate == Uturn { UturnStart(w.m, w.paths, t, CarOf(w, t.carId)); }
  }

  /** What is sent with a plan of k edges: CNT, and for the modes that act at once the action. */
  predicate Announces(sent: seq<Publish>, t: Task, k: nat) {
    && |sent| >= 1 && sent[0] == Cnt(t.carId, k)
    && (t.immediate == AfterSegment ==> |sent| == 1)
    && (t.immediate == Immediately ==> |sent| == 2 && sent[1] == Action(t.carId, Process))
    && (t.immediate == Uturn || t.immediate == UturnNoCross ==> |sent| == 2 && sent[1] == Action(t.carId, UturnNow))
  }

  /**
   * An accepted plan: the record gets the path, its ends and the status MOVING and keeps everything else; the road that the car held
   * is free; the plan is announced, and nothing is queued.
   */
  lemma AcceptDoes(w: World, t: Task, p: seq<nat>, dist: (Node, Node) -> real, fl: real -> real, w': World) returns (sent: seq<Publish>)
    requires Safe(w) && Step(w, PlanEvent(t, p), dist, fl, w') && Startable(w, t) && p != []
    ensures |w'.cars| == |w.cars|
    ensures var c, c' := w.cars[t.carId - 1], w'.cars[t.carId - 1];
            && Redirected(w.m, t, c, c') && c' == Car(c.id, Moving, c'.current, c.task, c'.target, c'.last, c.lastStart, p)
            && SimpleChain(w.m, p) && From(w.m, p[0]) == c'.current && To(w.m, p[|p| - 1]) == c'.target
            && w'.cars == w.cars[t.carId - 1 := c'] && RoadReleased(w.m, w'.m, c.last, c.current) && OnlyEdges(w.m, w'.m)
    ensures w'.published == w.published + sent && Announces(sent, t, |p|) && w'.tasks == w.tasks && w'.paths == w.paths
  {
    hide Network, FleetOk, Paired, Occupancy, MapShape, RoadReleased, Release, OnlyEdges, PlanFinds, HasRoadBack, PlanStart, Planned, Startable;
    PlannableIff(w, t);
    var c := CarOf(w, t.carId);
    CarFacts(w, t.carId);
    AcceptedRecord(w, t, dist, fl, p);
    StartIs(w, t, p);
    PlannedCases(w, t, p);
    ReleaseIs(w.m, w.paths, c.last, c.current);
    ReleaseOnlyEdges(w.m, w.paths, c.last, c.current);
    FreshLeads(w'.m, w.m, w'.cars[t.carId - 1]);
    sent := AnnouncementIs(w, t, p);
  }

  lemma FreshLeads(m': MapData, m: MapData, c: Car)
    requires FreshPlan(m, c)
    ensures SimpleChain(m, c.path) && From(m, c.path[0]) == c.current && To(m, c.path[|c.path| - 1]) == c.target
  {
    assert NodesOf(m, c.path)[0] == From(m, c.path[0]);
  }

  lemma AnnouncementIs(w: World, t: Task, p: seq<nat>) returns (sent: seq<Publish>)
    requires PlannerReady(w, t) && Plannable(w, t) && p != [] && |p| <= MAX_PATHLEN
    ensures Planned(w, t, p).published == w.published + sent && Announces(sent, t, |p|) && Planned(w, t, p).tasks == w.tasks
  {
    hide MapShape, Release, PlanStart;
    sent := Announcement(t, |p|);
  }

  /** A refused plan: a cancel pauses the car, a replan becomes a cancel in the same mode, an assignment is dropped. */
  lemma RefuseDoes(w: World, t: Task, p: seq<nat>, dist: (Node, Node) -> real, fl: real -> real, w': World)
    requires RoadsOk(w) && Step(w, PlanEvent(t, p), dist, fl, w') && Startable(w, t) && p == []
    ensures w' == w.(published := w.published + if t.action == Cancel then [Action(t.carId, Pause)] else [],
                     tasks := w.tasks + if t.action == Replan then [Task(Cancel, t.carId, 0, t.immediate)] else [])
  {
    hide Network, FleetOk, MapShape, PlanStart, PlanFinds, Startable;
    PlannableIff(w, t);
  }

  /** A plan for an unknown car, for one out of service, or without a road back is dropped. */
  lemma NoPlanDoes(w: World, t: Task, p: seq<nat>, dist: (Node, Node) -> real, fl: real -> real, w': World)
    requires RoadsOk(w) && Step(w, PlanEvent(t, p), dist, fl, w') && !Startable(w, t)
    ensures w' == w
  {
    hide Network, FleetOk, MapShape, PlanStart, PlanFinds, Startable;
    PlannableIff(w, t);
  }

  // ---------------------------------------------------------------- topology API

  /** Positions of cars, in increasing order. */
  predicate Increasing(at: seq<nat>) { forall i, j :: 0 <= i < j < |at| ==> at[i] < at[j] }

  /** After ban, access and repair every MOVING or WAITing car, and no other, is replanned once, after its segment, in the order of the table. */
  lemma {:induction false} ReplansAre(cars: seq<Car>) returns (at: seq<nat>)
    ensures Increasing(at) && |Replans(cars)| == |at|
    ensures forall i :: 0 <= i < |at| ==> at[i] < |cars| && Replans(cars)[i] == Task(Replan, cars[at[i]].id, 0, AfterSegment)
    ensures forall k: nat :: k < |cars| ==> (k in at <==> cars[k].status == Moving || cars[k].status == Wait)
    decreases |cars|
  {
    if cars == [] {
      at := [];
    } else {
      var n := |cars| - 1;
      at := ReplansAre(cars[..n]);
      var before := at;
      if cars[n].status == Moving || cars[n].status == Wait { at := at + [n]; }
      forall k: nat | k < |cars| ensures k in at <==> cars[k].status == Moving || cars[k].status == Wait {
        if k < n { assert cars[..n][k] == cars[k]; }
      }
    }
  }

  /** The listed edges, and only they, have the status in m'. */
  ghost predicate ListSet(m: MapData, m': MapData, eids: seq<nat>, st: EdgeStatus) {
    SameRoads(m, m') && forall e: nat :: ValidEid(m, e) ==> StatusOf(m', e) == if e in eids then st else StatusOf(m, e)
  }

  /** The list, with the other direction after every forward id. */
  function WithReverses(half: nat, eids: seq<nat>): seq<nat> {
    if eids == [] then [] else (if 1 <= eids[0] <= half then [eids[0], eids[0] + half] else [eids[0]]) + WithReverses(half, eids[1..])
  }

  /** A whole request: every edge that the list reaches has the status, all others keep theirs, and the cars are replanned. */
  lemma ApiDoes(w: World, ev: Event, dist: (Node, Node) -> real, fl: real -> real, w': World)
    requires RoadsOk(w) && Step(w, ev, dist, fl, w') && (ev.BanEvent? || ev.AccessEvent? || ev.RepairEvent?)
    ensures ev.RepairEvent? ==> ListSet(w.m, w'.m, ev.eids, FaultRepair)
    ensures ev.BanEvent? ==> ListSet(w.m, w'.m, WithReverses(|w.paths|, ev.eids), Blocked)
    ensures ev.AccessEvent? ==> ListSet(w.m, w'.m, WithReverses(|w.paths|, ev.eids), EdgeIdle)
    ensures w' == w.(m := w'.m, tasks := w.tasks + Replans(w.cars))
  {
    hide Network, FleetOk, MapShape, SameRoads, Replans;
    NetworkTables(w.m, w.paths);
    ApiSetsAll(w, ev.eids, Blocked);
    ApiSetsAll(w, ev.eids, EdgeIdle);
    RepairSetsAll(w, ev.eids);
    match ev
    case RepairEvent(eids) =>
    case BanEvent(eids) => ReversesReached(w.m, w'.m, |w.paths|, eids, Blocked);
    case AccessEvent(eids) => ReversesReached(w.m, w'.m, |w.paths|, eids, EdgeIdle);
  }

  lemma ReversesReached(m: MapData, m': MapData, half: nat, eids: seq<nat>, st: EdgeStatus)
    requires ApiEffect(m, m', half, eids, st)
    ensures ListSet(m, m', WithReverses(half, eids), st)
  {
    forall e: nat | ValidEid(m, e) ensures StatusOf(m', e) == if e in WithReverses(half, eids) then st else StatusOf(m, e) {
      WithReversesAre(half, eids, e);
    }
  }

  lemma {:induction false} WithReversesAre(half: nat, eids: seq<nat>, e: nat)
    requires 1 <= e <= 2 * half
    ensures e in WithReverses(half, eids) <==> e in eids || (e > half && e - half in eids)
    decreases |eids|
  {
    if eids != [] {
      WithReversesAre(half, eids[1..], e);
      assert eids == [eids[0]] + eids[1..];
    }
  }

  /** A node request sets the status of its one node. */
  lemma NodeDoes(w: World, idx: nat, st: NodeStatus, dist: (Node, Node) -> real, fl: real -> real, w': World)
    requires RoadsOk(w) && Step(w, NodeEvent(idx, st), dist, fl, w')
    ensures |w'.m.nodes| == |w.m.nodes| && w' == w.(m := w.m.(nodes := w'.m.nodes))
    ensures forall i :: 0 <= i < |w.m.nodes| ==> w'.m.nodes[i] == if i == idx then w.m.nodes[i].(status := st) else w.m.nodes[i]
  {
  }

  predicate HasStatus(m: MapData, e: nat, st: EdgeStatus) { ValidEid(m, e) && StatusOf(m, e) == st }

  /** A reset gives every road and every node the status of the table, and leaves cars and queues alone. */
  lemma ResetDoes(w: World, nodes: seq<Node>, roads: seq<Road>, dist: (Node, Node) -> real, fl: real -> real, w': World)
    requires RoadsOk(w) && Step(w, ResetEvent(nodes, roads), dist, fl, w')
    ensures SameRoads(w.m, w'.m) && w'.m.edgeCount == 2 * |roads| && |nodes| <= |w'.m.nodes|
    ensures forall k :: 0 <= k < |roads| ==> HasStatus(w'.m, k + 1, roads[k].status) && HasStatus(w'.m, k + 1 + |roads|, roads[k].status)
    ensures forall i :: 0 <= i < |nodes| ==> w'.m.nodes[i].status == nodes[i].status
    ensures w' == w.(m := w'.m)
  {
    hide Network, FleetOk, SameRoads, FromTable, OnRoad, Edges, FromOk;
    TableIsSound(w.m, w.paths, nodes, roads);
    ResetKeepsRoads(w.m, w.paths, nodes, roads);
    TablePaths(w.m, w.paths, nodes, roads);
    ResetSizes(w.m, w'.m, nodes, roads);
    forall k | 0 <= k < |roads| ensures HasStatus(w'.m, k + 1, roads[k].status) && HasStatus(w'.m, k + 1 + |roads|, roads[k].status) {
      ResetStatus(w.m, w'.m, nodes, roads, k + 1);
      ResetStatus(w.m, w'.m, nodes, roads, k + 1 + |roads|);
    }
  }
}
