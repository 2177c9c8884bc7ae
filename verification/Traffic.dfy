/**
 * What find_path may drive on, told from the records alone: which edges and nodes it takes, what they cost, and what that means
 * for roads that are blocked, occupied or under repair.
 */
module Traffic {
  import opened Layout
  import opened MapInit
  import opened RoadNetwork
  import opened AStar
  import opened AStarTheorems
  import opened AStarOptimal
  import opened Heuristic
  import opened FindPathMethod
  import opened Dispatch
  import opened CarRecords
  import opened RoadStatus
  import opened DispatchRuns
  import opened HandlerEffects

  // ---------------------------------------------------------------- drives over the records

  /** Edge e, listed at node u, leads to v, and nothing forbids to drive it. */
  predicate Passable(m: MapData, u: nat, e: nat, v: nat) {
    && 1 <= u <= m.nodeCount <= |m.nodes| && u < MAX_NODES && u <= |m.adj| && e in m.adj[u - 1]
    && 1 <= e < m.edgeCount <= |m.edges| && e < MAX_EDGES
    && (if m.edges[e - 1].fromNode == u then v == m.edges[e - 1].toNode else v == m.edges[e - 1].fromNode)
    && 1 <= v <= m.nodeCount && v < MAX_NODES
    && (m.edges[e - 1].status == EdgeIdle || m.edges[e - 1].status == FaultTemp)
    && (m.nodes[v - 1].status == NodeIdle || m.nodes[v - 1].status == NodeOccupied)
  }

  /** The edges p lead through the nodes ns. */
  predicate Drives(m: MapData, ns: seq<nat>, p: seq<nat>) {
    |ns| == |p| + 1 && forall i :: 0 <= i < |p| ==> Passable(m, ns[i], p[i], ns[i + 1])
  }

  lemma DrivesOn(m: MapData, ns: seq<nat>, p: seq<nat>)
    requires Drives(m, ns, p) && p != []
    ensures |ns| == |p| + 1 && Passable(m, ns[0], p[0], ns[1]) && Drives(m, ns[1..], p[1..])
  {
    assert Passable(m, ns[0], p[0], ns[0 + 1]);
    forall i | 0 <= i < |p[1..]| ensures Passable(m, ns[1..][i], p[1..][i], ns[1..][i + 1]) {
      assert Passable(m, ns[i + 1], p[i + 1], ns[i + 1 + 1]);
    }
  }

  /** A drive from u to v. */
  predicate Leads(m: MapData, u: nat, ns: seq<nat>, p: seq<nat>, v: nat) { Drives(m, ns, p) && ns[0] == u && ns[|p|] == v }

  /** Weights, and 100 for every temporary fault driven through and every occupied node entered. */
  function Toll(m: MapData, ns: seq<nat>, p: seq<nat>): nat
    requires Drives(m, ns, p)
    decreases |p|
  {
    if p == [] then 0
    else
      DrivesOn(m, ns, p);
      m.edges[p[0] - 1].weight
      + (if m.edges[p[0] - 1].status == FaultTemp || m.nodes[ns[1] - 1].status == NodeOccupied then 100 else 0)
      + Toll(m, ns[1..], p[1..])
  }

  /** The loop tries exactly the passable edges. */
  lemma StepIffPassable(m: MapData, u: nat, e: nat, v: nat)
    requires MapShape(m)
    ensures CanStep(m, u, e, v) <==> Passable(m, u, e, v)
  {
    if 1 <= u <= MAX_NODES && e in m.adj[u - 1] {
      var j :| 0 <= j < |m.adj[u - 1]| && m.adj[u - 1][j] == e;
    }
  }

  lemma StepToll(m: MapData, u: nat, e: nat, v: nat)
    requires MapShape(m) && CanStep(m, u, e, v)
    ensures Passable(m, u, e, v)
    ensures StepCost(m, e, v) ==
            m.edges[e - 1].weight + if m.edges[e - 1].status == FaultTemp || m.nodes[v - 1].status == NodeOccupied then 100 else 0
  {
    StepIffPassable(m, u, e, v);
  }

  /** A route is a drive through its nodes, and costs its toll. */
  lemma {:induction false} RouteDrives(m: MapData, u: nat, p: seq<nat>, v: nat)
    requires MapShape(m) && IsRoute(m, u, p, v)
    ensures var ns := RouteNodes(m, u, p, v);
            Leads(m, u, ns, p, v) && Toll(m, ns, p) == RouteCost(m, u, p, v)
    decreases |p|
  {
    if p != [] {
      hide MapShape, Drives, Passable, CanStep, StepCost;
      var w := Next(m.edges[p[0] - 1], u);
      StepToll(m, u, p[0], w);
      RouteDrives(m, w, p[1..], v);
      assert [p[0]] + p[1..] == p;
      ConsDrives(m, u, p[0], RouteNodes(m, w, p[1..], v), p[1..]);
    } else {
      assert Drives(m, [u], []);
    }
  }

  lemma ConsDrives(m: MapData, u: nat, e: nat, ns: seq<nat>, p: seq<nat>)
    requires Drives(m, ns, p) && Passable(m, u, e, ns[0])
    ensures Drives(m, [u] + ns, [e] + p)
    ensures Toll(m, [u] + ns, [e] + p) ==
            m.edges[e - 1].weight + (if m.edges[e - 1].status == FaultTemp || m.nodes[ns[0] - 1].status == NodeOccupied then 100 else 0)
            + Toll(m, ns, p)
  {
    var ns', p' := [u] + ns, [e] + p;
    forall i | 0 <= i < |p'| ensures Passable(m, ns'[i], p'[i], ns'[i + 1]) {
      if i > 0 { assert Passable(m, ns[i - 1], p[i - 1], ns[i - 1 + 1]); }
    }
    assert ns'[1..] == ns && p'[1..] == p;
  }

  /** Every drive is a route. */
  lemma {:induction false} DriveIsRoute(m: MapData, u: nat, ns: seq<nat>, p: seq<nat>, v: nat)
    requires MapShape(m) && Leads(m, u, ns, p, v)
    ensures IsRoute(m, u, p, v) && RouteNodes(m, u, p, v) == ns && RouteCost(m, u, p, v) == Toll(m, ns, p)
    decreases |p|
  {
    hide MapShape, Drives, CanStep, Passable;
    if p == [] {
      OneNode(m, ns);
    } else {
      DrivesOn(m, ns, p);
      StepIffPassable(m, u, p[0], ns[1]);
      StepToll(m, u, p[0], ns[1]);
      StepLeads(m, u, p[0], ns[1]);
      TailLeads(m, u, ns, p, v);
      DriveIsRoute(m, ns[1], ns[1..], p[1..], v);
    }
  }

  lemma OneNode(m: MapData, ns: seq<nat>)
    requires Drives(m, ns, [])
    ensures ns == [ns[0]]
  {
  }

  lemma StepLeads(m: MapData, u: nat, e: nat, v: nat)
    requires MapShape(m) && CanStep(m, u, e, v)
    ensures 1 <= e <= |m.edges| && e <= MAX_EDGES && Next(m.edges[e - 1], u) == v
  {
    StepIffPassable(m, u, e, v);
  }

  lemma TailLeads(m: MapData, u: nat, ns: seq<nat>, p: seq<nat>, v: nat)
    requires Leads(m, u, ns, p, v) && p != []
    ensures Leads(m, ns[1], ns[1..], p[1..], v)
  {
    DrivesOn(m, ns, p);
  }

  // ---------------------------------------------------------------- results

  /**
   * What find_path returns, in terms of the records: a drive from start to target that enters no node twice and takes IDLE and
   * FAULT_TEMP edges into nodes that are not in FAULT, or nothing exactly when there is no such drive (or no way to go).
   */
  lemma ResultDrives(q: Query, p: seq<nat>) returns (ns: seq<nat>)
    requires ValidQuery(q) && MayReturn(q, p)
    ensures p != [] ==> Leads(q.m, q.start, ns, p, q.target) && Distinct(ns)
    ensures p == [] && q.start != q.target ==> forall ns', p' :: !Leads(q.m, q.start, ns', p', q.target)
  {
    hide MapShape, Drives;
    ns := [];
    if p != [] {
      var r: seq<Search> :| Returns(q, r, p);
      ResultIsSimpleRoute(q, r, p);
      RouteDrives(q.m, q.start, p, q.target);
      ns := RouteNodes(q.m, q.start, p, q.target);
    } else if q.start != q.target {
      ResultEmptyIffUnreachable(q, p);
      forall ns', p' ensures !Leads(q.m, q.start, ns', p', q.target) {
        if Leads(q.m, q.start, ns', p', q.target) { DriveIsRoute(q.m, q.start, ns', p', q.target); }
      }
    }
  }

  /** Every passable edge weighs at least the exact distance that it covers. */
  ghost predicate CoversDistance(m: MapData, sqrt: real -> real) {
    forall u: nat, e: nat, v: nat :: Passable(m, u, e, v) ==>
      Distance(sqrt, m.nodes[u - 1], m.nodes[v - 1]) <= m.edges[e - 1].weight as real
  }

  lemma CoversSteps(q: Query, sqrt: real -> real)
    requires ValidQuery(q) && CoversDistance(q.m, sqrt)
    ensures WeightsCoverDistance(q, sqrt)
  {
    hide MapShape, Distance, CanStep, Passable;
    forall u: nat, e: nat, v: nat | CanStep(q.m, u, e, v)
      ensures 1 <= u <= |q.m.nodes| && 1 <= v <= |q.m.nodes| && 1 <= e <= |q.m.edges|
              && Distance(sqrt, q.m.nodes[u - 1], q.m.nodes[v - 1]) <= q.m.edges[e - 1].weight as real
    {
      StepIffPassable(q.m, u, e, v);
      PassableInRange(q.m, u, e, v);
    }
  }

  lemma PassableInRange(m: MapData, u: nat, e: nat, v: nat)
    requires Passable(m, u, e, v)
    ensures 1 <= u <= |m.nodes| && 1 <= v <= |m.nodes| && 1 <= e <= |m.edges|
  {
  }

  /** With the planner's own distance, and weights that cover the distances, no drive has a lower toll than the result. */
  lemma ResultHasLeastToll(q: Query, sqrt: real -> real, p: seq<nat>, ns': seq<nat>, p': seq<nat>) returns (ns: seq<nat>)
    requires ValidQuery(q) && UsesStraight(q, sqrt) && CoversDistance(q.m, sqrt) && MayReturn(q, p) && q.start != q.target
    requires Leads(q.m, q.start, ns', p', q.target)
    ensures Leads(q.m, q.start, ns, p, q.target) && Toll(q.m, ns, p) <= Toll(q.m, ns', p')
  {
    hide MapShape, Drives, UsesStraight, WeightsCoverDistance, CoversDistance;
    CoversSteps(q, sqrt);
    DriveIsRoute(q.m, q.start, ns', p', q.target);
    CoveredIsCheapest(q, sqrt, p, p');
    RouteDrives(q.m, q.start, p, q.target);
    ns := RouteNodes(q.m, q.start, p, q.target);
  }

  /** An edge is IDLE, or FAULT_TEMP. */
  predicate Open(m: MapData, e: nat) { ValidEid(m, e) && (StatusOf(m, e) == EdgeIdle || StatusOf(m, e) == FaultTemp) }

  /** find_path never drives an edge that is BLOCKED, OCCUPIED or under repair. */
  lemma ResultIsOpen(m: MapData, start: nat, target: nat, dist: (Node, Node) -> real, fl: real -> real, p: seq<nat>, i: nat)
    requires MapShape(m) && Binary32(fl) && Finds(m, start, target, dist, fl, p) && i < |p|
    ensures Open(m, p[i])
  {
    hide MapShape, Binary32, MayReturn;
    var ns := ResultDrives(Query(m, start, target, dist, fl), p);
    assert Passable(m, ns[i], p[i], ns[i + 1]);
  }

  // ---------------------------------------------------------------- plans after events

  /**
   * Whatever has happened: an accepted plan drives only edges that are IDLE or FAULT_TEMP in shared memory now, and otherwise only
   * the OCCUPIED road on which its own car is parked.
   */
  lemma PlanIsOpen(w: World, t: Task, dist: (Node, Node) -> real, fl: real -> real, p: seq<nat>, i: nat)
    requires RoadsOk(w) && PlannerReady(w, t) && Startable(w, t) && Binary32(fl) && PlanFinds(w, t, dist, fl, p) && i < |p|
    ensures var c := w.cars[t.carId - 1];
            Open(w.m, p[i]) || (ValidEid(w.m, p[i]) && StatusOf(w.m, p[i]) == Occupied && OnRoad(w.m, p[i], c.last, c.current))
  {
    hide Network, FleetOk, MapShape, Binary32, PlanStart, PlanningMap, HasRoad, SameRoads;
    var c := CarOf(w, t.carId);
    CarFacts(w, t.carId);
    PlannableIff(w, t);
    var copy := PlanningMap(w.m, c);
    PlanningMapShape(w.m, c);
    ResultIsOpen(copy, PlanStart(w.m, t, c).value, PlanTarget(t, c), dist, fl, p, i);
    EdgeKept(w.m, copy, p[i]);
    var out, back := RoadEdges(w.m, w.paths, c.last, c.current);
    CopyFrees(w.m, w.paths, c, out, back);
  }

  lemma RoadEdges(m: MapData, paths: seq<Bipath>, a: nat, b: nat) returns (out: nat, back: nat)
    requires Network(m, paths) && HasRoad(m, a, b)
    ensures Reverses(m, out, back) && From(m, out) == a && To(m, out) == b
  {
    out :| ValidEid(m, out) && From(m, out) == a && To(m, out) == b;
    back := Partner(|paths|, out);
    PartnerLookup(m, paths, out);
  }

  /** After a permanent obstacle no car is sent over the road in either direction while the statuses stay as they are. */
  lemma ObstacleIsAvoided(w: World, carId: nat, passTh: bool, w': World, t: Task,
                          dist: (Node, Node) -> real, fl: real -> real, p: seq<nat>, i: nat)
    requires RoadsOk(w) && Step(w, ObstacleEvent(carId, false, passTh), dist, fl, w')
    requires PlannerReady(w', t) && Startable(w', t) && Binary32(fl) && PlanFinds(w', t, dist, fl, p) && i < |p|
    ensures ValidEid(w.m, p[i]) && !OnRoad(w.m, p[i], w.cars[carId - 1].last, w.cars[carId - 1].current)
  {
    hide RoadsOk, SameRoads, Binary32, PlanFinds, PlannerReady, Startable, HasRoad, OnlyEdges;
    ObstacleDoes(w, carId, false, passTh, dist, fl, w');
    StepKeepsRecords(w, ObstacleEvent(carId, false, passTh), dist, fl, w');
    PlanIsOpen(w', t, dist, fl, p, i);
    EdgeKept(w.m, w'.m, p[i]);
  }

  /** Nor does find_path take it on that map itself. */
  lemma ObstacleShutsRoad(w: World, carId: nat, passTh: bool, w': World, start: nat, target: nat,
                          dist: (Node, Node) -> real, fl: real -> real, p: seq<nat>, i: nat)
    requires RoadsOk(w) && Step(w, ObstacleEvent(carId, false, passTh), dist, fl, w') && MapShape(w'.m)
    requires Binary32(fl) && Finds(w'.m, start, target, dist, fl, p) && i < |p|
    ensures ValidEid(w.m, p[i]) && !OnRoad(w.m, p[i], w.cars[carId - 1].last, w.cars[carId - 1].current)
  {
    hide RoadsOk, SameRoads, Binary32, Finds, HasRoad, OnlyEdges, MapShape;
    ObstacleDoes(w, carId, false, passTh, dist, fl, w');
    ResultIsOpen(w'.m, start, target, dist, fl, p, i);
    EdgeKept(w.m, w'.m, p[i]);
  }

  /** After /api/ban or /api/repair no car is sent over a listed edge, nor after ban over the reverse of a listed forward one. */
  lemma BanIsAvoided(w: World, ev: Event, w': World, t: Task, dist: (Node, Node) -> real, fl: real -> real, p: seq<nat>, i: nat)
    requires RoadsOk(w) && Step(w, ev, dist, fl, w') && (ev.BanEvent? || ev.RepairEvent?)
    requires PlannerReady(w', t) && Startable(w', t) && Binary32(fl) && PlanFinds(w', t, dist, fl, p) && i < |p|
    ensures p[i] !in ev.eids && (ev.BanEvent? && p[i] > |w.paths| ==> p[i] - |w.paths| !in ev.eids)
  {
    hide RoadsOk, SameRoads, Binary32, PlanFinds, PlannerReady, Startable, Replans;
    ApiDoes(w, ev, dist, fl, w');
    StepKeepsRecords(w, ev, dist, fl, w');
    StartableKnown(w', t);
    PlanIsOpen(w', t, dist, fl, p, i);
    EdgeKept(w.m, w'.m, p[i]);
    EdgeRange(w, p[i]);
    if ev.BanEvent? { WithReversesAre(|w.paths|, ev.eids, p[i]); }
  }

  lemma EdgeRange(w: World, e: nat)
    requires RoadsOk(w) && ValidEid(w.m, e)
    ensures 1 <= e <= 2 * |w.paths|
  {
    hide FleetOk, MapShape;
  }

  /** A road that a car occupies since its arrival is closed to all others. */
  lemma ParkedIsAvoided(w: World, carId: nat, w': World, t: Task, dist: (Node, Node) -> real, fl: real -> real, p: seq<nat>, i: nat)
    requires RoadsOk(w) && Step(w, ArriveEvent(carId), dist, fl, w') && 1 <= carId <= |w.cars|
    requires var c := w.cars[carId - 1]; c.status != CarFault && c.status != Offline && c.current == c.target
    requires PlannerReady(w', t) && Startable(w', t) && Binary32(fl) && PlanFinds(w', t, dist, fl, p) && i < |p|
    ensures ValidEid(w.m, p[i])
    ensures var c, o := w.cars[carId - 1], w'.cars[t.carId - 1];
            OnRoad(w.m, p[i], c.last, c.current) ==> OnRoad(w.m, p[i], o.last, o.current)
  {
    hide RoadsOk, SameRoads, Binary32, PlanFinds, PlannerReady, Startable, OnlyEdges;
    ArrivalDoes(w, carId, dist, fl, w');
    StepKeepsRecords(w, ArriveEvent(carId), dist, fl, w');
    StartableKnown(w', t);
    PlanIsOpen(w', t, dist, fl, p, i);
    EdgeKept(w.m, w'.m, p[i]);
  }

  lemma StartableKnown(w: World, t: Task)
    requires Startable(w, t)
    ensures 1 <= t.carId <= |w.cars|
  {
  }
}
