/** The dispatch handlers as functions on shared memory: planner, router, MQTT subscriber and topology API. */
module Dispatch {
  import opened Layout
  import opened MapInit
  import opened RoadNetwork
  import opened Geometry
  import opened AStar

  /** path_len is the length of `path`. */
  datatype Car = Car(id: nat, status: CarStatus, current: nat, task: nat, target: nat, last: nat, lastStart: nat, path: seq<nat>)

  datatype ActionCmd = Pause | Process | UturnNow
  datatype Publish = Cnt(carId: nat, cnt: nat) | Action(carId: nat, cmd: ActionCmd) | Orient(carId: nat, ori: OriCmd)

  datatype TaskAction = Assign | Cancel | Replan
  datatype ImmeStra = AfterSegment | Immediately | Uturn | UturnNoCross
  datatype Task = Task(action: TaskAction, carId: nat, target: nat, immediate: ImmeStra)

  /** Shared memory and the two outgoing queues. */
  datatype World = World(m: MapData, paths: seq<Bipath>, cars: seq<Car>, published: seq<Publish>, tasks: seq<Task>)

  /** What indexing needs of the shared tables. */
  ghost predicate Sane(m: MapData, paths: seq<Bipath>) {
    MapShape(m) && forall k :: 0 <= k < |paths| ==> 1 <= paths[k].idA <= MAX_EDGES && 1 <= paths[k].idB <= MAX_EDGES
  }

  predicate ValidCarId(w: World, carId: nat) { 1 <= carId <= |w.cars| }

  function CarOf(w: World, carId: nat): Car
    requires ValidCarId(w, carId)
  {
    w.cars[carId - 1]
  }

  /** shm_update_car */
  function WithCar(w: World, carId: nat, c: Car): World
    requires ValidCarId(w, carId)
  {
    w.(cars := w.cars[carId - 1 := c])
  }

  function StatusOf(m: MapData, e: nat): EdgeStatus
    requires 1 <= e <= |m.edges|
  {
    m.edges[e - 1].status
  }

  /** shm_set_edge_status, on the edge id instead of its index */
  function WithStatus(m: MapData, e: nat, st: EdgeStatus): MapData
    requires 1 <= e <= |m.edges|
  {
    m.(edges := m.edges[e - 1 := m.edges[e - 1].(status := st)])
  }

  /** Set an edge and, when the pair table knows it, its other direction. */
  function PairStatus(m: MapData, paths: seq<Bipath>, e: nat, st: EdgeStatus): MapData
    requires Sane(m, paths) && 1 <= e <= MAX_EDGES
  {
    FindPartnerOk(paths, e);
    match FindPartner(paths, e)
    case None => WithStatus(m, e, st)
    case Some(f) => WithStatus(WithStatus(m, e, st), f, st)
  }

  lemma {:induction false} FindPartnerOk(paths: seq<Bipath>, e: nat)
    requires forall k :: 0 <= k < |paths| ==> 1 <= paths[k].idA <= MAX_EDGES && 1 <= paths[k].idB <= MAX_EDGES
    ensures FindPartner(paths, e).Some? ==> 1 <= FindPartner(paths, e).value <= MAX_EDGES
  {
    if paths != [] { FindPartnerOk(paths[1..], e); }
  }

  lemma WithStatusKeeps(m: MapData, e: nat, st: EdgeStatus)
    requires 1 <= e <= |m.edges|
    ensures SameRoads(m, WithStatus(m, e, st)) && (MapShape(m) ==> MapShape(WithStatus(m, e, st)))
  {
  }

  predicate ListOk(m: MapData, ids: seq<nat>) {
    |m.edges| == MAX_EDGES && forall i :: 0 <= i < |ids| ==> 1 <= ids[i] <= MAX_EDGES
  }

  lemma ShapeListOk(m: MapData, a: nat)
    requires MapShape(m) && 1 <= a <= MAX_NODES
    ensures ListOk(m, m.adj[a - 1])
  {
  }

  /** The first listed edge that ends at `to`. */
  function RoadTo(m: MapData, ids: seq<nat>, to: nat): (r: Option<nat>)
    requires ListOk(m, ids)
    ensures r.Some? ==> r.value in ids && 1 <= r.value <= MAX_EDGES && m.edges[r.value - 1].toNode == to
    ensures r.None? ==> forall e :: e in ids ==> m.edges[e - 1].toNode != to
  {
    if ids == [] then None
    else if m.edges[ids[0] - 1].toNode == to then Some(ids[0])
    else
      assert ids == [ids[0]] + ids[1..];
      RoadTo(m, ids[1..], to)
  }

  /** The first listed edge that ends at `to` and is OCCUPIED. */
  function OccupiedTo(m: MapData, ids: seq<nat>, to: nat): (r: Option<nat>)
    requires ListOk(m, ids)
    ensures r.Some? ==> r.value in ids && 1 <= r.value <= MAX_EDGES
    ensures r.Some? ==> m.edges[r.value - 1].toNode == to && StatusOf(m, r.value) == Occupied
    ensures r.None? ==> forall e :: e in ids ==> m.edges[e - 1].toNode != to || StatusOf(m, e) != Occupied
  {
    if ids == [] then None
    else if m.edges[ids[0] - 1].toNode == to && StatusOf(m, ids[0]) == Occupied then Some(ids[0])
    else
      assert ids == [ids[0]] + ids[1..];
      OccupiedTo(m, ids[1..], to)
  }

  // ---------------------------------------------------------------- MQTT subscriber

  /** alter_edges_status: the road the car is on, both ways. */
  function AlterEdges(w: World, carId: nat, st: EdgeStatus): (m: MapData)
    requires Sane(w.m, w.paths) && ValidCarId(w, carId) && 1 <= CarOf(w, carId).last <= MAX_NODES
  {
    var c := CarOf(w, carId);
    match RoadTo(w.m, w.m.adj[c.last - 1], c.current)
    case None => w.m
    case Some(e) => PairStatus(w.m, w.paths, e, st)
  }

  /** Release of the road from -> to if it is OCCUPIED: the planner after accepting, and POSITION. */
  function Release(m: MapData, paths: seq<Bipath>, from: nat, to: nat): (r: MapData)
    requires Sane(m, paths) && from <= MAX_NODES
  {
    if from > 0 && to > 0 then
      match OccupiedTo(m, m.adj[from - 1], to)
      case None => m
      case Some(e) => PairStatus(m, paths, e, EdgeIdle)
    else m
  }

  function ObstacleSeen(w: World, carId: nat, temporary: bool, passTh: bool): World
    requires Sane(w.m, w.paths) && ValidCarId(w, carId) && 1 <= CarOf(w, carId).last <= MAX_NODES
  {
    if !temporary then
      w.(m := AlterEdges(w, carId, FaultRepair),
         tasks := w.tasks + [Task(Replan, carId, 0, if passTh then UturnNoCross else Uturn)])
    else
      WithCar(w.(m := AlterEdges(w, carId, FaultTemp)), carId, CarOf(w, carId).(status := Wait))
  }

  function ObstacleGone(w: World, carId: nat): World
    requires Sane(w.m, w.paths) && ValidCarId(w, carId) && 1 <= CarOf(w, carId).last <= MAX_NODES
  {
    WithCar(w.(m := AlterEdges(w, carId, EdgeIdle)), carId, CarOf(w, carId).(status := Moving))
  }

  function PlacedCar(c: Car, behind: nat, ahead: nat): Car {
    c.(current := ahead, last := behind, task := 0, path := [], status := CarIdle)
  }

  /** POSITION "behind-ahead" */
  function Positioned(w: World, carId: nat, behind: nat, ahead: nat): World
    requires Sane(w.m, w.paths) && ValidCarId(w, carId) && CarOf(w, carId).last <= MAX_NODES
  {
    var c := CarOf(w, carId);
    WithCar(w.(m := Release(w.m, w.paths, c.last, c.current)), carId, PlacedCar(c, behind, ahead))
  }

  // ---------------------------------------------------------------- router

  predicate Available(c: Car) { c.status != CarFault && c.status != Offline }

  predicate PathOk(m: MapData, p: seq<nat>) {
    |m.edges| == MAX_EDGES && forall i :: 0 <= i < |p| ==> 1 <= p[i] <= MAX_EDGES && 1 <= m.edges[p[i] - 1].toNode <= MAX_NODES
  }

  /** The scan from the end of path_stack for an edge that leaves `node`. */
  function ScanBack(m: MapData, path: seq<nat>, i: nat, node: nat): (k: Option<nat>)
    requires PathOk(m, path) && i <= |path|
    ensures k.Some? ==> k.value < i && m.edges[path[k.value] - 1].fromNode == node
    ensures k.Some? ==> forall j :: k.value < j < i ==> m.edges[path[j] - 1].fromNode != node
    ensures k.None? ==> forall j :: 0 <= j < i ==> m.edges[path[j] - 1].fromNode != node
  {
    if i == 0 then None
    else if m.edges[path[i - 1] - 1].fromNode == node then Some(i - 1)
    else ScanBack(m, path, i - 1, node)
  }

  function At(m: MapData, v: nat): Point
    requires 1 <= v <= |m.nodes|
  {
    Point(m.nodes[v - 1].x, m.nodes[v - 1].y)
  }

  predicate NodesOk(m: MapData, c: Car) {
    |m.nodes| == MAX_NODES && 1 <= c.last <= MAX_NODES && 1 <= c.current <= MAX_NODES
  }

  function ArrivedCar(c: Car): Car { c.(status := CarIdle, path := [], lastStart := c.current, task := 0) }

  /** The record after an ARRIVE, and the order sent; None where the scan fails. */
  function RouterCar(m: MapData, c: Car): Option<(Car, OriCmd)>
    requires c.current != c.target ==> PathOk(m, c.path) && NodesOk(m, c)
  {
    if c.current == c.target then Some((ArrivedCar(c), HasArrived))
    else
      match ScanBack(m, c.path, |c.path|, c.current)
      case None => None
      case Some(k) =>
        var next := m.edges[c.path[k] - 1].toNode;
        Some((c.(last := c.current, current := next), GenerateTurn(At(m, c.last), At(m, c.current), At(m, next))))
  }

  /** The indices that the router forms: path_stack[path_len-1] at the target, path entries and nodes in the scan before it. */
  ghost predicate RouterInRange(m: MapData, c: Car) {
    if c.current == c.target then c.path != [] && 1 <= c.path[|c.path| - 1] <= MAX_EDGES
    else PathOk(m, c.path) && NodesOk(m, c)
  }

  ghost predicate Routable(w: World, carId: nat) {
    && Sane(w.m, w.paths)
    && (ValidCarId(w, carId) && Available(CarOf(w, carId)) ==> RouterInRange(w.m, CarOf(w, carId)))
  }

  /** router::handle_task */
  function Arrived(w: World, carId: nat): World
    requires Routable(w, carId)
  {
    if !ValidCarId(w, carId) || !Available(CarOf(w, carId)) then w
    else
      var c := CarOf(w, carId);
      match RouterCar(w.m, c)
      case None => w
      case Some((c', ori)) =>
        var m' := if c.current == c.target then PairStatus(w.m, w.paths, c.path[|c.path| - 1], Occupied) else w.m;
        WithCar(w.(m := m', published := w.published + [Orient(carId, ori)]), carId, c')
  }

  // ---------------------------------------------------------------- planner

  function PlanTarget(t: Task, c: Car): nat {
    match t.action
    case Assign => t.target
    case Replan => c.target
    case Cancel => c.lastStart
  }

  /** The listed road serves a U-turn: below edge_count, free, not to `current`, and leading straight back. */
  predicate TurnsBack(m: MapData, e: nat, last: nat, current: nat)
    requires MapShape(m) && 1 <= e <= MAX_EDGES && 1 <= m.edges[e - 1].toNode <= MAX_NODES
    requires 1 <= last <= MAX_NODES && 1 <= current <= MAX_NODES
  {
    var s := m.edges[e - 1].toNode;
    e < m.edgeCount && m.nodes[s - 1].id != current && StatusOf(m, e) == EdgeIdle
    && JudRev(At(m, last), At(m, current), At(m, s))
  }

  /** The loop over the roads out of `last`, from position i on: the last one that serves wins. */
  function RevNode(m: MapData, last: nat, current: nat, i: nat, found: Option<nat>): Option<nat>
    requires MapShape(m) && 1 <= last <= MAX_NODES && 1 <= current <= MAX_NODES && i <= |m.adj[last - 1]|
    decreases |m.adj[last - 1]| - i
  {
    if i == |m.adj[last - 1]| then found
    else
      var e := m.adj[last - 1][i];
      RevNode(m, last, current, i + 1,
              if TurnsBack(m, e, last, current) then Some(m.nodes[m.edges[e - 1].toNode - 1].id) else found)
  }

  /** Where the new path starts; None when a U-turn finds no road back. */
  function PlanStart(m: MapData, t: Task, c: Car): Option<nat>
    requires MapShape(m) && NodesOk(m, c)
  {
    match t.immediate
    case UturnNoCross => Some(c.last)
    case Uturn => RevNode(m, c.last, c.current, 0, None)
    case _ => Some(c.current)
  }

  /** Ids below edge_count, the guard of the planner's own loops. */
  function Below(ids: seq<nat>, count: nat): (r: seq<nat>)
    ensures forall e :: e in r <==> e in ids && e < count
  {
    if ids == [] then [] else (if ids[0] < count then [ids[0]] else []) + Below(ids[1..], count)
  }

  /** The roads out of node n that the planner's guarded loops look at. */
  function AdmittedOut(m: MapData, n: nat): (ids: seq<nat>)
    requires MapShape(m) && 1 <= n <= MAX_NODES
    ensures ListOk(m, ids)
  {
    BelowListOk(m, m.adj[n - 1], m.edgeCount);
    Below(m.adj[n - 1], m.edgeCount)
  }

  /** The planner's own copy of the map: the road that the car itself occupies counts as free. */
  function PlanningMap(m: MapData, c: Car): (r: MapData)
    requires MapShape(m) && NodesOk(m, c)
  {
    LiftedMap(m, AdmittedOut(m, c.last), c.current, AdmittedOut(m, c.current), c.last)
  }

  function LiftedMap(m: MapData, out: seq<nat>, to: nat, back: seq<nat>, from: nat): (r: MapData)
    requires ListOk(m, out) && ListOk(m, back)
    ensures r.nodes == m.nodes && r.adj == m.adj && r.nodeCount == m.nodeCount && r.edgeCount == m.edgeCount
    ensures |r.edges| == |m.edges|
    ensures forall i :: 0 <= i < |m.edges| ==> r.edges[i] == m.edges[i] || r.edges[i] == m.edges[i].(status := EdgeIdle)
  {
    match OccupiedTo(m, out, to)
    case None => m
    case Some(e) =>
      var m1 := WithStatus(m, e, EdgeIdle);
      match OccupiedTo(m1, back, from)
      case None => m1
      case Some(f) => WithStatus(m1, f, EdgeIdle)
  }

  lemma PlanningMapShape(m: MapData, c: Car)
    requires MapShape(m) && NodesOk(m, c)
    ensures SameRoads(m, PlanningMap(m, c)) && MapShape(PlanningMap(m, c))
  {
    var r := PlanningMap(m, c);
    forall i, j | 0 <= i < MAX_NODES && 0 <= j < |r.adj[i]|
      ensures var e := r.adj[i][j];
              1 <= e <= MAX_EDGES && 1 <= r.edges[e - 1].fromNode <= MAX_NODES && 1 <= r.edges[e - 1].toNode <= MAX_NODES
    {
      assert 1 <= m.adj[i][j] <= MAX_EDGES;
    }
  }

  lemma {:induction false} BelowListOk(m: MapData, ids: seq<nat>, count: nat)
    requires ListOk(m, ids)
    ensures ListOk(m, Below(ids, count))
  {
    if ids != [] {
      assert forall i :: 0 <= i < |ids[1..]| ==> ids[1..][i] == ids[i + 1];
      BelowListOk(m, ids[1..], count);
    }
  }

  /** find_path may return p for the given map and ends. */
  ghost predicate Finds(m: MapData, start: nat, target: nat, dist: (Node, Node) -> real, fl: real -> real, p: seq<nat>)
    requires MapShape(m) && Binary32(fl)
  {
    if InRange(m, start) && InRange(m, target) then MayReturn(Query(m, start, target, dist, fl), p) else p == []
  }

  function AcceptedCar(c: Car, t: Task, start: nat, target: nat, p: seq<nat>): Car {
    c.(last := if t.immediate == UturnNoCross then c.current else c.last,
       current := start, target := target, path := p, status := Moving)
  }

  function Announcement(t: Task, cnt: nat): seq<Publish> {
    [Cnt(t.carId, cnt)] +
    match t.immediate
    case AfterSegment => []
    case Immediately => [Action(t.carId, Process)]
    case Uturn => [Action(t.carId, UturnNow)]
    case UturnNoCross => [Action(t.carId, UturnNow)]
  }

  /** The message is for a known, available car, and a U-turn has found its road back. */
  predicate Plannable(w: World, t: Task)
    requires MapShape(w.m) && (ValidCarId(w, t.carId) && Available(CarOf(w, t.carId)) ==> NodesOk(w.m, CarOf(w, t.carId)))
  {
    ValidCarId(w, t.carId) && Available(CarOf(w, t.carId)) && PlanStart(w.m, t, CarOf(w, t.carId)).Some?
  }

  /** The indices that the planner forms: its car's road, and in find_path the records of start and target, 1-based. */
  ghost predicate PlannerInRange(m: MapData, t: Task, c: Car)
    requires MapShape(m)
  {
    NodesOk(m, c) && (PlanStart(m, t, c).Some? ==> 1 <= PlanStart(m, t, c).value && 1 <= PlanTarget(t, c))
  }

  ghost predicate PlannerReady(w: World, t: Task) {
    && Sane(w.m, w.paths)
    && (ValidCarId(w, t.carId) && Available(CarOf(w, t.carId)) ==> PlannerInRange(w.m, t, CarOf(w, t.carId)))
  }

  /** The search that planner::handle_task runs may return p. */
  ghost predicate PlanFinds(w: World, t: Task, dist: (Node, Node) -> real, fl: real -> real, p: seq<nat>)
    requires PlannerReady(w, t) && Binary32(fl)
  {
    Plannable(w, t) ==>
      var c := CarOf(w, t.carId);
      PlanningMapShape(w.m, c);
      Finds(PlanningMap(w.m, c), PlanStart(w.m, t, c).value, PlanTarget(t, c), dist, fl, p)
  }

  /** What the planner does with the path p that it found between start and target. */
  function Outcome(w: World, t: Task, start: nat, target: nat, p: seq<nat>): World
    requires Sane(w.m, w.paths) && ValidCarId(w, t.carId) && CarOf(w, t.carId).last <= MAX_NODES
  {
    if p == [] || |p| > MAX_PATHLEN then
      match t.action
      case Assign => w
      case Cancel => w.(published := w.published + [Action(t.carId, Pause)])
      case Replan => w.(tasks := w.tasks + [Task(Cancel, t.carId, 0, t.immediate)])
    else
      var c := CarOf(w, t.carId);
      WithCar(w.(m := Release(w.m, w.paths, c.last, c.current), published := w.published + Announcement(t, |p|)),
              t.carId, AcceptedCar(c, t, start, target, p))
  }

  /** planner::handle_task, given the path its search returned. */
  function Planned(w: World, t: Task, p: seq<nat>): World
    requires PlannerReady(w, t)
  {
    if !Plannable(w, t) then w
    else
      var c := CarOf(w, t.carId);
      Outcome(w, t, PlanStart(w.m, t, c).value, PlanTarget(t, c), p)
  }

  // ---------------------------------------------------------------- topology API

  /** find_edge_idx, from position i on */
  function IndexOf(m: MapData, eid: nat, i: nat): (r: Option<nat>)
    requires |m.edges| == MAX_EDGES && i <= m.edgeCount <= MAX_EDGES
    ensures r.Some? ==> r.value < m.edgeCount
    decreases m.edgeCount - i
  {
    if i == m.edgeCount then None
    else if m.edges[i].id == eid then Some(i)
    else IndexOf(m, eid, i + 1)
  }

  function SetById(m: MapData, eid: nat, st: EdgeStatus): MapData
    requires |m.edges| == MAX_EDGES && m.edgeCount <= MAX_EDGES
  {
    match IndexOf(m, eid, 0)
    case None => m
    case Some(idx) => WithStatus(m, idx + 1, st)
  }

  /** One edge of a /api/ban (BLOCKED) or /api/access (IDLE) request: the pair is looked up by forward id only. */
  function SetByApi(w: World, eid: nat, st: EdgeStatus): World
    requires MapShape(w.m)
  {
    var m1 := SetById(w.m, eid, st);
    if eid == 0 || eid > |w.paths| then w.(m := m1)
    else
      var other := match w.paths[eid - 1].GetOtherPath(eid) case Some(f) => f case None => 0xFFFF;
      w.(m := SetById(m1, other, st))
  }

  /** One edge of a /api/repair request. */
  function SetForRepair(w: World, eid: nat): World
    requires MapShape(w.m)
  {
    w.(m := SetById(w.m, eid, FaultRepair))
  }

  lemma SetByIdKeeps(m: MapData, eid: nat, st: EdgeStatus)
    requires MapShape(m)
    ensures SameRoads(m, SetById(m, eid, st)) && MapShape(SetById(m, eid, st))
  {
    if IndexOf(m, eid, 0).Some? { WithStatusKeeps(m, IndexOf(m, eid, 0).value + 1, st); }
  }

  lemma SetByApiKeeps(w: World, eid: nat, st: EdgeStatus)
    requires MapShape(w.m)
    ensures SameRoads(w.m, SetByApi(w, eid, st).m) && MapShape(SetByApi(w, eid, st).m)
  {
    var m1 := SetById(w.m, eid, st);
    SetByIdKeeps(w.m, eid, st);
    if 1 <= eid <= |w.paths| {
      var other := match w.paths[eid - 1].GetOtherPath(eid) case Some(f) => f case None => 0xFFFF;
      SetByIdKeeps(m1, other, st);
      SameRoadsTransitive(w.m, m1, SetById(m1, other, st));
    }
  }

  /** A whole /api/ban or /api/access list. */
  function SetAllByApi(w: World, eids: seq<nat>, st: EdgeStatus): World
    requires MapShape(w.m)
    decreases |eids|
  {
    if eids == [] then w
    else
      SetByApiKeeps(w, eids[0], st);
      SetAllByApi(SetByApi(w, eids[0], st), eids[1..], st)
  }

  function SetAllForRepair(w: World, eids: seq<nat>): World
    requires MapShape(w.m)
    decreases |eids|
  {
    if eids == [] then w
    else
      SetByIdKeeps(w.m, eids[0], FaultRepair);
      SetAllForRepair(SetForRepair(w, eids[0]), eids[1..])
  }

  function Replans(cars: seq<Car>): seq<Task> {
    if cars == [] then []
    else
      var c := cars[|cars| - 1];
      Replans(cars[..|cars| - 1]) + if c.status == Moving || c.status == Wait then [Task(Replan, c.id, 0, AfterSegment)] else []
  }
}
