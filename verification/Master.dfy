/** The handlers with their loops, each proved to be its function in Dispatch. */
module MasterProcesses {
  import opened Layout
  import opened MapInit
  import opened RoadNetwork
  import opened Geometry
  import opened AStar
  import opened Dispatch
  import opened FindPathMethod

  /** An index-by-index search through ids[i..] has come to ids[i] without a hit. */
  lemma RoadToSkip(m: MapData, ids: seq<nat>, i: nat, to: nat)
    requires ListOk(m, ids) && i < |ids|
    ensures ids[i..][1..] == ids[i + 1..]
    ensures RoadTo(m, ids[i..], to) == if m.edges[ids[i] - 1].toNode == to then Some(ids[i]) else RoadTo(m, ids[i + 1..], to)
  {
  }

  lemma OccupiedToSkip(m: MapData, ids: seq<nat>, i: nat, to: nat)
    requires ListOk(m, ids) && i < |ids|
    ensures OccupiedTo(m, ids[i..], to) ==
            if m.edges[ids[i] - 1].toNode == to && StatusOf(m, ids[i]) == Occupied then Some(ids[i]) else OccupiedTo(m, ids[i + 1..], to)
  {
    assert ids[i..][1..] == ids[i + 1..];
  }

  lemma OccupiedBelowSkip(m: MapData, ids: seq<nat>, i: nat, count: nat, to: nat)
    requires ListOk(m, ids) && i < |ids|
    ensures ListOk(m, Below(ids[i..], count)) && ListOk(m, Below(ids[i + 1..], count))
    ensures OccupiedTo(m, Below(ids[i..], count), to) ==
            if ids[i] < count && m.edges[ids[i] - 1].toNode == to && StatusOf(m, ids[i]) == Occupied then Some(ids[i])
            else OccupiedTo(m, Below(ids[i + 1..], count), to)
  {
    assert forall k :: 0 <= k < |ids[i..]| ==> ids[i..][k] == ids[i + k];
    BelowListOk(m, ids[i..], count);
    BelowListOk(m, ids[i + 1..], count);
    var here, rest := Below(ids[i..], count), Below(ids[i + 1..], count);
    assert ids[i..][1..] == ids[i + 1..];
    assert here == if ids[i] < count then [ids[i]] + rest else rest;
    if ids[i] < count { assert here[1..] == rest; }
  }

  /** The planner's guarded loops for an OCCUPIED edge to `to`. */
  method FirstOccupied(m: MapData, ids: seq<nat>, count: nat, to: nat) returns (r: Option<nat>)
    requires ListOk(m, ids) && ListOk(m, Below(ids, count))
    ensures r == OccupiedTo(m, Below(ids, count), to)
  {
    assert ids[0..] == ids;
    for i := 0 to |ids|
      invariant ListOk(m, Below(ids[i..], count))
      invariant OccupiedTo(m, Below(ids, count), to) == OccupiedTo(m, Below(ids[i..], count), to)
    {
      var eid := ids[i];
      OccupiedBelowSkip(m, ids, i, count, to);
      if eid >= count { continue; }
      if m.edges[eid - 1].toNode == to && m.edges[eid - 1].status == Occupied { return Some(eid); }
    }
    r := None;
  }

  /** The two nested loops that free a road in the planner's copy of the map. */
  method Lift(m: MapData, from: nat, to: nat) returns (copy: MapData)
    requires MapShape(m) && 1 <= from <= MAX_NODES && 1 <= to <= MAX_NODES
    ensures copy == LiftedMap(m, AdmittedOut(m, from), to, AdmittedOut(m, to), from)
  {
    copy := m;
    assert Below(m.adj[from - 1], m.edgeCount) == AdmittedOut(m, from) && Below(m.adj[to - 1], m.edgeCount) == AdmittedOut(m, to);
    var e := FirstOccupied(copy, m.adj[from - 1], m.edgeCount, to);
    if e.Some? {
      copy := copy.(edges := copy.edges[e.value - 1 := copy.edges[e.value - 1].(status := EdgeIdle)]);
      var f := FirstOccupied(copy, m.adj[to - 1], m.edgeCount, from);
      if f.Some? {
        copy := copy.(edges := copy.edges[f.value - 1 := copy.edges[f.value - 1].(status := EdgeIdle)]);
      }
    }
  }

  class Master {
    var m: MapData
    const paths: seq<Bipath>
    var cars: seq<Car>
    var published: seq<Publish>
    var tasks: seq<Task>

    constructor (m: MapData, paths: seq<Bipath>, cars: seq<Car>)
      ensures View() == World(m, paths, cars, [], [])
    {
      this.m, this.paths, this.cars, published, tasks := m, paths, cars, [], [];
    }

    ghost function View(): World
      reads this
    {
      World(m, paths, cars, published, tasks)
    }

    method SetEdgeStatus(idx: nat, st: EdgeStatus)
      requires idx < |m.edges|
      modifies this`m
      ensures m == WithStatus(old(m), idx + 1, st)
    {
      m := m.(edges := m.edges[idx := m.edges[idx].(status := st)]);
    }

    method UpdateCar(idx: nat, c: Car)
      requires idx < |cars|
      modifies this`cars
      ensures cars == old(cars)[idx := c]
    {
      cars := cars[idx := c];
    }

    method SetCarStatus(idx: nat, st: CarStatus)
      requires idx < |cars|
      modifies this`cars
      ensures cars == old(cars)[idx := old(cars)[idx].(status := st)]
    {
      cars := cars[idx := cars[idx].(status := st)];
    }

    /** An edge, then the search for its pair and the other direction. */
    method SetPair(e: nat, st: EdgeStatus)
      requires Sane(m, paths) && 1 <= e <= MAX_EDGES
      modifies this`m
      ensures m == PairStatus(old(m), paths, e, st)
    {
      FindPartnerOk(paths, e);
      SetEdgeStatus(e - 1, st);
      assert paths[0..] == paths;
      for j := 0 to |paths|
        invariant m == WithStatus(old(m), e, st) && FindPartner(paths, e) == FindPartner(paths[j..], e)
      {
        assert paths[j..][1..] == paths[j + 1..];
        match paths[j].GetOtherPath(e)
        case Some(other) =>
          SetEdgeStatus(other - 1, st);
          return;
        case None =>
      }
    }

    /** alter_edges_status */
    method AlterEdgesStatus(carId: nat, st: EdgeStatus) returns (found: bool)
      requires Sane(m, paths) && ValidCarId(View(), carId) && 1 <= cars[carId - 1].last <= MAX_NODES
      modifies this`m
      ensures m == AlterEdges(old(View()), carId, st)
      ensures found <==> old(var c := cars[carId - 1]; RoadTo(m, m.adj[c.last - 1], c.current).Some?)
    {
      var snap := cars[carId - 1];
      var ids := m.adj[snap.last - 1];
      assert ids[0..] == ids;
      for i := 0 to |ids|
        invariant m == old(m) && RoadTo(m, ids, snap.current) == RoadTo(m, ids[i..], snap.current)
      {
        RoadToSkip(m, ids, i, snap.current);
        if m.edges[ids[i] - 1].toNode == snap.current {
          SetPair(ids[i], st);
          return true;
        }
      }
      found := false;
    }

    /** Release of the road from -> to, by the planner and by POSITION. */
    method ReleaseRoad(from: nat, to: nat)
      requires Sane(m, paths) && from <= MAX_NODES
      modifies this`m
      ensures m == Release(old(m), paths, from, to)
    {
      if from > 0 && to > 0 {
        var ids := m.adj[from - 1];
        assert ids[0..] == ids;
        for i := 0 to |ids|
          invariant m == old(m) && OccupiedTo(m, ids, to) == OccupiedTo(m, ids[i..], to)
        {
          OccupiedToSkip(m, ids, i, to);
          if m.edges[ids[i] - 1].toNode == to && m.edges[ids[i] - 1].status == Occupied {
            SetPair(ids[i], EdgeIdle);
            break;
          }
        }
      }
    }

    /** OBSTACLE */
    method OnObstacle(carId: nat, temporary: bool, passTh: bool)
      requires Sane(m, paths) && ValidCarId(View(), carId) && 1 <= cars[carId - 1].last <= MAX_NODES
      modifies this
      ensures View() == ObstacleSeen(old(View()), carId, temporary, passTh)
    {
      if !temporary {
        var _ := AlterEdgesStatus(carId, FaultRepair);
        tasks := tasks + [Task(Replan, carId, 0, if passTh then UturnNoCross else Uturn)];
      } else {
        var _ := AlterEdgesStatus(carId, FaultTemp);
        SetCarStatus(carId - 1, Wait);
      }
    }

    /** REPAIRED */
    method OnRepaired(carId: nat)
      requires Sane(m, paths) && ValidCarId(View(), carId) && 1 <= cars[carId - 1].last <= MAX_NODES
      modifies this
      ensures View() == ObstacleGone(old(View()), carId)
    {
      var _ := AlterEdgesStatus(carId, EdgeIdle);
      SetCarStatus(carId - 1, Moving);
    }

    /** POSITION */
    method OnPosition(carId: nat, behind: nat, ahead: nat)
      requires Sane(m, paths) && ValidCarId(View(), carId) && cars[carId - 1].last <= MAX_NODES
      modifies this
      ensures View() == Positioned(old(View()), carId, behind, ahead)
    {
      var snap := cars[carId - 1];
      ReleaseRoad(snap.last, snap.current);
      UpdateCar(carId - 1, snap.(current := ahead, last := behind, task := 0, path := [], status := CarIdle));
    }

    /** The router's backward scan for the edge that leaves `node`. */
    method ScanPath(path: seq<nat>, node: nat) returns (k: Option<nat>)
      requires PathOk(m, path)
      ensures k == ScanBack(m, path, |path|, node)
    {
      var i: nat := |path|;
      while i > 0 && m.edges[path[i - 1] - 1].fromNode != node
        invariant i <= |path| && ScanBack(m, path, |path|, node) == ScanBack(m, path, i, node)
      {
        i := i - 1;
      }
      k := if i == 0 then None else Some(i - 1);
    }

    /** router::handle_task */
    method RouterHandleTask(carId: nat) returns (ok: bool)
      requires Routable(View(), carId)
      modifies this
      ensures View() == Arrived(old(View()), carId)
      ensures ok <==> old(ValidCarId(View(), carId) && Available(cars[carId - 1]) && RouterCar(m, cars[carId - 1]).Some?)
    {
      if carId > |cars| || carId == 0 { return false; }
      var c := cars[carId - 1];
      if c.status == CarFault || c.status == Offline { return false; }
      if c.current == c.target {
        SetPair(c.path[|c.path| - 1], Occupied);
        UpdateCar(carId - 1, c.(status := CarIdle, path := [], lastStart := c.current, task := 0));
        published := published + [Orient(carId, HasArrived)];
        return true;
      }
      var k := ScanPath(c.path, c.current);
      if k.None? { return false; }
      var next := m.edges[c.path[k.value] - 1].toNode;
      published := published + [Orient(carId, GenerateTurn(At(m, c.last), At(m, c.current), At(m, next)))];
      UpdateCar(carId - 1, c.(last := c.current, current := next));
      ok := true;
    }

    /** planner::handle_task; the path that the search returned is handed out as well. */
    method PlannerHandleTask(t: Task, dist: (Node, Node) -> real, fl: real -> real) returns (ok: bool, path: seq<nat>)
      requires PlannerReady(View(), t) && Binary32(fl)
      modifies this
      ensures PlanFinds(old(View()), t, dist, fl, path) && View() == Planned(old(View()), t, path)
      ensures ok <==> old(Plannable(View(), t)) && path != [] && |path| <= MAX_PATHLEN
    {
      path := [];
      if t.carId > |cars| || t.carId == 0 { return false, []; }
      var c := cars[t.carId - 1];
      if c.status == CarFault || c.status == Offline { return false, []; }
      var from, target := ChooseEnds(t, c);
      if from.None? { return false, []; }
      assert Plannable(View(), t);
      ok, path := Execute(t, c, from.value, target, dist, fl);
    }

    /** The second half of handle_task: search, then refuse or accept. */
    method Execute(t: Task, c: Car, start: nat, target: nat, dist: (Node, Node) -> real, fl: real -> real)
        returns (ok: bool, path: seq<nat>)
      requires Sane(m, paths) && ValidCarId(View(), t.carId) && c == cars[t.carId - 1] && NodesOk(m, c)
      requires Binary32(fl) && 1 <= start && 1 <= target
      modifies this
      ensures old(MapShape(PlanningMap(m, c)) && Finds(PlanningMap(m, c), start, target, dist, fl, path))
      ensures View() == Outcome(old(View()), t, start, target, path)
      ensures ok <==> path != [] && |path| <= MAX_PATHLEN
    {
      path := Search(c, start, target, dist, fl);
      if path == [] || |path| > MAX_PATHLEN {
        Refuse(t);
        ok := false;
      } else {
        Accept(t, c, start, target, path);
        ok := true;
      }
    }

    /** Target by action, start by mode; None when a U-turn finds no road back. */
    method ChooseEnds(t: Task, c: Car) returns (start: Option<nat>, target: nat)
      requires MapShape(m) && NodesOk(m, c)
      ensures start == PlanStart(m, t, c) && target == PlanTarget(t, c)
    {
      target, start := t.target, Some(c.current);
      if t.action == Replan { target := c.target; }
      if t.action == Cancel { target := c.lastStart; }
      if t.immediate == UturnNoCross { start := Some(c.last); }
      if t.immediate == Uturn { start := FindRevNode(c); }
    }

    /** The planner's own copy of the map, with the car's road freed. */
    method PlannersCopy(c: Car) returns (copy: MapData)
      requires MapShape(m) && NodesOk(m, c)
      ensures copy == PlanningMap(m, c) && MapShape(copy)
    {
      copy := Lift(m, c.last, c.current);
      PlanningMapShape(m, c);
    }

    /** find_path on that copy. */
    method Search(c: Car, start: nat, target: nat, dist: (Node, Node) -> real, fl: real -> real) returns (path: seq<nat>)
      requires MapShape(m) && NodesOk(m, c) && Binary32(fl) && 1 <= start && 1 <= target
      ensures MapShape(PlanningMap(m, c)) && Finds(PlanningMap(m, c), start, target, dist, fl, path)
    {
      var mapData := PlannersCopy(c);
      path := FindPath(mapData, start, target, dist, fl);
      assert Finds(mapData, start, target, dist, fl, path);
    }

    /** No path: a cancel pauses the car, a replan turns into a cancel. */
    method Refuse(t: Task)
      modifies this`published, this`tasks
      ensures published == if t.action == Cancel then old(published) + [Action(t.carId, Pause)] else old(published)
      ensures tasks == if t.action == Replan then old(tasks) + [Task(Cancel, t.carId, 0, t.immediate)] else old(tasks)
    {
      match t.action {
        case Assign =>
        case Cancel => published := published + [Action(t.carId, Pause)];
        case Replan => tasks := tasks + [Task(Cancel, t.carId, 0, t.immediate)];
      }
    }

    /** The accepted plan: the record first, then the old road, then CNT and the action. */
    method Accept(t: Task, car: Car, start: nat, target: nat, path: seq<nat>)
      requires Sane(m, paths) && ValidCarId(View(), t.carId) && car == cars[t.carId - 1] && car.last <= MAX_NODES
      modifies this
      ensures m == Release(old(m), paths, car.last, car.current) && tasks == old(tasks)
      ensures cars == old(cars)[t.carId - 1 := AcceptedCar(car, t, start, target, path)]
      ensures published == old(published) + Announcement(t, |path|)
    {
      var c := car;
      var origLast, origCur := c.last, c.current;
      if t.immediate == UturnNoCross { c := c.(last := c.current); }
      UpdateCar(t.carId - 1, c.(current := start, target := target, path := path, status := Moving));
      ReleaseRoad(origLast, origCur);
      published := published + [Cnt(t.carId, |path|)];
      if t.immediate == Uturn || t.immediate == UturnNoCross {
        published := published + [Action(t.carId, UturnNow)];
      } else if t.immediate == Immediately {
        published := published + [Action(t.carId, Process)];
      }
    }

    /** The loop of the kUturn mode. */
    method FindRevNode(c: Car) returns (rev: Option<nat>)
      requires MapShape(m) && NodesOk(m, c)
      ensures rev == RevNode(m, c.last, c.current, 0, None)
    {
      rev := None;
      var ids := m.adj[c.last - 1];
      for i := 0 to |ids|
        invariant RevNode(m, c.last, c.current, i, rev) == RevNode(m, c.last, c.current, 0, None)
      {
        var eid := ids[i];
        if eid >= m.edgeCount { continue; }
        var edge := m.edges[eid - 1];
        var s := m.nodes[edge.toNode - 1];
        if s.id == c.current || edge.status == Blocked || edge.status != EdgeIdle { continue; }
        if JudRev(At(m, c.last), At(m, c.current), Point(s.x, s.y)) { rev := Some(s.id); }
      }
    }

    /** find_edge_idx: -1 when no edge has the id. */
    method FindEdgeIdx(eid: nat) returns (idx: int)
      requires MapShape(m)
      ensures match IndexOf(m, eid, 0) case Some(i) => idx == i case None => idx == -1
    {
      for i := 0 to m.edgeCount
        invariant IndexOf(m, eid, 0) == IndexOf(m, eid, i)
      {
        if m.edges[i].id == eid { return i; }
      }
      idx := -1;
    }

    /** One round of the edge loop of /api/ban and /api/access. */
    method ApiSetOne(eid: nat, st: EdgeStatus)
      requires MapShape(m)
      modifies this`m
      ensures View() == SetByApi(old(View()), eid, st)
    {
      SetByIdKeeps(m, eid, st);
      var idx := FindEdgeIdx(eid);
      if idx >= 0 { SetEdgeStatus(idx, st); }
      if eid == 0 || eid > |paths| { return; }
      var pair := paths[eid - 1].GetOtherPath(eid);
      var other := if pair.Some? then pair.value else 0xFFFF;
      idx := FindEdgeIdx(other);
      if idx >= 0 { SetEdgeStatus(idx, st); }
    }

    /** The edge loop of /api/ban and /api/access. */
    method ApiSetStatus(eids: seq<nat>, st: EdgeStatus)
      requires MapShape(m)
      modifies this`m
      ensures View() == SetAllByApi(old(View()), eids, st)
    {
      assert eids[0..] == eids;
      for i := 0 to |eids|
        invariant MapShape(m) && SetAllByApi(View(), eids[i..], st) == SetAllByApi(old(View()), eids, st)
      {
        assert eids[i..][1..] == eids[i + 1..];
        SetByApiKeeps(View(), eids[i], st);
        ApiSetOne(eids[i], st);
      }
    }

    /** The edge loop of /api/repair. */
    method ApiRepair(eids: seq<nat>)
      requires MapShape(m)
      modifies this`m
      ensures View() == SetAllForRepair(old(View()), eids)
    {
      assert eids[0..] == eids;
      for i := 0 to |eids|
        invariant MapShape(m) && SetAllForRepair(View(), eids[i..]) == SetAllForRepair(old(View()), eids)
      {
        assert eids[i..][1..] == eids[i + 1..];
        SetByIdKeeps(m, eids[i], FaultRepair);
        var idx := FindEdgeIdx(eids[i]);
        if idx >= 0 { SetEdgeStatus(idx, FaultRepair); }
      }
    }

    /** trigger_replan_all: a replan for every car that is MOVING or WAITing. */
    method TriggerReplanAll()
      modifies this`tasks
      ensures tasks == old(tasks) + Replans(cars)
    {
      assert cars[..0] == [];
      for i := 0 to |cars|
        invariant tasks == old(tasks) + Replans(cars[..i])
      {
        assert cars[..i + 1][..i] == cars[..i];
        if cars[i].status == Moving || cars[i].status == Wait {
          tasks := tasks + [Task(Replan, cars[i].id, 0, AfterSegment)];
        }
      }
      assert cars[..|cars|] == cars;
    }
  }
}
