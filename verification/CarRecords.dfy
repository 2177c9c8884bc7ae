/** What a car record in shared memory always is, and how ARRIVEs drive it along its path. */
module CarRecords {
  import opened Layout
  import opened MapInit
  import opened RoadNetwork
  import opened Geometry
  import opened AStar
  import opened AStarTheorems
  import opened Dispatch

  /** The car heads for the j-th node of its path; from the second node on, along the path's own edge. */
  ghost predicate HeadsFor(m: MapData, c: Car, j: nat)
    requires SimpleChain(m, c.path)
  {
    j <= |c.path| && c.current == NodesOf(m, c.path)[j] && (j > 0 ==> c.last == NodesOf(m, c.path)[j - 1])
  }

  ghost predicate OnPath(m: MapData, c: Car) {
    && SimpleChain(m, c.path) && To(m, c.path[|c.path| - 1]) == c.target
    && exists j: nat :: HeadsFor(m, c, j)
  }

  /** The car is on a road of the map and has come from somewhere; a non-empty path is a simple chain to the target that it follows. */
  ghost predicate WellFormed(m: MapData, c: Car) {
    HasRoad(m, c.last, c.current) && 1 <= c.lastStart && (c.path != [] ==> OnPath(m, c))
  }

  lemma HasRoadKept(m: MapData, m': MapData, a: nat, b: nat)
    requires SameRoads(m, m') && HasRoad(m, a, b)
    ensures HasRoad(m', a, b)
  {
    var e: nat :| ValidEid(m, e) && From(m, e) == a && To(m, e) == b;
    EdgeKept(m, m', e);
  }

  lemma WellFormedKept(m: MapData, m': MapData, c: Car)
    requires SameRoads(m, m') && WellFormed(m, c)
    ensures WellFormed(m', c)
  {
    HasRoadKept(m, m', c.last, c.current);
    if c.path != [] {
      ChainKept(m, m', c.path);
      EdgeKept(m, m', c.path[|c.path| - 1]);
      var j: nat :| HeadsFor(m, c, j);
      assert HeadsFor(m', c, j);
    }
  }

  lemma StatusKeepsWellFormed(m: MapData, c: Car, st: CarStatus)
    requires WellFormed(m, c)
    ensures WellFormed(m, c.(status := st))
  {
    if c.path != [] {
      var j: nat :| HeadsFor(m, c, j);
      assert HeadsFor(m, c.(status := st), j);
    }
  }

  lemma ChainNodes(m: MapData, paths: seq<Bipath>, p: seq<nat>, i: nat)
    requires Network(m, paths) && SimpleChain(m, p) && i <= |p|
    ensures IsNode(m, NodesOf(m, p)[i])
  {
    assert SoundEdge(m, p[if i < |p| then i else i - 1]);
  }

  lemma DistinctNodesAreFew(m: MapData, ns: seq<nat>)
    requires Distinct(ns) && forall i :: 0 <= i < |ns| ==> IsNode(m, ns[i])
    ensures |ns| <= m.nodeCount && |ns| < MAX_NODES
  {
    Pigeonhole(ns, m.nodeCount);
    Pigeonhole(ns, MAX_NODES - 1);
  }

  /** A path in a record is shorter than the node count, so it fits path_stack and path_len. */
  lemma RecordPathIsShort(m: MapData, paths: seq<Bipath>, c: Car)
    requires Network(m, paths) && WellFormed(m, c) && c.path != []
    ensures |c.path| < m.nodeCount && |c.path| < MAX_NODES - 1
  {
    var ns := NodesOf(m, c.path);
    forall i | 0 <= i < |ns| ensures IsNode(m, ns[i]) { ChainNodes(m, paths, c.path, i); }
    DistinctNodesAreFew(m, ns);
  }

  lemma HasRoadNodes(m: MapData, paths: seq<Bipath>, a: nat, b: nat)
    requires Network(m, paths) && HasRoad(m, a, b)
    ensures IsNode(m, a) && IsNode(m, b) && a != b && HasRoad(m, b, a)
  {
    var e: nat :| ValidEid(m, e) && From(m, e) == a && To(m, e) == b;
    assert SoundEdge(m, e) && Reverses(m, e, Partner(|paths|, e));
  }

  lemma ChainPathOk(m: MapData, paths: seq<Bipath>, p: seq<nat>)
    requires Network(m, paths) && SimpleChain(m, p)
    ensures PathOk(m, p)
  {
    forall i | 0 <= i < |p| ensures 1 <= p[i] <= MAX_EDGES && 1 <= m.edges[p[i] - 1].toNode <= MAX_NODES {
      assert ValidEid(m, p[i]) && SoundEdge(m, p[i]);
    }
  }

  // ---------------------------------------------------------------- the router on a record

  /** The scan picks the one edge of the path that leaves the node the car heads for. */
  lemma ScanFindsEdge(m: MapData, p: seq<nat>, j: nat)
    requires SimpleChain(m, p) && PathOk(m, p) && j < |p|
    ensures ScanBack(m, p, |p|, NodesOf(m, p)[j]) == Some(j)
  {
    var ns := NodesOf(m, p);
    var r := ScanBack(m, p, |p|, ns[j]);
    assert From(m, p[j]) == ns[j];
    assert r.Some? ==> From(m, p[r.value]) == ns[r.value];
  }

  /** Only at the last node of the path is the car at its target. */
  lemma TargetIsLast(m: MapData, c: Car, j: nat)
    requires SimpleChain(m, c.path) && To(m, c.path[|c.path| - 1]) == c.target && HeadsFor(m, c, j)
    ensures c.current == c.target <==> j == |c.path|
  {
    var ns := NodesOf(m, c.path);
    assert ns[|c.path|] == c.target;
  }

  /** The record after an ARRIVE before the target: one node further along the path. */
  ghost function Advanced(m: MapData, c: Car, j: nat): Car
    requires SimpleChain(m, c.path) && j < |c.path|
  {
    c.(last := c.current, current := NodesOf(m, c.path)[j + 1])
  }

  lemma RouterMoves(m: MapData, c: Car, j: nat)
    requires SimpleChain(m, c.path) && PathOk(m, c.path) && NodesOk(m, c)
    requires HeadsFor(m, c, j) && j < |c.path| && c.current != c.target
    ensures var c' := Advanced(m, c, j);
            && HeadsFor(m, c', j + 1) && HasRoad(m, c.current, c'.current) && 1 <= c'.current <= MAX_NODES
            && RouterCar(m, c) == Some((c', GenerateTurn(At(m, c.last), At(m, c.current), At(m, c'.current))))
  {
    ScanFindsEdge(m, c.path, j);
    var e := c.path[j];
    assert ValidEid(m, e) && From(m, e) == c.current && To(m, e) == NodesOf(m, c.path)[j + 1];
  }

  lemma RecordIsRoutable(m: MapData, paths: seq<Bipath>, c: Car)
    requires Network(m, paths) && WellFormed(m, c)
    ensures NodesOk(m, c) && (c.path != [] ==> PathOk(m, c.path))
  {
    HasRoadNodes(m, paths, c.last, c.current);
    if c.path != [] { ChainPathOk(m, paths, c.path); }
  }

  /**
   * An ARRIVE on a record that follows its path: before the target it moves to the very next node and never fails;
   * at the target it answers ARRIVED.
   */
  lemma RouterFollowsPath(m: MapData, c: Car, j: nat)
    requires WellFormed(m, c) && c.path != [] && HeadsFor(m, c, j) && PathOk(m, c.path) && NodesOk(m, c)
    ensures c.current == c.target <==> j == |c.path|
    ensures j < |c.path| ==>
              var c' := Advanced(m, c, j);
              && HeadsFor(m, c', j + 1) && WellFormed(m, c') && 1 <= c'.current <= MAX_NODES
              && RouterCar(m, c) == Some((c', GenerateTurn(At(m, c.last), At(m, c.current), At(m, c'.current))))
    ensures j == |c.path| ==> RouterCar(m, c) == Some((ArrivedCar(c), HasArrived))
  {
    TargetIsLast(m, c, j);
    if j < |c.path| { RouterMoves(m, c, j); }
  }

  /** After an ARRIVE a well-formed record is well formed; the order is never refused. */
  lemma RouterKeepsWellFormed(m: MapData, c: Car)
    requires WellFormed(m, c) && c.path != [] && PathOk(m, c.path) && NodesOk(m, c)
    ensures RouterCar(m, c).Some? && WellFormed(m, RouterCar(m, c).value.0)
  {
    var j: nat :| HeadsFor(m, c, j);
    RouterFollowsPath(m, c, j);
  }

  /** How many ARRIVEs the car still has to make before the one that is answered ARRIVED. */
  ghost function Remaining(m: MapData, c: Car): nat
    requires OnPath(m, c)
  {
    var j: nat :| HeadsFor(m, c, j);
    |c.path| - j
  }

  lemma RemainingAt(m: MapData, c: Car, j: nat)
    requires OnPath(m, c) && HeadsFor(m, c, j)
    ensures Remaining(m, c) == |c.path| - j
  {
    var i: nat :| HeadsFor(m, c, i) && Remaining(m, c) == |c.path| - i;
    assert NodesOf(m, c.path)[i] == NodesOf(m, c.path)[j];
  }

  /** Every ARRIVE before the target shortens what remains by one. */
  lemma RouterMakesProgress(m: MapData, paths: seq<Bipath>, c: Car)
    requires Network(m, paths) && WellFormed(m, c) && c.path != [] && c.current != c.target
    ensures PathOk(m, c.path) && NodesOk(m, c) && RouterCar(m, c).Some?
    ensures var c' := RouterCar(m, c).value.0; OnPath(m, c') && Remaining(m, c') == Remaining(m, c) - 1
  {
    RecordIsRoutable(m, paths, c);
    var j: nat :| HeadsFor(m, c, j);
    RouterFollowsPath(m, c, j);
    RemainingAt(m, c, j);
    RemainingAt(m, Advanced(m, c, j), j + 1);
  }

  /** The router turns record b into c and answers `reply`. */
  ghost predicate Answers(m: MapData, b: Car, c: Car, reply: OriCmd) {
    PathOk(m, b.path) && NodesOk(m, b) && RouterCar(m, b) == Some((c, reply))
  }

  /** It does so after any changes of edge, node and car statuses, such as OBSTACLE and REPAIRED make, and after resets. */
  ghost predicate Drives(m: MapData, b: Car, c: Car, reply: OriCmd) {
    exists m': MapData, st: CarStatus :: SameRoads(m, m') && Answers(m', b.(status := st), c, reply)
  }

  /** c is what ARRIVEs, with changes of statuses in between, make of the record c0, one for each of the answers `replies`. */
  ghost predicate Driven(m: MapData, c0: Car, replies: seq<OriCmd>, c: Car)
    decreases |replies|
  {
    if replies == [] then c == c0
    else
      var n := |replies| - 1;
      exists b: Car :: Driven(m, c0, replies[..n], b) && Drives(m, b, c, replies[n])
  }

  /** A record whose path is k edges long, with the car heading for its first node. */
  ghost predicate FreshPlan(m: MapData, c: Car) { WellFormed(m, c) && c.path != [] && HeadsFor(m, c, 0) }

  /** Where n <= k ARRIVEs have brought a car with a fresh plan. */
  ghost predicate Underway(m: MapData, c0: Car, n: nat, c: Car) {
    c.path == c0.path && c.target == c0.target && WellFormed(m, c) && c.path != [] && HeadsFor(m, c, n)
  }

  ghost predicate Parked(c0: Car, c: Car) {
    c.status == CarIdle && c.path == [] && c.current == c0.target && c.lastStart == c0.target
  }

  lemma UnderwayStep(m: MapData, c0: Car, n: nat, b: Car)
    requires Underway(m, c0, n, b) && n < |c0.path| && PathOk(m, b.path) && NodesOk(m, b)
    ensures RouterCar(m, b).Some?
    ensures Underway(m, c0, n + 1, RouterCar(m, b).value.0) && RouterCar(m, b).value.1 != HasArrived
  {
    RouterFollowsPath(m, b, n);
    assert RouterCar(m, b).value.0 == Advanced(m, b, n);
  }

  lemma UnderwayEnds(m: MapData, c0: Car, b: Car)
    requires Underway(m, c0, |c0.path|, b) && PathOk(m, b.path) && NodesOk(m, b)
    ensures RouterCar(m, b).Some?
    ensures Parked(c0, RouterCar(m, b).value.0) && RouterCar(m, b).value.1 == HasArrived
  {
    RouterFollowsPath(m, b, |c0.path|);
  }

  /** After `replies` ARRIVEs the car is at that node of the plan, or parked at its end. */
  ghost predicate AsPlanned(m: MapData, c0: Car, replies: seq<OriCmd>, c: Car) {
    var k := |c0.path|;
    if |replies| <= k then Underway(m, c0, |replies|, c) && HasArrived !in replies
    else Parked(c0, c) && replies[k] == HasArrived && HasArrived !in replies[..k]
  }

  /** Another map with the same roads, and another status of the car, leave it where it is on its plan. */
  lemma UnderwayKept(m: MapData, m': MapData, c0: Car, n: nat, c: Car, st: CarStatus)
    requires Underway(m, c0, n, c) && SameRoads(m, m')
    ensures Underway(m', c0, n, c.(status := st))
  {
    WellFormedKept(m, m', c);
    StatusKeepsWellFormed(m', c, st);
    ChainKept(m, m', c.path);
    assert NodesOf(m', c.path) == NodesOf(m, c.path);
  }

  lemma AnswerStep(m: MapData, c0: Car, init: seq<OriCmd>, b: Car, reply: OriCmd, c: Car)
    requires |init| <= |c0.path| && AsPlanned(m, c0, init, b) && Answers(m, b, c, reply)
    ensures AsPlanned(m, c0, init + [reply], c)
  {
    if |init| < |c0.path| {
      UnderwayStep(m, c0, |init|, b);
    } else {
      UnderwayEnds(m, c0, b);
      assert (init + [reply])[..|c0.path|] == init;
    }
  }

  lemma AsPlannedBack(m: MapData, m': MapData, c0: Car, replies: seq<OriCmd>, c: Car)
    requires AsPlanned(m', c0, replies, c) && SameRoads(m, m')
    ensures AsPlanned(m, c0, replies, c)
  {
    hide Underway, SameRoads;
    SameRoadsSymmetric(m, m');
    if |replies| <= |c0.path| {
      UnderwayKept(m', m, c0, |replies|, c, c.status);
      assert c.(status := c.status) == c;
    }
  }

  lemma DriveStep(m: MapData, c0: Car, init: seq<OriCmd>, b: Car, reply: OriCmd, c: Car)
    requires |init| <= |c0.path| && AsPlanned(m, c0, init, b) && Drives(m, b, c, reply)
    ensures AsPlanned(m, c0, init + [reply], c)
  {
    hide SameRoads, Answers, Underway;
    var m': MapData, st: CarStatus :| SameRoads(m, m') && Answers(m', b.(status := st), c, reply);
    UnderwayKept(m, m', c0, |init|, b, st);
    AnswerStep(m', c0, init, b.(status := st), reply, c);
    AsPlannedBack(m, m', c0, init + [reply], c);
  }

  lemma LastDrive(m: MapData, c0: Car, replies: seq<OriCmd>, c: Car) returns (b: Car)
    requires Driven(m, c0, replies, c) && replies != []
    ensures Driven(m, c0, replies[..|replies| - 1], b) && Drives(m, b, c, replies[|replies| - 1])
  {
    b :| Driven(m, c0, replies[..|replies| - 1], b) && Drives(m, b, c, replies[|replies| - 1]);
  }

  /** From a fresh plan of k edges, n <= k ARRIVEs lead to the n-th node with orders only; the (k+1)-th is answered ARRIVED. */
  lemma {:induction false} ArrivesFollowPlan(m: MapData, c0: Car, replies: seq<OriCmd>, c: Car)
    requires FreshPlan(m, c0) && |replies| <= |c0.path| + 1 && Driven(m, c0, replies, c)
    ensures AsPlanned(m, c0, replies, c)
    decreases |replies|
  {
    hide WellFormed, HeadsFor, Drives;
    if replies == [] {
      assert c == c0;
    } else {
      var n := |replies| - 1;
      assert replies == replies[..n] + [replies[n]];
      var b := LastDrive(m, c0, replies, c);
      ArrivesFollowPlan(m, c0, replies[..n], b);
      DriveStep(m, c0, replies[..n], b, replies[n], c);
    }
  }

  /** The router can be called on every well-formed record: its scan and its coordinates stay inside the tables. */
  ghost predicate RecordsRoutable(m: MapData) {
    forall c: Car :: WellFormed(m, c) ==> NodesOk(m, c) && (c.path != [] ==> PathOk(m, c.path))
  }

  lemma NetworkIsRoutable(m: MapData, paths: seq<Bipath>)
    requires Network(m, paths)
    ensures RecordsRoutable(m)
  {
    forall c: Car | WellFormed(m, c) ensures NodesOk(m, c) && (c.path != [] ==> PathOk(m, c.path)) {
      RecordIsRoutable(m, paths, c);
    }
  }

  lemma NextDrive(m: MapData, c0: Car, init: seq<OriCmd>, b: Car) returns (reply: OriCmd, c: Car)
    requires RecordsRoutable(m) && |init| <= |c0.path| && AsPlanned(m, c0, init, b)
    ensures Drives(m, b, c, reply)
  {
    assert WellFormed(m, b);
    if |init| < |c0.path| { UnderwayStep(m, c0, |init|, b); } else { UnderwayEnds(m, c0, b); }
    c, reply := RouterCar(m, b).value.0, RouterCar(m, b).value.1;
    SameRoadsReflexive(m);
    assert b.(status := b.status) == b && Answers(m, b.(status := b.status), c, reply);
  }

  lemma DrivenSnoc(m: MapData, c0: Car, init: seq<OriCmd>, b: Car, reply: OriCmd, c: Car)
    requires Driven(m, c0, init, b) && Drives(m, b, c, reply)
    ensures Driven(m, c0, init + [reply], c)
  {
    assert (init + [reply])[..|init|] == init;
  }

  lemma {:induction false} DriveExists(m: MapData, c0: Car, n: nat) returns (replies: seq<OriCmd>, c: Car)
    requires RecordsRoutable(m) && FreshPlan(m, c0) && n <= |c0.path| + 1
    ensures |replies| == n && Driven(m, c0, replies, c)
    decreases n
  {
    if n == 0 {
      replies, c := [], c0;
    } else {
      var init, b := DriveExists(m, c0, n - 1);
      ArrivesFollowPlan(m, c0, init, b);
      var reply;
      reply, c := NextDrive(m, c0, init, b);
      DrivenSnoc(m, c0, init, b, reply, c);
      replies := init + [reply];
    }
  }

  /** Such a drive exists for every n up to the arrival: the router never gets stuck on the way. */
  lemma ArrivesNeverFail(m: MapData, paths: seq<Bipath>, c0: Car, n: nat) returns (replies: seq<OriCmd>, c: Car)
    requires Network(m, paths) && FreshPlan(m, c0) && n <= |c0.path| + 1
    ensures |replies| == n && Driven(m, c0, replies, c)
  {
    hide Network, FreshPlan, Driven;
    NetworkIsRoutable(m, paths);
    replies, c := DriveExists(m, c0, n);
  }

  // ---------------------------------------------------------------- accepted plans

  /** The path that find_path returned on a copy of the map is a chain of the shared map. */
  lemma FoundPathIsChain(m: MapData, copy: MapData, paths: seq<Bipath>, start: nat, target: nat,
                         dist: (Node, Node) -> real, fl: real -> real, p: seq<nat>)
    requires Network(m, paths) && SameRoads(m, copy) && MapShape(copy) && Binary32(fl)
    requires Finds(copy, start, target, dist, fl, p) && p != []
    ensures SimpleChain(m, p) && From(m, p[0]) == start && To(m, p[|p| - 1]) == target && |p| < MAX_PATHLEN
  {
    var q := Query(copy, start, target, dist, fl);
    var r: seq<Search> :| Returns(q, r, p);
    ResultIsSimpleRoute(q, r, p);
    NetworkKept(m, copy, paths);
    RouteNodesAre(copy, paths, start, p, target);
    SameRoadsSymmetric(m, copy);
    ChainKept(copy, m, p);
    EdgeKept(m, copy, p[0]);
    EdgeKept(m, copy, p[|p| - 1]);
  }

  /** In every mode the record of an accepted plan is on a road and heads for the first node of its path. */
  lemma AcceptedIsWellFormed(m: MapData, snap: MapData, paths: seq<Bipath>, c: Car, t: Task, start: nat,
                             dist: (Node, Node) -> real, fl: real -> real, p: seq<nat>)
    requires Network(m, paths) && SameRoads(m, snap) && MapShape(snap) && WellFormed(m, c) && NodesOk(snap, c) && Binary32(fl)
    requires PlanStart(snap, t, c) == Some(start) && MapShape(PlanningMap(snap, c))
    requires Finds(PlanningMap(snap, c), start, PlanTarget(t, c), dist, fl, p) && p != []
    ensures var c' := AcceptedCar(c, t, start, PlanTarget(t, c), p); WellFormed(m, c') && HeadsFor(m, c', 0)
  {
    var c' := AcceptedCar(c, t, start, PlanTarget(t, c), p);
    PlanningMapShape(snap, c);
    SameRoadsTransitive(m, snap, PlanningMap(snap, c));
    FoundPathIsChain(m, PlanningMap(snap, c), paths, start, PlanTarget(t, c), dist, fl, p);
    HasRoadNodes(m, paths, c.last, c.current);
    if t.immediate == Uturn {
      NetworkKept(m, snap, paths);
      PlanStartRoad(snap, paths, t, c);
      SameRoadsSymmetric(m, snap);
      HasRoadKept(snap, m, c.last, start);
    }
    assert HeadsFor(m, c', 0);
  }

  /** A listed edge is a road out of n, and the node it leads to has its own id. */
  ghost predicate LeadsOut(m: MapData, n: nat, e: nat)
    requires |m.edges| == MAX_EDGES && |m.nodes| == MAX_NODES
  {
    1 <= e <= MAX_EDGES && var v := m.edges[e - 1].toNode; 1 <= v <= MAX_NODES && HasRoad(m, n, v) && m.nodes[v - 1].id == v
  }

  lemma {:induction false} RevNodeRoad(m: MapData, last: nat, current: nat, i: nat, found: Option<nat>)
    requires MapShape(m) && 1 <= last <= MAX_NODES && 1 <= current <= MAX_NODES && i <= |m.adj[last - 1]|
    requires forall e :: e in m.adj[last - 1] ==> LeadsOut(m, last, e)
    requires found.Some? ==> HasRoad(m, last, found.value)
    ensures var r := RevNode(m, last, current, i, found); r.Some? ==> HasRoad(m, last, r.value)
    decreases |m.adj[last - 1]| - i
  {
    if i < |m.adj[last - 1]| {
      var e := m.adj[last - 1][i];
      assert LeadsOut(m, last, e);
      var next := if TurnsBack(m, e, last, current) then Some(m.nodes[m.edges[e - 1].toNode - 1].id) else found;
      RevNodeRoad(m, last, current, i + 1, next);
    }
  }

  lemma ListedRoad(m: MapData, paths: seq<Bipath>, n: nat, e: nat)
    requires Network(m, paths) && 1 <= n <= MAX_NODES && e in m.adj[n - 1]
    ensures LeadsOut(m, n, e)
  {
    assert Listed(m, n, e);
    assert SoundEdge(m, e);
    assert From(m, e) == n && To(m, e) == m.edges[e - 1].toNode;
  }

  /** A U-turn plan starts at the far end of a road out of the car's last node. */
  lemma PlanStartRoad(m: MapData, paths: seq<Bipath>, t: Task, c: Car)
    requires Network(m, paths) && NodesOk(m, c) && t.immediate == Uturn && PlanStart(m, t, c).Some?
    ensures HasRoad(m, c.last, PlanStart(m, t, c).value)
  {
    forall e | e in m.adj[c.last - 1] ensures LeadsOut(m, c.last, e) { ListedRoad(m, paths, c.last, e); }
    RevNodeRoad(m, c.last, c.current, 0, None);
  }
}
