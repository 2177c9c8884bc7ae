/** On the shipped map, whose weights are far below the distances, find_path can return a dear path although a cheap one exists. */
module Detour {
  import opened Layout
  import opened MapInit
  import opened RoadNetwork
  import opened AStar
  import opened AStarInvariant
  import opened Heuristic
  import opened Shipped

  const L6: nat := 6

  /** The shipped table after a temporary obstacle on L6, the road between N4 and N7. */
  function FaultyRoads(): (rs: seq<Road>)
    ensures |rs| == ROAD_COUNT
  {
    ShippedRoads()[L6 - 1 := Road(4, 7, 10, FaultTemp)]
  }

  lemma FaultyTable()
    ensures SameTable(FaultyRoads())
  {
  }

  /** The search uses the planner's own heuristic, for an exact square root and some rounding to binary32. */
  ghost predicate OwnHeuristic(q: Query) { exists sqrt: real -> real :: UsesStraight(q, sqrt) }

  ghost predicate DetourQuery(q: Query) {
    && FromOk(Edges(FaultyRoads())) && q.m == StartMap(FaultyRoads(), 1) && q.start == 4 && q.target == 7
    && ValidQuery(q) && OwnHeuristic(q)
  }

  // ---------------------------------------------------------------- the map around N4

  lemma OutOfN4(e: nat)
    requires 1 <= e <= 2 * ROAD_COUNT
    ensures Edges(FaultyRoads())[e - 1].fromNode == 4 <==> e == 4 || e == 6 || e == 19
  {
    FaultyTable();
    EdgeAt(FaultyRoads(), e);
    TableRoad(FaultyRoads(), if e <= ROAD_COUNT then e - 1 else e - 1 - ROAD_COUNT);
  }

  lemma {:induction false} OutSkip(es: seq<Edge>, n: nat, i: nat, j: nat)
    requires i <= j <= |es| && forall k :: i <= k < j ==> es[k].fromNode != n
    ensures OutIds(es, n, i) == OutIds(es, n, j)
    decreases j - i
  {
    if i < j { OutSkip(es, n, i + 1, j); }
  }

  lemma OutTake(es: seq<Edge>, n: nat, i: nat, j: nat)
    requires i < j <= |es| && es[i].fromNode == n && es[i].id == i + 1 && forall k :: i < k < j ==> es[k].fromNode != n
    ensures OutIds(es, n, i) == [i + 1] + OutIds(es, n, j)
  {
    OutSkip(es, n, i + 1, j);
  }

  lemma ListOfN4(es: seq<Edge>)
    requires |es| == 36 && DistinctIds(es) && forall k :: 0 <= k < 36 ==> (es[k].fromNode == 4 <==> k == 3 || k == 5 || k == 18)
    ensures OutIds(es, 4, 0) == [4, 6, 19]
  {
    OutSkip(es, 4, 0, 3);
    OutTake(es, 4, 3, 5);
    OutTake(es, 4, 5, 18);
    OutTake(es, 4, 18, 36);
    assert OutIds(es, 4, 36) == [];
  }

  lemma AdjacencyOfN4(q: Query)
    requires DetourQuery(q)
    ensures q.m.adj[3] == [4, 6, 19]
  {
    hide ValidQuery, FaultyRoads, OwnHeuristic;
    FaultyTable();
    var es := Edges(FaultyRoads());
    TableIsPlain(FaultyRoads());
    PlainIsValid(FaultyRoads());
    EdgesFromOk(FaultyRoads());
    forall k | 0 <= k < 36 ensures es[k].fromNode == 4 <==> k == 3 || k == 5 || k == 18 { OutOfN4(k + 1); }
    ListOfN4(es);
    FilledIsAppend(AfterRuns(es, 0), es, 0, 3);
    AppendIsPrefix([], OutIds(es, 4, 0));
    assert AfterRuns(es, 1) == Filled(AfterRuns(es, 0), es, 0);
    assert q.m.adj == AfterRuns(es, 1);
  }

  lemma EdgesAround(q: Query)
    requires DetourQuery(q)
    ensures q.m.edges[3] == Edge(4, 4, 5, 10, EdgeIdle) && q.m.edges[5] == Edge(6, 4, 7, 10, FaultTemp)
    ensures q.m.edges[18] == Edge(19, 4, 1, 10, Occupied)
    ensures q.m.edges[6] == Edge(7, 5, 8, 10, EdgeIdle) && q.m.edges[26] == Edge(27, 8, 7, 10, EdgeIdle)
  {
    hide ValidQuery, OwnHeuristic;
    var rs := FaultyRoads();
    EdgeAt(rs, 4);
    EdgeAt(rs, 6);
    EdgeAt(rs, 19);
    EdgeAt(rs, 7);
    EdgeAt(rs, 27);
  }

  lemma NodesAround(q: Query)
    requires DetourQuery(q)
    ensures q.m.nodeCount == 15 && q.m.edgeCount == 36 && forall i :: 0 <= i < MAX_NODES ==> q.m.nodes[i].status == NodeIdle
    ensures q.m.nodes[4].x == 260 && q.m.nodes[4].y == 190 && q.m.nodes[6].x == 450 && q.m.nodes[6].y == 70
  {
    hide ValidQuery, OwnHeuristic;
  }

  /** The float distance from a node to itself is 0. */
  lemma NoDistance(q: Query, sqrt: real -> real, a: Node)
    requires UsesStraight(q, sqrt)
    ensures q.dist(a, a) == 0.0
  {
    hide Rounding, SquareRoot;
    FlClose(q.fl, 0.0);
    RootOfZero(sqrt);
    assert Dx(a, a) == 0.0 && Dy(a, a) == 0.0 && Sq(0.0) == 0.0;
  }

  lemma LongDistance(sqrt: real -> real, a: Node, b: Node)
    requires SquareRoot(sqrt) && Dx(a, b) == -190.0 && Dy(a, b) == 120.0
    ensures Distance(sqrt, a, b) >= 224.0
  {
    hide SquareRoot;
    assert Sq(-190.0) == 36100.0 && Sq(120.0) == 14400.0 && Sq(224.0) == 50176.0;
    Root(sqrt, SquaredDistance(a, b));
    SquareLess(224.0, Distance(sqrt, a, b));
  }

  /** N5 is more than 200 away from N7. */
  lemma FarAway(q: Query)
    requires DetourQuery(q)
    ensures H(q, 7) == 0.0 && H(q, 5) >= 200.0
  {
    NodesAround(q);
    var sqrt: real -> real :| UsesStraight(q, sqrt);
    var a, b := q.m.nodes[4], q.m.nodes[6];
    NoDistance(q, sqrt, b);
    LongDistance(sqrt, a, b);
    StraightIsClose(q.fl, sqrt, a, b);
    assert q.dist(a, b) == Straight(q.fl, sqrt, a, b);
  }

  // ---------------------------------------------------------------- the only run

  /** The loop's state after N4 has been expanded. */
  ghost function Expanded(q: Query): Search
    requires DetourQuery(q)
  {
    var i := Init(q);
    Search(i.g[5 := 10][7 := 110], i.cameFrom[5 := 4][7 := 4], i.cameEdge[5 := 4][7 := 6], i.closed[4 := true],
           [AStarNode(5, q.fl(10.0 + H(q, 5))), AStarNode(7, q.fl(110.0 + H(q, 7)))])
  }

  lemma CountOne(n: nat, v: nat)
    requires v < n
    ensures Count(seq(n, _ => false)[v := true]) >= 1
  {
    var none: seq<bool> := seq(n, _ => false);
    CountSet(none, v);
  }

  /** The state in which N4 has been popped and closed. */
  ghost function Closed4(q: Query): (s: Search)
    requires DetourQuery(q)
    ensures Shape(q, s)
  {
    Init(q).(closed := Init(q).closed[4 := true], open := [])
  }

  ghost function After5(q: Query): (s: Search)
    requires DetourQuery(q)
    ensures Shape(q, s)
  {
    var i := Closed4(q);
    Search(i.g[5 := 10], i.cameFrom[5 := 4], i.cameEdge[5 := 4], i.closed, [AStarNode(5, q.fl(10.0 + H(q, 5)))])
  }

  /** A first relaxation writes the step's own cost. */
  lemma RelaxNew(q: Query, s: Search, eid: nat, v: nat)
    requires ValidQuery(q) && Shape(q, s) && Expanding(q, s, 4) && eid in q.m.adj[3] && CanStep(q.m, 4, eid, v)
    requires s.g[4] == 0 && s.g[v] == INF
    ensures Relax(q, s, 4, eid) == Lower(q, s, 4, eid, v, StepCost(q.m, eid, v))
  {
    RelaxExact(q, s, 4, eid);
  }

  lemma StartCosts(q: Query)
    requires DetourQuery(q)
    ensures ValidQuery(q) && Closed4(q).g[4] == 0 && Closed4(q).g[5] == INF && After5(q).g[4] == 0 && After5(q).g[7] == INF
    ensures Expanding(q, Closed4(q), 4) && Expanding(q, After5(q), 4)
  {
    CountOne(16, 4);
  }

  lemma Relax5(q: Query)
    requires DetourQuery(q)
    ensures ValidQuery(q) && q.m.adj[3] == [4, 6, 19] && Relax(q, Closed4(q), 4, 4) == After5(q)
  {
    hide DetourQuery, ValidQuery, Relax, Expanding, CanStep, StepCost;
    QueryIs(q);
    AdjacencyOfN4(q);
    StepsAround(q);
    StartCosts(q);
    RelaxNew(q, Closed4(q), 4, 5);
    assert Closed4(q).open + [AStarNode(5, q.fl(10 as real + H(q, 5)))] == After5(q).open;
  }

  lemma Relax7(q: Query)
    requires DetourQuery(q)
    ensures ValidQuery(q) && Shape(q, Expanded(q)) && q.m.adj[3] == [4, 6, 19] && Relax(q, After5(q), 4, 6) == Expanded(q)
  {
    hide DetourQuery, ValidQuery, Relax, Expanding, CanStep, StepCost;
    QueryIs(q);
    AdjacencyOfN4(q);
    StepsAround(q);
    StartCosts(q);
    RelaxNew(q, After5(q), 6, 7);
    assert After5(q).open + [AStarNode(7, q.fl(110 as real + H(q, 7)))] == Expanded(q).open;
  }

  lemma Relax1(q: Query)
    requires DetourQuery(q) && Shape(q, Expanded(q))
    ensures q.m.adj[3] == [4, 6, 19] && Relax(q, Expanded(q), 4, 19) == Expanded(q)
  {
    AdjacencyOfN4(q);
    EdgesAround(q);
    assert HardObstacle(q.m, 19, 1);
  }

  lemma FirstRound(q: Query)
    requires DetourQuery(q)
    ensures MayPop(Init(q), 0) && !HitsTarget(q, Init(q), 0) && Iterate(q, Init(q), 0) == Expanded(q)
  {
    hide DetourQuery, ValidQuery, Relax;
    QueryIs(q);
    Relax5(q);
    Relax7(q);
    Relax1(q);
    var s := Closed4(q);
    assert Without(Init(q).open, 0) == [];
    assert Init(q).(open := Without(Init(q).open, 0)).(closed := Init(q).closed[4 := true]) == s;
    assert Expand(q, s, 4, 0) == Expand(q, After5(q), 4, 1);
    assert Expand(q, After5(q), 4, 1) == Expand(q, Expanded(q), 4, 2);
    assert Expand(q, Expanded(q), 4, 2) == Expand(q, Expanded(q), 4, 3) == Expanded(q);
  }

  lemma QueryIs(q: Query)
    requires DetourQuery(q)
    ensures ValidQuery(q) && q.start == 4 && q.target == 7 && InRange(q.m, 4) && InRange(q.m, 7) && |q.m.nodes| == MAX_NODES && |q.m.adj| == MAX_NODES
    ensures q.m.nodeCount == 15 && Shape(q, Init(q))
  {
    NodesAround(q);
  }

  /** Then N7, with key 110, is on top of the queue: N5 has more than 200. */
  lemma TopIsTarget(q: Query, k: nat)
    requires DetourQuery(q) && Shape(q, Expanded(q))
    ensures MayPop(Expanded(q), k) <==> k == 1
    ensures HitsTarget(q, Expanded(q), 1)
  {
    QueryIs(q);
    FarAway(q);
    var s := Expanded(q);
    FlInt(q.fl, 110);
    FlInt(q.fl, 200);
    assert q.fl(200.0) <= q.fl(10.0 + H(q, 5));
    assert s.open[1].f == 110.0 && s.open[0].f >= 200.0;
  }

  lemma TracedBack(q: Query, p: seq<nat>)
    requires DetourQuery(q)
    ensures Traces(Expanded(q), 7, p) <==> p == [6]
  {
    hide DetourQuery, ValidQuery;
    QueryIs(q);
    var s := Expanded(q);
    assert s.cameFrom[7] == 4 && s.cameEdge[7] == 6 && s.cameFrom[4] == -1;
    assert Traces(s, 7, p) <==> p != [] && p[|p| - 1] == 6 && Traces(s, 4, p[..|p| - 1]);
    assert p != [] ==> (Traces(s, 4, p[..|p| - 1]) <==> p[..|p| - 1] == []);
    assert p != [] && p[..|p| - 1] == [] && p[|p| - 1] == 6 ==> p == [6];
  }

  /** find_path from N4 to N7 always returns L6 alone. */
  lemma OnlyResult(q: Query, p: seq<nat>)
    requires DetourQuery(q)
    ensures MayReturn(q, p) <==> p == [6]
  {
    hide DetourQuery, ValidQuery, Expanded, Iterate, Traces;
    QueryIs(q);
    FirstRound(q);
    Relax7(q);
    forall k: nat { TopIsTarget(q, k); }
    TracedBack(q, p);
    if p == [6] {
      var r := [Init(q), Expanded(q)];
      assert Succ(q, r[0], r[1]);
      assert IsRun(q, r);
      TopIsTarget(q, 1);
      assert Returns(q, r, p);
    }
    if MayReturn(q, p) {
      var r: seq<Search> :| Returns(q, r, p);
      RunIsShort(q, r);
      LastOfRun(q, r, p);
    }
  }

  /** A run has one round at most: the second would pop the target. */
  lemma RunIsShort(q: Query, r: seq<Search>)
    requires DetourQuery(q) && IsRun(q, r)
    ensures r == [Init(q)] || r == [Init(q), Expanded(q)]
  {
    hide DetourQuery, ValidQuery, Expanded, Iterate;
    QueryIs(q);
    FirstRound(q);
    Relax7(q);
    if |r| >= 2 {
      assert Succ(q, r[0], r[0 + 1]);
      var k: nat :| MayPop(r[0], k) && !HitsTarget(q, r[0], k) && r[1] == Iterate(q, r[0], k);
      assert k == 0 && r[1] == Expanded(q);
      if |r| >= 3 {
        assert Succ(q, r[1], r[1 + 1]);
        var l: nat :| MayPop(r[1], l) && !HitsTarget(q, r[1], l) && r[2] == Iterate(q, r[1], l);
        TopIsTarget(q, l);
      }
    }
  }

  lemma LastOfRun(q: Query, r: seq<Search>, p: seq<nat>)
    requires DetourQuery(q) && ValidQuery(q) && Returns(q, r, p) && (r == [Init(q)] || r == [Init(q), Expanded(q)])
    ensures Traces(Expanded(q), 7, p)
  {
    hide DetourQuery, ValidQuery, Expanded, Iterate, Traces;
    QueryIs(q);
    if r != [Init(q)] { ExpandedIsOpen(q); }
  }

  lemma ExpandedIsOpen(q: Query)
    requires DetourQuery(q)
    ensures Expanded(q).open != []
  {
  }

  // ---------------------------------------------------------------- the cheaper route

  lemma CheapRoute(q: Query)
    requires DetourQuery(q)
    ensures IsRoute(q.m, 4, [4, 7, 27], 7) && RouteCost(q.m, 4, [4, 7, 27], 7) == 30
    ensures IsRoute(q.m, 4, [6], 7) && RouteCost(q.m, 4, [6], 7) == 110
  {
    hide DetourQuery, ValidQuery;
    QueryIs(q);
    StepsAround(q);
    OneStepRoute(q.m, 4, 6, 7);
    OneStepRoute(q.m, 8, 27, 7);
    assert [7, 27][1..] == [27] && [4, 7, 27][1..] == [7, 27];
    assert IsRoute(q.m, 5, [7, 27], 7) && RouteCost(q.m, 5, [7, 27], 7) == 20;
  }

  lemma OneStepRoute(m: MapData, u: nat, e: nat, v: nat)
    requires MapShape(m) && CanStep(m, u, e, v)
    ensures IsRoute(m, u, [e], v) && RouteCost(m, u, [e], v) == StepCost(m, e, v)
  {
    assert [e][1..] == [];
    assert IsRoute(m, v, [], v);
  }

  lemma ListsAround(q: Query)
    requires DetourQuery(q)
    ensures Listed(q.m, 4, 4) && Listed(q.m, 4, 6) && Listed(q.m, 5, 7) && Listed(q.m, 8, 27)
  {
    hide ValidQuery, OwnHeuristic;
    EdgesAround(q);
    NodesAround(q);
    FaultyTable();
    ShippedNetwork(FaultyRoads(), 1);
    assert ValidEid(q.m, 4) && ValidEid(q.m, 6) && ValidEid(q.m, 7) && ValidEid(q.m, 27);
  }

  lemma StepsAround(q: Query)
    requires DetourQuery(q)
    ensures MapShape(q.m)
    ensures CanStep(q.m, 4, 6, 7) && StepCost(q.m, 6, 7) == 110 && CanStep(q.m, 4, 4, 5) && StepCost(q.m, 4, 5) == 10
    ensures CanStep(q.m, 5, 7, 8) && StepCost(q.m, 7, 8) == 10 && CanStep(q.m, 8, 27, 7) && StepCost(q.m, 27, 7) == 10
    ensures q.m.edges[3].fromNode == 4 && q.m.edges[3].toNode == 5 && q.m.edges[6].fromNode == 5 && q.m.edges[6].toNode == 8
  {
    hide DetourQuery, ValidQuery, MapShape;
    ShapeIs(q);
    EdgesAround(q);
    NodesAround(q);
    ListsAround(q);
  }

  lemma ShapeIs(q: Query)
    requires DetourQuery(q)
    ensures MapShape(q.m) && |q.m.nodes| == MAX_NODES && |q.m.adj| == MAX_NODES && |q.m.edges| == MAX_EDGES
  {
  }

  /** With a temporary obstacle on L6 the planner always sends the car through it, at cost 110, although a route of cost 30 exists. */
  lemma ConsistencyIsNeeded(q: Query, p: seq<nat>)
    requires DetourQuery(q) && MayReturn(q, p)
    ensures IsRoute(q.m, 4, p, 7) && RouteCost(q.m, 4, p, 7) == 110
    ensures IsRoute(q.m, 4, [4, 7, 27], 7) && RouteCost(q.m, 4, [4, 7, 27], 7) == 30
  {
    OnlyResult(q, p);
    CheapRoute(q);
  }

  /** Every rounding to binary32 and every exact square root make such a search. */
  lemma DetourExists(fl: real -> real, sqrt: real -> real) returns (q: Query)
    requires Rounding(fl) && SquareRoot(sqrt)
    ensures q.fl == fl && UsesStraight(q, sqrt) && DetourQuery(q) && MayReturn(q, [6])
  {
    hide Rounding, SquareRoot, Straight, MayReturn, Network;
    FaultyTable();
    ShippedNetwork(FaultyRoads(), 1);
    RoundingIsBinary32(fl);
    NetworkShape(StartMap(FaultyRoads(), 1), Bipaths(FaultyRoads()));
    q := Query(StartMap(FaultyRoads(), 1), 4, 7, (a: Node, b: Node) => Straight(fl, sqrt, a, b), fl);
    assert UsesStraight(q, sqrt);
    OnlyResult(q, [6]);
  }

  lemma RoundingIsBinary32(fl: real -> real)
    requires Rounding(fl)
    ensures Binary32(fl)
  {
  }

  lemma NetworkShape(m: MapData, paths: seq<Bipath>)
    requires Network(m, paths)
    ensures MapShape(m)
  {
  }
}
