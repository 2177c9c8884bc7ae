/** planner::find_path as a state machine: what one loop iteration does, and what a whole run may return. */
module AStar {
  import opened Layout

  /** One call of find_path. `dist` is the straight-line heuristic and `fl` the rounding of float arithmetic. */
  datatype Query = Query(m: MapData, start: nat, target: nat, dist: (Node, Node) -> real, fl: real -> real)

  datatype AStarNode = AStarNode(id: nat, f: real)

  /** The local vectors of find_path. Costs are floats that hold whole numbers, so they are integers here. */
  datatype Search = Search(g: seq<int>, cameFrom: seq<int>, cameEdge: seq<int>, closed: seq<bool>, open: seq<AStarNode>)

  /** std::numeric_limits<float>::max() */
  const INF: int := 340282346638528859811704183484516925440
  const SOFT_OBSTACLE_PENALTY: nat := 100

  // ---------------------------------------------------------------- float arithmetic

  function Quarter(k: nat): real { k as real / 4.0 }

  /** Rounding to binary32 is monotone and leaves every multiple of 1/4 up to 2^22 alone (24-bit significand). */
  ghost predicate Binary32(fl: real -> real) {
    && (forall x, y :: x <= y ==> fl(x) <= fl(y))
    && (forall k: nat :: k <= 0x100_0000 ==> fl(Quarter(k)) == Quarter(k))
  }

  /** Float addition of two whole numbers. */
  function AddF(fl: real -> real, a: int, b: int): int { fl((a + b) as real).Floor }

  // ---------------------------------------------------------------- the graph that the loop sees

  predicate InRange(m: MapData, v: nat) { 1 <= v < MAX_NODES && v <= m.nodeCount }

  function Next(e: Edge, u: nat): nat { if e.fromNode == u then e.toNode else e.fromNode }

  predicate SoftObstacle(m: MapData, eid: nat, v: nat)
    requires |m.edges| == MAX_EDGES && 1 <= eid <= MAX_EDGES && |m.nodes| == MAX_NODES && 1 <= v <= MAX_NODES
  {
    m.edges[eid - 1].status == FaultTemp || m.nodes[v - 1].status == NodeOccupied
  }

  predicate HardObstacle(m: MapData, eid: nat, v: nat)
    requires |m.edges| == MAX_EDGES && 1 <= eid <= MAX_EDGES && |m.nodes| == MAX_NODES && 1 <= v <= MAX_NODES
  {
    var s := m.edges[eid - 1].status;
    s == Blocked || s == FaultRepair || s == Occupied || m.nodes[v - 1].status == NodeFault
  }

  /** The loop's two id guards: note that `edge_id >= edge_count_` also shuts out the highest edge id. */
  predicate Admitted(m: MapData, eid: nat) { eid < MAX_EDGES && eid < m.edgeCount }

  /** The loop may relax edge `eid` of node `u`, and that leads to `v`. */
  ghost predicate CanStep(m: MapData, u: nat, eid: nat, v: nat)
    requires MapShape(m)
  {
    && InRange(m, u) && eid in m.adj[u - 1] && Admitted(m, eid)
    && v == Next(m.edges[eid - 1], u) && InRange(m, v) && !HardObstacle(m, eid, v)
  }

  function Penalty(m: MapData, eid: nat, v: nat): nat
    requires |m.edges| == MAX_EDGES && 1 <= eid <= MAX_EDGES && |m.nodes| == MAX_NODES && 1 <= v <= MAX_NODES
  {
    if SoftObstacle(m, eid, v) then SOFT_OBSTACLE_PENALTY else 0
  }

  function StepCost(m: MapData, eid: nat, v: nat): nat
    requires |m.edges| == MAX_EDGES && 1 <= eid <= MAX_EDGES && |m.nodes| == MAX_NODES && 1 <= v <= MAX_NODES
  {
    m.edges[eid - 1].weight + Penalty(m, eid, v)
  }

  /** p is a list of edge ids that leads from u to v through steps the planner may take. */
  ghost predicate IsRoute(m: MapData, u: nat, p: seq<nat>, v: nat)
    requires MapShape(m)
    decreases |p|
  {
    if p == [] then u == v
    else 1 <= p[0] <= MAX_EDGES && var w := Next(m.edges[p[0] - 1], u); CanStep(m, u, p[0], w) && IsRoute(m, w, p[1..], v)
  }

  ghost predicate Reachable(m: MapData, u: nat, v: nat)
    requires MapShape(m)
  {
    exists p: seq<nat> :: IsRoute(m, u, p, v)
  }

  ghost function RouteCost(m: MapData, u: nat, p: seq<nat>, v: nat): nat
    requires MapShape(m) && IsRoute(m, u, p, v)
    decreases |p|
  {
    if p == [] then 0
    else var w := Next(m.edges[p[0] - 1], u); StepCost(m, p[0], w) + RouteCost(m, w, p[1..], v)
  }

  /** The nodes that a route visits, both ends included. */
  ghost function RouteNodes(m: MapData, u: nat, p: seq<nat>, v: nat): (ns: seq<nat>)
    requires MapShape(m) && IsRoute(m, u, p, v)
    ensures |ns| == |p| + 1 && ns[0] == u
    decreases |p|
  {
    if p == [] then [u] else [u] + RouteNodes(m, Next(m.edges[p[0] - 1], u), p[1..], v)
  }

  ghost predicate Distinct(s: seq<nat>) { forall i, j :: 0 <= i < j < |s| ==> s[i] != s[j] }

  // ---------------------------------------------------------------- the loop

  ghost predicate ValidQuery(q: Query) {
    MapShape(q.m) && InRange(q.m, q.start) && InRange(q.m, q.target) && Binary32(q.fl)
  }

  /** heuristic(node v, target) */
  function H(q: Query, v: nat): real
    requires |q.m.nodes| == MAX_NODES && 1 <= v <= MAX_NODES && 1 <= q.target <= MAX_NODES
  {
    q.dist(q.m.nodes[v - 1], q.m.nodes[q.target - 1])
  }

  predicate Shape(q: Query, s: Search) {
    && |s.g| == q.m.nodeCount + 1 && |s.cameFrom| == |s.g| && |s.cameEdge| == |s.g| && |s.closed| == |s.g|
    && (forall e :: e in s.open ==> InRange(q.m, e.id))
  }

  function Init(q: Query): (s: Search)
    requires |q.m.nodes| == MAX_NODES && InRange(q.m, q.start) && InRange(q.m, q.target)
    ensures Shape(q, s)
  {
    var n := q.m.nodeCount;
    Search(seq(n + 1, _ => INF)[q.start := 0], seq(n + 1, _ => -1), seq(n + 1, _ => -1), seq(n + 1, _ => false),
           [AStarNode(q.start, H(q, q.start))])
  }

  /** One round of the inner loop: try edge `eid` of node `u`. */
  ghost function Relax(q: Query, s: Search, u: nat, eid: nat): (t: Search)
    requires ValidQuery(q) && Shape(q, s) && InRange(q.m, u) && eid in q.m.adj[u - 1]
    ensures Shape(q, t) && t.closed == s.closed
  {
    var v := Next(q.m.edges[eid - 1], u);
    if !Admitted(q.m, eid) || !InRange(q.m, v) || HardObstacle(q.m, eid, v) then s
    else
      var newG := AddF(q.fl, AddF(q.fl, s.g[u], q.m.edges[eid - 1].weight), Penalty(q.m, eid, v));
      if newG < s.g[v] then
        Search(s.g[v := newG], s.cameFrom[v := u], s.cameEdge[v := eid], s.closed,
               s.open + [AStarNode(v, q.fl(newG as real + H(q, v)))])
      else s
  }

  /** The inner loop from adjacency position `i` on. */
  ghost function Expand(q: Query, s: Search, u: nat, i: nat): (t: Search)
    requires ValidQuery(q) && Shape(q, s) && InRange(q.m, u) && i <= |q.m.adj[u - 1]|
    ensures Shape(q, t) && t.closed == s.closed
    decreases |q.m.adj[u - 1]| - i
  {
    if i == |q.m.adj[u - 1]| then s else Expand(q, Relax(q, s, u, q.m.adj[u - 1][i]), u, i + 1)
  }

  /** Entry k may be on top of the priority queue: ties may be broken either way. */
  ghost predicate MayPop(s: Search, k: nat) {
    k < |s.open| && forall j :: 0 <= j < |s.open| ==> s.open[k].f <= s.open[j].f
  }

  function Without(open: seq<AStarNode>, k: nat): seq<AStarNode>
    requires k < |open|
  {
    open[..k] + open[k + 1..]
  }

  /** The popped entry is the target and still unclosed: the outer loop ends here. */
  ghost predicate HitsTarget(q: Query, s: Search, k: nat)
    requires Shape(q, s) && k < |s.open|
  {
    s.open[k].id == q.target && !s.closed[q.target]
  }

  /** One round of the outer loop that does not end it. */
  ghost function Iterate(q: Query, s: Search, k: nat): (t: Search)
    requires ValidQuery(q) && Shape(q, s) && k < |s.open| && !HitsTarget(q, s, k)
    ensures Shape(q, t)
  {
    var u := s.open[k].id;
    var popped := s.(open := Without(s.open, k));
    if s.closed[u] then popped
    else Expand(q, popped.(closed := s.closed[u := true]), u, 0)
  }

  ghost predicate Succ(q: Query, s: Search, t: Search)
    requires ValidQuery(q)
  {
    Shape(q, s) && exists k: nat :: MayPop(s, k) && !HitsTarget(q, s, k) && t == Iterate(q, s, k)
  }

  /** A run of the outer loop: the state at the loop head, from the first round on. */
  ghost predicate IsRun(q: Query, r: seq<Search>)
    requires ValidQuery(q)
  {
    |r| > 0 && r[0] == Init(q) && forall i :: 0 <= i < |r| - 1 ==> Succ(q, r[i], r[i + 1])
  }

  /** p is what following came_from/came_edge back from `cur` and reversing gives. */
  ghost predicate Traces(s: Search, cur: int, p: seq<nat>)
    decreases |p|
  {
    && 0 <= cur < |s.cameFrom| && |s.cameEdge| == |s.cameFrom|
    && if s.cameFrom[cur] == -1 then p == []
       else p != [] && p[|p| - 1] == s.cameEdge[cur] && Traces(s, s.cameFrom[cur], p[..|p| - 1])
  }

  /** After run r the function returns p. */
  ghost predicate Returns(q: Query, r: seq<Search>, p: seq<nat>)
    requires ValidQuery(q)
  {
    && IsRun(q, r)
    && var s := r[|r| - 1];
       Shape(q, s)
       && if s.open == [] then p == []
          else exists k: nat :: MayPop(s, k) && HitsTarget(q, s, k) && Traces(s, q.target, p)
  }

  /** Some run of find_path, for some breaking of ties, returns p. */
  ghost predicate MayReturn(q: Query, p: seq<nat>)
    requires ValidQuery(q)
  {
    exists r: seq<Search> :: Returns(q, r, p)
  }
}
