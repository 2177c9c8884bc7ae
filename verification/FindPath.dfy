/** planner::find_path, with its loops, and everything it promises. */
module FindPathMethod {
  import opened Layout
  import Geometry
  import opened AStar
  import opened AStarInvariant
  import opened AStarTheorems

  /** std::priority_queue::top: some entry of least f. */
  method Top(open: seq<AStarNode>) returns (k: nat)
    requires open != []
    ensures k < |open| && forall j :: 0 <= j < |open| ==> open[k].f <= open[j].f
  {
    k := 0;
    for i := 1 to |open|
      invariant k < |open| && forall j :: 0 <= j < i ==> open[k].f <= open[j].f
    {
      if open[i].f < open[k].f { k := i; }
    }
  }

  lemma {:induction false} BackwardsSnoc(p: seq<nat>, e: nat)
    ensures Geometry.Backwards(p + [e]) == [e] + Geometry.Backwards(p)
  {
    if p != [] {
      assert (p + [e])[1..] == p[1..] + [e];
      BackwardsSnoc(p[1..], e);
    } else {
      assert [e][1..] == [];
    }
  }

  /** Whatever path leads to cur, appending `tail` to it gives a path to `target`. */
  ghost predicate Completes(s: Search, cur: int, target: nat, tail: seq<nat>) {
    forall p: seq<nat> :: Traces(s, cur, p) ==> Traces(s, target, p + tail)
  }

  lemma CompletesStart(s: Search, target: nat)
    ensures Completes(s, target, target, [])
  {
    forall p: seq<nat> | Traces(s, target, p) ensures Traces(s, target, p + []) {
      assert p + [] == p;
    }
  }

  lemma CompletesBack(s: Search, cur: int, target: nat, tail: seq<nat>, e: nat)
    requires Completes(s, cur, target, tail)
    requires 0 <= cur < |s.cameFrom| == |s.cameEdge| && s.cameFrom[cur] != -1 && s.cameEdge[cur] == e
    ensures Completes(s, s.cameFrom[cur], target, [e] + tail)
  {
    forall p: seq<nat> | Traces(s, s.cameFrom[cur], p) ensures Traces(s, target, p + ([e] + tail)) {
      var p' := p + [e];
      assert p'[..|p'| - 1] == p;
      assert Traces(s, cur, p');
      assert p' + tail == p + ([e] + tail);
    }
  }

  lemma CompletesEnd(s: Search, cur: int, target: nat, tail: seq<nat>)
    requires Completes(s, cur, target, tail)
    requires 0 <= cur < |s.cameFrom| == |s.cameEdge| && s.cameFrom[cur] == -1
    ensures Traces(s, target, tail)
  {
    assert Traces(s, cur, []);
    assert [] + tail == tail;
  }

  /** The walk back along came_from: it ends, because each step goes down in the predecessor order. */
  method Reconstruct(q: Query, cameFrom: seq<int>, cameEdge: seq<int>, ghost s: Search, ghost stamp: seq<nat>, ghost now: nat)
      returns (path: seq<nat>)
    requires ValidQuery(q) && Shape(q, s) && Forest(q, s, stamp, now) && Bounded(q, s) && s.g[q.target] != INF
    requires cameFrom == s.cameFrom && cameEdge == s.cameEdge
    ensures Traces(s, q.target, path)
  {
    var pathEdges: seq<nat> := [];
    var cur: int := q.target;
    CompletesStart(s, q.target);
    while cameFrom[cur] != -1
      invariant 0 <= cur && InRange(q.m, cur) && s.g[cur] != INF
      invariant Completes(s, cur, q.target, Geometry.Backwards(pathEdges))
      decreases s.g[cur], stamp[cur]
    {
      assert Linked(q, s, stamp, cur);
      CompletesBack(s, cur, q.target, Geometry.Backwards(pathEdges), cameEdge[cur]);
      BackwardsSnoc(pathEdges, cameEdge[cur]);
      pathEdges := pathEdges + [cameEdge[cur]];
      cur := cameFrom[cur];
    }
    path := Geometry.Backwards(pathEdges);
    CompletesEnd(s, cur, q.target, path);
  }

  /** The inner loop: try every listed edge of the node just closed. */
  method ExpandNode(q: Query, s: Search, u: nat) returns (t: Search)
    requires ValidQuery(q) && Shape(q, s) && InRange(q.m, u)
    ensures t == Expand(q, s, u, 0)
  {
    var g, cameFrom, cameEdge, open := s.g, s.cameFrom, s.cameEdge, s.open;
    var ids := q.m.adj[u - 1];
    for i := 0 to |ids|
      invariant Shape(q, Search(g, cameFrom, cameEdge, s.closed, open))
      invariant Expand(q, Search(g, cameFrom, cameEdge, s.closed, open), u, i) == Expand(q, s, u, 0)
    {
      ghost var c := Search(g, cameFrom, cameEdge, s.closed, open);
      var eid := ids[i];
      assert Expand(q, c, u, i) == Expand(q, Relax(q, c, u, eid), u, i + 1);
      if eid < MAX_EDGES && eid < q.m.edgeCount {
        var edge := q.m.edges[eid - 1];
        var next := if edge.fromNode == u then edge.toNode else edge.fromNode;
        if next < MAX_NODES && next <= q.m.nodeCount && !HardObstacle(q.m, eid, next) {
          var penalty := if SoftObstacle(q.m, eid, next) then SOFT_OBSTACLE_PENALTY else 0;
          var newG := AddF(q.fl, AddF(q.fl, g[u], edge.weight), penalty);
          if newG < g[next] {
            g := g[next := newG];
            cameFrom := cameFrom[next := u];
            cameEdge := cameEdge[next := eid];
            open := open + [AStarNode(next, q.fl(newG as real + H(q, next)))];
          }
        }
      }
      assert Search(g, cameFrom, cameEdge, s.closed, open) == Relax(q, c, u, eid);
    }
    t := Search(g, cameFrom, cameEdge, s.closed, open);
  }

  lemma RunSnoc(q: Query, r: seq<Search>, t: Search)
    requires ValidQuery(q) && IsRun(q, r) && Succ(q, r[|r| - 1], t)
    ensures IsRun(q, r + [t])
  {
    var r' := r + [t];
    forall i | 0 <= i < |r'| - 1 ensures Succ(q, r'[i], r'[i + 1]) {
      if i < |r| - 1 { assert Succ(q, r[i], r[i + 1]); }
    }
  }

  /** Closing a node makes the count of unclosed nodes smaller; a stale entry makes the queue shorter. */
  lemma RoundEnds(q: Query, s: Search, k: nat)
    requires ValidQuery(q) && Shape(q, s) && k < |s.open| && !HitsTarget(q, s, k)
    ensures var t := Iterate(q, s, k);
            |t.closed| == |s.closed| &&
            if s.closed[s.open[k].id] then t.closed == s.closed && |t.open| < |s.open|
            else Count(s.closed) < Count(t.closed) <= |t.closed|
  {
    if !s.closed[s.open[k].id] { CountSet(s.closed, s.open[k].id); }
  }

  /** One more round of the run. */
  lemma Advance(q: Query, r: seq<Search>, stamp: seq<nat>, now: nat, k: nat)
      returns (r': seq<Search>, stamp': seq<nat>, now': nat)
    requires ValidQuery(q) && IsRun(q, r)
    requires var s := r[|r| - 1]; Shape(q, s) && Inv(q, s, stamp, now, 0, 0) && MayPop(s, k) && !HitsTarget(q, s, k)
    ensures IsRun(q, r') && r'[|r'| - 1] == Iterate(q, r[|r| - 1], k) && Inv(q, r'[|r'| - 1], stamp', now', 0, 0)
  {
    var s := r[|r| - 1];
    stamp', now' := IterateInv(q, s, stamp, now, k);
    assert Succ(q, s, Iterate(q, s, k));
    RunSnoc(q, r, Iterate(q, s, k));
    r' := r + [Iterate(q, s, k)];
  }

  lemma {:induction false} Least(open: seq<AStarNode>) returns (k: nat)
    requires open != []
    ensures k < |open| && forall j :: 0 <= j < |open| ==> open[k].f <= open[j].f
  {
    var n := |open| - 1;
    if n == 0 {
      k := 0;
    } else {
      k := Least(open[..n]);
      assert forall j :: 0 <= j < n ==> open[..n][j] == open[j];
      if open[n].f < open[k].f { k := n; }
    }
  }

  /** Every run can be continued to its end: unclosed nodes, then queue entries, run out. */
  lemma {:induction false} RunEnds(q: Query, r: seq<Search>, stamp: seq<nat>, now: nat) returns (path: seq<nat>)
    requires ValidQuery(q) && IsRun(q, r) && Shape(q, r[|r| - 1]) && Inv(q, r[|r| - 1], stamp, now, 0, 0)
    ensures MayReturn(q, path)
    decreases |r[|r| - 1].closed| - Count(r[|r| - 1].closed), |r[|r| - 1].open|
  {
    var s := r[|r| - 1];
    CountBound(s.closed);
    if s.open == [] {
      path := [];
      assert Returns(q, r, path);
    } else {
      var k := Least(s.open);
      assert MayPop(s, k) && s.open[k] in s.open;
      if HitsTarget(q, s, k) {
        path := CostIsRoute(q, s, stamp, now, q.target);
        assert Returns(q, r, path);
      } else {
        RoundEnds(q, s, k);
        var r', stamp', now' := Advance(q, r, stamp, now, k);
        path := RunEnds(q, r', stamp', now');
      }
    }
  }

  /** find_path always has a result. */
  lemma ResultExists(q: Query) returns (path: seq<nat>)
    requires ValidQuery(q)
    ensures MayReturn(q, path)
  {
    var stamp := InitInv(q);
    path := RunEnds(q, [Init(q)], stamp, 0);
  }

  /** Node ids are 1-based; ids past the node table are turned away with the empty path. */
  method FindPath(m: MapData, start: nat, target: nat, dist: (Node, Node) -> real, fl: real -> real) returns (path: seq<nat>)
    requires MapShape(m) && Binary32(fl) && 1 <= start && 1 <= target
    ensures !InRange(m, start) || !InRange(m, target) ==> path == []
    ensures InRange(m, start) && InRange(m, target) ==> MayReturn(Query(m, start, target, dist, fl), path)
  {
    var q := Query(m, start, target, dist, fl);
    var n := m.nodeCount;
    var g: seq<int> := seq(n + 1, _ => INF);
    var cameFrom: seq<int> := seq(n + 1, _ => -1);
    var cameEdge: seq<int> := seq(n + 1, _ => -1);
    var closed: seq<bool> := seq(n + 1, _ => false);
    path := [];
    if start >= MAX_NODES || target >= MAX_NODES { return; }
    if start > n || target > n { return; }
    g := g[start := 0];
    var open := [AStarNode(start, H(q, start))];

    ghost var s := Init(q);
    ghost var r := [s];
    ghost var now: nat := 0;
    ghost var stamp := InitInv(q);
    while open != []
      invariant s == Search(g, cameFrom, cameEdge, closed, open)
      invariant IsRun(q, r) && r[|r| - 1] == s
      invariant Shape(q, s) && Inv(q, s, stamp, now, 0, 0)
      decreases |closed| - Count(closed), |open|
    {
      CountBound(closed);
      var k := Top(open);
      assert MayPop(s, k);
      assert open[k] in s.open;
      var current := open[k].id;
      open := Without(open, k);
      if !closed[current] {
        closed := closed[current := true];
        if current == target {
          path := Reconstruct(q, cameFrom, cameEdge, s, stamp, now);
          assert HitsTarget(q, s, k);
          assert Returns(q, r, path);
          return;
        }
        var t := ExpandNode(q, Search(g, cameFrom, cameEdge, closed, open), current);
        g, cameFrom, cameEdge, open := t.g, t.cameFrom, t.cameEdge, t.open;
      }
      RoundEnds(q, s, k);
      r, stamp, now := Advance(q, r, stamp, now, k);
      s := r[|r| - 1];
    }
    assert Returns(q, r, path);
  }

  /** What a caller of find_path may rely on, whatever the ties, the heuristic and the rounding. */
  lemma FindPathPromise(q: Query, path: seq<nat>)
    requires ValidQuery(q) && MayReturn(q, path)
    ensures path != [] ==> IsRoute(q.m, q.start, path, q.target) && Distinct(RouteNodes(q.m, q.start, path, q.target))
    ensures |path| < MAX_NODES - 1 < MAX_PATHLEN
    ensures path == [] <==> q.start == q.target || !Reachable(q.m, q.start, q.target)
  {
    if path != [] {
      var r: seq<Search> :| Returns(q, r, path);
      ResultIsSimpleRoute(q, r, path);
    }
    if q.start == q.target {
      ResultEmptyAtTarget(q, path);
    } else {
      ResultEmptyIffUnreachable(q, path);
    }
  }
}
