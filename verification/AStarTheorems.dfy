/** What a result of find_path means: soundness and simplicity of the path, completeness, and length. */
module AStarTheorems {
  import opened Layout
  import opened AStar
  import opened AStarInvariant

  // ---------------------------------------------------------------- routes

  lemma {:induction false} RouteSnoc(m: MapData, u: nat, p: seq<nat>, w: nat, e: nat, v: nat)
    requires MapShape(m) && IsRoute(m, u, p, w) && CanStep(m, w, e, v)
    ensures IsRoute(m, u, p + [e], v)
    ensures RouteCost(m, u, p + [e], v) == RouteCost(m, u, p, w) + StepCost(m, e, v)
    ensures RouteNodes(m, u, p + [e], v) == RouteNodes(m, u, p, w) + [v]
    decreases |p|
  {
    if p == [] {
      assert [e][1..] == [];
      assert IsRoute(m, v, [], v);
    } else {
      var x := Next(m.edges[p[0] - 1], u);
      assert (p + [e])[1..] == p[1..] + [e];
      RouteSnoc(m, x, p[1..], w, e, v);
    }
  }

  /** A list without repeats that takes its members from 1..n has at most n of them. */
  lemma {:induction false} Pigeonhole(s: seq<nat>, n: nat)
    requires Distinct(s) && forall i :: 0 <= i < |s| ==> 1 <= s[i] <= n
    ensures |s| <= n
    decreases n
  {
    if s == [] {
    } else if i: nat :| i < |s| && s[i] == n {
      Pigeonhole(s[..i] + s[i + 1..], n - 1);
    } else {
      assert 1 <= s[0] <= n;
      Pigeonhole(s, n - 1);
    }
  }

  // ---------------------------------------------------------------- soundness

  /** x is v or comes before it in the predecessor order. */
  ghost predicate UpTo(s: Search, stamp: seq<nat>, x: nat, v: nat)
    requires v < |s.g| && |stamp| == |s.g|
  {
    x == v || (x < |s.g| && Before(s, stamp, x, v))
  }

  /** One step back along the predecessors. */
  lemma TraceStep(q: Query, s: Search, stamp: seq<nat>, now: nat, cur: nat, p: seq<nat>) returns (u: nat, e: nat, p': seq<nat>)
    requires ValidQuery(q) && Shape(q, s) && Forest(q, s, stamp, now)
    requires InRange(q.m, cur) && s.g[cur] != INF && Traces(s, cur, p) && p != []
    ensures InRange(q.m, u) && s.g[u] != INF && p == p' + [e] && Traces(s, u, p')
    ensures CanStep(q.m, u, e, cur) && s.g[u] + StepCost(q.m, e, cur) <= s.g[cur] && Before(s, stamp, u, cur)
  {
    assert cur != q.start;
    assert Linked(q, s, stamp, cur);
    u, e, p' := s.cameFrom[cur], s.cameEdge[cur], p[..|p| - 1];
  }

  lemma TraceEnd(q: Query, s: Search, stamp: seq<nat>, now: nat, cur: nat)
    requires ValidQuery(q) && Shape(q, s) && Forest(q, s, stamp, now)
    requires InRange(q.m, cur) && s.g[cur] != INF && Traces(s, cur, [])
    ensures cur == q.start
  {
    assert cur != q.start ==> Linked(q, s, stamp, cur);
  }

  lemma {:induction false} TraceIsRoute(q: Query, s: Search, stamp: seq<nat>, now: nat, cur: nat, p: seq<nat>)
    requires ValidQuery(q) && Shape(q, s) && Forest(q, s, stamp, now)
    requires InRange(q.m, cur) && s.g[cur] != INF && Traces(s, cur, p)
    ensures IsRoute(q.m, q.start, p, cur) && RouteCost(q.m, q.start, p, cur) <= s.g[cur]
    decreases |p|
  {
    if p == [] {
      TraceEnd(q, s, stamp, now, cur);
    } else {
      var u, e, p' := TraceStep(q, s, stamp, now, cur, p);
      TraceIsRoute(q, s, stamp, now, u, p');
      RouteSnoc(q.m, q.start, p', u, e, cur);
    }
  }

  lemma TraceSnoc(s: Search, u: nat, v: nat, e: nat, p: seq<nat>)
    requires v < |s.cameFrom| == |s.cameEdge| && s.cameFrom[v] == u && s.cameEdge[v] == e && Traces(s, u, p)
    ensures Traces(s, v, p + [e])
  {
    assert (p + [e])[..|p|] == p;
  }

  /** The walk back from a node of known cost always comes to an end, and what it traces is a route no dearer than that cost. */
  lemma {:induction false} CostIsRoute(q: Query, s: Search, stamp: seq<nat>, now: nat, v: nat) returns (p: seq<nat>)
    requires ValidQuery(q) && Shape(q, s) && Forest(q, s, stamp, now) && Bounded(q, s) && InRange(q.m, v) && s.g[v] != INF
    ensures Traces(s, v, p) && IsRoute(q.m, q.start, p, v) && RouteCost(q.m, q.start, p, v) <= s.g[v]
    decreases s.g[v], stamp[v]
  {
    if v == q.start {
      p := [];
    } else {
      assert Linked(q, s, stamp, v);
      var u, e := s.cameFrom[v], s.cameEdge[v];
      var p' := CostIsRoute(q, s, stamp, now, u);
      p := p' + [e];
      TraceSnoc(s, u, v, e, p');
    }
    TraceIsRoute(q, s, stamp, now, v, p);
  }

  /** Every node of a traced route is in range and comes no later than its end. */
  ghost predicate Ascending(q: Query, s: Search, stamp: seq<nat>, ns: seq<nat>, cur: nat)
    requires cur < |s.g| && |stamp| == |s.g|
  {
    forall i :: 0 <= i < |ns| ==> InRange(q.m, ns[i]) && UpTo(s, stamp, ns[i], cur)
  }

  lemma SnocDistinct(q: Query, s: Search, stamp: seq<nat>, ns: seq<nat>, u: nat, v: nat)
    requires u < |s.g| && v < |s.g| && |stamp| == |s.g| && InRange(q.m, v)
    requires Distinct(ns) && Ascending(q, s, stamp, ns, u) && Before(s, stamp, u, v)
    ensures Distinct(ns + [v]) && Ascending(q, s, stamp, ns + [v], v)
  {
  }

  /** A traced route visits no node twice: costs, and on ties the stamps, grow along it. */
  lemma {:induction false} TraceIsSimple(q: Query, s: Search, stamp: seq<nat>, now: nat, cur: nat, p: seq<nat>)
    requires ValidQuery(q) && Shape(q, s) && Forest(q, s, stamp, now)
    requires InRange(q.m, cur) && s.g[cur] != INF && Traces(s, cur, p)
    ensures IsRoute(q.m, q.start, p, cur)
    ensures Distinct(RouteNodes(q.m, q.start, p, cur)) && Ascending(q, s, stamp, RouteNodes(q.m, q.start, p, cur), cur)
    decreases |p|
  {
    if p == [] {
      TraceEnd(q, s, stamp, now, cur);
    } else {
      var u, e, p' := TraceStep(q, s, stamp, now, cur, p);
      TraceIsSimple(q, s, stamp, now, u, p');
      RouteSnoc(q.m, q.start, p', u, e, cur);
      SnocDistinct(q, s, stamp, RouteNodes(q.m, q.start, p', u), u, cur);
    }
  }

  /** For every run: the state that returns p by reaching the target. */
  lemma LastState(q: Query, r: seq<Search>, p: seq<nat>) returns (stamp: seq<nat>, now: nat)
    requires ValidQuery(q) && Returns(q, r, p) && r[|r| - 1].open != []
    ensures var s := r[|r| - 1];
            Shape(q, s) && Inv(q, s, stamp, now, 0, 0) && s.g[q.target] != INF && Traces(s, q.target, p)
  {
    stamp, now := RunInv(q, r);
    var s := r[|r| - 1];
    var k: nat :| MayPop(s, k) && HitsTarget(q, s, k) && Traces(s, q.target, p);
    assert s.open[k] in s.open;
  }

  /** A simple route of at least one edge is shorter than the node count. */
  lemma SimpleRouteIsShort(m: MapData, u: nat, p: seq<nat>, v: nat)
    requires MapShape(m) && IsRoute(m, u, p, v) && Distinct(RouteNodes(m, u, p, v)) && p != []
    requires forall i :: 0 <= i <= |p| ==> InRange(m, RouteNodes(m, u, p, v)[i])
    ensures |p| < m.nodeCount && |p| < MAX_NODES - 1 && u != v
  {
    var ns := RouteNodes(m, u, p, v);
    Pigeonhole(ns, m.nodeCount);
    Pigeonhole(ns, MAX_NODES - 1);
    RouteEnds(m, u, p, v);
    assert ns[0] != ns[|p|];
  }

  /** A non-empty result is a simple route from start to target, short enough for path_stack, and costs at most g_cost[target]. */
  lemma ResultIsSimpleRoute(q: Query, r: seq<Search>, p: seq<nat>)
    requires ValidQuery(q) && Returns(q, r, p) && p != []
    ensures IsRoute(q.m, q.start, p, q.target) && Distinct(RouteNodes(q.m, q.start, p, q.target))
    ensures Shape(q, r[|r| - 1]) && RouteCost(q.m, q.start, p, q.target) <= r[|r| - 1].g[q.target] < 0x100_0000
    ensures |p| < q.m.nodeCount && |p| < MAX_NODES - 1 && q.start != q.target
  {
    var stamp, now := LastState(q, r, p);
    var s := r[|r| - 1];
    TraceIsRoute(q, s, stamp, now, q.target, p);
    TraceIsSimple(q, s, stamp, now, q.target, p);
    SimpleRouteIsShort(q.m, q.start, p, q.target);
    SmallCosts(q, s, q.target);
  }

  lemma {:induction false} RouteEnds(m: MapData, u: nat, p: seq<nat>, v: nat)
    requires MapShape(m) && IsRoute(m, u, p, v)
    ensures RouteNodes(m, u, p, v)[|p|] == v
    decreases |p|
  {
    if p != [] { RouteEnds(m, Next(m.edges[p[0] - 1], u), p[1..], v); }
  }

  // ---------------------------------------------------------------- completeness

  /** With an empty queue the closed nodes are closed under steps, so no route leaves them. */
  lemma {:induction false} NoWayOut(q: Query, s: Search, u: nat, p: seq<nat>, v: nat)
    requires ValidQuery(q) && Shape(q, s) && Fringe(q, s) && Spread(q, s, 0, 0) && s.open == []
    requires InRange(q.m, u) && s.closed[u] && IsRoute(q.m, u, p, v)
    ensures InRange(q.m, v) && s.closed[v]
    decreases |p|
  {
    if p != [] {
      var w := Next(q.m.edges[p[0] - 1], u);
      assert CanStep(q.m, u, p[0], w) && Tried(q, s, 0, 0, u, p[0]);
      NoWayOut(q, s, w, p[1..], v);
    }
  }

  /** A run that empties the queue has closed every node it can reach. */
  lemma EmptyQueueUnreachable(q: Query, r: seq<Search>, p: seq<nat>)
    requires ValidQuery(q) && IsRun(q, r) && r[|r| - 1].open == []
    ensures !IsRoute(q.m, q.start, p, q.target)
  {
    var stamp, now := RunInv(q, r);
    if IsRoute(q.m, q.start, p, q.target) { NoWayOut(q, r[|r| - 1], q.start, p, q.target); }
  }

  /** The result is empty exactly when no admitted route leads to the target. */
  lemma ResultEmptyIffUnreachable(q: Query, p: seq<nat>)
    requires ValidQuery(q) && MayReturn(q, p) && q.start != q.target
    ensures p == [] <==> !Reachable(q.m, q.start, q.target)
  {
    var r: seq<Search> :| Returns(q, r, p);
    if r[|r| - 1].open == [] {
      forall p' ensures !IsRoute(q.m, q.start, p', q.target) {
        EmptyQueueUnreachable(q, r, p');
      }
    } else {
      var stamp, now := LastState(q, r, p);
      TraceIsRoute(q, r[|r| - 1], stamp, now, q.target, p);
      assert IsRoute(q.m, q.start, p, q.target);
    }
  }

  /** From a node to itself find_path always returns the empty path. */
  lemma ResultEmptyAtTarget(q: Query, p: seq<nat>)
    requires ValidQuery(q) && MayReturn(q, p) && q.start == q.target
    ensures p == []
  {
    if p != [] {
      var r: seq<Search> :| Returns(q, r, p);
      ResultIsSimpleRoute(q, r, p);
    }
  }
}
