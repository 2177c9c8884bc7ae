/** With a heuristic that is consistent up to float error find_path returns a cheapest route. */
module AStarOptimal {
  import opened Layout
  import opened AStar
  import opened AStarInvariant
  import opened AStarTheorems

  /** The estimates `e` never drop by more than a step costs, and the float heuristic is within 1/8 of them. */
  ghost predicate NearlyConsistent(q: Query, e: nat -> real)
    requires ValidQuery(q)
  {
    && (forall u: nat, eid: nat, v: nat :: CanStep(q.m, u, eid, v) ==> e(u) <= StepCost(q.m, eid, v) as real + e(v))
    && (forall v: nat :: InRange(q.m, v) ==> e(v) - 0.125 <= H(q, v) <= e(v) + 0.125)
  }

  /** The heuristic is a float, and no longer than the diagonal of a 16-bit map. */
  ghost predicate FloatHeuristic(q: Query)
    requires ValidQuery(q)
  {
    forall v: nat :: InRange(q.m, v) ==> 0.0 <= H(q, v) <= 92683.0 && q.fl(H(q, v)) == H(q, v)
  }

  ghost predicate Informed(q: Query, e: nat -> real) { ValidQuery(q) && NearlyConsistent(q, e) && FloatHeuristic(q) }

  /** The queue key that v's current cost gives. */
  ghost function Key(q: Query, s: Search, v: nat): real
    requires ValidQuery(q) && Shape(q, s) && InRange(q.m, v)
  {
    q.fl(s.g[v] as real + H(q, v))
  }

  // ---------------------------------------------------------------- the invariant

  /** No route from the start to v costs less than c. */
  ghost predicate NoCheaper(q: Query, v: nat, c: int)
    requires ValidQuery(q)
  {
    forall p: seq<nat> :: IsRoute(q.m, q.start, p, v) ==> c <= RouteCost(q.m, q.start, p, v)
  }

  /** Closed nodes have their least cost. */
  ghost predicate Closed(q: Query, s: Search)
    requires ValidQuery(q) && Shape(q, s)
  {
    forall v: nat :: InRange(q.m, v) && s.closed[v] ==> NoCheaper(q, v, s.g[v])
  }

  /** Queued keys are never below the key of the current cost, and that key is queued for every unclosed node of known cost. */
  ghost predicate Queue(q: Query, s: Search)
    requires ValidQuery(q) && Shape(q, s)
  {
    && (forall n :: n in s.open ==> Key(q, s, n.id) <= n.f)
    && (forall v: nat :: InRange(q.m, v) && s.g[v] != INF && !s.closed[v] ==> AStarNode(v, Key(q, s, v)) in s.open)
  }

  /** Costs are tight along every step that has been tried. */
  ghost predicate Settled(q: Query, s: Search, w: nat, i: nat)
    requires ValidQuery(q) && Shape(q, s)
  {
    forall u: nat, eid: nat, v: nat :: CanStep(q.m, u, eid, v) && Tried(q, s, w, i, u, eid) ==>
      s.g[v] <= s.g[u] + StepCost(q.m, eid, v)
  }

  lemma KeyMonotone(q: Query, a: real, b: real)
    requires ValidQuery(q) && a <= b
    ensures q.fl(a) <= q.fl(b)
  {
  }

  // ---------------------------------------------------------------- one relaxation

  /** A step never undercuts the cost of a closed node. */
  lemma ClosedStays(q: Query, s: Search, stamp: seq<nat>, now: nat, w: nat, eid: nat, v: nat)
    requires ValidQuery(q) && Shape(q, s) && Forest(q, s, stamp, now) && Bounded(q, s) && Closed(q, s)
    requires InRange(q.m, w) && s.g[w] != INF && CanStep(q.m, w, eid, v) && s.closed[v]
    ensures s.g[v] <= s.g[w] + StepCost(q.m, eid, v)
  {
    var p := CostIsRoute(q, s, stamp, now, w);
    RouteSnoc(q.m, q.start, p, w, eid, v);
    assert NoCheaper(q, v, s.g[v]);
  }

  lemma LowerQueue(q: Query, s: Search, w: nat, eid: nat, v: nat, c: int)
    requires ValidQuery(q) && Shape(q, s) && Queue(q, s) && InRange(q.m, w) && InRange(q.m, v) && c < s.g[v]
    ensures Queue(q, Lower(q, s, w, eid, v, c))
  {
    var t := Lower(q, s, w, eid, v, c);
    KeyMonotone(q, c as real + H(q, v), s.g[v] as real + H(q, v));
    assert t.open[|s.open|] == AStarNode(v, Key(q, t, v));
    forall n | n in t.open ensures Key(q, t, n.id) <= n.f {
      if n in s.open { assert Key(q, s, n.id) <= n.f; }
    }
    forall x: nat | InRange(q.m, x) && t.g[x] != INF && !t.closed[x] ensures AStarNode(x, Key(q, t, x)) in t.open {
      if x != v { assert AStarNode(x, Key(q, s, x)) in s.open; }
    }
  }

  /** A relaxation lowers no closed node, and leaves its own step tight. */
  ghost predicate Tightens(q: Query, s: Search, t: Search, w: nat, eid: nat)
    requires ValidQuery(q) && Shape(q, s) && Shape(q, t) && InRange(q.m, w) && eid in q.m.adj[w - 1]
  {
    var v := Next(q.m.edges[eid - 1], w);
    && t.closed == s.closed
    && (forall x: nat :: InRange(q.m, x) ==> t.g[x] <= s.g[x] && (s.closed[x] ==> t.g[x] == s.g[x]))
    && (CanStep(q.m, w, eid, v) ==> t.g[v] <= t.g[w] + StepCost(q.m, eid, v))
  }

  lemma RelaxTight(q: Query, s: Search, stamp: seq<nat>, now: nat, w: nat, eid: nat)
    requires ValidQuery(q) && Shape(q, s) && Expanding(q, s, w) && eid in q.m.adj[w - 1]
    requires Forest(q, s, stamp, now) && Bounded(q, s) && Closed(q, s) && Queue(q, s)
    ensures Tightens(q, s, ExactRelax(q, s, w, eid), w, eid) && Queue(q, ExactRelax(q, s, w, eid))
  {
    hide Forest, Bounded, Closed, Queue, Binary32;
    var v := Next(q.m.edges[eid - 1], w);
    if CanStep(q.m, w, eid, v) && s.g[w] + StepCost(q.m, eid, v) < s.g[v] {
      if s.closed[v] { ClosedStays(q, s, stamp, now, w, eid, v); }
      LowerQueue(q, s, w, eid, v, s.g[w] + StepCost(q.m, eid, v));
    }
  }

  lemma TightenedSettled(q: Query, s: Search, t: Search, w: nat, i: nat)
    requires ValidQuery(q) && Shape(q, s) && Shape(q, t) && InRange(q.m, w) && s.closed[w] && i < |q.m.adj[w - 1]|
    requires Settled(q, s, w, i) && Tightens(q, s, t, w, q.m.adj[w - 1][i])
    ensures Settled(q, t, w, i + 1)
  {
    var ids := q.m.adj[w - 1];
    forall u: nat, eid: nat, v: nat | CanStep(q.m, u, eid, v) && Tried(q, t, w, i + 1, u, eid)
      ensures t.g[v] <= t.g[u] + StepCost(q.m, eid, v)
    {
      if !(u == w && eid == ids[i]) {
        if u == w { assert ids[..i + 1] == ids[..i] + [ids[i]]; }
        assert Tried(q, s, w, i, u, eid);
        assert t.g[v] <= s.g[v] && t.g[u] == s.g[u];
      }
    }
  }

  lemma TightenedClosed(q: Query, s: Search, t: Search, w: nat, eid: nat)
    requires ValidQuery(q) && Shape(q, s) && Shape(q, t) && InRange(q.m, w) && eid in q.m.adj[w - 1]
    requires Closed(q, s) && Tightens(q, s, t, w, eid)
    ensures Closed(q, t)
  {
    forall v: nat | InRange(q.m, v) && t.closed[v] ensures NoCheaper(q, v, t.g[v]) {
      assert NoCheaper(q, v, s.g[v]);
    }
  }

  /** One round of the inner loop keeps the queue and the closed costs and makes one more step tight. */
  lemma RelaxKeepsBest(q: Query, s: Search, stamp: seq<nat>, now: nat, w: nat, i: nat) returns (stamp': seq<nat>, now': nat)
    requires ValidQuery(q) && Shape(q, s) && Expanding(q, s, w) && i < |q.m.adj[w - 1]|
    requires Forest(q, s, stamp, now) && Bounded(q, s) && Fringe(q, s)
    requires Queue(q, s) && Closed(q, s) && Settled(q, s, w, i)
    ensures var t := Relax(q, s, w, q.m.adj[w - 1][i]);
            && Expanding(q, t, w) && Forest(q, t, stamp', now') && Bounded(q, t) && Fringe(q, t)
            && Queue(q, t) && Closed(q, t) && Settled(q, t, w, i + 1)
  {
    hide Queue, Closed, Settled, Forest, Bounded, Binary32, Fringe, Tightens, ExactRelax;
    var eid := q.m.adj[w - 1][i];
    var t := ExactRelax(q, s, w, eid);
    RelaxExact(q, s, w, eid);
    RelaxTight(q, s, stamp, now, w, eid);
    TightenedSettled(q, s, t, w, i);
    TightenedClosed(q, s, t, w, eid);
    stamp', now' := RelaxCore(q, s, stamp, now, w, eid);
  }

  lemma {:induction false} ExpandKeepsBest(q: Query, s: Search, stamp: seq<nat>, now: nat, w: nat, i: nat)
    requires ValidQuery(q) && Shape(q, s) && Expanding(q, s, w) && i <= |q.m.adj[w - 1]|
    requires Forest(q, s, stamp, now) && Bounded(q, s) && Fringe(q, s)
    requires Queue(q, s) && Closed(q, s) && Settled(q, s, w, i)
    ensures var t := Expand(q, s, w, i); Queue(q, t) && Closed(q, t) && Settled(q, t, w, |q.m.adj[w - 1]|)
    decreases |q.m.adj[w - 1]| - i
  {
    hide Queue, Closed, Settled, Forest, Bounded, Binary32, Fringe, Relax;
    if i < |q.m.adj[w - 1]| {
      var stamp', now' := RelaxKeepsBest(q, s, stamp, now, w, i);
      ExpandKeepsBest(q, Relax(q, s, w, q.m.adj[w - 1][i]), stamp', now', w, i + 1);
    }
  }

  // ---------------------------------------------------------------- one pop

  /** The entry on top carries its node's current key unless the node is closed. */
  lemma TopKey(q: Query, s: Search, k: nat)
    requires ValidQuery(q) && Shape(q, s) && Fringe(q, s) && Queue(q, s) && MayPop(s, k) && !s.closed[s.open[k].id]
    ensures s.open[k].f == Key(q, s, s.open[k].id) && s.g[s.open[k].id] != INF
  {
    var n := s.open[k];
    assert n in s.open && AStarNode(n.id, Key(q, s, n.id)) in s.open;
    var j :| 0 <= j < |s.open| && s.open[j] == AStarNode(n.id, Key(q, s, n.id));
  }

  lemma PopQueue(q: Query, s: Search, k: nat)
    requires ValidQuery(q) && Shape(q, s) && Queue(q, s) && k < |s.open|
    ensures Queue(q, Popped(q, s, k))
  {
    var t := Popped(q, s, k);
    forall n | n in t.open ensures Key(q, t, n.id) <= n.f {
      WithoutFrom(s.open, k, n);
      assert Key(q, s, n.id) <= n.f;
    }
    forall x: nat | InRange(q.m, x) && t.g[x] != INF && !t.closed[x] ensures AStarNode(x, Key(q, t, x)) in t.open {
      WithoutKeeps(s.open, k, AStarNode(x, Key(q, s, x)));
    }
  }

  lemma PopSettled(q: Query, s: Search, k: nat)
    requires ValidQuery(q) && Shape(q, s) && Settled(q, s, 0, 0) && k < |s.open|
    ensures Settled(q, Popped(q, s, k), if s.closed[s.open[k].id] then 0 else s.open[k].id, 0)
  {
    var t := Popped(q, s, k);
    var w := if s.closed[s.open[k].id] then 0 else s.open[k].id;
    forall a: nat, eid: nat, v: nat | CanStep(q.m, a, eid, v) && Tried(q, t, w, 0, a, eid)
      ensures t.g[v] <= t.g[a] + StepCost(q.m, eid, v)
    {
      assert Tried(q, s, 0, 0, a, eid);
    }
  }

  lemma SettledDone(q: Query, s: Search, w: nat)
    requires ValidQuery(q) && Shape(q, s) && InRange(q.m, w) && Settled(q, s, w, |q.m.adj[w - 1]|)
    ensures Settled(q, s, 0, 0)
  {
    var ids := q.m.adj[w - 1];
    forall a: nat, eid: nat, v: nat | CanStep(q.m, a, eid, v) && Tried(q, s, 0, 0, a, eid)
      ensures s.g[v] <= s.g[a] + StepCost(q.m, eid, v)
    {
      assert ids[..|ids|] == ids;
      assert Tried(q, s, w, |ids|, a, eid);
    }
  }

  /** The estimates never exceed the rest of a route. */
  lemma {:induction false} Admissible(q: Query, e: nat -> real, u: nat, p: seq<nat>, v: nat)
    requires Informed(q, e) && InRange(q.m, u) && IsRoute(q.m, u, p, v)
    ensures InRange(q.m, v) && e(u) <= RouteCost(q.m, u, p, v) as real + e(v)
    decreases |p|
  {
    if p != [] {
      var w := Next(q.m.edges[p[0] - 1], u);
      assert CanStep(q.m, u, p[0], w);
      Admissible(q, e, w, p[1..], v);
    }
  }

  /** A route to an unclosed node passes an unclosed node of known cost, whose cost and estimate the route bounds. */
  lemma {:induction false} Frontier(q: Query, e: nat -> real, s: Search, u: nat, c: nat, p: seq<nat>, t: nat) returns (y: nat)
    requires Informed(q, e) && Shape(q, s) && Fringe(q, s) && Bounded(q, s) && Spread(q, s, 0, 0) && Settled(q, s, 0, 0)
    requires InRange(q.m, u) && s.g[u] != INF && s.g[u] <= c && IsRoute(q.m, u, p, t) && InRange(q.m, t) && !s.closed[t]
    ensures InRange(q.m, y) && !s.closed[y] && s.g[y] != INF
    ensures s.g[y] as real + e(y) <= (c + RouteCost(q.m, u, p, t)) as real + e(t)
    decreases |p|
  {
    if !s.closed[u] {
      Admissible(q, e, u, p, t);
      y := u;
    } else {
      var w := Next(q.m.edges[p[0] - 1], u);
      assert CanStep(q.m, u, p[0], w) && Tried(q, s, 0, 0, u, p[0]);
      y := Frontier(q, e, s, w, c + StepCost(q.m, p[0], w), p[1..], t);
    }
  }

  /** A node whose estimated total is a whole unit smaller has a strictly smaller key, in spite of rounding. */
  lemma KeysApart(q: Query, e: nat -> real, s: Search, y: nat, u: nat)
    requires Informed(q, e) && Shape(q, s) && Bounded(q, s) && InRange(q.m, y) && InRange(q.m, u)
    requires s.g[y] != INF && s.g[u] != INF && s.g[y] as real + e(y) + 1.0 <= s.g[u] as real + e(u)
    ensures Key(q, s, y) < Key(q, s, u)
  {
    SmallCosts(q, s, y);
    SmallCosts(q, s, u);
    FlStrict(q.fl, s.g[y] as real + H(q, y), s.g[u] as real + H(q, u));
  }

  /** When an unclosed node is popped, no route to it is cheaper than its cost. */
  lemma PoppedIsCheapest(q: Query, e: nat -> real, s: Search, stamp: seq<nat>, now: nat, k: nat, p: seq<nat>)
    requires Informed(q, e) && Shape(q, s) && Inv(q, s, stamp, now, 0, 0) && Queue(q, s) && Settled(q, s, 0, 0)
    requires MayPop(s, k) && !s.closed[s.open[k].id] && IsRoute(q.m, q.start, p, s.open[k].id)
    ensures s.g[s.open[k].id] <= RouteCost(q.m, q.start, p, s.open[k].id)
  {
    hide Binary32, NearlyConsistent, FloatHeuristic, MapShape, Settled, Spread;
    var u, c := s.open[k].id, RouteCost(q.m, q.start, p, s.open[k].id);
    TopKey(q, s, k);
    if c < s.g[u] {
      var y := Frontier(q, e, s, q.start, 0, p, u);
      var n := AStarNode(y, Key(q, s, y));
      assert n in s.open;
      var j :| 0 <= j < |s.open| && s.open[j] == n;
      KeysApart(q, e, s, y, u);
    }
  }

  lemma PopClosed(q: Query, e: nat -> real, s: Search, stamp: seq<nat>, now: nat, k: nat)
    requires Informed(q, e) && Shape(q, s) && Inv(q, s, stamp, now, 0, 0) && Queue(q, s) && Settled(q, s, 0, 0) && Closed(q, s)
    requires MayPop(s, k)
    ensures Closed(q, Popped(q, s, k))
  {
    hide Inv, Queue, Settled, NearlyConsistent, FloatHeuristic, Binary32, MapShape;
    var u, t := s.open[k].id, Popped(q, s, k);
    forall v: nat | InRange(q.m, v) && t.closed[v] ensures NoCheaper(q, v, t.g[v]) {
      if s.closed[v] {
        assert NoCheaper(q, v, s.g[v]);
      } else {
        forall p: seq<nat> | IsRoute(q.m, q.start, p, v) ensures t.g[v] <= RouteCost(q.m, q.start, p, v) {
          PoppedIsCheapest(q, e, s, stamp, now, k, p);
        }
      }
    }
  }

  lemma IterateKeepsBest(q: Query, e: nat -> real, s: Search, stamp: seq<nat>, now: nat, k: nat)
    requires Informed(q, e) && Shape(q, s) && Inv(q, s, stamp, now, 0, 0) && MayPop(s, k) && !HitsTarget(q, s, k)
    requires Queue(q, s) && Closed(q, s) && Settled(q, s, 0, 0)
    ensures var t := Iterate(q, s, k); Queue(q, t) && Closed(q, t) && Settled(q, t, 0, 0)
  {
    hide Queue, Closed, Settled, Binary32, NearlyConsistent, FloatHeuristic, Forest, Bounded, Spread, Expand;
    var u := s.open[k].id;
    var t := Popped(q, s, k);
    PopQueue(q, s, k);
    PopSettled(q, s, k);
    PopClosed(q, e, s, stamp, now, k);
    if s.closed[u] {
      assert s.closed[u := true] == s.closed;
    } else {
      PopFringe(q, s, k);
      PopForest(q, s, stamp, now, k);
      PopBounded(q, s, k);
      ExpandKeepsBest(q, t, stamp, now, u, 0);
      SettledDone(q, Expand(q, t, u, 0), u);
    }
  }

  lemma InitBest(q: Query)
    requires ValidQuery(q) && FloatHeuristic(q)
    ensures Queue(q, Init(q)) && Closed(q, Init(q)) && Settled(q, Init(q), 0, 0)
  {
    var s := Init(q);
    assert s.open[0] == AStarNode(q.start, Key(q, s, q.start));
  }

  lemma {:induction false} RunKeepsBest(q: Query, e: nat -> real, r: seq<Search>)
    requires Informed(q, e) && IsRun(q, r)
    ensures var s := r[|r| - 1]; Shape(q, s) && Queue(q, s) && Closed(q, s) && Settled(q, s, 0, 0)
    decreases |r|
  {
    hide Queue, Closed, Settled, Binary32, NearlyConsistent, FloatHeuristic, Inv, MapShape;
    if |r| == 1 {
      InitBest(q);
    } else {
      var r' := r[..|r| - 1];
      assert IsRun(q, r') by {
        forall i | 0 <= i < |r'| - 1 ensures Succ(q, r'[i], r'[i + 1]) {
          assert Succ(q, r[i], r[i + 1]);
        }
      }
      RunKeepsBest(q, e, r');
      var stamp, now := RunInv(q, r');
      var s := r[|r| - 2];
      assert Succ(q, s, r[|r| - 1]);
      var k: nat :| MayPop(s, k) && !HitsTarget(q, s, k) && r[|r| - 1] == Iterate(q, s, k);
      IterateKeepsBest(q, e, s, stamp, now, k);
    }
  }

  // ---------------------------------------------------------------- optimality

  /** Whatever the ties and the rounding, a result of find_path is a cheapest route. */
  lemma ResultIsCheapest(q: Query, e: nat -> real, p: seq<nat>, other: seq<nat>)
    requires Informed(q, e) && MayReturn(q, p) && q.start != q.target && IsRoute(q.m, q.start, other, q.target)
    ensures IsRoute(q.m, q.start, p, q.target)
    ensures RouteCost(q.m, q.start, p, q.target) <= RouteCost(q.m, q.start, other, q.target)
  {
    hide Queue, Closed, Settled, Binary32, NearlyConsistent, FloatHeuristic, Inv, MapShape;
    assert IsRoute(q.m, q.start, other, q.target);
    ResultEmptyIffUnreachable(q, p);
    var r: seq<Search> :| Returns(q, r, p);
    var s := r[|r| - 1];
    ResultIsSimpleRoute(q, r, p);
    var stamp, now := RunInv(q, r);
    RunKeepsBest(q, e, r);
    var k: nat :| MayPop(s, k) && HitsTarget(q, s, k) && Traces(s, q.target, p);
    PoppedIsCheapest(q, e, s, stamp, now, k, other);
  }
}
