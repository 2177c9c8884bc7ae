/** What every round of find_path keeps, whatever the heuristic: the predecessor forest and the open set. */
module AStarInvariant {
  import opened Layout
  import opened AStar

  /** The most that one step can cost: a 16-bit weight and the soft-obstacle penalty. */
  const MAX_STEP: nat := 65635

  /** What c steps can cost at most. */
  function Budget(c: nat): nat { 65635 * c }

  ghost function Count(closed: seq<bool>): nat {
    if closed == [] then 0 else (if closed[0] then 1 else 0) + Count(closed[1..])
  }

  lemma {:induction false} CountSet(closed: seq<bool>, v: nat)
    requires v < |closed| && !closed[v]
    ensures Count(closed[v := true]) == Count(closed) + 1 <= |closed|
  {
    if v > 0 {
      assert closed[v := true][1..] == closed[1..][v - 1 := true];
      CountSet(closed[1..], v - 1);
    } else {
      assert closed[v := true][1..] == closed[1..];
      CountBound(closed[1..]);
    }
  }

  lemma {:induction false} CountBound(closed: seq<bool>)
    ensures Count(closed) <= |closed|
  {
    if closed != [] { CountBound(closed[1..]); }
  }

  // ---------------------------------------------------------------- float arithmetic is exact here

  lemma FlInt(fl: real -> real, n: nat)
    requires Binary32(fl) && n <= 0x40_0000
    ensures fl(n as real) == n as real
  {
    assert Quarter(4 * n) == n as real;
  }

  /** Two reals three quarters apart stay apart after rounding. */
  lemma FlStrict(fl: real -> real, x: real, y: real)
    requires Binary32(fl) && 0.0 <= x && x + 0.75 <= y <= 4194304.0
    ensures fl(x) < fl(y)
  {
    var k := -((-4.0 * x).Floor);
    assert k as real - 1.0 < 4.0 * x <= k as real;
    assert x <= Quarter(k) < Quarter(k + 1) <= y;
    assert k + 1 <= 0x100_0000;
    assert fl(x) <= fl(Quarter(k)) == Quarter(k) < Quarter(k + 1) == fl(Quarter(k + 1)) <= fl(y);
  }

  lemma AddExact(fl: real -> real, a: nat, b: nat)
    requires Binary32(fl) && a + b <= 0x40_0000
    ensures AddF(fl, a, b) == a + b
  {
    FlInt(fl, a + b);
  }

  // ---------------------------------------------------------------- the invariant

  /** The predecessor order: costs never grow towards the start, and where they tie the predecessor was set earlier. */
  ghost predicate Before(s: Search, stamp: seq<nat>, u: nat, v: nat)
    requires u < |s.g| && v < |s.g| && |stamp| == |s.g|
  {
    s.g[u] < s.g[v] || (s.g[u] == s.g[v] && stamp[u] < stamp[v])
  }

  /** v's predecessor is a closed node, one admitted step away, and no dearer than v minus that step. */
  ghost predicate Parent(q: Query, s: Search, stamp: seq<nat>, v: nat)
    requires ValidQuery(q) && Shape(q, s) && InRange(q.m, v) && |stamp| == |s.g|
  {
    && s.cameFrom[v] >= 0 && InRange(q.m, s.cameFrom[v]) && s.cameEdge[v] >= 0
    && s.closed[s.cameFrom[v]] && s.g[s.cameFrom[v]] != INF
    && CanStep(q.m, s.cameFrom[v], s.cameEdge[v], v)
    && s.g[s.cameFrom[v]] + StepCost(q.m, s.cameEdge[v], v) <= s.g[v]
    && Before(s, stamp, s.cameFrom[v], v)
  }

  ghost predicate Linked(q: Query, s: Search, stamp: seq<nat>, v: nat)
    requires ValidQuery(q) && Shape(q, s) && InRange(q.m, v) && |stamp| == |s.g|
  {
    if s.g[v] == INF then s.cameFrom[v] == -1 else Parent(q, s, stamp, v)
  }

  ghost predicate Forest(q: Query, s: Search, stamp: seq<nat>, now: nat)
    requires ValidQuery(q) && Shape(q, s)
  {
    && |stamp| == |s.g| && (forall v :: 0 <= v < |stamp| ==> stamp[v] <= now)
    && s.g[q.start] == 0 && s.cameFrom[q.start] == -1
    && (forall v: nat :: InRange(q.m, v) && v != q.start ==> Linked(q, s, stamp, v))
  }

  /** Costs are bounded by the number of closed nodes, so float addition stays exact. */
  ghost predicate Bounded(q: Query, s: Search)
    requires ValidQuery(q) && Shape(q, s)
  {
    forall v: nat :: InRange(q.m, v) && s.g[v] != INF ==> 0 <= s.g[v] <= Budget(Count(s.closed))
  }

  ghost predicate Queued(s: Search, v: nat) { exists e :: e in s.open && e.id == v }

  /** A node whose cost is known is closed or queued, and only such nodes are. */
  ghost predicate Fringe(q: Query, s: Search)
    requires ValidQuery(q) && Shape(q, s)
  {
    && (forall e :: e in s.open ==> s.g[e.id] != INF)
    && (forall v: nat :: InRange(q.m, v) && s.closed[v] ==> s.g[v] != INF && v != q.target)
    && (forall v: nat :: InRange(q.m, v) && s.g[v] != INF && !s.closed[v] ==> Queued(s, v))
  }

  /** Edge eid of u has been tried: u is closed, and it is not the node w that is being expanded at position i. */
  ghost predicate Tried(q: Query, s: Search, w: nat, i: nat, u: nat, eid: nat)
    requires ValidQuery(q) && Shape(q, s) && InRange(q.m, u)
  {
    s.closed[u] && (u == w && i <= |q.m.adj[u - 1]| ==> eid in q.m.adj[u - 1][..i])
  }

  /** Every step out of a closed node has given its end a cost. */
  ghost predicate Spread(q: Query, s: Search, w: nat, i: nat)
    requires ValidQuery(q) && Shape(q, s)
  {
    forall u: nat, eid: nat, v: nat :: CanStep(q.m, u, eid, v) && Tried(q, s, w, i, u, eid) ==> s.g[v] != INF
  }

  ghost predicate Inv(q: Query, s: Search, stamp: seq<nat>, now: nat, w: nat, i: nat)
    requires ValidQuery(q) && Shape(q, s)
  {
    Forest(q, s, stamp, now) && Bounded(q, s) && Fringe(q, s) && Spread(q, s, w, i)
  }

  // ---------------------------------------------------------------- one relaxation

  /** What a successful relaxation writes. */
  ghost function Lower(q: Query, s: Search, u: nat, eid: nat, v: nat, c: int): (t: Search)
    requires ValidQuery(q) && Shape(q, s) && InRange(q.m, u) && InRange(q.m, v)
    ensures Shape(q, t)
  {
    Search(s.g[v := c], s.cameFrom[v := u], s.cameEdge[v := eid], s.closed, s.open + [AStarNode(v, q.fl(c as real + H(q, v)))])
  }

  /** Node w has just been closed and is being expanded. */
  ghost predicate Expanding(q: Query, s: Search, w: nat)
    requires ValidQuery(q) && Shape(q, s)
  {
    InRange(q.m, w) && s.closed[w] && 0 <= s.g[w] && s.g[w] != INF && s.g[w] + MAX_STEP <= Budget(Count(s.closed))
  }

  /** Relax without rounding. */
  ghost function ExactRelax(q: Query, s: Search, w: nat, eid: nat): (t: Search)
    requires ValidQuery(q) && Shape(q, s) && InRange(q.m, w) && eid in q.m.adj[w - 1]
    ensures Shape(q, t)
  {
    var v := Next(q.m.edges[eid - 1], w);
    if CanStep(q.m, w, eid, v) && s.g[w] + StepCost(q.m, eid, v) < s.g[v]
    then Lower(q, s, w, eid, v, s.g[w] + StepCost(q.m, eid, v)) else s
  }

  lemma RelaxExact(q: Query, s: Search, w: nat, eid: nat)
    requires ValidQuery(q) && Shape(q, s) && Expanding(q, s, w) && eid in q.m.adj[w - 1]
    ensures Relax(q, s, w, eid) == ExactRelax(q, s, w, eid)
  {
    var v := Next(q.m.edges[eid - 1], w);
    if CanStep(q.m, w, eid, v) {
      CountBound(s.closed);
      assert s.g[w] + MAX_STEP <= Budget(33) <= 0x40_0000;
      AddExact(q.fl, s.g[w], q.m.edges[eid - 1].weight);
      AddExact(q.fl, s.g[w] + q.m.edges[eid - 1].weight, Penalty(q.m, eid, v));
    }
  }

  /** Lowering v keeps the predecessor of every other node: where v is that predecessor it only gets cheaper. */
  lemma LowerParent(q: Query, s: Search, stamp: seq<nat>, now: nat, u: nat, eid: nat, v: nat, c: int, x: nat)
    requires ValidQuery(q) && Shape(q, s) && InRange(q.m, u) && InRange(q.m, v) && c < s.g[v] <= INF
    requires InRange(q.m, x) && x != v && |stamp| == |s.g| && Parent(q, s, stamp, x)
    ensures Parent(q, Lower(q, s, u, eid, v, c), stamp[v := now + 1], x)
  {
  }

  lemma LowerOwnParent(q: Query, s: Search, stamp: seq<nat>, now: nat, u: nat, eid: nat, v: nat)
    requires ValidQuery(q) && Shape(q, s) && Expanding(q, s, u) && |stamp| == |s.g| && stamp[u] <= now
    requires CanStep(q.m, u, eid, v) && u != v
    ensures Parent(q, Lower(q, s, u, eid, v, s.g[u] + StepCost(q.m, eid, v)), stamp[v := now + 1], v)
  {
  }

  lemma LowerLinked(q: Query, s: Search, stamp: seq<nat>, now: nat, u: nat, eid: nat, v: nat, x: nat)
    requires ValidQuery(q) && Shape(q, s) && Expanding(q, s, u) && |stamp| == |s.g| && stamp[u] <= now
    requires CanStep(q.m, u, eid, v) && s.g[u] + StepCost(q.m, eid, v) < s.g[v] <= INF
    requires InRange(q.m, x) && Linked(q, s, stamp, x)
    ensures Linked(q, Lower(q, s, u, eid, v, s.g[u] + StepCost(q.m, eid, v)), stamp[v := now + 1], x)
  {
    if x == v {
      LowerOwnParent(q, s, stamp, now, u, eid, v);
    } else if s.g[x] != INF {
      LowerParent(q, s, stamp, now, u, eid, v, s.g[u] + StepCost(q.m, eid, v), x);
    }
  }

  lemma LowerForest(q: Query, s: Search, stamp: seq<nat>, now: nat, u: nat, eid: nat, v: nat)
    requires ValidQuery(q) && Shape(q, s) && Forest(q, s, stamp, now) && Expanding(q, s, u)
    requires CanStep(q.m, u, eid, v) && s.g[u] + StepCost(q.m, eid, v) < s.g[v] <= INF
    ensures Forest(q, Lower(q, s, u, eid, v, s.g[u] + StepCost(q.m, eid, v)), stamp[v := now + 1], now + 1)
  {
    var t := Lower(q, s, u, eid, v, s.g[u] + StepCost(q.m, eid, v));
    forall x: nat | InRange(q.m, x) && x != q.start
      ensures Linked(q, t, stamp[v := now + 1], x)
    {
      LowerLinked(q, s, stamp, now, u, eid, v, x);
    }
  }

  lemma LowerFringe(q: Query, s: Search, u: nat, eid: nat, v: nat, c: int)
    requires ValidQuery(q) && Shape(q, s) && Fringe(q, s) && InRange(q.m, u) && InRange(q.m, v) && c < s.g[v] && s.g[v] <= INF
    ensures Fringe(q, Lower(q, s, u, eid, v, c))
  {
    var t := Lower(q, s, u, eid, v, c);
    forall x: nat | InRange(q.m, x) && t.g[x] != INF && !t.closed[x]
      ensures Queued(t, x)
    {
      if x == v {
        assert t.open[|s.open|] == AStarNode(v, q.fl(c as real + H(q, v)));
        assert AStarNode(v, q.fl(c as real + H(q, v))) in t.open;
      } else {
        assert Queued(s, x);
        var e :| e in s.open && e.id == x;
        assert e in t.open;
      }
    }
  }

  lemma SmallCosts(q: Query, s: Search, v: nat)
    requires ValidQuery(q) && Shape(q, s) && Bounded(q, s) && InRange(q.m, v)
    ensures s.g[v] == INF || 0 <= s.g[v] <= Budget(33) < 0x40_0000 < INF
  {
    CountBound(s.closed);
  }

  lemma LowerSpread(q: Query, s: Search, t: Search, w: nat, i: nat)
    requires ValidQuery(q) && Shape(q, s) && Shape(q, t) && Spread(q, s, w, i) && InRange(q.m, w) && i < |q.m.adj[w - 1]|
    requires t.closed == s.closed && forall x: nat :: InRange(q.m, x) && s.g[x] != INF ==> t.g[x] != INF
    requires var eid := q.m.adj[w - 1][i]; var v := Next(q.m.edges[eid - 1], w);
             CanStep(q.m, w, eid, v) ==> t.g[v] != INF
    ensures Spread(q, t, w, i + 1)
  {
    var ids := q.m.adj[w - 1];
    forall u: nat, eid: nat, v: nat | CanStep(q.m, u, eid, v) && Tried(q, t, w, i + 1, u, eid)
      ensures t.g[v] != INF
    {
      if !(u == w && eid == ids[i]) {
        if u == w {
          assert ids[..i + 1] == ids[..i] + [ids[i]];
        }
        assert Tried(q, s, w, i, u, eid);
      }
    }
  }

  lemma LowerBounded(q: Query, s: Search, w: nat, eid: nat, v: nat)
    requires ValidQuery(q) && Shape(q, s) && Expanding(q, s, w) && Bounded(q, s)
    requires CanStep(q.m, w, eid, v) && w != v
    ensures var t := Lower(q, s, w, eid, v, s.g[w] + StepCost(q.m, eid, v)); Expanding(q, t, w) && Bounded(q, t)
  {
  }

  /** A relaxation that lowers v: everything but the spread. */
  lemma LowerInv(q: Query, s: Search, stamp: seq<nat>, now: nat, w: nat, eid: nat, v: nat)
    requires ValidQuery(q) && Shape(q, s) && Expanding(q, s, w) && Forest(q, s, stamp, now) && Bounded(q, s) && Fringe(q, s)
    requires CanStep(q.m, w, eid, v) && s.g[w] + StepCost(q.m, eid, v) < s.g[v]
    ensures var t := Lower(q, s, w, eid, v, s.g[w] + StepCost(q.m, eid, v));
            Expanding(q, t, w) && Forest(q, t, stamp[v := now + 1], now + 1) && Bounded(q, t) && Fringe(q, t)
  {
    SmallCosts(q, s, v);
    LowerBounded(q, s, w, eid, v);
    LowerForest(q, s, stamp, now, w, eid, v);
    LowerFringe(q, s, w, eid, v, s.g[w] + StepCost(q.m, eid, v));
  }

  /** A relaxation only lowers costs, and leaves the end of an admitted step with one. */
  lemma RelaxReaches(q: Query, s: Search, w: nat, eid: nat)
    requires ValidQuery(q) && Shape(q, s) && Expanding(q, s, w) && Bounded(q, s) && eid in q.m.adj[w - 1]
    ensures var t := ExactRelax(q, s, w, eid); var v := Next(q.m.edges[eid - 1], w);
            && (forall x: nat :: InRange(q.m, x) && s.g[x] != INF ==> t.g[x] != INF)
            && (CanStep(q.m, w, eid, v) ==> t.g[v] != INF)
  {
    SmallCosts(q, s, w);
  }

  lemma RelaxCore(q: Query, s: Search, stamp: seq<nat>, now: nat, w: nat, eid: nat) returns (stamp': seq<nat>, now': nat)
    requires ValidQuery(q) && Shape(q, s) && Expanding(q, s, w) && eid in q.m.adj[w - 1]
    requires Forest(q, s, stamp, now) && Bounded(q, s) && Fringe(q, s)
    ensures var t := ExactRelax(q, s, w, eid);
            Expanding(q, t, w) && Forest(q, t, stamp', now') && Bounded(q, t) && Fringe(q, t)
  {
    var v := Next(q.m.edges[eid - 1], w);
    if CanStep(q.m, w, eid, v) && s.g[w] + StepCost(q.m, eid, v) < s.g[v] {
      stamp', now' := stamp[v := now + 1], now + 1;
      LowerInv(q, s, stamp, now, w, eid, v);
      assert ExactRelax(q, s, w, eid) == Lower(q, s, w, eid, v, s.g[w] + StepCost(q.m, eid, v));
    } else {
      stamp', now' := stamp, now;
      assert ExactRelax(q, s, w, eid) == s;
    }
  }

  lemma RelaxInv(q: Query, s: Search, stamp: seq<nat>, now: nat, w: nat, i: nat) returns (stamp': seq<nat>, now': nat)
    requires ValidQuery(q) && Shape(q, s) && Expanding(q, s, w) && i < |q.m.adj[w - 1]| && Inv(q, s, stamp, now, w, i)
    ensures var t := Relax(q, s, w, q.m.adj[w - 1][i]);
            Expanding(q, t, w) && Inv(q, t, stamp', now', w, i + 1)
  {
    var eid := q.m.adj[w - 1][i];
    RelaxExact(q, s, w, eid);
    RelaxReaches(q, s, w, eid);
    LowerSpread(q, s, ExactRelax(q, s, w, eid), w, i);
    stamp', now' := RelaxCore(q, s, stamp, now, w, eid);
  }

  // ---------------------------------------------------------------- a whole round

  lemma {:induction false} ExpandInv(q: Query, s: Search, stamp: seq<nat>, now: nat, w: nat, i: nat)
      returns (stamp': seq<nat>, now': nat)
    requires ValidQuery(q) && Shape(q, s) && Expanding(q, s, w) && i <= |q.m.adj[w - 1]| && Inv(q, s, stamp, now, w, i)
    ensures Inv(q, Expand(q, s, w, i), stamp', now', w, |q.m.adj[w - 1]|)
    decreases |q.m.adj[w - 1]| - i
  {
    if i == |q.m.adj[w - 1]| {
      stamp', now' := stamp, now;
    } else {
      var st, n := RelaxInv(q, s, stamp, now, w, i);
      stamp', now' := ExpandInv(q, Relax(q, s, w, q.m.adj[w - 1][i]), st, n, w, i + 1);
    }
  }

  lemma WithoutKeeps(open: seq<AStarNode>, k: nat, e: AStarNode)
    requires k < |open| && e in open && e != open[k]
    ensures e in Without(open, k)
  {
    var j :| 0 <= j < |open| && open[j] == e;
    assert if j < k then Without(open, k)[j] == e else Without(open, k)[j - 1] == e;
  }

  lemma WithoutFrom(open: seq<AStarNode>, k: nat, e: AStarNode)
    requires k < |open| && e in Without(open, k)
    ensures e in open
  {
  }

  /** The entry k leaves the queue, and its node is closed if it was not yet. */
  ghost function Popped(q: Query, s: Search, k: nat): (t: Search)
    requires ValidQuery(q) && Shape(q, s) && k < |s.open|
    ensures Shape(q, t)
  {
    s.(open := Without(s.open, k), closed := s.closed[s.open[k].id := true])
  }

  lemma PopFringe(q: Query, s: Search, k: nat)
    requires ValidQuery(q) && Shape(q, s) && Fringe(q, s) && k < |s.open| && !HitsTarget(q, s, k)
    ensures Fringe(q, Popped(q, s, k))
  {
    var t := Popped(q, s, k);
    assert s.open[k] in s.open;
    forall x: nat | InRange(q.m, x) && t.g[x] != INF && !t.closed[x]
      ensures Queued(t, x)
    {
      assert Queued(s, x);
      var e :| e in s.open && e.id == x;
      WithoutKeeps(s.open, k, e);
    }
  }

  lemma PopForest(q: Query, s: Search, stamp: seq<nat>, now: nat, k: nat)
    requires ValidQuery(q) && Shape(q, s) && Forest(q, s, stamp, now) && k < |s.open|
    ensures Forest(q, Popped(q, s, k), stamp, now)
  {
    forall x: nat | InRange(q.m, x) && x != q.start ensures Linked(q, Popped(q, s, k), stamp, x) {
      assert Linked(q, s, stamp, x);
    }
  }

  lemma PopSpread(q: Query, s: Search, k: nat)
    requires ValidQuery(q) && Shape(q, s) && Spread(q, s, 0, 0) && k < |s.open|
    ensures Spread(q, Popped(q, s, k), if s.closed[s.open[k].id] then 0 else s.open[k].id, 0)
  {
    var t := Popped(q, s, k);
    var w := if s.closed[s.open[k].id] then 0 else s.open[k].id;
    forall a: nat, eid: nat, v: nat | CanStep(q.m, a, eid, v) && Tried(q, t, w, 0, a, eid) ensures t.g[v] != INF {
      assert Tried(q, s, 0, 0, a, eid);
    }
  }

  lemma PopBounded(q: Query, s: Search, k: nat)
    requires ValidQuery(q) && Shape(q, s) && Bounded(q, s) && Fringe(q, s) && k < |s.open| && !s.closed[s.open[k].id]
    ensures Bounded(q, Popped(q, s, k)) && Expanding(q, Popped(q, s, k), s.open[k].id)
  {
    assert s.open[k] in s.open;
    CountSet(s.closed, s.open[k].id);
  }

  lemma IterateInv(q: Query, s: Search, stamp: seq<nat>, now: nat, k: nat) returns (stamp': seq<nat>, now': nat)
    requires ValidQuery(q) && Shape(q, s) && Inv(q, s, stamp, now, 0, 0) && k < |s.open| && !HitsTarget(q, s, k)
    ensures Inv(q, Iterate(q, s, k), stamp', now', 0, 0)
  {
    var u := s.open[k].id;
    var t := Popped(q, s, k);
    PopFringe(q, s, k);
    PopForest(q, s, stamp, now, k);
    PopSpread(q, s, k);
    if s.closed[u] {
      assert s.closed[u := true] == s.closed;
      stamp', now' := stamp, now;
    } else {
      PopBounded(q, s, k);
      stamp', now' := ExpandInv(q, t, stamp, now, u, 0);
      SpreadDone(q, Expand(q, t, u, 0), u);
    }
  }

  /** At the end of its adjacency list a node is expanded like any other closed node. */
  lemma SpreadDone(q: Query, s: Search, w: nat)
    requires ValidQuery(q) && Shape(q, s) && InRange(q.m, w) && Spread(q, s, w, |q.m.adj[w - 1]|)
    ensures Spread(q, s, 0, 0)
  {
    var ids := q.m.adj[w - 1];
    forall a: nat, eid: nat, v: nat | CanStep(q.m, a, eid, v) && Tried(q, s, 0, 0, a, eid) ensures s.g[v] != INF {
      assert ids[..|ids|] == ids;
      assert Tried(q, s, w, |ids|, a, eid);
    }
  }

  lemma InitInv(q: Query) returns (stamp: seq<nat>)
    requires ValidQuery(q)
    ensures Inv(q, Init(q), stamp, 0, 0, 0)
  {
    var s := Init(q);
    stamp := seq(q.m.nodeCount + 1, _ => 0);
    assert s.open[0] == AStarNode(q.start, H(q, q.start)) && s.open[0] in s.open;
    assert Queued(s, q.start);
  }

  /** Over every run: the state at every loop head satisfies the invariant. */
  lemma {:induction false} RunInv(q: Query, r: seq<Search>) returns (stamp: seq<nat>, now: nat)
    requires ValidQuery(q) && IsRun(q, r)
    ensures Shape(q, r[|r| - 1]) && Inv(q, r[|r| - 1], stamp, now, 0, 0)
    decreases |r|
  {
    if |r| == 1 {
      stamp := InitInv(q);
      now := 0;
    } else {
      var r' := r[..|r| - 1];
      assert IsRun(q, r') by {
        forall i | 0 <= i < |r'| - 1 ensures Succ(q, r'[i], r'[i + 1]) {
          assert Succ(q, r[i], r[i + 1]);
        }
      }
      var st, n := RunInv(q, r');
      assert Succ(q, r[|r| - 2], r[|r| - 1]);
      var s := r[|r| - 2];
      var k: nat :| MayPop(s, k) && !HitsTarget(q, s, k) && r[|r| - 1] == Iterate(q, s, k);
      stamp, now := IterateInv(q, s, st, n, k);
    }
  }
}
