/** The road network that init_map builds, and the chains of edges that car records hold. */
module RoadNetwork {
  import opened Layout
  import opened MapInit
  import opened AStar

  predicate ValidEid(m: MapData, e: nat) { 1 <= e <= m.edgeCount && e <= |m.edges| }

  function From(m: MapData, e: nat): nat
    requires ValidEid(m, e)
  {
    m.edges[e - 1].fromNode
  }

  function To(m: MapData, e: nat): nat
    requires ValidEid(m, e)
  {
    m.edges[e - 1].toNode
  }

  /** The other direction of edge e when there are `half` roads. */
  function Partner(half: nat, e: nat): nat { if e <= half then e + half else e - half }

  predicate IsNode(m: MapData, v: nat) { 1 <= v <= m.nodeCount && v < MAX_NODES }

  /** e's id is its position, and its ends are two different nodes. */
  predicate SoundEdge(m: MapData, e: nat)
    requires ValidEid(m, e)
  {
    m.edges[e - 1].id == e && IsNode(m, From(m, e)) && IsNode(m, To(m, e)) && From(m, e) != To(m, e)
  }

  predicate Reverses(m: MapData, e: nat, f: nat) {
    ValidEid(m, e) && ValidEid(m, f) && From(m, f) == To(m, e) && To(m, f) == From(m, e)
  }

  predicate Listed(m: MapData, n: nat, e: nat) { 1 <= n <= |m.adj| && e in m.adj[n - 1] }

  predicate SameEnds(m: MapData, e: nat, f: nat) {
    ValidEid(m, e) && ValidEid(m, f) && From(m, e) == From(m, f) && To(m, e) == To(m, f)
  }

  /** Some edge leads from a to b. */
  ghost predicate HasRoad(m: MapData, a: nat, b: nat) {
    exists e: nat :: ValidEid(m, e) && From(m, e) == a && To(m, e) == b
  }

  /** Ids are positions, the second half of the edges reverses the first, and no two edges join the same ends. */
  ghost predicate Network(m: MapData, paths: seq<Bipath>) {
    && MapShape(m) && m.edgeCount == 2 * |paths|
    && (forall k :: 0 <= k < |paths| ==> paths[k] == Bipath(k + 1, k + 1 + |paths|))
    && (forall n :: 0 <= n < m.nodeCount ==> m.nodes[n].id == n + 1)
    && (forall e: nat :: ValidEid(m, e) ==> SoundEdge(m, e))
    && (forall e: nat :: ValidEid(m, e) ==> Reverses(m, e, Partner(|paths|, e)))
    && (forall n: nat, e: nat :: Listed(m, n, e) <==> ValidEid(m, e) && From(m, e) == n)
    && (forall e: nat, f: nat :: SameEnds(m, e, f) ==> e == f)
  }

  /** The search that every handler runs over the road pairs. */
  function FindPartner(paths: seq<Bipath>, eid: nat): Option<nat> {
    if paths == [] then None
    else if paths[0].GetOtherPath(eid).Some? then paths[0].GetOtherPath(eid)
    else FindPartner(paths[1..], eid)
  }

  lemma {:induction false} FindPartnerFrom(paths: seq<Bipath>, i: nat, eid: nat)
    requires i <= |paths| && forall k :: 0 <= k < |paths| ==> paths[k] == Bipath(k + 1, k + 1 + |paths|)
    requires 1 <= eid <= 2 * |paths| && i < if eid <= |paths| then eid else eid - |paths|
    ensures FindPartner(paths[i..], eid) == Some(Partner(|paths|, eid))
    decreases |paths| - i
  {
    if paths[i].GetOtherPath(eid).None? { FindPartnerFrom(paths, i + 1, eid); }
  }

  /** The search finds the partner; looking up twice comes back; the partner runs the other way. */
  lemma PartnerLookup(m: MapData, paths: seq<Bipath>, eid: nat)
    requires Network(m, paths) && ValidEid(m, eid)
    ensures FindPartner(paths, eid) == Some(Partner(|paths|, eid)) && Partner(|paths|, Partner(|paths|, eid)) == eid
    ensures Reverses(m, eid, Partner(|paths|, eid)) && Partner(|paths|, eid) != eid
  {
    assert paths[0..] == paths;
    FindPartnerFrom(paths, 0, eid);
  }

  /** The same ids are listed at the same nodes, in any order and any number of times. */
  ghost predicate SameLists(m: MapData, m': MapData) {
    |m'.adj| == |m.adj| && forall n: nat, e: nat :: Listed(m', n, e) <==> Listed(m, n, e)
  }

  /** Nothing but statuses, and the order of adjacency lists, differs. */
  ghost predicate SameRoads(m: MapData, m': MapData) {
    && |m'.edges| == |m.edges| && m'.nodeCount == m.nodeCount && m'.edgeCount == m.edgeCount
    && |m'.nodes| == |m.nodes| && SameLists(m, m')
    && (forall i :: 0 <= i < |m.edges| ==>
          m'.edges[i].id == m.edges[i].id && m'.edges[i].fromNode == m.edges[i].fromNode && m'.edges[i].toNode == m.edges[i].toNode
          && m'.edges[i].weight == m.edges[i].weight)
    && (forall i :: 0 <= i < |m.nodes| ==>
          m'.nodes[i].id == m.nodes[i].id && m'.nodes[i].x == m.nodes[i].x && m'.nodes[i].y == m.nodes[i].y)
  }

  lemma SameRoadsReflexive(m: MapData)
    ensures SameRoads(m, m)
  {
  }

  lemma SameRoadsTransitive(a: MapData, b: MapData, c: MapData)
    requires SameRoads(a, b) && SameRoads(b, c)
    ensures SameRoads(a, c)
  {
  }

  lemma SameRoadsSymmetric(a: MapData, b: MapData)
    requires SameRoads(a, b)
    ensures SameRoads(b, a)
  {
  }

  lemma EdgeKept(m: MapData, m': MapData, e: nat)
    requires SameRoads(m, m')
    ensures ValidEid(m', e) <==> ValidEid(m, e)
    ensures ValidEid(m, e) ==> From(m', e) == From(m, e) && To(m', e) == To(m, e) && m'.edges[e - 1].id == m.edges[e - 1].id
  {
  }

  lemma NetworkKept(m: MapData, m': MapData, paths: seq<Bipath>)
    requires Network(m, paths) && SameRoads(m, m')
    ensures Network(m', paths)
  {
    forall e: nat | ValidEid(m', e) ensures SoundEdge(m', e) {
      EdgeKept(m, m', e);
      assert SoundEdge(m, e);
    }
    forall e: nat | ValidEid(m', e) ensures Reverses(m', e, Partner(|paths|, e)) {
      EdgeKept(m, m', e);
      EdgeKept(m, m', Partner(|paths|, e));
      assert Reverses(m, e, Partner(|paths|, e));
    }
    forall n: nat, e: nat ensures Listed(m', n, e) <==> ValidEid(m', e) && From(m', e) == n {
      EdgeKept(m, m', e);
      assert Listed(m', n, e) <==> Listed(m, n, e);
    }
    forall e: nat, f: nat | SameEnds(m', e, f) ensures e == f {
      EdgeKept(m, m', e);
      EdgeKept(m, m', f);
      assert SameEnds(m, e, f);
    }
    ListedShape(m');
  }

  // ---------------------------------------------------------------- chains

  /** The nodes along a list of edges, both ends included. */
  ghost function NodesOf(m: MapData, p: seq<nat>): (ns: seq<nat>)
    requires p != [] && forall i :: 0 <= i < |p| ==> ValidEid(m, p[i])
    ensures |ns| == |p| + 1
  {
    seq(|p| + 1, i requires 0 <= i <= |p| => if i < |p| then From(m, p[i]) else To(m, p[|p| - 1]))
  }

  /** Edges that follow each other and visit no node twice. */
  ghost predicate SimpleChain(m: MapData, p: seq<nat>) {
    && p != [] && (forall i :: 0 <= i < |p| ==> ValidEid(m, p[i]))
    && (forall i :: 0 <= i < |p| - 1 ==> To(m, p[i]) == From(m, p[i + 1]))
    && Distinct(NodesOf(m, p))
  }

  lemma ChainKept(m: MapData, m': MapData, p: seq<nat>)
    requires SimpleChain(m, p) && SameRoads(m, m')
    ensures SimpleChain(m', p) && NodesOf(m', p) == NodesOf(m, p)
  {
    forall i | 0 <= i < |p| ensures ValidEid(m', p[i]) && From(m', p[i]) == From(m, p[i]) && To(m', p[i]) == To(m, p[i]) {
      assert ValidEid(m, p[i]);
    }
    assert NodesOf(m', p) == NodesOf(m, p);
  }

  /** Edges that lead from u to v, one after the other. */
  ghost predicate Chain(m: MapData, u: nat, p: seq<nat>, v: nat) {
    && p != [] && (forall i :: 0 <= i < |p| ==> ValidEid(m, p[i]))
    && (forall i :: 0 <= i < |p| - 1 ==> To(m, p[i]) == From(m, p[i + 1]))
    && From(m, p[0]) == u && To(m, p[|p| - 1]) == v
  }

  lemma ConsChain(m: MapData, e: nat, w: nat, p: seq<nat>, v: nat)
    requires Chain(m, w, p, v) && ValidEid(m, e) && To(m, e) == w
    ensures Chain(m, From(m, e), [e] + p, v) && NodesOf(m, [e] + p) == [From(m, e)] + NodesOf(m, p)
  {
  }

  lemma StepEdge(m: MapData, paths: seq<Bipath>, u: nat, e: nat, w: nat)
    requires Network(m, paths) && CanStep(m, u, e, w)
    ensures ValidEid(m, e) && From(m, e) == u && To(m, e) == w
  {
    assert Listed(m, u, e);
  }

  /** In a network the planner's steps follow the edges forwards, so its routes are chains. */
  lemma {:induction false} RouteIsChain(m: MapData, paths: seq<Bipath>, u: nat, p: seq<nat>, v: nat)
    requires Network(m, paths) && IsRoute(m, u, p, v) && p != []
    ensures Chain(m, u, p, v)
    decreases |p|
  {
    var w, tail := Next(m.edges[p[0] - 1], u), p[1..];
    StepEdge(m, paths, u, p[0], w);
    assert [p[0]] + tail == p;
    if tail == [] {
      assert w == v;
    } else {
      RouteIsChain(m, paths, w, tail, v);
      ConsChain(m, p[0], w, tail, v);
    }
  }

  /** The i-th node of a route is where its i-th edge starts. */
  lemma {:induction false} RouteNodeAt(m: MapData, u: nat, p: seq<nat>, v: nat, i: nat)
    requires MapShape(m) && IsRoute(m, u, p, v) && Chain(m, u, p, v) && i <= |p|
    ensures RouteNodes(m, u, p, v)[i] == NodesOf(m, p)[i]
    decreases |p|
  {
    var w, tail := To(m, p[0]), p[1..];
    assert Next(m.edges[p[0] - 1], u) == w;
    if tail == [] {
      assert RouteNodes(m, w, tail, v) == [w];
    } else if i > 0 {
      assert Chain(m, w, tail, v);
      RouteNodeAt(m, w, tail, v, i - 1);
      assert NodesOf(m, tail)[i - 1] == NodesOf(m, p)[i];
    }
  }

  lemma RouteNodesAre(m: MapData, paths: seq<Bipath>, u: nat, p: seq<nat>, v: nat)
    requires Network(m, paths) && IsRoute(m, u, p, v) && p != []
    ensures Chain(m, u, p, v) && NodesOf(m, p) == RouteNodes(m, u, p, v)
  {
    RouteIsChain(m, paths, u, p, v);
    forall i: nat | i <= |p| ensures RouteNodes(m, u, p, v)[i] == NodesOf(m, p)[i] {
      RouteNodeAt(m, u, p, v, i);
    }
  }

  // ---------------------------------------------------------------- what init_map builds

  /** No loops, no two roads between the same ends, and node ids within range. */
  ghost predicate PlainRoads(roads: seq<Road>, nodeCount: nat) {
    && ValidRoads(roads) && nodeCount < MAX_NODES
    && (forall k :: 0 <= k < |roads| ==> roads[k].fromNode <= nodeCount && roads[k].toNode <= nodeCount && roads[k].fromNode != roads[k].toNode)
    && (forall k, l :: 0 <= k < l < |roads| ==>
          !(roads[k].fromNode == roads[l].fromNode && roads[k].toNode == roads[l].toNode) &&
          !(roads[k].fromNode == roads[l].toNode && roads[k].toNode == roads[l].fromNode))
  }

  /** The map that shared memory holds after `times` runs of init_map. */
  ghost function BuiltMap(nodes: seq<Node>, nodeCount: nat, rest: seq<Edge>, roads: seq<Road>, times: nat): MapData
    requires FromOk(Edges(roads))
  {
    MapData(nodes, Edges(roads) + rest, AfterRuns(Edges(roads), times), nodeCount, 2 * |roads|)
  }

  lemma EdgeAt(roads: seq<Road>, e: nat)
    requires 1 <= e <= 2 * |roads|
    ensures Edges(roads)[e - 1] == if e <= |roads| then EdgeA(roads[e - 1], e) else EdgeB(roads[e - 1 - |roads|], e)
  {
  }

  lemma EdgesFromOk(roads: seq<Road>)
    requires ValidRoads(roads)
    ensures FromOk(Edges(roads)) && DistinctIds(Edges(roads))
  {
    forall i | 0 <= i < 2 * |roads| ensures Edges(roads)[i].id == i + 1 && 1 <= Edges(roads)[i].fromNode <= MAX_NODES {
      EdgeAt(roads, i + 1);
    }
  }

  lemma BuiltEdge(m: MapData, roads: seq<Road>, e: nat)
    requires PlainRoads(roads, m.nodeCount) && m.edgeCount == 2 * |roads| && |m.edges| == MAX_EDGES && ValidEid(m, e)
    requires forall i :: 0 <= i < 2 * |roads| ==> m.edges[i] == Edges(roads)[i]
    ensures SoundEdge(m, e)
  {
    EdgeAt(roads, e);
  }

  lemma BuiltReverse(m: MapData, roads: seq<Road>, e: nat)
    requires PlainRoads(roads, m.nodeCount) && m.edgeCount == 2 * |roads| && |m.edges| == MAX_EDGES && ValidEid(m, e)
    requires forall i :: 0 <= i < 2 * |roads| ==> m.edges[i] == Edges(roads)[i]
    ensures Reverses(m, e, Partner(|roads|, e))
  {
    EdgeAt(roads, e);
    EdgeAt(roads, Partner(|roads|, e));
  }

  lemma BuiltNoParallel(m: MapData, roads: seq<Road>, e: nat, f: nat)
    requires PlainRoads(roads, m.nodeCount) && m.edgeCount == 2 * |roads| && |m.edges| == MAX_EDGES
    requires forall i :: 0 <= i < 2 * |roads| ==> m.edges[i] == Edges(roads)[i]
    requires SameEnds(m, e, f)
    ensures e == f
  {
    EdgeAt(roads, e);
    EdgeAt(roads, f);
    var k, l := if e <= |roads| then e - 1 else e - 1 - |roads|, if f <= |roads| then f - 1 else f - 1 - |roads|;
    assert k < l || k > l || k == l;
    assert roads[k].fromNode != roads[k].toNode;
  }

  lemma BuiltLists(es: seq<Edge>, n: nat, times: nat, e: nat)
    requires FromOk(es) && DistinctIds(es) && times >= 1 && 1 <= n <= MAX_NODES && |OutIds(es, n, 0)| <= MAX_NEIGHBORS
    ensures e in AfterRuns(es, times)[n - 1] <==> 1 <= e <= |es| && es[e - 1].fromNode == n
  {
    AdjacencyAfterResets(es, n - 1, times);
    OutIdsMembers(es, n, 0, e);
  }

  lemma TablesListed(m: MapData, roads: seq<Road>, times: nat, n: nat, e: nat)
    requires ValidRoads(roads) && FromOk(Edges(roads)) && DistinctIds(Edges(roads)) && times >= 1
    requires m.edgeCount == 2 * |roads| && |m.edges| == MAX_EDGES
    requires forall i :: 0 <= i < 2 * |roads| ==> m.edges[i] == Edges(roads)[i]
    requires m.adj == AfterRuns(Edges(roads), times)
    requires forall k :: 1 <= k <= MAX_NODES ==> |OutIds(Edges(roads), k, 0)| <= MAX_NEIGHBORS
    ensures Listed(m, n, e) <==> ValidEid(m, e) && From(m, e) == n
  {
    if 1 <= n <= MAX_NODES { BuiltLists(Edges(roads), n, times, e); }
    if ValidEid(m, e) { assert m.edges[e - 1] == Edges(roads)[e - 1]; }
  }

  lemma TablesAreNetwork(m: MapData, roads: seq<Road>, times: nat)
    requires PlainRoads(roads, m.nodeCount) && FromOk(Edges(roads)) && times >= 1
    requires |m.nodes| == MAX_NODES && (forall n :: 0 <= n < m.nodeCount ==> m.nodes[n].id == n + 1)
    requires m.edgeCount == 2 * |roads| && |m.edges| == MAX_EDGES
    requires forall i :: 0 <= i < 2 * |roads| ==> m.edges[i] == Edges(roads)[i]
    requires m.adj == AfterRuns(Edges(roads), times)
    requires forall n :: 1 <= n <= MAX_NODES ==> |OutIds(Edges(roads), n, 0)| <= MAX_NEIGHBORS
    ensures Network(m, Bipaths(roads))
  {
    EdgesFromOk(roads);
    forall e: nat | ValidEid(m, e) ensures SoundEdge(m, e) && Reverses(m, e, Partner(|roads|, e)) {
      BuiltEdge(m, roads, e);
      BuiltReverse(m, roads, e);
    }
    forall e: nat, f: nat | SameEnds(m, e, f) ensures e == f { BuiltNoParallel(m, roads, e, f); }
    forall n: nat, e: nat ensures Listed(m, n, e) <==> ValidEid(m, e) && From(m, e) == n {
      TablesListed(m, roads, times, n, e);
    }
    ListedShape(m);
  }

  /** After the first run and after every reset the map is a network, provided at most eight edges leave a node. */
  lemma BuiltMapIsNetwork(nodes: seq<Node>, nodeCount: nat, rest: seq<Edge>, roads: seq<Road>, times: nat)
    requires PlainRoads(roads, nodeCount) && FromOk(Edges(roads)) && times >= 1
    requires |nodes| == MAX_NODES && (forall n :: 0 <= n < nodeCount ==> nodes[n].id == n + 1)
    requires |rest| == MAX_EDGES - 2 * |roads|
    requires forall n :: 1 <= n <= MAX_NODES ==> |OutIds(Edges(roads), n, 0)| <= MAX_NEIGHBORS
    ensures Network(BuiltMap(nodes, nodeCount, rest, roads, times), Bipaths(roads))
  {
    TablesAreNetwork(BuiltMap(nodes, nodeCount, rest, roads, times), roads, times);
  }

  // ---------------------------------------------------------------- resets

  /** The map differs from the tables of init_map in statuses and list order only. */
  ghost predicate FromTable(m: MapData, nodes: seq<Node>, roads: seq<Road>) {
    && m.edgeCount == 2 * |roads| <= |m.edges| && m.nodeCount == |nodes| <= |m.nodes|
    && (forall i :: 0 <= i < 2 * |roads| ==> m.edges[i].(status := Edges(roads)[i].status) == Edges(roads)[i])
    && (forall i :: 0 <= i < |nodes| ==> m.nodes[i].(status := nodes[i].status) == nodes[i])
  }

  /** What one more run of init_map makes of m: tables rewritten, ids appended to the lists as they are. */
  ghost function ResetMap(m: MapData, nodes: seq<Node>, roads: seq<Road>): (r: MapData)
    requires |m.adj| == MAX_NODES && FromOk(Edges(roads)) && 2 * |roads| <= |m.edges| && |nodes| <= |m.nodes|
    ensures |r.adj| == MAX_NODES && |r.edges| == |m.edges| && |r.nodes| == |m.nodes|
  {
    MapData(nodes + m.nodes[|nodes|..], Edges(roads) + m.edges[2 * |roads|..], Filled(m.adj, Edges(roads), 0), |nodes|, 2 * |roads|)
  }

  lemma {:induction false} AppendMembers(list: seq<nat>, ids: seq<nat>, x: nat)
    ensures x in list ==> x in Append(list, ids)
    ensures x in Append(list, ids) ==> x in list || x in ids
    decreases |ids|
  {
    if ids != [] { AppendMembers(if |list| < MAX_NEIGHBORS then list + [ids[0]] else list, ids[1..], x); }
  }

  /** Every id that a reset appends is listed already. */
  lemma ResetLists(m: MapData, es: seq<Edge>, n: nat, e: nat)
    requires |m.adj| == MAX_NODES && FromOk(es) && DistinctIds(es) && 1 <= n <= MAX_NODES
    requires 1 <= e <= |es| && es[e - 1].fromNode == n ==> e in m.adj[n - 1]
    ensures e in Filled(m.adj, es, 0)[n - 1] <==> e in m.adj[n - 1]
  {
    FilledIsAppend(m.adj, es, 0, n - 1);
    AppendMembers(m.adj[n - 1], OutIds(es, n, 0), e);
    OutIdsMembers(es, n, 0, e);
  }

  /** A reset appends the table's ids once more behind each list, as far as there is room. */
  lemma ResetAppends(m: MapData, nodes: seq<Node>, roads: seq<Road>, n: nat)
    requires |m.adj| == MAX_NODES && FromOk(Edges(roads)) && 2 * |roads| <= |m.edges| && |nodes| <= |m.nodes|
    requires n < MAX_NODES && |m.adj[n]| <= MAX_NEIGHBORS
    ensures var out, room := OutIds(Edges(roads), n + 1, 0), MAX_NEIGHBORS - |m.adj[n]|;
            ResetMap(m, nodes, roads).adj[n] == m.adj[n] + if |out| <= room then out else out[..room]
  {
    FilledIsAppend(m.adj, Edges(roads), 0, n);
    AppendIsPrefix(m.adj[n], OutIds(Edges(roads), n + 1, 0));
  }

  lemma TableEdge(m: MapData, nodes: seq<Node>, roads: seq<Road>, e: nat)
    requires FromTable(m, nodes, roads) && 1 <= e <= 2 * |roads|
    ensures ValidEid(m, e) && From(m, e) == Edges(roads)[e - 1].fromNode && To(m, e) == Edges(roads)[e - 1].toNode
    ensures m.edges[e - 1].id == Edges(roads)[e - 1].id && m.edges[e - 1].weight == Edges(roads)[e - 1].weight
  {
    assert m.edges[e - 1].(status := Edges(roads)[e - 1].status) == Edges(roads)[e - 1];
  }

  /** In a network such tables have ids and ends in range. */
  lemma TableIsSound(m: MapData, paths: seq<Bipath>, nodes: seq<Node>, roads: seq<Road>)
    requires Network(m, paths) && FromTable(m, nodes, roads)
    ensures FromOk(Edges(roads)) && DistinctIds(Edges(roads))
  {
    hide MapShape;
    forall i | 0 <= i < 2 * |roads| ensures Edges(roads)[i].id == i + 1 && 1 <= Edges(roads)[i].fromNode <= MAX_NODES {
      EdgeAt(roads, i + 1);
      TableEdge(m, nodes, roads, i + 1);
      assert SoundEdge(m, i + 1);
    }
  }

  /** Changes of statuses leave the map on its table. */
  lemma FromTableKept(m: MapData, m': MapData, nodes: seq<Node>, roads: seq<Road>)
    requires FromTable(m, nodes, roads) && SameRoads(m, m')
    ensures FromTable(m', nodes, roads)
  {
    forall i | 0 <= i < 2 * |roads| ensures m'.edges[i].(status := Edges(roads)[i].status) == Edges(roads)[i] {
      assert m.edges[i].(status := Edges(roads)[i].status) == Edges(roads)[i];
    }
    forall i | 0 <= i < |nodes| ensures m'.nodes[i].(status := nodes[i].status) == nodes[i] {
      assert m.nodes[i].(status := nodes[i].status) == nodes[i];
    }
  }

  lemma NetworkLists(m: MapData, paths: seq<Bipath>, n: nat, e: nat)
    requires Network(m, paths)
    ensures |m.adj| == MAX_NODES && (Listed(m, n, e) <==> ValidEid(m, e) && From(m, e) == n)
  {
  }

  lemma ResetListed(m: MapData, nodes: seq<Node>, roads: seq<Road>, n: nat, e: nat)
    requires |m.adj| == MAX_NODES && (Listed(m, n, e) <==> ValidEid(m, e) && From(m, e) == n)
    requires FromTable(m, nodes, roads) && FromOk(Edges(roads)) && DistinctIds(Edges(roads))
    ensures Listed(ResetMap(m, nodes, roads), n, e) <==> Listed(m, n, e)
  {
    hide Edges, FromOk, DistinctIds, Filled;
    if 1 <= n <= MAX_NODES {
      if 1 <= e <= 2 * |roads| { TableEdge(m, nodes, roads, e); }
      ResetLists(m, Edges(roads), n, e);
    }
  }

  /** However statuses have changed since init_map ran, a reset changes nothing but statuses and list order. */
  lemma ResetKeepsRoads(m: MapData, paths: seq<Bipath>, nodes: seq<Node>, roads: seq<Road>)
    requires Network(m, paths) && FromTable(m, nodes, roads) && FromOk(Edges(roads)) && DistinctIds(Edges(roads))
    ensures |m.adj| == MAX_NODES && SameRoads(m, ResetMap(m, nodes, roads))
  {
    var r := ResetMap(m, nodes, roads);
    forall n: nat, e: nat ensures Listed(r, n, e) <==> Listed(m, n, e) {
      NetworkLists(m, paths, n, e);
      ResetListed(m, nodes, roads, n, e);
    }
    forall i | 0 <= i < |m.edges|
      ensures r.edges[i].id == m.edges[i].id && r.edges[i].fromNode == m.edges[i].fromNode && r.edges[i].toNode == m.edges[i].toNode
              && r.edges[i].weight == m.edges[i].weight
    {
      if i < 2 * |roads| { TableEdge(m, nodes, roads, i + 1); }
    }
  }

  lemma ListedShape(m: MapData)
    requires |m.nodes| == MAX_NODES && |m.edges| == MAX_EDGES && |m.adj| == MAX_NODES
    requires m.nodeCount <= MAX_NODES && m.edgeCount <= MAX_EDGES
    requires forall n: nat, e: nat :: Listed(m, n, e) <==> ValidEid(m, e) && From(m, e) == n
    requires forall e: nat :: ValidEid(m, e) ==> SoundEdge(m, e)
    ensures MapShape(m)
  {
    forall i, j | 0 <= i < MAX_NODES && 0 <= j < |m.adj[i]|
      ensures var e := m.adj[i][j];
              1 <= e <= MAX_EDGES && 1 <= m.edges[e - 1].fromNode <= MAX_NODES && 1 <= m.edges[e - 1].toNode <= MAX_NODES
    {
      assert Listed(m, i + 1, m.adj[i][j]);
      assert SoundEdge(m, m.adj[i][j]);
    }
  }
}
