/** model_manager's init_map: edges, road pairs and adjacency lists, and what any number of resets leaves. */
module MapInit {
  import opened Layout

  /** One entry of init_map's table; entry k becomes edge k + 1 and, reversed, edge k + 1 + (number of roads). */
  datatype Road = Road(fromNode: nat, toNode: nat, weight: U16, status: EdgeStatus)

  datatype Bipath = Bipath(idA: nat, idB: nat) {
    /** The other direction of a road pair, None where the original returns -1. */
    function GetOtherPath(pathId: nat): Option<nat> {
      if pathId == idA then Some(idB) else if pathId == idB then Some(idA) else None
    }
  }

  function EdgeA(r: Road, idA: nat): Edge { Edge(idA, r.fromNode, r.toNode, r.weight, r.status) }

  function EdgeB(r: Road, idB: nat): Edge { Edge(idB, r.toNode, r.fromNode, r.weight, r.status) }

  ghost predicate ValidRoads(roads: seq<Road>) {
    && 2 * |roads| <= MAX_EDGES
    && forall k :: 0 <= k < |roads| ==> 1 <= roads[k].fromNode <= MAX_NODES && 1 <= roads[k].toNode <= MAX_NODES
  }

  /** The edge table: all forward edges, then all reverse ones. */
  function Edges(roads: seq<Road>): (es: seq<Edge>)
    ensures |es| == 2 * |roads|
  {
    seq(2 * |roads|, i requires 0 <= i < 2 * |roads| =>
      if i < |roads| then EdgeA(roads[i], i + 1) else EdgeB(roads[i - |roads|], i + 1))
  }

  function Bipaths(roads: seq<Road>): (ps: seq<Bipath>)
    ensures |ps| == |roads|
  {
    seq(|roads|, k requires 0 <= k < |roads| => Bipath(k + 1, k + 1 + |roads|))
  }

  /** Every table entry gives two edges, one each way, alike in weight and status, and the pair of their ids. */
  lemma TableRows(roads: seq<Road>, k: nat)
    requires k < |roads|
    ensures var r, n, es := roads[k], |roads|, Edges(roads);
            && es[k].id == k + 1 && es[k].fromNode == r.fromNode && es[k].toNode == r.toNode
            && es[k + n].id == k + 1 + n && es[k + n].fromNode == r.toNode && es[k + n].toNode == r.fromNode
            && es[k].weight == es[k + n].weight == r.weight && es[k].status == es[k + n].status == r.status
            && Bipaths(roads)[k].idA == es[k].id && Bipaths(roads)[k].idB == es[k + n].id
  {
    var i := k + |roads|;
    assert Edges(roads)[i] == EdgeB(roads[i - |roads|], i + 1);
  }

  /** The ids of the edges from position i on that leave node n, in table order. */
  function OutIds(es: seq<Edge>, n: nat, i: nat): seq<nat>
    requires i <= |es|
    decreases |es| - i
  {
    if i == |es| then [] else (if es[i].fromNode == n then [es[i].id] else []) + OutIds(es, n, i + 1)
  }

  /** Appending to an adjacency list stops at AGV_MAX_NEIGHBORS. */
  function Append(list: seq<nat>, ids: seq<nat>): seq<nat>
    decreases |ids|
  {
    if ids == [] then list
    else Append(if |list| < MAX_NEIGHBORS then list + [ids[0]] else list, ids[1..])
  }

  /** The part of shared memory that init_map writes. */
  class MapMemory {
    const edges: array<Edge>
    const paths: array<Bipath>
    const adj: array<seq<nat>>
    var edgeCount: nat
    var bipathCount: nat

    ghost predicate Valid()
      reads this
    {
      edges.Length == MAX_EDGES && paths.Length == MAX_EDGES / 2 && adj.Length == MAX_NODES
    }

    /** The value-initialised memory of a new segment. */
    constructor ()
      ensures Valid() && fresh(edges) && fresh(paths) && fresh(adj) && edgeCount == 0 && bipathCount == 0
      ensures forall i :: 0 <= i < MAX_EDGES ==> edges[i] == Edge(0, 0, 0, 0, EdgeIdle)
      ensures forall k :: 0 <= k < MAX_EDGES / 2 ==> paths[k] == Bipath(0, 0)
      ensures forall n :: 0 <= n < MAX_NODES ==> adj[n] == []
    {
      edges := new Edge[MAX_EDGES](_ => Edge(0, 0, 0, 0, EdgeIdle));
      paths := new Bipath[MAX_EDGES / 2](_ => Bipath(0, 0));
      adj := new seq<nat>[MAX_NODES](_ => []);
      edgeCount, bipathCount := 0, 0;
    }

    /** One table entry: the two directions of road k, and their pair. */
    method PutRoad(k: nat, m: nat, r: Road)
      requires Valid() && k < m && 2 * m <= MAX_EDGES
      modifies edges, paths
      ensures edges[k] == EdgeA(r, k + 1) && edges[m + k] == EdgeB(r, m + k + 1) && paths[k] == Bipath(k + 1, m + k + 1)
      ensures forall i :: 0 <= i < MAX_EDGES && i != k && i != m + k ==> edges[i] == old(edges[i])
      ensures forall i :: 0 <= i < MAX_EDGES / 2 && i != k ==> paths[i] == old(paths[i])
    {
      var idA, idB := k + 1, k + 1 + m;
      edges[idA - 1] := EdgeA(r, idA);
      edges[idB - 1] := EdgeB(r, idB);
      paths[idA - 1] := Bipath(idA, idB);
    }

    /** The first loop: both directions of every road, and the pair. */
    method FillEdges(roads: seq<Road>)
      requires Valid() && ValidRoads(roads)
      modifies this, edges, paths
      ensures edgeCount == 2 * |roads| && bipathCount == |roads|
      ensures forall i :: 0 <= i < 2 * |roads| ==> edges[i] == Edges(roads)[i]
      ensures forall i :: 2 * |roads| <= i < MAX_EDGES ==> edges[i] == old(edges[i])
      ensures forall i :: 0 <= i < |roads| ==> paths[i] == Bipaths(roads)[i]
      ensures forall i :: |roads| <= i < MAX_EDGES / 2 ==> paths[i] == old(paths[i])
    {
      edgeCount, bipathCount := 2 * |roads|, 0;
      var m := |roads|;
      for k := 0 to m
        invariant bipathCount == k && edgeCount == 2 * m
        invariant forall i :: 0 <= i < k ==> edges[i] == EdgeA(roads[i], i + 1)
        invariant forall i :: m <= i < m + k ==> edges[i] == EdgeB(roads[i - m], i + 1)
        invariant forall i :: 0 <= i < k ==> paths[i] == Bipath(i + 1, i + 1 + m)
        invariant forall i :: 2 * m <= i < MAX_EDGES ==> edges[i] == old(edges[i])
        invariant forall i :: m <= i < MAX_EDGES / 2 ==> paths[i] == old(paths[i])
      {
        PutRoad(k, m, roads[k]);
        bipathCount := bipathCount + 1;
      }
    }

    /** The second loop: every edge goes behind the list of the node it leaves, while there is room. */
    method FillAdjacency(ghost es: seq<Edge>)
      requires Valid() && edgeCount <= MAX_EDGES && es == edges[..edgeCount] && FromOk(es)
      modifies adj
      ensures adj[..] == Filled(old(adj[..]), es, 0)
    {
      for i := 0 to edgeCount
        invariant Filled(adj[..], es, i) == Filled(old(adj[..]), es, 0)
      {
        var e := edges[i];
        assert e == es[i];
        ghost var before := adj[..];
        if |adj[e.fromNode - 1]| < MAX_NEIGHBORS {
          adj[e.fromNode - 1] := adj[e.fromNode - 1] + [e.id];
        }
        assert adj[..] == WithEdge(before, e);
      }
    }

    /** First run and every reset. The adjacency counts are not cleared: new ids go behind the old ones. */
    method InitMap(roads: seq<Road>)
      requires Valid() && ValidRoads(roads) && FromOk(Edges(roads))
      modifies this, edges, paths, adj
      ensures Valid() && edgeCount == 2 * |roads| && bipathCount == |roads|
      ensures edges[..2 * |roads|] == Edges(roads) && edges[2 * |roads|..] == old(edges[2 * |roads|..])
      ensures paths[..|roads|] == Bipaths(roads) && paths[|roads|..] == old(paths[|roads|..])
      ensures adj[..] == Filled(old(adj[..]), Edges(roads), 0)
    {
      FillEdges(roads);
      FillAdjacency(Edges(roads));
    }
  }

  // ---------------------------------------------------------------- adjacency lists

  ghost predicate FromOk(es: seq<Edge>) { forall i :: 0 <= i < |es| ==> 1 <= es[i].fromNode <= MAX_NODES }

  ghost function WithEdge(adj: seq<seq<nat>>, e: Edge): (r: seq<seq<nat>>)
    requires |adj| == MAX_NODES && 1 <= e.fromNode <= MAX_NODES
    ensures |r| == MAX_NODES
  {
    if |adj[e.fromNode - 1]| < MAX_NEIGHBORS then adj[e.fromNode - 1 := adj[e.fromNode - 1] + [e.id]] else adj
  }

  /** All adjacency lists after the edges from position i on have been added. */
  ghost function Filled(adj: seq<seq<nat>>, es: seq<Edge>, i: nat): (r: seq<seq<nat>>)
    requires |adj| == MAX_NODES && FromOk(es) && i <= |es|
    ensures |r| == MAX_NODES
    decreases |es| - i
  {
    if i == |es| then adj else Filled(WithEdge(adj, es[i]), es, i + 1)
  }

  /** Seen from one node, the second loop appends that node's outgoing edge ids. */
  lemma {:induction false} FilledIsAppend(adj: seq<seq<nat>>, es: seq<Edge>, i: nat, n: nat)
    requires |adj| == MAX_NODES && FromOk(es) && i <= |es| && n < MAX_NODES
    ensures Filled(adj, es, i)[n] == Append(adj[n], OutIds(es, n + 1, i))
    decreases |es| - i
  {
    if i < |es| {
      FilledIsAppend(WithEdge(adj, es[i]), es, i + 1, n);
      if es[i].fromNode == n + 1 {
        assert OutIds(es, n + 1, i)[1..] == OutIds(es, n + 1, i + 1);
      } else {
        assert OutIds(es, n + 1, i) == OutIds(es, n + 1, i + 1);
      }
    }
  }

  lemma {:induction false} AppendIsPrefix(list: seq<nat>, ids: seq<nat>)
    requires |list| <= MAX_NEIGHBORS
    ensures var room := MAX_NEIGHBORS - |list|;
            Append(list, ids) == list + (if |ids| <= room then ids else ids[..room])
    decreases |ids|
  {
    if ids != [] {
      AppendIsPrefix(if |list| < MAX_NEIGHBORS then list + [ids[0]] else list, ids[1..]);
      if |list| < MAX_NEIGHBORS { assert ids == [ids[0]] + ids[1..]; }
    }
  }

  /** The lists after `times` runs of init_map on cleared memory. */
  ghost function AfterRuns(es: seq<Edge>, times: nat): (r: seq<seq<nat>>)
    requires FromOk(es)
    ensures |r| == MAX_NODES
  {
    if times == 0 then seq(MAX_NODES, _ => []) else Filled(AfterRuns(es, times - 1), es, 0)
  }

  ghost predicate SameMembers(a: seq<nat>, b: seq<nat>) { forall x :: x in a <==> x in b }

  /** After the first run, and after any number of resets, a list holds what the first run could fit into it. */
  lemma {:induction false} AdjacencyAfterRuns(es: seq<Edge>, n: nat, times: nat)
    requires FromOk(es) && n < MAX_NODES && times >= 1
    ensures |AfterRuns(es, times)[n]| <= MAX_NEIGHBORS && FirstEight(OutIds(es, n + 1, 0)) <= AfterRuns(es, times)[n]
    ensures SameMembers(AfterRuns(es, times)[n], FirstEight(OutIds(es, n + 1, 0)))
    decreases times
  {
    var out, before := OutIds(es, n + 1, 0), AfterRuns(es, times - 1)[n];
    FilledIsAppend(AfterRuns(es, times - 1), es, 0, n);
    if times == 1 {
      AppendIsPrefix([], out);
      assert [] + FirstEight(out) == FirstEight(out);
    } else {
      AdjacencyAfterRuns(es, n, times - 1);
      AppendIsPrefix(before, out);
      var room := MAX_NEIGHBORS - |before|;
      var more := if |out| <= room then out else out[..room];
      assert AfterRuns(es, times)[n] == before + more;
      assert forall x :: x in more ==> x in before;
    }
  }

  /**
   * The first run and every number of resets list exactly the outgoing edges of a node
   * if and only if no more than AGV_MAX_NEIGHBORS edges leave it.
   */
  lemma AdjacencyAfterResets(es: seq<Edge>, n: nat, times: nat)
    requires FromOk(es) && DistinctIds(es) && n < MAX_NODES && times >= 1
    ensures SameMembers(AfterRuns(es, times)[n], OutIds(es, n + 1, 0)) <==> |OutIds(es, n + 1, 0)| <= MAX_NEIGHBORS
  {
    var out := OutIds(es, n + 1, 0);
    AdjacencyAfterRuns(es, n, times);
    if |out| > MAX_NEIGHBORS {
      OutIdsDistinct(es, n + 1, 0);
      assert out[MAX_NEIGHBORS] in out && out[MAX_NEIGHBORS] !in FirstEight(out);
    }
  }

  /** What fits into one adjacency list. */
  function FirstEight(ids: seq<nat>): seq<nat> { if |ids| <= MAX_NEIGHBORS then ids else ids[..MAX_NEIGHBORS] }

  ghost predicate DistinctIds(es: seq<Edge>) { forall i :: 0 <= i < |es| ==> es[i].id == i + 1 }

  /** A strictly rising list of ids above lo and up to hi. */
  ghost predicate Rising(ids: seq<nat>, lo: nat, hi: nat) {
    (forall k :: 0 <= k < |ids| ==> lo < ids[k] <= hi) && (forall k, l :: 0 <= k < l < |ids| ==> ids[k] < ids[l])
  }

  lemma {:induction false} OutIdsDistinct(es: seq<Edge>, n: nat, i: nat)
    requires DistinctIds(es) && i <= |es|
    ensures Rising(OutIds(es, n, i), i, |es|)
    decreases |es| - i
  {
    if i < |es| {
      OutIdsDistinct(es, n, i + 1);
      var rest := OutIds(es, n, i + 1);
      assert Rising([i + 1] + rest, i, |es|) && Rising(rest, i, |es|);
      assert OutIds(es, n, i) == if es[i].fromNode == n then [i + 1] + rest else rest;
    }
  }

  lemma OutIdsHead(es: seq<Edge>, n: nat, i: nat, x: nat)
    requires DistinctIds(es) && i < |es|
    ensures x in OutIds(es, n, i) <==> (es[i].fromNode == n && x == i + 1) || x in OutIds(es, n, i + 1)
  {
    var rest := OutIds(es, n, i + 1);
    assert OutIds(es, n, i) == if es[i].fromNode == n then [i + 1] + rest else [] + rest;
  }

  /** An id is listed exactly when its edge leaves the node. */
  lemma {:induction false} OutIdsMembers(es: seq<Edge>, n: nat, i: nat, x: nat)
    requires DistinctIds(es) && i <= |es|
    ensures x in OutIds(es, n, i) <==> i < x <= |es| && es[x - 1].fromNode == n
    decreases |es| - i
  {
    if i < |es| {
      OutIdsMembers(es, n, i + 1, x);
      OutIdsHead(es, n, i, x);
    }
  }
}
