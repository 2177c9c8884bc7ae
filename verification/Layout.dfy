/** The records that the master processes keep in shared memory (shm_layout.h). */
module Layout {
  const MAX_NODES: nat := 32
  const MAX_EDGES: nat := 128
  const MAX_PATHLEN: nat := 100
  const MAX_NEIGHBORS: nat := 8

  type U16 = x: nat | x < 0x1_0000

  datatype Option<+T> = None | Some(value: T)

  datatype CarStatus = CarIdle | Moving | CarFault | Offline | Wait
  datatype NodeStatus = NodeIdle | NodeOccupied | NodeFault
  datatype EdgeStatus = EdgeIdle | Occupied | Blocked | FaultTemp | FaultRepair

  datatype Node = Node(id: nat, x: U16, y: U16, status: NodeStatus)
  datatype Edge = Edge(id: nat, fromNode: nat, toNode: nat, weight: U16, status: EdgeStatus)

  /** adj[i] lists the edge ids that leave node i + 1; its length is the `count` field. */
  datatype MapData = MapData(nodes: seq<Node>, edges: seq<Edge>, adj: seq<seq<nat>>,
                             nodeCount: nat, edgeCount: nat)

  /** What indexing the fixed-size arrays needs: every listed edge id and every end of a listed edge is 1-based. */
  ghost predicate MapShape(m: MapData) {
    && |m.nodes| == MAX_NODES && |m.edges| == MAX_EDGES && |m.adj| == MAX_NODES
    && m.nodeCount <= MAX_NODES && m.edgeCount <= MAX_EDGES
    && (forall i, j :: 0 <= i < MAX_NODES && 0 <= j < |m.adj[i]| ==>
          var e := m.adj[i][j];
          1 <= e <= MAX_EDGES && 1 <= m.edges[e - 1].fromNode <= MAX_NODES && 1 <= m.edges[e - 1].toNode <= MAX_NODES)
  }
}
