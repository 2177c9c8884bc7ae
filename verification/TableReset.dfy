/**
 * One handler that sets both directions of a road, against a reset that rebuilds the pair table meanwhile. The writes of edges and the
 * whole reset hold the map's mutex; the handler's read of the pair table takes no lock, so it may see a table half rebuilt.
 */
module TableReset {
  import opened Layout
  import opened MapInit
  import opened RoadNetwork
  import opened Dispatch
  import opened RoadStatus
  import opened DispatchRuns

  /** Sets `edge` and what the table says is its other direction. The topology API reads the table before its writes, all others between. */
  datatype Handler = Handler(edge: nat, status: EdgeStatus, readsFirst: bool)

  /** What has become of a write: a reset that ends afterwards wipes it. */
  datatype Mark = Unwritten | Stands | Wiped

  /**
   * `count` is bipath_count_; the entries before it are rebuilt, and `seen` is the count that the handler has read. `base` is the map
   * without the handler: the one at its start, and after a reset the one that the reset has written.
   */
  datatype State = State(m: MapData, base: MapData, count: nat, resetting: bool, seen: Option<nat>, first: Mark, second: Mark)

  /** The pair table, and the tables that init_map writes. */
  datatype Setup = Setup(paths: seq<Bipath>, nodes: seq<Node>, roads: seq<Road>)

  function Wipe(k: Mark): Mark { if k == Stands then Wiped else k }

  function Begin(m: MapData, t: Setup): State { State(m, m, |t.paths|, false, None, Unwritten, Unwritten) }

  // ---------------------------------------------------------------- steps

  ghost predicate ResetBegins(s: State, s': State) { !s.resetting && s' == s.(resetting := true, count := 0) }

  ghost predicate PairRewritten(s: State, t: Setup, s': State) {
    s.resetting && s.count < |t.paths| && s' == s.(count := s.count + 1)
  }

  ghost predicate CanReset(m: MapData, t: Setup) {
    |m.adj| == MAX_NODES && FromOk(Edges(t.roads)) && 2 * |t.roads| <= |m.edges| && |t.nodes| <= |m.nodes|
  }

  function AfterReset(s: State, m: MapData): State {
    s.(m := m, base := m, resetting := false, first := Wipe(s.first), second := Wipe(s.second))
  }

  /** Nobody else sees the map before the reset lets go of the mutex, so it is rewritten here in one go. */
  ghost predicate ResetEnds(s: State, t: Setup, s': State) {
    s.resetting && s.count == |t.paths| && CanReset(s.m, t) && s' == AfterReset(s, ResetMap(s.m, t.nodes, t.roads))
  }

  ghost predicate FirstWrite(s: State, h: Handler, s': State) {
    && !s.resetting && s.first == Unwritten && (h.readsFirst ==> s.seen.Some?) && 1 <= h.edge <= |s.m.edges|
    && s' == s.(m := WithStatus(s.m, h.edge, h.status), first := Stands)
  }

  ghost predicate TableRead(s: State, h: Handler, s': State) {
    s.seen == None && (h.readsFirst || s.first != Unwritten) && s' == s.(seen := Some(s.count))
  }

  /** The other direction of the handler's edge in the part of the table that it has seen. */
  function Found(s: State, t: Setup, h: Handler): Option<nat> {
    if s.seen.Some? && s.seen.value <= |t.paths| then FindPartner(t.paths[..s.seen.value], h.edge) else None
  }

  ghost predicate SecondWrite(s: State, t: Setup, h: Handler, s': State) {
    && !s.resetting && s.first != Unwritten && s.second == Unwritten
    && Found(s, t, h).Some? && 1 <= Found(s, t, h).value <= |s.m.edges|
    && s' == s.(m := WithStatus(s.m, Found(s, t, h).value, h.status), second := Stands)
  }

  ghost predicate Moves(s: State, t: Setup, h: Handler, s': State) {
    || ResetBegins(s, s') || PairRewritten(s, t, s') || ResetEnds(s, t, s')
    || FirstWrite(s, h, s') || TableRead(s, h, s') || SecondWrite(s, t, h, s')
  }

  ghost predicate IsRace(r: seq<State>, t: Setup, h: Handler) {
    |r| > 0 && forall i :: 0 <= i < |r| - 1 ==> Moves(r[i], t, h, r[i + 1])
  }

  /** The handler is done and no reset is under way. */
  predicate AtRest(s: State, t: Setup, h: Handler) {
    !s.resetting && s.first != Unwritten && s.seen.Some? && (s.second != Unwritten || Found(s, t, h) == None)
  }

  // ---------------------------------------------------------------- the invariant

  /** The base with the writes that stand. */
  function Marked(base: MapData, half: nat, h: Handler, first: bool, second: bool): MapData
    requires 1 <= h.edge <= |base.edges| && 1 <= Partner(half, h.edge) <= |base.edges|
  {
    var m := if first then WithStatus(base, h.edge, h.status) else base;
    if second then WithStatus(m, Partner(half, h.edge), h.status) else m
  }

  /** The map without the handler is a network with equal directions that init_map has written. */
  ghost predicate BaseOk(base: MapData, t: Setup, h: Handler) {
    && Network(base, t.paths) && Paired(base, |t.paths|) && FromTable(base, t.nodes, t.roads)
    && ValidEid(base, h.edge) && (h.readsFirst ==> h.edge <= |t.paths|)
  }

  /** The status that the table gives to edge e. */
  function TableStatus(roads: seq<Road>, e: nat): EdgeStatus
    requires 1 <= e <= 2 * |roads|
  {
    roads[if e <= |roads| then e - 1 else e - 1 - |roads|].status
  }

  /** What the mutex and the order of each handler's steps give. */
  predicate Ordered(s: State, half: nat, h: Handler) {
    && s.count <= half && (!s.resetting ==> s.count == half) && (s.seen.Some? ==> s.seen.value <= half)
    && (s.second != Unwritten ==> s.first != Unwritten && s.seen.Some? && Rebuilt(half, s.seen.value, h.edge))
    && (s.second == Wiped ==> s.first == Wiped)
    && (!h.readsFirst && s.seen.Some? ==> s.first != Unwritten)
    && (!h.readsFirst && s.first == Stands && s.seen.Some? ==> s.seen.value == half || s.resetting)
  }

  ghost predicate RaceOk(s: State, t: Setup, h: Handler) {
    && BaseOk(s.base, t, h) && Ordered(s, |t.paths|, h)
    && 1 <= h.edge <= |s.base.edges| && 1 <= Partner(|t.paths|, h.edge) <= |s.base.edges|
    && s.m == Marked(s.base, |t.paths|, h, s.first == Stands, s.second == Stands)
    && (s.first == Wiped ==> h.edge <= 2 * |t.roads| && StatusOf(s.base, h.edge) == TableStatus(t.roads, h.edge))
  }

  lemma EdgeFacts(base: MapData, t: Setup, h: Handler)
    requires BaseOk(base, t, h)
    ensures var e, f := h.edge, Partner(|t.paths|, h.edge);
            && 1 <= e <= |base.edges| && 1 <= f <= |base.edges| && e != f && Reverses(base, e, f) && |t.paths| == |t.roads| && e <= 2 * |t.roads|
            && Partner(|t.paths|, f) == e
  {
    PartnerLookup(base, t.paths, h.edge);
  }

  lemma MarkedKeepsRoads(base: MapData, half: nat, h: Handler, first: bool, second: bool)
    requires 1 <= h.edge <= |base.edges| && 1 <= Partner(half, h.edge) <= |base.edges|
    ensures SameRoads(base, Marked(base, half, h, first, second))
  {
    SameRoadsReflexive(base);
    var m := if first then WithStatus(base, h.edge, h.status) else base;
    WithStatusKeeps(base, h.edge, h.status);
    WithStatusKeeps(m, Partner(half, h.edge), h.status);
    if second { SameRoadsTransitive(base, m, WithStatus(m, Partner(half, h.edge), h.status)); }
  }

  lemma BeginOk(m: MapData, t: Setup, h: Handler)
    requires BaseOk(m, t, h)
    ensures RaceOk(Begin(m, t), t, h)
  {
    EdgeFacts(m, t, h);
  }

  /** The lookup in what the handler has seen. */
  lemma FoundIs(s: State, t: Setup, h: Handler)
    requires BaseOk(s.base, t, h) && s.seen.Some? && s.seen.value <= |t.paths|
    ensures Found(s, t, h) == if Rebuilt(|t.paths|, s.seen.value, h.edge) then Some(Partner(|t.paths|, h.edge)) else None
  {
    hide Network, Paired, FromTable;
    PairTable(s.base, t.paths, h.edge);
    PrefixLookup(t.paths, s.seen.value, 0, h.edge);
    assert t.paths[..s.seen.value][0..] == t.paths[..s.seen.value];
  }

  /** A reset leaves the map of the table, whatever the handler has written. */
  lemma ResetEndsOk(s: State, t: Setup, h: Handler, s': State)
    requires RaceOk(s, t, h) && ResetEnds(s, t, s')
    ensures RaceOk(s', t, h)
  {
    hide Network, Paired, FromTable, SameRoads, Marked, ResetMap, CanReset, Edges, FromOk;
    EdgeFacts(s.base, t, h);
    MarkedKeepsRoads(s.base, |t.paths|, h, s.first == Stands, s.second == Stands);
    NetworkKept(s.base, s.m, t.paths);
    FromTableKept(s.base, s.m, t.nodes, t.roads);
    ResetBase(s.m, t, h, s'.base);
    EdgeKept(s.base, s.m, h.edge);
    EdgeFacts(s'.base, t, h);
    NothingMarked(s'.base, |t.paths|, h);
  }

  lemma NothingMarked(base: MapData, half: nat, h: Handler)
    requires 1 <= h.edge <= |base.edges| && 1 <= Partner(half, h.edge) <= |base.edges|
    ensures Marked(base, half, h, false, false) == base
  {
  }

  /** The reset wipes what the handler has written: it makes the same map of the handler's and of the one without the handler. */
  lemma ResetForgets(base: MapData, t: Setup, h: Handler, first: bool, second: bool)
    requires BaseOk(base, t, h) && CanReset(base, t)
    ensures 1 <= h.edge <= |base.edges| && 1 <= Partner(|t.paths|, h.edge) <= |base.edges|
    ensures var m := Marked(base, |t.paths|, h, first, second);
            CanReset(m, t) && ResetMap(m, t.nodes, t.roads) == ResetMap(base, t.nodes, t.roads)
  {
    hide Network, Paired, FromTable, Edges, FromOk, Filled;
    EdgeFacts(base, t, h);
    BaseEdges(base, t, h);
    var m := Marked(base, |t.paths|, h, first, second);
    assert m.edges[2 * |t.roads|..] == base.edges[2 * |t.roads|..];
  }

  lemma BaseEdges(base: MapData, t: Setup, h: Handler)
    requires BaseOk(base, t, h)
    ensures Partner(|t.paths|, h.edge) <= 2 * |t.roads|
  {
  }

  lemma ResetBase(m: MapData, t: Setup, h: Handler, r: MapData)
    requires Network(m, t.paths) && FromTable(m, t.nodes, t.roads) && CanReset(m, t) && r == ResetMap(m, t.nodes, t.roads)
    requires ValidEid(m, h.edge) && (h.readsFirst ==> h.edge <= |t.paths|) && h.edge <= 2 * |t.roads|
    ensures BaseOk(r, t, h) && StatusOf(r, h.edge) == TableStatus(t.roads, h.edge)
  {
    hide Network, Paired, FromTable, SameRoads, ResetMap, OnRoad;
    TableIsSound(m, t.paths, t.nodes, t.roads);
    ResetKeepsRoads(m, t.paths, t.nodes, t.roads);
    NetworkKept(m, r, t.paths);
    FromTableKept(m, r, t.nodes, t.roads);
    TablePaths(m, t.paths, t.nodes, t.roads);
    ResetPaired(m, r, t.nodes, t.roads);
    EdgeKept(m, r, h.edge);
    ResetStatus(m, r, t.nodes, t.roads, h.edge);
  }

  lemma WriteOk(s: State, t: Setup, h: Handler, s': State)
    requires RaceOk(s, t, h) && (FirstWrite(s, h, s') || SecondWrite(s, t, h, s'))
    ensures RaceOk(s', t, h)
  {
    hide BaseOk;
    if SecondWrite(s, t, h, s') {
      FoundIs(s, t, h);
    }
  }

  lemma MoveOk(s: State, t: Setup, h: Handler, s': State)
    requires RaceOk(s, t, h) && Moves(s, t, h, s')
    ensures RaceOk(s', t, h)
  {
    hide BaseOk, Marked, WithStatus, ResetMap, CanReset, Found;
    if ResetEnds(s, t, s') {
      ResetEndsOk(s, t, h, s');
    } else if FirstWrite(s, h, s') || SecondWrite(s, t, h, s') {
      WriteOk(s, t, h, s');
    }
  }

  lemma {:induction false} RaceKeeps(r: seq<State>, t: Setup, h: Handler, i: nat)
    requires IsRace(r, t, h) && RaceOk(r[0], t, h) && i < |r|
    ensures RaceOk(r[i], t, h)
    decreases i
  {
    hide RaceOk, Moves;
    if i > 0 {
      RaceKeeps(r, t, h, i - 1);
      assert Moves(r[i - 1], t, h, r[i - 1 + 1]);
      MoveOk(r[i - 1], t, h, r[i]);
    }
  }

  // ---------------------------------------------------------------- where the directions agree

  /** Both writes stand, or none does: the road is set as a whole or not at all. One alone is harmless only if it changes nothing. */
  lemma MarkedPairedIff(base: MapData, t: Setup, h: Handler, first: bool, second: bool)
    requires BaseOk(base, t, h)
    ensures 1 <= h.edge <= |base.edges| && 1 <= Partner(|t.paths|, h.edge) <= |base.edges|
    ensures Paired(Marked(base, |t.paths|, h, first, second), |t.paths|) <==> first == second || StatusOf(base, h.edge) == h.status
  {
    hide Network, Paired, RoadSet, FromTable, PairStatus, WithStatus;
    var e, f := h.edge, Partner(|t.paths|, h.edge);
    EdgeFacts(base, t, h);
    PairTable(base, t.paths, e);
    NetworkSane(base, t.paths);
    if first && second {
      BothArePair(base, t, h);
      PairStatusSetsRoad(base, t.paths, e, h.status);
      RoadSetKeepsPairs(base, PairStatus(base, t.paths, e, h.status), t.paths, From(base, e), To(base, e), h.status);
    } else if first {
      OneWayIff(base, t.paths, e, h.status);
    } else if second {
      OneWayIff(base, t.paths, f, h.status);
      assert StatusOf(base, f) == StatusOf(base, e) by { SameBoth(base, |t.paths|, e); }
    }
  }

  /** If both writes stand, the handler has done what its function in one step says. */
  lemma BothArePair(base: MapData, t: Setup, h: Handler)
    requires BaseOk(base, t, h)
    ensures Sane(base, t.paths) && 1 <= h.edge <= MAX_EDGES == |base.edges| && 1 <= Partner(|t.paths|, h.edge) <= MAX_EDGES
    ensures Marked(base, |t.paths|, h, true, true) == PairStatus(base, t.paths, h.edge, h.status)
  {
    hide Paired, FromTable, MapShape, WithStatus;
    NetworkSane(base, t.paths);
    PairTable(base, t.paths, h.edge);
    EdgeFacts(base, t, h);
    PartnerLookup(base, t.paths, h.edge);
  }

  /** A reset has ended between the two writes, and none after them. */
  predicate Split(s: State) { s.first == Wiped && s.second == Stands }

  /** The API has written, since the last reset, one direction only: the pair was not back in the table when it read it. */
  predicate Missed(s: State) { s.first == Stands && s.second != Stands }

  /**
   * A handler that reads the pair table between its writes, against any number of resets at any time: when all is done the directions
   * of every road agree if and only if no reset ended between its two writes, a later one has ended, or the table's own status for the
   * road is the one it sets. Without such a reset it has set the whole road.
   */
  lemma WriteReadWriteIff(r: seq<State>, t: Setup, h: Handler, i: nat)
    requires IsRace(r, t, h) && !h.readsFirst && BaseOk(r[0].m, t, h) && r[0] == Begin(r[0].m, t) && i < |r| && AtRest(r[i], t, h)
    ensures h.edge <= 2 * |t.roads|
    ensures Paired(r[i].m, |t.paths|) <==> !Split(r[i]) || TableStatus(t.roads, h.edge) == h.status
    ensures r[i].first == Stands ==> Sane(r[i].base, t.paths) && r[i].m == PairStatus(r[i].base, t.paths, h.edge, h.status)
  {
    hide BaseOk, Paired, Marked, Found, Moves, Sane, PairStatus;
    BeginOk(r[0].m, t, h);
    RaceKeeps(r, t, h, i);
    EdgeFacts(r[i].base, t, h);
    FoundIs(r[i], t, h);
    BothArePair(r[i].base, t, h);
    MarkedPairedIff(r[i].base, t, h, r[i].first == Stands, r[i].second == Stands);
  }

  /**
   * /api/ban and /api/access on a forward id read the table before both writes. Besides the case above there is another one: a table
   * read while the pair was not yet back in it, and no reset since the write that follows.
   */
  lemma ReadWriteWriteIff(r: seq<State>, t: Setup, h: Handler, i: nat)
    requires IsRace(r, t, h) && h.readsFirst && BaseOk(r[0].m, t, h) && r[0] == Begin(r[0].m, t) && i < |r| && AtRest(r[i], t, h)
    ensures h.edge <= 2 * |t.roads| && ValidEid(r[i].base, h.edge)
    ensures Paired(r[i].m, |t.paths|) <==>
              (Split(r[i]) ==> TableStatus(t.roads, h.edge) == h.status) && (Missed(r[i]) ==> StatusOf(r[i].base, h.edge) == h.status)
    ensures Missed(r[i]) <==> r[i].first == Stands && r[i].seen.value < h.edge
  {
    hide BaseOk, Paired, Marked, Found, Moves;
    BeginOk(r[0].m, t, h);
    RaceKeeps(r, t, h, i);
    EdgeFacts(r[i].base, t, h);
    ForwardId(r[i].base, t, h);
    FoundIs(r[i], t, h);
    MarkedPairedIff(r[i].base, t, h, r[i].first == Stands, r[i].second == Stands);
  }

  lemma ForwardId(base: MapData, t: Setup, h: Handler)
    requires BaseOk(base, t, h) && h.readsFirst
    ensures h.edge <= |t.paths|
  {
  }

  // ---------------------------------------------------------------- such a race

  lemma RaceAgain(r: seq<State>, t: Setup, h: Handler, s: State) returns (r': seq<State>)
    requires IsRace(r, t, h) && Moves(r[|r| - 1], t, h, s)
    ensures IsRace(r', t, h) && r'[0] == r[0] && r'[|r'| - 1] == s
  {
    hide Moves;
    r' := r + [s];
    forall i | 0 <= i < |r'| - 1 ensures Moves(r'[i], t, h, r'[i + 1]) {
      if i < |r| - 1 { assert Moves(r[i], t, h, r[i + 1]); }
    }
  }

  /** The reset rewrites the pairs from number n on. */
  lemma {:induction false} RewriteAll(r: seq<State>, t: Setup, h: Handler) returns (r': seq<State>)
    requires IsRace(r, t, h) && r[|r| - 1].resetting && r[|r| - 1].count <= |t.paths|
    ensures IsRace(r', t, h) && r'[0] == r[0] && r'[|r'| - 1] == r[|r| - 1].(count := |t.paths|)
    decreases |t.paths| - r[|r| - 1].count
  {
    var s := r[|r| - 1];
    if s.count == |t.paths| {
      r' := r;
    } else {
      assert PairRewritten(s, t, s.(count := s.count + 1));
      r' := RaceAgain(r, t, h, s.(count := s.count + 1));
      r' := RewriteAll(r', t, h);
    }
  }

  lemma TablesAllowReset(m: MapData, t: Setup)
    requires Network(m, t.paths) && FromTable(m, t.nodes, t.roads)
    ensures CanReset(m, t)
  {
    TableIsSound(m, t.paths, t.nodes, t.roads);
  }

  lemma ResetIsPossible(s: State, t: Setup, h: Handler)
    requires RaceOk(s, t, h)
    ensures CanReset(s.m, t)
  {
    hide Network, Paired, FromTable, SameRoads, Marked, CanReset;
    EdgeFacts(s.base, t, h);
    MarkedKeepsRoads(s.base, |t.paths|, h, s.first == Stands, s.second == Stands);
    NetworkKept(s.base, s.m, t.paths);
    FromTableKept(s.base, s.m, t.nodes, t.roads);
    TablesAllowReset(s.m, t);
  }

  /** Begun with the first write, and the whole table read. */
  lemma HalfDone(m: MapData, t: Setup, h: Handler) returns (r: seq<State>)
    requires BaseOk(m, t, h) && !h.readsFirst
    ensures IsRace(r, t, h) && r[0] == Begin(m, t) && RaceOk(r[|r| - 1], t, h)
    ensures var s := r[|r| - 1]; !s.resetting && s.first == Stands && s.seen == Some(|t.paths|) && s.second == Unwritten
  {
    hide BaseOk, Marked, WithStatus;
    BeginOk(m, t, h);
    EdgeFacts(m, t, h);
    var s := Begin(m, t);
    var s1 := s.(m := WithStatus(m, h.edge, h.status), first := Stands);
    assert FirstWrite(s, h, s1);
    r := RaceAgain([s], t, h, s1);
    var s2 := s1.(seen := Some(|t.paths|));
    assert TableRead(s1, h, s2);
    r := RaceAgain(r, t, h, s2);
    RaceKeeps(r, t, h, |r| - 1);
  }

  /** A reset that has begun runs to its end. */
  lemma ResetFinishes(r: seq<State>, t: Setup, h: Handler) returns (r': seq<State>)
    requires IsRace(r, t, h) && RaceOk(r[0], t, h) && r[|r| - 1].resetting && r[|r| - 1].count <= |t.paths|
    ensures IsRace(r', t, h) && r'[0] == r[0]
    ensures var s, s' := r[|r| - 1], r'[|r'| - 1];
            !s'.resetting && s'.first == Wipe(s.first) && s'.second == Wipe(s.second) && s'.seen == s.seen
    ensures var s' := r'[|r'| - 1];
            1 <= h.edge <= |s'.base.edges| && h.edge <= 2 * |t.roads| && StatusOf(s'.base, h.edge) == TableStatus(t.roads, h.edge)
  {
    hide RaceOk, Edges, FromOk, ResetMap;
    var s := r[|r| - 1].(count := |t.paths|);
    r' := RewriteAll(r, t, h);
    RaceKeeps(r', t, h, |r'| - 1);
    ResetIsPossible(s, t, h);
    var s' := AfterReset(s, ResetMap(s.m, t.nodes, t.roads));
    assert ResetEnds(s, t, s');
    TableAfterReset(s, t, h, s');
    r' := RaceAgain(r', t, h, s');
  }

  lemma TableAfterReset(s: State, t: Setup, h: Handler, s': State)
    requires RaceOk(s, t, h) && ResetEnds(s, t, s')
    ensures 1 <= h.edge <= |s'.base.edges| && h.edge <= 2 * |t.roads| && StatusOf(s'.base, h.edge) == TableStatus(t.roads, h.edge)
  {
    hide Network, Paired, FromTable, SameRoads, Marked, ResetMap, CanReset;
    EdgeFacts(s.base, t, h);
    MarkedKeepsRoads(s.base, |t.paths|, h, s.first == Stands, s.second == Stands);
    NetworkKept(s.base, s.m, t.paths);
    FromTableKept(s.base, s.m, t.nodes, t.roads);
    EdgeKept(s.base, s.m, h.edge);
    ResetBase(s.m, t, h, s'.base);
  }

  /** Such a race exists for every edge and every status but the table's: a reset between the two writes leaves the directions unequal. */
  lemma ResetSplitsRoad(m: MapData, t: Setup, h: Handler) returns (r: seq<State>)
    requires BaseOk(m, t, h) && !h.readsFirst && h.edge <= 2 * |t.roads| && TableStatus(t.roads, h.edge) != h.status
    ensures IsRace(r, t, h) && r[0] == Begin(m, t) && AtRest(r[|r| - 1], t, h) && !Paired(r[|r| - 1].m, |t.paths|)
  {
    hide BaseOk, RaceOk, WithStatus, Paired, Moves;
    BeginOk(m, t, h);
    r := HalfDone(m, t, h);
    var begun := r[|r| - 1].(resetting := true, count := 0);
    assert Moves(r[|r| - 1], t, h, begun) by { MovesByReset(r[|r| - 1], t, h, begun); }
    r := RaceAgain(r, t, h, begun);
    r := ResetFinishes(r, t, h);
    var s := r[|r| - 1];
    RaceKeeps(r, t, h, |r| - 1);
    var f := SecondIsPossible(s, t, h);
    var s' := s.(m := WithStatus(s.m, f, h.status), second := Stands);
    assert Moves(s, t, h, s') by { assert SecondWrite(s, t, h, s'); MovesBySecond(s, t, h, s'); }
    r := RaceAgain(r, t, h, s');
    WriteReadWriteIff(r, t, h, |r| - 1);
  }

  lemma MovesByReset(s: State, t: Setup, h: Handler, s': State)
    requires ResetBegins(s, s')
    ensures Moves(s, t, h, s')
  {
  }

  lemma MovesBySecond(s: State, t: Setup, h: Handler, s': State)
    requires SecondWrite(s, t, h, s')
    ensures Moves(s, t, h, s')
  {
  }

  lemma SecondIsPossible(s: State, t: Setup, h: Handler) returns (f: nat)
    requires RaceOk(s, t, h) && s.seen == Some(|t.paths|)
    ensures Found(s, t, h) == Some(f) && 1 <= f <= |s.m.edges|
  {
    hide BaseOk, Marked;
    EdgeFacts(s.base, t, h);
    FoundIs(s, t, h);
    MarkedKeepsRoads(s.base, |t.paths|, h, s.first == Stands, s.second == Stands);
    f := Partner(|t.paths|, h.edge);
  }

  /** The API's own race, likewise for every forward id: the table is read at the start of a reset, the write comes after it. */
  lemma ResetMissesRoad(m: MapData, t: Setup, h: Handler) returns (r: seq<State>)
    requires BaseOk(m, t, h) && h.readsFirst && h.edge <= 2 * |t.roads| && TableStatus(t.roads, h.edge) != h.status
    ensures IsRace(r, t, h) && r[0] == Begin(m, t) && AtRest(r[|r| - 1], t, h) && !Paired(r[|r| - 1].m, |t.paths|)
  {
    hide BaseOk, RaceOk, WithStatus, Paired, ResetMap, CanReset;
    BeginOk(m, t, h);
    var s := Begin(m, t);
    var s1 := s.(resetting := true, count := 0);
    assert ResetBegins(s, s1);
    r := RaceAgain([s], t, h, s1);
    var s2 := s1.(seen := Some(0));
    assert TableRead(s1, h, s2);
    r := RaceAgain(r, t, h, s2);
    r := ResetFinishes(r, t, h);
    var s3 := r[|r| - 1];
    RaceKeeps(r, t, h, |r| - 1);
    EdgeInMap(s3, t, h);
    var s4 := s3.(m := WithStatus(s3.m, h.edge, h.status), first := Stands);
    assert FirstWrite(s3, h, s4);
    r := RaceAgain(r, t, h, s4);
    assert t.paths[..0] == [];
    ReadWriteWriteIff(r, t, h, |r| - 1);
  }

  lemma EdgeInMap(s: State, t: Setup, h: Handler)
    requires RaceOk(s, t, h)
    ensures 1 <= h.edge <= |s.m.edges|
  {
    hide BaseOk;
  }
}
