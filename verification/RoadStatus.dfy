/** What every handler does to edge statuses, for whole runs of the dispatch protocol with atomic handlers. */
module RoadStatus {
  import opened Layout
  import opened MapInit
  import opened RoadNetwork
  import opened Geometry
  import opened AStar
  import opened Dispatch
  import opened CarRecords

  /** Edge e is one of the two directions of the road between a and b. */
  predicate OnRoad(m: MapData, e: nat, a: nat, b: nat)
    requires ValidEid(m, e)
  {
    (From(m, e) == a && To(m, e) == b) || (From(m, e) == b && To(m, e) == a)
  }

  /** m' is m with the road between a and b set to st, both ways, and nothing else changed. */
  ghost predicate RoadSet(m: MapData, m': MapData, a: nat, b: nat, st: EdgeStatus) {
    SameRoads(m, m') && forall e: nat :: ValidEid(m, e) ==> StatusOf(m', e) == if OnRoad(m, e, a, b) then st else StatusOf(m, e)
  }

  predicate SameBothWays(m: MapData, half: nat, e: nat) {
    ValidEid(m, e) && ValidEid(m, Partner(half, e)) ==> StatusOf(m, e) == StatusOf(m, Partner(half, e))
  }

  /** The two directions of every road have the same status. */
  ghost predicate Paired(m: MapData, half: nat) { forall e: nat :: SameBothWays(m, half, e) }

  lemma SameBoth(m: MapData, half: nat, e: nat)
    requires Paired(m, half) && ValidEid(m, e) && ValidEid(m, Partner(half, e))
    ensures StatusOf(m, e) == StatusOf(m, Partner(half, e))
  {
    assert SameBothWays(m, half, e);
  }

  // ---------------------------------------------------------------- effects on roads

  lemma RoadIsPair(m: MapData, paths: seq<Bipath>, e: nat, f: nat)
    requires Network(m, paths) && ValidEid(m, e) && ValidEid(m, f)
    ensures OnRoad(m, f, From(m, e), To(m, e)) <==> f == e || f == Partner(|paths|, e)
  {
    var p := Partner(|paths|, e);
    assert Reverses(m, e, p);
    if From(m, f) == From(m, e) && To(m, f) == To(m, e) { assert SameEnds(m, f, e); }
    if From(m, f) == To(m, e) && To(m, f) == From(m, e) { assert SameEnds(m, f, p); }
  }

  lemma TwoEdgesSet(m: MapData, e: nat, p: nat, st: EdgeStatus)
    requires 1 <= e <= |m.edges| && 1 <= p <= |m.edges|
    ensures var m' := WithStatus(WithStatus(m, e, st), p, st);
            && SameRoads(m, m') && (MapShape(m) ==> MapShape(m'))
            && forall f: nat :: ValidEid(m, f) ==> StatusOf(m', f) == if f == e || f == p then st else StatusOf(m, f)
  {
    var m1 := WithStatus(m, e, st);
    WithStatusKeeps(m, e, st);
    WithStatusKeeps(m1, p, st);
    SameRoadsTransitive(m, m1, WithStatus(m1, p, st));
  }

  lemma PairIsRoad(m: MapData, m': MapData, paths: seq<Bipath>, e: nat, st: EdgeStatus)
    requires Network(m, paths) && ValidEid(m, e) && SameRoads(m, m')
    requires forall f: nat :: ValidEid(m, f) ==>
               StatusOf(m', f) == if f == e || f == Partner(|paths|, e) then st else StatusOf(m, f)
    ensures RoadSet(m, m', From(m, e), To(m, e), st)
  {
    forall f: nat | ValidEid(m, f) ensures StatusOf(m', f) == if OnRoad(m, f, From(m, e), To(m, e)) then st else StatusOf(m, f) {
      RoadIsPair(m, paths, e, f);
    }
  }

  /** Setting an edge and its looked-up partner sets exactly one road. */
  lemma PairStatusSetsRoad(m: MapData, paths: seq<Bipath>, e: nat, st: EdgeStatus)
    requires Network(m, paths) && Sane(m, paths) && ValidEid(m, e)
    ensures RoadSet(m, PairStatus(m, paths, e, st), From(m, e), To(m, e), st)
  {
    var p := Partner(|paths|, e);
    PartnerLookup(m, paths, e);
    TwoEdgesSet(m, e, p, st);
    PairIsRoad(m, WithStatus(WithStatus(m, e, st), p, st), paths, e, st);
  }

  lemma NetworkSane(m: MapData, paths: seq<Bipath>)
    requires Network(m, paths)
    ensures Sane(m, paths)
  {
  }

  lemma RoadListed(m: MapData, paths: seq<Bipath>, a: nat, b: nat) returns (e: nat)
    requires Network(m, paths) && HasRoad(m, a, b)
    ensures ValidEid(m, e) && From(m, e) == a && To(m, e) == b && 1 <= a < MAX_NODES && e in m.adj[a - 1]
  {
    e :| ValidEid(m, e) && From(m, e) == a && To(m, e) == b;
    assert Listed(m, a, e);
    assert SoundEdge(m, e);
  }

  lemma ListedEdge(m: MapData, paths: seq<Bipath>, a: nat, e: nat)
    requires Network(m, paths) && 1 <= a <= MAX_NODES && e in m.adj[a - 1]
    ensures ValidEid(m, e) && From(m, e) == a
  {
    assert Listed(m, a, e);
  }

  lemma ListedIsFound(m: MapData, ids: seq<nat>, b: nat, e: nat)
    requires ListOk(m, ids) && e in ids && m.edges[e - 1].toNode == b
    ensures RoadTo(m, ids, b).Some? && (StatusOf(m, e) == Occupied ==> OccupiedTo(m, ids, b).Some?)
  {
  }

  /** The first listed edge to the far end is the road itself. */
  lemma RoadToFinds(m: MapData, paths: seq<Bipath>, a: nat, b: nat) returns (r: nat)
    requires Network(m, paths) && HasRoad(m, a, b) && 1 <= a <= MAX_NODES && ListOk(m, m.adj[a - 1])
    ensures RoadTo(m, m.adj[a - 1], b) == Some(r) && ValidEid(m, r) && From(m, r) == a && To(m, r) == b
  {
    var e := RoadListed(m, paths, a, b);
    ListedIsFound(m, m.adj[a - 1], b, e);
    r := RoadTo(m, m.adj[a - 1], b).value;
    ListedEdge(m, paths, a, r);
  }

  lemma AlterIsPair(w: World, carId: nat, st: EdgeStatus, e: nat)
    requires Sane(w.m, w.paths) && ValidCarId(w, carId) && 1 <= CarOf(w, carId).last <= MAX_NODES && 1 <= e <= MAX_EDGES
    requires RoadTo(w.m, w.m.adj[CarOf(w, carId).last - 1], CarOf(w, carId).current) == Some(e)
    ensures AlterEdges(w, carId, st) == PairStatus(w.m, w.paths, e, st)
  {
  }

  lemma FoundSetsRoad(m: MapData, paths: seq<Bipath>, a: nat, b: nat, st: EdgeStatus) returns (e: nat)
    requires Network(m, paths) && Sane(m, paths) && 1 <= a <= MAX_NODES && HasRoad(m, a, b) && ListOk(m, m.adj[a - 1])
    ensures 1 <= e <= MAX_EDGES && RoadTo(m, m.adj[a - 1], b) == Some(e) && RoadSet(m, PairStatus(m, paths, e, st), a, b, st)
  {
    e := RoadToFinds(m, paths, a, b);
    PairStatusSetsRoad(m, paths, e, st);
  }

  /** alter_edges_status sets exactly the road that the car is on. */
  lemma AlterSetsRoad(w: World, carId: nat, st: EdgeStatus)
    requires Network(w.m, w.paths) && Sane(w.m, w.paths) && ValidCarId(w, carId) && 1 <= CarOf(w, carId).last <= MAX_NODES
    requires HasRoad(w.m, CarOf(w, carId).last, CarOf(w, carId).current)
    ensures RoadSet(w.m, AlterEdges(w, carId, st), CarOf(w, carId).last, CarOf(w, carId).current, st)
  {
    hide Network, HasRoad, RoadSet, PairStatus, AlterEdges, RoadTo;
    ShapeListOk(w.m, CarOf(w, carId).last);
    var e := FoundSetsRoad(w.m, w.paths, CarOf(w, carId).last, CarOf(w, carId).current, st);
    AlterIsPair(w, carId, st, e);
  }

  predicate RoadOccupied(m: MapData, e: nat, a: nat, b: nat) {
    ValidEid(m, e) && StatusOf(m, e) == Occupied && OnRoad(m, e, a, b)
  }

  /** The road a-b of m is not OCCUPIED in m', and no other road has become so. */
  ghost predicate Freed(m: MapData, m': MapData, a: nat, b: nat) {
    SameRoads(m, m') && forall e: nat :: ValidEid(m, e) && StatusOf(m', e) == Occupied ==> StatusOf(m, e) == Occupied && !OnRoad(m, e, a, b)
  }

  /** A paired road is OCCUPIED one way exactly when it is OCCUPIED the other way. */
  lemma OccupiedForwards(m: MapData, paths: seq<Bipath>, e: nat, a: nat, b: nat)
    requires Network(m, paths) && Paired(m, |paths|) && RoadOccupied(m, e, a, b)
    ensures exists f: nat :: ValidEid(m, f) && From(m, f) == a && To(m, f) == b && StatusOf(m, f) == Occupied
  {
    var p := Partner(|paths|, e);
    assert Reverses(m, e, p) && SameBothWays(m, |paths|, e);
    var f := if From(m, e) == a then e else p;
    assert ValidEid(m, f) && From(m, f) == a && To(m, f) == b && StatusOf(m, f) == Occupied;
  }

  lemma OccupiedIsFound(m: MapData, paths: seq<Bipath>, a: nat, b: nat, e: nat)
    requires Network(m, paths) && Paired(m, |paths|) && 1 <= a <= MAX_NODES && ListOk(m, m.adj[a - 1])
    requires RoadOccupied(m, e, a, b)
    ensures OccupiedTo(m, m.adj[a - 1], b).Some?
  {
    OccupiedForwards(m, paths, e, a, b);
    var f: nat :| ValidEid(m, f) && From(m, f) == a && To(m, f) == b && StatusOf(m, f) == Occupied;
    assert Listed(m, a, f);
    ListedIsFound(m, m.adj[a - 1], b, f);
  }

  lemma NothingToFree(m: MapData, paths: seq<Bipath>, a: nat, b: nat)
    requires Network(m, paths) && Paired(m, |paths|) && 1 <= a <= MAX_NODES && ListOk(m, m.adj[a - 1])
    requires OccupiedTo(m, m.adj[a - 1], b) == None
    ensures Freed(m, m, a, b)
  {
    SameRoadsReflexive(m);
    forall e: nat | ValidEid(m, e) && StatusOf(m, e) == Occupied ensures !OnRoad(m, e, a, b) {
      if OnRoad(m, e, a, b) { OccupiedIsFound(m, paths, a, b, e); }
    }
  }

  lemma RoadSetFrees(m: MapData, m': MapData, a: nat, b: nat, st: EdgeStatus)
    requires RoadSet(m, m', a, b, st) && st != Occupied
    ensures Freed(m, m', a, b)
  {
  }

  /** Release frees the road, in either direction; if the road was not OCCUPIED nothing changes. */
  lemma ReleaseFrees(m: MapData, paths: seq<Bipath>, a: nat, b: nat)
    requires Network(m, paths) && Sane(m, paths) && Paired(m, |paths|) && 1 <= a < MAX_NODES && 1 <= b
    ensures var m' := Release(m, paths, a, b);
            Freed(m, m', a, b) && (m' == m || RoadSet(m, m', a, b, EdgeIdle))
  {
    var r := OccupiedTo(m, m.adj[a - 1], b);
    if r.Some? {
      ListedEdge(m, paths, a, r.value);
      PairStatusSetsRoad(m, paths, r.value, EdgeIdle);
      assert Release(m, paths, a, b) == PairStatus(m, paths, r.value, EdgeIdle);
      RoadSetFrees(m, Release(m, paths, a, b), a, b, EdgeIdle);
    } else {
      NothingToFree(m, paths, a, b);
      assert Release(m, paths, a, b) == m;
    }
  }

  /** The pairs stay equal when a whole road changes. */
  lemma RoadSetKeepsPairs(m: MapData, m': MapData, paths: seq<Bipath>, a: nat, b: nat, st: EdgeStatus)
    requires Network(m, paths) && Paired(m, |paths|) && RoadSet(m, m', a, b, st)
    ensures Paired(m', |paths|)
  {
    forall e: nat | ValidEid(m', e) && ValidEid(m', Partner(|paths|, e))
      ensures StatusOf(m', e) == StatusOf(m', Partner(|paths|, e))
    {
      var p := Partner(|paths|, e);
      assert ValidEid(m, e) && ValidEid(m, p);
      assert Reverses(m, e, p) && SameBothWays(m, |paths|, e);
    }
  }

  // ---------------------------------------------------------------- topology API

  /** Every edge carries its position as its id. */
  ghost predicate IdsArePositions(m: MapData) { forall e: nat :: ValidEid(m, e) ==> m.edges[e - 1].id == e }

  lemma NetworkIds(m: MapData, paths: seq<Bipath>)
    requires Network(m, paths)
    ensures IdsArePositions(m)
  {
    forall e: nat | ValidEid(m, e) ensures m.edges[e - 1].id == e { assert SoundEdge(m, e); }
  }

  lemma {:induction false} IndexOfId(m: MapData, eid: nat, i: nat)
    requires |m.edges| == MAX_EDGES && i <= m.edgeCount <= MAX_EDGES && IdsArePositions(m)
    ensures IndexOf(m, eid, i) == if i < eid <= m.edgeCount then Some(eid - 1) else None
    decreases m.edgeCount - i
  {
    if i < m.edgeCount {
      assert ValidEid(m, i + 1);
      IndexOfId(m, eid, i + 1);
    }
  }

  lemma SetByIdSets(m: MapData, eid: nat, st: EdgeStatus)
    requires MapShape(m) && IdsArePositions(m)
    ensures SetById(m, eid, st) == if ValidEid(m, eid) then WithStatus(m, eid, st) else m
    ensures SameRoads(m, SetById(m, eid, st)) && MapShape(SetById(m, eid, st)) && IdsArePositions(SetById(m, eid, st))
  {
    IndexOfId(m, eid, 0);
    SetByIdKeeps(m, eid, st);
    var m' := SetById(m, eid, st);
    forall e: nat | ValidEid(m', e) ensures m'.edges[e - 1].id == e { assert ValidEid(m, e); }
  }

  /** The edges that a /api/ban or /api/access list reaches: the listed ones and the reverses of the listed forward ones. */
  predicate HitByApi(half: nat, eids: seq<nat>, e: nat) { e in eids || (e > half && e - half in eids) }

  /** The maps that the API loops work on. */
  ghost predicate Tables(m: MapData, paths: seq<Bipath>) {
    && MapShape(m) && IdsArePositions(m) && m.edgeCount == 2 * |paths|
    && forall k :: 0 <= k < |paths| ==> paths[k] == Bipath(k + 1, k + 1 + |paths|)
  }

  /** Every listed edge and what it reaches has status st in m', all others are as in m. */
  ghost predicate ApiEffect(m: MapData, m': MapData, half: nat, eids: seq<nat>, st: EdgeStatus) {
    && SameRoads(m, m') && m.edgeCount == 2 * half <= |m.edges| == MAX_EDGES
    && forall e: nat :: ValidEid(m, e) ==> StatusOf(m', e) == if HitByApi(half, eids, e) then st else StatusOf(m, e)
  }

  /** One id: a forward one is followed by its reverse, any other stands alone. */
  lemma ApiIs(w: World, eid: nat, st: EdgeStatus)
    requires Tables(w.m, w.paths)
    ensures var m1 := SetById(w.m, eid, st);
            MapShape(m1) &&
            SetByApi(w, eid, st) == w.(m := if 1 <= eid <= |w.paths| then SetById(m1, eid + |w.paths|, st) else m1)
  {
    SetByIdKeeps(w.m, eid, st);
    if 1 <= eid <= |w.paths| { assert w.paths[eid - 1] == Bipath(eid, eid + |w.paths|); }
  }

  lemma SetsForward(m: MapData, half: nat, eid: nat, st: EdgeStatus)
    requires MapShape(m) && IdsArePositions(m) && m.edgeCount == 2 * half && 1 <= eid <= half
    ensures var m1 := SetById(m, eid, st);
            MapShape(m1) && var m2 := SetById(m1, eid + half, st);
            MapShape(m2) && IdsArePositions(m2) && ApiEffect(m, m2, half, [eid], st)
  {
    var m1 := SetById(m, eid, st);
    SetByIdSets(m, eid, st);
    SetByIdSets(m1, eid + half, st);
    SameRoadsTransitive(m, m1, SetById(m1, eid + half, st));
  }

  lemma SetsOther(m: MapData, half: nat, eid: nat, st: EdgeStatus)
    requires MapShape(m) && IdsArePositions(m) && m.edgeCount == 2 * half && !(1 <= eid <= half)
    ensures var m1 := SetById(m, eid, st); MapShape(m1) && IdsArePositions(m1) && ApiEffect(m, m1, half, [eid], st)
  {
    SetByIdSets(m, eid, st);
  }

  lemma ApiSetsOne(w: World, eid: nat, st: EdgeStatus)
    requires Tables(w.m, w.paths)
    ensures var w' := SetByApi(w, eid, st);
            Tables(w'.m, w.paths) && w' == w.(m := w'.m) && ApiEffect(w.m, w'.m, |w.paths|, [eid], st)
  {
    ApiIs(w, eid, st);
    if 1 <= eid <= |w.paths| { SetsForward(w.m, |w.paths|, eid, st); } else { SetsOther(w.m, |w.paths|, eid, st); }
  }

  lemma EffectsCompose(m: MapData, m1: MapData, m2: MapData, half: nat, eid: nat, rest: seq<nat>, st: EdgeStatus)
    requires ApiEffect(m, m1, half, [eid], st) && ApiEffect(m1, m2, half, rest, st)
    ensures ApiEffect(m, m2, half, [eid] + rest, st)
  {
    SameRoadsTransitive(m, m1, m2);
  }

  /** What a whole /api/ban or /api/access list does. */
  lemma {:induction false} ApiSetsAll(w: World, eids: seq<nat>, st: EdgeStatus)
    requires Tables(w.m, w.paths)
    ensures var w' := SetAllByApi(w, eids, st); w' == w.(m := w'.m) && ApiEffect(w.m, w'.m, |w.paths|, eids, st)
    decreases |eids|
  {
    if eids == [] {
      SameRoadsReflexive(w.m);
    } else {
      var w1 := SetByApi(w, eids[0], st);
      ApiSetsOne(w, eids[0], st);
      ApiSetsAll(w1, eids[1..], st);
      EffectsCompose(w.m, w1.m, SetAllByApi(w1, eids[1..], st).m, |w.paths|, eids[0], eids[1..], st);
      assert eids == [eids[0]] + eids[1..];
    }
  }

  /** The listed edges, and only those, are under repair in m'. */
  ghost predicate RepairEffect(m: MapData, m': MapData, half: nat, eids: seq<nat>) {
    && SameRoads(m, m') && m.edgeCount == 2 * half <= |m.edges| == MAX_EDGES
    && forall e: nat :: ValidEid(m, e) ==> StatusOf(m', e) == if e in eids then FaultRepair else StatusOf(m, e)
  }

  /** What a whole /api/repair list does: the listed edges only, one way. */
  lemma {:induction false} RepairSetsAll(w: World, eids: seq<nat>)
    requires Tables(w.m, w.paths)
    ensures var w' := SetAllForRepair(w, eids); w' == w.(m := w'.m) && RepairEffect(w.m, w'.m, |w.paths|, eids)
    decreases |eids|
  {
    if eids == [] {
      SameRoadsReflexive(w.m);
    } else {
      var w1 := SetForRepair(w, eids[0]);
      SetByIdSets(w.m, eids[0], FaultRepair);
      RepairSetsAll(w1, eids[1..]);
      SameRoadsTransitive(w.m, w1.m, SetAllForRepair(w1, eids[1..]).m);
      assert eids == [eids[0]] + eids[1..];
    }
  }

  /** Every reverse id in the list comes with its forward id, or already has the status. */
  ghost predicate ApiSafe(m: MapData, half: nat, eids: seq<nat>, st: EdgeStatus) {
    forall e: nat :: ValidEid(m, e) && e in eids && e > half && e - half !in eids ==> StatusOf(m, e) == st
  }

  /** Every id in the list comes with its other direction, or is under repair already. */
  ghost predicate RepairSafe(m: MapData, half: nat, eids: seq<nat>) {
    forall e: nat :: ValidEid(m, e) && e in eids && Partner(half, e) !in eids ==> StatusOf(m, e) == FaultRepair
  }

  lemma SafeListPaired(m: MapData, m': MapData, half: nat, eids: seq<nat>, st: EdgeStatus)
    requires ApiEffect(m, m', half, eids, st) && Paired(m, half) && ApiSafe(m, half, eids, st)
    ensures Paired(m', half)
  {
    forall e: nat ensures SameBothWays(m', half, e) { assert SameBothWays(m, half, e); }
  }

  lemma UnsafeListUnpaired(m: MapData, m': MapData, half: nat, eids: seq<nat>, st: EdgeStatus, e: nat)
    requires ApiEffect(m, m', half, eids, st) && Paired(m, half) && Paired(m', half)
    requires ValidEid(m, e) && e in eids && e > half && e - half !in eids
    ensures StatusOf(m, e) == st
  {
    assert SameBothWays(m, half, e) && SameBothWays(m', half, e);
    assert !HitByApi(half, eids, e - half) && ValidEid(m, e - half);
  }

  /** /api/ban and /api/access keep the two directions equal if and only if the list is safe. */
  lemma ApiKeepsPairsIff(w: World, eids: seq<nat>, st: EdgeStatus)
    requires Tables(w.m, w.paths) && Paired(w.m, |w.paths|)
    ensures Paired(SetAllByApi(w, eids, st).m, |w.paths|) <==> ApiSafe(w.m, |w.paths|, eids, st)
  {
    var half, m' := |w.paths|, SetAllByApi(w, eids, st).m;
    ApiSetsAll(w, eids, st);
    if ApiSafe(w.m, half, eids, st) { SafeListPaired(w.m, m', half, eids, st); }
    if Paired(m', half) {
      forall e: nat | ValidEid(w.m, e) && e in eids && e > half && e - half !in eids ensures StatusOf(w.m, e) == st {
        UnsafeListUnpaired(w.m, m', half, eids, st, e);
      }
    }
  }

  lemma SafeRepairPaired(m: MapData, m': MapData, half: nat, eids: seq<nat>)
    requires RepairEffect(m, m', half, eids) && Paired(m, half) && RepairSafe(m, half, eids)
    ensures Paired(m', half)
  {
    forall e: nat ensures SameBothWays(m', half, e) { assert SameBothWays(m, half, e); }
  }

  lemma UnsafeRepairUnpaired(m: MapData, m': MapData, half: nat, eids: seq<nat>, e: nat)
    requires RepairEffect(m, m', half, eids) && Paired(m, half) && Paired(m', half)
    requires ValidEid(m, e) && e in eids && Partner(half, e) !in eids
    ensures StatusOf(m, e) == FaultRepair
  {
    assert SameBothWays(m, half, e) && SameBothWays(m', half, e);
    assert ValidEid(m, Partner(half, e));
  }

  /** /api/repair keeps the two directions equal if and only if its list is safe. */
  lemma RepairKeepsPairsIff(w: World, eids: seq<nat>)
    requires Tables(w.m, w.paths) && Paired(w.m, |w.paths|)
    ensures Paired(SetAllForRepair(w, eids).m, |w.paths|) <==> RepairSafe(w.m, |w.paths|, eids)
  {
    var half, m' := |w.paths|, SetAllForRepair(w, eids).m;
    RepairSetsAll(w, eids);
    if RepairSafe(w.m, half, eids) { SafeRepairPaired(w.m, m', half, eids); }
    if Paired(m', half) {
      forall e: nat | ValidEid(w.m, e) && e in eids && Partner(half, e) !in eids ensures StatusOf(w.m, e) == FaultRepair {
        UnsafeRepairUnpaired(w.m, m', half, eids, e);
      }
    }
  }

  // ---------------------------------------------------------------- writes that meet other processes

  /** The road of edge e is among the first n entries of the pair table. */
  predicate Rebuilt(half: nat, n: nat, e: nat) { (if e <= half then e else e - half) <= n }

  lemma {:induction false} PrefixLookup(paths: seq<Bipath>, n: nat, i: nat, e: nat)
    requires i <= n <= |paths| && 1 <= e <= 2 * |paths| && forall k :: 0 <= k < |paths| ==> paths[k] == Bipath(k + 1, k + 1 + |paths|)
    requires i < if e <= |paths| then e else e - |paths|
    ensures FindPartner(paths[..n][i..], e) == if Rebuilt(|paths|, n, e) then Some(Partner(|paths|, e)) else None
    decreases n - i
  {
    if i < n && paths[i].GetOtherPath(e).None? {
      PrefixLookup(paths, n, i + 1, e);
      assert paths[..n][i..][1..] == paths[..n][i + 1..];
    }
  }

  /** Only one direction of a paired road is set: the directions still agree just when the status was there already. */
  lemma OneWayIff(m: MapData, paths: seq<Bipath>, e: nat, st: EdgeStatus)
    requires Network(m, paths) && Paired(m, |paths|) && ValidEid(m, e)
    ensures Paired(WithStatus(m, e, st), |paths|) <==> StatusOf(m, e) == st
  {
    hide Network, MapShape;
    var half, m' := |paths|, WithStatus(m, e, st);
    PartnerLookup(m, paths, e);
    if StatusOf(m, e) == st {
      assert m' == m;
    } else {
      assert SameBothWays(m, half, e) && !SameBothWays(m', half, e);
    }
  }

  lemma PairTable(m: MapData, paths: seq<Bipath>, e: nat)
    requires Network(m, paths) && ValidEid(m, e)
    ensures 1 <= e <= 2 * |paths| <= MAX_EDGES == |m.edges| && forall k :: 0 <= k < |paths| ==> paths[k] == Bipath(k + 1, k + 1 + |paths|)
  {
  }

  /**
   * /api/ban and /api/access read the pair table before they write. If a reset has rebuilt only the first n pairs by then, a forward id
   * keeps both directions equal if and only if its pair is among them, or the edge has the status already.
   */
  lemma HalfBuiltTableIff(w: World, n: nat, e: nat, st: EdgeStatus)
    requires Network(w.m, w.paths) && Paired(w.m, |w.paths|) && n <= |w.paths| && 1 <= e <= |w.paths|
    ensures MapShape(w.m) && ValidEid(w.m, e)
    ensures Paired(SetByApi(w.(paths := w.paths[..n]), e, st).m, |w.paths|) <==> e <= n || StatusOf(w.m, e) == st
  {
    hide Network, Paired, MapShape, ApiEffect;
    var half := |w.paths|;
    ForwardEdge(w.m, w.paths, e);
    PrefixApiIs(w, n, e, st);
    if e <= n {
      SetsForward(w.m, half, e, st);
      var m' := SetById(SetById(w.m, e, st), e + half, st);
      assert Paired(m', half) by { OneForwardPaired(w.m, m', half, e, st); }
    } else {
      SetByIdSets(w.m, e, st);
      OneWayIff(w.m, w.paths, e, st);
    }
  }

  lemma ForwardEdge(m: MapData, paths: seq<Bipath>, e: nat)
    requires Network(m, paths) && 1 <= e <= |paths|
    ensures MapShape(m) && IdsArePositions(m) && ValidEid(m, e) && m.edgeCount == 2 * |paths|
    ensures forall k :: 0 <= k < |paths| ==> paths[k] == Bipath(k + 1, k + 1 + |paths|)
  {
    NetworkIds(m, paths);
  }

  lemma PrefixApiIs(w: World, n: nat, e: nat, st: EdgeStatus)
    requires MapShape(w.m) && IdsArePositions(w.m) && n <= |w.paths| && 1 <= e <= |w.paths|
    requires forall k :: 0 <= k < |w.paths| ==> w.paths[k] == Bipath(k + 1, k + 1 + |w.paths|)
    ensures var m1 := SetById(w.m, e, st);
            MapShape(m1) && SetByApi(w.(paths := w.paths[..n]), e, st).m == if e <= n then SetById(m1, e + |w.paths|, st) else m1
  {
    hide IdsArePositions;
    SetByIdKeeps(w.m, e, st);
    if e <= n { assert w.paths[..n][e - 1] == Bipath(e, e + |w.paths|); }
  }

  lemma OneForwardPaired(m: MapData, m': MapData, half: nat, e: nat, st: EdgeStatus)
    requires ApiEffect(m, m', half, [e], st) && Paired(m, half) && 1 <= e <= half
    ensures Paired(m', half)
  {
    SafeListPaired(m, m', half, [e], st);
  }
}
