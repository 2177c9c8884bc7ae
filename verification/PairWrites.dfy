/** Handlers that set the same roads at the same time, each with one write per direction: when the directions end up equal. */
module PairWrites {
  import opened Layout
  import opened MapInit
  import opened RoadNetwork
  import opened Dispatch
  import opened RoadStatus

  /** One write of an edge's status. */
  datatype Write = Write(edge: nat, status: EdgeStatus)

  /** The map after the writes, in order. */
  function AfterWrites(m: MapData, ws: seq<Write>): (r: MapData)
    requires forall i :: 0 <= i < |ws| ==> 1 <= ws[i].edge <= |m.edges|
    ensures |r.edges| == |m.edges|
    decreases |ws|
  {
    if ws == [] then m else WithStatus(AfterWrites(m, ws[..|ws| - 1]), ws[|ws| - 1].edge, ws[|ws| - 1].status)
  }

  /** The status written last to edge e. */
  function LastTo(ws: seq<Write>, e: nat): (r: Option<EdgeStatus>)
    ensures r.Some? <==> exists i :: 0 <= i < |ws| && ws[i].edge == e
    decreases |ws|
  {
    if ws == [] then None
    else if ws[|ws| - 1].edge == e then Some(ws[|ws| - 1].status)
    else
      assert forall i :: 0 <= i < |ws| - 1 ==> ws[..|ws| - 1][i] == ws[i];
      LastTo(ws[..|ws| - 1], e)
  }

  lemma {:induction false} LastWins(m: MapData, ws: seq<Write>, e: nat)
    requires (forall i :: 0 <= i < |ws| ==> 1 <= ws[i].edge <= |m.edges|) && ValidEid(m, e)
    ensures var r := AfterWrites(m, ws);
            ValidEid(r, e) && r.edgeCount == m.edgeCount && StatusOf(r, e) == match LastTo(ws, e) case None => StatusOf(m, e) case Some(st) => st
    decreases |ws|
  {
    if ws != [] { LastWins(m, ws[..|ws| - 1], e); }
  }

  /**
   * `ws` holds the two writes of every handler in `hs`, one to the edge it has found and one to the other direction, in any order
   * with those of the other handlers: handler i writes at positions at[i] and then[i], and nobody else writes.
   */
  ghost predicate Merged(hs: seq<Write>, ws: seq<Write>, half: nat, at: seq<nat>, next: seq<nat>) {
    && |at| == |next| == |hs|
    && (forall i :: 0 <= i < |hs| ==>
          at[i] < next[i] < |ws| && ws[at[i]] == hs[i] && ws[next[i]] == Write(Partner(half, hs[i].edge), hs[i].status))
    && forall j: nat :: j < |ws| ==> j in at || j in next
  }

  /** Every handler sets an edge of the map. */
  ghost predicate SetsEdges(m: MapData, hs: seq<Write>) { forall i :: 0 <= i < |hs| ==> ValidEid(m, hs[i].edge) }

  lemma Partners(m: MapData, paths: seq<Bipath>, e: nat)
    requires Network(m, paths) && ValidEid(m, e)
    ensures var p := Partner(|paths|, e);
            ValidEid(m, p) && Partner(|paths|, p) == e && 1 <= e <= 2 * |paths| && 1 <= p <= |m.edges| && 1 <= e <= |m.edges|
  {
    PartnerLookup(m, paths, e);
  }

  lemma EdgesWritten(m: MapData, paths: seq<Bipath>, hs: seq<Write>, ws: seq<Write>, at: seq<nat>, next: seq<nat>)
    requires Network(m, paths) && Merged(hs, ws, |paths|, at, next) && SetsEdges(m, hs)
    ensures forall j :: 0 <= j < |ws| ==> ValidEid(m, ws[j].edge)
  {
    hide Network;
    forall j: nat | j < |ws| ensures ValidEid(m, ws[j].edge) {
      var i := WriterOf(hs, ws, |paths|, at, next, j);
      Partners(m, paths, hs[i].edge);
    }
  }

  /** The handler that writes at position j. */
  lemma WriterOf(hs: seq<Write>, ws: seq<Write>, half: nat, at: seq<nat>, next: seq<nat>, j: nat) returns (i: nat)
    requires Merged(hs, ws, half, at, next) && j < |ws|
    ensures i < |hs| && (ws[j].edge == hs[i].edge || ws[j].edge == Partner(half, hs[i].edge))
    ensures LastTo(ws, hs[i].edge).Some? && LastTo(ws, Partner(half, hs[i].edge)).Some?
  {
    if j in at {
      i :| 0 <= i < |at| && at[i] == j;
    } else {
      i :| 0 <= i < |next| && next[i] == j;
    }
    assert ws[at[i]].edge == hs[i].edge && ws[next[i]].edge == Partner(half, hs[i].edge);
  }

  /** On every road that a handler sets, the last writes to the two directions set the same status. */
  ghost predicate LastsAgree(hs: seq<Write>, ws: seq<Write>, half: nat) {
    forall i :: 0 <= i < |hs| ==> LastTo(ws, hs[i].edge) == LastTo(ws, Partner(half, hs[i].edge))
  }

  lemma SameLasts(m: MapData, paths: seq<Bipath>, hs: seq<Write>, ws: seq<Write>, at: seq<nat>, next: seq<nat>, e: nat)
    requires Network(m, paths) && Merged(hs, ws, |paths|, at, next) && SetsEdges(m, hs) && LastsAgree(hs, ws, |paths|)
    requires ValidEid(m, e) && LastTo(ws, e).Some?
    ensures LastTo(ws, e) == LastTo(ws, Partner(|paths|, e))
  {
    hide Network;
    var j: nat :| j < |ws| && ws[j].edge == e;
    var i := WriterOf(hs, ws, |paths|, at, next, j);
    Partners(m, paths, hs[i].edge);
  }

  lemma PairAfter(m: MapData, paths: seq<Bipath>, hs: seq<Write>, ws: seq<Write>, at: seq<nat>, next: seq<nat>, e: nat)
    requires Network(m, paths) && Paired(m, |paths|) && Merged(hs, ws, |paths|, at, next) && SetsEdges(m, hs) && ValidEid(m, e)
    ensures forall j :: 0 <= j < |ws| ==> ValidEid(m, ws[j].edge)
    ensures LastsAgree(hs, ws, |paths|) ==> SameBothWays(AfterWrites(m, ws), |paths|, e)
    ensures SameBothWays(AfterWrites(m, ws), |paths|, e) && LastTo(ws, e).Some? && LastTo(ws, Partner(|paths|, e)).Some? ==>
              LastTo(ws, e) == LastTo(ws, Partner(|paths|, e))
  {
    hide Network, Merged, SetsEdges, LastsAgree, LastTo, AfterWrites;
    var p := Partner(|paths|, e);
    EdgesWritten(m, paths, hs, ws, at, next);
    Partners(m, paths, e);
    LastWins(m, ws, e);
    LastWins(m, ws, p);
    assert SameBothWays(m, |paths|, e);
    if LastsAgree(hs, ws, |paths|) {
      if LastTo(ws, e).Some? {
        SameLasts(m, paths, hs, ws, at, next, e);
      } else if LastTo(ws, p).Some? {
        SameLasts(m, paths, hs, ws, at, next, p);
      }
    }
  }

  lemma WritesKeepCount(m: MapData, ws: seq<Write>)
    requires forall i :: 0 <= i < |ws| ==> 1 <= ws[i].edge <= |m.edges|
    ensures AfterWrites(m, ws).edgeCount == m.edgeCount
    decreases |ws|
  {
    if ws != [] { WritesKeepCount(m, ws[..|ws| - 1]); }
  }

  /**
   * However the writes of any number of handlers interleave, both directions of every road agree if and only if, on every road that a
   * handler sets, the last write to the one direction and the last write to the other set the same status.
   */
  lemma MergedWritesIff(m: MapData, paths: seq<Bipath>, hs: seq<Write>, ws: seq<Write>, at: seq<nat>, next: seq<nat>)
    requires Network(m, paths) && Paired(m, |paths|) && Merged(hs, ws, |paths|, at, next) && SetsEdges(m, hs)
    ensures forall j :: 0 <= j < |ws| ==> ValidEid(m, ws[j].edge)
    ensures Paired(AfterWrites(m, ws), |paths|) <==> LastsAgree(hs, ws, |paths|)
  {
    hide Network, LastTo, AfterWrites, SameBothWays;
    EdgesWritten(m, paths, hs, ws, at, next);
    WritesKeepCount(m, ws);
    if LastsAgree(hs, ws, |paths|) {
      forall e: nat ensures SameBothWays(AfterWrites(m, ws), |paths|, e) {
        if ValidEid(m, e) { PairAfter(m, paths, hs, ws, at, next, e); } else { NotAnEdge(m, AfterWrites(m, ws), |paths|, e); }
      }
    }
    if Paired(AfterWrites(m, ws), |paths|) {
      forall i | 0 <= i < |hs| ensures LastTo(ws, hs[i].edge) == LastTo(ws, Partner(|paths|, hs[i].edge)) {
        assert ws[at[i]].edge == hs[i].edge && ws[next[i]].edge == Partner(|paths|, hs[i].edge);
        PairAfter(m, paths, hs, ws, at, next, hs[i].edge);
      }
    }
  }

  lemma NotAnEdge(m: MapData, m': MapData, half: nat, e: nat)
    requires m'.edgeCount == m.edgeCount && |m'.edges| == |m.edges| && !ValidEid(m, e)
    ensures SameBothWays(m', half, e)
  {
  }

  /** Two handlers set one road, the second one between the two writes of the first: equal only if they set the same status. */
  lemma SplitWriteIff(m: MapData, paths: seq<Bipath>, e: nat, a: EdgeStatus, b: EdgeStatus)
    requires Network(m, paths) && Paired(m, |paths|) && ValidEid(m, e)
    ensures var f := Partner(|paths|, e);
            && 1 <= e <= |m.edges| && 1 <= f <= |m.edges|
            && (Paired(AfterWrites(m, [Write(e, a), Write(e, b), Write(f, b), Write(f, a)]), |paths|) <==> a == b)
  {
    hide Network, Paired, AfterWrites;
    var f := Partner(|paths|, e);
    Partners(m, paths, e);
    PartnerLookup(m, paths, e);
    var hs, ws := [Write(e, a), Write(e, b)], [Write(e, a), Write(e, b), Write(f, b), Write(f, a)];
    assert [0, 1][0] == 0 && [0, 1][1] == 1 && [3, 2][0] == 3 && [3, 2][1] == 2;
    MergedWritesIff(m, paths, hs, ws, [0, 1], [3, 2]);
    assert ws[..3] == [Write(e, a), Write(e, b), Write(f, b)] && ws[..3][..2] == [Write(e, a), Write(e, b)];
    assert LastTo([Write(e, a), Write(e, b)], e) == Some(b);
    assert LastTo(ws[..3], e) == Some(b) && LastTo(ws, e) == Some(b) && LastTo(ws, f) == Some(a);
    assert hs[0].edge == e;
  }
}
