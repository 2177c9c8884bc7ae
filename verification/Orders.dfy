/** What the master publishes, as text and as the car reads it, and how the car's wheels turn in the end. */
module Orders {
  import opened Layout
  import opened MapInit
  import opened RoadNetwork
  import opened Geometry
  import opened AStar
  import opened Dispatch
  import opened CarRecords
  import opened RoadStatus
  import opened DispatchRuns
  import opened HandlerEffects
  import C = Control
  import L = ControlLaws

  // ---------------------------------------------------------------- messages

  /** The fields of the JSON text. */
  datatype Message = Text(kind: string, param: string) | Number(kind: string, value: int)

  /** ori_cmd_to_str */
  function OriText(o: OriCmd): string {
    match o
    case GoStraight => "STRAIGHT"
    case TurnLeft => "LEFT"
    case TurnRight => "RIGHT"
    case HasArrived => "ARRIVED"
    case TurnBack => "UTURN"
  }

  /** action_cmd_to_str */
  function ActionText(a: ActionCmd): string {
    match a case Pause => "PAUSE" case Process => "PROCESS" case UturnNow => "UTURN"
  }

  function Encoded(p: Publish): Message {
    match p
    case Cnt(carId, cnt) => Number("CNT", cnt)
    case Action(carId, cmd) => Text("ACTION", ActionText(cmd))
    case Orient(carId, ori) => Text("ORIENT", OriText(ori))
  }

  /** mqttCallback; None where nothing is queued. */
  function Received(m: Message): Option<C.Command> {
    if m.kind == "ORIENT" then Some(C.Command(C.NoAction, if m.Text? then OrientOf(m.param) else C.NoOrient, 0))
    else if m.kind == "ACTION" then Some(C.Command(if m.Text? then ActionOf(m.param) else C.NoAction, C.NoOrient, 0))
    else if m.kind == "CNT" then Some(C.Command(C.SetCount, C.NoOrient, if m.Number? then m.value else 0))
    else None
  }

  function OrientOf(param: string): C.Orient {
    if param == "STRAIGHT" then C.GoStraight
    else if param == "LEFT" then C.GoLeft
    else if param == "RIGHT" then C.GoRight
    else if param == "ARRIVED" then C.HasArrived
    else if param == "UTURN" then C.TurnAround
    else C.NoOrient
  }

  function ActionOf(param: string): C.Action {
    if param == "PAUSE" then C.Pause else if param == "PROCESS" then C.Process else if param == "UTURN" then C.Uturn else C.NoAction
  }

  /** The commands that reach the car's queue, in the order sent. */
  function Commands(sent: seq<Publish>): seq<C.Command>
    decreases |sent|
  {
    if sent == [] then []
    else (match Received(Encoded(sent[0])) case None => [] case Some(cmd) => [cmd]) + Commands(sent[1..])
  }

  // ---------------------------------------------------------------- plans

  /**
   * An announced plan of k edges, whatever the car is doing: its count starts afresh with the limit k; for the modes that turn back it
   * turns on the spot, for the mode that acts at once it sets off if it was IDLE, and otherwise it goes on as it was.
   */
  lemma PlanReachesCar(cfg: C.Config, c: C.Ctl, sent: seq<Publish>, t: Task, k: nat)
    requires Announces(sent, t, k)
    ensures var d := C.AllCommanded(cfg, c, Commands(sent));
            && d.roadNum == k && d.roadCount == 0
            && (t.immediate == Uturn || t.immediate == UturnNoCross ==> d.state == C.Turn && L.Spins(cfg, d.pwm, false))
            && (t.immediate == Immediately ==> d.pwm == c.pwm && d.state == if c.state == C.Idle then C.Follow else c.state)
            && (t.immediate == AfterSegment ==> d.pwm == c.pwm && d.state == c.state)
  {
    hide C.Commanded;
    var cnt := C.Command(C.SetCount, C.NoOrient, k);
    var c1 := C.Commanded(cfg, c, cnt);
    L.CountSets(cfg, c, cnt);
    assert sent[1..] == [] || sent[1..] == [sent[1]];
    assert Commands(sent) == [cnt] + Commands(sent[1..]);
    assert Commands(sent)[1..] == Commands(sent[1..]);
    if |sent| == 2 {
      assert sent[1..][1..] == [];
      var cmd := Received(Encoded(sent[1])).value;
      assert Commands(sent[1..]) == [cmd] && [cmd][1..] == [];
      assert C.AllCommanded(cfg, C.Commanded(cfg, c1, cmd), []) == C.Commanded(cfg, c1, cmd);
      L.ProcessStarts(cfg, c1, C.NoOrient, 0);
      L.UturnSpins(cfg, c1, C.NoOrient, 0);
    }
  }

  /** A refused cancel makes the car stand. */
  lemma PauseReachesCar(cfg: C.Config, c: C.Ctl, carId: nat)
    ensures L.Stands(C.AllCommanded(cfg, c, Commands([Action(carId, Pause)])))
  {
    hide C.Commanded;
    var cmd := C.Command(C.Pause, C.NoOrient, 0);
    assert [Action(carId, Pause)][1..] == [] && [cmd][1..] == [];
    assert Commands([Action(carId, Pause)]) == [cmd];
    assert C.AllCommanded(cfg, C.Commanded(cfg, c, cmd), []) == C.Commanded(cfg, c, cmd);
    L.PauseStops(cfg, c, C.NoOrient, 0);
  }

  // ---------------------------------------------------------------- corners

  /** What the wheels do after the order o has been decided on, with no pending obstacle. */
  predicate Follows(cfg: C.Config, o: OriCmd, c: C.Ctl, d: C.Ctl) {
    match o
    case TurnLeft => d.state == C.Turn && L.Spins(cfg, d.pwm, true)
    case TurnRight => d.state == C.Turn && L.Spins(cfg, d.pwm, false)
    case TurnBack => d.state == C.Turn && L.Spins(cfg, d.pwm, false)
    case GoStraight => d.state == C.Follow && d.pwm == c.pwm
    case HasArrived => L.Stands(d)
  }

  /** An order that reaches a waiting car is driven as it was given. */
  lemma OrderReachesWheels(cfg: C.Config, c: C.Ctl, carId: nat, o: OriCmd, inp: C.Input)
    requires c.state == C.WaitCommand && !c.obstaclePending
    ensures var d := C.AllCommanded(cfg, c, Commands([Orient(carId, o)]));
            && d.state == C.WaitCommand && d.hasOrient && Follows(cfg, o, d, C.Moved(cfg, d, inp))
  {
    hide C.Commanded, C.Moved;
    var cmd := Received(Encoded(Orient(carId, o))).value;
    assert [Orient(carId, o)][1..] == [] && [cmd][1..] == [];
    assert Commands([Orient(carId, o)]) == [cmd];
    var d := C.Commanded(cfg, c, cmd);
    assert C.AllCommanded(cfg, d, []) == d;
    L.CountSets(cfg, c, cmd);
    L.OrderIsKept(cfg, c, cmd);
    L.WaitEndsIff(cfg, d, inp);
  }

  /** Seen from a car that comes from a and is at b, node v lies to the right (k > 0), to the left (k < 0), or on the line. */
  predicate Corner(m: MapData, a: nat, b: nat, v: nat, n: int, j: int, k: int) {
    && 1 <= a <= |m.nodes| && 1 <= b <= |m.nodes| && 1 <= v <= |m.nodes|
    && At(m, a) != At(m, b) && LiesAt(At(m, a), At(m, b), At(m, v), n, j, k)
  }

  /** The order for that corner. */
  predicate Fits(o: OriCmd, j: int, k: int) {
    && (k > 0 ==> o == TurnRight) && (k < 0 ==> o == TurnLeft)
    && (k == 0 && j > 0 ==> o == GoStraight) && (k == 0 && j <= 0 ==> o == TurnBack)
  }

  /** Every ARRIVE on the way is answered with the order that fits the corner to the next node of the path. */
  lemma OrderFitsCorner(w: World, carId: nat, dist: (Node, Node) -> real, fl: real -> real, w': World, n: int, j: int, k: int)
      returns (o: OriCmd)
    requires RoadsOk(w) && Step(w, ArriveEvent(carId), dist, fl, w') && 1 <= carId <= |w.cars|
    requires var c := w.cars[carId - 1]; c.status != CarFault && c.status != Offline && c.current != c.target && c.path != []
    requires |w'.cars| == |w.cars| ==> Corner(w.m, w.cars[carId - 1].last, w.cars[carId - 1].current, w'.cars[carId - 1].current, n, j, k)
    ensures w'.published == w.published + [Orient(carId, o)] && Fits(o, j, k)
  {
    hide RoadsOk, Step;
    var i := PassingDoes(w, carId, dist, fl, w');
    var c, v := w.cars[carId - 1], w'.cars[carId - 1].current;
    o := GenerateTurn(At(w.m, c.last), At(w.m, c.current), At(w.m, v));
    TurnsToItsSide(At(w.m, c.last), At(w.m, c.current), At(w.m, v), n, j, k);
  }

  /** From a simple chain's first node exactly its first edge leads on, and the chain does not end there. */
  lemma FirstEdge(m: MapData, p: seq<nat>, i: nat)
    requires SimpleChain(m, p) && i < |p| && From(m, p[i]) == From(m, p[0])
    ensures i == 0 && From(m, p[0]) != To(m, p[|p| - 1])
  {
    var ns := NodesOf(m, p);
    assert ns[0] == From(m, p[0]) && ns[i] == From(m, p[i]) && ns[|p|] == To(m, p[|p| - 1]);
  }

  /**
   * The first ARRIVE after an accepted plan, in every mode: the car is told the turn that leads from the node behind it, through the
   * node that its path starts at, to the far end of the path's first edge, on the side on which that end lies.
   */
  lemma FirstOrderFits(w: World, t: Task, p: seq<nat>, dist: (Node, Node) -> real, fl: real -> real, w1: World, w2: World,
                       n: int, j: int, k: int) returns (o: OriCmd)
    requires Safe(w) && Step(w, PlanEvent(t, p), dist, fl, w1) && Startable(w, t) && p != [] && Step(w1, ArriveEvent(t.carId), dist, fl, w2)
    requires |w1.cars| == |w.cars| && 1 <= t.carId <= |w.cars| && ValidEid(w.m, p[0])
    requires Corner(w.m, w1.cars[t.carId - 1].last, From(w.m, p[0]), To(w.m, p[0]), n, j, k)
    ensures w2.published == w1.published + [Orient(t.carId, o)] && Fits(o, j, k)
    ensures |w2.cars| == |w1.cars| && w2.cars[t.carId - 1].last == From(w.m, p[0]) && w2.cars[t.carId - 1].current == To(w.m, p[0])
  {
    hide RoadsOk, Paired, Occupancy, Step, SimpleChain, RoadReleased, OnlyEdges, Redirected, Startable;
    var sent := AcceptDoes(w, t, p, dist, fl, w1);
    SafeIsRoads(w);
    StepKeepsRecords(w, PlanEvent(t, p), dist, fl, w1);
    FirstEdge(w.m, p, 0);
    var i := PassingDoes(w1, t.carId, dist, fl, w2);
    StepKeepsRoads(w, PlanEvent(t, p), dist, fl, w1);
    EdgeKept(w.m, w1.m, p[i]);
    FirstEdge(w.m, p, i);
    SameCorner(w.m, w1.m, w1.cars[t.carId - 1].last, From(w.m, p[0]), To(w.m, p[0]), n, j, k);
    o := OrderFitsCorner(w1, t.carId, dist, fl, w2, n, j, k);
  }

  lemma SafeIsRoads(w: World)
    requires Safe(w)
    ensures RoadsOk(w)
  {
  }

  lemma SameCorner(m: MapData, m': MapData, a: nat, b: nat, v: nat, n: int, j: int, k: int)
    requires SameRoads(m, m') && Corner(m, a, b, v, n, j, k)
    ensures Corner(m', a, b, v, n, j, k)
  {
  }
}
