/** What the car's control task keeps in every reachable state and in everything it logs. */
module ControlInvariants {
  import opened Layout
  import opened Control

  // ---------------------------------------------------------------- reading a log

  /** The order received last, unless an ARRIVE or a decision has come since. */
  ghost function Fresh(log: seq<Entry>): Option<Orient>
    decreases |log|
  {
    if log == [] then None
    else
      match log[|log| - 1]
      case OrientReceived(o) => Some(o)
      case ArriveSent(seenIn) => None
      case Decided(o, p, n, k) => None
      case _ => Fresh(log[..|log| - 1])
  }

  /** ARRIVEs since the last CNT or the last stop at the count. */
  ghost function Counted(log: seq<Entry>): nat
    decreases |log|
  {
    if log == [] then 0
    else
      match log[|log| - 1]
      case ArriveSent(seenIn) => Counted(log[..|log| - 1]) + 1
      case CountReceived(n) => 0
      case CountReached(n) => 0
      case _ => Counted(log[..|log| - 1])
  }

  /** The CNT received last. */
  ghost function Limit(log: seq<Entry>): int
    decreases |log|
  {
    if log == [] then 0
    else
      match log[|log| - 1]
      case CountReceived(n) => n
      case _ => Limit(log[..|log| - 1])
  }

  /** The report sent last was a temporary obstacle. */
  ghost predicate ObstacleOpen(log: seq<Entry>)
    decreases |log|
  {
    log != [] &&
    match log[|log| - 1]
    case ObstacleReported(thing, after, seenIn) => Temporary(thing)
    case RepairedSent => false
    case _ => ObstacleOpen(log[..|log| - 1])
  }

  /** Entry e may follow the log `before`. */
  ghost predicate EntryOk(before: seq<Entry>, e: Entry) {
    match e
    case ArriveSent(seenIn) => seenIn != PostTurn
    case ObstacleReported(thing, after, seenIn) => seenIn != PostTurn && !ObstacleOpen(before)
    case RepairedSent => ObstacleOpen(before)
    case Decided(o, p, n, k) =>
      && p == Approach && o != NoOrient && Fresh(before) == Some(o)
      && n == Limit(before) && k == Counted(before) && (n <= 0 || k <= n)
    case CountReached(n) => n == Limit(before) && n != 0 && Counted(before) >= n + 1
    case _ => true
  }

  ghost predicate LogOk(log: seq<Entry>) { forall k :: 0 <= k < |log| ==> EntryOk(log[..k], log[k]) }

  lemma LogSnoc(log: seq<Entry>, e: Entry)
    requires LogOk(log) && EntryOk(log, e)
    ensures LogOk(log + [e])
  {
    var t := log + [e];
    forall k | 0 <= k < |t| ensures EntryOk(t[..k], t[k]) {
      assert t[..k] == log[..k];
      assert k == |log| ==> log[..k] == log;
    }
  }

  /** How the readings change with one more entry. */
  ghost predicate ReadsOn(log: seq<Entry>, e: Entry) {
    var t := log + [e];
    match e
    case OrientReceived(o) =>
      Fresh(t) == Some(o) && Counted(t) == Counted(log) && Limit(t) == Limit(log) && ObstacleOpen(t) == ObstacleOpen(log)
    case ArriveSent(p) =>
      Fresh(t) == None && Counted(t) == Counted(log) + 1 && Limit(t) == Limit(log) && ObstacleOpen(t) == ObstacleOpen(log)
    case Decided(o, p, n, k) =>
      Fresh(t) == None && Counted(t) == Counted(log) && Limit(t) == Limit(log) && ObstacleOpen(t) == ObstacleOpen(log)
    case CountReceived(n) =>
      Fresh(t) == Fresh(log) && Counted(t) == 0 && Limit(t) == n && ObstacleOpen(t) == ObstacleOpen(log)
    case CountReached(n) =>
      Fresh(t) == Fresh(log) && Counted(t) == 0 && Limit(t) == Limit(log) && ObstacleOpen(t) == ObstacleOpen(log)
    case ObstacleReported(thing, a, p) =>
      Fresh(t) == Fresh(log) && Counted(t) == Counted(log) && Limit(t) == Limit(log) && ObstacleOpen(t) == Temporary(thing)
    case RepairedSent =>
      Fresh(t) == Fresh(log) && Counted(t) == Counted(log) && Limit(t) == Limit(log) && !ObstacleOpen(t)
    case InfoSent =>
      Fresh(t) == Fresh(log) && Counted(t) == Counted(log) && Limit(t) == Limit(log) && ObstacleOpen(t) == ObstacleOpen(log)
  }

  lemma Readings(log: seq<Entry>, e: Entry)
    ensures ReadsOn(log, e)
  {
    assert (log + [e])[..|log|] == log;
  }

  // ---------------------------------------------------------------- the invariant

  ghost predicate Inv(c: Ctl) {
    && (c.state == Idle || c.state == WaitCommand ==> c.pwm == STOPPED)
    && (c.state == WaitCommand ==> c.phase == Approach && (c.roadNum <= 0 || c.roadCount <= c.roadNum))
    && (c.dogWasDetected ==> c.obstacleSent) && ObstacleOpen(c.log) == c.dogWasDetected
    && (c.hasOrient ==> c.orient != NoOrient && Fresh(c.log) == Some(c.orient))
    && c.roadCount == Counted(c.log) && c.roadNum == Limit(c.log)
    && LogOk(c.log)
  }

  /** Logging an entry: what the invariant needs to know about it. */
  lemma LogKeeps(log: seq<Entry>, e: Entry)
    requires LogOk(log) && EntryOk(log, e)
    ensures LogOk(log + [e])
    ensures ReadsOn(log, e)
  {
    hide *;
    LogSnoc(log, e);
    Readings(log, e);
  }

  lemma OrderKeeps(c: Ctl, o: Orient)
    requires Inv(c) && o != NoOrient
    ensures Inv(Logged(c.(orient := o, hasOrient := true), OrientReceived(o)))
  {
    hide LogOk, Fresh, Counted, Limit, ObstacleOpen;
    LogKeeps(c.log, OrientReceived(o));
  }

  lemma ActionKeeps(cfg: Config, c: Ctl, cmd: Command)
    requires Inv(c) && cmd.orient == NoOrient
    ensures Inv(Commanded(cfg, c, cmd))
  {
    hide LogOk, Fresh, Counted, Limit, ObstacleOpen;
    LogKeeps(c.log, CountReceived(cmd.roadnum));
  }

  lemma CommandKeeps(cfg: Config, c: Ctl, cmd: Command)
    requires Inv(c)
    ensures Inv(Commanded(cfg, c, cmd))
  {
    hide Inv;
    var o := if cmd.orient == NoOrient then c else Logged(c.(orient := cmd.orient, hasOrient := true), OrientReceived(cmd.orient));
    if cmd.orient != NoOrient { OrderKeeps(c, cmd.orient); }
    ActionKeeps(cfg, o, cmd.(orient := NoOrient));
  }

  lemma {:induction false} CommandsKeep(cfg: Config, c: Ctl, cmds: seq<Command>)
    requires Inv(c)
    ensures Inv(AllCommanded(cfg, c, cmds))
    decreases |cmds|
  {
    hide Inv, Commanded;
    if cmds != [] {
      CommandKeeps(cfg, c, cmds[0]);
      CommandsKeep(cfg, Commanded(cfg, c, cmds[0]), cmds[1..]);
    }
  }

  lemma ObstacleStopKeeps(c: Ctl, t: ObstacleType, after: bool)
    requires Inv(c) && c.phase != PostTurn
    ensures Inv(ObstacleStopped(c, t, after)) && ObstacleStopped(c, t, after).state == Idle
  {
    hide LogOk, Fresh, Counted, Limit, ObstacleOpen;
    if !c.obstacleSent { LogKeeps(c.log, ObstacleReported(t, after, c.phase)); }
  }

  /** The rising edge, seen in phase NONE while following. */
  lemma JunctionKeeps(c: Ctl)
    requires Inv(c) && c.phase == NoJunction && c.state == Follow
    ensures Inv(JunctionEntered(c))
  {
    hide LogOk, Fresh, Counted, Limit, ObstacleOpen;
    LogKeeps(c.log, ArriveSent(c.phase));
  }

  lemma ClearKeeps(cfg: Config, c: Ctl, inp: Input)
    requires Inv(c) && inp.obstacle == NoObstacle
    ensures Inv(Sensed(cfg, c, inp))
  {
    hide LogOk, Fresh, Counted, Limit, ObstacleOpen;
    if c.dogWasDetected { LogKeeps(c.log, RepairedSent); }
  }

  /** An obstacle on the junction mark: the ARRIVE, if it is due, goes out before the stop. */
  lemma MarkKeeps(c: Ctl, t: ObstacleType, after: bool)
    requires Inv(c) && c.state == Follow && c.phase != PostTurn
    ensures Inv(ObstacleStopped(if c.phase == NoJunction && c.lastNodeFlag == 0 then JunctionEntered(c) else c, t, after))
  {
    hide Inv, ObstacleStopped, JunctionEntered;
    if c.phase == NoJunction {
      JunctionKeeps(c);
      EnteredPhase(c);
      ObstacleStopKeeps(JunctionEntered(c), t, after);
    }
    ObstacleStopKeeps(c, t, after);
  }

  lemma SensedKeeps(cfg: Config, c: Ctl, inp: Input)
    requires Inv(c)
    ensures Inv(Sensed(cfg, c, inp))
  {
    hide LogOk, Fresh, Counted, Limit, ObstacleOpen, ObstacleStopped, JunctionEntered;
    if inp.obstacle == NoObstacle {
      ClearKeeps(cfg, c, inp);
    } else if inp.obstacle != OtherCar {
      var d := c.(noneCnt := 0);
      assert Inv(d);
      if d.state == Follow && d.phase != PostTurn {
        MarkKeeps(d, inp.obstacle, Abs(inp.stopCount) >= cfg.passThreshold);
        ObstacleStopKeeps(d, inp.obstacle, false);
      }
    }
  }

  lemma EnteredPhase(c: Ctl)
    ensures JunctionEntered(c).phase == Approach && JunctionEntered(c).state == c.state
  {
  }

  /** A decision is taken only with a fresh order, in phase APPROACH and within the count. */
  lemma ExecutedKeeps(cfg: Config, c: Ctl)
    requires Inv(c) && c.hasOrient && c.phase == Approach && (c.roadNum <= 0 || c.roadCount <= c.roadNum)
    ensures Inv(Executed(cfg, c))
  {
    hide LogOk, Fresh, Counted, Limit, ObstacleOpen, ObstacleStopped;
    var e := Decided(c.orient, c.phase, c.roadNum, c.roadCount);
    LogKeeps(c.log, e);
    var d := Logged(c, e).(hasOrient := false);
    assert Inv(d);
    ObstacleStopKeeps(d, c.pendingType, true);
    StopForgetsOrder(Logged(c, e), c.pendingType, true);
  }

  /** handleObstacleStop clears the order flag whatever it was. */
  lemma StopForgetsOrder(c: Ctl, t: ObstacleType, after: bool)
    ensures ObstacleStopped(c, t, after) == ObstacleStopped(c.(hasOrient := false), t, after)
  {
  }

  lemma FollowedKeeps(cfg: Config, c: Ctl, inp: Input)
    requires Inv(c) && c.state == Follow
    ensures Inv(Followed(cfg, c, inp))
  {
    hide LogOk, Fresh, Counted, Limit, ObstacleOpen, Executed, JunctionEntered;
    var d := c.(pwm := inp.steer);
    assert Inv(d);
    if d.phase == NoJunction { JunctionKeeps(d); EnteredPhase(d); }
    var e := if d.phase == NoJunction && inp.nodeFlag == 1 && d.lastNodeFlag == 0 then JunctionEntered(d) else d;
    if CountIsReached(e) {
      LogKeeps(e.log, CountReached(e.roadNum));
    } else {
      CentreKeeps(cfg, e, inp);
    }
  }

  lemma CentreKeeps(cfg: Config, e: Ctl, inp: Input)
    requires Inv(e) && e.state == Follow && !CountIsReached(e)
    ensures Inv(CentrePassed(cfg, e, inp))
    ensures forall n, t :: Inv(Unlocked(cfg, CentrePassed(cfg, e, inp).(lastNodeFlag := n), t))
  {
    hide LogOk, Fresh, Counted, Limit, ObstacleOpen, Executed;
    if e.phase == Approach {
      if e.hasOrient { ExecutedKeeps(cfg, e); } else { LogKeeps(e.log, InfoSent); }
    }
    var f := CentrePassed(cfg, e, inp);
    forall n, t ensures Inv(Unlocked(cfg, f.(lastNodeFlag := n), t)) { UnlockKeeps(cfg, f, n, t); }
  }

  lemma UnlockKeeps(cfg: Config, f: Ctl, n: int, inp: Input)
    requires Inv(f)
    ensures Inv(Unlocked(cfg, f.(lastNodeFlag := n), inp))
  {
    hide LogOk, Fresh, Counted, Limit, ObstacleOpen;
  }

  lemma MovedKeeps(cfg: Config, c: Ctl, inp: Input)
    requires Inv(c)
    ensures Inv(Moved(cfg, c, inp))
  {
    hide LogOk, Fresh, Counted, Limit, ObstacleOpen, Executed, Followed;
    match c.state
    case Idle =>
    case Follow => FollowedKeeps(cfg, c, inp);
    case WaitCommand => if c.hasOrient { ExecutedKeeps(cfg, c); } else { LogKeeps(c.log, InfoSent); }
    case Turn =>
  }

  lemma CycleKeeps(cfg: Config, c: Ctl, inp: Input)
    requires Inv(c)
    ensures Inv(Cycle(cfg, c, inp))
  {
    hide Inv, Sensed, Moved, AllCommanded;
    CommandsKeep(cfg, c, inp.commands);
    SensedKeeps(cfg, AllCommanded(cfg, c, inp.commands), inp);
    MovedKeeps(cfg, Sensed(cfg, AllCommanded(cfg, c, inp.commands), inp), inp);
  }

  lemma {:induction false} CyclesKeep(cfg: Config, c: Ctl, inps: seq<Input>)
    requires Inv(c)
    ensures Inv(Cycles(cfg, c, inps))
    decreases |inps|
  {
    hide Inv, Cycle;
    if inps != [] {
      CyclesKeep(cfg, c, inps[..|inps| - 1]);
      CycleKeeps(cfg, Cycles(cfg, c, inps[..|inps| - 1]), inps[|inps| - 1]);
    }
  }

  lemma InitialInv()
    ensures Inv(Initial())
  {
  }

  /** In every reachable state. */
  lemma Reachable(cfg: Config, inps: seq<Input>)
    ensures Inv(Cycles(cfg, Initial(), inps))
  {
    InitialInv();
    CyclesKeep(cfg, Initial(), inps);
  }

  /**
   * Motors stand still in IDLE and WAIT_COMMAND, WAIT_COMMAND is only entered at a junction, a car that waits for a dog to go
   * has reported it, an order is never NONE, and the counter counts the ARRIVEs since the last CNT or stop.
   */
  lemma ReachableStates(cfg: Config, inps: seq<Input>)
    ensures var c := Cycles(cfg, Initial(), inps);
            && (c.state == Idle || c.state == WaitCommand ==> c.pwm == STOPPED)
            && (c.state == WaitCommand ==> c.phase == Approach)
            && (c.dogWasDetected ==> c.obstacleSent)
            && (c.hasOrient ==> c.orient != NoOrient)
            && c.roadCount == Counted(c.log) && c.roadNum == Limit(c.log)
  {
    Reachable(cfg, inps);
  }

  // ---------------------------------------------------------------- what the log says

  /** No ARRIVE and no OBSTACLE is sent in the phase after a turn. */
  lemma NothingSentAfterTurn(cfg: Config, inps: seq<Input>, k: nat)
    requires var log := Cycles(cfg, Initial(), inps).log; k < |log| && (log[k].ArriveSent? || log[k].ObstacleReported?)
    ensures Cycles(cfg, Initial(), inps).log[k].seenIn != PostTurn
  {
    var log := Cycles(cfg, Initial(), inps).log;
    Reachable(cfg, inps);
    assert EntryOk(log[..k], log[k]);
  }

  predicate IsReport(e: Entry) { e.ObstacleReported? || e.RepairedSent? }

  predicate IsTemporary(e: Entry) { e.ObstacleReported? && Temporary(e.thing) }

  /** log[j] is the report before position k. */
  ghost predicate PreviousReport(log: seq<Entry>, j: nat, k: nat) {
    j < k <= |log| && IsReport(log[j]) && forall i :: j < i < k ==> !IsReport(log[i])
  }

  lemma {:induction false} LastReport(log: seq<Entry>, j: nat)
    requires PreviousReport(log, j, |log|)
    ensures ObstacleOpen(log) <==> IsTemporary(log[j])
    decreases |log|
  {
    if j < |log| - 1 { LastReport(log[..|log| - 1], j); }
  }

  lemma {:induction false} NoReportYet(log: seq<Entry>)
    requires forall i :: 0 <= i < |log| ==> !IsReport(log[i])
    ensures !ObstacleOpen(log)
    decreases |log|
  {
    if log != [] { NoReportYet(log[..|log| - 1]); }
  }

  /**
   * The reports form (permanent OBSTACLE | temporary OBSTACLE, REPAIRED)*, up to a prefix: REPAIRED comes directly after a
   * temporary OBSTACLE and nothing else does.
   */
  lemma ReportsAlternate(cfg: Config, inps: seq<Input>, j: nat, k: nat)
    requires var log := Cycles(cfg, Initial(), inps).log; k < |log| && IsReport(log[k]) && PreviousReport(log, j, k)
    ensures var log := Cycles(cfg, Initial(), inps).log; log[k].RepairedSent? <==> IsTemporary(log[j])
  {
    var log := Cycles(cfg, Initial(), inps).log;
    Reachable(cfg, inps);
    assert EntryOk(log[..k], log[k]);
    LastReport(log[..k], j);
  }

  lemma FirstReportIsObstacle(cfg: Config, inps: seq<Input>, k: nat)
    requires var log := Cycles(cfg, Initial(), inps).log;
             k < |log| && IsReport(log[k]) && forall i :: 0 <= i < k ==> !IsReport(log[i])
    ensures Cycles(cfg, Initial(), inps).log[k].ObstacleReported?
  {
    var log := Cycles(cfg, Initial(), inps).log;
    Reachable(cfg, inps);
    assert EntryOk(log[..k], log[k]);
    NoReportYet(log[..k]);
  }

  /** log[j] is the order o, and neither an ARRIVE nor a decision nor another order follows it. */
  ghost predicate OrderAt(log: seq<Entry>, j: nat, o: Orient) {
    j < |log| && log[j] == OrientReceived(o)
    && forall i :: j < i < |log| ==> !log[i].ArriveSent? && !log[i].Decided? && !log[i].OrientReceived?
  }

  lemma {:induction false} FreshOrder(log: seq<Entry>, o: Orient) returns (j: nat)
    requires Fresh(log) == Some(o)
    ensures OrderAt(log, j, o)
    decreases |log|
  {
    if log[|log| - 1].OrientReceived? {
      j := |log| - 1;
    } else {
      j := FreshOrder(log[..|log| - 1], o);
    }
  }

  /**
   * Every decision is taken in phase APPROACH with an order received after the latest ARRIVE and used by no earlier decision;
   * it runs beyond the count only if a negative CNT was sent, and never on NONE, so dispatchOrient's default branch is unreachable.
   */
  lemma DecisionsAreFresh(cfg: Config, inps: seq<Input>, k: nat) returns (j: nat)
    requires var log := Cycles(cfg, Initial(), inps).log; k < |log| && log[k].Decided?
    ensures var log := Cycles(cfg, Initial(), inps).log; var d := log[k];
            && d.inPhase == Approach && d.decided != NoOrient && OrderAt(log[..k], j, d.decided)
            && d.roadNum == Limit(log[..k]) && d.roadCount == Counted(log[..k])
            && (d.roadNum != 0 && d.roadCount > d.roadNum <==> d.roadNum < 0)
  {
    var log := Cycles(cfg, Initial(), inps).log;
    Reachable(cfg, inps);
    assert EntryOk(log[..k], log[k]);
    j := FreshOrder(log[..k], log[k].decided);
  }

  /** The junction mark is in view, and both encoders stand at `count`. */
  function AtJunction(commands: seq<Command>, count: nat): Input {
    Input(commands, 1, NoObstacle, STOPPED, 0, count, count, 0, 0, false, 0)
  }

  /** The cycle that first sees the mark resets the encoders. */
  lemma MarkIsSeen(cfg: Config)
    ensures var c := Cycle(cfg, Initial(), AtJunction([Command(Process, NoOrient, 0)], 0));
            c.state == Follow && c.phase == Approach && !c.hasOrient && !c.dogWasDetected && c.roadNum == 0 && c.noneCnt == 1 && |c.log| == 1
  {
    var cmds := [Command(Process, NoOrient, 0)];
    assert AllCommanded(cfg, Initial(), cmds) == Commanded(cfg, Initial(), cmds[0]);
  }

  lemma StartsWaiting(cfg: Config, c: Ctl)
    requires c.state == Follow && c.phase == Approach && !c.hasOrient && !c.dogWasDetected && c.roadNum == 0 && c.noneCnt == 1 && |c.log| == 1
    ensures var d := Cycle(cfg, c, AtJunction([], cfg.passThreshold + 1));
            d.state == WaitCommand && d.phase == Approach && !d.hasOrient && !d.dogWasDetected && |d.log| == 2
  {
  }

  lemma DecidesOnNegative(cfg: Config, c: Ctl)
    requires c.state == WaitCommand && c.phase == Approach && !c.hasOrient && !c.dogWasDetected && |c.log| == 2
    ensures var log := Cycle(cfg, c, AtJunction([Command(SetCount, GoStraight, -1)], cfg.passThreshold + 1)).log;
            |log| > 4 && log[4] == Decided(GoStraight, Approach, -1, 0)
  {
    var cmds := [Command(SetCount, GoStraight, -1)];
    assert AllCommanded(cfg, c, cmds) == Commanded(cfg, c, cmds[0]);
  }

  /** Such a decision can happen: CNT -1 and an order reach a car that waits at a junction. */
  lemma NegativeCountDecides(cfg: Config) returns (inps: seq<Input>, k: nat)
    ensures var log := Cycles(cfg, Initial(), inps).log;
            k < |log| && log[k].Decided? && log[k].roadNum != 0 && log[k].roadCount > log[k].roadNum
  {
    hide Cycle, AtJunction;
    var first, past := AtJunction([Command(Process, NoOrient, 0)], 0), AtJunction([], cfg.passThreshold + 1);
    inps, k := [first, past, AtJunction([Command(SetCount, GoStraight, -1)], cfg.passThreshold + 1)], 4;
    var c1 := Cycle(cfg, Initial(), first);
    MarkIsSeen(cfg);
    StartsWaiting(cfg, c1);
    DecidesOnNegative(cfg, Cycle(cfg, c1, past));
    assert inps[..2] == [first, past] && [first, past][..1] == [first] && [first][..0] == [];
    assert Cycles(cfg, Initial(), [first]) == c1;
    assert Cycles(cfg, Initial(), [first, past]) == Cycle(cfg, c1, past);
  }

  /** The car never stops at its count before ARRIVE number roadNum + 1. */
  lemma NeverStopsEarly(cfg: Config, inps: seq<Input>, k: nat)
    requires var log := Cycles(cfg, Initial(), inps).log; k < |log| && log[k].CountReached?
    ensures var log := Cycles(cfg, Initial(), inps).log;
            log[k].limit == Limit(log[..k]) != 0 && Counted(log[..k]) >= log[k].limit + 1
  {
    var log := Cycles(cfg, Initial(), inps).log;
    Reachable(cfg, inps);
    assert EntryOk(log[..k], log[k]);
  }
}
