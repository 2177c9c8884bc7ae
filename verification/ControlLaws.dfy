/** What each part of a control cycle does to state, motors and log, field by field, and what that means over runs. */
module ControlLaws {
  import opened Control

  /** The motors turn the wheels in opposite senses, at the turning speed. */
  predicate Spins(cfg: Config, p: Pwm, left: bool) {
    if left then p == Pwm(cfg.turnDiffPwm, -cfg.turnDiffPwm) else p == Pwm(-cfg.turnDiffPwm, cfg.turnDiffPwm)
  }

  predicate Stands(c: Ctl) { c.state == Idle && c.pwm.duty3 == 0 && c.pwm.duty4 == 0 }

  /** Counters, junction phase and obstacle bookkeeping are as before. */
  predicate SameJunction(c: Ctl, d: Ctl) {
    && d.phase == c.phase && d.obstacleSent == c.obstacleSent && d.dogWasDetected == c.dogWasDetected
    && d.obstaclePending == c.obstaclePending && d.pendingType == c.pendingType && d.noneCnt == c.noneCnt
    && d.turnEnd1 == c.turnEnd1 && d.turnEnd2 == c.turnEnd2 && d.waitStartMs == c.waitStartMs
  }

  // ---------------------------------------------------------------- commands

  /** An order is kept for the next junction, whatever the action beside it; without one the last order stays. */
  lemma OrderIsKept(cfg: Config, c: Ctl, cmd: Command)
    ensures var d := Commanded(cfg, c, cmd);
            && SameJunction(c, d)
            && (if cmd.orient == NoOrient then d.orient == c.orient && d.hasOrient == c.hasOrient else d.orient == cmd.orient && d.hasOrient)
  {
  }

  /** PAUSE stops the car in every state, and changes no count. */
  lemma PauseStops(cfg: Config, c: Ctl, o: Orient, n: int)
    ensures var d := Commanded(cfg, c, Command(Pause, o, n));
            Stands(d) && d.roadNum == c.roadNum && d.roadCount == c.roadCount && d.lastNodeFlag == c.lastNodeFlag
  {
  }

  /** PROCESS sets an IDLE car following, with the mark before forgotten, and does nothing to any other. */
  lemma ProcessStarts(cfg: Config, c: Ctl, o: Orient, n: int)
    ensures var d := Commanded(cfg, c, Command(Process, o, n));
            && d.pwm == c.pwm && d.roadNum == c.roadNum && d.roadCount == c.roadCount
            && (if c.state == Idle then d.state == Follow && d.lastNodeFlag == 0 else d.state == c.state && d.lastNodeFlag == c.lastNodeFlag)
  {
  }

  /** UTURN turns the car on the spot, in every state. */
  lemma UturnSpins(cfg: Config, c: Ctl, o: Orient, n: int)
    ensures var d := Commanded(cfg, c, Command(Uturn, o, n));
            d.state == Turn && Spins(cfg, d.pwm, false) && d.roadNum == c.roadNum && d.roadCount == c.roadCount && d.lastNodeFlag == c.lastNodeFlag
  {
  }

  /** CNT sets the limit and starts counting afresh; neither it, nor CAPTURE, nor a lone order moves the car. */
  lemma CountSets(cfg: Config, c: Ctl, cmd: Command)
    requires cmd.action == SetCount || cmd.action == Capture || cmd.action == NoAction
    ensures var d := Commanded(cfg, c, cmd);
            && d.state == c.state && d.pwm == c.pwm && d.lastNodeFlag == c.lastNodeFlag
            && (if cmd.action == SetCount then d.roadNum == cmd.roadnum && d.roadCount == 0
                else d.roadNum == c.roadNum && d.roadCount == c.roadCount)
  {
  }

  // ---------------------------------------------------------------- decisions at a junction

  /** The wheels and the state that an order leads to. */
  predicate Driven(cfg: Config, o: Orient, c: Ctl, d: Ctl) {
    && (o == GoLeft ==> d.state == Turn && Spins(cfg, d.pwm, true))
    && (o == GoRight || o == TurnAround ==> d.state == Turn && Spins(cfg, d.pwm, false))
    && (o == GoStraight ==> d.state == Follow && d.pwm == c.pwm)
    && (o == HasArrived || o == NoOrient ==> Stands(d))
  }

  lemma OrderDrives(cfg: Config, c: Ctl)
    ensures var d := Dispatched(cfg, c);
            && Driven(cfg, c.orient, c, d) && SameJunction(c, d) && d.hasOrient == c.hasOrient && d.orient == c.orient
            && d.lastNodeFlag == c.lastNodeFlag && d.roadNum == c.roadNum && d.roadCount == c.roadCount
            && d.log == c.log + if c.orient == NoOrient then [InfoSent] else []
  {
  }

  /** A decision on an order that no pending obstacle stands against: it is used up, and a car that goes straight on is past its turn. */
  lemma DecisionDrives(cfg: Config, c: Ctl)
    requires !(c.obstaclePending && c.orient == GoStraight)
    ensures var d := Executed(cfg, c);
            && Driven(cfg, c.orient, c, d) && d.orient == NoOrient && !d.hasOrient && !d.obstaclePending && d.obstacleSent == c.obstacleSent
            && d.phase == (if c.orient == GoStraight then PostTurn else c.phase)
            && (c.orient == GoStraight ==> d.turnEnd1 == 0 && d.turnEnd2 == 0)
            && d.log == c.log + [Decided(c.orient, c.phase, c.roadNum, c.roadCount)] + (if c.orient == NoOrient then [InfoSent] else [])
            && d.roadNum == c.roadNum && d.roadCount == c.roadCount && d.lastNodeFlag == c.lastNodeFlag
  {
    hide Dispatched, ObstacleStopped;
    OrderDrives(cfg, Logged(c, Decided(c.orient, c.phase, c.roadNum, c.roadCount)).(obstaclePending := false));
  }

  /** Straight on into a pending obstacle is not driven: the car stands, and has reported it. */
  lemma DecisionStops(cfg: Config, c: Ctl)
    requires c.obstaclePending && c.orient == GoStraight
    ensures var d := Executed(cfg, c);
            && Stands(d) && d.obstacleSent && d.phase == NoJunction && d.orient == NoOrient && !d.hasOrient && !d.obstaclePending
            && d.roadNum == c.roadNum && d.roadCount == c.roadCount && d.lastNodeFlag == c.lastNodeFlag
            && d.log == c.log + [Decided(GoStraight, c.phase, c.roadNum, c.roadCount)] +
                        (if c.obstacleSent then [] else [ObstacleReported(c.pendingType, true, c.phase)])
  {
    hide Dispatched, ObstacleStopped;
    StopReportsOnce(Logged(c, Decided(c.orient, c.phase, c.roadNum, c.roadCount)), c.pendingType, true);
  }

  // ---------------------------------------------------------------- obstacles

  /** Stopping for an obstacle: the junction is forgotten, the obstacle is reported once, and remembered if it may go away. */
  lemma StopReportsOnce(c: Ctl, t: ObstacleType, after: bool)
    ensures var d := ObstacleStopped(c, t, after);
            && Stands(d) && d.phase == NoJunction && !d.hasOrient && !d.obstaclePending && d.obstacleSent
            && d.log == c.log + (if c.obstacleSent then [] else [ObstacleReported(t, after, c.phase)])
            && (d.dogWasDetected <==> c.dogWasDetected || (!c.obstacleSent && (t == Dog || t == Cat || t == People)))
            && d.roadNum == c.roadNum && d.roadCount == c.roadCount && d.noneCnt == c.noneCnt && d.lastNodeFlag == c.lastNodeFlag
  {
  }

  predicate Sees(inp: Input) { inp.obstacle != NoObstacle && inp.obstacle != OtherCar }

  /** Where an obstacle stops a car: following, on a mark before its turn, or on the open road. */
  predicate StopsFor(c: Ctl, inp: Input) { c.state == Follow && (c.phase == NoJunction || (c.phase == Approach && inp.nodeFlag != 0)) }

  /** Where it is only noted for the decision to come. */
  predicate Notes(c: Ctl, inp: Input) { (c.state == Follow && c.phase == Approach && inp.nodeFlag == 0) || c.state == WaitCommand }

  /** An obstacle stops the car, is noted, or is ignored; the first one noted counts. */
  lemma ObstacleLaw(cfg: Config, c: Ctl, inp: Input)
    requires Sees(inp)
    ensures var d := Sensed(cfg, c, inp);
            && d.noneCnt == 0
            && (StopsFor(c, inp) ==> Stands(d) && d.obstacleSent && d.phase == NoJunction)
            && (Notes(c, inp) ==> d.obstaclePending && d.pendingType == (if c.obstaclePending then c.pendingType else inp.obstacle))
            && (!StopsFor(c, inp) ==> d.state == c.state && d.pwm == c.pwm && d.log == c.log && d.phase == c.phase)
            && (!StopsFor(c, inp) && !Notes(c, inp) ==> d.obstaclePending == c.obstaclePending)
  {
  }

  /** On the mark the ARRIVE that is due goes out before the report. */
  lemma ArriveBeforeObstacle(cfg: Config, c: Ctl, inp: Input)
    requires Sees(inp) && c.state == Follow && c.phase == NoJunction && inp.nodeFlag == 1 && c.lastNodeFlag == 0
    ensures var d := Sensed(cfg, c, inp);
            && d.log == c.log + [ArriveSent(NoJunction)] +
                        (if c.obstacleSent then [] else [ObstacleReported(inp.obstacle, Abs(inp.stopCount) >= cfg.passThreshold, Approach)])
            && d.roadCount == c.roadCount + 1
  {
  }

  lemma OtherCarsIgnored(cfg: Config, c: Ctl, inp: Input)
    requires inp.obstacle == OtherCar
    ensures Sensed(cfg, c, inp) == c
  {
  }

  /**
   * A clear frame: the third one in a row, and every later one, lets the next obstacle be reported, and sets a car going that had
   * stopped for a passing one.
   */
  lemma ClearFrame(cfg: Config, c: Ctl, inp: Input)
    requires inp.obstacle == NoObstacle
    ensures var d := Sensed(cfg, c, inp);
            && d.noneCnt == c.noneCnt + 1 && d.phase == c.phase && d.pwm == c.pwm && d.roadNum == c.roadNum && d.roadCount == c.roadCount
            && (c.noneCnt < 2 ==> d.state == c.state && d.log == c.log && d.obstacleSent == c.obstacleSent && d.dogWasDetected == c.dogWasDetected)
            && (c.noneCnt >= 2 ==> !d.obstacleSent && !d.obstaclePending && !d.dogWasDetected)
            && (c.noneCnt >= 2 && c.dogWasDetected ==> d.state == Follow && d.lastNodeFlag == inp.nodeFlag && d.log == c.log + [RepairedSent])
            && (c.noneCnt >= 2 && !c.dogWasDetected ==> d.state == c.state && d.lastNodeFlag == c.lastNodeFlag && d.log == c.log)
  {
  }

  // ---------------------------------------------------------------- driving

  predicate MarkAppears(c: Ctl, inp: Input) { c.phase == NoJunction && inp.nodeFlag == 1 && c.lastNodeFlag == 0 }

  predicate PastCentre(cfg: Config, inp: Input) { inp.pass1 >= cfg.passThreshold + 1 && inp.pass2 >= cfg.passThreshold + 1 }

  /** The stop at the count: it wins over everything else that the cycle could do. */
  lemma FollowStops(cfg: Config, c: Ctl, inp: Input)
    requires c.state == Follow && c.roadNum != 0 && c.roadCount + (if MarkAppears(c, inp) then 1 else 0) > c.roadNum
    ensures var d := Moved(cfg, c, inp);
            && Stands(d) && d.roadCount == 0 && d.roadNum == c.roadNum && d.phase == NoJunction && d.orient == NoOrient && !d.hasOrient
            && !d.obstaclePending && d.lastNodeFlag == c.lastNodeFlag
            && d.log == c.log + (if MarkAppears(c, inp) then [ArriveSent(NoJunction)] else []) + [CountReached(c.roadNum)]
  {
  }

  /** Below the count: a mark that appears begins a junction, with the order for it still to come. */
  lemma FollowCounts(cfg: Config, c: Ctl, inp: Input)
    requires c.state == Follow
    requires c.roadNum == 0 || c.roadCount + (if MarkAppears(c, inp) then 1 else 0) <= c.roadNum
    ensures var d := Moved(cfg, c, inp);
            && d.lastNodeFlag == inp.nodeFlag && d.roadNum == c.roadNum
            && d.roadCount == c.roadCount + (if MarkAppears(c, inp) then 1 else 0)
            && (MarkAppears(c, inp) && !PastCentre(cfg, inp) ==>
                  && d.state == c.state && d.phase == Approach && !d.hasOrient && !d.obstaclePending && d.pwm == inp.steer
                  && d.log == c.log + [ArriveSent(NoJunction)])
            && (!MarkAppears(c, inp) && !(PastCentre(cfg, inp) && c.phase == Approach) ==>
                  d.state == c.state && d.pwm == inp.steer && d.log == c.log && d.hasOrient == c.hasOrient && d.obstaclePending == c.obstaclePending)
  {
    hide Executed, CountStopped, Unlocked;
    var d := c.(pwm := inp.steer);
    var e := if MarkAppears(c, inp) then JunctionEntered(d) else d;
    ExecutedKeeps(cfg, e);
    UnlockedKeeps(cfg, CentrePassed(cfg, e, inp).(lastNodeFlag := inp.nodeFlag), inp);
  }

  lemma ExecutedKeeps(cfg: Config, c: Ctl)
    ensures Executed(cfg, c).roadNum == c.roadNum && Executed(cfg, c).roadCount == c.roadCount && c.log <= Executed(cfg, c).log
  {
    hide Executed;
    if c.obstaclePending && c.orient == GoStraight { DecisionStops(cfg, c); } else { DecisionDrives(cfg, c); }
  }

  lemma UnlockedKeeps(cfg: Config, c: Ctl, inp: Input)
    ensures var d := Unlocked(cfg, c, inp); d == c.(phase := d.phase) && (c.phase != PostTurn ==> d == c)
  {
  }

  /** A decision has been taken: the order is logged and used up, and followed unless a pending obstacle stands against it. */
  predicate Decides(cfg: Config, c: Ctl, d: Ctl) {
    && !d.hasOrient && |d.log| > |c.log| && c.log <= d.log && d.log[|c.log|] == Decided(c.orient, c.phase, c.roadNum, c.roadCount)
    && if c.obstaclePending && c.orient == GoStraight then Stands(d) else Driven(cfg, c.orient, c, d)
  }

  lemma ExecutedDecides(cfg: Config, c: Ctl)
    ensures Decides(cfg, c, Executed(cfg, c))
  {
    hide Executed;
    if c.obstaclePending && c.orient == GoStraight { DecisionStops(cfg, c); } else { DecisionDrives(cfg, c); }
  }

  /** Past the centre with both wheels: the car decides on its order, or stands still until one comes. */
  lemma FollowDecides(cfg: Config, c: Ctl, inp: Input)
    requires c.state == Follow
    requires c.phase == Approach && PastCentre(cfg, inp) && (c.roadNum == 0 || c.roadCount <= c.roadNum)
    ensures var d := Moved(cfg, c, inp);
            && (c.hasOrient ==> Decides(cfg, c.(pwm := inp.steer), d))
            && (!c.hasOrient ==> d.state == WaitCommand && d.pwm == Pwm(0, 0) && d.waitStartMs == inp.nowMs && d.phase == Approach)
  {
    hide Executed, Unlocked;
    var e := c.(pwm := inp.steer);
    ExecutedDecides(cfg, e);
    UnlockedKeeps(cfg, CentrePassed(cfg, e, inp).(lastNodeFlag := inp.nodeFlag), inp);
  }

  /** After a turn the car is blind to marks until it has left this one and both wheels have gone the distance; then, and only then, it sees again. */
  lemma SeesAgainIff(cfg: Config, c: Ctl, inp: Input)
    requires c.state == Follow
    requires c.phase == PostTurn && (c.roadNum == 0 || c.roadCount <= c.roadNum)
    ensures var d, far1, far2 := Moved(cfg, c, inp), Abs(inp.unlock1 - c.turnEnd1), Abs(inp.unlock2 - c.turnEnd2);
            && d.phase == (if inp.nodeFlag == 0 && far1 >= cfg.postTurnDistance && far2 >= cfg.postTurnDistance then NoJunction else PostTurn)
            && d.log == c.log && d.state == c.state && d.pwm == inp.steer
  {
  }

  /** A waiting car acts on the first order, gives up after the timeout of the 32-bit clock, and otherwise does nothing. */
  lemma WaitEndsIff(cfg: Config, c: Ctl, inp: Input)
    requires c.state == WaitCommand
    ensures var d, late := Moved(cfg, c, inp), (inp.nowMs - c.waitStartMs) % 0x1_0000_0000 >= cfg.waitTimeoutMs;
            && (c.hasOrient ==> Decides(cfg, c, d))
            && (!c.hasOrient && late ==> Stands(d) && !d.obstaclePending && d.log == c.log + [InfoSent])
            && (!c.hasOrient && !late ==> d == c)
  {
    hide Executed;
    ExecutedDecides(cfg, c);
  }

  /** A turn goes on until the encoders say that it is done; then the car follows again, blind to the mark that it turned on. */
  lemma TurnEndsIff(cfg: Config, c: Ctl, inp: Input)
    requires c.state == Turn
    ensures var d := Moved(cfg, c, inp);
            && (inp.turnDone ==> d.state == Follow && d.phase == PostTurn && d.turnEnd1 == 0 && d.turnEnd2 == 0 && d.log == c.log && d.pwm == c.pwm)
            && (!inp.turnDone ==> d == c)
  {
  }

  /** An IDLE car does nothing of its own accord. */
  lemma IdleMoves(cfg: Config, c: Ctl, inp: Input)
    requires c.state == Idle
    ensures Moved(cfg, c, inp) == c
  {
  }

  // ---------------------------------------------------------------- whole cycles

  /** The action that steers the car: PAUSE, PROCESS and UTURN do. */
  predicate Steers(a: Action) { a == Pause || a == Process || a == Uturn }

  /** The last steering action of a cycle's commands. */
  function LastSteer(cmds: seq<Command>): Action
    decreases |cmds|
  {
    if cmds == [] then NoAction
    else if Steers(cmds[|cmds| - 1].action) then cmds[|cmds| - 1].action
    else LastSteer(cmds[..|cmds| - 1])
  }

  lemma {:induction false} CommandsSnoc(cfg: Config, c: Ctl, cmds: seq<Command>, cmd: Command)
    ensures AllCommanded(cfg, c, cmds + [cmd]) == Commanded(cfg, AllCommanded(cfg, c, cmds), cmd)
    decreases |cmds|
  {
    hide Commanded;
    if cmds == [] {
      assert [cmd][1..] == [];
      assert AllCommanded(cfg, Commanded(cfg, c, cmd), []) == Commanded(cfg, c, cmd);
    } else {
      assert (cmds + [cmd])[1..] == cmds[1..] + [cmd];
      CommandsSnoc(cfg, Commanded(cfg, c, cmds[0]), cmds[1..], cmd);
    }
  }

  /** The last steering command alone decides whether a car that stood stands, and stops any other. */
  lemma {:induction false} LastCommandStops(cfg: Config, c: Ctl, cmds: seq<Command>)
    requires LastSteer(cmds) == Pause || (LastSteer(cmds) == NoAction && Stands(c))
    ensures Stands(AllCommanded(cfg, c, cmds))
    decreases |cmds|
  {
    hide Commanded;
    if cmds != [] {
      var n := |cmds| - 1;
      var d := AllCommanded(cfg, c, cmds[..n]);
      assert cmds[..n] + [cmds[n]] == cmds;
      CommandsSnoc(cfg, c, cmds[..n], cmds[n]);
      if cmds[n].action == Pause {
        PauseStops(cfg, d, cmds[n].orient, cmds[n].roadnum);
        assert cmds[n] == Command(Pause, cmds[n].orient, cmds[n].roadnum);
      } else {
        LastCommandStops(cfg, c, cmds[..n]);
        CountSets(cfg, d, cmds[n]);
      }
    }
  }

  lemma {:induction false} CommandsSendNothing(cfg: Config, c: Ctl, cmds: seq<Command>)
    ensures c.log <= AllCommanded(cfg, c, cmds).log
    decreases |cmds|
  {
    hide Commanded;
    if cmds != [] {
      CommandLogs(cfg, c, cmds[0]);
      CommandsSendNothing(cfg, Commanded(cfg, c, cmds[0]), cmds[1..]);
    }
  }

  lemma CommandLogs(cfg: Config, c: Ctl, cmd: Command)
    ensures c.log <= Commanded(cfg, c, cmd).log
  {
  }

  /** A standing car that is not set going by REPAIRED still stands after the cycle. */
  lemma StandsThrough(cfg: Config, c: Ctl, inp: Input)
    requires Stands(c) && !(inp.obstacle == NoObstacle && c.noneCnt >= 2 && c.dogWasDetected)
    ensures Stands(Moved(cfg, Sensed(cfg, c, inp), inp))
  {
  }

  lemma RepairedIsLogged(cfg: Config, c: Ctl, inp: Input)
    requires inp.obstacle == NoObstacle && c.noneCnt >= 2 && c.dogWasDetected
    ensures c.log + [RepairedSent] <= Moved(cfg, Sensed(cfg, c, inp), inp).log
  {
    ClearFrame(cfg, c, inp);
    MovedLogs(cfg, Sensed(cfg, c, inp), inp);
  }

  lemma MovedLogs(cfg: Config, c: Ctl, inp: Input)
    ensures c.log <= Moved(cfg, c, inp).log
  {
    hide Executed, Unlocked, Turned;
    ExecutedKeeps(cfg, c);
    FollowedLogs(cfg, c, inp);
    assert c.state == Turn ==> Turned(c, inp).log == c.log by { if c.state == Turn { TurnEndsIff(cfg, c, inp); } }
  }

  lemma FollowedLogs(cfg: Config, c: Ctl, inp: Input)
    ensures c.log <= Followed(cfg, c, inp).log
  {
    hide CentrePassed, Unlocked;
    var d := c.(pwm := inp.steer);
    var e := if MarkAppears(c, inp) then JunctionEntered(d) else d;
    CentreLogs(cfg, e, inp);
    UnlockedKeeps(cfg, CentrePassed(cfg, e, inp).(lastNodeFlag := inp.nodeFlag), inp);
  }

  lemma CentreLogs(cfg: Config, c: Ctl, inp: Input)
    ensures c.log <= CentrePassed(cfg, c, inp).log
  {
    hide Executed;
    ExecutedKeeps(cfg, c);
  }

  /** Cycle i, the one after the first i inputs, sends REPAIRED. */
  predicate Repairs(cfg: Config, c0: Ctl, inps: seq<Input>, i: nat)
    requires i < |inps|
  {
    var before, after := Cycles(cfg, c0, inps[..i]).log, Cycles(cfg, c0, inps[..i + 1]).log;
    exists k :: |before| <= k < |after| && after[k].RepairedSent?
  }

  /** One cycle: told to pause, or standing and told nothing. */
  lemma CycleStands(cfg: Config, c: Ctl, inp: Input)
    requires LastSteer(inp.commands) == Pause || (LastSteer(inp.commands) == NoAction && Stands(c))
    ensures Stands(Cycle(cfg, c, inp)) || exists k :: |c.log| <= k < |Cycle(cfg, c, inp).log| && Cycle(cfg, c, inp).log[k].RepairedSent?
  {
    hide Commanded, Sensed, Moved, LastSteer, Stands;
    var d := AllCommanded(cfg, c, inp.commands);
    LastCommandStops(cfg, c, inp.commands);
    CommandsSendNothing(cfg, c, inp.commands);
    if inp.obstacle == NoObstacle && d.noneCnt >= 2 && d.dogWasDetected {
      RepairedIsLogged(cfg, d, inp);
      assert Cycle(cfg, c, inp).log[|d.log|] == RepairedSent;
    } else {
      StandsThrough(cfg, d, inp);
    }
  }

  /** PAUSE holds in every run: until another steering command comes or REPAIRED is sent, the car stands at the end of every cycle. */
  lemma {:induction false} PausedCarStands(cfg: Config, c0: Ctl, inps: seq<Input>, i: nat, j: nat)
    requires i <= j < |inps| && LastSteer(inps[i].commands) == Pause
    requires forall l :: i < l <= j ==> LastSteer(inps[l].commands) == NoAction
    requires forall l :: i <= l <= j ==> !Repairs(cfg, c0, inps, l)
    ensures Stands(Cycles(cfg, c0, inps[..j + 1]))
    decreases j
  {
    hide Cycle, Stands, LastSteer;
    var c := Cycles(cfg, c0, inps[..j]);
    assert inps[..j + 1][..j] == inps[..j];
    assert Cycles(cfg, c0, inps[..j + 1]) == Cycle(cfg, c, inps[j]);
    if i < j { PausedCarStands(cfg, c0, inps, i, j - 1); }
    assert !Repairs(cfg, c0, inps, j);
    CycleStands(cfg, c, inps[j]);
  }

  /** After a passing obstacle has stopped it, the third clear frame in a row sets the car going, and not an earlier one. */
  lemma GoesOnAtThirdClearFrame(cfg: Config, c: Ctl, f1: Input, f2: Input, f3: Input)
    requires Stands(c) && c.dogWasDetected && c.noneCnt == 0
    requires f1.commands == [] && f2.commands == [] && f3.commands == []
    requires f1.obstacle == NoObstacle && f2.obstacle == NoObstacle && f3.obstacle == NoObstacle
    ensures var c1 := Cycle(cfg, c, f1);
            var c2 := Cycle(cfg, c1, f2);
            && Stands(c1) && Stands(c2) && c2.log == c.log
            && Sensed(cfg, c2, f3).state == Follow && c.log + [RepairedSent] <= Cycle(cfg, c2, f3).log
  {
    hide Moved;
    IdleMoves(cfg, Sensed(cfg, c, f1), f1);
    var c1 := Cycle(cfg, c, f1);
    IdleMoves(cfg, Sensed(cfg, c1, f2), f2);
    RepairedIsLogged(cfg, Cycle(cfg, c1, f2), f3);
  }

  /** A cycle that does not end with PROCESS or UTURN leaves a standing car standing that owes no REPAIRED. */
  lemma CycleKeepsStill(cfg: Config, c: Ctl, inp: Input)
    requires Stands(c) && !c.dogWasDetected && (LastSteer(inp.commands) == NoAction || LastSteer(inp.commands) == Pause)
    ensures Stands(Cycle(cfg, c, inp)) && !Cycle(cfg, c, inp).dogWasDetected
  {
    hide Commanded, Sensed, LastSteer;
    var d := AllCommanded(cfg, c, inp.commands);
    LastCommandStops(cfg, c, inp.commands);
    CommandsOweNothing(cfg, c, inp.commands);
    if Sees(inp) {
      ObstacleLaw(cfg, d, inp);
      IdleOwesNothing(cfg, d, inp);
    } else if inp.obstacle == NoObstacle {
      ClearFrame(cfg, d, inp);
    } else {
      OtherCarsIgnored(cfg, d, inp);
    }
  }

  lemma {:induction false} CommandsOweNothing(cfg: Config, c: Ctl, cmds: seq<Command>)
    ensures AllCommanded(cfg, c, cmds).dogWasDetected == c.dogWasDetected
    decreases |cmds|
  {
    hide Commanded;
    if cmds != [] {
      OrderIsKept(cfg, c, cmds[0]);
      CommandsOweNothing(cfg, Commanded(cfg, c, cmds[0]), cmds[1..]);
    }
  }

  lemma IdleOwesNothing(cfg: Config, c: Ctl, inp: Input)
    requires c.state == Idle && Sees(inp)
    ensures Sensed(cfg, c, inp).dogWasDetected == c.dogWasDetected
  {
  }

  /** From power-on the car stands until a PROCESS or UTURN sets it going, whatever its camera and its master say otherwise. */
  lemma {:induction false} StandsUntilSetGoing(cfg: Config, inps: seq<Input>)
    requires forall l :: 0 <= l < |inps| ==> LastSteer(inps[l].commands) == NoAction || LastSteer(inps[l].commands) == Pause
    ensures Stands(Cycles(cfg, Initial(), inps)) && !Cycles(cfg, Initial(), inps).dogWasDetected
    decreases |inps|
  {
    hide Cycle, LastSteer;
    if inps != [] {
      StandsUntilSetGoing(cfg, inps[..|inps| - 1]);
      CycleKeepsStill(cfg, Cycles(cfg, Initial(), inps[..|inps| - 1]), inps[|inps| - 1]);
    }
  }

  /** The first obstacle that it meets on the open road stops it, and is reported. */
  lemma FirstObstacleIsReported(cfg: Config, inp: Input)
    requires inp.commands == [Command(Process, NoOrient, 0)] && Sees(inp) && inp.nodeFlag == 0
    ensures var c := Cycle(cfg, Initial(), inp); Stands(c) && c.log == [ObstacleReported(inp.obstacle, false, NoJunction)]
  {
    hide Commanded, Sensed, ObstacleStopped;
    var cmd := Command(Process, NoOrient, 0);
    assert [cmd][1..] == [];
    var c := Commanded(cfg, Initial(), cmd);
    assert AllCommanded(cfg, c, []) == c;
    ProcessStarts(cfg, Initial(), NoOrient, 0);
    OrderIsKept(cfg, Initial(), cmd);
    CommandQuiet(cfg, Initial(), cmd);
    OpenRoadStop(cfg, c, inp);
    IdleMoves(cfg, Sensed(cfg, c, inp), inp);
  }

  lemma CommandQuiet(cfg: Config, c: Ctl, cmd: Command)
    requires cmd.action != SetCount && cmd.orient == NoOrient
    ensures Commanded(cfg, c, cmd).log == c.log
  {
  }

  lemma OpenRoadStop(cfg: Config, c: Ctl, inp: Input)
    requires Sees(inp) && c.state == Follow && c.phase == NoJunction && inp.nodeFlag == 0 && !c.obstacleSent
    ensures var d := Sensed(cfg, c, inp); Stands(d) && d.log == c.log + [ObstacleReported(inp.obstacle, false, NoJunction)]
  {
    hide ObstacleStopped;
    StopReportsOnce(c.(noneCnt := 0), inp.obstacle, false);
  }
}
