/** One cycle of the car's ControlTask, as functions on its context, the motor outputs and a log of what it sent and decided. */
module Control {
  datatype CarState = Idle | Follow | Turn | WaitCommand
  datatype JunctionPhase = NoJunction | Approach | PostTurn
  datatype Orient = NoOrient | GoStraight | GoLeft | GoRight | HasArrived | TurnAround

  /** The label of a vision frame; Thing covers every other string, the empty one of the initial frame included. */
  datatype ObstacleType = NoObstacle | OtherCar | Dog | Cat | People | Thing(name: string)

  datatype Command = Command(action: Action, orient: Orient, roadnum: int)
  datatype Action = NoAction | Pause | Process | Uturn | SetCount | Capture

  datatype Pwm = Pwm(duty3: int, duty4: int)
  const STOPPED: Pwm := Pwm(0, 0)

  /** Positive constants of config.h. */
  datatype Config = Config(passThreshold: nat, postTurnDistance: nat, waitTimeoutMs: nat, turnDiffPwm: int)

  /** What one cycle reads: queued commands, the latest frame, encoder counts at each place that reads them, clock, steering. */
  datatype Input = Input(commands: seq<Command>, nodeFlag: int, obstacle: ObstacleType, steer: Pwm, stopCount: int,
                         pass1: int, pass2: int, unlock1: int, unlock2: int, turnDone: bool, nowMs: nat)

  /** `seenIn` is the junction phase in which the event was noticed. */
  datatype Entry =
    | ArriveSent(seenIn: JunctionPhase)
    | ObstacleReported(thing: ObstacleType, afterThreshold: bool, seenIn: JunctionPhase)
    | RepairedSent
    | InfoSent
    | OrientReceived(orient: Orient)
    | CountReceived(roadnum: int)
    | Decided(decided: Orient, inPhase: JunctionPhase, roadNum: int, roadCount: int)
    | CountReached(limit: int)

  datatype Ctl = Ctl(state: CarState, orient: Orient, roadNum: int, roadCount: int, lastNodeFlag: int, phase: JunctionPhase,
                     hasOrient: bool, obstacleSent: bool, dogWasDetected: bool, obstaclePending: bool, pendingType: ObstacleType,
                     turnEnd1: int, turnEnd2: int, waitStartMs: nat, noneCnt: nat, pwm: Pwm, log: seq<Entry>)

  /** `ControlCtx_t ctx = {}`, with the motors as drive_init leaves them. */
  function Initial(): Ctl {
    Ctl(Idle, NoOrient, 0, 0, 0, NoJunction, false, false, false, false, Thing(""), 0, 0, 0, 0, STOPPED, [])
  }

  function Logged(c: Ctl, e: Entry): Ctl { c.(log := c.log + [e]) }

  function Abs(x: int): nat { if x < 0 then -x else x }

  predicate Temporary(t: ObstacleType) { t == Dog || t == Cat || t == People }

  /** dispatchOrient, and the assignment of its result to ctx.state */
  function Dispatched(cfg: Config, c: Ctl): Ctl {
    match c.orient
    case GoLeft => c.(pwm := Pwm(cfg.turnDiffPwm, -cfg.turnDiffPwm), state := Turn)
    case GoRight => c.(pwm := Pwm(-cfg.turnDiffPwm, cfg.turnDiffPwm), state := Turn)
    case TurnAround => c.(pwm := Pwm(-cfg.turnDiffPwm, cfg.turnDiffPwm), state := Turn)
    case GoStraight => c.(state := Follow)
    case HasArrived => c.(pwm := STOPPED, state := Idle)
    case NoOrient => Logged(c.(pwm := STOPPED, state := Idle), InfoSent)
  }

  function JunctionReset(c: Ctl): Ctl { c.(phase := NoJunction, hasOrient := false, obstaclePending := false) }

  /** handleObstacleStop */
  function ObstacleStopped(c: Ctl, t: ObstacleType, afterThreshold: bool): Ctl {
    var reported :=
      if c.obstacleSent then c
      else Logged(c.(obstacleSent := true, dogWasDetected := c.dogWasDetected || Temporary(t)),
                  ObstacleReported(t, afterThreshold, c.phase));
    JunctionReset(reported.(pwm := STOPPED, state := Idle))
  }

  /** executeOrientDecision */
  function Executed(cfg: Config, c: Ctl): Ctl {
    var d := Logged(c, Decided(c.orient, c.phase, c.roadNum, c.roadCount));
    if d.obstaclePending && d.orient == GoStraight then
      ObstacleStopped(d, d.pendingType, true).(orient := NoOrient, hasOrient := false, obstaclePending := false)
    else
      var e := Dispatched(cfg, d.(obstaclePending := false)).(orient := NoOrient, hasOrient := false);
      if e.state == Follow then e.(turnEnd1 := 0, turnEnd2 := 0, phase := PostTurn) else e
  }

  function Commanded(cfg: Config, c: Ctl, cmd: Command): Ctl {
    var o := if cmd.orient == NoOrient then c else Logged(c.(orient := cmd.orient, hasOrient := true), OrientReceived(cmd.orient));
    match cmd.action
    case Pause => o.(pwm := STOPPED, state := Idle)
    case Process => if o.state == Idle then o.(state := Follow, lastNodeFlag := 0) else o
    case Uturn => o.(pwm := Pwm(-cfg.turnDiffPwm, cfg.turnDiffPwm), state := Turn)
    case SetCount => Logged(o.(roadNum := cmd.roadnum, roadCount := 0), CountReceived(cmd.roadnum))
    case _ => o
  }

  function AllCommanded(cfg: Config, c: Ctl, cmds: seq<Command>): Ctl
    decreases |cmds|
  {
    if cmds == [] then c else AllCommanded(cfg, Commanded(cfg, c, cmds[0]), cmds[1..])
  }

  /** The rising edge of the junction mark. */
  function JunctionEntered(c: Ctl): Ctl {
    Logged(c.(phase := Approach, hasOrient := false, obstaclePending := false, roadCount := c.roadCount + 1), ArriveSent(c.phase))
  }

  /** The layered obstacle check. */
  function Sensed(cfg: Config, c: Ctl, inp: Input): Ctl {
    match inp.obstacle
    case OtherCar => c
    case NoObstacle =>
      var d := c.(noneCnt := c.noneCnt + 1);
      if d.noneCnt < 3 then d
      else
        var e :=
          if d.dogWasDetected
          then Logged(d.(dogWasDetected := false, lastNodeFlag := inp.nodeFlag, state := Follow), RepairedSent) else d;
        e.(obstacleSent := false, obstaclePending := false)
    case _ =>
      var d := c.(noneCnt := 0);
      if d.state == Follow && inp.nodeFlag == 1 && d.phase != PostTurn then
        var e := if d.phase == NoJunction && d.lastNodeFlag == 0 then JunctionEntered(d) else d;
        ObstacleStopped(e, inp.obstacle, Abs(inp.stopCount) >= cfg.passThreshold)
      else if (d.state == Follow && d.phase == Approach && inp.nodeFlag == 0) || d.state == WaitCommand then
        if d.obstaclePending then d else d.(obstaclePending := true, pendingType := inp.obstacle)
      else if d.state == Follow && d.phase != PostTurn then
        ObstacleStopped(d, inp.obstacle, false)
      else d
  }

  function Unlocked(cfg: Config, c: Ctl, inp: Input): Ctl {
    if c.phase == PostTurn && inp.nodeFlag == 0
       && Abs(inp.unlock1 - c.turnEnd1) >= cfg.postTurnDistance && Abs(inp.unlock2 - c.turnEnd2) >= cfg.postTurnDistance
    then c.(phase := NoJunction) else c
  }

  predicate CountIsReached(c: Ctl) { c.roadNum != 0 && c.roadCount >= c.roadNum + 1 }

  function CountStopped(c: Ctl): Ctl {
    Logged(JunctionReset(c.(pwm := STOPPED, state := Idle, roadCount := 0, orient := NoOrient)), CountReached(c.roadNum))
  }

  /** Past the centre of the junction: decide, or wait for the order. */
  function CentrePassed(cfg: Config, c: Ctl, inp: Input): Ctl {
    if inp.pass1 > cfg.passThreshold && inp.pass2 > cfg.passThreshold && c.phase == Approach then
      if c.hasOrient then Executed(cfg, c)
      else Logged(c.(pwm := STOPPED, waitStartMs := inp.nowMs, state := WaitCommand), InfoSent)
    else c
  }

  function Followed(cfg: Config, c: Ctl, inp: Input): Ctl {
    var d := c.(pwm := inp.steer);
    var e := if d.phase == NoJunction && inp.nodeFlag == 1 && d.lastNodeFlag == 0 then JunctionEntered(d) else d;
    if CountIsReached(e) then CountStopped(e)
    else Unlocked(cfg, CentrePassed(cfg, e, inp).(lastNodeFlag := inp.nodeFlag), inp)
  }

  /** The clock is a uint32_t, and so is the difference. */
  function Waited(cfg: Config, c: Ctl, inp: Input): Ctl {
    if c.hasOrient then Executed(cfg, c)
    else if (inp.nowMs - c.waitStartMs) % 0x1_0000_0000 >= cfg.waitTimeoutMs then
      Logged(c.(pwm := STOPPED, state := Idle, obstaclePending := false), InfoSent)
    else c
  }

  function Turned(c: Ctl, inp: Input): Ctl {
    if inp.turnDone then c.(state := Follow, turnEnd1 := 0, turnEnd2 := 0, phase := PostTurn) else c
  }

  function Moved(cfg: Config, c: Ctl, inp: Input): Ctl {
    match c.state
    case Idle => c
    case Follow => Followed(cfg, c, inp)
    case WaitCommand => Waited(cfg, c, inp)
    case Turn => Turned(c, inp)
  }

  /** One turn of the loop in ControlTask. */
  function Cycle(cfg: Config, c: Ctl, inp: Input): Ctl {
    Moved(cfg, Sensed(cfg, AllCommanded(cfg, c, inp.commands), inp), inp)
  }

  function Cycles(cfg: Config, c: Ctl, inps: seq<Input>): Ctl
    decreases |inps|
  {
    if inps == [] then c else Cycle(cfg, Cycles(cfg, c, inps[..|inps| - 1]), inps[|inps| - 1])
  }

  // ---------------------------------------------------------------- ControlTask with its state

  /** ControlTask: `ctx` is its context with the motor outputs and the log; each method is proved to be its function above. */
  class ControlTask {
    const cfg: Config
    var ctx: Ctl

    constructor (cfg: Config)
      ensures ctx == Initial() && this.cfg == cfg
    {
      this.cfg := cfg;
      ctx := Initial();
    }

    method Send(e: Entry)
      modifies this
      ensures ctx == Logged(old(ctx), e)
    {
      ctx := ctx.(log := ctx.log + [e]);
    }

    method DispatchOrient() returns (next: CarState)
      modifies this
      ensures ctx.(state := next) == Dispatched(cfg, old(ctx))
    {
      match ctx.orient {
        case GoLeft => ctx := ctx.(pwm := Pwm(cfg.turnDiffPwm, -cfg.turnDiffPwm)); return Turn;
        case GoRight => ctx := ctx.(pwm := Pwm(-cfg.turnDiffPwm, cfg.turnDiffPwm)); return Turn;
        case TurnAround => ctx := ctx.(pwm := Pwm(-cfg.turnDiffPwm, cfg.turnDiffPwm)); return Turn;
        case GoStraight => return Follow;
        case HasArrived => ctx := ctx.(pwm := STOPPED); return Idle;
        case NoOrient => ctx := ctx.(pwm := STOPPED); Send(InfoSent); return Idle;
      }
    }

    method ResetJunctionCtx()
      modifies this
      ensures ctx == JunctionReset(old(ctx))
    {
      ctx := ctx.(phase := NoJunction, hasOrient := false, obstaclePending := false);
    }

    method HandleObstacleStop(t: ObstacleType, afterThreshold: bool)
      modifies this
      ensures ctx == ObstacleStopped(old(ctx), t, afterThreshold)
    {
      if !ctx.obstacleSent {
        ctx := ctx.(obstacleSent := true);
        Send(ObstacleReported(t, afterThreshold, ctx.phase));
        if Temporary(t) { ctx := ctx.(dogWasDetected := true); }
      }
      ctx := ctx.(pwm := STOPPED, state := Idle);
      ResetJunctionCtx();
      if ctx.dogWasDetected {
        ctx := ctx.(pwm := Pwm(-30, -30));
        ctx := ctx.(pwm := STOPPED);
      }
    }

    method ExecuteOrientDecision()
      modifies this
      ensures ctx == Executed(cfg, old(ctx))
    {
      Send(Decided(ctx.orient, ctx.phase, ctx.roadNum, ctx.roadCount));
      if ctx.obstaclePending {
        if ctx.orient == GoStraight {
          HandleObstacleStop(ctx.pendingType, true);
          ctx := ctx.(orient := NoOrient, hasOrient := false, obstaclePending := false);
          return;
        }
        ctx := ctx.(obstaclePending := false);
      }
      var next := DispatchOrient();
      ctx := ctx.(state := next, orient := NoOrient, hasOrient := false);
      if ctx.state == Follow {
        ctx := ctx.(turnEnd1 := 0, turnEnd2 := 0, phase := PostTurn);
      }
    }

    method HandleCommand(cmd: Command)
      modifies this
      ensures ctx == Commanded(cfg, old(ctx), cmd)
    {
      if cmd.orient != NoOrient {
        ctx := ctx.(orient := cmd.orient, hasOrient := true);
        Send(OrientReceived(cmd.orient));
      }
      match cmd.action {
        case Pause =>
          ctx := ctx.(pwm := STOPPED, state := Idle);
        case Process =>
          if ctx.state == Idle {
            ctx := ctx.(state := Follow, lastNodeFlag := 0);
          }
        case Uturn =>
          ctx := ctx.(pwm := Pwm(-cfg.turnDiffPwm, cfg.turnDiffPwm), state := Turn);
        case SetCount =>
          ctx := ctx.(roadNum := cmd.roadnum, roadCount := 0);
          Send(CountReceived(cmd.roadnum));
        case _ =>
      }
    }

    /** The loop that empties the command queue. */
    method DrainCommands(queue: seq<Command>)
      modifies this
      ensures ctx == AllCommanded(cfg, old(ctx), queue)
    {
      assert queue[0..] == queue;
      for i := 0 to |queue|
        invariant AllCommanded(cfg, ctx, queue[i..]) == AllCommanded(cfg, old(ctx), queue)
      {
        assert queue[i..][1..] == queue[i + 1..];
        HandleCommand(queue[i]);
      }
    }

    method EnterJunction()
      modifies this
      ensures ctx == JunctionEntered(old(ctx))
    {
      Send(ArriveSent(ctx.phase));
      ctx := ctx.(phase := Approach, hasOrient := false, obstaclePending := false);
      ctx := ctx.(roadCount := ctx.roadCount + 1);
    }

    method SenseObstacle(inp: Input)
      modifies this
      ensures ctx == Sensed(cfg, old(ctx), inp)
    {
      if inp.obstacle != NoObstacle && inp.obstacle != OtherCar {
        ctx := ctx.(noneCnt := 0);
        if ctx.state == Follow && inp.nodeFlag == 1 && ctx.phase != PostTurn {
          if ctx.phase == NoJunction && ctx.lastNodeFlag == 0 { EnterJunction(); }
          HandleObstacleStop(inp.obstacle, Abs(inp.stopCount) >= cfg.passThreshold);
        } else if (ctx.state == Follow && ctx.phase == Approach && inp.nodeFlag == 0) || ctx.state == WaitCommand {
          if !ctx.obstaclePending {
            ctx := ctx.(obstaclePending := true, pendingType := inp.obstacle);
          }
        } else if ctx.state == Follow && ctx.phase != PostTurn {
          HandleObstacleStop(inp.obstacle, false);
        }
      } else if inp.obstacle == NoObstacle {
        ctx := ctx.(noneCnt := ctx.noneCnt + 1);
        if ctx.noneCnt >= 3 {
          if ctx.dogWasDetected {
            ctx := ctx.(dogWasDetected := false);
            Send(RepairedSent);
            ctx := ctx.(lastNodeFlag := inp.nodeFlag, state := Follow);
          }
          ctx := ctx.(obstacleSent := false, obstaclePending := false);
        }
      }
    }

    method StopAtCount()
      modifies this
      ensures ctx == CountStopped(old(ctx))
    {
      ctx := ctx.(pwm := STOPPED, state := Idle, roadCount := 0, orient := NoOrient);
      ResetJunctionCtx();
      Send(CountReached(ctx.roadNum));
    }

    /** The FOLLOW case. */
    method DriveFollow(inp: Input)
      modifies this
      ensures ctx == Followed(cfg, old(ctx), inp)
    {
      ctx := ctx.(pwm := inp.steer);
      if ctx.phase == NoJunction && inp.nodeFlag == 1 && ctx.lastNodeFlag == 0 { EnterJunction(); }
      if ctx.roadNum != 0 && ctx.roadCount >= ctx.roadNum + 1 {
        StopAtCount();
        return;
      }
      PassCentre(inp);
      ctx := ctx.(lastNodeFlag := inp.nodeFlag);
      if ctx.phase == PostTurn && inp.nodeFlag == 0 {
        var d1, d2 := Abs(inp.unlock1 - ctx.turnEnd1), Abs(inp.unlock2 - ctx.turnEnd2);
        if d1 >= cfg.postTurnDistance && d2 >= cfg.postTurnDistance { ctx := ctx.(phase := NoJunction); }
      }
    }

    method PassCentre(inp: Input)
      modifies this
      ensures ctx == CentrePassed(cfg, old(ctx), inp)
    {
      if inp.pass1 > cfg.passThreshold && inp.pass2 > cfg.passThreshold && ctx.phase == Approach {
        if ctx.hasOrient {
          ExecuteOrientDecision();
        } else {
          ctx := ctx.(pwm := STOPPED, waitStartMs := inp.nowMs, state := WaitCommand);
          Send(InfoSent);
        }
      }
    }

    /** The WAIT_COMMAND case. */
    method WaitForOrient(inp: Input)
      modifies this
      ensures ctx == Waited(cfg, old(ctx), inp)
    {
      if ctx.hasOrient {
        ExecuteOrientDecision();
      } else if (inp.nowMs - ctx.waitStartMs) % 0x1_0000_0000 >= cfg.waitTimeoutMs {
        ctx := ctx.(pwm := STOPPED, state := Idle, obstaclePending := false);
        Send(InfoSent);
      }
    }

    method RunCycle(inp: Input)
      modifies this
      ensures ctx == Cycle(cfg, old(ctx), inp)
    {
      DrainCommands(inp.commands);
      SenseObstacle(inp);
      match ctx.state {
        case Idle =>
        case Follow => DriveFollow(inp);
        case WaitCommand => WaitForOrient(inp);
        case Turn =>
          if inp.turnDone {
            ctx := ctx.(state := Follow, turnEnd1 := 0, turnEnd2 := 0, phase := PostTurn);
          }
      }
    }
  }
}
