/** The car's own junction counter and the router's progress along the path agree on where the plan ends. */
module Agreement {
  import opened Layout
  import opened MapInit
  import opened RoadNetwork
  import opened Dispatch
  import opened CarRecords
  import opened RoadStatus
  import opened DispatchRuns
  import AStar
  import G = Geometry
  import C = Control

  type Log = seq<C.Entry>

  // ---------------------------------------------------------------- the car

  predicate Clear(inp: C.Input) { inp.obstacle == C.NoObstacle || inp.obstacle == C.OtherCar }

  predicate NoCount(commands: seq<C.Command>) { forall i :: 0 <= i < |commands| ==> !commands[i].action.SetCount? }

  predicate Edge(c: C.Ctl, inp: C.Input) { c.phase == C.NoJunction && inp.nodeFlag == 1 && c.lastNodeFlag == 0 }

  /** The frame makes REPAIRED due, which also puts the flag of the mark before up to date. */
  predicate Repairs(c: C.Ctl, inp: C.Input) { inp.obstacle == C.NoObstacle && c.noneCnt >= 2 && c.dogWasDetected }

  /** The commands of the cycle leave the car following, and the mark in the frame counts as a new junction. */
  predicate Recounts(cfg: C.Config, c: C.Ctl, inp: C.Input) {
    var d := C.AllCommanded(cfg, c, inp.commands);
    d.state == C.Follow && Edge(d, inp) && !Repairs(d, inp)
  }

  /**
   * What may reach the car between CNT k and its stop: anything but another CNT, and, once ARRIVE number k + 1 is out and the
   * stop is due, nothing that makes it count a mark. A quiet car sees no obstacle either.
   */
  predicate Allowed(cfg: C.Config, k: nat, c: C.Ctl, inp: C.Input, quiet: bool) {
    NoCount(inp.commands) && (quiet ==> Clear(inp)) && (c.roadCount > k ==> !Recounts(cfg, c, inp))
  }

  predicate Counts(e: C.Entry) { e.ArriveSent? || e.CountReceived? || e.CountReached? }

  /** How many ARRIVEs a stretch of the log holds. */
  ghost function Arrives(log: Log): nat
    decreases |log|
  {
    if log == [] then 0 else Arrives(log[..|log| - 1]) + if log[|log| - 1].ArriveSent? then 1 else 0
  }

  ghost predicate NoStop(log: Log) { forall i :: 0 <= i < |log| ==> !log[i].CountReached? }

  lemma ArrivesSnoc(log: Log, e: C.Entry)
    ensures Arrives(log + [e]) == Arrives(log) + if e.ArriveSent? then 1 else 0
  {
    assert (log + [e])[..|log|] == log;
  }

  /** CNT k is in force, the car has not stopped since, and its counter is the number of ARRIVEs that it has sent since. */
  ghost predicate Underway(start: Log, news: Log, k: nat, c: C.Ctl) {
    c.log == start + news && NoStop(news) && c.roadNum == k && c.roadCount == Arrives(news)
  }

  /** An obstacle on the mark of junction k + 1 has halted the car before it could check its count; it will when it drives on. */
  predicate StopDue(k: nat, c: C.Ctl) {
    c.roadCount == k + 1 && (c.state == C.Idle || c.state == C.Turn || (c.state == C.Follow && c.phase == C.PostTurn))
  }

  /** Between cycles. */
  ghost predicate Running(start: Log, news: Log, k: nat, c: C.Ctl, quiet: bool) {
    Underway(start, news, k, c) && (c.roadCount <= k || (!quiet && StopDue(k, c)))
  }

  /** The car has got from c to d without stopping. */
  ghost predicate Goes(start: Log, news: Log, k: nat, c: C.Ctl, d: C.Ctl, quiet: bool) {
    Running(start, news, k, d, quiet) && d.roadCount >= c.roadCount
  }

  /** While the commands are taken. */
  ghost predicate Sensing(start: Log, news: Log, k: nat, c: C.Ctl, quiet: bool) {
    Underway(start, news, k, c) && (c.roadCount <= k || (!quiet && c.roadCount == k + 1 && c.state != C.WaitCommand))
  }

  /** What a frame must not do once the stop is due. */
  predicate Passes(k: nat, c: C.Ctl, inp: C.Input) { c.roadCount > k && c.state == C.Follow && Edge(c, inp) ==> Repairs(c, inp) }

  /** Once obstacles have been looked at. */
  ghost predicate Moving(start: Log, news: Log, k: nat, c: C.Ctl, inp: C.Input, quiet: bool) {
    && Underway(start, news, k, c)
    && (c.roadCount <= k ||
        (!quiet && c.roadCount == k + 1 && (c.state == C.Idle || c.state == C.Turn || (c.state == C.Follow && !Edge(c, inp)))))
  }

  /** The car has just stopped at its count, k + 1 ARRIVEs after CNT; a quiet car has just sent the last of them. */
  ghost predicate JustStopped(start: Log, news: Log, k: nat, c: C.Ctl, quiet: bool) {
    && c.log == start + (news + [C.CountReached(k)]) && NoStop(news) && Arrives(news) == k + 1
    && c.state == C.Idle && c.pwm == C.STOPPED
    && (quiet ==> news != [] && news[|news| - 1] == C.ArriveSent(C.NoJunction))
  }

  /** Logging something that does not count. */
  lemma LogsOn(start: Log, news: Log, k: nat, c: C.Ctl, d: C.Ctl, e: C.Entry) returns (more: Log)
    requires Underway(start, news, k, c) && !Counts(e) && d.log == c.log + [e] && d.roadNum == c.roadNum && d.roadCount == c.roadCount
    ensures Underway(start, more, k, d) && more == news + [e]
  {
    more := news + [e];
    ArrivesSnoc(news, e);
    assert start + news + [e] == start + more;
  }

  /** Sending ARRIVE. */
  lemma Enters(start: Log, news: Log, k: nat, c: C.Ctl) returns (more: Log)
    requires Underway(start, news, k, c) && c.phase == C.NoJunction
    ensures Underway(start, more, k, C.JunctionEntered(c)) && more == news + [C.ArriveSent(C.NoJunction)]
  {
    more := news + [C.ArriveSent(C.NoJunction)];
    ArrivesSnoc(news, C.ArriveSent(C.NoJunction));
    assert start + news + [C.ArriveSent(C.NoJunction)] == start + more;
  }

  // ---------------------------------------------------------------- commands

  lemma CommandRuns(cfg: C.Config, start: Log, news: Log, k: nat, c: C.Ctl, cmd: C.Command, quiet: bool) returns (more: Log)
    requires Sensing(start, news, k, c, quiet) && !cmd.action.SetCount?
    ensures Sensing(start, more, k, C.Commanded(cfg, c, cmd), quiet) && C.Commanded(cfg, c, cmd).roadCount == c.roadCount
  {
    hide NoStop, Arrives;
    if cmd.orient == C.NoOrient {
      more := news;
    } else {
      more := LogsOn(start, news, k, c, C.Commanded(cfg, c, cmd), C.OrientReceived(cmd.orient));
    }
  }

  lemma {:induction false} CommandsRun(cfg: C.Config, start: Log, news: Log, k: nat, c: C.Ctl, cmds: seq<C.Command>, quiet: bool)
      returns (more: Log)
    requires Sensing(start, news, k, c, quiet) && NoCount(cmds)
    ensures Sensing(start, more, k, C.AllCommanded(cfg, c, cmds), quiet) && C.AllCommanded(cfg, c, cmds).roadCount == c.roadCount
    decreases |cmds|
  {
    hide Sensing, C.Commanded;
    if cmds == [] {
      more := news;
    } else {
      more := CommandRuns(cfg, start, news, k, c, cmds[0], quiet);
      more := CommandsRun(cfg, start, more, k, C.Commanded(cfg, c, cmds[0]), cmds[1..], quiet);
    }
  }

  // ---------------------------------------------------------------- obstacles

  lemma StopRuns(start: Log, news: Log, k: nat, c: C.Ctl, t: C.ObstacleType, after: bool) returns (more: Log)
    requires Underway(start, news, k, c)
    ensures var d := C.ObstacleStopped(c, t, after); Underway(start, more, k, d) && d.state == C.Idle && d.roadCount == c.roadCount
  {
    if c.obstacleSent {
      more := news;
    } else {
      more := LogsOn(start, news, k, c, C.ObstacleStopped(c, t, after), C.ObstacleReported(t, after, c.phase));
    }
  }

  lemma ClearRuns(cfg: C.Config, start: Log, news: Log, k: nat, c: C.Ctl, inp: C.Input, quiet: bool) returns (more: Log)
    requires Sensing(start, news, k, c, quiet) && Clear(inp) && Passes(k, c, inp)
    ensures Moving(start, more, k, C.Sensed(cfg, c, inp), inp, quiet) && C.Sensed(cfg, c, inp).roadCount == c.roadCount
  {
    if inp.obstacle == C.NoObstacle && c.noneCnt + 1 >= 3 && c.dogWasDetected {
      more := LogsOn(start, news, k, c, C.Sensed(cfg, c, inp), C.RepairedSent);
    } else {
      more := news;
    }
  }

  /** An obstacle on the mark: the ARRIVE that is due goes out, and the car halts. */
  lemma MarkRuns(start: Log, news: Log, k: nat, c: C.Ctl, t: C.ObstacleType, after: bool) returns (more: Log)
    requires Underway(start, news, k, c) && (c.phase == C.NoJunction && c.lastNodeFlag == 0 ==> c.roadCount <= k)
    ensures var e := if c.phase == C.NoJunction && c.lastNodeFlag == 0 then C.JunctionEntered(c) else c;
            var d := C.ObstacleStopped(e, t, after);
            && Underway(start, more, k, d) && d.state == C.Idle
            && c.roadCount <= d.roadCount && (d.roadCount <= k + 1 || d.roadCount == c.roadCount)
  {
    hide Underway, C.ObstacleStopped;
    if c.phase == C.NoJunction && c.lastNodeFlag == 0 {
      more := Enters(start, news, k, c);
      more := StopRuns(start, more, k, C.JunctionEntered(c), t, after);
    } else {
      more := StopRuns(start, news, k, c, t, after);
    }
  }

  lemma ObstacleRuns(cfg: C.Config, start: Log, news: Log, k: nat, c: C.Ctl, inp: C.Input) returns (more: Log)
    requires Sensing(start, news, k, c, false) && !Clear(inp) && Passes(k, c, inp)
    ensures Moving(start, more, k, C.Sensed(cfg, c, inp), inp, false) && C.Sensed(cfg, c, inp).roadCount >= c.roadCount
  {
    hide NoStop, C.ObstacleStopped, C.JunctionEntered;
    var d := c.(noneCnt := 0);
    assert Underway(start, news, k, d);
    more := news;
    if d.state == C.Follow && inp.nodeFlag == 1 && d.phase != C.PostTurn {
      more := MarkRuns(start, news, k, d, inp.obstacle, C.Abs(inp.stopCount) >= cfg.passThreshold);
    } else if (d.state == C.Follow && d.phase == C.Approach && inp.nodeFlag == 0) || d.state == C.WaitCommand {
    } else if d.state == C.Follow && d.phase != C.PostTurn {
      more := StopRuns(start, news, k, d, inp.obstacle, false);
    }
  }

  // ---------------------------------------------------------------- driving

  lemma DispatchedRuns(cfg: C.Config, start: Log, news: Log, k: nat, c: C.Ctl) returns (more: Log)
    requires Underway(start, news, k, c)
    ensures Underway(start, more, k, C.Dispatched(cfg, c))
  {
    if c.orient == C.NoOrient {
      more := LogsOn(start, news, k, c, C.Dispatched(cfg, c), C.InfoSent);
    } else {
      more := news;
    }
  }

  lemma DecisionRuns(cfg: C.Config, start: Log, news: Log, k: nat, c: C.Ctl) returns (more: Log)
    requires Underway(start, news, k, c)
    ensures Underway(start, more, k, C.Executed(cfg, c))
  {
    hide NoStop, C.Dispatched, C.ObstacleStopped;
    var d := C.Logged(c, C.Decided(c.orient, c.phase, c.roadNum, c.roadCount));
    more := LogsOn(start, news, k, c, d, C.Decided(c.orient, c.phase, c.roadNum, c.roadCount));
    if d.obstaclePending && d.orient == C.GoStraight {
      more := StopRuns(start, more, k, d, d.pendingType, true);
    } else {
      more := DispatchedRuns(cfg, start, more, k, d.(obstaclePending := false));
    }
  }

  lemma SameCounts(cfg: C.Config, c: C.Ctl, inp: C.Input)
    ensures C.Executed(cfg, c).roadCount == c.roadCount && C.CentrePassed(cfg, c, inp).roadCount == c.roadCount
  {
  }

  lemma CentreRuns(cfg: C.Config, start: Log, news: Log, k: nat, c: C.Ctl, inp: C.Input) returns (more: Log)
    requires Underway(start, news, k, c)
    ensures Underway(start, more, k, C.CentrePassed(cfg, c, inp))
  {
    hide C.Executed;
    if inp.pass1 > cfg.passThreshold && inp.pass2 > cfg.passThreshold && c.phase == C.Approach {
      if c.hasOrient {
        more := DecisionRuns(cfg, start, news, k, c);
      } else {
        more := LogsOn(start, news, k, c, C.CentrePassed(cfg, c, inp), C.InfoSent);
      }
    } else {
      more := news;
    }
  }

  lemma StopsAtCount(start: Log, news: Log, k: nat, c: C.Ctl, quiet: bool)
    requires Underway(start, news, k, c) && c.roadCount == k + 1
    requires quiet ==> news != [] && news[|news| - 1] == C.ArriveSent(C.NoJunction)
    ensures JustStopped(start, news, k, C.CountStopped(c), quiet)
  {
    assert start + news + [C.CountReached(k)] == start + (news + [C.CountReached(k)]);
  }

  /** While following, the cycle that sends ARRIVE number k + 1 stops, and so does the first one after it. */
  lemma FollowRuns(cfg: C.Config, start: Log, news: Log, k: nat, c: C.Ctl, inp: C.Input, quiet: bool) returns (more: Log)
    requires Moving(start, news, k, c, inp, quiet) && c.state == C.Follow && k > 0
    ensures Goes(start, more, k, c, C.Followed(cfg, c, inp), quiet) || JustStopped(start, more, k, C.Followed(cfg, c, inp), quiet)
  {
    hide C.CentrePassed, NoStop, C.CountStopped, JustStopped;
    var d := c.(pwm := inp.steer);
    more := news;
    var e := d;
    if Edge(d, inp) {
      more := Enters(start, news, k, d);
      e := C.JunctionEntered(d);
    }
    SameCounts(cfg, e, inp);
    if C.CountIsReached(e) {
      StopsAtCount(start, more, k, e, quiet);
    } else {
      more := CentreRuns(cfg, start, more, k, e, inp);
    }
  }

  lemma WaitRuns(cfg: C.Config, start: Log, news: Log, k: nat, c: C.Ctl, inp: C.Input) returns (more: Log)
    requires Underway(start, news, k, c)
    ensures Underway(start, more, k, C.Waited(cfg, c, inp)) && C.Waited(cfg, c, inp).roadCount == c.roadCount
  {
    hide C.Executed;
    SameCounts(cfg, c, inp);
    if c.hasOrient {
      more := DecisionRuns(cfg, start, news, k, c);
    } else if C.Waited(cfg, c, inp) == c {
      more := news;
    } else {
      more := LogsOn(start, news, k, c, C.Waited(cfg, c, inp), C.InfoSent);
    }
  }

  lemma MovedRuns(cfg: C.Config, start: Log, news: Log, k: nat, c: C.Ctl, inp: C.Input, quiet: bool) returns (more: Log)
    requires Moving(start, news, k, c, inp, quiet) && k > 0
    ensures Goes(start, more, k, c, C.Moved(cfg, c, inp), quiet) || JustStopped(start, more, k, C.Moved(cfg, c, inp), quiet)
  {
    hide C.Followed, C.Waited, JustStopped, NoStop;
    match c.state
    case Idle => more := news;
    case Follow => more := FollowRuns(cfg, start, news, k, c, inp, quiet);
    case WaitCommand => more := WaitRuns(cfg, start, news, k, c, inp);
    case Turn => more := news;
  }

  lemma CycleRuns(cfg: C.Config, start: Log, news: Log, k: nat, c: C.Ctl, inp: C.Input, quiet: bool) returns (more: Log)
    requires Running(start, news, k, c, quiet) && k > 0 && Allowed(cfg, k, c, inp, quiet)
    ensures Goes(start, more, k, c, C.Cycle(cfg, c, inp), quiet) || JustStopped(start, more, k, C.Cycle(cfg, c, inp), quiet)
  {
    assert Sensing(start, news, k, c, quiet);
    hide Running, JustStopped, Sensing, Moving, Edge, Repairs, C.Sensed, C.Moved;
    more := CommandsRun(cfg, start, news, k, c, inp.commands, quiet);
    var d := C.AllCommanded(cfg, c, inp.commands);
    if Clear(inp) {
      more := ClearRuns(cfg, start, more, k, d, inp, quiet);
    } else {
      more := ObstacleRuns(cfg, start, more, k, d, inp);
    }
    more := MovedRuns(cfg, start, more, k, C.Sensed(cfg, d, inp), inp, quiet);
  }

  /** Every input is allowed in the state that it meets. */
  ghost predicate AllowedRun(cfg: C.Config, c0: C.Ctl, inps: seq<C.Input>, k: nat, quiet: bool) {
    forall j :: 0 <= j < |inps| ==> Allowed(cfg, k, C.Cycles(cfg, c0, inps[..j]), inps[j], quiet)
  }

  /** The car has not stopped at its count in any of the cycles, or cycle i was the first to stop it. */
  ghost predicate DrivesOrStops(cfg: C.Config, c0: C.Ctl, inps: seq<C.Input>, k: nat, i: nat, news: Log, quiet: bool) {
    || (i == |inps| && Running(c0.log, news, k, C.Cycles(cfg, c0, inps), quiet))
    || (i < |inps| && JustStopped(c0.log, news, k, C.Cycles(cfg, c0, inps[..i + 1]), quiet))
  }

  lemma AllowedBefore(cfg: C.Config, c0: C.Ctl, inps: seq<C.Input>, k: nat, quiet: bool)
    requires AllowedRun(cfg, c0, inps, k, quiet) && inps != []
    ensures AllowedRun(cfg, c0, inps[..|inps| - 1], k, quiet)
    ensures Allowed(cfg, k, C.Cycles(cfg, c0, inps[..|inps| - 1]), inps[|inps| - 1], quiet)
  {
    hide Allowed, C.Cycles;
    var before := inps[..|inps| - 1];
    forall j | 0 <= j < |before| ensures Allowed(cfg, k, C.Cycles(cfg, c0, before[..j]), before[j], quiet) {
      assert before[..j] == inps[..j] && before[j] == inps[j];
    }
  }

  /**
   * With CNT k just received the car sends k + 1 ARRIVEs, never more, and then stops for the first time: when it next drives on,
   * and, if it has seen no obstacle, in the very cycle that sends the last of them.
   */
  lemma {:induction false} FirstStop(cfg: C.Config, c0: C.Ctl, inps: seq<C.Input>, k: nat, quiet: bool) returns (i: nat, news: Log)
    requires k > 0 && c0.roadNum == k && c0.roadCount == 0 && AllowedRun(cfg, c0, inps, k, quiet)
    ensures DrivesOrStops(cfg, c0, inps, k, i, news, quiet)
    decreases |inps|
  {
    hide C.Cycle, Allowed, AllowedRun, JustStopped;
    if inps == [] {
      i, news := 0, [];
      assert c0.log == c0.log + [];
    } else {
      var n := |inps| - 1;
      AllowedBefore(cfg, c0, inps, k, quiet);
      i, news := FirstStop(cfg, c0, inps[..n], k, quiet);
      if i == n {
        assert inps[..n + 1] == inps;
        news := CycleRuns(cfg, c0.log, news, k, C.Cycles(cfg, c0, inps[..n]), inps[n], quiet);
        assert C.Cycles(cfg, c0, inps) == C.Cycle(cfg, C.Cycles(cfg, c0, inps[..n]), inps[n]);
        if Running(c0.log, news, k, C.Cycles(cfg, c0, inps), quiet) { i := |inps|; }
      } else {
        assert inps[..n][..i + 1] == inps[..i + 1];
      }
    }
  }

  // ---------------------------------------------------------------- a mark counted again

  lemma {:induction false} ArrivesAppend(a: Log, b: Log)
    ensures Arrives(a + b) == Arrives(a) + Arrives(b)
    decreases |b|
  {
    if b == [] {
      assert a + b == a;
    } else {
      ArrivesAppend(a, b[..|b| - 1]);
      assert (a + b)[..|a + b| - 1] == a + b[..|b| - 1];
    }
  }

  lemma ObstacleSends(cfg: C.Config, c: C.Ctl, inp: C.Input)
    requires c.state == C.Follow && Edge(c, inp) && !Clear(inp)
    ensures Arrives(C.Sensed(cfg, c, inp).log) == Arrives(c.log) + 1 && C.Sensed(cfg, c, inp).state == C.Idle
  {
    var log := c.log + [C.ArriveSent(C.NoJunction)];
    ArrivesSnoc(c.log, C.ArriveSent(C.NoJunction));
    if !c.obstacleSent {
      var e := C.ObstacleReported(inp.obstacle, C.Abs(inp.stopCount) >= cfg.passThreshold, C.Approach);
      ArrivesSnoc(log, e);
      assert C.Sensed(cfg, c, inp).log == log + [e];
    }
  }

  lemma ClearPasses(cfg: C.Config, c: C.Ctl, inp: C.Input)
    requires c.state == C.Follow && Edge(c, inp) && Clear(inp) && !Repairs(c, inp)
    ensures var d := C.Sensed(cfg, c, inp);
            d.state == C.Follow && Edge(d, inp) && d.log == c.log && d.roadNum == c.roadNum && d.roadCount == c.roadCount
  {
  }

  lemma FollowSends(cfg: C.Config, c: C.Ctl, inp: C.Input)
    requires Edge(c, inp) && 0 < c.roadNum <= c.roadCount
    ensures Arrives(C.Followed(cfg, c, inp).log) == Arrives(c.log) + 1
  {
    ArrivesSnoc(c.log, C.ArriveSent(C.NoJunction));
    ArrivesSnoc(c.log + [C.ArriveSent(C.NoJunction)], C.CountReached(c.roadNum));
  }

  /** The ARRIVEs before the plan do not matter. */
  lemma LoggedArrives(start: Log, news: Log, k: nat, c: C.Ctl)
    requires Underway(start, news, k, c) || JustStopped(start, news, k, c, false)
    ensures Arrives(c.log) == Arrives(start) + Arrives(news)
  {
    ArrivesAppend(start, news);
    ArrivesAppend(start, news + [C.CountReached(k)]);
    ArrivesSnoc(news, C.CountReached(k));
  }

  lemma RecountSends(cfg: C.Config, c: C.Ctl, inp: C.Input)
    requires c.state == C.Follow && Edge(c, inp) && !Repairs(c, inp) && 0 < c.roadNum <= c.roadCount
    ensures Arrives(C.Moved(cfg, C.Sensed(cfg, c, inp), inp).log) == Arrives(c.log) + 1
  {
    hide C.Sensed, C.Followed, Edge, Repairs;
    if Clear(inp) {
      ClearPasses(cfg, c, inp);
      FollowSends(cfg, C.Sensed(cfg, c, inp), inp);
    } else {
      ObstacleSends(cfg, c, inp);
    }
  }

  /** With the stop due, a cycle without CNT sends one ARRIVE too many if and only if it counts a mark; otherwise it sends none. */
  lemma DueSendsIff(cfg: C.Config, start: Log, news: Log, k: nat, c: C.Ctl, inp: C.Input)
    requires Running(start, news, k, c, false) && StopDue(k, c) && k > 0 && NoCount(inp.commands)
    ensures Arrives(C.Cycle(cfg, c, inp).log) == Arrives(c.log) + if Recounts(cfg, c, inp) then 1 else 0
  {
    LoggedArrives(start, news, k, c);
    if Recounts(cfg, c, inp) {
      assert Sensing(start, news, k, c, false);
      var more := CommandsRun(cfg, start, news, k, c, inp.commands, false);
      var d := C.AllCommanded(cfg, c, inp.commands);
      LoggedArrives(start, more, k, d);
      RecountSends(cfg, d, inp);
    } else {
      var more := CycleRuns(cfg, start, news, k, c, inp, false);
      LoggedArrives(start, more, k, C.Cycle(cfg, c, inp));
    }
  }

  /** The car has not stopped at its count up to cycle i, which counts a mark with the stop due: ARRIVE number k + 2 is out. */
  ghost predicate RecountsAt(cfg: C.Config, c0: C.Ctl, inps: seq<C.Input>, k: nat, i: nat, news: Log) {
    && i < |inps|
    && var c := C.Cycles(cfg, c0, inps[..i]);
    && Underway(c0.log, news, k, c) && StopDue(k, c) && Recounts(cfg, c, inps[i])
    && Arrives(C.Cycles(cfg, c0, inps[..i + 1]).log) == Arrives(c0.log) + k + 2
  }

  /** Whatever a car without another CNT receives and sees: it drives on, stops first at ARRIVE number k + 1, or counts a mark again. */
  lemma {:induction false} StopsOrRecounts(cfg: C.Config, c0: C.Ctl, inps: seq<C.Input>, k: nat) returns (i: nat, news: Log)
    requires k > 0 && c0.roadNum == k && c0.roadCount == 0 && forall j :: 0 <= j < |inps| ==> NoCount(inps[j].commands)
    ensures DrivesOrStops(cfg, c0, inps, k, i, news, false) || RecountsAt(cfg, c0, inps, k, i, news)
    decreases |inps|
  {
    hide C.Cycle, NoCount, JustStopped, Recounts;
    if inps == [] {
      i, news := 0, [];
      assert c0.log == c0.log + [];
    } else {
      var n := |inps| - 1;
      var c := C.Cycles(cfg, c0, inps[..n]);
      i, news := StopsOrRecounts(cfg, c0, inps[..n], k);
      assert inps[..n + 1] == inps && C.Cycles(cfg, c0, inps) == C.Cycle(cfg, c, inps[n]);
      if i < n {
        assert inps[..n][..i + 1] == inps[..i + 1] && inps[..n][..i] == inps[..i];
      } else if c.roadCount > k && Recounts(cfg, c, inps[n]) {
        LoggedArrives(c0.log, news, k, c);
        DueSendsIff(cfg, c0.log, news, k, c, inps[n]);
      } else {
        news := CycleRuns(cfg, c0.log, news, k, c, inps[n], false);
        if Running(c0.log, news, k, C.Cycles(cfg, c0, inps), false) { i := |inps|; }
      }
    }
  }

  /** A box on the mark, and the commands of one cycle. */
  function BoxOnMark(commands: seq<C.Command>): C.Input {
    C.Input(commands, 1, C.Thing("box"), C.STOPPED, 0, 0, 0, 0, 0, false, 0)
  }

  const PROCESS: C.Command := C.Command(C.Process, C.NoOrient, 0)

  lemma StandsAtBox(cfg: C.Config, c: C.Ctl)
    requires c.state == C.Idle && c.phase == C.NoJunction
    ensures var d := C.Cycle(cfg, c, BoxOnMark([PROCESS]));
            d.state == C.Idle && d.phase == C.NoJunction && d.roadNum == c.roadNum && d.roadCount == c.roadCount + 1
  {
    assert C.AllCommanded(cfg, c, [PROCESS]) == C.Commanded(cfg, c, PROCESS);
  }

  lemma FirstAtBox(cfg: C.Config)
    ensures var c := C.Cycle(cfg, C.Initial(), BoxOnMark([C.Command(C.SetCount, C.NoOrient, 1), PROCESS]));
            c.state == C.Idle && c.phase == C.NoJunction && c.roadNum == 1 && c.roadCount == 1
  {
    var cmds := [C.Command(C.SetCount, C.NoOrient, 1), PROCESS];
    var d := C.Commanded(cfg, C.Initial(), cmds[0]);
    assert cmds[1..] == [PROCESS] && [PROCESS][1..] == [];
    assert C.AllCommanded(cfg, d, [PROCESS]) == C.AllCommanded(cfg, C.Commanded(cfg, d, PROCESS), []);
    assert C.AllCommanded(cfg, C.Initial(), cmds) == C.Commanded(cfg, d, PROCESS);
  }

  /** After CNT 1 a car can so send three ARRIVEs at one and the same mark without stopping at its count. */
  lemma SameMarkCountsAgain(cfg: C.Config) returns (inps: seq<C.Input>)
    ensures var c := C.Cycles(cfg, C.Initial(), inps); c.roadNum == 1 && c.roadCount == 3
  {
    hide C.Cycle, BoxOnMark;
    var first, again := BoxOnMark([C.Command(C.SetCount, C.NoOrient, 1), PROCESS]), BoxOnMark([PROCESS]);
    inps := [first, again, again];
    var c1 := C.Cycle(cfg, C.Initial(), first);
    FirstAtBox(cfg);
    StandsAtBox(cfg, c1);
    StandsAtBox(cfg, C.Cycle(cfg, c1, again));
    assert inps[..2] == [first, again] && [first, again][..1] == [first] && [first][..0] == [];
    assert C.Cycles(cfg, C.Initial(), [first]) == c1;
    assert C.Cycles(cfg, C.Initial(), [first, again]) == C.Cycle(cfg, c1, again);
  }

  // ---------------------------------------------------------------- car and router

  lemma FreshKept(m: MapData, m': MapData, c: Car)
    requires FreshPlan(m, c) && SameRoads(m, m')
    ensures FreshPlan(m', c)
  {
    WellFormedKept(m, m', c);
    ChainKept(m, m', c.path);
  }

  /** Accepting a plan announces its number of edges as CNT and leaves a record that heads for its first node. */
  lemma AcceptedPlan(w: World, t: Task, dist: (Node, Node) -> real, fl: real -> real, p: seq<nat>)
    requires Safe(w) && PlannerReady(w, t) && Plannable(w, t) && AStar.Binary32(fl) && PlanFinds(w, t, dist, fl, p) && p != []
    ensures var w' := Planned(w, t, p);
            && ValidCarId(w', t.carId) && CarOf(w', t.carId).path == p && FreshPlan(w'.m, CarOf(w', t.carId))
            && |w'.published| > |w.published| && w'.published[|w.published|] == Cnt(t.carId, |p|)
  {
    hide Network, WellFormed, Occupancy, Paired, PlanFinds, Release, FreshPlan, SameRoads;
    AcceptedRecord(w, t, dist, fl, p);
    PlannedCases(w, t, p);
    var c := CarOf(w, t.carId);
    var c' := AcceptedCar(c, t, PlanStart(w.m, t, c).value, PlanTarget(t, c), p);
    var w' := Planned(w, t, p);
    CarFacts(w, t.carId);
    ReleaseFrees(w.m, w.paths, c.last, c.current);
    FreshKept(w.m, w'.m, c');
    AnnouncesCount(w, t, p);
  }

  lemma AnnouncesCount(w: World, t: Task, p: seq<nat>)
    requires PlannerReady(w, t) && Plannable(w, t) && p != [] && |p| <= MAX_PATHLEN
    ensures Planned(w, t, p).published == w.published + Announcement(t, |p|)
    ensures |Announcement(t, |p|)| > 0 && Announcement(t, |p|)[0] == Cnt(t.carId, |p|)
  {
  }

  /** The car has driven on, or stopped at its count, since the plan of k edges; the router has answered every ARRIVE it sent. */
  ghost predicate InStep(start: Log, news: Log, k: nat, c: C.Ctl, stopped: bool, quiet: bool, answered: nat) {
    answered == Arrives(news) && if stopped then JustStopped(start, news, k, c, quiet) else Running(start, news, k, c, quiet)
  }

  /**
   * With one reply for every ARRIVE: a reply was ARRIVED exactly when the car has stopped at its count, or stands halted at junction
   * k + 1 with that stop due. It is the last reply, to ARRIVE number k + 1, and parks the record at the target; before that the
   * record is at the node that the count says. Without obstacles the car has stopped exactly when a reply was ARRIVED.
   */
  lemma CarAndRouterAgree(m: MapData, record: Car, replies: seq<G.OriCmd>, after: Car,
                          start: Log, news: Log, c: C.Ctl, stopped: bool, quiet: bool)
    requires FreshPlan(m, record) && Driven(m, record, replies, after)
    requires InStep(start, news, |record.path|, c, stopped, quiet, |replies|)
    ensures G.HasArrived in replies <==> stopped || StopDue(|record.path|, c)
    ensures quiet ==> (G.HasArrived in replies <==> stopped)
    ensures G.HasArrived in replies ==> |replies| == |record.path| + 1 && replies[|record.path|] == G.HasArrived
                                        && G.HasArrived !in replies[..|record.path|] && Parked(record, after)
    ensures G.HasArrived !in replies ==> CarRecords.Underway(m, record, c.roadCount, after)
  {
    hide FreshPlan, Driven, CarRecords.Underway, Parked, NoStop;
    ArrivesFollowPlan(m, record, replies, after);
    assert stopped ==> c.log[|c.log| - 1] == C.CountReached(|record.path|);
  }

  /** From an accepted plan on: whatever allowed cycles the car runs, up to its first stop it stays in step with the router. */
  lemma PlanEndsTogether(w: World, t: Task, dist: (Node, Node) -> real, fl: real -> real, p: seq<nat>,
                         cfg: C.Config, c0: C.Ctl, inps: seq<C.Input>, quiet: bool) returns (i: nat, news: Log)
    requires Safe(w) && PlannerReady(w, t) && Plannable(w, t) && AStar.Binary32(fl) && PlanFinds(w, t, dist, fl, p) && p != []
    requires c0.roadNum == |p| && c0.roadCount == 0 && AllowedRun(cfg, c0, inps, |p|, quiet)
    ensures DrivesOrStops(cfg, c0, inps, |p|, i, news, quiet) && RoadsOk(Planned(w, t, p)) && ValidCarId(Planned(w, t, p), t.carId)
    ensures forall replies, after ::
              Driven(Planned(w, t, p).m, CarOf(Planned(w, t, p), t.carId), replies, after) && |replies| == Arrives(news) ==>
                (G.HasArrived in replies <==> i < |inps| || StopDue(|p|, C.Cycles(cfg, c0, inps)))
                && (quiet ==> (G.HasArrived in replies <==> i < |inps|))
  {
    hide Network, WellFormed, Occupancy, Paired, PlanFinds, Release, FreshPlan, Driven, CarRecords.Underway, Parked, FleetOk, AllowedRun;
    AcceptedPlan(w, t, dist, fl, p);
    PlanKeepsSafe(w, t, dist, fl, p);
    i, news := FirstStop(cfg, c0, inps, |p|, quiet);
    var w' := Planned(w, t, p);
    var record := CarOf(w', t.carId);
    var c := C.Cycles(cfg, c0, if i < |inps| then inps[..i + 1] else inps);
    forall replies, after | Driven(w'.m, record, replies, after) && |replies| == Arrives(news)
      ensures (G.HasArrived in replies <==> i < |inps| || StopDue(|p|, C.Cycles(cfg, c0, inps)))
              && (quiet ==> (G.HasArrived in replies <==> i < |inps|))
    {
      CarAndRouterAgree(w'.m, record, replies, after, c0.log, news, c, i < |inps|, quiet);
    }
  }
}
