/** The label of an OBSTACLE report on its way from the car to the master: who takes which obstacle for a passing one. */
module Reports {
  import opened Layout
  import opened MapInit
  import opened RoadNetwork
  import opened Dispatch
  import C = Control
  import I = ControlInvariants

  const MAX_WIRE: nat := 8
  const MAX_LABEL: nat := 15

  // ---------------------------------------------------------------- the car

  /** What the car makes of a vision label. */
  function OfLabel(name: string): C.ObstacleType {
    if name == "none" then C.NoObstacle
    else if name == "car" then C.OtherCar
    else if name == "dog" then C.Dog
    else if name == "cat" then C.Cat
    else if name == "people" then C.People
    else C.Thing(name)
  }

  /** The car takes exactly "none" for a clear frame and "car" for another car, and everything else for an obstacle to report. */
  lemma ReportedIff(name: string)
    ensures OfLabel(name) == C.NoObstacle <==> name == "none"
    ensures OfLabel(name) == C.OtherCar <==> name == "car"
    ensures C.Temporary(OfLabel(name)) <==> name == "dog" || name == "cat" || name == "people"
  {
  }

  /** The label with the threshold flag before it, cut to eight characters. */
  function Wire(after: bool, name: string): (text: string)
    ensures text != ""
  {
    var s := (if after then "y" else "n") + name;
    if |s| <= MAX_WIRE then s else s[..MAX_WIRE]
  }

  // ---------------------------------------------------------------- the master

  /** is_temp, on AGC_TMP_OBSTACLE */
  predicate MasterTemporary(name: string) {
    name == "people" || name == "cat" || name == "dog" || name == "slave" || name == "null"
  }

  /** What parse_event reads from the text: temporary or not, past the threshold or not; a text too long leaves both false. */
  function Parsed(text: string): (bool, bool)
    requires text != ""
  {
    if |text| < MAX_LABEL - 1 then (MasterTemporary(text[1..]), text[0] != 'n') else (false, false)
  }

  /** Shared memory and queues after the report. */
  function Heard(w: World, carId: nat, text: string): World
    requires Sane(w.m, w.paths) && ValidCarId(w, carId) && 1 <= CarOf(w, carId).last <= MAX_NODES && text != ""
  {
    ObstacleSeen(w, carId, Parsed(text).0, Parsed(text).1)
  }

  // ---------------------------------------------------------------- both

  /** Cutting the text never changes what the master makes of it, and the threshold flag arrives as it was sent. */
  lemma WireParses(after: bool, name: string)
    ensures Parsed(Wire(after, name)) == (MasterTemporary(name), after)
  {
    var text := Wire(after, name);
    if |name| < MAX_WIRE {
      assert text[1..] == name;
    } else {
      assert |text[1..]| == 7;
    }
  }

  /** A text of fourteen characters or more, which no car sends, counts as a permanent obstacle before the threshold. */
  lemma LongTextIsPermanent(text: string)
    requires |text| >= 14
    ensures Parsed(text) == (false, false)
    ensures forall after, name :: |Wire(after, name)| < |text|
  {
  }

  /** The master takes for passing what the car does, and two labels more. */
  lemma TemporaryIff(name: string)
    ensures MasterTemporary(name) <==> C.Temporary(OfLabel(name)) || name == "slave" || name == "null"
  {
  }

  /** A replan for the car has been queued. */
  predicate Replanned(w: World, w': World, carId: nat) {
    && |w'.tasks| == |w.tasks| + 1 && w'.tasks[..|w.tasks|] == w.tasks
    && w'.tasks[|w.tasks|].action == Replan && w'.tasks[|w.tasks|].carId == carId
  }

  /** The record waits for a REPAIRED. */
  predicate Waits(w: World, carId: nat) { ValidCarId(w, carId) && CarOf(w, carId).status == Wait }

  /**
   * The first report of an obstacle by a car in any state that it can reach. The master queues a replan, or the car owes a REPAIRED,
   * never both; and one of the two happens if and only if the label is neither "slave" nor "null". With those the record is left
   * waiting for a REPAIRED that the car does not owe.
   */
  lemma FollowedUpIff(w: World, carId: nat, name: string, after: bool, c: C.Ctl)
    requires Sane(w.m, w.paths) && ValidCarId(w, carId) && 1 <= CarOf(w, carId).last <= MAX_NODES
    requires I.Inv(c) && !c.obstacleSent
    ensures var w', d := Heard(w, carId, Wire(after, name)), C.ObstacleStopped(c, OfLabel(name), after);
            && (Replanned(w, w', carId) || I.ObstacleOpen(d.log) <==> name != "slave" && name != "null")
            && !(Replanned(w, w', carId) && I.ObstacleOpen(d.log))
            && (name == "slave" || name == "null" ==> w'.tasks == w.tasks && Waits(w', carId))
  {
    hide Sane, I.LogOk, AlterEdges;
    WireParses(after, name);
    TemporaryIff(name);
    I.Readings(c.log, C.ObstacleReported(OfLabel(name), after, c.phase));
  }

  lemma EntryAt(log: seq<C.Entry>, k: nat)
    requires I.LogOk(log) && k < |log|
    ensures I.EntryOk(log[..k], log[k])
    ensures log[k].ObstacleReported? ==> I.ObstacleOpen(log[..k + 1]) == C.Temporary(log[k].thing)
    ensures log[k].RepairedSent? ==> !I.ObstacleOpen(log[..k + 1])
    ensures !log[k].ObstacleReported? && !log[k].RepairedSent? ==> I.ObstacleOpen(log[..k + 1]) == I.ObstacleOpen(log[..k])
  {
    assert log[..k + 1][..k] == log[..k];
  }

  lemma {:induction false} NothingOwed(log: seq<C.Entry>, n: nat, k: nat)
    requires I.LogOk(log) && n <= k < |log| && log[n].ObstacleReported? && !I.IsTemporary(log[n])
    requires forall i :: n < i <= k ==> !I.IsTemporary(log[i])
    ensures !I.ObstacleOpen(log[..k + 1]) && !log[k].RepairedSent?
    decreases k
  {
    hide I.LogOk, I.Fresh, I.Counted, I.Limit, I.ObstacleOpen;
    EntryAt(log, k);
    if k > n { NothingOwed(log, n, k - 1); }
  }

  /** In no run does the car send a REPAIRED after reporting "slave" or "null", until it reports an obstacle that it takes for passing. */
  lemma NeverRepaired(cfg: C.Config, inps: seq<C.Input>, name: string, n: nat, k: nat)
    requires name == "slave" || name == "null"
    requires var log := C.Cycles(cfg, C.Initial(), inps).log;
             && n <= k < |log| && log[n].ObstacleReported? && log[n].thing == OfLabel(name)
             && forall i :: n < i <= k ==> !I.IsTemporary(log[i])
    ensures !C.Cycles(cfg, C.Initial(), inps).log[k].RepairedSent?
  {
    hide I.LogOk, C.Cycles;
    I.Reachable(cfg, inps);
    TemporaryIff(name);
    NothingOwed(C.Cycles(cfg, C.Initial(), inps).log, n, k);
  }
}
