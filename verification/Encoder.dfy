/** The wheel encoders: interrupt counting of quadrature signals, and turns by target counts. */
module Encoder {
  import Control

  /** The signals at quarter-step position p, starting with A = B = low at 0. */
  predicate SignalA(p: int) { p % 4 == 1 || p % 4 == 2 }

  predicate SignalB(p: int) { p % 4 == 2 || p % 4 == 3 }

  /** isr1 on the levels that it reads */
  function Isr1Count(a: bool, b: bool, count: int): int {
    if a then (if !b then count + 1 else count - 1) else if b then count + 1 else count - 1
  }

  /** isr2 on the levels that it reads */
  function Isr2Count(a: bool, b: bool, count: int): int {
    if a then (if !b then count - 1 else count + 1) else if b then count - 1 else count + 1
  }

  function Trunc(x: real): int { if x >= 0.0 then x.Floor else -((-x).Floor) }

  /** A C cast to integer drops the fraction: towards zero, by less than one, and symmetrically. */
  lemma TruncDropsFraction(x: real)
    ensures Trunc(-x) == -Trunc(x)
    ensures x >= 0.0 ==> 0.0 <= Trunc(x) as real <= x < Trunc(x) as real + 1.0
  {
  }

  /** `fl` is the rounding of float products. */
  class Encoders {
    const fl: real -> real
    const k1: real
    const k2: real
    var count1: int
    var count2: int
    var targetCount1: int
    var targetCount2: int
    var isTurning: bool

    constructor (fl: real -> real, k1: real, k2: real)
      ensures count1 == 0 && count2 == 0 && !isTurning && this.fl == fl && this.k1 == k1 && this.k2 == k2
    {
      this.fl, this.k1, this.k2 := fl, k1, k2;
      count1, count2, targetCount1, targetCount2, isTurning := 0, 0, 0, 0, false;
    }

    /** On every change of signal A of the first wheel. */
    method Isr1(a: bool, b: bool)
      modifies this`count1
      ensures count1 == Isr1Count(a, b, old(count1))
    {
      if a {
        if !b { count1 := count1 + 1; } else { count1 := count1 - 1; }
      } else {
        if b { count1 := count1 + 1; } else { count1 := count1 - 1; }
      }
    }

    method Isr2(a: bool, b: bool)
      modifies this`count2
      ensures count2 == Isr2Count(a, b, old(count2))
    {
      if a {
        if !b { count2 := count2 - 1; } else { count2 := count2 + 1; }
      } else {
        if b { count2 := count2 - 1; } else { count2 := count2 + 1; }
      }
    }

    method ResetEncoders()
      modifies this`count1, this`count2
      ensures count1 == 0 && count2 == 0
    {
      count1, count2 := 0, 0;
    }

    /** A positive angle takes k1 for the first wheel, any other angle k2. */
    method StartTurn(angle: real)
      modifies this
      ensures count1 == 0 && count2 == 0 && isTurning
      ensures targetCount1 == if angle > 0.0 then Trunc(fl(angle * k1)) else Trunc(fl(angle * k2))
      ensures targetCount2 == if angle > 0.0 then Trunc(fl(angle * k2)) else Trunc(fl(angle * k1))
    {
      ResetEncoders();
      if angle > 0.0 {
        targetCount1, targetCount2 := Trunc(fl(angle * k1)), Trunc(fl(angle * k2));
      } else {
        targetCount1, targetCount2 := Trunc(fl(angle * k2)), Trunc(fl(angle * k1));
      }
      isTurning := true;
    }

    /** A turn ends as soon as either wheel has reached its target, and stays ended. */
    method CheckTurnDone() returns (done: bool)
      modifies this`isTurning
      ensures done <==> !old(isTurning) || Control.Abs(count1) >= Control.Abs(targetCount1) || Control.Abs(count2) >= Control.Abs(targetCount2)
      ensures isTurning == (old(isTurning) && !done)
    {
      if !isTurning { return true; }
      if Control.Abs(count1) >= Control.Abs(targetCount1) || Control.Abs(count2) >= Control.Abs(targetCount2) {
        isTurning := false;
        return true;
      }
      done := false;
    }
  }

  // ---------------------------------------------------------------- walks

  /** One quarter step forwards or backwards. */
  datatype Move = Forwards | Backwards

  function Moved(p: int, m: Move): int { if m == Forwards then p + 1 else p - 1 }

  /** Where a walk from p ends. */
  function Position(p: int, walk: seq<Move>): int
    decreases |walk|
  {
    if walk == [] then p else Moved(Position(p, walk[..|walk| - 1]), walk[|walk| - 1])
  }

  /** The two counts after a step to p': the interrupts fire when, and only when, signal A has changed. */
  function Counts(p: int, p': int, counts: (int, int)): (int, int) {
    if SignalA(p) == SignalA(p') then counts
    else (Isr1Count(SignalA(p'), SignalB(p'), counts.0), Isr2Count(SignalA(p'), SignalB(p'), counts.1))
  }

  /** The counts after a walk from p that started with the given ones. */
  function Counted(p: int, counts: (int, int), walk: seq<Move>): (int, int)
    decreases |walk|
  {
    if walk == [] then counts
    else
      var before := walk[..|walk| - 1];
      Counts(Position(p, before), Position(p, walk), Counted(p, counts, before))
  }

  /** (p + 1) / 2, rounded down */
  function HalfUp(p: int): int { (p + 1) / 2 }

  lemma Quarter(q: int, r: nat)
    requires r < 6
    ensures (4 * q + r) % 4 == r % 4 && HalfUp(4 * q + r) == 2 * q + HalfUp(r)
  {
  }

  lemma BackQuarter(q: int)
    ensures (4 * q - 1) % 4 == 3 && HalfUp(4 * q - 1) == 2 * q
  {
  }

  /** One step changes the count by the change of (p + 1) / 2, rounded down. */
  lemma StepCounts(p: int, m: Move, c1: int, c2: int)
    ensures var d := HalfUp(Moved(p, m)) - HalfUp(p); Counts(p, Moved(p, m), (c1, c2)) == (c1 + d, c2 - d)
  {
    hide HalfUp;
    var q, r := p / 4, p % 4;
    assert p == 4 * q + r && 0 <= r < 4;
    Quarter(q, r);
    Quarter(q, r + 1);
    if r == 0 { BackQuarter(q); } else { Quarter(q, r - 1); }
    SmallHalves();
  }

  lemma SmallHalves()
    ensures HalfUp(0) == 0 && HalfUp(1) == 1 && HalfUp(2) == 1 && HalfUp(3) == 2 && HalfUp(4) == 2
  {
  }

  /**
   * Wherever the wheel has been, the counts depend on the end of the walk alone: they never drift, also after a reset in
   * any position.
   */
  lemma {:induction false} CountsFollowPosition(p: int, counts: (int, int), walk: seq<Move>)
    ensures var d := HalfUp(Position(p, walk)) - HalfUp(p);
            Counted(p, counts, walk) == (counts.0 + d, counts.1 - d)
    decreases |walk|
  {
    hide HalfUp, Counts;
    if walk != [] {
      var before := walk[..|walk| - 1];
      CountsFollowPosition(p, counts, before);
      var c := Counted(p, counts, before);
      StepCounts(Position(p, before), walk[|walk| - 1], c.0, c.1);
    }
  }

  /** From A = B = low with counts 0: count1 is (p + 1) / 2 rounded down, count2 its negation. */
  lemma CountsFromRest(walk: seq<Move>)
    ensures var p := Position(0, walk); Counted(0, (0, 0), walk) == (HalfUp(p), -HalfUp(p))
  {
    hide HalfUp, Position, Counted;
    SmallHalves();
    CountsFollowPosition(0, (0, 0), walk);
  }
}
