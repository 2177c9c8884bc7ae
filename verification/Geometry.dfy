/** Turn decisions from node coordinates: router's generate_turn and planner's jud_rev. */
module Geometry {
  datatype OriCmd = GoStraight | TurnLeft | TurnRight | HasArrived | TurnBack

  datatype Point = Point(x: int, y: int)

  function CalA(p: Point, q: Point, r: Point): int { (q.x - p.x) * (r.y - p.y) }

  function CalB(p: Point, q: Point, r: Point): int { (q.y - p.y) * (r.x - p.x) }

  function CalC(p: Point, q: Point, r: Point): int { (r.x - q.x) * (q.x - p.x) + (r.y - q.y) * (q.y - p.y) }

  /** Coming from p, standing at q, going on to r. */
  function GenerateTurn(p: Point, q: Point, r: Point): OriCmd {
    if CalA(p, q, r) == CalB(p, q, r) then
      if CalC(p, q, r) > 0 then GoStraight else TurnBack
    else if CalA(p, q, r) > CalB(p, q, r) then TurnRight
    else TurnLeft
  }

  predicate JudRev(p: Point, q: Point, r: Point) { CalA(p, q, r) == CalB(p, q, r) && CalC(p, q, r) <= 0 }

  /** The planner looks for a road back exactly where the router would order a U-turn. */
  lemma JudRevIsUTurn(p: Point, q: Point, r: Point)
    ensures JudRev(p, q, r) <==> GenerateTurn(p, q, r) == TurnBack
  {
  }

  // ---------------------------------------------------------------- left and right

  /**
   * Seen from a car that drives from p to q, r lies ahead in the proportion j : n of its last leg, and sideways in the proportion k : n;
   * y grows downwards, so a positive k is to the right.
   */
  predicate LiesAt(p: Point, q: Point, r: Point, n: int, j: int, k: int) {
    && n > 0
    && n * (r.x - q.x) == j * (q.x - p.x) - k * (q.y - p.y)
    && n * (r.y - q.y) == j * (q.y - p.y) + k * (q.x - p.x)
  }

  lemma SquaresPositive(p: Point, q: Point)
    requires p != q
    ensures (q.x - p.x) * (q.x - p.x) + (q.y - p.y) * (q.y - p.y) > 0
  {
    SquareNonNegative(q.x - p.x);
    SquareNonNegative(q.y - p.y);
    if q.x != p.x { SquarePositive(q.x - p.x); } else { SquarePositive(q.y - p.y); }
  }

  lemma SquareNonNegative(a: int)
    ensures a * a >= 0
  {
  }

  lemma SquarePositive(a: int)
    requires a != 0
    ensures a * a > 0
  {
  }

  /** Every r lies somewhere. */
  lemma LiesSomewhere(p: Point, q: Point, r: Point) returns (n: int, j: int, k: int)
    requires p != q
    ensures LiesAt(p, q, r, n, j, k)
  {
    var dx, dy, x, y := q.x - p.x, q.y - p.y, r.x - q.x, r.y - q.y;
    SquaresPositive(p, q);
    n, j, k := dx * dx + dy * dy, x * dx + y * dy, y * dx - x * dy;
    Resolved(dx, dy, x, y);
  }

  lemma Resolved(dx: int, dy: int, x: int, y: int)
    ensures (dx * dx + dy * dy) * x == (x * dx + y * dy) * dx - (y * dx - x * dy) * dy
    ensures (dx * dx + dy * dy) * y == (x * dx + y * dy) * dy + (y * dx - x * dy) * dx
  {
    assert (x * dx + y * dy) * dx == x * dx * dx + y * dy * dx;
    assert (y * dx - x * dy) * dy == y * dx * dy - x * dy * dy;
    assert (x * dx + y * dy) * dy == x * dx * dy + y * dy * dy;
    assert (y * dx - x * dy) * dx == y * dx * dx - x * dy * dx;
  }

  /** The side on which r lies, and how far ahead, as the products of generate_turn see them. */
  lemma SideIs(p: Point, q: Point, r: Point, n: int, j: int, k: int)
    requires LiesAt(p, q, r, n, j, k)
    ensures var d2 := (q.x - p.x) * (q.x - p.x) + (q.y - p.y) * (q.y - p.y);
            n * (CalA(p, q, r) - CalB(p, q, r)) == k * d2 && n * CalC(p, q, r) == j * d2
  {
    var dx, dy, x, y := q.x - p.x, q.y - p.y, r.x - q.x, r.y - q.y;
    CrossIs(dx, dy, x, y);
    Scale(n, dx, dy, x, y);
    Spread(dx, dy, j, k);
  }

  lemma CrossIs(dx: int, dy: int, x: int, y: int)
    ensures dx * (y + dy) - dy * (x + dx) == dx * y - dy * x
  {
  }

  lemma Scale(n: int, dx: int, dy: int, x: int, y: int)
    ensures n * (dx * y - dy * x) == dx * (n * y) - dy * (n * x)
    ensures n * (x * dx + y * dy) == (n * x) * dx + (n * y) * dy
  {
    Shuffle(n, dx, y);
    Shuffle(n, dy, x);
    Shuffle(n, x, dx);
    Shuffle(n, y, dy);
  }

  lemma Shuffle(n: int, a: int, b: int)
    ensures n * (a * b) == a * (n * b) == (n * a) * b
  {
  }

  lemma Spread(dx: int, dy: int, j: int, k: int)
    ensures dx * (j * dy + k * dx) - dy * (j * dx - k * dy) == k * (dx * dx + dy * dy)
    ensures (j * dx - k * dy) * dx + (j * dy + k * dx) * dy == j * (dx * dx + dy * dy)
  {
  }

  lemma SameSign(n: int, a: int, k: int, d: int)
    requires n > 0 && d > 0 && n * a == k * d
    ensures a > 0 <==> k > 0
    ensures a == 0 <==> k == 0
  {
    if a > 0 { PositiveProduct(n, a); if k <= 0 { NotPositive(k, d); } }
    if a < 0 { PositiveProduct(n, -a); if k >= 0 { NotPositive(-k, d); } }
    if a == 0 && k != 0 { PositiveProduct(if k > 0 then k else -k, d); }
  }

  lemma PositiveProduct(a: int, b: int)
    requires a > 0 && b > 0
    ensures a * b > 0
  {
  }

  lemma NotPositive(a: int, b: int)
    requires a <= 0 && b > 0
    ensures a * b <= 0
  {
  }

  /** The order for r: right or left by its side, and on the line straight on if it lies ahead, back otherwise. */
  lemma TurnsToItsSide(p: Point, q: Point, r: Point, n: int, j: int, k: int)
    requires p != q && LiesAt(p, q, r, n, j, k)
    ensures k > 0 <==> GenerateTurn(p, q, r) == TurnRight
    ensures k < 0 <==> GenerateTurn(p, q, r) == TurnLeft
    ensures k == 0 && j > 0 <==> GenerateTurn(p, q, r) == GoStraight
    ensures k == 0 && j <= 0 <==> GenerateTurn(p, q, r) == TurnBack
  {
    var d2 := (q.x - p.x) * (q.x - p.x) + (q.y - p.y) * (q.y - p.y);
    SquaresPositive(p, q);
    SideIs(p, q, r, n, j, k);
    SameSign(n, CalA(p, q, r) - CalB(p, q, r), k, d2);
    SameSign(n, CalC(p, q, r), j, d2);
  }

  /** r lies on the line from q back through p, or there is no such line. */
  ghost predicate StraightBack(p: Point, q: Point, r: Point) { p == q || exists n: int, j: int :: j <= 0 && LiesAt(p, q, r, n, j, 0) }

  /** The planner's test for a road back. */
  lemma JudRevIsStraightBack(p: Point, q: Point, r: Point)
    ensures JudRev(p, q, r) <==> StraightBack(p, q, r)
  {
    if p != q {
      var n, j, k := LiesSomewhere(p, q, r);
      JudRevIsUTurn(p, q, r);
      TurnsToItsSide(p, q, r, n, j, k);
      if StraightBack(p, q, r) {
        var n', j' :| j' <= 0 && LiesAt(p, q, r, n', j', 0);
        TurnsToItsSide(p, q, r, n', j', 0);
      }
    }
  }

  // ---------------------------------------------------------------- the way back

  function Mirror(c: OriCmd): OriCmd {
    match c
    case TurnLeft => TurnRight
    case TurnRight => TurnLeft
    case _ => c
  }

  lemma CrossFlips(p: Point, q: Point, r: Point)
    ensures CalA(r, q, p) - CalB(r, q, p) == -(CalA(p, q, r) - CalB(p, q, r))
    ensures CalC(r, q, p) == CalC(p, q, r)
  {
  }

  lemma TurnFlips(p: Point, q: Point, r: Point)
    ensures GenerateTurn(r, q, p) == Mirror(GenerateTurn(p, q, r))
  {
    CrossFlips(p, q, r);
  }

  /** The orders along a list of points, one for each inner point. */
  function Turns(ps: seq<Point>): (ts: seq<OriCmd>)
    ensures |ts| == if |ps| < 2 then 0 else |ps| - 2
  {
    if |ps| < 3 then [] else [GenerateTurn(ps[0], ps[1], ps[2])] + Turns(ps[1..])
  }

  function Backwards<T>(s: seq<T>): (r: seq<T>)
    ensures |r| == |s| && forall i :: 0 <= i < |s| ==> r[i] == s[|s| - 1 - i]
  {
    if s == [] then [] else Backwards(s[1..]) + [s[0]]
  }

  lemma {:induction false} TurnsAt(ps: seq<Point>, i: nat)
    requires i + 2 < |ps|
    ensures Turns(ps)[i] == GenerateTurn(ps[i], ps[i + 1], ps[i + 2])
  {
    if i > 0 { TurnsAt(ps[1..], i - 1); }
  }

  /** Driving a route backwards takes the same orders in reverse, with left and right exchanged. */
  lemma ReversedRouteTurns(ps: seq<Point>)
    ensures |Turns(Backwards(ps))| == |Turns(ps)|
    ensures forall i :: 0 <= i < |Turns(ps)| ==> Turns(Backwards(ps))[i] == Mirror(Turns(ps)[|Turns(ps)| - 1 - i])
  {
    var bs := Backwards(ps);
    forall i | 0 <= i < |Turns(ps)| ensures Turns(bs)[i] == Mirror(Turns(ps)[|Turns(ps)| - 1 - i]) {
      var j := |ps| - 3 - i;
      TurnsAt(bs, i);
      TurnsAt(ps, j);
      assert bs[i] == ps[j + 2] && bs[i + 1] == ps[j + 1] && bs[i + 2] == ps[j];
      TurnFlips(ps[j], ps[j + 1], ps[j + 2]);
    }
  }

  // ---------------------------------------------------------------- 32-bit arithmetic

  predicate Int32(v: int) { -0x8000_0000 <= v < 0x8000_0000 }

  predicate Within(p: Point, limit: nat) { 0 <= p.x <= limit && 0 <= p.y <= limit }

  /** Every product and sum that the C++ expressions form. */
  predicate NoOverflow(p: Point, q: Point, r: Point) {
    && Int32(CalA(p, q, r)) && Int32(CalB(p, q, r)) && Int32(CalC(p, q, r))
    && Int32((r.x - q.x) * (q.x - p.x)) && Int32((r.y - q.y) * (q.y - p.y))
  }

  lemma MulMonotone(a: int, b: int, c: int)
    requires a <= b && 0 <= c
    ensures a * c <= b * c
  {
  }

  lemma ProductBound(a: int, b: int, limit: int)
    requires 0 <= limit && -limit <= a <= limit && -limit <= b <= limit
    ensures -(limit * limit) <= a * b <= limit * limit
  {
    if b >= 0 {
      MulMonotone(a, limit, b);
      MulMonotone(-limit, a, b);
      MulMonotone(b, limit, limit);
    } else {
      MulMonotone(a, limit, -b);
      MulMonotone(-limit, a, -b);
      MulMonotone(-b, limit, limit);
    }
  }

  lemma FourTimesProduct(u: int, v: int)
    ensures 4 * (u * v) == (u + v) * (u + v) - (u - v) * (u - v)
  {
  }

  /** Two legs of one axis that go the same way share its length. */
  lemma LegProduct(a: int, b: int, c: int, limit: int)
    requires 0 <= a <= limit && 0 <= b <= limit && 0 <= c <= limit
    ensures -(limit * limit) <= (c - b) * (b - a) && 4 * ((c - b) * (b - a)) <= limit * limit
  {
    var u, v := c - b, b - a;
    ProductBound(u, v, limit);
    FourTimesProduct(u, v);
    ProductBound(u + v, u + v, limit);
    SquareNonNegative(u - v);
  }

  /** No turn computation overflows for coordinates up to `limit` if and only if limit is at most 32768. */
  lemma OverflowLimit(limit: nat)
    ensures limit <= 32768 <==> forall p, q, r :: Within(p, limit) && Within(q, limit) && Within(r, limit) ==> NoOverflow(p, q, r)
  {
    if limit <= 32768 {
      forall p, q, r | Within(p, limit) && Within(q, limit) && Within(r, limit) ensures NoOverflow(p, q, r) {
        assert limit * limit <= 0x4000_0000 by { ProductBound(limit, limit, 32768); }
        ProductBound(q.x - p.x, r.y - p.y, limit);
        ProductBound(q.y - p.y, r.x - p.x, limit);
        LegProduct(p.x, q.x, r.x, limit);
        LegProduct(p.y, q.y, r.y, limit);
      }
    } else {
      var o, far := Point(0, 0), Point(limit, limit);
      assert Within(o, limit) && Within(far, limit);
      assert CalC(o, far, o) == -2 * (limit * limit);
      assert limit * limit >= 32769 * 32769 by {
        assert limit * limit >= 32769 * limit;
      }
      assert !NoOverflow(o, far, o);
    }
  }
}
