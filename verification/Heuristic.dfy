/** planner's heuristic: the straight-line distance in binary32, and what weights of at least that distance give. */
module Heuristic {
  import opened Layout
  import opened AStar
  import opened AStarInvariant
  import opened AStarTheorems
  import opened AStarOptimal

  /** 2^23 */
  const SCALE: real := 8388608.0

  /** fl(x) is within one unit in the 24th binary place of x. */
  ghost predicate Close(fl: real -> real, x: real) {
    (fl(x) - x) * SCALE <= x && (x - fl(x)) * SCALE <= x
  }

  /** Rounding to binary32, on the range that coordinates of 16 bits give. */
  ghost predicate Rounding(fl: real -> real) {
    && Binary32(fl) && (forall x :: fl(fl(x)) == fl(x))
    && (forall x :: 1.0 <= x <= 1099511627776.0 ==> Close(fl, x))
  }

  ghost predicate SquareRoot(sqrt: real -> real) {
    forall x :: x >= 0.0 ==> sqrt(x) >= 0.0 && sqrt(x) * sqrt(x) == x
  }

  function Sq(x: real): real { x * x }

  function Dx(a: Node, b: Node): real { a.x as real - b.x as real }

  function Dy(a: Node, b: Node): real { a.y as real - b.y as real }

  /** The exact square of the distance. */
  function SquaredDistance(a: Node, b: Node): real { Sq(Dx(a, b)) + Sq(Dy(a, b)) }

  /** std::sqrt(dx * dx + dy * dy) in floats; the differences of 16-bit numbers are exact. */
  function Straight(fl: real -> real, sqrt: real -> real, a: Node, b: Node): real {
    fl(sqrt(fl(fl(Sq(Dx(a, b))) + fl(Sq(Dy(a, b))))))
  }

  function Distance(sqrt: real -> real, a: Node, b: Node): real { sqrt(SquaredDistance(a, b)) }

  // ---------------------------------------------------------------- real arithmetic

  lemma MulLess(a: real, b: real, c: real)
    requires a < b && c > 0.0
    ensures a * c < b * c
  {
  }

  lemma SquareGrows(y: real, x: real)
    requires 0.0 < y < x
    ensures Sq(y) < Sq(x)
  {
    MulLess(y, x, x);
    MulLess(y, x, y);
  }

  lemma SquarePositive(x: real)
    requires x > 0.0
    ensures Sq(x) > 0.0
  {
    var half := x / 2.0;
    assert Sq(x) == 2.0 * (x * half);
    ProductPositive(x, half);
  }

  lemma ProductPositive(a: real, b: real)
    requires a > 0.0 && b > 0.0
    ensures a * b > 0.0
  {
  }

  lemma SquareLess(x: real, y: real)
    requires x >= 0.0 && y >= 0.0 && Sq(x) <= Sq(y)
    ensures x <= y
  {
    if x > y {
      if y > 0.0 { SquareGrows(y, x); } else { SquarePositive(x); }
    }
  }

  lemma SquareOfSum(p: real, q: real)
    ensures Sq(p + q) == Sq(p) + Sq(q) + 2.0 * (p * q)
  {
  }

  lemma SquareOfProduct(p: real, q: real)
    ensures Sq(p * q) == Sq(p) * Sq(q)
  {
  }

  lemma SquareNonNegative(x: real)
    ensures Sq(x) >= 0.0
  {
  }

  lemma CauchySchwarz(a: real, b: real, c: real, d: real)
    ensures Sq(a * c + b * d) <= (Sq(a) + Sq(b)) * (Sq(c) + Sq(d))
  {
    assert (a * a + b * b) * (c * c + d * d) - (a * c + b * d) * (a * c + b * d) == (a * d - b * c) * (a * d - b * c);
    SquareNonNegative(a * d - b * c);
  }

  lemma ProductNonNegative(p: real, q: real)
    requires p >= 0.0 && q >= 0.0
    ensures p * q >= 0.0
  {
  }

  lemma Root(sqrt: real -> real, x: real)
    requires SquareRoot(sqrt) && x >= 0.0
    ensures sqrt(x) >= 0.0 && Sq(sqrt(x)) == x
  {
  }

  /** The inner product of two legs is at most the product of their lengths. */
  lemma InnerProduct(a: real, b: real, c: real, d: real, p: real, q: real)
    requires p >= 0.0 && q >= 0.0 && Sq(p) == Sq(a) + Sq(b) && Sq(q) == Sq(c) + Sq(d)
    ensures a * c + b * d <= p * q
  {
    ProductNonNegative(p, q);
    if a * c + b * d > 0.0 {
      CauchySchwarz(a, b, c, d);
      SquareOfProduct(p, q);
      SquareLess(a * c + b * d, p * q);
    }
  }

  lemma TriangleOfLegs(a: real, b: real, c: real, d: real, p: real, q: real, r: real)
    requires p >= 0.0 && q >= 0.0 && r >= 0.0
    requires Sq(p) == Sq(a) + Sq(b) && Sq(q) == Sq(c) + Sq(d) && Sq(r) == Sq(a + c) + Sq(b + d)
    ensures r <= p + q
  {
    hide Sq;
    InnerProduct(a, b, c, d, p, q);
    SquareOfSum(a, c);
    SquareOfSum(b, d);
    SquareOfSum(p, q);
    SquareLess(r, p + q);
  }

  lemma SquaredNonNegative(a: Node, b: Node)
    ensures SquaredDistance(a, b) >= 0.0
  {
    SquareNonNegative(Dx(a, b));
    SquareNonNegative(Dy(a, b));
  }

  /** The triangle inequality of the exact distance. */
  lemma Triangle(sqrt: real -> real, a: Node, b: Node, c: Node)
    requires SquareRoot(sqrt)
    ensures Distance(sqrt, a, c) <= Distance(sqrt, a, b) + Distance(sqrt, b, c)
  {
    hide Sq, SquareRoot;
    SquaredNonNegative(a, b);
    SquaredNonNegative(b, c);
    SquaredNonNegative(a, c);
    Root(sqrt, SquaredDistance(a, b));
    Root(sqrt, SquaredDistance(b, c));
    Root(sqrt, SquaredDistance(a, c));
    assert Dx(a, c) == Dx(a, b) + Dx(b, c) && Dy(a, c) == Dy(a, b) + Dy(b, c);
    TriangleOfLegs(Dx(a, b), Dy(a, b), Dx(b, c), Dy(b, c), Distance(sqrt, a, b), Distance(sqrt, b, c), Distance(sqrt, a, c));
  }

  // ---------------------------------------------------------------- float error

  /** The square of a difference of 16-bit numbers is 0 or between 1 and 65535 squared. */
  lemma LegSquare(d: real, i: int)
    requires d == i as real && -65535 <= i <= 65535
    ensures Sq(d) == 0.0 || 1.0 <= Sq(d)
    ensures 0.0 <= Sq(d) <= 4294836225.0
  {
    var j: nat := if i < 0 then -i else i;
    assert Sq(d) == Sq(j as real);
    if j == 0 {
      assert Sq(0.0) == 0.0;
    } else {
      SquareMonotone(1.0, j as real);
      SquareMonotone(j as real, 65535.0);
    }
  }

  lemma SquareMonotone(x: real, y: real)
    requires 0.0 < x <= y
    ensures Sq(x) <= Sq(y)
  {
    if x < y { SquareGrows(x, y); }
  }

  lemma FlZeroOne(fl: real -> real)
    requires Binary32(fl)
    ensures fl(0.0) == 0.0 && fl(1.0) == 1.0
  {
    FlInt(fl, 0);
    FlInt(fl, 1);
  }

  lemma FlMonotone(fl: real -> real, x: real, y: real)
    requires Binary32(fl) && x <= y
    ensures fl(x) <= fl(y)
  {
  }

  /** Rounding of 0, or of a number from 1 on. */
  lemma FlClose(fl: real -> real, x: real)
    requires Rounding(fl) && (x == 0.0 || 1.0 <= x <= 1099511627776.0)
    ensures Close(fl, x) && (x == 0.0 ==> fl(x) == 0.0) && (x >= 1.0 ==> fl(x) >= 1.0)
  {
    FlZeroOne(fl);
    if x >= 1.0 { FlMonotone(fl, 1.0, x); }
  }

  /** The sum of the rounded squares, rounded, is within three units of the exact sum. */
  lemma SumClose(fl: real -> real, a: real, b: real)
    requires Rounding(fl) && (a == 0.0 || 1.0 <= a <= 4294836225.0) && (b == 0.0 || 1.0 <= b <= 4294836225.0)
    ensures var t := fl(fl(a) + fl(b));
            && (t - (a + b)) * SCALE <= 3.0 * (a + b) && ((a + b) - t) * SCALE <= 3.0 * (a + b)
            && (a + b == 0.0 ==> t == 0.0) && (a + b >= 1.0 ==> t >= 1.0)
  {
    hide Rounding;
    FlClose(fl, a);
    FlClose(fl, b);
    FlClose(fl, fl(a) + fl(b));
  }

  lemma TooFar(d: real, r: real, e: real)
    requires r >= 1.0 && e >= 1.0 && d > 3.0 * e / SCALE
    ensures d * r + d * e > 3.0 * Sq(e) / SCALE
  {
    var k := 3.0 * e / SCALE;
    Scaled(e);
    MulLess(k, d, e);
    ProductPositive(d, r);
  }

  lemma Scaled(e: real)
    ensures (3.0 * e / SCALE) * e == 3.0 * Sq(e) / SCALE
  {
  }

  /** If two squares are within three units, so are their roots. */
  lemma RootsClose(r: real, e: real)
    requires r >= 1.0 && e >= 1.0
    requires (Sq(r) - Sq(e)) * SCALE <= 3.0 * Sq(e) && (Sq(e) - Sq(r)) * SCALE <= 3.0 * Sq(e)
    ensures (r - e) * SCALE <= 3.0 * e && (e - r) * SCALE <= 3.0 * e
  {
    hide Sq;
    Difference(r, e);
    if r - e > 3.0 * e / SCALE { TooFar(r - e, r, e); }
    if e - r > 3.0 * e / SCALE { TooFar(e - r, r, e); }
  }

  lemma Difference(r: real, e: real)
    ensures Sq(r) - Sq(e) == (r - e) * r + (r - e) * e
    ensures Sq(e) - Sq(r) == (e - r) * r + (e - r) * e
  {
  }

  lemma LegsAreShort(a: Node, b: Node)
    ensures Sq(Dx(a, b)) == 0.0 || 1.0 <= Sq(Dx(a, b))
    ensures Sq(Dy(a, b)) == 0.0 || 1.0 <= Sq(Dy(a, b))
    ensures 0.0 <= Sq(Dx(a, b)) <= 4294836225.0 && 0.0 <= Sq(Dy(a, b)) <= 4294836225.0
  {
    hide Sq;
    var x: int, y: int := (a.x as int) - (b.x as int), (a.y as int) - (b.y as int);
    assert Dx(a, b) == x as real && Dy(a, b) == y as real;
    LegSquare(Dx(a, b), x);
    LegSquare(Dy(a, b), y);
  }

  /** A root of at least 1 and at most the diagonal's, rounded once more. */
  lemma RoundedRoot(fl: real -> real, r: real, e: real)
    requires Rounding(fl) && 1.0 <= r && 1.0 <= e <= 92682.0
    requires (r - e) * SCALE <= 3.0 * e && (e - r) * SCALE <= 3.0 * e
    ensures e - 0.125 <= fl(r) <= e + 0.125 && 1.0 <= fl(r) <= 92683.0
  {
    hide Rounding;
    assert r <= 92683.0;
    FlClose(fl, r);
  }

  /** The float distance is within 1/8 of the exact one, a float itself, and no longer than the diagonal. */
  lemma StraightIsClose(fl: real -> real, sqrt: real -> real, a: Node, b: Node)
    requires Rounding(fl) && SquareRoot(sqrt)
    ensures Distance(sqrt, a, b) - 0.125 <= Straight(fl, sqrt, a, b) <= Distance(sqrt, a, b) + 0.125
    ensures 0.0 <= Straight(fl, sqrt, a, b) <= 92683.0 && fl(Straight(fl, sqrt, a, b)) == Straight(fl, sqrt, a, b)
  {
    hide Sq, Rounding, SquareRoot;
    LegsAreShort(a, b);
    var x, y := Sq(Dx(a, b)), Sq(Dy(a, b));
    var t := fl(fl(x) + fl(y));
    SumClose(fl, x, y);
    FlTwice(fl, sqrt(t));
    Root(sqrt, x + y);
    if x + y == 0.0 {
      RootOfZero(sqrt);
      FlClose(fl, 0.0);
    } else {
      Root(sqrt, t);
      var r, e := sqrt(t), sqrt(x + y);
      One();
      SquareLess(1.0, r);
      SquareLess(1.0, e);
      SquareLess(e, 92682.0);
      RootsClose(r, e);
      RoundedRoot(fl, r, e);
    }
  }

  lemma One()
    ensures Sq(1.0) == 1.0 && Sq(92682.0) == 8589953124.0
  {
  }

  lemma FlTwice(fl: real -> real, x: real)
    requires Rounding(fl)
    ensures fl(fl(x)) == fl(x)
  {
  }

  lemma RootOfZero(sqrt: real -> real)
    requires SquareRoot(sqrt)
    ensures sqrt(0.0) == 0.0
  {
    hide SquareRoot;
    Root(sqrt, 0.0);
    assert Sq(0.0) == 0.0;
    SquareLess(sqrt(0.0), 0.0);
  }

  // ---------------------------------------------------------------- weights that cover distances

  /** The search uses the planner's own heuristic. */
  ghost predicate UsesStraight(q: Query, sqrt: real -> real) {
    Rounding(q.fl) && SquareRoot(sqrt) && forall a: Node, b: Node :: q.dist(a, b) == Straight(q.fl, sqrt, a, b)
  }

  /** Every step weighs at least the exact distance that it covers. */
  ghost predicate WeightsCoverDistance(q: Query, sqrt: real -> real)
    requires ValidQuery(q)
  {
    forall u: nat, eid: nat, v: nat :: CanStep(q.m, u, eid, v) ==>
      Distance(sqrt, q.m.nodes[u - 1], q.m.nodes[v - 1]) <= q.m.edges[eid - 1].weight as real
  }

  /** The exact distance to the target. */
  ghost function Estimate(q: Query, sqrt: real -> real): nat -> real
    requires ValidQuery(q)
  {
    (v: nat) => if InRange(q.m, v) then Distance(sqrt, q.m.nodes[v - 1], q.m.nodes[q.target - 1]) else 0.0
  }

  /** Then the exact distance makes the float heuristic nearly consistent. */
  lemma CoveredIsInformed(q: Query, sqrt: real -> real)
    requires ValidQuery(q) && UsesStraight(q, sqrt) && WeightsCoverDistance(q, sqrt)
    ensures Informed(q, Estimate(q, sqrt))
  {
    hide Straight, Distance, Rounding, SquareRoot;
    var e := Estimate(q, sqrt);
    var t := q.m.nodes[q.target - 1];
    forall v: nat | InRange(q.m, v)
      ensures e(v) - 0.125 <= H(q, v) <= e(v) + 0.125 && 0.0 <= H(q, v) <= 92683.0 && q.fl(H(q, v)) == H(q, v)
    {
      StraightIsClose(q.fl, sqrt, q.m.nodes[v - 1], t);
      assert H(q, v) == Straight(q.fl, sqrt, q.m.nodes[v - 1], t);
    }
    forall u: nat, eid: nat, v: nat | CanStep(q.m, u, eid, v) ensures e(u) <= StepCost(q.m, eid, v) as real + e(v) {
      Triangle(sqrt, q.m.nodes[u - 1], q.m.nodes[v - 1], t);
    }
  }

  /** The planner's own float heuristic gives cheapest routes wherever every step weighs at least the distance it covers. */
  lemma CoveredIsCheapest(q: Query, sqrt: real -> real, p: seq<nat>, other: seq<nat>)
    requires ValidQuery(q) && UsesStraight(q, sqrt) && WeightsCoverDistance(q, sqrt)
    requires MayReturn(q, p) && q.start != q.target && IsRoute(q.m, q.start, other, q.target)
    ensures IsRoute(q.m, q.start, p, q.target)
    ensures RouteCost(q.m, q.start, p, q.target) <= RouteCost(q.m, q.start, other, q.target)
  {
    hide UsesStraight, WeightsCoverDistance, Informed;
    CoveredIsInformed(q, sqrt);
    ResultIsCheapest(q, Estimate(q, sqrt), p, other);
  }
}
