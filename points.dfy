/**
 * Points of the plane, with the game's tolerance-based equality.
 * Java `double` coordinates are modelled as exact reals.
 */
module Points {

  /** The tolerance every geometric comparison of the game uses. */
  const Epsilon: real := 0.000001

  function Abs(x: real): real { if x < 0.0 then -x else x }

  /** Java's `Math.max` and `Math.min` on finite doubles. */
  function Max(a: real, b: real): real { if a >= b then a else b }
  function Min(a: real, b: real): real { if a <= b then a else b }

  /** A point; its coordinates never change after construction. */
  datatype Point = Point(x: real, y: real)

  /**
   * The square of `p.distance(q)`. The game only compares distances with
   * each other or with `Epsilon`, and on non-negative numbers `sqrt` preserves
   * order, so the squares decide every such comparison the same way.
   */
  function DistanceSquared(p: Point, q: Point): (d: real)
    ensures d >= 0.0
    ensures p == q ==> d == 0.0
  {
    SquareSign(p.x - q.x);
    SquareSign(p.y - q.y);
    (p.x - q.x) * (p.x - q.x) + (p.y - q.y) * (p.y - q.y)
  }

  /** A square is never negative. */
  lemma SquareSign(d: real)
    ensures d * d >= 0.0
  {
    if d < 0.0 {
      var e := -d;
      assert e * e > 0.0;
      assert d * d == e * e;
    }
  }

  /** `Point.equals(Point)`: both coordinates within the tolerance. */
  predicate PointEquals(p: Point, q: Point) {
    Abs(p.x - q.x) <= Epsilon && Abs(p.y - q.y) <= Epsilon
  }

  lemma PointEqualsReflexive(p: Point)
    ensures PointEquals(p, p)
  {
  }

  lemma PointEqualsSymmetric(p: Point, q: Point)
    ensures PointEquals(p, q) <==> PointEquals(q, p)
  {
  }

  /** The distance is symmetric and is zero exactly from a point to itself. */
  lemma DistanceSymmetric(p: Point, q: Point)
    ensures DistanceSquared(p, q) == DistanceSquared(q, p)
    ensures DistanceSquared(p, p) == 0.0
  {
  }

  /**
   * Equality compares each coordinate separately (a square of side 2ε), not
   * the Euclidean distance (a disc of radius ε): two points a diagonal ε apart
   * are equal although their distance exceeds ε.
   */
  lemma EqualityIsPerCoordinate()
    ensures PointEquals(Point(0.0, 0.0), Point(Epsilon, Epsilon))
    ensures DistanceSquared(Point(0.0, 0.0), Point(Epsilon, Epsilon)) > Epsilon * Epsilon
  {
  }

  /** Equal points are at most a diagonal ε apart. */
  lemma EqualPointsAreClose(p: Point, q: Point)
    requires PointEquals(p, q)
    ensures DistanceSquared(p, q) <= 2.0 * Epsilon * Epsilon
  {
    var dx, dy := p.x - q.x, p.y - q.y;
    SquareBound(dx);
    SquareBound(dy);
  }

  lemma SquareBound(d: real)
    requires Abs(d) <= Epsilon
    ensures d * d <= Epsilon * Epsilon
  {
    var a := Abs(d);
    assert d * d == a * a;
    MulMonotone(a, a, Epsilon);
    MulMonotone(Epsilon, a, Epsilon);
  }

  /** Multiplying by a non-negative factor keeps the order. */
  lemma MulMonotone(a: real, b: real, c: real)
    requires 0.0 <= a && b <= c
    ensures a * b <= a * c
  {
    assert a * c - a * b == a * (c - b);
  }
}
