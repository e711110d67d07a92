/**
 * Line segments and the game's intersection tests (`Geometry.Line`).
 *
 * Java doubles are exact reals here. Where the Java code divides by zero the
 * IEEE result (an infinite or NaN incline) is encoded by `Slope`, and every
 * comparison such a value reaches is given the outcome IEEE arithmetic gives it.
 */
module Lines {
  import opened Points
  import opened Options

  /** A segment from (x1, y1) to (x2, y2). */
  datatype Line = Line(x1: real, y1: real, x2: real, y2: real)
  {
    function Start(): Point { Point(x1, y1) }
    function End(): Point { Point(x2, y2) }
  }

  /** The same segment walked the other way. */
  function Reverse(l: Line): (r: Line)
    ensures r.Start() == l.End() && r.End() == l.Start()
  {
    Line(l.x2, l.y2, l.x1, l.y1)
  }

  /** The square of `length()`. */
  function LengthSquared(l: Line): (d: real)
    ensures d >= 0.0
    ensures l.Start() == l.End() ==> d == 0.0
  {
    DistanceSquared(l.Start(), l.End())
  }

  lemma LengthOfReverse(l: Line)
    ensures LengthSquared(Reverse(l)) == LengthSquared(l)
  {
    DistanceSymmetric(l.Start(), l.End());
  }

  /** `middle()`: the midpoint of the segment. */
  function Middle(l: Line): (m: Point)
    ensures OnLine(l, m)
    ensures DistanceSquared(m, l.Start()) == DistanceSquared(m, l.End())
    ensures 4.0 * DistanceSquared(m, l.Start()) == LengthSquared(l)
  {
    var m := Point((l.x1 + l.x2) / 2.0, (l.y1 + l.y2) / 2.0);
    MiddleFacts(l, m);
    m
  }

  lemma MiddleFacts(l: Line, m: Point)
    requires m == Point((l.x1 + l.x2) / 2.0, (l.y1 + l.y2) / 2.0)
    ensures Cross(l, m) == 0.0
    ensures InBox(l, m)
    ensures DistanceSquared(m, l.Start()) == DistanceSquared(m, l.End())
    ensures 4.0 * DistanceSquared(m, l.Start()) == LengthSquared(l)
  {
    var hx, hy := (l.x2 - l.x1) / 2.0, (l.y2 - l.y1) / 2.0;
    assert m.x - l.x1 == hx && m.y - l.y1 == hy;
    assert m.x - l.x2 == -hx && m.y - l.y2 == -hy;
    assert l.x1 - l.x2 == -2.0 * hx && l.y1 - l.y2 == -2.0 * hy;
    assert Cross(l, m) == (2.0 * hx) * hy - (2.0 * hy) * hx;
    assert DistanceSquared(m, l.Start()) == hx * hx + hy * hy;
    assert LengthSquared(l) == (-2.0 * hx) * (-2.0 * hx) + (-2.0 * hy) * (-2.0 * hy);
  }

  /**
   * The cross product of the segment's direction with the vector from its
   * start to `p`: zero exactly when `p` lies on the segment's carrier line.
   */
  function Cross(l: Line, p: Point): real {
    (l.x2 - l.x1) * (p.y - l.y1) - (l.y2 - l.y1) * (p.x - l.x1)
  }

  /** `p` lies in the segment's closed bounding box. */
  predicate InBox(l: Line, p: Point) {
    Min(l.x1, l.x2) <= p.x <= Max(l.x1, l.x2) && Min(l.y1, l.y2) <= p.y <= Max(l.y1, l.y2)
  }

  /**
   * `onLine(p)`: the distance from `p` to the start plus the distance to the
   * end equals the length, which over the reals holds exactly when `p` is on
   * the closed segment: on its carrier line and inside its bounding box.
   */
  predicate OnLine(l: Line, p: Point) {
    Cross(l, p) == 0.0 && InBox(l, p)
  }

  lemma EndpointsOnLine(l: Line)
    ensures OnLine(l, l.Start()) && OnLine(l, l.End())
  {
    assert Cross(l, l.End()) == (l.x2 - l.x1) * (l.y2 - l.y1) - (l.y2 - l.y1) * (l.x2 - l.x1);
  }

  /** A point of the segment lies in the segment's ε-widened box. */
  lemma OnLineInWidenedBox(l: Line, p: Point)
    requires OnLine(l, p)
    ensures InWidenedBox(l, p.x, p.y)
  {
  }

  /** `start().equals(end())`: the segment is a point up to the tolerance. */
  predicate Degenerate(l: Line) {
    PointEquals(l.Start(), l.End())
  }

  /**
   * The incline `(y2 - y1) / (x2 - x1)` as the Java double: finite when the
   * x-coordinates differ, infinite for a vertical segment, NaN (`0 / 0`) when
   * both ends coincide exactly.
   */
  datatype Slope = Finite(m: real) | Vertical | Undefined

  function SlopeOf(l: Line): (s: Slope)
    ensures s.Finite? <==> l.x1 != l.x2
    ensures s.Undefined? <==> l.Start() == l.End()
    ensures s.Finite? ==> s.m * (l.x2 - l.x1) == l.y2 - l.y1
  {
    if l.x1 != l.x2 then Finite((l.y2 - l.y1) / (l.x2 - l.x1))
    else if l.y1 != l.y2 then Vertical
    else Undefined
  }

  /** `x` and `y` are inside the segment's bounding box grown by ε on every side. */
  predicate InWidenedBox(l: Line, x: real, y: real) {
    Min(l.x1, l.x2) - Epsilon <= x <= Max(l.x1, l.x2) + Epsilon
    && Min(l.y1, l.y2) - Epsilon <= y <= Max(l.y1, l.y2) + Epsilon
  }

  /** `a.checkPointInRange(x, y, b)`: the point is in both segments' ε-widened boxes. */
  function CheckPointInRange(a: Line, x: real, y: real, b: Line): (r: bool)
    ensures r <==> InWidenedBox(a, x, y) && InWidenedBox(b, x, y)
  {
    x - Max(a.Start().x, a.End().x) <= Epsilon
    && x - Min(a.Start().x, a.End().x) >= -Epsilon
    && y - Min(a.Start().y, a.End().y) >= -Epsilon
    && y - Max(a.Start().y, a.End().y) <= Epsilon
    && x - Max(b.Start().x, b.End().x) <= Epsilon
    && x - Min(b.Start().x, b.End().x) >= -Epsilon
    && y - Min(b.Start().y, b.End().y) >= -Epsilon
    && y - Max(b.Start().y, b.End().y) <= Epsilon
  }

  lemma CheckPointInRangeSymmetric(a: Line, b: Line, x: real, y: real)
    ensures CheckPointInRange(a, x, y, b) == CheckPointInRange(b, x, y, a)
  {
  }

  /** The height at abscissa `x` of the line through `l`'s start with incline `m`. */
  function LineYAt(l: Line, m: real, x: real): real {
    m * x - m * l.x1 + l.y1
  }

  /** The abscissa where the carrier lines of `a` (incline m1) and `b` (incline m2) meet. */
  function SolveX(a: Line, m1: real, b: Line, m2: real): (x: real)
    requires m1 != m2
    ensures LineYAt(a, m1, x) == LineYAt(b, m2, x)
  {
    var x := (-(m2 * b.x1) + b.y1 + m1 * a.x1 - a.y1) / (m1 - m2);
    SolveXMeets(a, m1, b, m2, x);
    x
  }

  lemma SolveXMeets(a: Line, m1: real, b: Line, m2: real, x: real)
    requires m1 != m2
    requires x == (-(m2 * b.x1) + b.y1 + m1 * a.x1 - a.y1) / (m1 - m2)
    ensures LineYAt(a, m1, x) == LineYAt(b, m2, x)
  {
    var n := -(m2 * b.x1) + b.y1 + m1 * a.x1 - a.y1;
    assert x * (m1 - m2) == n;
    assert m1 * x - m2 * x == n;
  }

  /**
   * `a.checkThisInfinity(b, m)` for a vertical `a`: the point of `b`'s carrier
   * line (incline `m`) at `a`'s abscissa lies in both boxes.
   */
  function CheckThisInfinity(a: Line, b: Line, m: real): (r: bool)
    ensures r <==> InWidenedBox(a, a.x1, LineYAt(b, m, a.x1)) && InWidenedBox(b, a.x1, LineYAt(b, m, a.x1))
  {
    var x := a.x1;
    CheckPointInRange(a, x, LineYAt(b, m, x), b)
  }

  /** Some endpoint of one segment lies on the other (the test at Line.java:107-110). */
  predicate EndpointOnOther(a: Line, b: Line) {
    OnLine(a, b.Start()) || OnLine(a, b.End()) || OnLine(b, a.Start()) || OnLine(b, a.End())
  }

  /**
   * The incline-based part of `isIntersecting`. Two infinite inclines give an
   * infinite or NaN height, and a NaN incline a NaN point, so every case other
   * than the three listed compares false.
   */
  function CrossingBySlopes(a: Line, b: Line): bool {
    match (SlopeOf(a), SlopeOf(b))
    case (Finite(m1), Finite(m2)) =>
      if Abs(m1 - m2) <= Epsilon then false
      else
        var x := SolveX(a, m1, b, m2);
        CheckPointInRange(a, x, LineYAt(b, m2, x), b)
    case (Vertical, Finite(m2)) => CheckThisInfinity(a, b, m2)
    case (Finite(m1), Vertical) => CheckThisInfinity(b, a, m1)
    case _ => false
  }

  /** `a.isIntersecting(b)`. */
  predicate IsIntersecting(a: Line, b: Line) {
    if Degenerate(a) && Degenerate(b) then PointEquals(a.Start(), b.Start())
    else if Degenerate(a) && OnLine(b, a.Start()) then true
    else if Degenerate(b) && OnLine(a, b.Start()) then true
    else if EndpointOnOther(a, b) then true
    else CrossingBySlopes(a, b)
  }

  /** `a.isIntersecting(b, c)`: `a` meets both. */
  function IsIntersectingBoth(a: Line, b: Line, c: Line): (r: bool)
    ensures r <==> IsIntersecting(b, a) && IsIntersecting(c, a)
  {
    IsIntersectingSymmetric(a, b);
    IsIntersectingSymmetric(a, c);
    IsIntersecting(a, b) && IsIntersecting(a, c)
  }

  /** Two segments that are both points meet exactly when their starts are equal. */
  lemma BothDegenerate(a: Line, b: Line)
    requires Degenerate(a) && Degenerate(b)
    ensures IsIntersecting(a, b) <==> PointEquals(a.Start(), b.Start())
  {
  }

  /** A point-like segment meets every segment its point lies on. */
  lemma PointOnSegmentIntersects(a: Line, b: Line)
    requires Degenerate(a) && !Degenerate(b)
    requires OnLine(b, a.Start())
    ensures IsIntersecting(a, b) && IsIntersecting(b, a)
  {
  }

  /** Unless both are points, an endpoint lying on the other segment is a hit. */
  lemma EndpointOnOtherIntersects(a: Line, b: Line)
    requires !(Degenerate(a) && Degenerate(b))
    requires EndpointOnOther(a, b)
    ensures IsIntersecting(a, b)
  {
  }

  /** Away from points and touching endpoints, the inclines decide. */
  lemma DecidedBySlopes(a: Line, b: Line)
    requires !Degenerate(a) && !Degenerate(b) && !EndpointOnOther(a, b)
    ensures IsIntersecting(a, b) == CrossingBySlopes(a, b)
  {
  }

  /** Inclines within ε of each other count as parallel: no crossing. */
  lemma ParallelNeverCross(a: Line, b: Line)
    requires SlopeOf(a).Finite? && SlopeOf(b).Finite?
    requires Abs(SlopeOf(a).m - SlopeOf(b).m) <= Epsilon
    ensures !CrossingBySlopes(a, b)
  {
  }

  /** Two vertical segments never cross by inclines (only by a shared endpoint). */
  lemma VerticalsNeverCross(a: Line, b: Line)
    requires SlopeOf(a).Vertical? && SlopeOf(b).Vertical?
    ensures !CrossingBySlopes(a, b)
  {
  }

  /** A vertical segment crosses a sloped one iff the meeting point is in both boxes. */
  lemma VerticalCrossing(a: Line, b: Line)
    requires SlopeOf(a).Vertical? && SlopeOf(b).Finite?
    ensures var y := LineYAt(b, SlopeOf(b).m, a.x1);
      CrossingBySlopes(a, b) <==> InWidenedBox(a, a.x1, y) && InWidenedBox(b, a.x1, y)
  {
  }

  /** The incline test does not depend on the order of the segments. */
  lemma CrossingBySlopesSymmetric(a: Line, b: Line)
    ensures CrossingBySlopes(a, b) == CrossingBySlopes(b, a)
  {
    match (SlopeOf(a), SlopeOf(b))
    case (Finite(m1), Finite(m2)) =>
      if Abs(m1 - m2) > Epsilon {
        var x := SolveX(a, m1, b, m2);
        var x' := SolveX(b, m2, a, m1);
        SolveXSymmetric(a, m1, b, m2);
        assert x == x';
        assert LineYAt(b, m2, x) == LineYAt(a, m1, x');
      }
    case (Vertical, Finite(m2)) =>
    case (Finite(m1), Vertical) =>
    case _ =>
  }

  lemma SolveXSymmetric(a: Line, m1: real, b: Line, m2: real)
    requires m1 != m2
    ensures SolveX(a, m1, b, m2) == SolveX(b, m2, a, m1)
  {
    var n := -(m2 * b.x1) + b.y1 + m1 * a.x1 - a.y1;
    var n' := -(m1 * a.x1) + a.y1 + m2 * b.x1 - b.y1;
    assert n' == -n;
    assert n / (m1 - m2) == (-n) / (m2 - m1);
  }

  /** `isIntersecting` is symmetric. */
  lemma IsIntersectingSymmetric(a: Line, b: Line)
    ensures IsIntersecting(a, b) == IsIntersecting(b, a)
  {
    CrossingBySlopesSymmetric(a, b);
  }

  /** `a.equals(b)`: each end of `a` equals some end of `b`. */
  predicate LineEquals(a: Line, b: Line) {
    (PointEquals(a.Start(), b.Start()) || PointEquals(a.Start(), b.End()))
    && (PointEquals(a.End(), b.Start()) || PointEquals(a.End(), b.End()))
  }

  /** A segment equals itself and its reverse. */
  lemma LineEqualsItselfAndReverse(l: Line)
    ensures LineEquals(l, l) && LineEquals(l, Reverse(l))
  {
    PointEqualsReflexive(l.Start());
    PointEqualsReflexive(l.End());
  }

  /**
   * `a.intersectionWith(b)`, with `None` for `null`. The checks run in the
   * source's order; the fifth passes `a` twice to the range test, as written.
   */
  function IntersectionWith(a: Line, b: Line): (r: Option<Point>)
    ensures r.Some? ==> InWidenedBox(a, r.value.x, r.value.y)
  {
    if LineEquals(a, b) && LengthSquared(a) > Epsilon * Epsilon then None
    else if PointEquals(a.Start(), b.Start()) || PointEquals(a.Start(), b.End()) then Some(a.Start())
    else if PointEquals(a.End(), b.Start()) || PointEquals(a.End(), b.End()) then Some(a.End())
    else if LengthSquared(a) <= Epsilon * Epsilon && CheckPointInRange(a, a.x1, a.y1, b) then Some(a.Start())
    else if LengthSquared(b) <= Epsilon * Epsilon && CheckPointInRange(a, b.x1, b.y1, a) then Some(b.Start())
    else if IsIntersecting(a, b) then SolveIntersection(a, b)
    else None
  }

  /** The computation at Line.java:205-230 once `isIntersecting` holds. */
  function SolveIntersection(a: Line, b: Line): (r: Option<Point>)
    ensures r.Some? ==> InWidenedBox(a, r.value.x, r.value.y)
    ensures r.Some? && SlopeOf(a).Finite? && SlopeOf(b).Finite? ==>
      r.value.y == LineYAt(a, SlopeOf(a).m, r.value.x) && r.value.y == LineYAt(b, SlopeOf(b).m, r.value.x)
    ensures r.Some? && SlopeOf(a).Finite? && SlopeOf(b).Finite? ==>
      SlopeOf(a).m != SlopeOf(b).m && r.value.x == SolveX(a, SlopeOf(a).m, b, SlopeOf(b).m)
  {
    match (SlopeOf(a), SlopeOf(b))
    case (Vertical, Finite(m2)) =>
      if CheckThisInfinity(a, b, m2) then Some(Point(a.x1, LineYAt(b, m2, a.x1))) else None
    case (Finite(m1), Vertical) =>
      if CheckThisInfinity(b, a, m1) then Some(Point(b.x1, LineYAt(a, m1, b.x1))) else None
    case (Finite(m1), Finite(m2)) =>
      if m1 == m2 then None
      else
        var x := SolveX(a, m1, b, m2);
        var y := LineYAt(a, m1, x);
        if Epsilon <= Max(a.x1, a.x2) - x && Epsilon >= Min(a.x1, a.x2) - x
           && Epsilon >= Min(a.y1, a.y2) - y && Epsilon <= Max(a.y1, a.y2) - y
        then Some(Point(x, y))
        else None
    case _ => None
  }

  /** A segment longer than ε has no single intersection with itself or its reverse. */
  lemma NoIntersectionWithItself(l: Line)
    requires LengthSquared(l) > Epsilon * Epsilon
    ensures IntersectionWith(l, l) == None
    ensures IntersectionWith(l, Reverse(l)) == None
  {
    LineEqualsItselfAndReverse(l);
  }

  /** A shared start wins over every computed point. */
  lemma SharedStartWins(a: Line, b: Line)
    requires !LineEquals(a, b)
    requires PointEquals(a.Start(), b.Start()) || PointEquals(a.Start(), b.End())
    ensures IntersectionWith(a, b) == Some(a.Start())
  {
  }

  /** Otherwise a shared end is returned. */
  lemma SharedEndWins(a: Line, b: Line)
    requires !LineEquals(a, b)
    requires !PointEquals(a.Start(), b.Start()) && !PointEquals(a.Start(), b.End())
    requires PointEquals(a.End(), b.Start()) || PointEquals(a.End(), b.End())
    ensures IntersectionWith(a, b) == Some(a.End())
  {
  }

  /** Segments that do not intersect (and share no end) have no intersection point. */
  lemma NoPointWithoutIntersecting(a: Line, b: Line)
    requires !IsIntersecting(a, b)
    requires !PointEquals(a.Start(), b.Start()) && !PointEquals(a.Start(), b.End())
    requires !PointEquals(a.End(), b.Start()) && !PointEquals(a.End(), b.End())
    requires LengthSquared(a) > Epsilon * Epsilon && LengthSquared(b) > Epsilon * Epsilon
    ensures IntersectionWith(a, b) == None
  {
  }

  /**
   * Once neither end is shared and neither segment is a point, the result is
   * whatever the incline computation yields.
   */
  lemma FallsThroughToSolve(a: Line, b: Line)
    requires !PointEquals(a.Start(), b.Start()) && !PointEquals(a.Start(), b.End())
    requires !PointEquals(a.End(), b.Start()) && !PointEquals(a.End(), b.End())
    requires LengthSquared(a) > Epsilon * Epsilon && LengthSquared(b) > Epsilon * Epsilon
    requires IsIntersecting(a, b)
    ensures IntersectionWith(a, b) == SolveIntersection(a, b)
  {
  }

  /**
   * The final range test keeps only points at least ε below `a`'s largest
   * x-coordinate, so a meeting point at `a`'s right end is never returned.
   */
  lemma SolvedPointShunsHighEnd(a: Line, b: Line)
    requires SlopeOf(a).Finite? && SlopeOf(b).Finite?
    requires SolveIntersection(a, b).Some?
    ensures SolveIntersection(a, b).value.x <= Max(a.x1, a.x2) - Epsilon
    ensures SolveIntersection(a, b).value.y <= Max(a.y1, a.y2) - Epsilon
  {
  }

  /** A point of a segment with a finite incline is on the line `LineYAt` describes. */
  lemma OnCarrierLine(l: Line, p: Point)
    requires OnLine(l, p) && SlopeOf(l).Finite?
    ensures p.y == LineYAt(l, SlopeOf(l).m, p.x)
  {
    var m, d := SlopeOf(l).m, l.x2 - l.x1;
    assert d * (p.y - l.y1) == (m * d) * (p.x - l.x1);
    assert d * (p.y - l.y1) == d * (m * (p.x - l.x1));
    Cancel(d, p.y - l.y1, m * (p.x - l.x1));
  }

  lemma Cancel(d: real, u: real, v: real)
    requires d != 0.0 && d * u == d * v
    ensures u == v
  {
    assert d * (u - v) == 0.0;
    assert u - v == (d * (u - v)) / d;
  }

  /** `SolveX` finds the only abscissa where the two carrier lines meet. */
  lemma SolveXUnique(a: Line, m1: real, b: Line, m2: real, x: real)
    requires m1 != m2
    requires LineYAt(a, m1, x) == LineYAt(b, m2, x)
    ensures SolveX(a, m1, b, m2) == x
  {
    var n := -(m2 * b.x1) + b.y1 + m1 * a.x1 - a.y1;
    var d := m1 - m2;
    assert d * x == n;
    assert d * (n / d) == n;
    Cancel(d, x, n / d);
  }

  /**
   * Two segments with finite inclines more than ε apart that share a point
   * intersect (unless both are points).
   */
  lemma CrossingFound(a: Line, b: Line, p: Point)
    requires OnLine(a, p) && OnLine(b, p)
    requires SlopeOf(a).Finite? && SlopeOf(b).Finite?
    requires Abs(SlopeOf(a).m - SlopeOf(b).m) > Epsilon
    requires !(Degenerate(a) && Degenerate(b))
    ensures IsIntersecting(a, b)
  {
    var m1, m2 := SlopeOf(a).m, SlopeOf(b).m;
    OnCarrierLine(a, p);
    OnCarrierLine(b, p);
    SolveXUnique(a, m1, b, m2, p.x);
    assert CheckPointInRange(a, p.x, p.y, b);
    assert CrossingBySlopes(a, b);
  }
}
