/**
 * Concrete segments on which the intersection tests of `Geometry.Line`
 * behave differently from exact geometry. Each fact about a concrete pair is
 * its own small lemma; the statements combine them with the general lemmas.
 */
module LineExamples {
  import opened Points
  import opened Options
  import opened Lines

  /** Two point-like segments that share the point (ε, 0) but whose starts are 2ε apart. */
  predicate TwoNearPoints(a: Line, b: Line) {
    a == Line(0.0, 0.0, 0.000001, 0.0) && b == Line(0.000002, 0.0, 0.000001, 0.0)
  }

  lemma TwoNearPointsShareEnd()
    ensures OnLine(Line(0.0, 0.0, 0.000001, 0.0), Point(0.000001, 0.0))
  {
  }

  lemma TwoNearPointsFirstIsPoint()
    ensures Degenerate(Line(0.0, 0.0, 0.000001, 0.0))
  {
  }

  lemma TwoNearPointsSecondIsPoint()
    ensures Degenerate(Line(0.000002, 0.0, 0.000001, 0.0))
  {
  }

  lemma TwoNearPointsStartsApart()
    ensures !PointEquals(Point(0.0, 0.0), Point(0.000002, 0.0))
  {
  }

  /**
   * For two point-like segments only the starts are compared: these share an
   * end, yet they do not intersect.
   */
  lemma SharedEndOfTwoPointsMissed(a: Line, b: Line)
    requires TwoNearPoints(a, b)
    ensures EndpointOnOther(a, b) && !IsIntersecting(a, b)
  {
    TwoNearPointsShareEnd();
    TwoNearPointsFirstIsPoint();
    TwoNearPointsSecondIsPoint();
    TwoNearPointsStartsApart();
    BothDegenerate(a, b);
  }

  /** A horizontal segment and one rising by 0.00001 over 10 units, both through (4, 0). */
  predicate NearlyParallel(a: Line, b: Line, p: Point) {
    a == Line(0.0, 0.0, 10.0, 0.0) && b == Line(0.0, -0.000004, 10.0, 0.000006) && p == Point(4.0, 0.0)
  }

  lemma NearlyParallelPOnFirst()
    ensures OnLine(Line(0.0, 0.0, 10.0, 0.0), Point(4.0, 0.0))
  {
  }

  lemma NearlyParallelPOnSecond()
    ensures OnLine(Line(0.0, -0.000004, 10.0, 0.000006), Point(4.0, 0.0))
  {
  }

  lemma NearlyParallelFirstFlat()
    ensures SlopeOf(Line(0.0, 0.0, 10.0, 0.0)) == Finite(0.0)
  {
  }

  lemma NearlyParallelSecondRises()
    ensures SlopeOf(Line(0.0, -0.000004, 10.0, 0.000006)) == Finite(0.000001)
  {
  }

  lemma NearlyParallelFirstNotPoint()
    ensures !Degenerate(Line(0.0, 0.0, 10.0, 0.0))
  {
  }

  lemma NearlyParallelSecondNotPoint()
    ensures !Degenerate(Line(0.0, -0.000004, 10.0, 0.000006))
  {
  }

  lemma NearlyParallelSecondStartOff()
    ensures !OnLine(Line(0.0, 0.0, 10.0, 0.0), Point(0.0, -0.000004))
  {
  }

  lemma NearlyParallelSecondEndOff()
    ensures !OnLine(Line(0.0, 0.0, 10.0, 0.0), Point(10.0, 0.000006))
  {
  }

  lemma NearlyParallelFirstStartOff()
    ensures !OnLine(Line(0.0, -0.000004, 10.0, 0.000006), Point(0.0, 0.0))
  {
  }

  lemma NearlyParallelFirstEndOff()
    ensures !OnLine(Line(0.0, -0.000004, 10.0, 0.000006), Point(10.0, 0.0))
  {
  }

  /**
   * Inclines at most ε apart are treated as parallel, so a genuine crossing
   * is missed: both segments pass through (4, 0), yet they do not intersect.
   */
  lemma NearlyParallelCrossingMissed(a: Line, b: Line, p: Point)
    requires NearlyParallel(a, b, p)
    ensures OnLine(a, p) && OnLine(b, p) && !IsIntersecting(a, b)
  {
    NearlyParallelMissed(a, b, p);
    NearlyParallelPOnFirst();
    NearlyParallelPOnSecond();
  }

  /** The slope half of `NearlyParallelCrossingMissed`: the pair fails the intersection test. */
  lemma NearlyParallelMissed(a: Line, b: Line, p: Point)
    requires NearlyParallel(a, b, p)
    ensures !IsIntersecting(a, b)
  {
    NearlyParallelFirstFlat();
    NearlyParallelSecondRises();
    NearlyParallelFirstNotPoint();
    NearlyParallelSecondNotPoint();
    NearlyParallelSecondStartOff();
    NearlyParallelSecondEndOff();
    NearlyParallelFirstStartOff();
    NearlyParallelFirstEndOff();
    assert SlopeOf(a) == Finite(0.0) && SlopeOf(b) == Finite(0.000001);
    assert Abs(0.0 - 0.000001) <= Epsilon;
    ParallelNeverCross(a, b);
    DecidedBySlopes(a, b);
  }

  /** The diagonal (0,0)-(5,5), whose end lies on the horizontal (0,5)-(10,5). */
  predicate DiagonalTouching(a: Line, b: Line) {
    a == Line(0.0, 0.0, 5.0, 5.0) && b == Line(0.0, 5.0, 10.0, 5.0)
  }

  lemma DiagonalEndOnHorizontal()
    ensures OnLine(Line(0.0, 5.0, 10.0, 5.0), Point(5.0, 5.0))
  {
  }

  lemma DiagonalTouchingNotPoints()
    ensures !Degenerate(Line(0.0, 0.0, 5.0, 5.0)) && !Degenerate(Line(0.0, 5.0, 10.0, 5.0))
  {
  }

  lemma DiagonalStartNotShared()
    ensures !PointEquals(Point(0.0, 0.0), Point(0.0, 5.0)) && !PointEquals(Point(0.0, 0.0), Point(10.0, 5.0))
  {
  }

  lemma DiagonalEndNotShared()
    ensures !PointEquals(Point(5.0, 5.0), Point(0.0, 5.0)) && !PointEquals(Point(5.0, 5.0), Point(10.0, 5.0))
  {
  }

  lemma DiagonalLength()
    ensures LengthSquared(Line(0.0, 0.0, 5.0, 5.0)) == 50.0
  {
  }

  lemma HorizontalLength()
    ensures LengthSquared(Line(0.0, 5.0, 10.0, 5.0)) == 100.0
  {
  }

  lemma DiagonalSlope()
    ensures SlopeOf(Line(0.0, 0.0, 5.0, 5.0)) == Finite(1.0)
  {
  }

  lemma HorizontalSlope()
    ensures SlopeOf(Line(0.0, 5.0, 10.0, 5.0)) == Finite(0.0)
  {
  }

  lemma DiagonalTouchingMeetAtFive(a: Line, b: Line)
    requires DiagonalTouching(a, b)
    ensures SolveX(a, 1.0, b, 0.0) == 5.0
  {
    SolveXUnique(a, 1.0, b, 0.0, 5.0);
  }

  lemma DiagonalTouchingIntersects(a: Line, b: Line)
    requires DiagonalTouching(a, b)
    ensures IsIntersecting(a, b)
  {
    DiagonalEndOnHorizontal();
    DiagonalTouchingNotPoints();
    EndpointOnOtherIntersects(a, b);
  }

  lemma DiagonalTouchingFallsThrough(a: Line, b: Line)
    requires DiagonalTouching(a, b)
    ensures IntersectionWith(a, b) == SolveIntersection(a, b)
  {
    DiagonalTouchingIntersects(a, b);
    DiagonalStartNotShared();
    DiagonalEndNotShared();
    DiagonalLength();
    HorizontalLength();
    FallsThroughToSolve(a, b);
  }

  lemma DiagonalTouchingSolvedAtFive(a: Line, b: Line)
    requires DiagonalTouching(a, b)
    ensures SolveIntersection(a, b).Some? ==> SolveIntersection(a, b).value.x == 5.0
  {
    DiagonalSlope();
    HorizontalSlope();
    DiagonalTouchingMeetAtFive(a, b);
    assert SlopeOf(a) == Finite(1.0) && SlopeOf(b) == Finite(0.0);
  }

  lemma DiagonalTouchingSolvesToNothing(a: Line, b: Line)
    requires DiagonalTouching(a, b)
    ensures SolveIntersection(a, b) == None
  {
    if SolveIntersection(a, b).Some? {
      DiagonalSlope();
      HorizontalSlope();
      DiagonalTouchingSolvedAtFive(a, b);
      SolvedPointShunsHighEnd(a, b);
      assert false;
    }
  }

  /**
   * The final range test rejects a meeting point at `a`'s high end: these
   * segments intersect, yet `intersectionWith` returns no point.
   */
  lemma TouchingEndGivesNoPoint(a: Line, b: Line)
    requires DiagonalTouching(a, b)
    ensures IsIntersecting(a, b) && IntersectionWith(a, b) == None
  {
    DiagonalTouchingIntersects(a, b);
    DiagonalTouchingFallsThrough(a, b);
    DiagonalTouchingSolvesToNothing(a, b);
  }
}
