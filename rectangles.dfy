/**
 * Axis-parallel rectangles with their four cached edges (`Geometry.Rectangle`),
 * the closed containment test of `Point.checkIfInBlock`, and the search for the
 * intersection closest to a line's start (`Line.closestIntersectionToStartOfLine`).
 */
module Rectangles {
  import opened Points
  import opened Options
  import opened Lines

  /**
   * The edges a rectangle with upper-left corner `ul`, width `w` and height
   * `h` caches, in the order top, bottom, right, left. Walking top, right,
   * bottom reversed and left reversed visits the four corners in turn.
   */
  function EdgeLayout(ul: Point, w: real, h: real): (es: seq<Line>)
    ensures |es| == 4
    ensures es[0].Start() == ul && es[3].Start() == ul
    ensures es[0].End() == es[2].Start() && es[2].End() == es[1].End() && es[1].Start() == es[3].End()
    ensures es[0].End() == Point(ul.x + w, ul.y) && es[1].End() == Point(ul.x + w, ul.y + h)
    ensures es[3].End() == Point(ul.x, ul.y + h)
  {
    [ Line(ul.x, ul.y, ul.x + w, ul.y),
      Line(ul.x, ul.y + h, ul.x + w, ul.y + h),
      Line(ul.x + w, ul.y, ul.x + w, ul.y + h),
      Line(ul.x, ul.y, ul.x, ul.y + h) ]
  }

  /**
   * `line.isIntersecting(edge)` guarding `line.intersectionWith(edge)`, as
   * `intersectionPoints` does for each edge.
   */
  function EdgeHit(line: Line, edge: Line): (r: Option<Point>)
    ensures r.Some? ==> IsIntersecting(edge, line)
    ensures r.Some? ==> InWidenedBox(line, r.value.x, r.value.y)
  {
    IsIntersectingSymmetric(line, edge);
    if IsIntersecting(line, edge) then IntersectionWith(line, edge) else None
  }

  /**
   * The list `intersectionPoints` builds over the edges `es`, in edge order.
   * Its duplicate test uses reference identity on freshly built points, so it
   * never drops a point: one point per hit edge.
   */
  function IntersectionPointsOf(line: Line, es: seq<Line>): (pts: seq<Point>)
    ensures |pts| <= |es|
  {
    if |es| == 0 then []
    else
      var rest := IntersectionPointsOf(line, es[..|es| - 1]);
      match EdgeHit(line, es[|es| - 1])
      case Some(p) => rest + [p]
      case None => rest
  }

  /** A point is listed exactly when some edge yields it. */
  lemma {:induction false} IntersectionPointsMembers(line: Line, es: seq<Line>, p: Point)
    ensures p in IntersectionPointsOf(line, es) <==> exists i :: 0 <= i < |es| && EdgeHit(line, es[i]) == Some(p)
  {
    if |es| > 0 {
      var init := es[..|es| - 1];
      IntersectionPointsMembers(line, init, p);
      if p in IntersectionPointsOf(line, init) {
        var i :| 0 <= i < |init| && EdgeHit(line, init[i]) == Some(p);
        assert es[i] == init[i];
      }
      if exists i :: 0 <= i < |es| && EdgeHit(line, es[i]) == Some(p) {
        var i :| 0 <= i < |es| && EdgeHit(line, es[i]) == Some(p);
        if i < |es| - 1 {
          assert init[i] == es[i];
        }
      }
    }
  }

  /** No edge yields a point exactly when the list is empty. */
  lemma {:induction false} IntersectionPointsEmpty(line: Line, es: seq<Line>)
    ensures IntersectionPointsOf(line, es) == [] <==> forall i :: 0 <= i < |es| ==> EdgeHit(line, es[i]).None?
  {
    if |es| > 0 {
      var init := es[..|es| - 1];
      IntersectionPointsEmpty(line, init);
      assert forall i :: 0 <= i < |init| ==> init[i] == es[i];
    }
  }

  /**
   * The loop of `closestIntersectionToStartOfLine`: a later point replaces the
   * current choice when it is nearer to the start than to the current choice.
   */
  function SelectClosest(start: Point, pts: seq<Point>): (r: Option<Point>)
    ensures r.None? <==> |pts| == 0
    ensures r.Some? ==> r.value in pts
  {
    if |pts| == 0 then None
    else
      var prev := SelectClosest(start, pts[..|pts| - 1]);
      var p := pts[|pts| - 1];
      if prev.None? || DistanceSquared(p, start) < DistanceSquared(p, prev.value) then Some(p)
      else prev
  }

  /** A single candidate is always chosen. */
  lemma SelectClosestSingle(start: Point, p: Point)
    ensures SelectClosest(start, [p]) == Some(p)
  {
    assert [p][..0] == [];
  }

  /**
   * The choice is not the point nearest to the start: from (1, 0), of
   * (1, -15) and (1, -10) the first is kept, because (1, -10) is nearer to
   * (1, -15) than to the start.
   */
  lemma SelectClosestNotNearest(start: Point, far: Point, near: Point)
    requires start == Point(1.0, 0.0) && far == Point(1.0, -15.0) && near == Point(1.0, -10.0)
    ensures DistanceSquared(near, start) < DistanceSquared(far, start)
    ensures SelectClosest(start, [far, near]) == Some(far)
  {
    assert [far, near][..1] == [far];
    SelectClosestSingle(start, far);
  }

  /** `Point.checkIfInBlock` against a rectangle: the closed box test. */
  predicate CheckIfInBlock(p: Point, r: Rectangle)
    reads r
  {
    p.x >= r.upperLeft.x && p.x <= r.upperLeft.x + r.width
    && p.y >= r.upperLeft.y && p.y <= r.upperLeft.y + r.height
  }

  /**
   * On a rectangle whose cached edges fit its corner and size, every point of
   * every edge passes `checkIfInBlock`: edges count as inside.
   */
  lemma EdgePointsInBlock(r: Rectangle, i: int, p: Point)
    requires r.Valid() && r.EdgesFit() && r.width >= 0.0 && r.height >= 0.0
    requires 0 <= i < 4 && OnLine(r.edges[i], p)
    ensures CheckIfInBlock(p, r)
  {
    assert r.edges[i] == EdgeLayout(r.upperLeft, r.width, r.height)[i];
  }

  /** The four corners of a rectangle with non-negative sides pass `checkIfInBlock`. */
  lemma CornersInBlock(r: Rectangle)
    requires r.width >= 0.0 && r.height >= 0.0
    ensures var ul := r.upperLeft;
      CheckIfInBlock(ul, r) && CheckIfInBlock(Point(ul.x + r.width, ul.y), r)
      && CheckIfInBlock(Point(ul.x, ul.y + r.height), r) && CheckIfInBlock(Point(ul.x + r.width, ul.y + r.height), r)
  {
  }

  /**
   * Outside the closed box, `checkIfInBlock` fails: a point left of, right
   * of, above or below the rectangle by any amount is not inside.
   */
  lemma OutsideNotInBlock(p: Point, r: Rectangle)
    requires p.x < r.upperLeft.x || p.x > r.upperLeft.x + r.width || p.y < r.upperLeft.y || p.y > r.upperLeft.y + r.height
    ensures !CheckIfInBlock(p, r)
  {
  }

  class Rectangle {
    var upperLeft: Point
    const width: real
    const height: real
    /** The cached edges; `getEdges` returns this very array, never a copy. */
    const edges: array<Line>

    ghost predicate Valid() {
      edges.Length == 4
    }

    /** The edges agree with the current corner and size. */
    ghost predicate EdgesFit()
      reads this, edges
    {
      edges[..] == EdgeLayout(upperLeft, width, height)
    }

    constructor (upperLeft: Point, width: real, height: real)
      ensures Valid() && EdgesFit()
      ensures this.upperLeft == upperLeft && this.width == width && this.height == height
      ensures fresh(edges)
    {
      this.upperLeft := upperLeft;
      this.width := width;
      this.height := height;
      var es := new Line[4];
      var layout := EdgeLayout(upperLeft, width, height);
      es[0] := layout[0];
      es[1] := layout[1];
      es[2] := layout[2];
      es[3] := layout[3];
      edges := es;
      new;
      assert edges[..] == layout;
    }

    /** Moves the corner only; the cached edges are left as they were. */
    method SetUpperLeft(p: Point)
      modifies this
      ensures upperLeft == p
      ensures edges[..] == old(edges[..])
    {
      upperLeft := p;
    }

    /** Copies the first four lines of `source` into the cached array, in place. */
    method SetEdges(source: array<Line>)
      requires Valid() && source.Length >= 4
      modifies edges
      ensures edges[..] == old(source[..4])
    {
      var s0, s1, s2, s3 := source[0], source[1], source[2], source[3];
      edges[0] := s0;
      edges[1] := s1;
      edges[2] := s2;
      edges[3] := s3;
      assert edges[..] == [s0, s1, s2, s3];
    }

    /** `equals`: ε-equal corners and exactly equal sizes. */
    predicate Equals(other: Rectangle)
      reads this, other
    {
      PointEquals(upperLeft, other.upperLeft) && width == other.width && height == other.height
    }

    /** The points where `line` meets the edges, in edge order. */
    method IntersectionPoints(line: Line) returns (pts: seq<Point>)
      requires Valid()
      ensures pts == IntersectionPointsOf(line, edges[..])
    {
      pts := [];
      for i := 0 to 4
        invariant pts == IntersectionPointsOf(line, edges[..i])
      {
        assert edges[..i + 1][..i] == edges[..i];
        var edge := edges[i];
        if IsIntersecting(line, edge) {
          var hit := IntersectionWith(line, edge);
          if hit.Some? {
            pts := pts + [hit.value];
          }
        }
      }
      assert edges[..4] == edges[..];
    }
  }

  /** `equals` is reflexive and symmetric. */
  lemma RectangleEqualsReflexiveSymmetric(r: Rectangle, s: Rectangle)
    ensures r.Equals(r)
    ensures r.Equals(s) <==> s.Equals(r)
  {
    PointEqualsReflexive(r.upperLeft);
    PointEqualsSymmetric(r.upperLeft, s.upperLeft);
  }

  /**
   * `line.closestIntersectionToStartOfLine(rect)`: `None` exactly when no edge
   * yields a point, otherwise one of the points found.
   */
  method ClosestIntersectionToStartOfLine(line: Line, rect: Rectangle) returns (closest: Option<Point>)
    requires rect.Valid()
    ensures closest == SelectClosest(line.Start(), IntersectionPointsOf(line, rect.edges[..]))
  {
    var intersections := rect.IntersectionPoints(line);
    closest := None;
    for i := 0 to |intersections|
      invariant closest == SelectClosest(line.Start(), intersections[..i])
    {
      assert intersections[..i + 1][..i] == intersections[..i];
      var p := intersections[i];
      if closest.None? || DistanceSquared(p, line.Start()) < DistanceSquared(p, closest.value) {
        closest := Some(p);
      }
    }
    assert intersections[..|intersections|] == intersections;
  }
}
