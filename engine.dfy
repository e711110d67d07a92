/**
 * The collision engine's objects: blocks, the paddle and the ball, the
 * registry of collidables (`Level.GameEnvironment`), the score-tracking hit
 * listener, and the dispatch of a hit to whichever collidable was struck.
 *
 * Java's `Collidable` and `HitListener` interfaces become datatypes whose
 * variants hold the implementing objects; `Collidable.hit` dispatches on the
 * variant.
 */
module Engine {
  import opened JavaNumerics
  import opened Points
  import opened Options
  import opened Lines
  import opened Rectangles
  import opened Velocities
  import opened Counters
  import opened ListOps

  /**
   * `java.awt.Color` as far as `Block.hit` looks at it: the `Color.darkGray`
   * constant the walls are painted with, or any other colour object.
   */
  datatype Color = DarkGray | OtherColor(rgb: int)

  // ----- Hit listeners -----

  /** `Level.ScoreTrackingListener`: adds to a counter it shares with its creator. */
  class ScoreTrackingListener {
    /** The very counter given at construction; `getCurrentScore` returns it. */
    const currentScore: Counter

    constructor (scoreCounter: Counter)
      ensures currentScore == scoreCounter
    {
      currentScore := scoreCounter;
    }

    /** `setCurrentScore(num)` adds `num`; it does not assign it. */
    method SetCurrentScore(num: Int32)
      modifies currentScore
      ensures currentScore.count == Wrap32(old(currentScore.count) as int + num as int)
    {
      currentScore.Increase(num);
    }

    /** Every hit is worth 5 points; the block and the ball are not touched. */
    method HitEvent(beingHit: Block, hitter: Ball)
      modifies currentScore
      ensures currentScore.count == Wrap32(old(currentScore.count) as int + 5)
    {
      currentScore.Increase(5);
    }
  }

  /**
   * A hit listener: a score tracker, or one of the remover listeners, which
   * act on the level and are not part of this model (here they do nothing).
   */
  datatype HitListener = ScoreTracking(tracker: ScoreTrackingListener) | Remover(id: nat)

  /** The counters the score trackers among `ls` add to. */
  function ScoreCounters(ls: seq<HitListener>): set<Counter> {
    set i | 0 <= i < |ls| && ls[i].ScoreTracking? :: ls[i].tracker.currentScore
  }

  /** What notifying each listener of `ls` once adds to counter `c`: 5 per tracker of `c`. */
  function Bonus(ls: seq<HitListener>, c: Counter): int {
    if |ls| == 0 then 0
    else
      var last := ls[|ls| - 1];
      Bonus(ls[..|ls| - 1], c) + (if last.ScoreTracking? && last.tracker.currentScore == c then 5 else 0)
  }

  /** Only the listed trackers' counters gain anything, and each of them gains. */
  lemma {:induction false} BonusPositive(ls: seq<HitListener>, c: Counter)
    ensures Bonus(ls, c) >= 0
    ensures Bonus(ls, c) > 0 <==> c in ScoreCounters(ls)
  {
    if |ls| > 0 {
      var init := ls[..|ls| - 1];
      BonusPositive(init, c);
      assert forall i :: 0 <= i < |init| ==> init[i] == ls[i];
      if c in ScoreCounters(ls) && c !in ScoreCounters(init) {
        var i :| 0 <= i < |ls| && ls[i].ScoreTracking? && ls[i].tracker.currentScore == c;
        assert i == |ls| - 1;
      }
    }
  }

  /** Notifying two lists one after the other adds up their bonuses. */
  lemma {:induction false} BonusAppend(ls1: seq<HitListener>, ls2: seq<HitListener>, c: Counter)
    ensures Bonus(ls1 + ls2, c) == Bonus(ls1, c) + Bonus(ls2, c)
  {
    if |ls2| > 0 {
      var init := ls2[..|ls2| - 1];
      assert (ls1 + ls2)[..|ls1 + ls2| - 1] == ls1 + init;
      BonusAppend(ls1, init, c);
    } else {
      assert ls1 + ls2 == ls1;
    }
  }

  /** The counters reached through two lists are those reached through either. */
  lemma ScoreCountersAppend(ls1: seq<HitListener>, ls2: seq<HitListener>)
    ensures ScoreCounters(ls1 + ls2) == ScoreCounters(ls1) + ScoreCounters(ls2)
  {
    var ls := ls1 + ls2;
    forall c | c in ScoreCounters(ls)
      ensures c in ScoreCounters(ls1) + ScoreCounters(ls2)
    {
      var i :| 0 <= i < |ls| && ls[i].ScoreTracking? && ls[i].tracker.currentScore == c;
      if i < |ls1| {
        assert ls1[i] == ls[i];
      } else {
        assert ls2[i - |ls1|] == ls[i];
      }
    }
    forall c | c in ScoreCounters(ls1) + ScoreCounters(ls2)
      ensures c in ScoreCounters(ls)
    {
      if c in ScoreCounters(ls1) {
        var i :| 0 <= i < |ls1| && ls1[i].ScoreTracking? && ls1[i].tracker.currentScore == c;
        assert ls[i] == ls1[i];
      } else {
        var i :| 0 <= i < |ls2| && ls2[i].ScoreTracking? && ls2[i].tracker.currentScore == c;
        assert ls[|ls1| + i] == ls2[i];
      }
    }
  }

  /** Two increases in a row add up, wrap-around included. */
  lemma IncreaseInTwoSteps(start: Int32, middle: Int32, end: Int32, a: int, b: int)
    requires middle == Wrap32(start as int + a) && end == Wrap32(middle as int + b)
    ensures end == Wrap32(start as int + (a + b))
  {
    WrapAdd(start as int + a, b);
  }

  /**
   * The loop of `Block.notifyHit` and `Ball.notifyHit` over the snapshot `ls`:
   * each listener once, in order. Every counter in `cs` ends up increased by
   * its bonus, which is zero for the counters no listener tracks into.
   */
  method NotifyAll(ls: seq<HitListener>, beingHit: Block, hitter: Ball, ghost cs: set<Counter>)
    modifies ScoreCounters(ls)
    ensures forall c :: c in cs ==> c.count == Wrap32(old(c.count) as int + Bonus(ls, c))
  {
    for i := 0 to |ls|
      invariant forall c :: c in cs ==> c.count == Wrap32(old(c.count) as int + Bonus(ls[..i], c))
    {
      assert ls[..i + 1][..i] == ls[..i];
      match ls[i]
      case ScoreTracking(t) =>
        assert t.currentScore in ScoreCounters(ls);
        forall c | c in cs
          ensures Wrap32(Wrap32(old(c.count) as int + Bonus(ls[..i], c)) as int + 5) == Wrap32(old(c.count) as int + Bonus(ls[..i], c) + 5)
        {
          WrapAdd(old(c.count) as int + Bonus(ls[..i], c), 5);
        }
        t.HitEvent(beingHit, hitter);
      case Remover(_) =>
    }
    assert ls[..|ls|] == ls;
  }

  // ----- Collidables -----

  /** `CollisionInfo`: the collidable struck and the point, which may be missing (`null`). */
  datatype CollisionInfo = CollisionInfo(collisionObject: Collidable, collisionPoint: Option<Point>)

  /** A `Collidable`: a block or the paddle. */
  datatype Collidable = BlockCollidable(block: Block) | PaddleCollidable(paddle: Paddle)
  {
    /** `getCollisionRectangle`. */
    function Rect(): Rectangle {
      match this
      case BlockCollidable(b) => b.rectangle
      case PaddleCollidable(p) => p.rectangle
    }

    /** The block behind this collidable, if it is one. */
    function Blocks(): set<Block> {
      match this
      case BlockCollidable(b) => {b}
      case PaddleCollidable(_) => {}
    }

    /** The listeners a hit on this collidable by `hitter` notifies. */
    function Notified(hitter: Ball): seq<HitListener>
      reads hitter, Blocks()
    {
      match this
      case BlockCollidable(b) => b.Notified(hitter)
      case PaddleCollidable(_) => []
    }

    /**
     * `hit`: the new velocity, and the score added by the listeners the hit
     * notifies, stated for any counters `cs` (those no listener tracks into
     * gain nothing).
     */
    method Hit(hitter: Ball, collisionPoint: Point, currentVelocity: Velocity, trig: Trig, ghost cs: set<Counter>)
      returns (r: Velocity)
      requires Rect().Valid()
      modifies currentVelocity, ScoreCounters(Notified(hitter))
      ensures (r.dx, r.dy) == Response(this, collisionPoint, old(currentVelocity.dx), old(currentVelocity.dy), trig)
      ensures forall c :: c in cs ==> c.count == Wrap32(old(c.count) as int + Bonus(old(Notified(hitter)), c))
    {
      match this
      case BlockCollidable(b) =>
        r := b.Hit(hitter, collisionPoint, currentVelocity, cs);
      case PaddleCollidable(p) =>
        r := p.Hit(hitter, collisionPoint, currentVelocity, trig);
    }
  }

  /** The velocity components `hit` returns for a given impact point and incoming velocity. */
  function Response(c: Collidable, p: Point, dx: real, dy: real, trig: Trig): (real, real)
    requires c.Rect().Valid()
    reads c.Rect(), c.Rect().edges
  {
    match c
    case BlockCollidable(b) => BlockBounce(b.rectangle.edges[..], p, dx, dy)
    case PaddleCollidable(q) => PaddleBounce(trig, Trunc(p.x), q.rectangle.upperLeft.x, q.rectangle.width, dx, dy)
  }

  // ----- Blocks -----

  /**
   * `Block.hit`'s reflection: an impact on the top or bottom edge flips dy,
   * otherwise one on the right or left edge flips dx, otherwise nothing changes.
   */
  function BlockBounce(es: seq<Line>, p: Point, dx: real, dy: real): (r: (real, real))
    requires |es| == 4
    ensures (r.0 == dx || r.0 == -dx) && (r.1 == dy || r.1 == -dy)
    ensures r.0 == dx || r.1 == dy
    ensures r != (dx, dy) ==> exists i :: 0 <= i < 4 && OnLine(es[i], p)
  {
    if OnLine(es[0], p) || OnLine(es[1], p) then (dx, -dy)
    else if OnLine(es[2], p) || OnLine(es[3], p) then (-dx, dy)
    else (dx, dy)
  }

  /** Bouncing twice at the same point restores the velocity. */
  lemma BlockBounceTwice(es: seq<Line>, p: Point, dx: real, dy: real)
    requires |es| == 4
    ensures var (ex, ey) := BlockBounce(es, p, dx, dy); BlockBounce(es, p, ex, ey) == (dx, dy)
  {
  }

  /**
   * A corner lies on a horizontal and a vertical edge; since the horizontal
   * edges are tested first, a corner hit flips only dy.
   */
  lemma CornerFlipsOnlyDy(ul: Point, w: real, h: real, dx: real, dy: real)
    ensures BlockBounce(EdgeLayout(ul, w, h), ul, dx, dy) == (dx, -dy)
    ensures BlockBounce(EdgeLayout(ul, w, h), Point(ul.x + w, ul.y + h), dx, dy) == (dx, -dy)
  {
    var es := EdgeLayout(ul, w, h);
    EndpointsOnLine(es[0]);
    EndpointsOnLine(es[1]);
  }

  /** An impact on a side edge that is on neither horizontal edge flips only dx. */
  lemma SideFlipsOnlyDx(es: seq<Line>, p: Point, dx: real, dy: real)
    requires |es| == 4
    requires !OnLine(es[0], p) && !OnLine(es[1], p) && (OnLine(es[2], p) || OnLine(es[3], p))
    ensures BlockBounce(es, p, dx, dy) == (-dx, dy)
  {
  }

  class Block {
    const rectangle: Rectangle
    const color: Color
    var hitListeners: seq<HitListener>
    var specialBlock1: bool
    var specialBlock2: bool

    constructor (upperLeft: Point, width: real, height: real, color: Color)
      ensures fresh(rectangle) && fresh(rectangle.edges)
      ensures rectangle.Valid() && rectangle.EdgesFit()
      ensures rectangle.upperLeft == upperLeft && rectangle.width == width && rectangle.height == height
      ensures this.color == color && hitListeners == []
      ensures !specialBlock1 && !specialBlock2
    {
      rectangle := new Rectangle(upperLeft, width, height);
      this.color := color;
      hitListeners := [];
      specialBlock1 := false;
      specialBlock2 := false;
    }

    /** Raises the first flag; nothing clears it. */
    method DoSpecialBlock1()
      modifies this
      ensures specialBlock1 && specialBlock2 == old(specialBlock2)
      ensures hitListeners == old(hitListeners)
    {
      specialBlock1 := true;
    }

    /** Raises the second flag; nothing clears it. */
    method DoSpecialBlock2()
      modifies this
      ensures specialBlock2 && specialBlock1 == old(specialBlock1)
      ensures hitListeners == old(hitListeners)
    {
      specialBlock2 := true;
    }

    method AddHitListener(hl: HitListener)
      modifies this
      ensures hitListeners == old(hitListeners) + [hl]
      ensures specialBlock1 == old(specialBlock1) && specialBlock2 == old(specialBlock2)
    {
      hitListeners := hitListeners + [hl];
    }

    method RemoveHitListener(hl: HitListener)
      modifies this
      ensures hitListeners == RemoveFirst(old(hitListeners), hl)
      ensures specialBlock1 == old(specialBlock1) && specialBlock2 == old(specialBlock2)
    {
      hitListeners := RemoveFirst(hitListeners, hl);
    }

    /**
     * The listeners `hit` notifies: the block's own unless it is a dark-gray
     * wall, then the ball's when the ball's center is exactly at y = 598.
     */
    function Notified(hitter: Ball): seq<HitListener>
      reads this, hitter
    {
      (if color != DarkGray then hitListeners else [])
      + (if hitter.center.y == 598.0 then hitter.hitListeners else [])
    }

    /** `notifyHit`: every listener of a snapshot of the list, once, in order. */
    method NotifyHit(hitter: Ball, ghost cs: set<Counter>)
      modifies ScoreCounters(hitListeners)
      ensures forall c :: c in cs ==> c.count == Wrap32(old(c.count) as int + Bonus(hitListeners, c))
    {
      var listeners := hitListeners;
      NotifyAll(listeners, this, hitter, cs);
    }

    /**
     * The notifications `hit` sends before it reflects: the block's listeners
     * unless it is a wall, then the ball's when its center is at y = 598.
     */
    method NotifyOnHit(hitter: Ball, ghost cs: set<Counter>)
      modifies ScoreCounters(Notified(hitter))
      ensures forall c :: c in cs ==> c.count == Wrap32(old(c.count) as int + Bonus(old(Notified(hitter)), c))
    {
      ghost var mine := if color != DarkGray then hitListeners else [];
      ghost var theirs := if hitter.center.y == 598.0 then hitter.hitListeners else [];
      ScoreCountersAppend(mine, theirs);
      if color != DarkGray {
        NotifyHit(hitter, cs);
      }
      label Between:
      if hitter.center.y == 598.0 {
        hitter.NotifyHit(this, cs);
      }
      forall c | c in cs
        ensures c.count == Wrap32(old(c.count) as int + Bonus(mine + theirs, c))
      {
        IncreaseInTwoSteps(old(c.count), old@Between(c.count), c.count, Bonus(mine, c), Bonus(theirs, c));
        BonusAppend(mine, theirs, c);
      }
    }

    /** `hit`: notifies as `Notified` says, then reflects as `BlockBounce` says. */
    method Hit(hitter: Ball, collisionPoint: Point, currentVelocity: Velocity, ghost cs: set<Counter>) returns (r: Velocity)
      requires rectangle.Valid()
      modifies ScoreCounters(Notified(hitter))
      ensures (r.dx, r.dy) == BlockBounce(rectangle.edges[..], collisionPoint, currentVelocity.dx, currentVelocity.dy)
      ensures r == currentVelocity <==> (forall i :: 0 <= i < 4 ==> !OnLine(rectangle.edges[i], collisionPoint))
      ensures r != currentVelocity ==> fresh(r)
      ensures forall c :: c in cs ==> c.count == Wrap32(old(c.count) as int + Bonus(old(Notified(hitter)), c))
    {
      var edges := rectangle.edges;
      NotifyOnHit(hitter, cs);
      if OnLine(edges[0], collisionPoint) || OnLine(edges[1], collisionPoint) {
        r := new Velocity(currentVelocity.dx, -currentVelocity.dy);
      } else if OnLine(edges[2], collisionPoint) || OnLine(edges[3], collisionPoint) {
        r := new Velocity(-currentVelocity.dx, currentVelocity.dy);
      } else {
        r := currentVelocity;
      }
    }
  }

  // ----- The paddle -----

  /** `moveLeft`'s new x: 15 to the left, wrapping to 770 − width once the right end reaches x = 30. */
  function LeftX(x: real, width: real): (r: real)
    ensures r + width > 30.0
    ensures x - 15.0 + width > 30.0 ==> r == x - 15.0
    ensures x - 15.0 + width <= 30.0 ==> r == 770.0 - width
  {
    if x - 15.0 + width <= 30.0 then 770.0 - width else x - 15.0
  }

  /** `moveRight`'s new x: 15 to the right, wrapping to 30 once the left end reaches x = 770. */
  function RightX(x: real): (r: real)
    ensures r < 770.0
    ensures x + 15.0 < 770.0 ==> r == x + 15.0
    ensures x + 15.0 >= 770.0 ==> r == 30.0
  {
    if x + 15.0 >= 770.0 then 30.0 else x + 15.0
  }

  /**
   * Which fifth of the paddle, 1 to 5 from the left, the truncated impact `x`
   * falls in, or 0 when it falls outside all five. The middle fifth is tested
   * first, as `hit` does; each fifth is closed on the left and open on the right.
   */
  function PaddleRegion(x: int, left: real, width: real): (k: nat)
    ensures k <= 5
    ensures 1 <= k ==> left + (k - 1) as real * (width / 5.0) <= x as real < left + k as real * (width / 5.0)
    ensures width > 0.0 ==> (k == 0 <==> x as real < left || x as real >= left + width)
  {
    var region := width / 5.0;
    var X := x as real;
    if X >= 2.0 * region + left && X < 3.0 * region + left then 3
    else if X >= left && X < region + left then 1
    else if X >= region + left && X < 2.0 * region + left then 2
    else if X >= 3.0 * region + left && X < 4.0 * region + left then 4
    else if X >= 4.0 * region + left && X < 5.0 * region + left then 5
    else 0
  }

  /** Further right on the paddle never gives a region further left. */
  lemma RegionsOrdered(x: int, y: int, left: real, width: real)
    requires width > 0.0 && x <= y
    requires PaddleRegion(x, left, width) != 0 && PaddleRegion(y, left, width) != 0
    ensures PaddleRegion(x, left, width) <= PaddleRegion(y, left, width)
  {
  }

  /** The launch angle of the four outer regions, in degrees. */
  function RegionAngle(k: nat): real {
    if k == 1 then 300.0 else if k == 2 then 330.0 else if k == 4 then 30.0 else 60.0
  }


  /**
   * `Paddle.hit`'s resulting velocity: the middle fifth reflects vertically,
   * an outer fifth launches at its angle with the incoming speed, and an
   * impact outside the paddle changes nothing.
   */
  function PaddleBounce(trig: Trig, x: int, left: real, width: real, dx: real, dy: real): (real, real) {
    var k := PaddleRegion(x, left, width);
    if k == 3 then (dx, -dy)
    else if k == 0 then (dx, dy)
    else AngleSpeed(trig, RegionAngle(k), trig.paddleSpeed(dx, dy))
  }

  /**
   * The paddle launches symmetrically: for a trigonometry with
   * sin 60 = −sin 300 and cos 60 = cos 300, a hit in the first fifth and one
   * in the fifth fifth leave with mirrored dx and equal dy.
   */
  lemma OuterRegionsMirror(trig: Trig, x: int, y: int, left: real, width: real, dx: real, dy: real)
    requires width > 0.0
    requires left <= x as real < left + width / 5.0 && left + 4.0 * (width / 5.0) <= y as real < left + width
    ensures (trig.sinDeg(60.0) == -trig.sinDeg(300.0) && trig.cosDeg(60.0) == trig.cosDeg(300.0))
      ==> (PaddleBounce(trig, y, left, width, dx, dy).0 == -PaddleBounce(trig, x, left, width, dx, dy).0
           && PaddleBounce(trig, y, left, width, dx, dy).1 == PaddleBounce(trig, x, left, width, dx, dy).1)
  {
    assert PaddleRegion(x, left, width) == 1;
    assert PaddleRegion(y, left, width) == 5;
  }

  /** Likewise for the second and the fourth fifths, with 330 and 30 degrees. */
  lemma InnerRegionsMirror(trig: Trig, x: int, y: int, left: real, width: real, dx: real, dy: real)
    requires width > 0.0
    requires left + width / 5.0 <= x as real < left + 2.0 * (width / 5.0)
    requires left + 3.0 * (width / 5.0) <= y as real < left + 4.0 * (width / 5.0)
    ensures (trig.sinDeg(30.0) == -trig.sinDeg(330.0) && trig.cosDeg(30.0) == trig.cosDeg(330.0))
      ==> (PaddleBounce(trig, y, left, width, dx, dy).0 == -PaddleBounce(trig, x, left, width, dx, dy).0
           && PaddleBounce(trig, y, left, width, dx, dy).1 == PaddleBounce(trig, x, left, width, dx, dy).1)
  {
    assert PaddleRegion(x, left, width) == 2;
    assert PaddleRegion(y, left, width) == 4;
  }

  /**
   * A middle-fifth hit only reverses dy, so two such hits at the same point
   * give back the incoming velocity; an impact off the paddle changes nothing.
   */
  lemma MiddleBounceTwice(trig: Trig, x: int, left: real, width: real, dx: real, dy: real)
    requires PaddleRegion(x, left, width) == 3 || PaddleRegion(x, left, width) == 0
    ensures var (ex, ey) := PaddleBounce(trig, x, left, width, dx, dy);
      PaddleBounce(trig, x, left, width, ex, ey) == (dx, dy)
  {
  }

  class Paddle {
    const rectangle: Rectangle

    /** The paddle starts at (290, 557), 13 high, as wide as the level says. */
    constructor (paddleWidth: real)
      ensures fresh(rectangle) && fresh(rectangle.edges)
      ensures rectangle.Valid() && rectangle.EdgesFit()
      ensures rectangle.upperLeft == Point(290.0, 557.0)
      ensures rectangle.width == paddleWidth && rectangle.height == 13.0
    {
      rectangle := new Rectangle(Point(290.0, 557.0), paddleWidth, 13.0);
    }

    /** `createEdges`: a new edge array for the current corner, copied into the rectangle's. */
    method CreateEdges()
      requires rectangle.Valid()
      modifies rectangle.edges
      ensures rectangle.EdgesFit()
    {
      var ul := rectangle.upperLeft;
      var w := rectangle.width;
      var h := rectangle.height;
      var edges := new Line[4];
      edges[0] := Line(ul.x, ul.y, ul.x + w, ul.y);
      edges[1] := Line(ul.x, ul.y + h, ul.x + w, ul.y + h);
      edges[2] := Line(ul.x + w, ul.y, ul.x + w, ul.y + h);
      edges[3] := Line(ul.x, ul.y, ul.x, ul.y + h);
      rectangle.SetEdges(edges);
    }

    method MoveLeft()
      requires rectangle.Valid()
      modifies rectangle, rectangle.edges
      ensures rectangle.upperLeft == Point(LeftX(old(rectangle.upperLeft.x), rectangle.width), old(rectangle.upperLeft.y))
      ensures rectangle.EdgesFit()
    {
      rectangle.SetUpperLeft(Point(rectangle.upperLeft.x - 15.0, rectangle.upperLeft.y));
      if rectangle.upperLeft.x + rectangle.width <= 30.0 {
        rectangle.SetUpperLeft(Point(770.0 - rectangle.width, rectangle.upperLeft.y));
      }
      CreateEdges();
    }

    method MoveRight()
      requires rectangle.Valid()
      modifies rectangle, rectangle.edges
      ensures rectangle.upperLeft == Point(RightX(old(rectangle.upperLeft.x)), old(rectangle.upperLeft.y))
      ensures rectangle.EdgesFit()
    {
      rectangle.SetUpperLeft(Point(rectangle.upperLeft.x + 15.0, rectangle.upperLeft.y));
      if rectangle.upperLeft.x >= 770.0 {
        rectangle.SetUpperLeft(Point(30.0, rectangle.upperLeft.y));
      }
      CreateEdges();
    }

    /** `timePassed`, with the two arrow keys' states as inputs: left first, then right. */
    method TimePassed(leftPressed: bool, rightPressed: bool)
      requires rectangle.Valid()
      modifies rectangle, rectangle.edges
      ensures var x := old(rectangle.upperLeft.x);
        var afterLeft := if leftPressed then LeftX(x, rectangle.width) else x;
        rectangle.upperLeft.x == (if rightPressed then RightX(afterLeft) else afterLeft)
      ensures rectangle.upperLeft.y == old(rectangle.upperLeft.y)
      ensures leftPressed || rightPressed ==> rectangle.EdgesFit()
      ensures !leftPressed && !rightPressed ==> rectangle.upperLeft == old(rectangle.upperLeft) && rectangle.edges[..] == old(rectangle.edges[..])
    {
      if leftPressed {
        MoveLeft();
      }
      if rightPressed {
        MoveRight();
      }
    }

    /**
     * `hit`: the middle fifth answers with a new velocity; an outer fifth
     * overwrites the incoming velocity object in place and returns it; outside
     * the paddle the incoming object is returned untouched.
     */
    method Hit(hitter: Ball, collisionPoint: Point, currentVelocity: Velocity, trig: Trig) returns (r: Velocity)
      modifies currentVelocity
      ensures (r.dx, r.dy) == PaddleBounce(trig, Trunc(collisionPoint.x), rectangle.upperLeft.x, rectangle.width,
                                           old(currentVelocity.dx), old(currentVelocity.dy))
      ensures PaddleRegion(Trunc(collisionPoint.x), rectangle.upperLeft.x, rectangle.width) == 3 ==>
        fresh(r) && currentVelocity.dx == old(currentVelocity.dx) && currentVelocity.dy == old(currentVelocity.dy)
      ensures PaddleRegion(Trunc(collisionPoint.x), rectangle.upperLeft.x, rectangle.width) != 3 ==> r == currentVelocity
    {
      var dx := currentVelocity.dx;
      var dy := currentVelocity.dy;
      var region := rectangle.width / 5.0;
      var speed := trig.paddleSpeed(dx, dy);
      var x := Trunc(collisionPoint.x);
      var left := rectangle.upperLeft.x;
      var X := x as real;
      if X >= 2.0 * region + left && X < 3.0 * region + left {
        r := new Velocity(dx, -dy);
        return;
      }
      if X >= left && X < region + left {
        var v := FromAngleAndSpeed(trig, 300.0, speed);
        currentVelocity.SetVelocity(v);
      } else if X >= region + left && X < 2.0 * region + left {
        var v := FromAngleAndSpeed(trig, 330.0, speed);
        currentVelocity.SetVelocity(v);
      } else if X >= 3.0 * region + left && X < 4.0 * region + left {
        var v := FromAngleAndSpeed(trig, 30.0, speed);
        currentVelocity.SetVelocity(v);
      } else if X >= 4.0 * region + left && X < 5.0 * region + left {
        var v := FromAngleAndSpeed(trig, 60.0, speed);
        currentVelocity.SetVelocity(v);
      }
      r := currentVelocity;
    }
  }

  // ----- The registry of collidables -----

  /** Some edge of `es`, asked `edge.isIntersecting(trajectory)`, says yes. */
  predicate HitsSomeEdge(es: seq<Line>, t: Line) {
    exists i :: 0 <= i < |es| && IsIntersecting(es[i], t)
  }

  /** The collision `getClosestCollision` records for collidable `c`. */
  function InfoFor(c: Collidable, t: Line): CollisionInfo
    reads c.Rect().edges
  {
    CollisionInfo(c, SelectClosest(t.Start(), IntersectionPointsOf(t, c.Rect().edges[..])))
  }

  /**
   * What `getClosestCollision` returns: the collision with the last
   * collidable in list order that has an intersecting edge, whatever the
   * distances; `None` when there is none.
   */
  function LastCollision(cs: seq<Collidable>, t: Line): (r: Option<CollisionInfo>)
    reads set c | c in cs :: c.Rect().edges
    ensures r.Some? ==> r.value.collisionObject in cs && HitsSomeEdge(r.value.collisionObject.Rect().edges[..], t)
  {
    if |cs| == 0 then None
    else
      var c := cs[|cs| - 1];
      if HitsSomeEdge(c.Rect().edges[..], t) then Some(InfoFor(c, t))
      else LastCollision(cs[..|cs| - 1], t)
  }

  /** No collision exactly when no edge of any collidable intersects the trajectory. */
  lemma {:induction false} NoCollisionIffNoEdgeHit(cs: seq<Collidable>, t: Line)
    ensures LastCollision(cs, t).None? <==> forall i :: 0 <= i < |cs| ==> !HitsSomeEdge(cs[i].Rect().edges[..], t)
  {
    if |cs| > 0 {
      var init := cs[..|cs| - 1];
      NoCollisionIffNoEdgeHit(init, t);
      assert forall i :: 0 <= i < |init| ==> init[i] == cs[i];
    }
  }

  /**
   * When collidable `i` has an intersecting edge and none after it does, the
   * collision is with collidable `i`, and its point is the one
   * `closestIntersectionToStartOfLine` picks on that collidable's rectangle.
   */
  lemma {:induction false} LastHitWins(cs: seq<Collidable>, t: Line, i: int)
    requires 0 <= i < |cs| && HitsSomeEdge(cs[i].Rect().edges[..], t)
    requires forall j :: i < j < |cs| ==> !HitsSomeEdge(cs[j].Rect().edges[..], t)
    ensures LastCollision(cs, t) == Some(InfoFor(cs[i], t))
  {
    if i < |cs| - 1 {
      var init := cs[..|cs| - 1];
      assert forall j :: 0 <= j < |init| ==> init[j] == cs[j];
      LastHitWins(init, t, i);
    }
  }

  /**
   * The inner loop of `getClosestCollision` over the edges of collidable `c`:
   * each intersecting edge records the collision with `c` again, so the
   * result is `c`'s collision when some edge intersects, `prev` otherwise.
   */
  method ScanEdges(c: Collidable, trajectory: Line, prev: Option<CollisionInfo>) returns (closest: Option<CollisionInfo>)
    requires c.Rect().Valid()
    ensures HitsSomeEdge(c.Rect().edges[..], trajectory) ==> closest == Some(InfoFor(c, trajectory))
    ensures !HitsSomeEdge(c.Rect().edges[..], trajectory) ==> closest == prev
  {
    closest := prev;
    var rectangle := c.Rect().edges;
    ghost var hitSoFar := false;
    for j := 0 to rectangle.Length
      invariant hitSoFar <==> exists k :: 0 <= k < j && IsIntersecting(rectangle[k], trajectory)
      invariant hitSoFar ==> closest == Some(InfoFor(c, trajectory))
      invariant !hitSoFar ==> closest == prev
    {
      var edge := rectangle[j];
      if IsIntersecting(edge, trajectory) {
        var point := ClosestIntersectionToStartOfLine(trajectory, c.Rect());
        closest := Some(CollisionInfo(c, point));
        hitSoFar := true;
      }
    }
  }

  class GameEnvironment {
    var blocks: seq<Collidable>

    /** Every registered collidable has its four edges. */
    ghost predicate Valid()
      reads this
    {
      forall c :: c in blocks ==> c.Rect().Valid()
    }

    constructor (blocks: seq<Collidable>)
      requires forall c :: c in blocks ==> c.Rect().Valid()
      ensures this.blocks == blocks && Valid()
    {
      this.blocks := blocks;
    }

    method AddCollidable(c: Collidable)
      requires Valid() && c.Rect().Valid()
      modifies this
      ensures blocks == old(blocks) + [c]
      ensures Valid()
    {
      blocks := blocks + [c];
    }

    method RemoveCollidableFromCollection(c: Collidable)
      requires Valid()
      modifies this
      ensures blocks == RemoveFirst(old(blocks), c)
      ensures Valid()
    {
      blocks := RemoveFirst(blocks, c);
      RemoveFirstMultiset(old(blocks), c);
      forall d | d in blocks
        ensures d in old(blocks)
      {
        assert multiset(blocks)[d] > 0;
      }
    }

    /** The blocks among the registered collidables. */
    function BlockSet(): set<Block>
      reads this
    {
      set c | c in blocks && c.BlockCollidable? :: c.block
    }

    /** The counters the registered blocks' score trackers add to. */
    ghost function BlockCounters(): set<Counter>
      reads this, BlockSet()
    {
      set b, k | b in BlockSet() && k in ScoreCounters(b.hitListeners) :: k
    }

    /** The nested loop over collidables and their edges; it changes nothing. */
    method GetClosestCollision(trajectory: Line) returns (closest: Option<CollisionInfo>)
      requires Valid()
      ensures closest == LastCollision(blocks, trajectory)
    {
      closest := None;
      ghost var last := -1;
      for i := 0 to |blocks|
        invariant -1 <= last < i
        invariant last == -1 ==> closest == None
        invariant last >= 0 ==> HitsSomeEdge(blocks[last].Rect().edges[..], trajectory)
        invariant last >= 0 ==> closest == Some(InfoFor(blocks[last], trajectory))
        invariant forall k :: last < k < i ==> !HitsSomeEdge(blocks[k].Rect().edges[..], trajectory)
      {
        var block := blocks[i];
        assert block in blocks;
        closest := ScanEdges(block, trajectory, closest);
        if HitsSomeEdge(block.Rect().edges[..], trajectory) {
          last := i;
        }
      }
      if last == -1 {
        NoCollisionIffNoEdgeHit(blocks, trajectory);
      } else {
        LastHitWins(blocks, trajectory, last);
      }
    }
  }

  // ----- The ball -----

  /** The ball's path for one step: from its center to its truncated center plus its velocity. */
  function TrajectoryFrom(center: Point, dx: real, dy: real): Line {
    Line(center.x, center.y, Trunc(center.x) as real + dx, Trunc(center.y) as real + dy)
  }

  /** `setX(x)`: the new x, and the old y truncated. */
  function WithX(center: Point, x: int): Point {
    Point(x as real, Trunc(center.y) as real)
  }

  /** `setY(y)`: the old x truncated, and the new y. */
  function WithY(center: Point, y: int): Point {
    Point(Trunc(center.x) as real, y as real)
  }

  /**
   * `moveOneStep`'s correction when the ball is outside the rectangle it
   * struck: along each axis it moves on, it is put back 2 units before the
   * collision point (truncated), and so ends more than one unit short of it.
   */
  function Retreat(center: Point, cp: Point, dx: real, dy: real): (r: Point)
    ensures dx > 0.0 ==> r.x < cp.x - 1.0
    ensures dx < 0.0 ==> r.x > cp.x + 1.0
    ensures dy > 0.0 ==> r.y < cp.y - 1.0
    ensures dy < 0.0 ==> r.y > cp.y + 1.0
    ensures dx == 0.0 && dy == 0.0 ==> r == center
  {
    var afterX :=
      if dx > 0.0 then WithX(center, Trunc(cp.x - 2.0))
      else if dx < 0.0 then WithX(center, Trunc(cp.x + 2.0))
      else center;
    TruncOfWhole(Trunc(cp.x - 2.0));
    TruncOfWhole(Trunc(cp.x + 2.0));
    if dy > 0.0 then WithY(afterX, Trunc(cp.y - 2.0))
    else if dy < 0.0 then WithY(afterX, Trunc(cp.y + 2.0))
    else afterX
  }

  /** When the ball moves along one axis only, the other coordinate is merely truncated. */
  lemma RetreatOneAxis(center: Point, cp: Point, dx: real, dy: real)
    ensures dx != 0.0 && dy == 0.0 ==> Retreat(center, cp, dx, dy).y == Trunc(center.y) as real
    ensures dx == 0.0 && dy != 0.0 ==> Retreat(center, cp, dx, dy).x == Trunc(center.x) as real
  {
  }

  /**
   * `adjustBall`'s correction when the ball's center is inside the rectangle
   * it struck: above the rectangle's top by more than one unit.
   */
  function Adjusted(center: Point, upperLeft: Point): (r: Point)
    ensures r.y < upperLeft.y - 1.0
    ensures r.x == Trunc(center.x) as real
  {
    WithY(center, Trunc(upperLeft.y - 2.0))
  }

  class Ball {
    const radius: int
    var center: Point
    var v: Velocity?
    const game: GameEnvironment
    var hitListeners: seq<HitListener>

    /** The velocity is not set by the constructor: it stays `null` until `setVelocity`. */
    constructor (center: Point, r: int, game: GameEnvironment)
      ensures this.center == center && radius == r && this.game == game
      ensures v == null && hitListeners == []
    {
      this.center := center;
      radius := r;
      this.game := game;
      v := null;
      hitListeners := [];
    }

    /** `getX`: the center's x, truncated toward zero. */
    function GetX(): int
      reads this
    {
      Trunc(center.x)
    }

    /** `getY`: the center's y, truncated toward zero. */
    function GetY(): int
      reads this
    {
      Trunc(center.y)
    }

    method SetX(x: int)
      modifies this
      ensures center == WithX(old(center), x)
      ensures v == old(v) && hitListeners == old(hitListeners)
    {
      center := Point(x as real, GetY() as real);
    }

    method SetY(y: int)
      modifies this
      ensures center == WithY(old(center), y)
      ensures v == old(v) && hitListeners == old(hitListeners)
    {
      center := Point(GetX() as real, y as real);
    }

    method SetCenter(c: Point)
      modifies this
      ensures center == c
      ensures v == old(v) && hitListeners == old(hitListeners)
    {
      center := c;
    }

    /** Stores the reference; the velocity object is shared, not copied. */
    method SetVelocity(w: Velocity)
      modifies this
      ensures v == w
      ensures center == old(center) && hitListeners == old(hitListeners)
    {
      v := w;
    }

    method AddHitListener(hl: HitListener)
      modifies this
      ensures hitListeners == old(hitListeners) + [hl]
      ensures center == old(center) && v == old(v)
    {
      hitListeners := hitListeners + [hl];
    }

    method RemoveHitListener(hl: HitListener)
      modifies this
      ensures hitListeners == RemoveFirst(old(hitListeners), hl)
      ensures center == old(center) && v == old(v)
    {
      hitListeners := RemoveFirst(hitListeners, hl);
    }

    /** `notifyHit`: every listener of a snapshot of the list, once, in order. */
    method NotifyHit(hitter: Block, ghost cs: set<Counter>)
      modifies ScoreCounters(hitListeners)
      ensures forall c :: c in cs ==> c.count == Wrap32(old(c.count) as int + Bonus(hitListeners, c))
    {
      var listeners := hitListeners;
      NotifyAll(listeners, hitter, this, cs);
    }

    /** The counters a step of this ball may add to: its own trackers' and the registered blocks'. */
    ghost function ReachableCounters(): set<Counter>
      reads this, game, game.BlockSet()
    {
      ScoreCounters(hitListeners) + game.BlockCounters()
    }

    /** A hit on a registered collidable only adds to reachable counters. */
    lemma NotifiedReachable(c: Collidable)
      requires c in game.blocks
      ensures ScoreCounters(c.Notified(this)) <= ReachableCounters()
    {
      if c.BlockCollidable? {
        var b := c.block;
        var mine := if b.color != DarkGray then b.hitListeners else [];
        var theirs := if center.y == 598.0 then hitListeners else [];
        ScoreCountersAppend(mine, theirs);
        assert b in game.BlockSet();
      }
    }

    /** `adjustBall`: lifts the ball above the rectangle's top, then takes `hit`'s velocity. */
    method AdjustBall(collidable: CollisionInfo, trig: Trig, ghost cs: set<Counter>)
      requires v != null && collidable.collisionPoint.Some?
      requires collidable.collisionObject in game.blocks && game.Valid()
      modifies this, v, ReachableCounters()
      ensures center == Adjusted(old(center), collidable.collisionObject.Rect().upperLeft)
      ensures v != null && hitListeners == old(hitListeners)
      ensures (v.dx, v.dy) == Response(collidable.collisionObject, collidable.collisionPoint.value, old(v.dx), old(v.dy), trig)
      ensures forall c :: c in cs ==>
        c.count == Wrap32(old(c.count) as int + Bonus(collidable.collisionObject.Notified(this), c))
    {
      var obj := collidable.collisionObject;
      SetY(Trunc(obj.Rect().upperLeft.y - 2.0));
      NotifiedReachable(obj);
      ghost var notified := obj.Notified(this);
      var r := obj.Hit(this, collidable.collisionPoint.value, v, trig, cs);
      SetVelocity(r);
      assert obj.Notified(this) == notified;
    }

    /** The part of `moveOneStep` that puts the ball back before the collision point `cp`. */
    method PutBack(cp: Point)
      requires v != null
      modifies this
      ensures v == old(v) && hitListeners == old(hitListeners)
      ensures center == Retreat(old(center), cp, v.dx, v.dy)
    {
      if v.dx > 0.0 {
        SetX(Trunc(cp.x - 2.0));
      } else if v.dx < 0.0 {
        SetX(Trunc(cp.x + 2.0));
      }
      if v.dy > 0.0 {
        SetY(Trunc(cp.y - 2.0));
      } else if v.dy < 0.0 {
        SetY(Trunc(cp.y + 2.0));
      }
    }

    /**
     * `moveOneStep` once a collision with a point is known: inside the struck
     * rectangle the ball is adjusted above it; outside it is put back before
     * the collision point and then takes the velocity `hit` answers.
     */
    method Bounce(collision: CollisionInfo, trig: Trig, ghost cs: set<Counter>)
      requires v != null && game.Valid()
      requires collision.collisionPoint.Some? && collision.collisionObject in game.blocks
      modifies this, v, ReachableCounters()
      ensures v != null && hitListeners == old(hitListeners)
      ensures old(CheckIfInBlock(center, collision.collisionObject.Rect())) ==>
        center == Adjusted(old(center), collision.collisionObject.Rect().upperLeft)
      ensures !old(CheckIfInBlock(center, collision.collisionObject.Rect())) ==>
        center == Retreat(old(center), collision.collisionPoint.value, old(v.dx), old(v.dy))
      ensures (v.dx, v.dy) == Response(collision.collisionObject, collision.collisionPoint.value, old(v.dx), old(v.dy), trig)
      ensures forall c :: c in cs ==>
        c.count == Wrap32(old(c.count) as int + Bonus(collision.collisionObject.Notified(this), c))
    {
      var obj := collision.collisionObject;
      var cp := collision.collisionPoint.value;
      if CheckIfInBlock(center, obj.Rect()) {
        AdjustBall(collision, trig, cs);
        return;
      }
      PutBack(cp);
      ghost var corrected := center;
      NotifiedReachable(obj);
      ghost var notified := obj.Notified(this);
      var r := obj.Hit(this, cp, v, trig, cs);
      assert center == corrected;
      SetVelocity(r);
      assert obj.Notified(this) == notified;
    }

    /**
     * `moveOneStep`: with no collision, or one without a point, the ball moves
     * to the end of its trajectory; otherwise it bounces as `Bounce` says off
     * the collision `getClosestCollision` reports.
     */
    method MoveOneStep(trig: Trig, ghost cs: set<Counter>)
      requires v != null && game.Valid()
      modifies this, v, ReachableCounters()
      ensures v != null && hitListeners == old(hitListeners)
      ensures var t := TrajectoryFrom(old(center), old(v.dx), old(v.dy));
        var hit := old(LastCollision(game.blocks, t));
        hit.None? || hit.value.collisionPoint.None? ==>
          center == t.End() && v == old(v) && v.dx == old(v.dx) && v.dy == old(v.dy)
      ensures var t := TrajectoryFrom(old(center), old(v.dx), old(v.dy));
        var hit := old(LastCollision(game.blocks, t));
        hit.Some? && hit.value.collisionPoint.Some? && old(CheckIfInBlock(center, hit.value.collisionObject.Rect())) ==>
          center == Adjusted(old(center), hit.value.collisionObject.Rect().upperLeft)
      ensures var t := TrajectoryFrom(old(center), old(v.dx), old(v.dy));
        var hit := old(LastCollision(game.blocks, t));
        hit.Some? && hit.value.collisionPoint.Some? && !old(CheckIfInBlock(center, hit.value.collisionObject.Rect())) ==>
          center == Retreat(old(center), hit.value.collisionPoint.value, old(v.dx), old(v.dy))
      ensures var t := TrajectoryFrom(old(center), old(v.dx), old(v.dy));
        var hit := old(LastCollision(game.blocks, t));
        hit.Some? && hit.value.collisionPoint.Some? ==>
          (v.dx, v.dy) == Response(hit.value.collisionObject, hit.value.collisionPoint.value, old(v.dx), old(v.dy), trig)
      ensures var t := TrajectoryFrom(old(center), old(v.dx), old(v.dy));
        var hit := old(LastCollision(game.blocks, t));
        hit.None? || hit.value.collisionPoint.None? ==>
          forall c :: c in cs ==> c.count == old(c.count)
      ensures var t := TrajectoryFrom(old(center), old(v.dx), old(v.dy));
        var hit := old(LastCollision(game.blocks, t));
        hit.Some? && hit.value.collisionPoint.Some? ==>
          forall c :: c in cs ==>
            c.count == Wrap32(old(c.count) as int + Bonus(hit.value.collisionObject.Notified(this), c))
    {
      var trajectory := Line(center.x, center.y, GetX() as real + v.dx, GetY() as real + v.dy);
      assert trajectory == TrajectoryFrom(center, v.dx, v.dy);
      ghost var expected := LastCollision(game.blocks, trajectory);
      var collision := game.GetClosestCollision(trajectory);
      assert collision == expected;
      if collision.None? || collision.value.collisionPoint.None? {
        SetCenter(trajectory.End());
      } else {
        ghost var obj := collision.value.collisionObject;
        assert center == old(center) && v.dx == old(v.dx) && v.dy == old(v.dy);
        assert CheckIfInBlock(center, obj.Rect()) == old(CheckIfInBlock(center, obj.Rect()));
        Bounce(collision.value, trig, cs);
      }
    }
  }
}
