/**
 * `Sprites.Velocity`: a mutable pair (dx, dy) that `Paddle.hit` overwrites in
 * place, so it is a class. Trigonometry is not modelled: `sin` and `cos` of an
 * angle in degrees, and the paddle's speed formula, arrive as a `Trig` record
 * of functions about which nothing is assumed.
 */
module Velocities {
  import opened Points

  /**
   * `Math.sin(Math.toRadians(a))`, `Math.cos(Math.toRadians(a))`, and the
   * paddle's `dx / Math.cos(Math.toRadians(Math.toDegrees(Math.atan2(dy, dx))))`.
   */
  datatype Trig = Trig(sinDeg: real -> real, cosDeg: real -> real, paddleSpeed: (real, real) -> real)

  /** The components `fromAngleAndSpeed` gives: (s·sin a, −(s·cos a)). */
  function AngleSpeed(trig: Trig, angle: real, speed: real): (real, real) {
    (speed * trig.sinDeg(angle), -(speed * trig.cosDeg(angle)))
  }

  class Velocity {
    var dx: real
    var dy: real

    constructor (dx: real, dy: real)
      ensures this.dx == dx && this.dy == dy
    {
      this.dx := dx;
      this.dy := dy;
    }

    /** Overwrites both components with those of `v`; `v` itself is left alone. */
    method SetVelocity(v: Velocity)
      modifies this
      ensures dx == old(v.dx) && dy == old(v.dy)
    {
      dx := v.dx;
      dy := v.dy;
    }

    /** `applyToPoint`: a new point, displaced by this velocity. */
    function ApplyToPoint(p: Point): (q: Point)
      reads this
      ensures q.x - p.x == dx && q.y - p.y == dy
    {
      Point(p.x + dx, p.y + dy)
    }
  }

  /** Applying a velocity and then its opposite returns to the starting point. */
  lemma ApplyOpposite(v: Velocity, w: Velocity, p: Point)
    requires w.dx == -v.dx && w.dy == -v.dy
    ensures w.ApplyToPoint(v.ApplyToPoint(p)) == p
  {
  }

  /** `Velocity.fromAngleAndSpeed`: a new velocity (s·sin a, −(s·cos a)). */
  method FromAngleAndSpeed(trig: Trig, angle: real, speed: real) returns (v: Velocity)
    ensures fresh(v)
    ensures (v.dx, v.dy) == AngleSpeed(trig, angle, speed)
  {
    var dx := speed * trig.sinDeg(angle);
    var dy := speed * trig.cosDeg(angle);
    v := new Velocity(dx, -dy);
    assert AngleSpeed(trig, angle, speed).0 == dx;
    assert AngleSpeed(trig, angle, speed).1 == -dy;
  }
}
