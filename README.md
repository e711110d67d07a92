# Mario-Arkanoid collision engine in Dafny

A Dafny model of the collision engine of the Mario-Arkanoid game. The game
loop calls this geometry and motion logic once per frame:

- **Geometry** (`points.dfy`, `lines.dfy`, `rectangles.dfy`):
  - ε-tolerant point equality, distance, and the closed containment test of a point in a block;
  - segment intersection with all of its special cases: degenerate segments, an endpoint lying on the other segment, equal slopes, vertical slopes, and the general solve;
  - the ε-widened range checks;
  - the rectangle's four cached edges (top, bottom, right, left) and its intersection points with a line;
  - the closest-point choice.
  - `double` is modelled as `real` with ε = 0.000001. Division by zero is made explicit through a `Slope` datatype: `Finite`, `Vertical`, or `Undefined` (both endpoints equal, which Java turns into NaN).
  - Distances are compared through squared distances. `onLine` is modelled by its geometric meaning: the point lies on the closed segment.
- **Collision registry** (`engine.dfy`, `GameEnvironment`): the nested scan that keeps the *last* collidable with an intersecting edge, not the nearest one.
- **Collision responses and motion** (`engine.dfy`):
  - the block's face reflection and its notification rules;
  - the paddle's five regions, its wrap-around moves and its edge rebuild;
  - the ball's step: Java's `(int)` casts, the ±2 retreat, and the in-block correction.
  - The collidable interface becomes the datatype `Collidable` over the `Block` and `Paddle` classes.
  - The hit-listener interface becomes the datatype `HitListener`.
  - Trigonometry (`sin`, `cos`, and the speed that `Paddle.hit` derives with `atan2`) is an input record `Trig` of uninterpreted function values.
- **Small stateful pieces**:
  - `Velocity`, with its in-place `setVelocity`;
  - the `CollisionInfo` pair;
  - the 32-bit `Counter`, with its wrap-around written out (`java_numerics.dfy`), and the score listener;
  - `SpriteCollection`'s pass over a snapshot of its list (`sprites.dfy`);
  - the piranha oscillator of `Background1` (`backgrounds.dfy`).

Java objects whose fields are updated in place are classes: `Rectangle`,
`Velocity`, `Counter`, `ScoreTrackingListener`, `Block`, `Paddle`, `Ball`,
`GameEnvironment`, `SpriteCollection` and `Background1`. Java lists are `seq`
fields that the methods reassign, and a rectangle's edges are an `array<Line>`
written in place. Each method is proved against a specification function
(`IntersectionPointsOf`, `SelectClosest`, `LastCollision`, `BlockBounce`,
`PaddleBounce`, `Retreat`, `Tick`, `Bonus`, `AfterPass`, …). Lemmas state the
properties of those functions.

Where the code and its documentation disagree, the model follows the code:

- `Point.equals` is a per-coordinate box (|Δx| ≤ ε and |Δy| ≤ ε), not a distance test.
- The closest-point loop replaces its current choice only when the new point is nearer to the start than to the current choice, so it may keep a farther point.
- The paddle's fifth region is half-open at the right end.
- "An endpoint on the other segment means intersecting" fails when both segments are degenerate.
- `intersectionWith`'s final range check requires the point to be at least ε inside the *upper* ends of this segment's box. The model keeps that narrowed check.

## Model

| member | source | states |
|---|---|---|
| Points.DistanceSquared | Mario-Arkanoid/src/Geometry/Point.java:28-31 | the (squared) distance is never negative and is zero between equal points |
| Points.DistanceSymmetric | Mario-Arkanoid/src/Geometry/Point.java:28-31 | distance is symmetric, and zero from a point to itself |
| Points.PointEqualsReflexive | Mario-Arkanoid/src/Geometry/Point.java:39-41 | ε-equality holds between a point and itself |
| Points.PointEqualsSymmetric | Mario-Arkanoid/src/Geometry/Point.java:39-41 | ε-equality is symmetric |
| Points.EqualityIsPerCoordinate | Mario-Arkanoid/src/Geometry/Point.java:39-41 | equality is per coordinate: (0,0) and (ε,ε) are equal although they are more than ε apart |
| Points.EqualPointsAreClose | Mario-Arkanoid/src/Geometry/Point.java:39-41 | ε-equal points are at most √2·ε apart |
| Lines.LengthSquared | Mario-Arkanoid/src/Geometry/Line.java:45-48 | a length is never negative and is zero for a point |
| Lines.LengthOfReverse | Mario-Arkanoid/src/Geometry/Line.java:45-48 | a segment's length does not depend on its direction |
| Lines.Middle | Mario-Arkanoid/src/Geometry/Line.java:55-59 | the middle lies on the segment, is equally far from both ends, and is half the length from each |
| Lines.EndpointsOnLine | Mario-Arkanoid/src/Geometry/Line.java:255-257 | both endpoints of a segment lie on it |
| Lines.OnLineInWidenedBox | Mario-Arkanoid/src/Geometry/Line.java:255-257 | a point on a segment passes that segment's ε-widened range check |
| Lines.SlopeOf | Mario-Arkanoid/src/Geometry/Line.java:112-113 | the slope is finite exactly when the x's differ, undefined (NaN) exactly for a point, and a finite slope times Δx is Δy |
| Lines.CheckPointInRange | Mario-Arkanoid/src/Geometry/Line.java:155-164 | the check holds iff the point lies in both segments' ε-widened bounding boxes |
| Lines.CheckPointInRangeSymmetric | Mario-Arkanoid/src/Geometry/Line.java:155-164 | the range check does not depend on which segment is `this` |
| Lines.CheckThisInfinity | Mario-Arkanoid/src/Geometry/Line.java:141-145 | with a vertical `this`, the candidate is (this x, the other line's y there), accepted iff it is in both widened boxes |
| Lines.SolveX | Mario-Arkanoid/src/Geometry/Line.java:127-130 | for distinct slopes, both carrier lines have the same y at the solved x |
| Lines.SolveXUnique | Mario-Arkanoid/src/Geometry/Line.java:127-130 | any x where the two carrier lines meet is the solved x |
| Lines.SolveXSymmetric | Mario-Arkanoid/src/Geometry/Line.java:127-130 | the solved x does not depend on the order of the two lines |
| Lines.BothDegenerate | Mario-Arkanoid/src/Geometry/Line.java:87-95 | two points intersect iff they are ε-equal |
| Lines.PointOnSegmentIntersects | Mario-Arkanoid/src/Geometry/Line.java:96-104 | a point lying on a proper segment intersects it, in both argument orders |
| Lines.EndpointOnOtherIntersects | Mario-Arkanoid/src/Geometry/Line.java:107-110 | unless both segments are points, an endpoint lying on the other segment makes them intersect |
| Lines.DecidedBySlopes | Mario-Arkanoid/src/Geometry/Line.java:112-131 | for proper segments with no endpoint on the other, the answer is the slope-based case analysis |
| Lines.ParallelNeverCross | Mario-Arkanoid/src/Geometry/Line.java:116-117 | slopes within ε of each other give no crossing |
| Lines.VerticalsNeverCross | Mario-Arkanoid/src/Geometry/Line.java:112-125 | two vertical segments never cross by slopes: an infinite incline gives a NaN or infinite height, which fails the range check |
| Lines.VerticalCrossing | Mario-Arkanoid/src/Geometry/Line.java:120-125 | a vertical segment crosses a sloped one iff the point at the vertical x on the sloped line is in both widened boxes |
| Lines.CrossingBySlopesSymmetric | Mario-Arkanoid/src/Geometry/Line.java:112-131 | the slope-based decision is symmetric in the two segments |
| Lines.IsIntersectingSymmetric | Mario-Arkanoid/src/Geometry/Line.java:85-132 | `isIntersecting` is symmetric |
| Lines.CrossingFound | Mario-Arkanoid/src/Geometry/Line.java:112-131 | a point on both segments, with slopes more than ε apart, makes the segments intersect |
| Lines.IsIntersectingBoth | Mario-Arkanoid/src/Geometry/Line.java:173-175 | the two-line overload holds iff both other lines intersect this one, in either argument order |
| Lines.LineEqualsItselfAndReverse | Mario-Arkanoid/src/Geometry/Line.java:241-247 | line equality ignores direction: a segment equals itself and its reverse |
| Lines.IntersectionWith | Mario-Arkanoid/src/Geometry/Line.java:183-233 | any point it returns lies in this segment's ε-widened box |
| Lines.SolveIntersection | Mario-Arkanoid/src/Geometry/Line.java:204-231 | a solved point lies in this segment's box and on both carrier lines |
| Lines.NoIntersectionWithItself | Mario-Arkanoid/src/Geometry/Line.java:185-187 | a segment longer than ε has no intersection point with itself or with its reverse |
| Lines.SharedStartWins | Mario-Arkanoid/src/Geometry/Line.java:189-191 | for unequal segments, a start shared with either end of the other is the answer |
| Lines.SharedEndWins | Mario-Arkanoid/src/Geometry/Line.java:192-194 | otherwise, a shared end is the answer |
| Lines.NoPointWithoutIntersecting | Mario-Arkanoid/src/Geometry/Line.java:183-233 | proper segments that share no end and do not intersect have no intersection point |
| Lines.FallsThroughToSolve | Mario-Arkanoid/src/Geometry/Line.java:204-231 | proper intersecting segments that share no end get the solved point |
| Lines.SolvedPointShunsHighEnd | Mario-Arkanoid/src/Geometry/Line.java:225-230 | the general solve only yields points at least ε below this segment's larger x and larger y |
| LineExamples.SharedEndOfTwoPointsMissed | Mario-Arkanoid/src/Geometry/Line.java:87-110 | two degenerate segments can have an endpoint on each other and still not intersect |
| LineExamples.NearlyParallelCrossingMissed | Mario-Arkanoid/src/Geometry/Line.java:112-117 | two segments through a common point, with slopes within ε, are reported not intersecting |
| LineExamples.TouchingEndGivesNoPoint | Mario-Arkanoid/src/Geometry/Line.java:225-230 | a segment whose end touches another intersects it, yet `intersectionWith` returns null |
| Rectangles.EdgeLayout | Mario-Arkanoid/src/Geometry/Rectangle.java:27-32 | four edges: top from the upper-left corner, bottom, right, and left from the upper-left corner, meeting at the four corners |
| Rectangles.EdgePointsInBlock | Mario-Arkanoid/src/Geometry/Point.java:67-76 | on a rectangle whose edges fit its corner and size, every point of every edge passes `checkIfInBlock` |
| Rectangles.CornersInBlock | Mario-Arkanoid/src/Geometry/Point.java:70-75 | the containment test is closed: all four corners pass `checkIfInBlock` |
| Rectangles.OutsideNotInBlock | Mario-Arkanoid/src/Geometry/Point.java:67-76 | a point left of, right of, above or below the rectangle fails `checkIfInBlock` |
| Rectangles.EdgeHit | Mario-Arkanoid/src/Geometry/Rectangle.java:53-57 | an edge contributes a point only if the edge, asked as `getClosestCollision` asks it, intersects the line, and the point lies in the line's ε-widened box |
| Rectangles.IntersectionPointsOf | Mario-Arkanoid/src/Geometry/Rectangle.java:50-61 | no more points than edges |
| Rectangles.IntersectionPointsMembers | Mario-Arkanoid/src/Geometry/Rectangle.java:50-61 | a point is in the list iff some edge contributes it |
| Rectangles.IntersectionPointsEmpty | Mario-Arkanoid/src/Geometry/Rectangle.java:50-61 | the list is empty iff no edge contributes a point |
| Rectangles.SelectClosest | Mario-Arkanoid/src/Geometry/Line.java:266-275 | no choice (null) iff there are no points; otherwise the choice is one of them |
| Rectangles.SelectClosestSingle | Mario-Arkanoid/src/Geometry/Line.java:266-275 | a single point is chosen |
| Rectangles.SelectClosestNotNearest | Mario-Arkanoid/src/Geometry/Line.java:270 | the choice can be the farther of two points, since a newcomer is compared against the current choice |
| Rectangles.Rectangle.constructor | Mario-Arkanoid/src/Geometry/Rectangle.java:22-33 | stores the corner and size and fills a fresh edge array with the four-edge layout |
| Rectangles.Rectangle.SetUpperLeft | Mario-Arkanoid/src/Geometry/Rectangle.java:40-42 | only the corner changes; the edges stay as they were |
| Rectangles.Rectangle.SetEdges | Mario-Arkanoid/src/Geometry/Rectangle.java:104-109 | the first four entries of the source are copied into the existing edge array |
| Rectangles.Rectangle.IntersectionPoints | Mario-Arkanoid/src/Geometry/Rectangle.java:50-61 | the loop returns exactly the edge-order list of contributed points |
| Rectangles.RectangleEqualsReflexiveSymmetric | Mario-Arkanoid/src/Geometry/Rectangle.java:119-121 | rectangle equality is reflexive and symmetric |
| Rectangles.ClosestIntersectionToStartOfLine | Mario-Arkanoid/src/Geometry/Line.java:266-275 | the loop's result is the closest-point choice over the rectangle's intersection points |
| Velocities.Velocity.constructor | Mario-Arkanoid/src/Sprites/Velocity.java:18-21 | stores dx and dy unchanged |
| Velocities.Velocity.SetVelocity | Mario-Arkanoid/src/Sprites/Velocity.java:28-31 | overwrites both components with the argument's, in place |
| Velocities.Velocity.ApplyToPoint | Mario-Arkanoid/src/Sprites/Velocity.java:53-55 | the point moves by exactly (dx, dy) |
| Velocities.ApplyOpposite | Mario-Arkanoid/src/Sprites/Velocity.java:53-55 | applying a velocity and then its opposite returns the original point |
| Velocities.FromAngleAndSpeed | Mario-Arkanoid/src/Sprites/Velocity.java:40-45 | a fresh velocity (speed·sin a, −speed·cos a) |
| JavaNumerics.Wrap32 | Mario-Arkanoid/src/Level/Counter.java:23-34 | 32-bit int arithmetic: values already in range are kept |
| JavaNumerics.WrapAdd | Mario-Arkanoid/src/Level/Counter.java:23-34 | wrapping an intermediate sum does not change the wrapped total |
| JavaNumerics.Trunc | Mario-Arkanoid/src/Sprites/Ball.java:57-86 | the `(int)` cast rounds toward zero: at most 1 away, never past the value |
| JavaNumerics.TruncOfWhole | Mario-Arkanoid/src/Sprites/Ball.java:57-86 | casting a whole number gives it back |
| Counters.Counter.constructor | Mario-Arkanoid/src/Level/Counter.java:14-16 | the count starts at the given value |
| Counters.Counter.Increase | Mario-Arkanoid/src/Level/Counter.java:23-25 | adds exactly n (32-bit) |
| Counters.Counter.Decrease | Mario-Arkanoid/src/Level/Counter.java:32-34 | subtracts exactly n (32-bit), with no lower bound |
| Counters.IncreaseThenDecrease | Mario-Arkanoid/src/Level/Counter.java:23-34 | increasing then decreasing by the same n restores the count |
| Counters.IncreaseTwice | Mario-Arkanoid/src/Level/Counter.java:23-25 | two increases equal one increase by the sum |
| Counters.DecreaseGoesNegative | Mario-Arkanoid/src/Level/Counter.java:32-34 | the count can become negative (3 − 5 = −2) |
| ListOps.RemoveFirst | Mario-Arkanoid/src/Level/GameEnvironment.java:61-63 | an absent element leaves the list unchanged; a present one shortens it by one |
| ListOps.RemoveFirstMultiset | Mario-Arkanoid/src/Level/GameEnvironment.java:61-63 | removal takes away exactly one occurrence and nothing else |
| ListOps.RemoveFirstSplits | Mario-Arkanoid/src/Level/GameEnvironment.java:61-63 | the first occurrence is cut out, and the rest keeps its order |
| ListOps.AddThenRemove | Mario-Arkanoid/src/Level/GameEnvironment.java:29-31 | appending an absent element and then removing it restores the list |
| ListOps.CountPositive | Mario-Arkanoid/src/Sprites/SpriteCollection.java:37-43 | an element occurs at least once iff it is in the list |
| ListOps.AddCounts | Mario-Arkanoid/src/Sprites/SpriteCollection.java:29-31 | appending adds one occurrence of the appended element and none of any other |
| ListOps.RemoveCounts | Mario-Arkanoid/src/Sprites/SpriteCollection.java:62-64 | removing takes one occurrence of a present element and none of any other |
| ListOps.CountIsMultiplicity | Mario-Arkanoid/src/Sprites/SpriteCollection.java:37-43 | the occurrence count is the multiset multiplicity |
| Engine.ScoreTrackingListener.constructor | Mario-Arkanoid/src/Level/ScoreTrackingListener.java:19-21 | keeps the very counter it was given (aliased) |
| Engine.ScoreTrackingListener.SetCurrentScore | Mario-Arkanoid/src/Level/ScoreTrackingListener.java:37-39 | adds n to the shared counter; it does not assign n |
| Engine.ScoreTrackingListener.HitEvent | Mario-Arkanoid/src/Level/ScoreTrackingListener.java:48-50 | adds exactly 5 and touches nothing but the shared counter |
| Engine.BonusPositive | Mario-Arkanoid/src/Level/ScoreTrackingListener.java:48-50 | notifying listeners never lowers a score, and raises exactly the counters some listener tracks |
| Engine.BonusAppend | Mario-Arkanoid/src/Sprites/Block.java:105-110 | the score from two notification rounds is the sum of the two rounds' scores |
| Engine.ScoreCountersAppend | Mario-Arkanoid/src/Sprites/Block.java:105-110 | the counters two rounds touch are the union of each round's |
| Engine.IncreaseInTwoSteps | Mario-Arkanoid/src/Sprites/Block.java:105-110 | two wrapped increases equal one wrapped increase by the sum |
| Engine.NotifyAll | Mario-Arkanoid/src/Sprites/Block.java:239-246 | one pass over a snapshot of the listeners, in order: every counter gains 5 per listener tracking into it |
| Engine.Collidable.Hit | Mario-Arkanoid/src/Sprites/Block.java:103-118 | dispatches `hit`: the velocity is the collidable's response, and the scores gain what the notified listeners add |
| Engine.BlockBounce | Mario-Arkanoid/src/Sprites/Block.java:111-117 | a block hit keeps each component's magnitude and reverses at most one of them, and only when the point is on an edge |
| Engine.BlockBounceTwice | Mario-Arkanoid/src/Sprites/Block.java:111-117 | reflecting twice at the same point gives back the incoming velocity |
| Engine.CornerFlipsOnlyDy | Mario-Arkanoid/src/Sprites/Block.java:111-114 | a hit on the upper-left or lower-right corner flips only dy, since the top and bottom test comes first |
| Engine.SideFlipsOnlyDx | Mario-Arkanoid/src/Sprites/Block.java:113-114 | a point off the top and bottom edges but on a side edge flips only dx |
| Engine.Block.constructor | Mario-Arkanoid/src/Sprites/Block.java:35-40 | a fresh rectangle with the given corner and size, the given color, no listeners, both special flags false |
| Engine.Block.DoSpecialBlock1 | Mario-Arkanoid/src/Sprites/Block.java:45-47 | sets the first flag and leaves the second and the listeners alone |
| Engine.Block.DoSpecialBlock2 | Mario-Arkanoid/src/Sprites/Block.java:61-63 | sets the second flag and leaves the first and the listeners alone |
| Engine.Block.AddHitListener | Mario-Arkanoid/src/Sprites/Block.java:220-222 | appends the listener |
| Engine.Block.RemoveHitListener | Mario-Arkanoid/src/Sprites/Block.java:230-232 | removes its first occurrence |
| Engine.Block.NotifyHit | Mario-Arkanoid/src/Sprites/Block.java:239-246 | each counter gains the block listeners' score |
| Engine.Block.NotifyOnHit | Mario-Arkanoid/src/Sprites/Block.java:105-110 | the block's listeners score unless the block is dark gray; then the ball's listeners score iff the ball's center y is 598 |
| Engine.Block.Hit | Mario-Arkanoid/src/Sprites/Block.java:103-118 | the reflected velocity is returned; the incoming object itself is returned iff the point is on no edge; the notifications score as above |
| Engine.LeftX | Mario-Arkanoid/src/Sprites/Paddle.java:38-47 | 15 to the left, unless that leaves the paddle's right end at or left of 30; then it wraps to the right border, 770 − width |
| Engine.RightX | Mario-Arkanoid/src/Sprites/Paddle.java:52-60 | 15 to the right, unless that reaches 770; then it wraps to the left border, 30 |
| Engine.PaddleRegion | Mario-Arkanoid/src/Sprites/Paddle.java:127-161 | region k ∈ 1..5 is the half-open fifth [ul+(k−1)r, ul+kr); 0 iff outside [ul, ul+w) |
| Engine.RegionsOrdered | Mario-Arkanoid/src/Sprites/Paddle.java:127-161 | regions are ordered left to right |
| Engine.OuterRegionsMirror | Mario-Arkanoid/src/Sprites/Paddle.java:140-159 | when sin 60 = −sin 300 and cos 60 = cos 300, hits in the first and the fifth fifths leave with mirrored dx and equal dy |
| Engine.InnerRegionsMirror | Mario-Arkanoid/src/Sprites/Paddle.java:145-154 | when sin 30 = −sin 330 and cos 30 = cos 330, hits in the second and the fourth fifths leave with mirrored dx and equal dy |
| Engine.MiddleBounceTwice | Mario-Arkanoid/src/Sprites/Paddle.java:136-160 | a middle-fifth hit repeated at the same point, or a miss, gives back the incoming velocity |
| Engine.Paddle.constructor | Mario-Arkanoid/src/Sprites/Paddle.java:29-33 | a fresh 13-high rectangle of the level's width at (290, 557), with consistent edges |
| Engine.Paddle.CreateEdges | Mario-Arkanoid/src/Sprites/Paddle.java:65-82 | the edges are rebuilt from the current corner and size |
| Engine.Paddle.MoveLeft | Mario-Arkanoid/src/Sprites/Paddle.java:38-47 | the corner moves as `LeftX` says, y and size stay, edges are rebuilt |
| Engine.Paddle.MoveRight | Mario-Arkanoid/src/Sprites/Paddle.java:52-60 | the corner moves as `RightX` says, y and size stay, edges are rebuilt |
| Engine.Paddle.TimePassed | Mario-Arkanoid/src/Sprites/Paddle.java:87-94 | left move, then right move, each only if its key is pressed; no key changes nothing |
| Engine.Paddle.Hit | Mario-Arkanoid/src/Sprites/Paddle.java:127-161 | middle fifth: a fresh (dx, −dy) and the incoming object is untouched; other fifths: the incoming object is overwritten with the region's angle and returned; outside: returned as is |
| Engine.LastCollision | Mario-Arkanoid/src/Level/GameEnvironment.java:42-54 | a reported collidable is registered and has an intersecting edge |
| Engine.NoCollisionIffNoEdgeHit | Mario-Arkanoid/src/Level/GameEnvironment.java:42-53 | no collision iff no edge of any registered collidable intersects the trajectory |
| Engine.LastHitWins | Mario-Arkanoid/src/Level/GameEnvironment.java:44-51 | the reported collidable is the last one in list order with an intersecting edge, paired with its closest point |
| Engine.ScanEdges | Mario-Arkanoid/src/Level/GameEnvironment.java:46-51 | the inner loop replaces the choice iff some edge of this collidable intersects |
| Engine.GameEnvironment.constructor | Mario-Arkanoid/src/Level/GameEnvironment.java:20-22 | takes the list as given; every collidable has its four edges |
| Engine.GameEnvironment.AddCollidable | Mario-Arkanoid/src/Level/GameEnvironment.java:29-31 | appends at the end, and every collidable still has its four edges |
| Engine.GameEnvironment.RemoveCollidableFromCollection | Mario-Arkanoid/src/Level/GameEnvironment.java:61-63 | removes the first occurrence, and every collidable still has its four edges |
| Engine.GameEnvironment.GetClosestCollision | Mario-Arkanoid/src/Level/GameEnvironment.java:42-54 | the nested loop returns the last-hit collision and changes nothing |
| Engine.Retreat | Mario-Arkanoid/src/Sprites/Ball.java:199-208 | each moving axis ends more than 1 short of the impact point, on the side it came from; no motion leaves the center |
| Engine.RetreatOneAxis | Mario-Arkanoid/src/Sprites/Ball.java:199-208 | an axis without motion is only truncated |
| Engine.Adjusted | Mario-Arkanoid/src/Sprites/Ball.java:218-221 | the ball is put more than 1 above the block, at its truncated x |
| Engine.Ball.constructor | Mario-Arkanoid/src/Sprites/Ball.java:41-50 | stores center, radius and environment; no velocity and no listeners yet |
| Engine.Ball.SetX | Mario-Arkanoid/src/Sprites/Ball.java:75-77 | new x, truncated y, nothing else |
| Engine.Ball.SetY | Mario-Arkanoid/src/Sprites/Ball.java:84-86 | truncated x, new y, nothing else |
| Engine.Ball.SetCenter | Mario-Arkanoid/src/Sprites/Ball.java:180-182 | replaces only the center |
| Engine.Ball.SetVelocity | Mario-Arkanoid/src/Sprites/Ball.java:162-164 | replaces only the velocity reference |
| Engine.Ball.AddHitListener | Mario-Arkanoid/src/Sprites/Ball.java:243-245 | appends the listener |
| Engine.Ball.RemoveHitListener | Mario-Arkanoid/src/Sprites/Ball.java:252-254 | removes its first occurrence |
| Engine.Ball.NotifyHit | Mario-Arkanoid/src/Sprites/Ball.java:261-268 | each counter gains the ball listeners' score |
| Engine.Ball.NotifiedReachable | Mario-Arkanoid/src/Sprites/Ball.java:209 | the counters a hit can touch belong to the game's blocks or to this ball |
| Engine.Ball.AdjustBall | Mario-Arkanoid/src/Sprites/Ball.java:218-221 | the center becomes the adjusted position, the velocity becomes the hit's response, and the listeners stay; every score counter gains 5 (wrapping at 32 bits) per tracker of it among the listeners notified with the ball at its adjusted height |
| Engine.Ball.PutBack | Mario-Arkanoid/src/Sprites/Ball.java:199-208 | the center retreats as `Retreat` says; velocity and listeners stay |
| Engine.Ball.Bounce | Mario-Arkanoid/src/Sprites/Ball.java:194-209 | inside the block: adjust and stop; otherwise retreat; in both cases the velocity is the hit's response and the listeners stay, and every score counter gains 5 (wrapping at 32 bits) per tracker of it among the listeners notified at the ball's new position |
| Engine.Ball.MoveOneStep | Mario-Arkanoid/src/Sprites/Ball.java:187-211 | with no collision or no point, the ball moves to the trajectory's end; otherwise it is adjusted or retreats, and takes the response velocity, all for the last-hit collision; the ball's listeners stay; with no hit no score counter changes, and with one every counter gains 5 (wrapping at 32 bits) per tracker of it among the listeners the hit object notifies at the ball's new position |
| Backgrounds.TickMoves | Mario-Arkanoid/src/Sprites/Backgrounds/Background1.java:45-57 | a frame moves the plant by exactly 2 (up while rising), turning exactly when it reaches PIPE_Y − 60 or PIPE_Y |
| Backgrounds.TickKeepsRange | Mario-Arkanoid/src/Sprites/Backgrounds/Background1.java:45-57 | a frame keeps y even and in [370, 430], turning at the ends |
| Backgrounds.TicksKeepRange | Mario-Arkanoid/src/Sprites/Backgrounds/Background1.java:45-57 | any number of frames keeps that range |
| Backgrounds.AlwaysInRange | Mario-Arkanoid/src/Sprites/Backgrounds/Background1.java:16-23 | from y = 430 moving up, the plant never leaves the range |
| Backgrounds.TicksAdd | Mario-Arkanoid/src/Sprites/Backgrounds/Background1.java:45-57 | m frames then n frames are m + n frames |
| Backgrounds.Rising | Mario-Arkanoid/src/Sprites/Backgrounds/Background1.java:46-50 | rising k frames lowers y by 2k, turning down on reaching 370 |
| Backgrounds.Sinking | Mario-Arkanoid/src/Sprites/Backgrounds/Background1.java:52-55 | sinking k frames raises y by 2k, turning up on reaching 430 |
| Backgrounds.PeriodSixty | Mario-Arkanoid/src/Sprites/Backgrounds/Background1.java:16-17 | after 30 frames the plant is at the top heading down; after 60 it is back at its initial state, and it repeats with period 60 |
| Backgrounds.Background1.constructor | Mario-Arkanoid/src/Sprites/Backgrounds/Background1.java:16-17 | starts at the pipe's mouth, moving up |
| Backgrounds.Background1.TimePassed | Mario-Arkanoid/src/Sprites/Backgrounds/Background1.java:45-57 | one in-place frame, as `Tick` says |
| Sprites.OneFramePerPass | Mario-Arkanoid/src/Sprites/SpriteCollection.java:37-43 | a background listed once moves one frame per pass; one not listed stays put |
| Sprites.SpriteCollection.constructor | Mario-Arkanoid/src/Sprites/SpriteCollection.java:20-22 | takes the list as given |
| Sprites.SpriteCollection.AddSprite | Mario-Arkanoid/src/Sprites/SpriteCollection.java:29-31 | appends at the end |
| Sprites.SpriteCollection.RemoveSpriteFromCollection | Mario-Arkanoid/src/Sprites/SpriteCollection.java:62-64 | removes the first occurrence |
| Sprites.SpriteCollection.NotifyAllTimePassed | Mario-Arkanoid/src/Sprites/SpriteCollection.java:37-43 | a pass over a snapshot leaves the list alone and moves each background one frame per time it is listed |

## Left out

- Drawing (`drawOn`, `drawAllOn` and the draw helpers), the GUI, the level builders and the game loop: these are calls into the external drawing library.
- Keyboard: `Paddle.TimePassed` takes the two arrow keys' states as boolean inputs.
- Trigonometry: `sin`, `cos` and the speed `Paddle.hit` derives with `atan2` are inputs (`Trig`); nothing is proved about their values.
- IEEE floating point: rounding and NaN/Infinity propagation are left out beyond their observable outcomes (`Slope`). The exact `==` on sums of square roots in `onLine` is modelled by its geometric meaning.
- JavaNumerics.Trunc: Java's clamping of `(int)` casts outside the 32-bit range is left out; the ball's coordinates are unbounded integers.
- The ball and block removers' listeners are `Remover` entries that do nothing here. Removing sprites from a level is not part of this model.
- The ball's color and radius: they only matter for drawing.
- Engine.Ball.MoveOneStep: the source calls `getClosestCollision` up to three times on the same unchanged state. The model calls it once, which gives the same result.
- Sprites.SpriteCollection.NotifyAllTimePassed: only the piranha background's `timePassed` is modelled. Other sprites (ball, paddle, blocks, score indicator) stand as `OtherSprite` and do nothing.
- The constructors of `SpriteCollection` and `GameEnvironment` keep the caller's list by reference in Java. The model copies the value, so later aliasing through the caller's list is not captured.
- Rectangles.Rectangle.IntersectionPoints: the duplicate test compares fresh `Point` objects by reference, so it never fires. The model appends every contributed point, and a corner hit can appear once per edge.
- Points.DistanceSquared: does not state the converse (zero distance implies equal points).
