/** Ball-vs-paddle and ball-vs-brick collision resolution. */
module Collisions {
  import opened Geometry
  import opened Entities

  /** collisionVec of solvePaddleBallCollision, computed from the ball
      centre after it has been moved above the paddle (its x is unchanged by
      the move). */
  function CollisionVec(p: Paddle, ballX: real): (c: Vec)
    ensures c.y == -2.0
    ensures SqLength(c) >= 4.0
  {
    var posFactor := (ballX - p.pos.x) / PaddleWidth;
    var velFactor := p.vel.x * 0.05;
    SquareSign(posFactor + velFactor);
    Vec(posFactor + velFactor, -2.0)
  }

  /** solvePaddleBallCollision: lift the ball above the paddle and reflect
      its velocity about the normalised collision vector. */
  function SolvePaddleBall(p: Paddle, b: Ball): (r: Ball)
    ensures !IsIntersecting(PaddleBox(p), BallBox(b)) ==> r == b
    ensures IsIntersecting(PaddleBox(p), BallBox(b)) ==>
      r.pos == Vec(b.pos.x, PaddleBox(p).top - 2.0 * BallRadius)
      && r.destroyed == b.destroyed
      && SqLength(r.vel) == SqLength(b.vel)
      && !IsIntersecting(PaddleBox(p), BallBox(r))
  {
    if !IsIntersecting(PaddleBox(p), BallBox(b)) then b
    else
      var c := CollisionVec(p, b.pos.x);
      ReflectedAboutKeepsLength(b.vel, c);
      Ball(Vec(b.pos.x, PaddleBox(p).top - 2.0 * BallRadius), ReflectedAbout(b.vel, c), b.destroyed)
  }

  /** The new velocity is exactly getReflected(velocity, n) for whatever unit
      vector n getNormalized returns, provided it is a positive multiple of
      collisionVec. */
  lemma PaddleBounceIsReflection(p: Paddle, b: Ball, s: real)
    requires IsIntersecting(PaddleBox(p), BallBox(b))
    requires s > 0.0 && IsUnit(Scale(CollisionVec(p, b.pos.x), s))
    ensures SolvePaddleBall(p, b).vel == Reflected(b.vel, Scale(CollisionVec(p, b.pos.x), s))
  {
    ReflectedAboutNormalized(b.vel, CollisionVec(p, b.pos.x), s);
  }

  /** A hit where posFactor + velFactor is zero uses the normal (0, -1): the
      vertical component is turned and the horizontal one kept. */
  lemma StraightBounce(p: Paddle, b: Ball)
    requires IsIntersecting(PaddleBox(p), BallBox(b))
    requires CollisionVec(p, b.pos.x).x == 0.0
    ensures NormalizedAxis(CollisionVec(p, b.pos.x)) == Vec(0.0, -1.0)
    ensures SolvePaddleBall(p, b).vel == Reflected(b.vel, Vec(0.0, -1.0)) == Vec(b.vel.x, -b.vel.y)
  {
    assert CollisionVec(p, b.pos.x) == Vec(0.0, -2.0);
  }

  /** The four overlaps of solveBrickBallCollision. */
  datatype Overlaps = Overlaps(left: real, right: real, top: real, bottom: real)

  function OverlapsOf(brick: Box, ball: Box): (o: Overlaps)
    ensures IsIntersecting(brick, ball) ==> o.left >= 0.0 && o.right >= 0.0 && o.top >= 0.0 && o.bottom >= 0.0
    ensures !IsIntersecting(brick, ball) ==> o.left < 0.0 || o.right < 0.0 || o.top < 0.0 || o.bottom < 0.0
  {
    Overlaps(ball.right - brick.left, brick.right - ball.left, ball.bottom - brick.top, brick.bottom - ball.top)
  }

  /** bFromLeft and bFromTop: the smaller overlap on each axis tells the
      side the ball came from. */
  predicate FromLeft(o: Overlaps) { Abs(o.left) < Abs(o.right) }

  predicate FromTop(o: Overlaps) { Abs(o.top) < Abs(o.bottom) }

  function MinOverlapX(o: Overlaps): real { if FromLeft(o) then o.left else o.right }

  function MinOverlapY(o: Overlaps): real { if FromTop(o) then o.top else o.bottom }

  /** The ball hit a vertical face: the horizontal overlap is strictly the
      smaller one. A tie counts as a hit on a horizontal face. */
  predicate HitsSideFace(o: Overlaps) { Abs(MinOverlapX(o)) < Abs(MinOverlapY(o)) }

  /** The velocity after a brick hit: one component is rewritten to point
      away from the side the ball came from, keeping its magnitude. */
  function Bounce(v: Vec, o: Overlaps): (r: Vec)
    ensures HitsSideFace(o) ==>
      r.y == v.y && Abs(r.x) == Abs(v.x) && (if FromLeft(o) then r.x <= 0.0 else r.x >= 0.0)
    ensures !HitsSideFace(o) ==>
      r.x == v.x && Abs(r.y) == Abs(v.y) && (if FromTop(o) then r.y <= 0.0 else r.y >= 0.0)
  {
    if HitsSideFace(o) then Vec(Abs(v.x) * (if FromLeft(o) then -1.0 else 1.0), v.y)
    else Vec(v.x, Abs(v.y) * (if FromTop(o) then -1.0 else 1.0))
  }

  /** Equal overlaps on the two axes take the vertical branch: the
      horizontal component is kept. */
  lemma TieTurnsVertical(v: Vec, o: Overlaps)
    requires Abs(MinOverlapX(o)) == Abs(MinOverlapY(o))
    ensures Bounce(v, o).x == v.x
    ensures Abs(Bounce(v, o).y) == Abs(v.y)
  {
  }

  /** Bouncing again off the same overlaps changes nothing. */
  lemma BounceIdempotent(v: Vec, o: Overlaps)
    ensures Bounce(Bounce(v, o), o) == Bounce(v, o)
  {
  }

  /** The two brick rules: every version up to the tenth destroys a brick on
      its first hit, the last one counts `requiredHits` down. */
  datatype HitPolicy = SingleHit | CountedHits

  /** What a hit does to the brick. */
  function Hit(k: Brick, policy: HitPolicy): (r: Brick)
    ensures r.pos == k.pos
    ensures policy == SingleHit ==> r.destroyed && r.requiredHits == k.requiredHits
    ensures policy == CountedHits ==>
      r.requiredHits == k.requiredHits - 1 && (r.destroyed <==> k.destroyed || r.requiredHits <= 0)
  {
    match policy
    case SingleHit => Brick(k.pos, k.requiredHits, true)
    case CountedHits =>
      var h := k.requiredHits - 1;
      Brick(k.pos, h, k.destroyed || h <= 0)
  }

  /** solveBrickBallCollision: returns the brick and the ball afterwards. */
  function SolveBrickBall(k: Brick, b: Ball, policy: HitPolicy): (r: (Brick, Ball))
    ensures !IsIntersecting(BrickBox(k), BallBox(b)) ==> r == (k, b)
    ensures IsIntersecting(BrickBox(k), BallBox(b)) ==>
      r.0 == Hit(k, policy)
      && r.1.pos == b.pos && r.1.destroyed == b.destroyed
      && r.1.vel == Bounce(b.vel, OverlapsOf(BrickBox(k), BallBox(b)))
  {
    if !IsIntersecting(BrickBox(k), BallBox(b)) then (k, b)
    else
      var o := OverlapsOf(BrickBox(k), BallBox(b));
      (Hit(k, policy), Ball(b.pos, Bounce(b.vel, o), b.destroyed))
  }

  /** Resolving the same pair twice gives the ball the velocity it got from
      the first resolution. */
  lemma SolveBrickBallTwice(k: Brick, b: Ball, policy: HitPolicy)
    ensures SolveBrickBall(SolveBrickBall(k, b, policy).0, SolveBrickBall(k, b, policy).1, policy).1
         == SolveBrickBall(k, b, policy).1
  {
    var (k1, b1) := SolveBrickBall(k, b, policy);
    if IsIntersecting(BrickBox(k), BallBox(b)) {
      BounceIdempotent(b.vel, OverlapsOf(BrickBox(k), BallBox(b)));
      assert BrickBox(k1) == BrickBox(k) && BallBox(b1) == BallBox(b);
    }
  }

  /** The brick after `n` intersecting resolutions under the counting rule. */
  function HitTimes(k: Brick, n: nat): (r: Brick)
    ensures r.pos == k.pos
    ensures r.requiredHits == k.requiredHits - n
  {
    if n == 0 then k else Hit(HitTimes(k, n - 1), CountedHits)
  }

  /** A fresh brick that needs `h` hits is destroyed by exactly the h-th
      one. */
  lemma {:induction false} DestroyedOnLastHit(k: Brick, n: nat)
    requires !k.destroyed && k.requiredHits >= 1
    ensures HitTimes(k, n).destroyed <==> n >= k.requiredHits
  {
    if n > 0 {
      DestroyedOnLastHit(k, n - 1);
    }
  }
}
