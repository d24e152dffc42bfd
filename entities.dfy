/** The game objects (ball, paddle, brick), their bounding boxes and their
    per-frame `update` rules. Positions are centres: every shape has its
    origin set to the middle of the shape. */
module Entities {
  import opened Geometry

  const WindowWidth: real := 800.0
  const WindowHeight: real := 600.0

  const BallRadius: real := 10.0
  const BallSpeed: real := 8.0
  const PaddleWidth: real := 75.0
  const PaddleHeight: real := 20.0
  const PaddleSpeed: real := 8.0
  const BrickWidth: real := 60.0
  const BrickHeight: real := 20.0

  /** A ball: centre, velocity and the `destroyed` flag of Entity. The radius
      is always BallRadius. */
  datatype Ball = Ball(pos: Vec, vel: Vec, destroyed: bool)

  /** A paddle: centre, velocity, `destroyed`. Its size is always
      PaddleWidth x PaddleHeight. */
  datatype Paddle = Paddle(pos: Vec, vel: Vec, destroyed: bool)

  /** A brick: centre, `requiredHits` (only read by the hit-counting game)
      and `destroyed`. Its size is always BrickWidth x BrickHeight. */
  datatype Brick = Brick(pos: Vec, requiredHits: int, destroyed: bool)

  /** Ball(mX, mY): velocity (-8, -8). */
  function NewBall(x: real, y: real): (b: Ball)
    ensures b.pos == Vec(x, y) && !b.destroyed
    ensures Abs(b.vel.x) == BallSpeed && Abs(b.vel.y) == BallSpeed
    ensures b.vel.x < 0.0 && b.vel.y < 0.0
  {
    Ball(Vec(x, y), Vec(-BallSpeed, -BallSpeed), false)
  }

  /** Paddle(mX, mY): the velocity starts at rest. */
  function NewPaddle(x: real, y: real): (p: Paddle)
    ensures p.pos == Vec(x, y) && p.vel == Zero && !p.destroyed
  {
    Paddle(Vec(x, y), Zero, false)
  }

  /** Brick(mX, mY) with the given `requiredHits`. */
  function NewBrick(x: real, y: real, hits: int): (k: Brick)
    ensures k.pos == Vec(x, y) && k.requiredHits == hits && !k.destroyed
  {
    Brick(Vec(x, y), hits, false)
  }

  /** The Rectangle accessors for a shape centred on `c`. */
  function RectBox(c: Vec, width: real, height: real): (b: Box)
    ensures b.right - b.left == width && b.bottom - b.top == height
    ensures (b.left + b.right) / 2.0 == c.x && (b.top + b.bottom) / 2.0 == c.y
    ensures width >= 0.0 && height >= 0.0 ==> WellFormed(b)
  {
    Box(c.x - width / 2.0, c.x + width / 2.0, c.y - height / 2.0, c.y + height / 2.0)
  }

  /** The Circle accessors for a circle centred on `c`. */
  function CircleBox(c: Vec, radius: real): (b: Box)
    ensures b.right - b.left == 2.0 * radius && b.bottom - b.top == 2.0 * radius
    ensures (b.left + b.right) / 2.0 == c.x && (b.top + b.bottom) / 2.0 == c.y
    ensures radius >= 0.0 ==> WellFormed(b)
  {
    Box(c.x - radius, c.x + radius, c.y - radius, c.y + radius)
  }

  function BallBox(b: Ball): Box { CircleBox(b.pos, BallRadius) }

  function PaddleBox(p: Paddle): Box { RectBox(p.pos, PaddleWidth, PaddleHeight) }

  function BrickBox(k: Brick): Box { RectBox(k.pos, BrickWidth, BrickHeight) }

  /** The two window-bounds rules of Ball::solveBoundCollisions: every
      version up to the tenth reflects on all four sides, the last one
      destroys a ball that leaves through the bottom. */
  datatype BoundsPolicy = ReflectAllSides | DestroyAtBottom

  predicate OutsideX(b: Box) { b.left < 0.0 || b.right > WindowWidth }

  predicate AboveTop(b: Box) { b.top < 0.0 }

  predicate BelowBottom(b: Box) { b.bottom > WindowHeight }

  /** Ball::solveBoundCollisions. The edge tests are strict. */
  function SolveBoundCollisions(b: Ball, policy: BoundsPolicy): (r: Ball)
    ensures r.pos == b.pos
    ensures Abs(r.vel.x) == Abs(b.vel.x) && Abs(r.vel.y) == Abs(b.vel.y)
    ensures r.vel.x == (if OutsideX(BallBox(b)) then -b.vel.x else b.vel.x)
    ensures policy == ReflectAllSides ==>
      r.destroyed == b.destroyed
      && r.vel.y == (if AboveTop(BallBox(b)) || BelowBottom(BallBox(b)) then -b.vel.y else b.vel.y)
    ensures policy == DestroyAtBottom ==>
      r.vel.y == (if AboveTop(BallBox(b)) then -b.vel.y else b.vel.y)
      && (r.destroyed <==> b.destroyed || (!AboveTop(BallBox(b)) && BelowBottom(BallBox(b))))
  {
    var box := BallBox(b);
    var vx := if OutsideX(box) then -b.vel.x else b.vel.x;
    match policy
    case ReflectAllSides =>
      var vy := if AboveTop(box) || BelowBottom(box) then -b.vel.y else b.vel.y;
      Ball(b.pos, Vec(vx, vy), b.destroyed)
    case DestroyAtBottom =>
      if AboveTop(box) then Ball(b.pos, Vec(vx, -b.vel.y), b.destroyed)
      else if BelowBottom(box) then Ball(b.pos, Vec(vx, b.vel.y), true)
      else Ball(b.pos, Vec(vx, b.vel.y), b.destroyed)
  }

  /** A ball past a side edge and still moving outwards is turned back. */
  lemma BoundsTurnInward(b: Ball, policy: BoundsPolicy)
    ensures BallBox(b).left < 0.0 && b.vel.x < 0.0 ==> SolveBoundCollisions(b, policy).vel.x > 0.0
    ensures BallBox(b).right > WindowWidth && b.vel.x > 0.0 ==> SolveBoundCollisions(b, policy).vel.x < 0.0
    ensures BallBox(b).top < 0.0 && b.vel.y < 0.0 ==> SolveBoundCollisions(b, policy).vel.y > 0.0
  {
  }

  /** A ball whose box lies inside the window, edges included, is left
      alone by either rule. */
  lemma EdgeTouchNoFlip(b: Ball, policy: BoundsPolicy)
    requires BallBox(b).left >= 0.0 && BallBox(b).right <= WindowWidth
    requires BallBox(b).top >= 0.0 && BallBox(b).bottom <= WindowHeight
    ensures SolveBoundCollisions(b, policy) == b
  {
  }

  /** The two axes are tested independently: a ball past a corner has both
      components turned. */
  lemma CornerFlipsBoth(b: Ball)
    requires BallBox(b).left < 0.0 && BallBox(b).top < 0.0
    ensures SolveBoundCollisions(b, ReflectAllSides).vel == Vec(-b.vel.x, -b.vel.y)
    ensures SolveBoundCollisions(b, DestroyAtBottom).vel == Vec(-b.vel.x, -b.vel.y)
  {
  }

  /** Ball::update: move by the old velocity, then apply the bounds rule. */
  function UpdateBall(b: Ball, policy: BoundsPolicy): (r: Ball)
    ensures r.pos == Add(b.pos, b.vel)
    ensures Abs(r.vel.x) == Abs(b.vel.x) && Abs(r.vel.y) == Abs(b.vel.y)
    ensures policy == ReflectAllSides ==> r.destroyed == b.destroyed
  {
    SolveBoundCollisions(Ball(Add(b.pos, b.vel), b.vel, b.destroyed), policy)
  }

  /** The first frame of the ball created at the window centre. */
  lemma FirstBallStep()
    ensures UpdateBall(NewBall(400.0, 300.0), ReflectAllSides) == Ball(Vec(392.0, 292.0), Vec(-8.0, -8.0), false)
    ensures UpdateBall(NewBall(400.0, 300.0), DestroyAtBottom) == Ball(Vec(392.0, 292.0), Vec(-8.0, -8.0), false)
  {
  }

  /** The Left and Right key states a frame's paddle update reads. */
  datatype Input = Input(left: bool, right: bool)

  /** Paddle::processPlayerInput with the Left and Right key states passed
      in: Left is tried first. */
  function SteerVelocityX(p: Paddle, left: bool, right: bool): (vx: real)
    ensures vx == -PaddleSpeed <==> left && PaddleBox(p).left > 0.0
    ensures vx == PaddleSpeed <==> !(left && PaddleBox(p).left > 0.0) && right && PaddleBox(p).right < WindowWidth
    ensures vx == 0.0 || vx == -PaddleSpeed || vx == PaddleSpeed
  {
    if left && PaddleBox(p).left > 0.0 then -PaddleSpeed
    else if right && PaddleBox(p).right < WindowWidth then PaddleSpeed
    else 0.0
  }

  /** Left wins over Right whenever the Left branch applies. */
  lemma LeftHasPriority(p: Paddle, right: bool)
    requires PaddleBox(p).left > 0.0
    ensures SteerVelocityX(p, true, right) == -PaddleSpeed
  {
  }

  /** Paddle::update: read the keys, then move by the new velocity. */
  function UpdatePaddle(p: Paddle, left: bool, right: bool): (r: Paddle)
    ensures r.vel == Vec(SteerVelocityX(p, left, right), p.vel.y)
    ensures r.pos == Vec(p.pos.x + r.vel.x, p.pos.y + p.vel.y)
    ensures r.destroyed == p.destroyed
  {
    var v := Vec(SteerVelocityX(p, left, right), p.vel.y);
    Paddle(Add(p.pos, v), v, p.destroyed)
  }

  /** A paddle that starts at rest never moves vertically. */
  lemma {:induction false} PaddleStaysLevel(p: Paddle, keys: seq<Input>)
    requires p.vel.y == 0.0
    ensures UpdatePaddleRun(p, keys).vel.y == 0.0
    ensures UpdatePaddleRun(p, keys).pos.y == p.pos.y
  {
    if |keys| > 0 {
      PaddleStaysLevel(p, keys[..|keys| - 1]);
    }
  }

  /** The paddle after one update per frame with the given key states. */
  function UpdatePaddleRun(p: Paddle, keys: seq<Input>): (r: Paddle)
    ensures r.destroyed == p.destroyed
  {
    if |keys| == 0 then p
    else
      var q := UpdatePaddleRun(p, keys[..|keys| - 1]);
      UpdatePaddle(q, keys[|keys| - 1].left, keys[|keys| - 1].right)
  }

  /** The kinds the registry groups entities by (typeid(T) in the source). */
  datatype Kind = BallKind | PaddleKind | BrickKind

  /** An entity owned by the registry. */
  datatype Entity = BallEntity(ball: Ball) | PaddleEntity(paddle: Paddle) | BrickEntity(brick: Brick)

  function KindOf(e: Entity): Kind
  {
    match e
    case BallEntity(_) => BallKind
    case PaddleEntity(_) => PaddleKind
    case BrickEntity(_) => BrickKind
  }

  function IsDestroyed(e: Entity): bool
  {
    match e
    case BallEntity(b) => b.destroyed
    case PaddleEntity(p) => p.destroyed
    case BrickEntity(k) => k.destroyed
  }

  /** The virtual Entity::update: the ball moves and checks the window,
      the paddle steers and moves, a brick does nothing (its only override
      chooses a fill colour). */
  function UpdateEntity(e: Entity, input: Input, policy: BoundsPolicy): (r: Entity)
    ensures KindOf(r) == KindOf(e)
    ensures e.BrickEntity? ==> r == e
    ensures e.PaddleEntity? ==> IsDestroyed(r) == IsDestroyed(e)
    ensures policy == ReflectAllSides ==> IsDestroyed(r) == IsDestroyed(e)
  {
    match e
    case BallEntity(b) => BallEntity(UpdateBall(b, policy))
    case PaddleEntity(p) => PaddleEntity(UpdatePaddle(p, input.left, input.right))
    case BrickEntity(k) => e
  }
}
