/** The ball and the paddle as the program holds them: objects whose
    `update` moves their own shape and rewrites their own velocity in
    place. Each method leaves the object holding the value that the pure
    functions of Entities compute, and the games are written over those
    values. */
module Actors {
  import opened Geometry
  import opened Entities

  /** Ball: the circle's centre, its velocity and the `destroyed` flag of
      Entity. */
  class BallObject {
    var pos: Vec
    var velocity: Vec
    var destroyed: bool

    /** The ball these fields hold. */
    function Value(): Ball
      reads this
    {
      Ball(pos, velocity, destroyed)
    }

    /** Ball(mX, mY): centred on (mX, mY), moving up and to the left. */
    constructor (x: real, y: real)
      ensures Value() == NewBall(x, y)
    {
      pos := Vec(x, y);
      velocity := Vec(-BallSpeed, -BallSpeed);
      destroyed := false;
    }

    /** solveBoundCollisions: each edge test reads the box at the position
        already reached and multiplies one velocity component by -1; under
        the bottom rule a ball below the window is marked destroyed
        instead. */
    method SolveBoundCollisions(policy: BoundsPolicy)
      modifies this
      ensures Value() == Entities.SolveBoundCollisions(old(Value()), policy)
    {
      var box := CircleBox(pos, BallRadius);
      if OutsideX(box) {
        velocity := Vec(-velocity.x, velocity.y);
      }
      match policy
      case ReflectAllSides =>
        if AboveTop(box) || BelowBottom(box) {
          velocity := Vec(velocity.x, -velocity.y);
        }
      case DestroyAtBottom =>
        if AboveTop(box) {
          velocity := Vec(velocity.x, -velocity.y);
        } else if BelowBottom(box) {
          destroyed := true;
        }
    }

    /** update: shape.move(velocity), then the bounds rule. */
    method Update(policy: BoundsPolicy)
      modifies this
      ensures Value() == UpdateBall(old(Value()), policy)
    {
      pos := Add(pos, velocity);
      SolveBoundCollisions(policy);
    }
  }

  /** Paddle: the rectangle's centre, its velocity and `destroyed`. */
  class PaddleObject {
    var pos: Vec
    var velocity: Vec
    var destroyed: bool

    /** The paddle these fields hold. */
    function Value(): Paddle
      reads this
    {
      Paddle(pos, velocity, destroyed)
    }

    /** Paddle(mX, mY): centred on (mX, mY), at rest. */
    constructor (x: real, y: real)
      ensures Value() == NewPaddle(x, y)
    {
      pos := Vec(x, y);
      velocity := Zero;
      destroyed := false;
    }

    /** processPlayerInput with the Left and Right key states passed in:
        only velocity.x is assigned, and only where the paddle stands. */
    method ProcessPlayerInput(left: bool, right: bool)
      modifies this
      ensures pos == old(pos) && destroyed == old(destroyed)
      ensures velocity == Vec(SteerVelocityX(old(Value()), left, right), old(velocity.y))
    {
      var box := RectBox(pos, PaddleWidth, PaddleHeight);
      if left && box.left > 0.0 {
        velocity := Vec(-PaddleSpeed, velocity.y);
      } else if right && box.right < WindowWidth {
        velocity := Vec(PaddleSpeed, velocity.y);
      } else {
        velocity := Vec(0.0, velocity.y);
      }
    }

    /** update: read the keys, then shape.move(velocity). */
    method Update(left: bool, right: bool)
      modifies this
      ensures Value() == UpdatePaddle(old(Value()), left, right)
    {
      ProcessPlayerInput(left, right);
      pos := Add(pos, velocity);
    }
  }
}
