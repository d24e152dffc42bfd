/** The frame of the seventh to ninth versions, where the bricks live in a
    vector of values, and the ninth version's Game object. */
module Scene {
  import opened Geometry
  import opened Entities
  import opened Collisions
  import opened Grid
  import opened Sequences
  import opened Control

  function IsStanding(k: Brick): bool { !k.destroyed }

  /** The bricks and the ball after every brick, in vector order, has been
      updated (a no-op) and resolved against the ball. */
  function BrickPass(bricks: seq<Brick>, b: Ball): (r: (seq<Brick>, Ball))
    ensures |r.0| == |bricks|
    ensures forall i :: 0 <= i < |bricks| ==> r.0[i].pos == bricks[i].pos
    ensures forall i :: 0 <= i < |bricks| && bricks[i].destroyed ==> r.0[i].destroyed
    ensures r.1.pos == b.pos && r.1.destroyed == b.destroyed
  {
    if |bricks| == 0 then ([], b)
    else
      var prev := BrickPass(bricks[..|bricks| - 1], b);
      var hit := SolveBrickBall(bricks[|bricks| - 1], prev.1, SingleHit);
      (prev.0 + [hit.0], hit.1)
  }

  /** The loop `for(auto& brick : bricks)` of the frame. */
  method ResolveBricks(bricks: seq<Brick>, ball: Ball) returns (bricks': seq<Brick>, ball': Ball)
    ensures (bricks', ball') == BrickPass(bricks, ball)
  {
    bricks', ball' := bricks, ball;
    for i := 0 to |bricks|
      invariant |bricks'| == |bricks|
      invariant (bricks'[..i], ball') == BrickPass(bricks[..i], ball)
      invariant bricks'[i..] == bricks[i..]
    {
      assert bricks[..i + 1][..i] == bricks[..i];
      var hit := SolveBrickBall(bricks'[i], ball', SingleHit);
      bricks' := bricks'[i := hit.0];
      ball' := hit.1;
      assert bricks'[..i + 1] == bricks'[..i] + [hit.0];
    }
    assert bricks[..|bricks|] == bricks && bricks'[..|bricks|] == bricks';
  }

  /** After the erase-remove no destroyed brick is left, the survivors are
      exactly the standing bricks in their old order, and the count drops
      by the number destroyed. */
  lemma RemovedExactlyDestroyed(bricks: seq<Brick>)
    ensures forall k :: k in Filter(bricks, IsStanding) ==> !k.destroyed
    ensures forall k :: k in bricks && !k.destroyed ==> k in Filter(bricks, IsStanding)
    ensures |Filter(bricks, IsStanding)| == |bricks| - |Filter(bricks, Not(IsStanding))|
  {
    forall k | k in bricks && !k.destroyed
      ensures k in Filter(bricks, IsStanding)
    {
      FilterComplete(bricks, IsStanding, k);
    }
    FilterCount(bricks, IsStanding);
  }

  /** The body of the main loop from the seventh version on: update ball
      and paddle, resolve bricks, erase the destroyed ones, then resolve the
      paddle. */
  method PlayFrame(ball: Ball, paddle: Paddle, bricks: seq<Brick>, input: Input)
    returns (ball': Ball, paddle': Paddle, bricks': seq<Brick>)
    ensures paddle' == UpdatePaddle(paddle, input.left, input.right)
    ensures bricks' == Filter(BrickPass(bricks, UpdateBall(ball, ReflectAllSides)).0, IsStanding)
    ensures ball' == SolvePaddleBall(paddle', BrickPass(bricks, UpdateBall(ball, ReflectAllSides)).1)
    ensures forall k :: k in bricks' ==> !k.destroyed
    ensures |bricks'| <= |bricks|
  {
    ball' := UpdateBall(ball, ReflectAllSides);
    paddle' := UpdatePaddle(paddle, input.left, input.right);
    var hitBricks;
    hitBricks, ball' := ResolveBricks(bricks, ball');
    bricks' := EraseRemove(hitBricks, IsStanding);
    ball' := SolvePaddleBall(paddle', ball');
  }

  const BallStartX: real := WindowWidth / 2.0
  const BallStartY: real := WindowHeight / 2.0
  /** `wndWidth / 2` and `wndHeight - 50` are unsigned integer arithmetic. */
  const PaddleStartX: real := (800 / 2) as real
  const PaddleStartY: real := (600 - 50) as real

  /** The fields of the ninth version's Game, as one value. */
  datatype SceneView = SceneView(state: State, pausePressedLastFrame: bool, ball: Ball, paddle: Paddle, bricks: seq<Brick>)

  /** The P block and the R block of run's loop. */
  function SceneResumed(v: SceneView, keys: Keys): (u: SceneView)
    ensures u.pausePressedLastFrame == keys.pause
    ensures keys.restart ==> u == SceneView(Paused, keys.pause, NewBall(400.0, 300.0), NewPaddle(400.0, 550.0), v.bricks + Wall(false))
    ensures !keys.restart ==> u == v.(state := TogglePause(v.state, keys.pause, v.pausePressedLastFrame).0,
                                      pausePressedLastFrame := keys.pause)
  {
    var t := TogglePause(v.state, keys.pause, v.pausePressedLastFrame);
    if keys.restart then SceneView(Paused, t.1, NewBall(400.0, 300.0), NewPaddle(400.0, 550.0), v.bricks + Wall(false))
    else SceneView(t.0, t.1, v.ball, v.paddle, v.bricks)
  }

  /** The frame body run's loop executes unless the game is paused. */
  function ScenePlayed(u: SceneView, input: Input): (r: SceneView)
    ensures r.state == u.state && r.pausePressedLastFrame == u.pausePressedLastFrame
    ensures |r.bricks| <= |u.bricks|
  {
    var paddle := UpdatePaddle(u.paddle, input.left, input.right);
    var pass := BrickPass(u.bricks, UpdateBall(u.ball, ReflectAllSides));
    SceneView(u.state, u.pausePressedLastFrame, SolvePaddleBall(paddle, pass.1), paddle, Filter(pass.0, IsStanding))
  }

  /** ScenePlayed, field by field. */
  lemma ScenePlayedFields(u: SceneView, input: Input, r: SceneView)
    requires r.state == u.state && r.pausePressedLastFrame == u.pausePressedLastFrame
    requires r.paddle == UpdatePaddle(u.paddle, input.left, input.right)
    requires r.bricks == Filter(BrickPass(u.bricks, UpdateBall(u.ball, ReflectAllSides)).0, IsStanding)
    requires r.ball == SolvePaddleBall(r.paddle, BrickPass(u.bricks, UpdateBall(u.ball, ReflectAllSides)).1)
    ensures r == ScenePlayed(u, input)
  {
  }

  /** One iteration of run's loop for a frame whose Escape is up: the P
      block, the R block, then the frame body unless the game is paused. */
  function SceneFrame(v: SceneView, keys: Keys): (r: SceneView)
    ensures r.pausePressedLastFrame == keys.pause
    ensures (v.state == Paused || v.state == InProgress) ==> (r.state == Paused || r.state == InProgress)
    ensures r.state == Paused ==> r.bricks == (if keys.restart then v.bricks + Wall(false) else v.bricks)
  {
    var u := SceneResumed(v, keys);
    if u.state == Paused then u else ScenePlayed(u, PaddleInput(keys))
  }

  /** What a frame does: P toggles on its edge; R pauses, appends a wall
      and resets ball and paddle; a paused frame without R keeps ball,
      paddle and bricks; in progress the paddle steps, the bricks are the
      brick pass after the erase, and the ball is the brick pass's ball
      resolved against the new paddle. */
  lemma SceneFrameCases(v: SceneView, keys: Keys)
    ensures keys.restart ==>
      SceneFrame(v, keys).state == Paused && SceneFrame(v, keys).bricks == v.bricks + Wall(false)
    ensures !keys.restart ==> SceneFrame(v, keys).state == TogglePause(v.state, keys.pause, v.pausePressedLastFrame).0
    ensures SceneFrame(v, keys).state == Paused ==>
      SceneFrame(v, keys).paddle == (if keys.restart then NewPaddle(400.0, 550.0) else v.paddle)
      && SceneFrame(v, keys).ball == (if keys.restart then NewBall(400.0, 300.0) else v.ball)
    ensures !keys.restart && SceneFrame(v, keys).state == Paused ==> SceneFrame(v, keys).bricks == v.bricks
    ensures SceneFrame(v, keys).state == InProgress ==>
      SceneFrame(v, keys).paddle == UpdatePaddle(v.paddle, keys.left, keys.right)
      && SceneFrame(v, keys).bricks == Filter(BrickPass(v.bricks, UpdateBall(v.ball, ReflectAllSides)).0, IsStanding)
      && SceneFrame(v, keys).ball
        == SolvePaddleBall(SceneFrame(v, keys).paddle, BrickPass(v.bricks, UpdateBall(v.ball, ReflectAllSides)).1)
  {
  }

  /** The fields after one SceneFrame per entry of `frames`. */
  function SceneReplay(v: SceneView, frames: seq<Keys>): (r: SceneView)
    ensures |frames| > 0 ==> r.pausePressedLastFrame == frames[|frames| - 1].pause
  {
    if |frames| == 0 then v else SceneFrame(SceneReplay(v, frames[..|frames| - 1]), frames[|frames| - 1])
  }

  lemma SceneReplayStep(v: SceneView, frames: seq<Keys>, n: nat)
    requires n < |frames|
    ensures SceneReplay(v, frames[..n + 1]) == SceneFrame(SceneReplay(v, frames[..n]), frames[n])
  {
    assert frames[..n + 1][..n] == frames[..n];
  }

  /** Without R the wall only shrinks: no frame adds a brick. */
  lemma {:induction false} WithoutRestartNoBrickAdded(v: SceneView, frames: seq<Keys>)
    requires forall i :: 0 <= i < |frames| ==> !frames[i].restart
    ensures |SceneReplay(v, frames).bricks| <= |v.bricks|
  {
    if |frames| > 0 {
      var n := |frames| - 1;
      WithoutRestartNoBrickAdded(v, frames[..n]);
    }
  }

  /** While paused, frames without P and R change nothing but the
      remembered P state. */
  lemma {:induction false} PausedFramesChangeNothing(v: SceneView, frames: seq<Keys>)
    requires v.state == Paused
    requires forall i :: 0 <= i < |frames| ==> !frames[i].restart && !frames[i].pause
    ensures SceneReplay(v, frames).(pausePressedLastFrame := v.pausePressedLastFrame) == v
  {
    if |frames| > 0 {
      PausedFramesChangeNothing(v, frames[..|frames| - 1]);
    }
  }

  /** The ninth version's Game: ball, paddle and bricks as members, a pause
      state and the previous frame's P key. */
  class BrickGame {
    var state: State
    var pausePressedLastFrame: bool
    var ball: Ball
    var paddle: Paddle
    var bricks: seq<Brick>

    ghost predicate Valid()
      reads this
    {
      state == Paused || state == InProgress
    }

    function View(): SceneView
      reads this
    {
      SceneView(state, pausePressedLastFrame, ball, paddle, bricks)
    }

    constructor ()
      ensures Valid() && state == InProgress && !pausePressedLastFrame
      ensures ball == NewBall(400.0, 300.0) && paddle == NewPaddle(400.0, 550.0) && bricks == []
    {
      state := InProgress;
      pausePressedLastFrame := false;
      ball := NewBall(BallStartX, BallStartY);
      paddle := NewPaddle(PaddleStartX, PaddleStartY);
      bricks := [];
    }

    /** restart: pause, append a whole wall without clearing the old
        bricks, and put a new ball and paddle in place. */
    method Restart()
      modifies this
      ensures state == Paused && pausePressedLastFrame == old(pausePressedLastFrame)
      ensures bricks == old(bricks) + Wall(false)
      ensures |bricks| == |old(bricks)| + 44
      ensures ball == NewBall(400.0, 300.0) && paddle == NewPaddle(400.0, 550.0)
    {
      state := Paused;
      for iX := 0 to CountX
        invariant state == Paused && pausePressedLastFrame == old(pausePressedLastFrame)
        invariant bricks == old(bricks) + Columns(iX, false)
      {
        for iY := 0 to CountY
          invariant state == Paused && pausePressedLastFrame == old(pausePressedLastFrame)
          invariant bricks == old(bricks) + (Columns(iX, false) + Column(iX, false)[..iY])
        {
          var c := BrickCentre(iX, iY);
          bricks := bricks + [NewBrick(c.x, c.y, 1)];
          ColumnStep(iX, iY, false);
        }
        ColumnDone(iX, false);
      }
      ball := NewBall(BallStartX, BallStartY);
      paddle := NewPaddle(PaddleStartX, PaddleStartY);
    }

    /** One iteration of run's loop for a frame whose Escape is up. */
    method Frame(keys: Keys)
      requires Valid()
      modifies this
      ensures Valid()
      ensures View() == SceneFrame(old(View()), keys)
    {
      Resume(keys);
      if state != Paused {
        ghost var u := View();
        ball, paddle, bricks := PlayFrame(ball, paddle, bricks, PaddleInput(keys));
        ScenePlayedFields(u, PaddleInput(keys), View());
      }
    }

    /** The P block and the R block of run's loop. */
    method Resume(keys: Keys)
      requires Valid()
      modifies this
      ensures Valid()
      ensures View() == SceneResumed(old(View()), keys)
    {
      var toggled := TogglePause(state, keys.pause, pausePressedLastFrame);
      state, pausePressedLastFrame := toggled.0, toggled.1;
      if keys.restart {
        Restart();
      }
    }

    /** The loop body of run: frame n extends the replay by one. */
    method PlayNext(ghost v: SceneView, frames: seq<Keys>, n: nat)
      requires Valid() && n < |frames| && View() == SceneReplay(v, frames[..n])
      modifies this
      ensures Valid()
      ensures View() == SceneReplay(v, frames[..n + 1])
    {
      SceneReplayStep(v, frames, n);
      Frame(frames[n]);
    }

    /** run: one Frame per entry of `frames` until the first one with
        Escape down. Returns how many frames were played. */
    method Run(frames: seq<Keys>) returns (played: nat)
      requires Valid()
      modifies this
      ensures Valid()
      ensures played <= |frames|
      ensures forall i :: 0 <= i < played ==> !frames[i].escape
      ensures played < |frames| ==> frames[played].escape
      ensures View() == SceneReplay(old(View()), frames[..played])
    {
      played := 0;
      while played < |frames| && !frames[played].escape
        invariant Valid() && played <= |frames|
        invariant forall i :: 0 <= i < played ==> !frames[i].escape
        invariant View() == SceneReplay(old(View()), frames[..played])
      {
        PlayNext(old(View()), frames, played);
        played := played + 1;
      }
    }
  }

  /** Holding R appends a wall on every frame: after `n` frames with R
      down the vector holds `n` more walls. */
  method HoldRestart(g: BrickGame, n: nat, keys: Keys)
    requires g.Valid() && keys.restart && !keys.escape && n >= 1
    modifies g
    ensures g.Valid() && g.state == Paused
    ensures |g.bricks| == |old(g.bricks)| + 44 * n
  {
    for i := 0 to n
      invariant g.Valid() && |g.bricks| == |old(g.bricks)| + 44 * i
      invariant i > 0 ==> g.state == Paused
    {
      g.Frame(keys);
    }
  }
}
