/** The per-frame work of the registry-based versions: update every
    entity, resolve each ball against every brick and then every paddle
    through nested forEach calls, then refresh. */
module Simulation {
  import opened Geometry
  import opened Entities
  import opened Collisions
  import opened Sequences
  import opened Registry

  /** The position of the first record carrying `id`. */
  function IndexOf(s: seq<Record>, id: Id): (i: nat)
    requires id in Ids(s)
    ensures i < |s| && s[i].id == id
  {
    if s[0].id == id then 0
    else
      assert id in Ids(s[1..]) by {
        var j :| 0 <= j < |s| && Ids(s)[j] == id;
        assert Ids(s[1..])[j - 1] == id;
      }
      1 + IndexOf(s[1..], id)
  }

  lemma IndexOfUnique(s: seq<Record>, id: Id, i: nat)
    requires UniqueIds(s) && i < |s| && s[i].id == id
    ensures id in Ids(s) && IndexOf(s, id) == i
  {
    assert Ids(s)[i] == id;
  }

  /** Same ids and kinds, record by record. */
  predicate SameShape(s: seq<Record>, t: seq<Record>)
  {
    |s| == |t| && forall i :: 0 <= i < |s| ==> s[i].id == t[i].id && KindOf(s[i].entity) == KindOf(t[i].entity)
  }

  /** What a collision pass may do to the list: paddles are untouched
      (they are passed by const reference), bricks keep their position and
      stay destroyed once destroyed, balls keep their destroyed flag. */
  predicate OnlyCollides(s: seq<Record>, t: seq<Record>)
  {
    SameShape(s, t)
    && forall i :: 0 <= i < |s| ==>
      match s[i].entity
      case PaddleEntity(_) => t[i] == s[i]
      case BrickEntity(k) =>
        t[i].entity.BrickEntity? && t[i].entity.brick.pos == k.pos && (k.destroyed ==> t[i].entity.brick.destroyed)
      case BallEntity(b) =>
        t[i].entity.BallEntity? && t[i].entity.ball.destroyed == b.destroyed
  }

  lemma OnlyCollidesTransitive(s: seq<Record>, t: seq<Record>, u: seq<Record>)
    requires OnlyCollides(s, t) && OnlyCollides(t, u)
    ensures OnlyCollides(s, u)
  {
    forall i | 0 <= i < |s|
      ensures s[i].id == u[i].id && KindOf(s[i].entity) == KindOf(u[i].entity)
    {
    }
  }

  lemma SameShapeIds(s: seq<Record>, t: seq<Record>)
    requires SameShape(s, t)
    ensures Ids(s) == Ids(t)
  {
  }

  /** solveBrickBallCollision on the entities the two ids point to. */
  function ResolveBrickPair(s: seq<Record>, ballId: Id, brickId: Id, policy: HitPolicy): (r: seq<Record>)
    requires ballId in Ids(s) && brickId in Ids(s)
    ensures OnlyCollides(s, r)
  {
    var i, j := IndexOf(s, ballId), IndexOf(s, brickId);
    match (s[i].entity, s[j].entity)
    case (BallEntity(b), BrickEntity(k)) =>
      var hit := SolveBrickBall(k, b, policy);
      s[j := Record(brickId, BrickEntity(hit.0))][i := Record(ballId, BallEntity(hit.1))]
    case _ => s
  }

  /** solvePaddleBallCollision on the entities the two ids point to. */
  function ResolvePaddlePair(s: seq<Record>, ballId: Id, paddleId: Id): (r: seq<Record>)
    requires ballId in Ids(s) && paddleId in Ids(s)
    ensures OnlyCollides(s, r)
  {
    var i, j := IndexOf(s, ballId), IndexOf(s, paddleId);
    match (s[i].entity, s[j].entity)
    case (BallEntity(b), PaddleEntity(p)) =>
      s[i := Record(ballId, BallEntity(SolvePaddleBall(p, b)))]
    case _ => s
  }

  /** forEach does not skip entities marked destroyed: a brick already hit
      for the last time by an earlier ball is still resolved against the
      next one, and still turns it. */
  lemma DestroyedBrickStillHit(s: seq<Record>, i: nat, j: nat, policy: HitPolicy)
    requires UniqueIds(s) && i < |s| && j < |s|
    requires s[i].entity.BallEntity? && s[j].entity.BrickEntity? && s[j].entity.brick.destroyed
    requires IsIntersecting(BrickBox(s[j].entity.brick), BallBox(s[i].entity.ball))
    ensures s[i].id in Ids(s) && s[j].id in Ids(s)
    ensures ResolveBrickPair(s, s[i].id, s[j].id, policy)[i].entity.ball.vel
      == Bounce(s[i].entity.ball.vel, OverlapsOf(BrickBox(s[j].entity.brick), BallBox(s[i].entity.ball)))
  {
    IndexOfUnique(s, s[i].id, i);
    IndexOfUnique(s, s[j].id, j);
  }

  predicate AllIn(ids: seq<Id>, s: seq<Record>)
  {
    forall i :: 0 <= i < |ids| ==> ids[i] in Ids(s)
  }

  /** The inner forEach over bricks for one ball, in group order. */
  function BallVsBricks(s: seq<Record>, ballId: Id, bricks: seq<Id>, policy: HitPolicy): (r: seq<Record>)
    requires ballId in Ids(s) && AllIn(bricks, s)
    ensures OnlyCollides(s, r)
  {
    if |bricks| == 0 then s
    else
      var t := BallVsBricks(s, ballId, bricks[..|bricks| - 1], policy);
      SameShapeIds(s, t);
      var u := ResolveBrickPair(t, ballId, bricks[|bricks| - 1], policy);
      OnlyCollidesTransitive(s, t, u);
      u
  }

  /** The inner forEach over paddles for one ball, in group order. */
  function BallVsPaddles(s: seq<Record>, ballId: Id, paddles: seq<Id>): (r: seq<Record>)
    requires ballId in Ids(s) && AllIn(paddles, s)
    ensures OnlyCollides(s, r)
  {
    if |paddles| == 0 then s
    else
      var t := BallVsPaddles(s, ballId, paddles[..|paddles| - 1]);
      SameShapeIds(s, t);
      var u := ResolvePaddlePair(t, ballId, paddles[|paddles| - 1]);
      OnlyCollidesTransitive(s, t, u);
      u
  }

  /** One ball against every brick, then every paddle. */
  function OneBall(s: seq<Record>, ballId: Id, bricks: seq<Id>, paddles: seq<Id>, policy: HitPolicy): (r: seq<Record>)
    requires ballId in Ids(s) && AllIn(bricks, s) && AllIn(paddles, s)
    ensures OnlyCollides(s, r)
  {
    var t := BallVsBricks(s, ballId, bricks, policy);
    SameShapeIds(s, t);
    var u := BallVsPaddles(t, ballId, paddles);
    OnlyCollidesTransitive(s, t, u);
    u
  }

  /** The outer forEach over balls. */
  function CollisionPhase(s: seq<Record>, balls: seq<Id>, bricks: seq<Id>, paddles: seq<Id>, policy: HitPolicy): (r: seq<Record>)
    requires AllIn(balls, s) && AllIn(bricks, s) && AllIn(paddles, s)
    ensures OnlyCollides(s, r)
  {
    if |balls| == 0 then s
    else
      var t := CollisionPhase(s, balls[..|balls| - 1], bricks, paddles, policy);
      SameShapeIds(s, t);
      var u := OneBall(t, balls[|balls| - 1], bricks, paddles, policy);
      OnlyCollidesTransitive(s, t, u);
      u
  }

  lemma GroupIdsIn(s: seq<Record>, k: Kind)
    ensures AllIn(Ids(OfKind(s, k)), s)
  {
    var g := OfKind(s, k);
    forall i | 0 <= i < |g|
      ensures Ids(g)[i] in Ids(s)
    {
      assert g[i] in s;
      var j :| 0 <= j < |s| && s[j] == g[i];
      assert Ids(s)[j] == Ids(g)[i];
    }
  }

  /** A list the collisions pass produced still has the same groups. */
  lemma ShapeKeepsGroups(s: seq<Record>, t: seq<Record>)
    requires SameShape(s, t)
    ensures forall k :: Ids(OfKind(t, k)) == Ids(OfKind(s, k))
  {
    forall k
      ensures Ids(OfKind(t, k)) == Ids(OfKind(s, k))
    {
      SameShapeSameGroups(t, s, k);
    }
  }

  /** The collision phase over the groups of the list itself. */
  function Collide(s: seq<Record>, policy: HitPolicy): (r: seq<Record>)
    ensures OnlyCollides(s, r)
  {
    GroupIdsIn(s, BallKind);
    GroupIdsIn(s, BrickKind);
    GroupIdsIn(s, PaddleKind);
    CollisionPhase(s, Ids(OfKind(s, BallKind)), Ids(OfKind(s, BrickKind)), Ids(OfKind(s, PaddleKind)), policy)
  }

  /** The brick callback: look both entities up through their ids and
      resolve them. */
  method BrickCallback(m: Manager, ballId: Id, brickId: Id, policy: HitPolicy)
    requires m.Valid() && ballId in Ids(m.entities) && brickId in Ids(m.entities)
    modifies m
    ensures m.Valid() && m.nextId == old(m.nextId) && m.groups == old(m.groups)
    ensures m.entities == ResolveBrickPair(old(m.entities), ballId, brickId, policy)
  {
    var i := m.Lookup(ballId);
    var j := m.Lookup(brickId);
    IndexOfUnique(m.entities, ballId, i);
    IndexOfUnique(m.entities, brickId, j);
    match (m.entities[i].entity, m.entities[j].entity) {
      case (BallEntity(b), BrickEntity(k)) =>
        var hit := SolveBrickBall(k, b, policy);
        m.Put(j, BrickEntity(hit.0));
        m.Put(i, BallEntity(hit.1));
      case _ =>
    }
  }

  /** The paddle callback. */
  method PaddleCallback(m: Manager, ballId: Id, paddleId: Id)
    requires m.Valid() && ballId in Ids(m.entities) && paddleId in Ids(m.entities)
    modifies m
    ensures m.Valid() && m.nextId == old(m.nextId) && m.groups == old(m.groups)
    ensures m.entities == ResolvePaddlePair(old(m.entities), ballId, paddleId)
  {
    var i := m.Lookup(ballId);
    var j := m.Lookup(paddleId);
    IndexOfUnique(m.entities, ballId, i);
    IndexOfUnique(m.entities, paddleId, j);
    match (m.entities[i].entity, m.entities[j].entity) {
      case (BallEntity(b), PaddleEntity(p)) =>
        m.Put(i, BallEntity(SolvePaddleBall(p, b)));
      case _ =>
    }
  }

  lemma AllInPrefix(ids: seq<Id>, s: seq<Record>, n: nat)
    requires AllIn(ids, s) && n <= |ids|
    ensures AllIn(ids[..n], s)
  {
  }

  /** One more brick of the inner loop is one more ResolveBrickPair. */
  lemma BricksStep(s: seq<Record>, ballId: Id, bricks: seq<Id>, n: nat, policy: HitPolicy)
    requires ballId in Ids(s) && AllIn(bricks, s) && n < |bricks|
    ensures AllIn(bricks[..n], s) && AllIn(bricks[..n + 1], s)
    ensures Ids(BallVsBricks(s, ballId, bricks[..n], policy)) == Ids(s)
    ensures BallVsBricks(s, ballId, bricks[..n + 1], policy)
      == ResolveBrickPair(BallVsBricks(s, ballId, bricks[..n], policy), ballId, bricks[n], policy)
  {
    AllInPrefix(bricks, s, n);
    AllInPrefix(bricks, s, n + 1);
    assert bricks[..n + 1][..n] == bricks[..n];
    SameShapeIds(s, BallVsBricks(s, ballId, bricks[..n], policy));
  }

  lemma PaddlesStep(s: seq<Record>, ballId: Id, paddles: seq<Id>, n: nat)
    requires ballId in Ids(s) && AllIn(paddles, s) && n < |paddles|
    ensures AllIn(paddles[..n], s) && AllIn(paddles[..n + 1], s)
    ensures Ids(BallVsPaddles(s, ballId, paddles[..n])) == Ids(s)
    ensures BallVsPaddles(s, ballId, paddles[..n + 1])
      == ResolvePaddlePair(BallVsPaddles(s, ballId, paddles[..n]), ballId, paddles[n])
  {
    AllInPrefix(paddles, s, n);
    AllInPrefix(paddles, s, n + 1);
    assert paddles[..n + 1][..n] == paddles[..n];
    SameShapeIds(s, BallVsPaddles(s, ballId, paddles[..n]));
  }

  /** `manager.forEach<Brick>` with solveBrickBallCollision for one ball. */
  method BallAgainstBricks(m: Manager, ballId: Id, policy: HitPolicy)
    requires m.Valid() && ballId in Ids(m.entities) && AllIn(m.Group(BrickKind), m.entities)
    modifies m
    ensures m.Valid() && m.nextId == old(m.nextId)
    ensures m.groups == old(m.groups)[BrickKind := old(m.Group(BrickKind))]
    ensures m.entities == BallVsBricks(old(m.entities), ballId, old(m.Group(BrickKind)), policy)
  {
    ghost var s0 := m.entities;
    var bricks := m.GetAll(BrickKind);
    ghost var inserted := m.groups;
    for n := 0 to |bricks|
      invariant m.Valid() && m.nextId == old(m.nextId) && m.groups == inserted
      invariant AllIn(bricks[..n], s0)
      invariant m.entities == BallVsBricks(s0, ballId, bricks[..n], policy)
    {
      BricksStep(s0, ballId, bricks, n, policy);
      BrickCallback(m, ballId, bricks[n], policy);
    }
    assert bricks[..|bricks|] == bricks;
  }

  /** `manager.forEach<Paddle>` with solvePaddleBallCollision for one ball. */
  method BallAgainstPaddles(m: Manager, ballId: Id)
    requires m.Valid() && ballId in Ids(m.entities) && AllIn(m.Group(PaddleKind), m.entities)
    modifies m
    ensures m.Valid() && m.nextId == old(m.nextId)
    ensures m.groups == old(m.groups)[PaddleKind := old(m.Group(PaddleKind))]
    ensures m.entities == BallVsPaddles(old(m.entities), ballId, old(m.Group(PaddleKind)))
  {
    ghost var s0 := m.entities;
    var paddles := m.GetAll(PaddleKind);
    ghost var inserted := m.groups;
    for n := 0 to |paddles|
      invariant m.Valid() && m.nextId == old(m.nextId) && m.groups == inserted
      invariant AllIn(paddles[..n], s0)
      invariant m.entities == BallVsPaddles(s0, ballId, paddles[..n])
    {
      PaddlesStep(s0, ballId, paddles, n);
      PaddleCallback(m, ballId, paddles[n]);
    }
    assert paddles[..|paddles|] == paddles;
  }

  /** One more ball of the outer loop is one more OneBall. */
  lemma BallsStep(s: seq<Record>, balls: seq<Id>, bricks: seq<Id>, paddles: seq<Id>, n: nat, policy: HitPolicy)
    requires AllIn(balls, s) && AllIn(bricks, s) && AllIn(paddles, s) && n < |balls|
    ensures AllIn(balls[..n], s) && AllIn(balls[..n + 1], s)
    ensures Ids(CollisionPhase(s, balls[..n], bricks, paddles, policy)) == Ids(s)
    ensures Ids(BallVsBricks(CollisionPhase(s, balls[..n], bricks, paddles, policy), balls[n], bricks, policy)) == Ids(s)
    ensures CollisionPhase(s, balls[..n + 1], bricks, paddles, policy)
      == OneBall(CollisionPhase(s, balls[..n], bricks, paddles, policy), balls[n], bricks, paddles, policy)
  {
    AllInPrefix(balls, s, n);
    AllInPrefix(balls, s, n + 1);
    assert balls[..n + 1][..n] == balls[..n];
    var t := CollisionPhase(s, balls[..n], bricks, paddles, policy);
    SameShapeIds(s, t);
    SameShapeIds(t, BallVsBricks(t, balls[n], bricks, policy));
  }

  /** The nested forEach of the main loop: every ball, in group order,
      against every brick and then every paddle. */
  method ResolveCollisions(m: Manager, policy: HitPolicy)
    requires m.Valid()
    modifies m
    ensures m.Valid() && m.nextId == old(m.nextId)
    ensures m.entities == Collide(old(m.entities), policy)
  {
    ghost var s0 := m.entities;
    ghost var bricks0, paddles0 := Ids(OfKind(s0, BrickKind)), Ids(OfKind(s0, PaddleKind));
    GroupIdsIn(s0, BallKind);
    GroupIdsIn(s0, BrickKind);
    GroupIdsIn(s0, PaddleKind);
    var balls := m.GetAll(BallKind);
    for n := 0 to |balls|
      invariant m.Valid() && m.nextId == old(m.nextId)
      invariant AllIn(balls[..n], s0)
      invariant m.entities == CollisionPhase(s0, balls[..n], bricks0, paddles0, policy)
    {
      BallsStep(s0, balls, bricks0, paddles0, n, policy);
      ShapeKeepsGroups(s0, m.entities);
      m.GroupIsFilter(BrickKind);
      BallAgainstBricks(m, balls[n], policy);
      OnlyCollidesTransitive(s0, CollisionPhase(s0, balls[..n], bricks0, paddles0, policy), m.entities);
      ShapeKeepsGroups(s0, m.entities);
      m.GroupIsFilter(PaddleKind);
      BallAgainstPaddles(m, balls[n]);
    }
    assert balls[..|balls|] == balls;
  }

  /** The owning list after one in-progress frame. */
  function Stepped(s: seq<Record>, input: Input, bounds: BoundsPolicy, hits: HitPolicy): seq<Record>
  {
    Live(Collide(UpdateAll(s, input, bounds), hits))
  }

  /** The update keeps ids and kinds; paddles, and balls when they bounce off
      every side, keep their destroyed flag. */
  lemma UpdateKeepsShape(s: seq<Record>, input: Input, bounds: BoundsPolicy)
    ensures SameShape(s, UpdateAll(s, input, bounds))
  {
  }

  lemma SameShapeUnique(s: seq<Record>, t: seq<Record>)
    requires SameShape(s, t) && UniqueIds(s)
    ensures UniqueIds(t)
  {
    forall i, j | 0 <= i < j < |t|
      ensures t[i].id != t[j].id
    {
      assert t[i].id == s[i].id && t[j].id == s[j].id;
    }
  }

  /** Update and collisions together keep ids, kinds and uniqueness. */
  lemma CollidedShape(s: seq<Record>, input: Input, bounds: BoundsPolicy, hits: HitPolicy)
    requires UniqueIds(s)
    ensures OnlyCollides(UpdateAll(s, input, bounds), Collide(UpdateAll(s, input, bounds), hits))
    ensures SameShape(s, Collide(UpdateAll(s, input, bounds), hits))
    ensures UniqueIds(Collide(UpdateAll(s, input, bounds), hits))
  {
    var u := UpdateAll(s, input, bounds);
    var c := Collide(u, hits);
    UpdateKeepsShape(s, input, bounds);
    assert SameShape(s, c) by {
      forall i | 0 <= i < |s|
        ensures s[i].id == c[i].id && KindOf(s[i].entity) == KindOf(c[i].entity)
      {
      }
    }
    SameShapeUnique(s, c);
  }

  /** One frame never loses a paddle, nor, in the versions where the ball
      bounces off every side, a ball. */
  lemma GroupSurvivesFrame(s: seq<Record>, input: Input, bounds: BoundsPolicy, hits: HitPolicy, k: Kind)
    requires UniqueIds(s)
    requires k == PaddleKind || (k == BallKind && bounds == ReflectAllSides)
    requires forall i :: 0 <= i < |s| && KindOf(s[i].entity) == k ==> !IsDestroyed(s[i].entity)
    ensures Ids(OfKind(Stepped(s, input, bounds, hits), k)) == Ids(OfKind(s, k))
  {
    var u := UpdateAll(s, input, bounds);
    var c := Collide(u, hits);
    CollidedShape(s, input, bounds, hits);
    forall i | 0 <= i < |c| && KindOf(c[i].entity) == k
      ensures !IsDestroyed(c[i].entity)
    {
      assert KindOf(u[i].entity) == k;
    }
    RefreshKeepsGroup(c, k);
    SameShapeSameGroups(c, s, k);
  }

  /** An entity is gone after the frame exactly when the update and the
      collisions have marked it destroyed; in the last version this is how
      a ball below the window and a brick hit for the last time leave. */
  lemma GoneIffDestroyed(s: seq<Record>, input: Input, bounds: BoundsPolicy, hits: HitPolicy, i: nat)
    requires UniqueIds(s) && i < |s|
    ensures s[i].id in Ids(Stepped(s, input, bounds, hits))
      <==> !IsDestroyed(Collide(UpdateAll(s, input, bounds), hits)[i].entity)
  {
    var c := Collide(UpdateAll(s, input, bounds), hits);
    CollidedShape(s, input, bounds, hits);
    assert c[i].id == s[i].id;
    LiveIdsIff(c, i);
  }

  /** A ball that the update moves below the window under the last
      version's bounds does not survive the frame. */
  lemma FallenBallIsLost(s: seq<Record>, input: Input, hits: HitPolicy, i: nat)
    requires UniqueIds(s) && i < |s| && s[i].entity.BallEntity?
    requires s[i].entity.ball.pos.y + s[i].entity.ball.vel.y + BallRadius > WindowHeight
    ensures s[i].id !in Ids(Stepped(s, input, DestroyAtBottom, hits))
  {
    var b := s[i].entity.ball;
    var moved := Ball(Add(b.pos, b.vel), b.vel, b.destroyed);
    assert BelowBottom(BallBox(moved)) && !AboveTop(BallBox(moved));
    assert UpdateAll(s, input, DestroyAtBottom)[i].entity == BallEntity(UpdateBall(b, DestroyAtBottom));
    GoneIffDestroyed(s, input, DestroyAtBottom, hits, i);
  }

  /** One frame of the manager-based games once the game is in progress:
      update, collisions, refresh. */
  method Tick(m: Manager, input: Input, bounds: BoundsPolicy, hits: HitPolicy)
    requires m.Valid()
    modifies m
    ensures m.Valid() && m.nextId == old(m.nextId)
    ensures m.entities == Stepped(old(m.entities), input, bounds, hits)
    ensures forall i :: 0 <= i < |m.entities| ==> !IsDestroyed(m.entities[i].entity)
  {
    m.Update(input, bounds);
    ResolveCollisions(m, hits);
    m.Refresh();
  }
}
