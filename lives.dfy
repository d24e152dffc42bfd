/** The last version: bricks need several hits, a ball leaving through the
    bottom is destroyed, and the Game counts the player's lives and knows
    when the game is won or lost. */
module LivesGame {
  import opened Entities
  import opened Sequences
  import opened Collisions
  import opened Control
  import opened Registry
  import opened Simulation
  import opened ManagedGame

  const StartingLives: int := 3

  /** The owning list after the in-progress branch's first step: a new ball
      at the window centre when the ball group is empty. */
  function Respawned(s: seq<Record>, id: Id): (r: seq<Record>)
    ensures |r| == |s| + (if OfKind(s, BallKind) == [] then 1 else 0)
  {
    if OfKind(s, BallKind) == [] then s + [Record(id, BallEntity(NewBall(WindowWidth / 2.0, WindowHeight / 2.0)))]
    else s
  }

  /** Respawning fills an empty ball group with exactly the new ball and
      touches no other group. */
  lemma RespawnedGroups(s: seq<Record>, id: Id, k: Kind)
    ensures Ids(OfKind(Respawned(s, id), k))
      == if k == BallKind && OfKind(s, BallKind) == [] then [id] else Ids(OfKind(s, k))
  {
    if OfKind(s, BallKind) == [] {
      var ball := Record(id, BallEntity(NewBall(WindowWidth / 2.0, WindowHeight / 2.0)));
      OfKindSnoc(s, ball, k);
      if k == BallKind {
        IdsSnoc([], ball);
      }
    }
  }

  /** When the one ball in play leaves through the bottom, the ball group
      is empty after the frame, so the next frame in progress respawns a
      ball and costs a life. */
  lemma LastBallLost(s: seq<Record>, input: Input, hits: HitPolicy, i: nat)
    requires UniqueIds(s) && i < |s| && s[i].entity.BallEntity?
    requires s[i].entity.ball.pos.y + s[i].entity.ball.vel.y + BallRadius > WindowHeight
    requires Ids(OfKind(s, BallKind)) == [s[i].id]
    ensures OfKind(Stepped(s, input, DestroyAtBottom, hits), BallKind) == []
  {
    var c := Collide(UpdateAll(s, input, DestroyAtBottom), hits);
    var t := Stepped(s, input, DestroyAtBottom, hits);
    FallenBallIsLost(s, input, hits, i);
    CollidedShape(s, input, DestroyAtBottom, hits);
    forall j | 0 <= j < |c| && KindOf(c[j].entity) == BallKind
      ensures c[j].id == s[i].id
    {
      FilterComplete(s, HasKind(BallKind), s[j]);
      var g := OfKind(s, BallKind);
      var q :| 0 <= q < |g| && g[q] == s[j];
      assert Ids(g)[q] == s[j].id;
    }
    forall n | 0 <= n < |t|
      ensures !HasKind(BallKind)(t[n])
    {
      assert Ids(t)[n] == t[n].id;
      assert t[n] in Live(c);
      var j :| 0 <= j < |c| && c[j] == t[n];
    }
    FilterNone(t, HasKind(BallKind));
  }

  /** What the frame does to the state once it is InProgress: losing the
      last life overrides clearing the wall. */
  function Outcome(lives: int, noBricks: bool): (s: State)
    ensures s == GameOver <==> lives <= 0
    ensures s == Victory <==> lives > 0 && noBricks
    ensures s == InProgress <==> lives > 0 && !noBricks
  {
    if lives <= 0 then GameOver else if noBricks then Victory else InProgress
  }

  /** The first step of the in-progress branch: when getAll finds no ball,
      create one at the window centre. Reports whether it did. */
  method SpawnBallIfNone(m: Manager) returns (spawned: bool)
    requires m.Valid()
    modifies m
    ensures m.Valid()
    ensures spawned <==> old(m.Group(BallKind)) == []
    ensures m.entities == Respawned(old(m.entities), old(m.nextId))
    ensures m.nextId == old(m.nextId) + (if spawned then 1 else 0)
    ensures m.Group(BrickKind) == old(m.Group(BrickKind))
  {
    m.GroupIsFilter(BallKind);
    var balls := m.GetAll(BallKind);
    spawned := |balls| == 0;
    assert spawned <==> OfKind(old(m.entities), BallKind) == [];
    if spawned {
      var _ := m.Create(BallEntity(NewBall(WindowWidth / 2.0, WindowHeight / 2.0)));
    }
  }

  /** getAll of the brick group, asked whether it is empty. */
  method NoBricksLeft(m: Manager) returns (cleared: bool)
    requires m.Valid()
    modifies m
    ensures m.Valid()
    ensures cleared <==> old(m.Group(BrickKind)) == []
    ensures cleared <==> OfKind(old(m.entities), BrickKind) == []
    ensures m.entities == old(m.entities) && m.nextId == old(m.nextId)
  {
    m.GroupIsFilter(BrickKind);
    var bricks := m.GetAll(BrickKind);
    cleared := |bricks| == 0;
  }

  /** The fields of the last version's Game that a frame changes, with the
      Manager's owning list and id counter. */
  datatype LivesView = LivesView(state: State, pausePressedLastFrame: bool, lives: int, entities: seq<Record>, nextId: Id)

  /** The P block and the R block of run's loop. */
  function Resumed(v: LivesView, keys: Keys): (u: LivesView)
    ensures u.pausePressedLastFrame == keys.pause
    ensures keys.restart ==> u.state == Paused && u.lives == StartingLives && u.entities == Layout(v.nextId, true)
    ensures !keys.restart ==> u == v.(state := TogglePause(v.state, keys.pause, v.pausePressedLastFrame).0,
                                      pausePressedLastFrame := keys.pause)
  {
    var t := TogglePause(v.state, keys.pause, v.pausePressedLastFrame);
    if keys.restart then LivesView(Paused, t.1, StartingLives, Layout(v.nextId, true), v.nextId + 46)
    else LivesView(t.0, t.1, v.lives, v.entities, v.nextId)
  }

  /** The branch of run's loop taken when the state is InProgress. */
  function Advanced(u: LivesView, input: Input): (r: LivesView)
    ensures r.pausePressedLastFrame == u.pausePressedLastFrame
    ensures r.lives == u.lives || r.lives == u.lives - 1
  {
    var noBall := OfKind(u.entities, BallKind) == [];
    var lives := u.lives - (if noBall then 1 else 0);
    LivesView(Outcome(lives, OfKind(u.entities, BrickKind) == []), u.pausePressedLastFrame, lives,
      Stepped(Respawned(u.entities, u.nextId), input, DestroyAtBottom, CountedHits),
      u.nextId + (if noBall then 1 else 0))
  }

  /** Advanced, field by field. */
  lemma AdvancedFields(u: LivesView, input: Input, r: LivesView)
    requires r.pausePressedLastFrame == u.pausePressedLastFrame
    requires r.lives == u.lives - (if OfKind(u.entities, BallKind) == [] then 1 else 0)
    requires r.state == Outcome(r.lives, OfKind(u.entities, BrickKind) == [])
    requires r.entities == Stepped(Respawned(u.entities, u.nextId), input, DestroyAtBottom, CountedHits)
    requires r.nextId == u.nextId + (if OfKind(u.entities, BallKind) == [] then 1 else 0)
    ensures r == Advanced(u, input)
  {
  }

  /** One iteration of run's loop for a frame whose Escape is up. */
  function LivesFrame(v: LivesView, keys: Keys): (r: LivesView)
    ensures r.pausePressedLastFrame == keys.pause
    ensures !keys.restart ==> r.lives <= v.lives
  {
    var u := Resumed(v, keys);
    if u.state != InProgress then u else Advanced(u, PaddleInput(keys))
  }

  /** What a frame does: R restarts with three lives; outside InProgress
      nothing but the pause state changes; in progress a missing ball is
      replaced at the cost of a life, the outcome is judged on the wall seen
      before the update, and the entities take one Tick. */
  lemma LivesFrameCases(v: LivesView, keys: Keys)
    ensures keys.restart ==>
      LivesFrame(v, keys).state == Paused && LivesFrame(v, keys).lives == StartingLives
      && LivesFrame(v, keys).entities == Layout(v.nextId, true)
    ensures !keys.restart && TogglePause(v.state, keys.pause, v.pausePressedLastFrame).0 != InProgress ==>
      LivesFrame(v, keys) == v.(state := TogglePause(v.state, keys.pause, v.pausePressedLastFrame).0,
                                pausePressedLastFrame := keys.pause)
    ensures !keys.restart && TogglePause(v.state, keys.pause, v.pausePressedLastFrame).0 == InProgress ==>
      LivesFrame(v, keys).lives == v.lives - (if OfKind(v.entities, BallKind) == [] then 1 else 0)
      && LivesFrame(v, keys).state == Outcome(LivesFrame(v, keys).lives, OfKind(v.entities, BrickKind) == [])
      && LivesFrame(v, keys).entities
        == Stepped(Respawned(v.entities, v.nextId), PaddleInput(keys), DestroyAtBottom, CountedHits)
    ensures (v.state == GameOver || v.state == Victory) && !keys.restart ==>
      LivesFrame(v, keys).state == v.state && LivesFrame(v, keys).entities == v.entities
  {
  }

  /** The fields after one LivesFrame per entry of `frames`. */
  function LivesReplay(v: LivesView, frames: seq<Keys>): (r: LivesView)
    ensures |frames| > 0 ==> r.pausePressedLastFrame == frames[|frames| - 1].pause
  {
    if |frames| == 0 then v else LivesFrame(LivesReplay(v, frames[..|frames| - 1]), frames[|frames| - 1])
  }

  lemma LivesReplayStep(v: LivesView, frames: seq<Keys>, n: nat)
    requires n < |frames|
    ensures LivesReplay(v, frames[..n + 1]) == LivesFrame(LivesReplay(v, frames[..n]), frames[n])
  {
    assert frames[..n + 1][..n] == frames[..n];
  }

  /** Lives are only regained by restarting. */
  lemma {:induction false} LivesNeverRise(v: LivesView, frames: seq<Keys>)
    requires forall i :: 0 <= i < |frames| ==> !frames[i].restart
    ensures LivesReplay(v, frames).lives <= v.lives
  {
    if |frames| > 0 {
      LivesNeverRise(v, frames[..|frames| - 1]);
    }
  }

  /** A finished game stays finished until R is pressed. */
  lemma {:induction false} FinishedStaysFinished(v: LivesView, frames: seq<Keys>)
    requires v.state == GameOver || v.state == Victory
    requires forall i :: 0 <= i < |frames| ==> !frames[i].restart
    ensures LivesReplay(v, frames).state == v.state && LivesReplay(v, frames).entities == v.entities
  {
    if |frames| > 0 {
      FinishedStaysFinished(v, frames[..|frames| - 1]);
    }
  }

  class Game {
    const manager: Manager
    var state: State
    var pausePressedLastFrame: bool
    var remainingLives: int

    /** At most the starting lives, and a game that is not over has at
        least one left. */
    ghost predicate Valid()
      reads this, manager
    {
      manager.Valid()
      && 0 <= remainingLives <= StartingLives
      && (state != GameOver ==> remainingLives >= 1)
    }

    function View(): LivesView
      reads this, manager
    {
      LivesView(state, pausePressedLastFrame, remainingLives, manager.entities, manager.nextId)
    }

    constructor ()
      ensures Valid() && fresh(manager)
      ensures state == GameOver && !pausePressedLastFrame && remainingLives == 0
      ensures manager.entities == [] && manager.nextId == 0
    {
      manager := new Manager();
      state := GameOver;
      pausePressedLastFrame := false;
      remainingLives := 0;
    }

    /** restart: three lives, pause, and a fresh scene whose bricks need
        1 + (iX * iY) % 3 hits. */
    method Restart()
      requires Valid()
      modifies this, manager
      ensures Valid()
      ensures remainingLives == StartingLives
      ensures state == Paused && pausePressedLastFrame == old(pausePressedLastFrame)
      ensures manager.entities == Layout(old(manager.nextId), true)
      ensures manager.nextId == old(manager.nextId) + 46
    {
      remainingLives := StartingLives;
      state := Paused;
      manager.Clear();
      CreateScene(manager, true);
    }

    /** A frame that starts without a ball gets a new one and costs a
        life. */
    method Respawn()
      requires Valid() && state == InProgress
      modifies this, manager
      ensures manager.Valid() && state == InProgress && pausePressedLastFrame == old(pausePressedLastFrame)
      ensures 0 <= remainingLives <= StartingLives
      ensures remainingLives == old(remainingLives) - (if old(manager.Group(BallKind)) == [] then 1 else 0)
      ensures manager.entities == Respawned(old(manager.entities), old(manager.nextId))
      ensures manager.nextId == old(manager.nextId) + (if old(manager.Group(BallKind)) == [] then 1 else 0)
      ensures manager.Group(BrickKind) == old(manager.Group(BrickKind))
    {
      var spawned := SpawnBallIfNone(manager);
      if spawned {
        remainingLives := remainingLives - 1;
      }
    }

    /** The two checks that end the game: an empty brick group wins it, no
        lives left loses it, and losing is checked last. */
    method Judge(cleared: bool)
      requires state == InProgress
      modifies this
      ensures state == Outcome(remainingLives, cleared)
      ensures remainingLives == old(remainingLives) && pausePressedLastFrame == old(pausePressedLastFrame)
    {
      if cleared {
        state := Victory;
      }
      if remainingLives <= 0 {
        state := GameOver;
      }
    }

    /** The branch of run taken when the state is InProgress. */
    method Advance(input: Input)
      requires Valid() && state == InProgress
      modifies this, manager
      ensures Valid()
      ensures pausePressedLastFrame == old(pausePressedLastFrame)
      ensures remainingLives == old(remainingLives) - (if old(manager.Group(BallKind)) == [] then 1 else 0)
      ensures state == Outcome(remainingLives, old(manager.Group(BrickKind)) == [])
      ensures manager.entities
        == Stepped(Respawned(old(manager.entities), old(manager.nextId)), input, DestroyAtBottom, CountedHits)
      ensures manager.nextId == old(manager.nextId) + (if old(manager.Group(BallKind)) == [] then 1 else 0)
      ensures View() == Advanced(old(View()), input)
    {
      assert (manager.Group(BallKind) == []) == (OfKind(manager.entities, BallKind) == []) by {
        manager.GroupIsFilter(BallKind);
      }
      Respawn();
      var cleared := NoBricksLeft(manager);
      Judge(cleared);
      Tick(manager, input, DestroyAtBottom, CountedHits);
      AdvancedFields(old(View()), input, View());
    }

    /** The P block and the R block of run's loop. */
    method Resume(keys: Keys)
      requires Valid()
      modifies this, manager
      ensures Valid()
      ensures View() == Resumed(old(View()), keys)
    {
      var toggled := TogglePause(state, keys.pause, pausePressedLastFrame);
      state, pausePressedLastFrame := toggled.0, toggled.1;
      if keys.restart {
        Restart();
      }
    }

    /** One iteration of run's loop for a frame whose Escape is up. */
    method Frame(keys: Keys)
      requires Valid()
      modifies this, manager
      ensures Valid()
      ensures View() == LivesFrame(old(View()), keys)
    {
      Resume(keys);
      if state == InProgress {
        Advance(PaddleInput(keys));
      }
    }

    /** The loop body of run: frame n extends the replay by one. */
    method PlayNext(ghost v: LivesView, frames: seq<Keys>, n: nat)
      requires Valid() && n < |frames| && View() == LivesReplay(v, frames[..n])
      modifies this, manager
      ensures Valid()
      ensures View() == LivesReplay(v, frames[..n + 1])
    {
      LivesReplayStep(v, frames, n);
      Frame(frames[n]);
    }

    /** run: one Frame per entry of `frames` until the first one with
        Escape down. */
    method Run(frames: seq<Keys>) returns (played: nat)
      requires Valid()
      modifies this, manager
      ensures Valid()
      ensures played <= |frames|
      ensures forall i :: 0 <= i < played ==> !frames[i].escape
      ensures played < |frames| ==> frames[played].escape
      ensures View() == LivesReplay(old(View()), frames[..played])
    {
      played := 0;
      while played < |frames| && !frames[played].escape
        invariant Valid() && played <= |frames|
        invariant forall i :: 0 <= i < played ==> !frames[i].escape
        invariant View() == LivesReplay(old(View()), frames[..played])
      {
        PlayNext(old(View()), frames, played);
        played := played + 1;
      }
    }
  }
}
