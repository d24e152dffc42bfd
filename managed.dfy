/** The tenth version: the Game owns a Manager, restart rebuilds the scene
    through create, and a frame in progress is update, the nested
    collision loops and refresh. */
module ManagedGame {
  import opened Geometry
  import opened Entities
  import opened Collisions
  import opened Sequences
  import opened Grid
  import opened Control
  import opened Registry
  import opened Simulation

  /** The bricks of `w` as created one after another from id `from`. */
  function WallRecords(from: Id, w: seq<Brick>): (r: seq<Record>)
    ensures |r| == |w|
  {
    if |w| == 0 then []
    else WallRecords(from, w[..|w| - 1]) + [Record(from + (|w| - 1), BrickEntity(w[|w| - 1]))]
  }

  lemma {:induction false} WallRecordsAt(from: Id, w: seq<Brick>)
    ensures forall k :: 0 <= k < |w| ==> WallRecords(from, w)[k] == Record(from + k, BrickEntity(w[k]))
  {
    if |w| > 0 {
      WallRecordsAt(from, w[..|w| - 1]);
    }
  }

  /** The owning list restart leaves behind: the wall in loop order, then
      the ball at the window centre, then the paddle. */
  function Layout(from: Id, counted: bool): (r: seq<Record>)
    ensures |r| == WallSize + 2
  {
    WallRecords(from, Wall(counted))
      + [Record(from + WallSize, BallEntity(NewBall(WindowWidth / 2.0, WindowHeight / 2.0))),
         Record(from + WallSize + 1, PaddleEntity(NewPaddle((800 / 2) as real, (600 - 50) as real)))]
  }

  lemma LayoutSplit(from: Id, counted: bool)
    ensures Layout(from, counted) == WallRecords(from, Wall(counted))
      + [Record(from + 44, BallEntity(NewBall(400.0, 300.0)))]
      + [Record(from + 45, PaddleEntity(NewPaddle(400.0, 550.0)))]
  {
  }

  /** After restart the ball group holds the one new ball and the paddle
      group the one new paddle. */
  lemma LayoutSingles(from: Id, counted: bool)
    ensures Ids(OfKind(Layout(from, counted), BallKind)) == [from + 44]
    ensures Ids(OfKind(Layout(from, counted), PaddleKind)) == [from + 45]
  {
    var w := WallRecords(from, Wall(counted));
    var ball := Record(from + 44, BallEntity(NewBall(400.0, 300.0)));
    var paddle := Record(from + 45, PaddleEntity(NewPaddle(400.0, 550.0)));
    LayoutSplit(from, counted);
    WallRecordsAreBricks(from, Wall(counted));
    NoneOfKind(w, BallKind);
    NoneOfKind(w, PaddleKind);
    OfKindSnoc(w, ball, BallKind);
    OfKindSnoc(w + [ball], paddle, BallKind);
    OfKindSnoc(w, ball, PaddleKind);
    OfKindSnoc(w + [ball], paddle, PaddleKind);
    IdsSnoc([], ball);
    IdsSnoc([], paddle);
  }

  /** After restart the brick group is the 44 wall bricks in loop order. */
  lemma LayoutBricks(from: Id, counted: bool)
    ensures OfKind(Layout(from, counted), BrickKind) == WallRecords(from, Wall(counted))
  {
    var w := WallRecords(from, Wall(counted));
    var ball := Record(from + 44, BallEntity(NewBall(400.0, 300.0)));
    var paddle := Record(from + 45, PaddleEntity(NewPaddle(400.0, 550.0)));
    LayoutSplit(from, counted);
    WallRecordsAreBricks(from, Wall(counted));
    FilterKeepsAll(w, HasKind(BrickKind));
    OfKindSnoc(w, ball, BrickKind);
    OfKindSnoc(w + [ball], paddle, BrickKind);
  }

  /** Restart's entities have distinct ids and none is destroyed. */
  lemma LayoutFresh(from: Id, counted: bool)
    ensures UniqueIds(Layout(from, counted))
    ensures forall i :: 0 <= i < |Layout(from, counted)| ==> !IsDestroyed(Layout(from, counted)[i].entity)
  {
    var l := Layout(from, counted);
    WallRecordsAt(from, Wall(counted));
    WallBricksFresh(counted);
    forall i | 0 <= i < |l|
      ensures l[i].id == from + i && !IsDestroyed(l[i].entity)
    {
      if i < WallSize {
        assert l[i] == WallRecords(from, Wall(counted))[i];
      }
    }
  }

  /** A list of bricks has no member of another kind. */
  lemma NoneOfKind(w: seq<Record>, k: Kind)
    requires k != BrickKind
    requires forall i :: 0 <= i < |w| ==> w[i].entity.BrickEntity?
    ensures OfKind(w, k) == []
  {
    FilterNone(w, HasKind(k));
  }

  /** The records of a wall are all bricks. */
  lemma WallRecordsAreBricks(from: Id, w: seq<Brick>)
    ensures forall i :: 0 <= i < |WallRecords(from, w)| ==> WallRecords(from, w)[i].entity.BrickEntity?
  {
    WallRecordsAt(from, w);
  }

  /** Creating one more brick adds its record. */
  lemma WallRecordsSnoc(from: Id, w: seq<Brick>, b: Brick)
    ensures WallRecords(from, w + [b]) == WallRecords(from, w) + [Record(from + |w|, BrickEntity(b))]
  {
    assert (w + [b])[..|w|] == w;
  }

  /** One more brick of restart's inner loop adds its record. */
  lemma GrowWall(made: seq<Record>, from: Id, iX: nat, iY: nat, id: Id, counted: bool)
    requires iY < CountY
    requires made == WallRecords(from, Columns(iX, counted) + Column(iX, counted)[..iY])
    requires id == from + |made|
    ensures made + [Record(id, BrickEntity(GridBrick(iX, iY, counted)))]
      == WallRecords(from, Columns(iX, counted) + Column(iX, counted)[..iY + 1])
  {
    ColumnStep(iX, iY, counted);
    WallRecordsSnoc(from, Columns(iX, counted) + Column(iX, counted)[..iY], GridBrick(iX, iY, counted));
  }

  lemma GrowColumn(made: seq<Record>, from: Id, iX: nat, counted: bool)
    requires made == WallRecords(from, Columns(iX, counted) + Column(iX, counted)[..CountY])
    ensures made == WallRecords(from, Columns(iX + 1, counted))
  {
    ColumnDone(iX, counted);
  }

  lemma AppendAssoc<T>(a: seq<T>, b: seq<T>, c: seq<T>)
    ensures (a + b) + c == a + (b + c)
  {
  }

  /** restart's nested loops: the wall, brick by brick, in column order. */
  method CreateWall(m: Manager, counted: bool)
    requires m.Valid()
    modifies m
    ensures m.Valid()
    ensures m.entities == old(m.entities) + WallRecords(old(m.nextId), Wall(counted))
    ensures m.nextId == old(m.nextId) + WallSize
  {
    var from := m.nextId;
    ghost var made: seq<Record> := [];
    for iX := 0 to CountX
      invariant m.Valid() && m.nextId == from + |made|
      invariant m.entities == old(m.entities) + made
      invariant made == WallRecords(from, Columns(iX, counted))
    {
      assert Columns(iX, counted) + Column(iX, counted)[..0] == Columns(iX, counted);
      for iY := 0 to CountY
        invariant m.Valid() && m.nextId == from + |made|
        invariant m.entities == old(m.entities) + made
        invariant made == WallRecords(from, Columns(iX, counted) + Column(iX, counted)[..iY])
      {
        var id := m.Create(BrickEntity(GridBrick(iX, iY, counted)));
        AppendAssoc(old(m.entities), made, [Record(id, BrickEntity(GridBrick(iX, iY, counted)))]);
        GrowWall(made, from, iX, iY, id, counted);
        made := made + [Record(id, BrickEntity(GridBrick(iX, iY, counted)))];
      }
      GrowColumn(made, from, iX, counted);
    }
  }

  lemma SceneBuilt(s: seq<Record>, from: Id, counted: bool, ballId: Id, paddleId: Id)
    requires s == WallRecords(from, Wall(counted))
      + [Record(ballId, BallEntity(NewBall(WindowWidth / 2.0, WindowHeight / 2.0)))]
      + [Record(paddleId, PaddleEntity(NewPaddle((800 / 2) as real, (600 - 50) as real)))]
    requires ballId == from + WallSize && paddleId == from + WallSize + 1
    ensures s == Layout(from, counted)
  {
  }

  /** The creations of restart after the manager is cleared: the wall,
      then the ball, then the paddle. */
  method CreateScene(m: Manager, counted: bool)
    requires m.Valid() && m.entities == []
    modifies m
    ensures m.Valid()
    ensures m.entities == Layout(old(m.nextId), counted)
    ensures m.nextId == old(m.nextId) + WallSize + 2
  {
    CreateWall(m, counted);
    assert m.entities == WallRecords(old(m.nextId), Wall(counted));
    var ballId := m.Create(BallEntity(NewBall(WindowWidth / 2.0, WindowHeight / 2.0)));
    var paddleId := m.Create(PaddleEntity(NewPaddle((800 / 2) as real, (600 - 50) as real)));
    SceneBuilt(m.entities, old(m.nextId), counted, ballId, paddleId);
  }

  /** The fields of the tenth version's Game that a frame changes, with the
      Manager's owning list and id counter. */
  datatype ManagedView = ManagedView(state: State, pausePressedLastFrame: bool, entities: seq<Record>, nextId: Id)

  /** One iteration of run's loop for a frame whose Escape is up. */
  function ManagedFrame(v: ManagedView, keys: Keys): (r: ManagedView)
    ensures r.pausePressedLastFrame == keys.pause
    ensures r.nextId == v.nextId + (if keys.restart then WallSize + 2 else 0)
    ensures r.state == Paused ==> r.entities == (if keys.restart then Layout(v.nextId, false) else v.entities)
  {
    var t := TogglePause(v.state, keys.pause, v.pausePressedLastFrame);
    var u := if keys.restart then ManagedView(Paused, t.1, Layout(v.nextId, false), v.nextId + WallSize + 2)
      else ManagedView(t.0, t.1, v.entities, v.nextId);
    if u.state == Paused then u
    else u.(entities := Stepped(u.entities, PaddleInput(keys), ReflectAllSides, SingleHit))
  }

  /** What a frame does: P toggles on its edge; R pauses and leaves exactly
      the restart layout; a paused game keeps its entities; a game in
      progress takes one Tick. */
  lemma ManagedFrameCases(v: ManagedView, keys: Keys)
    ensures ManagedFrame(v, keys).pausePressedLastFrame == keys.pause
    ensures keys.restart ==>
      ManagedFrame(v, keys).state == Paused && ManagedFrame(v, keys).entities == Layout(v.nextId, false)
    ensures !keys.restart ==>
      ManagedFrame(v, keys).state == TogglePause(v.state, keys.pause, v.pausePressedLastFrame).0
    ensures !keys.restart && ManagedFrame(v, keys).state == Paused ==> ManagedFrame(v, keys).entities == v.entities
    ensures !keys.restart && ManagedFrame(v, keys).state == InProgress ==>
      ManagedFrame(v, keys).entities == Stepped(v.entities, PaddleInput(keys), ReflectAllSides, SingleHit)
  {
  }

  /** The fields after one ManagedFrame per entry of `frames`. */
  function ManagedReplay(v: ManagedView, frames: seq<Keys>): (r: ManagedView)
    ensures |frames| > 0 ==> r.pausePressedLastFrame == frames[|frames| - 1].pause
  {
    if |frames| == 0 then v else ManagedFrame(ManagedReplay(v, frames[..|frames| - 1]), frames[|frames| - 1])
  }

  lemma ManagedReplayStep(v: ManagedView, frames: seq<Keys>, n: nat)
    requires n < |frames|
    ensures ManagedReplay(v, frames[..n + 1]) == ManagedFrame(ManagedReplay(v, frames[..n]), frames[n])
  {
    assert frames[..n + 1][..n] == frames[..n];
  }

  /** The id counter only moves on restart, by 46 each time. */
  lemma {:induction false} ReplayCountsRestarts(v: ManagedView, frames: seq<Keys>)
    requires forall i :: 0 <= i < |frames| ==> !frames[i].restart
    ensures ManagedReplay(v, frames).nextId == v.nextId
  {
    if |frames| > 0 {
      ReplayCountsRestarts(v, frames[..|frames| - 1]);
    }
  }

  /** While paused, frames without P and R leave the entities alone. */
  lemma {:induction false} PausedFramesKeepEntities(v: ManagedView, frames: seq<Keys>)
    requires v.state == Paused
    requires forall i :: 0 <= i < |frames| ==> !frames[i].restart && !frames[i].pause
    ensures ManagedReplay(v, frames).state == Paused
    ensures ManagedReplay(v, frames).entities == v.entities
  {
    if |frames| > 0 {
      PausedFramesKeepEntities(v, frames[..|frames| - 1]);
    }
  }

  class Game {
    const manager: Manager
    var state: State
    var pausePressedLastFrame: bool

    ghost predicate Valid()
      reads this, manager
    {
      manager.Valid() && (state == Paused || state == InProgress)
    }

    function View(): ManagedView
      reads this, manager
    {
      ManagedView(state, pausePressedLastFrame, manager.entities, manager.nextId)
    }

    constructor ()
      ensures Valid() && fresh(manager)
      ensures state == InProgress && !pausePressedLastFrame
      ensures manager.entities == [] && manager.nextId == 0
    {
      manager := new Manager();
      state := InProgress;
      pausePressedLastFrame := false;
    }

    /** restart: pause, clear the manager and create the wall, the ball
        and the paddle. */
    method Restart()
      requires Valid()
      modifies this, manager
      ensures Valid()
      ensures state == Paused && pausePressedLastFrame == old(pausePressedLastFrame)
      ensures manager.entities == Layout(old(manager.nextId), false)
      ensures manager.nextId == old(manager.nextId) + WallSize + 2
    {
      state := Paused;
      manager.Clear();
      CreateScene(manager, false);
    }

    /** One iteration of run's loop for a frame whose Escape is up. */
    method Frame(keys: Keys)
      requires Valid()
      modifies this, manager
      ensures Valid()
      ensures View() == ManagedFrame(old(View()), keys)
    {
      var toggled := TogglePause(state, keys.pause, pausePressedLastFrame);
      state, pausePressedLastFrame := toggled.0, toggled.1;
      if keys.restart {
        Restart();
      }
      if state != Paused {
        Tick(manager, PaddleInput(keys), ReflectAllSides, SingleHit);
      }
    }

    /** The loop body of run: frame n extends the replay by one. */
    method PlayNext(ghost v: ManagedView, frames: seq<Keys>, n: nat)
      requires Valid() && n < |frames| && View() == ManagedReplay(v, frames[..n])
      modifies this, manager
      ensures Valid()
      ensures View() == ManagedReplay(v, frames[..n + 1])
    {
      ManagedReplayStep(v, frames, n);
      Frame(frames[n]);
    }

    /** run: one Frame per entry of `frames` until the first one with
        Escape down. */
    method Run(frames: seq<Keys>) returns (played: nat)
      requires Valid()
      modifies this, manager
      ensures Valid()
      ensures played <= |frames|
      ensures forall i :: 0 <= i < played ==> !frames[i].escape
      ensures played < |frames| ==> frames[played].escape
      ensures View() == ManagedReplay(old(View()), frames[..played])
    {
      played := 0;
      while played < |frames| && !frames[played].escape
        invariant Valid() && played <= |frames|
        invariant forall i :: 0 <= i < played ==> !frames[i].escape
        invariant View() == ManagedReplay(old(View()), frames[..played])
      {
        PlayNext(old(View()), frames, played);
        played := played + 1;
      }
    }
  }
}
