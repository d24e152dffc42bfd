# Arkanoid simulation core, modelled in Dafny

The repository is an incremental Arkanoid tutorial in C++ with SFML. Versions
`p03` to `p11` grow a ball, then a paddle, collisions, a brick wall, a Game
object with pause and restart, an entity Manager and, last, a lives and
victory rule. This project models the deterministic core that remains once
drawing and keyboard polling are taken away:

- **Geometry**: vectors, the dot product, reflection about a normal, and
  axis-aligned boxes with the closed-interval intersection test.
- **Entities**: the ball, the paddle and the brick as values; their box
  accessors; `Ball::update` with its two window-bounds rules (reflect on all
  four sides, or destroy at the bottom); the paddle steering rule; the
  virtual `Entity::update`.
- **Actors**: the ball and the paddle as objects whose `update` changes
  their own fields in place, each method proved to leave the value that the
  Entities functions compute.
- **Collisions**: `solvePaddleBallCollision` and `solveBrickBallCollision`
  (minimum-overlap axis rule), in the single-hit and the counted-hit
  variants.
- **Control**: the game states and the edge-triggered P key.
- **Grid**: the 11 x 4 brick wall that every restart builds, in creation
  order.
- **Sequences**: the erase-remove idiom as a filter, and an in-place
  remove/erase method proved against it.
- **Registry**: the `Manager` of the last two versions as a class that owns a
  sequence of records and a map from kind to the ids of its members, with
  `create`, `refresh`, `clear`, `getAll`, `forEach` (through a callback that
  writes the entity back) and `update`. Its invariant is that every group is
  the owning list filtered to its kind, in the same order.
- **Simulation**: one frame of the Manager-based versions. Every entity is
  updated. Then each ball is resolved against every brick and then every
  paddle, in group order. Then comes `refresh`.
- **Scene**: the `std::vector<Brick>` frame of versions seven to nine, and
  the ninth version's `Game`. Its restart appends a wall without clearing.
- **ManagedGame**: the tenth version's `Game`. Its restart clears the
  Manager and creates 44 bricks, a ball and a paddle.
- **LivesGame**: the eleventh version's `Game`. Bricks need one to three
  hits, and a ball leaving through the bottom is destroyed. When no ball is
  left, a new one is created and a life is lost. An empty wall wins the game
  and no lives left loses it; a loss overrides a win in the same frame.

Pointers into the Manager are modelled as ids handed out by a counter. The
kind of an entity (`typeid(T)` in the source) is a datatype. Coordinates are
exact reals. Each game's `Frame` is proved to change its fields exactly as a
pure step function does, and its `Run` to end with that function folded over
the frames played; the properties of whole runs are lemmas about that fold.

## Model

| member | source | states |
|---|---|---|
| Geometry.Abs | code/p07.cpp:208-209 | the result is non-negative and is either x or -x |
| Geometry.SqLength | code/p05.cpp:126-130 | the squared length is never negative |
| Geometry.DotSymmetric | code/p05.cpp:141-145 | the dot product is symmetric |
| Geometry.ReflectedKeepsLength | code/p05.cpp:149-154 | reflecting about a unit normal keeps the squared length |
| Geometry.ReflectedTwice | code/p05.cpp:149-154 | reflecting twice about the same unit normal gives the vector back |
| Geometry.ReflectedAboutNormalized | code/p05.cpp:134-154 | getReflected about any unit positive multiple of c (what getNormalized returns) equals the square-root-free reflection about c |
| Geometry.ReflectedAboutKeepsLength | code/p05.cpp:149-154 | reflection about any non-zero direction keeps the squared length |
| Geometry.NormalizedAxis | code/p05.cpp:134-138 | for a non-zero vector on an axis the normalised vector is a unit positive multiple of it |
| Geometry.IntersectingSymmetric | code/p05.cpp:111-119 | isIntersecting(A, B) equals isIntersecting(B, A) |
| Geometry.IntersectingReflexive | code/p08.cpp:35-40 | a well-formed box intersects itself |
| Geometry.TouchingEdgesIntersect | code/p05.cpp:111-119 | boxes that only share a vertical edge count as intersecting (closed intervals) |
| Entities.NewBall | code/p03.cpp:27-35 | a new ball sits at the given centre, is not destroyed and moves at speed 8 up and to the left |
| Entities.NewPaddle | code/p04.cpp:66-80 | a new paddle sits at the given centre, at rest, not destroyed |
| Entities.NewBrick | code/p06.cpp:141-162 | a new brick sits at the given centre with the given hit count, not destroyed |
| Entities.RectBox | code/p08.cpp:47-59 | right - left is the width, bottom - top the height, the centre is (x, y), and the box is well-formed for non-negative sizes |
| Entities.CircleBox | code/p08.cpp:61-72 | right - left and bottom - top are twice the radius, the centre is (x, y), and the box is well-formed for a non-negative radius |
| Entities.SolveBoundCollisions | code/p11.cpp:181-190 | the position is kept. vx flips exactly when the box is past the left or right edge. Reflect rule (code/p10.cpp:270-274): vy flips exactly when past the top or bottom, and destroyed is kept. Bottom rule: vy flips exactly when past the top; otherwise a ball past the bottom becomes destroyed, with vy kept |
| Entities.BoundsTurnInward | code/p04.cpp:49-53 | a ball past a side or the top and still moving outwards is turned back |
| Entities.EdgeTouchNoFlip | code/p03.cpp:68-72 | the edge tests are strict: a ball inside the window, edges included, is left unchanged by either rule |
| Entities.CornerFlipsBoth | code/p03.cpp:68-72 | the two axes are tested independently, so a ball past a corner has both components flipped |
| Entities.UpdateBall | code/p03.cpp:47-73 | the ball moves by its old velocity first; the speed on each axis is kept; under the reflect rule it is never destroyed |
| Entities.FirstBallStep | code/p03.cpp:27-82 | the ball created at (400, 300) is at (392, 292) after one update, with velocity (-8, -8) |
| Entities.SteerVelocityX | code/p04.cpp:120-132 | vx is -8 exactly when Left is down and left() > 0; it is +8 exactly when that fails and Right is down with right() < 800; otherwise it is 0 |
| Entities.LeftHasPriority | code/p04.cpp:120-123 | with left() > 0, Left yields -8 whatever Right does |
| Entities.UpdatePaddle | code/p04.cpp:82-88 | the input is read first, then x moves by the new vx and y by the unchanged vy |
| Entities.PaddleStaysLevel | code/p04.cpp:70-88 | a paddle that starts at rest keeps vy = 0 and its y over any sequence of frames |
| Actors.BallObject.constructor | code/p03.cpp:29-35 | a new ball object holds NewBall of its coordinates |
| Actors.BallObject.SolveBoundCollisions | code/p11.cpp:181-190 | the in-place flips and the bottom destroy leave the value SolveBoundCollisions computes (reflect rule: code/p03.cpp:68-72) |
| Actors.BallObject.Update | code/p03.cpp:47-73 | moving the shape and then solving the bounds in place leaves UpdateBall of the old value |
| Actors.PaddleObject.constructor | code/p04.cpp:74-80 | a new paddle object holds NewPaddle of its coordinates |
| Actors.PaddleObject.ProcessPlayerInput | code/p04.cpp:102-133 | only velocity.x is assigned, to SteerVelocityX of the paddle; position and velocity.y are kept |
| Actors.PaddleObject.Update | code/p04.cpp:82-88 | processing input and then moving the shape leaves UpdatePaddle of the old value |
| Entities.UpdatePaddleRun | code/p04.cpp:82-88 | updating a paddle over a run of frames never destroys it |
| Entities.UpdateEntity | code/p10.cpp:64-74 | update keeps the kind; a brick is unchanged (the base update is a no-op, code/p10.cpp:320-339); a paddle, and under the reflect rule a ball, keeps its destroyed flag |
| Collisions.CollisionVec | code/p05.cpp:188-197 | collisionVec has y = -2, so its squared length is at least 4 and normalising it is defined |
| Collisions.SolvePaddleBall | code/p05.cpp:161-202 | no intersection leaves the ball unchanged. On intersection, x is kept, y becomes paddle.top() - 2r, the speed and destroyed flag are kept, and the ball no longer intersects the paddle |
| Collisions.PaddleBounceIsReflection | code/p05.cpp:197-201 | the new velocity is getReflected(velocity, n) for any unit positive multiple n of collisionVec |
| Collisions.StraightBounce | code/p05.cpp:188-201 | when posFactor + velFactor is 0 the normal is (0, -1) and the velocity becomes (vx, -vy) |
| Collisions.OverlapsOf | code/p07.cpp:200-203 | all four overlaps are >= 0 exactly when the boxes intersect |
| Collisions.Bounce | code/p07.cpp:208-232 | one component is rewritten with its magnitude kept and the other is unchanged; the sign points away from the side the ball came from |
| Collisions.TieTurnsVertical | code/p07.cpp:224 | when the two minimum overlaps have equal magnitude the vertical branch is taken (strict comparison) |
| Collisions.BounceIdempotent | code/p07.cpp:224-232 | bouncing again off the same overlaps changes nothing |
| Collisions.Hit | code/p11.cpp:294-295 | a single hit destroys the brick (code/p07.cpp:195, code/p10.cpp:358-361); a counted hit lowers requiredHits by exactly 1 and sets destroyed once it is <= 0, never clearing it |
| Collisions.SolveBrickBall | code/p07.cpp:189-233 | no intersection changes neither object; on intersection the brick is hit, the ball keeps its position and destroyed flag, and its velocity is the bounce off the overlaps |
| Collisions.SolveBrickBallTwice | code/p07.cpp:224-232 | resolving the same pair twice gives the ball the velocity of the first resolution |
| Collisions.HitTimes | code/p11.cpp:288-295 | after n hits the brick is in place and needs n fewer hits |
| Collisions.DestroyedOnLastHit | code/p11.cpp:294-295 | a fresh brick needing h >= 1 hits is destroyed after n hits exactly when n >= h |
| Control.TogglePause | code/p09.cpp:272-287 | pausePressedLastFrame becomes P's state; the state changes exactly when P is down, was up, and the state is Paused or InProgress, and then it swaps them |
| Control.PauseRun | code/p09.cpp:272-287 | after a run of frames the remembered P state is the last frame's |
| Control.HoldingPTogglesOnce | code/p09.cpp:272-287 | holding P for any number of frames toggles exactly once |
| Control.PressReleasePressRestores | code/p09.cpp:272-287 | press, release, press returns to the starting state |
| Grid.BrickCentre | code/p06.cpp:218-224 | the brick in column iX, row iY has centre (22 + (iX+1)*63, (iY+2)*23) |
| Grid.RequiredHitsAt | code/p11.cpp:382 | 1 + (iX*iY) % 3 is between 1 and 3 |
| Grid.Column | code/p06.cpp:219-224 | the inner loop creates the four bricks of a column, top to bottom |
| Grid.Columns | code/p06.cpp:218-224 | n columns hold 4n bricks |
| Grid.Wall | code/p06.cpp:206-225 | the wall has 11 * 4 = 44 bricks |
| Grid.ColumnsAt | code/p06.cpp:218-224 | the k-th brick created is in column k / 4, row k % 4 |
| Grid.WallAt | code/p06.cpp:218-224 | every brick of the wall is at column k / 4, row k % 4 |
| Grid.WallBricksFresh | code/p11.cpp:369-383 | every wall brick needs 1 to 3 hits and none is destroyed |
| Grid.WallInsideWindow | code/p06.cpp:218-224 | every brick box lies within left >= 55, right <= 745, top >= 36, bottom <= 125 |
| Grid.WallBricksDisjoint | code/p06.cpp:206-224 | no two closed brick boxes of the wall intersect |
| Grid.CellsApart | code/p06.cpp:208-224 | bricks in different cells are at least 3 apart on some axis |
| Sequences.Filter | code/p07.cpp:293-298 | the survivors of an erase-remove are elements of the input that satisfy the predicate, and there are no more of them |
| Sequences.FilterComplete | code/p07.cpp:293-298 | no element satisfying the predicate is lost |
| Sequences.FilterConcat | code/p07.cpp:293-298 | erase-remove distributes over concatenation, so survivors keep their relative order |
| Sequences.FilterKeepsAll | code/p08.cpp:250-255 | when nothing is to be removed the vector is untouched |
| Sequences.FilterNone | code/p11.cpp:433 | when nothing satisfies the predicate the result is empty |
| Sequences.FilterIdempotent | code/p08.cpp:250-255 | a second erase-remove with the same predicate changes nothing |
| Sequences.FilterCount | code/p08.cpp:250-255 | the kept and the removed elements together are as many as the input |
| Sequences.EraseRemove | code/p09.cpp:304-310 | the in-place remove_if plus erase leaves exactly the filter of the input |
| Registry.DestroyedIds | code/p11.cpp:80-96 | every destroyed record's id is in the set and every id in it belongs to the list |
| Registry.FilterUnique | code/p11.cpp:80-96 | erase-remove keeps ids unique |
| Registry.RefreshGroup | code/p11.cpp:80-96 | erase-removing a group by "destroyed" gives the group of the erase-removed owning list |
| Registry.SameShapeSameGroups | code/p11.cpp:109-114 | lists that agree on ids and kinds have the same groups |
| Registry.RefreshIdempotent | code/p11.cpp:80-96 | a second refresh with no new destructions changes neither the owning list nor any group |
| Registry.LiveIdsIff | code/p11.cpp:80-96 | an id survives refresh exactly when its entity is not destroyed |
| Registry.LiveNotDead | code/p11.cpp:80-96 | an entity not marked destroyed is not removed from its group |
| Registry.RefreshKeepsGroup | code/p11.cpp:80-96 | a group with no destroyed member comes through refresh whole |
| Registry.UpdateAll | code/p11.cpp:116-119 | every record keeps its id and position and gets its entity's update |
| Registry.CreateConsistent | code/p11.cpp:66-78 | appending the entity to its group and to the owning list keeps the Manager invariant |
| Registry.RefreshedGroups | code/p11.cpp:82-91 | the groups after their erase-remove are the same set of kinds |
| Registry.RefreshConsistent | code/p11.cpp:80-96 | refresh keeps the Manager invariant and leaves no destroyed entity |
| Registry.EraseRemoveGroups | code/p11.cpp:82-91 | the loop over groupedEntities erase-removes every group, whatever the order of the keys |
| Registry.Manager.GroupIsFilter | code/p11.cpp:62-63 | under the invariant each group is the owning list filtered to its kind |
| Registry.Manager.constructor | code/p11.cpp:62-63 | a new Manager is empty and consistent |
| Registry.Manager.Create | code/p11.cpp:66-78 | the new entity is appended to the owning list and to its own group, gets a fresh id, every earlier entry and every other group is unchanged, and the invariant holds |
| Registry.Manager.CreatedIsLast | code/p10.cpp:104-136 | the entity just created is the last member of its group |
| Registry.Manager.Refresh | code/p11.cpp:80-96 | the owning list loses exactly its destroyed entities, keeping order, each group is erase-removed by the same rule, nothing destroyed remains, and the invariant holds |
| Registry.Manager.Clear | code/p11.cpp:98-102 | both structures become empty |
| Registry.Manager.GetAll | code/p10.cpp:179-182 | the result is the kind's members in creation order (empty for a kind never created), and only an empty group may be inserted |
| Registry.Manager.Lookup | code/p11.cpp:109-114 | finds the entity a pointer refers to |
| Registry.Manager.Put | code/p11.cpp:109-114 | a callback changes the entity it was given and nothing else; groups are unchanged, so a destroyed entity is still visited until refresh |
| Registry.Manager.Update | code/p10.cpp:201-204 | each entity is updated once, in creation order, and the groups are unchanged |
| Simulation.IndexOf | code/p11.cpp:109-114 | the position holds the record with that id |
| Simulation.IndexOfUnique | code/p11.cpp:109-114 | with unique ids the position of an id is its only occurrence |
| Simulation.OnlyCollidesTransitive | code/p11.cpp:452-462 | successive collision passes compose |
| Simulation.SameShapeIds | code/p11.cpp:452-462 | a collision pass keeps the ids |
| Simulation.ResolveBrickPair | code/p11.cpp:288-312 | resolving a ball and a brick by id keeps ids and kinds; the brick keeps its place and stays destroyed; the ball keeps its destroyed flag |
| Simulation.ResolvePaddlePair | code/p11.cpp:273-286 | resolving a ball and a paddle by id leaves the paddle untouched (it is passed by const reference) |
| Simulation.DestroyedBrickStillHit | code/p11.cpp:452-462 | a brick already destroyed in this frame is still resolved against the next ball and still turns it |
| Simulation.BallVsBricks | code/p11.cpp:454-457 | the inner forEach over bricks only changes what collisions may change |
| Simulation.BallVsPaddles | code/p11.cpp:458-461 | the inner forEach over paddles only changes what collisions may change |
| Simulation.OneBall | code/p11.cpp:452-462 | one ball against every brick, then every paddle, only changes what collisions may change |
| Simulation.CollisionPhase | code/p11.cpp:452-462 | the outer forEach over balls only changes what collisions may change |
| Simulation.GroupIdsIn | code/p11.cpp:104-114 | every id of a group points into the owning list |
| Simulation.ShapeKeepsGroups | code/p11.cpp:452-462 | a list produced by the collision pass has the same groups |
| Simulation.Collide | code/p10.cpp:461-471 | the collision phase over the list's own groups keeps ids and kinds, leaves paddles untouched, and never un-destroys a brick or moves it |
| Simulation.BrickCallback | code/p10.cpp:463-466 | the brick callback resolves the two entities its pointers refer to |
| Simulation.PaddleCallback | code/p10.cpp:467-470 | the paddle callback resolves the two entities its pointers refer to |
| Simulation.BallAgainstBricks | code/p10.cpp:463-466 | forEach over bricks is the inner pass over the brick group, in order; getAll may insert an empty group |
| Simulation.BallAgainstPaddles | code/p10.cpp:467-470 | forEach over paddles is the inner pass over the paddle group, in order |
| Simulation.ResolveCollisions | code/p10.cpp:461-471 | the nested forEach calls compute exactly the collision phase of the list as it was before them |
| Simulation.UpdateKeepsShape | code/p10.cpp:453 | update keeps ids and kinds |
| Simulation.SameShapeUnique | code/p10.cpp:453 | lists with the same ids keep unique ids |
| Simulation.CollidedShape | code/p10.cpp:449-471 | update and collisions together keep ids, kinds and uniqueness |
| Simulation.GroupSurvivesFrame | code/p10.cpp:449-477 | a frame never loses a paddle, and under the reflect rule never a ball |
| Simulation.GoneIffDestroyed | code/p11.cpp:450-464 | an entity is gone after the frame exactly when update or collisions marked it destroyed |
| Simulation.FallenBallIsLost | code/p11.cpp:181-190 | under the bottom rule a ball moved past the bottom does not survive the frame |
| Simulation.Tick | code/p10.cpp:449-477 | a frame in progress is update, then the nested collisions, then refresh, in that order, and leaves nothing destroyed |
| Scene.BrickPass | code/p09.cpp:298-302 | the loop over bricks keeps every brick's position, never un-destroys one, and keeps the ball's position and destroyed flag |
| Scene.ResolveBricks | code/p09.cpp:298-302 | the in-place loop computes the brick pass, in vector order |
| Scene.RemovedExactlyDestroyed | code/p08.cpp:250-255 | after the erase-remove no destroyed brick is left, every standing brick is kept, and the count drops by the number destroyed |
| Scene.PlayFrame | code/p08.cpp:242-257 | update ball and paddle, resolve and erase bricks, then resolve the paddle once; no destroyed brick remains and the count never grows |
| Scene.BrickGame.constructor | code/p09.cpp:227-238 | the ninth version's Game starts in progress, with the ball and paddle at their starting places and no bricks |
| Scene.BrickGame.Restart | code/p09.cpp:245-260 | restart pauses, appends the 44-brick wall to the existing bricks without clearing them, and resets ball and paddle |
| Scene.BrickGame.Frame | code/p09.cpp:272-313 | the state, the remembered P state, ball, paddle and bricks become SceneFrame of the old ones |
| Scene.BrickGame.Resume | code/p09.cpp:272-290 | the P and R blocks leave the fields SceneResumed of the old ones |
| Scene.BrickGame.PlayNext | code/p09.cpp:265-321 | one more iteration of run's loop extends the replay by that frame |
| Scene.BrickGame.Run | code/p09.cpp:263-321 | run plays frames until the first with Escape down, keeping the state Paused or InProgress; the fields at the end are SceneReplay of the frames played |
| Scene.SceneResumed | code/p09.cpp:272-290 | the P and R blocks remember P's state; R pauses, appends a wall and resets ball and paddle; without R only the toggled state changes |
| Scene.ScenePlayed | code/p09.cpp:294-313 | the frame body keeps the state and never adds a brick |
| Scene.SceneFrameCases | code/p09.cpp:272-313 | P toggles on its edge; an R frame ends Paused with a wall appended and ball and paddle reset; a Paused frame without R keeps ball, paddle and bricks; in progress the paddle steps, the bricks are the brick pass after the erase, and the ball is the brick pass's ball resolved against the new paddle |
| Scene.SceneFrame | code/p09.cpp:272-313 | one iteration of run's loop remembers P's state, keeps the state Paused or InProgress, and a Paused result holds the old bricks, with a wall appended on R |
| Scene.SceneReplay | code/p09.cpp:263-321 | after a non-empty run of frames the remembered P state is the last frame's |
| Scene.WithoutRestartNoBrickAdded | code/p09.cpp:290-313 | without R, no run of frames adds a brick |
| Scene.PausedFramesChangeNothing | code/p09.cpp:272-296 | a paused game whose frames keep P and R up keeps its state, ball, paddle and bricks |
| Scene.HoldRestart | code/p09.cpp:290 | R has no edge detection, so holding it for n frames appends 44 * n bricks and leaves the game paused |
| ManagedGame.WallRecords | code/p10.cpp:407-418 | creating the wall yields one record per brick |
| ManagedGame.WallRecordsAt | code/p10.cpp:407-418 | the k-th created brick gets id from + k |
| ManagedGame.Layout | code/p10.cpp:400-422 | after restart the Manager holds exactly 46 entities |
| ManagedGame.LayoutSplit | code/p10.cpp:400-422 | the 46 entities are the wall, then the ball at (400, 300), then the paddle at (400, 550) |
| ManagedGame.LayoutSingles | code/p10.cpp:420-421 | after restart the ball group holds the one new ball and the paddle group the one new paddle |
| ManagedGame.LayoutBricks | code/p10.cpp:407-418 | after restart the brick group is the 44 wall bricks in loop order |
| ManagedGame.LayoutFresh | code/p10.cpp:400-422 | restart's entities have distinct ids and none is destroyed |
| ManagedGame.CreateWall | code/p10.cpp:407-418 | the nested loops append exactly the wall, in column order, and advance the id counter by 44 |
| ManagedGame.CreateScene | code/p10.cpp:407-421 | after clearing, the creations leave exactly the restart layout |
| ManagedGame.Game.constructor | code/p10.cpp:392-395 | the tenth version's Game starts in progress with an empty Manager |
| ManagedGame.Game.Restart | code/p10.cpp:400-422 | restart pauses and leaves exactly the 46-entity layout, whatever the Manager held before |
| ManagedGame.Game.Frame | code/p10.cpp:433-477 | the state, the remembered P state, the Manager's entities and its id counter become ManagedFrame of the old ones |
| ManagedGame.Game.Run | code/p10.cpp:424-482 | run plays frames until the first with Escape down; the fields at the end are ManagedReplay of the frames played |
| ManagedGame.Game.PlayNext | code/p10.cpp:426-481 | one more iteration of run's loop extends the replay by that frame |
| ManagedGame.ManagedFrame | code/p10.cpp:433-477 | one iteration of run's loop remembers P's state, moves the id counter by 46 exactly on R, and a Paused result holds the restart layout on R and the old entities otherwise |
| ManagedGame.ManagedFrameCases | code/p10.cpp:433-477 | P toggles on its edge; R resets to the layout and pauses; while Paused the entities are unchanged; in progress the entities are exactly one Tick of the old ones |
| ManagedGame.ManagedReplay | code/p10.cpp:424-482 | after a non-empty run of frames the remembered P state is the last frame's |
| ManagedGame.ReplayCountsRestarts | code/p10.cpp:446-447 | without R the id counter never moves over a run of frames |
| ManagedGame.PausedFramesKeepEntities | code/p10.cpp:433-449 | a paused game whose frames keep P and R up stays paused with its entities unchanged |
| LivesGame.Respawned | code/p11.cpp:433-439 | the list grows by one exactly when it holds no ball |
| LivesGame.RespawnedGroups | code/p11.cpp:433-439 | an empty ball group becomes exactly the new ball, and no other group changes |
| LivesGame.LastBallLost | code/p11.cpp:181-190 | when the only ball leaves through the bottom, the ball group is empty after the frame |
| LivesGame.Outcome | code/p11.cpp:443-448 | GameOver exactly when no lives are left, Victory exactly when lives remain and the wall is empty, otherwise InProgress |
| LivesGame.SpawnBallIfNone | code/p11.cpp:433-439 | a ball is created at the window centre exactly when getAll finds none, taking one id exactly then, and the brick group is unchanged |
| LivesGame.NoBricksLeft | code/p11.cpp:443-444 | reports whether the brick group is empty, changing no entity |
| LivesGame.Resumed | code/p11.cpp:398-415 | the P and R blocks remember P's state; R gives three lives, Paused and the layout; without R only the toggled state changes |
| LivesGame.Advanced | code/p11.cpp:428-464 | the in-progress branch keeps the remembered P state and loses at most one life |
| LivesGame.LivesFrame | code/p11.cpp:398-474 | one iteration of run's loop remembers P's state, and without R the lives never rise |
| LivesGame.LivesFrameCases | code/p11.cpp:398-474 | R resets to three lives and the layout and pauses; outside InProgress only the state and the remembered P change; in progress a missing ball costs a life, the state is judged on the wall seen before the update, and the entities take one Tick; a GameOver or Victory game stays so until R |
| LivesGame.LivesReplay | code/p11.cpp:389-478 | after a non-empty run of frames the remembered P state is the last frame's |
| LivesGame.LivesNeverRise | code/p11.cpp:433-439 | without R, no run of frames raises the lives |
| LivesGame.FinishedStaysFinished | code/p11.cpp:398-428 | a GameOver or Victory game keeps its state and its entities over any run of frames without R |
| LivesGame.Game.constructor | code/p11.cpp:333-337 | the last Game starts over, with no lives and an empty Manager |
| LivesGame.Game.Restart | code/p11.cpp:361-387 | restart sets three lives, pauses, clears the Manager and leaves exactly the 46-entity layout with bricks needing 1 + (iX*iY) % 3 hits |
| LivesGame.Game.Respawn | code/p11.cpp:433-439 | a frame without a ball creates one and costs exactly one life |
| LivesGame.Game.Judge | code/p11.cpp:443-448 | the state becomes the outcome of the lives and the wall, a loss overriding a win |
| LivesGame.Game.Advance | code/p11.cpp:428-464 | the in-progress branch respawns, judges the state from the lives and the wall seen before the update, then runs update, collisions and refresh; the fields become Advanced of the old ones |
| LivesGame.Game.Resume | code/p11.cpp:398-415 | the P and R blocks leave the fields Resumed of the old ones |
| LivesGame.Game.PlayNext | code/p11.cpp:391-477 | one more iteration of run's loop extends the replay by that frame |
| LivesGame.Game.Frame | code/p11.cpp:398-474 | the fields become LivesFrame of the old ones, and the lives stay between 0 and 3 |
| LivesGame.Game.Run | code/p11.cpp:389-478 | run plays frames until the first with Escape down; the lives stay between 0 and 3, and a game not over has at least one; the fields at the end are LivesReplay of the frames played |

## Left out

- Drawing, windows, fonts, text and colours are not modelled, because they are presentation only. This includes the brick colour that `Brick::update` picks in the last version.
- Keyboard polling is not modelled. Each frame's key states are a `Keys` value passed in.
- Frame pacing (`setFramerateLimit`) and the `while(true)` loop's endlessness are not modelled. `Run` plays a finite sequence of frames and stops at the first with Escape down.
- Single-precision float arithmetic becomes exact reals; rounding is not modelled.
- `getLength` and `getNormalized` use a square root, which is not computed. The paddle bounce uses the square-root-free reflection about collisionVec. `ReflectedAboutNormalized` proves it equals `getReflected` about any unit positive multiple. Axis-aligned vectors are normalised exactly.
- `typeid(T).hash_code()` keys and their possible collisions are replaced by the `Kind` datatype.
- `unique_ptr` ownership and raw pointers are replaced by records with ids.
- Virtual dispatch is replaced by `UpdateEntity`.
- The difference between `static_cast` and `reinterpret_cast` in `forEach` is not modelled.
- Registry.Manager.Put: a callback works on a value it writes back, not on a live reference, so aliasing between callbacks is not modelled. The nested callbacks only write to the entities they were given, so the resulting state is the same.
- LivesGame.Game.Restart: each brick is created with its `requiredHits` already set, instead of being assigned through the reference that `create` returns. The resulting state is the same.
- The games hold the ball, the paddle and the bricks as values, and `SolvePaddleBall`, `SolveBrickBall`, `UpdateBall` and `UpdatePaddle` return new values rather than assigning through a reference; the in-place update is modelled only by the `Actors` classes, so aliasing between the objects a collision function is handed is not modelled. Each collision function is handed two distinct objects, so the resulting state is the same.
- The `main` loops of versions three to six (ball alone, then with paddle, then with bricks) are not modelled as methods of their own. They are sequences of `UpdateBall`, `UpdatePaddle`, `SolvePaddleBall` and, from version six, the brick wall, all of which are modelled. `Scene.PlayFrame` is that frame once bricks are erased.
- `p01`, `p02` and `question.cpp` are not part of this model. The first two only open a window or move a shape, and the third is about C++ evaluation order.
