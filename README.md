# Asteroids ECS demo — a Dafny model of its game rules

This project models the game logic of the Asteroids demo that runs on the FirebladeECS entity-component-system package. It covers:

- **The scene tree.** `Renderable` nodes have a child list and a back-pointer to their parent. `addChild` moves a node under a new parent, and `removeChild` detaches it.
- **The drawing buffer.** `Graphics` holds a list of draw commands. `Graphics.Path` builds polylines through `move`, `addLine`, `addCurve` and `close`.
- **Event handling in the Asteroids `main.swift`:**
  - the side table kept by `NexusEventDelegateHandler`, which remembers every component so removal callbacks can still see it;
  - the fan-out of callbacks;
  - the set of pressed keys;
  - click synthesis from matching mouse-down and mouse-up events;
  - the pre-order push of events through the scene tree.
- **The components the systems change.**
  - `Audio` and its sound queue;
  - `GameState` and `setForStart`;
  - the `WaitForStart` flag set by a click;
  - position, motion, gun, bullet and death-throes data.
- **The per-frame systems:**
  - game management: respawn, game over and next level;
  - collision: bullets splitting asteroids, and spaceships crashing;
  - gun control;
  - movement with wrap-around and damping;
  - motion control, turning and thrust for each pressed key;
  - bullet ageing and death throes: count down, then destroy;
  - the start-of-game transition.

The modelling conventions are:

- **Numbers.** Swift `Double` is a Dafny `real`.
- **Trigonometry.** `cos` and `sin` are parameters of type `real -> real`.
- **Entity-store calls.** A system asks the entity store to destroy an entity, create one, or change an entity's state machine. Each such call becomes a `Request` in a log the system returns, in call order.
- **Families.** A family (the entities holding a given set of components) is a sequence. Each element holds the entity's component objects, or their values where the system only reads them.
- **Iteration and structural changes.** A system iterates a snapshot of a family taken when the loop starts. Structural changes made during the update are seen at once by later loops over the same family:
  - in `CollisionSystem`, a hit asteroid leaves the asteroid family and its fragments join it;
  - in `GameManagementSystem`, a new spaceship or new asteroids make those families non-empty for the games after it;
  - in `WaitForStartSystem`, asteroids destroyed for the first game are gone for the second.

  `Ecs.EntityRef` names either an entity that existed when the update began, or the entity made by the k-th create request of the same update.
- **Randomness.** Random values are either parameters or picked with `:|` from the values the code accepts. The fragment offsets are an unconstrained parameter sequence, and the placement bound the code's `random(in: 0...10) - 5` gives is proved for offsets in [-5, 5] (`Collision.Fragments`). The asteroid positions of a new level are picked with `:|`.

Most systems are written in two parts. A function over value snapshots states what one update does. A method with the source's loops changes the component objects in place, and its postcondition ties the new state and the request log to that function. Lemmas then prove the rules the game relies on about the function.

## Model

| member | source | states |
|---|---|---|
| Scene.Renderable.constructor | Sources/AsteroidsGameLibrary/Renderable.swift:9-18 | a new node has zero position, rotation 0, unit scale, no children and no parent |
| Scene.Renderable.AddChild | Sources/AsteroidsGameLibrary/Renderable.swift:20-24 | the child ends up last in this node's list and points back to it. A child already listed here is moved to the end, not duplicated. A child of another node is detached from that node first. The parent/child links of the scene stay consistent |
| Scene.Renderable.RemoveChild | Sources/AsteroidsGameLibrary/Renderable.swift:26-35 | when the child's parent is this node, exactly that element is removed and its parent is cleared. Otherwise nothing changes. Consistency of the scene is preserved |
| Scene.AddThenRemove | Sources/AsteroidsGameLibrary/Renderable.swift:20-35 | adding a parentless node and then removing it restores the child list and leaves the node parentless |
| Scene.FirstIndex | Sources/AsteroidsGameLibrary/Renderable.swift:30 | `firstIndex(where:)` finds the first position holding the node |
| Scene.Detach | Sources/AsteroidsGameLibrary/Renderable.swift:30-34 | removing the first occurrence takes exactly one copy out of the multiset and keeps every other element |
| Scene.DetachKeepsOrder | Sources/AsteroidsGameLibrary/Renderable.swift:30-34 | the remaining children keep their relative order |
| Scene.DetachUnique | Sources/AsteroidsGameLibrary/Renderable.swift:30-34 | from a duplicate-free list, removal leaves a duplicate-free list without the node |
| Scene.DetachAppended | Sources/AsteroidsGameLibrary/Renderable.swift:20-35 | appending a new node and removing it gives back the original list |
| Scene.ParentInScene | Sources/AsteroidsGameLibrary/Renderable.swift:13-14 | in a consistent scene, a node's parent lists it |
| Scene.ListedIffParent | Sources/AsteroidsGameLibrary/Renderable.swift:13-14 | in a consistent scene, a node is in p's list exactly when its parent is p |
| Scene.RemovedWellLinked | Sources/AsteroidsGameLibrary/Renderable.swift:26-35 | the removal step keeps the scene consistent and takes the node out of the list |
| Scene.AppendedWellLinked | Sources/AsteroidsGameLibrary/Renderable.swift:20-24 | appending a parentless node keeps the scene consistent |
| Drawing.Graphics.constructor | Sources/Library/Graphics.swift:10-12 | a new buffer holds no commands |
| Drawing.Graphics.Add | Sources/Library/Graphics.swift:14-17 | appends exactly the command, leaving earlier commands unchanged |
| Drawing.Graphics.AddCommands | Sources/Library/Graphics.swift:19-22 | appends the given commands in order |
| Drawing.Graphics.Clear | Sources/Library/Graphics.swift:24-26 | the list is empty whatever `keepingCapacity` is |
| Drawing.Path.constructor | Sources/Library/Graphics.swift:40-42 | a new path has no lines |
| Drawing.Path.FromLines | Sources/Library/Graphics.swift:138-142 | the array-literal initialiser keeps the given lines, empty ones included |
| Drawing.MovedTo | Sources/Library/Graphics.swift:44-54 | the last line is exactly `[p]`, and no earlier line changes. A line is added exactly when there was none or the last had more than one point. The line count grows by at most one |
| Drawing.Path.Move | Sources/Library/Graphics.swift:44-54 | the in-place edit equals `MovedTo`, and the `fatalError` branch is unreachable |
| Drawing.LineAdded | Sources/Library/Graphics.swift:56-63 | the point is appended to the last line, after first creating `[zero]` on an empty path. The other lines are untouched |
| Drawing.Path.AddLine | Sources/Library/Graphics.swift:56-63 | the in-place edit equals `LineAdded` |
| Drawing.CurveAdded | Sources/Library/Graphics.swift:65-83 | a trailing empty line is dropped, or a `[zero]` line is created on an empty path. The last line is then only extended, and earlier lines never change |
| Drawing.Path.AddCurve | Sources/Library/Graphics.swift:65-83 | the in-place edit equals `CurveAdded` |
| Drawing.Closed | Sources/Library/Graphics.swift:85-99 | nothing changes unless the last line has two or more points. Otherwise its first point is appended so that the line ends where it starts |
| Drawing.Path.Close | Sources/Library/Graphics.swift:85-99 | the in-place edit equals `Closed` |
| Drawing.Apply | Sources/Library/Graphics.swift:44-99 | no path operation introduces an empty line |
| Drawing.Build | Sources/Library/Graphics.swift:44-99 | a path built only through the API never holds an empty line, so the assertions of `addLine` (lines 60-61) hold and `addCurve` has a point to start from |
| EventDelegate.Step | Sources/Asteroids/main.swift:98-111 | the per-event effects on the table:<br>• EntityCreated: resets only that entity's entry to empty.<br>• ComponentAdded: ignored when the lookup fails. Otherwise the component is recorded only when the entity has an entry, and announced either way.<br>• ComponentRemoved: announces the recorded value and erases its slot, or does nothing when no value is recorded.<br>• EntityDestroyed: drops the entity's whole entry.<br>No other entity's entry changes |
| EventDelegate.AddThenRemoveRoundTrip | Sources/Asteroids/main.swift:101-107 | removing a component just added announces that same component and erases its slot; when the slot was empty before the add, the table is back as it was (a value recorded under the same component before is overwritten by the add and lost) |
| EventDelegate.NothingAfterDestroy | Sources/Asteroids/main.swift:104-109 | after an entity is destroyed, removing one of its components announces nothing |
| EventDelegate.RunRemovesOnlyAnnounced | Sources/Asteroids/main.swift:98-111 | over any event sequence, every recorded component was announced as added, and every removal announcement follows an addition of that component |
| EventDelegate.NexusEventDelegateHandler.constructor | Sources/Asteroids/main.swift:90-96 | the table starts empty |
| EventDelegate.NexusEventDelegateHandler.NexusEvent | Sources/Asteroids/main.swift:98-111 | the in-place dictionary update and callback equal `Step` |
| EventDelegate.CallbackLists.constructor | Sources/Asteroids/main.swift:117-118 | both callback lists start empty |
| EventDelegate.CallbackLists.RegisterAdded | Sources/Asteroids/main.swift:162-164 | appends to the added-callbacks only |
| EventDelegate.CallbackLists.RegisterRemoved | Sources/Asteroids/main.swift:165-167 | appends to the removed-callbacks only |
| EventDelegate.FanOut | Sources/Asteroids/main.swift:122-123 | every registered callback is called once with the component, in registration order |
| Input.Dispatch | Sources/Asteroids/main.swift:227-275 | key-down inserts the key and key-up removes it. Quit or Escape sets `quit`. A click is pushed only when a left button-up lands on the stored left button-down. The stored press is cleared by every left button-up and set by every left button-down |
| Input.KeyDownIffLastPressed | Sources/Asteroids/main.swift:76-78 | after any event sequence, `isKeyDown(k)` holds exactly when the last key event for k was a press, or there was none and k was down before |
| Input.QuitIsFinal | Sources/Asteroids/main.swift:228-239 | once quit is requested, later events do not clear it |
| Input.ClicksBoundedByMouseDowns | Sources/Asteroids/main.swift:248-271 | clicks pushed plus a pending press never exceed left presses plus the press pending at the start |
| Input.EventLoop.constructor | Sources/Asteroids/main.swift:76 | no keys down, no stored press, not quitting, nothing pushed |
| Input.EventLoop.HandleEvent | Sources/Asteroids/main.swift:225-276 | the loop's fields and pushed events change exactly as `Dispatch` says |
| Input.PushAllConcat | Sources/Asteroids/main.swift:210-212 | pushing to a list of children is pushing to each part in turn |
| Input.PushIsPreorder | Sources/Asteroids/main.swift:208-213 | a node's own handler runs first, and each child's whole subtree follows in list order |
| Components.FileNamesDistinct | Sources/Asteroids/Components/Audio.swift:20-24 | the three sounds name distinct files |
| Components.Audio.constructor | Sources/Asteroids/Components/Audio.swift:11 | the queue starts empty |
| Components.Audio.Play | Sources/Asteroids/Components/Audio.swift:13-16 | appends exactly the sound at the end, keeping earlier entries and duplicates |
| Components.StartIsPlayable | Sources/Asteroids/Components/GameState.swift:16-21 | a game set for start is playing with lives 3 > 0, level 0 and hits 0 |
| Components.GameState.constructor | Sources/Asteroids/Components/GameState.swift:11-14 | lives, level and hits 0, not playing |
| Components.GameState.SetForStart | Sources/Asteroids/Components/GameState.swift:16-21 | the state is the start state whatever it was before, so calling it twice is the same as once |
| Components.CountHit | Sources/Asteroids/Systems/CollisionSystem.swift:45-47 | every game's hits go up by exactly one, and nothing else changes |
| Components.LoseLife | Sources/Asteroids/Systems/CollisionSystem.swift:57-59 | every game's lives go down by exactly one, and nothing else changes |
| Components.WaitForStart.constructor | Sources/Asteroids/Components/WaitForStart.swift:12 | the flag starts false |
| Components.WaitForStart.Click | Sources/Asteroids/Components/WaitForStart.swift:16-18 | the click closure raises the flag |
| Components.Position.constructor | Sources/Asteroids/Components/Position.swift:15-18 | holds the given coordinates and rotation |
| Components.Motion.constructor | Sources/Asteroids/Components/Motion.swift:16-20 | holds the given velocity, angular velocity and damping |
| Components.Gun.constructor | Sources/Asteroids/Components/Gun.swift:18-22 | not shooting, given offset, time since last shot 0, given interval and bullet lifetime |
| Components.Bullet.constructor | Sources/Asteroids/Components/Bullet.swift:13-15 | life remaining is the lifetime |
| Components.DeathThroes.constructor | Sources/Asteroids/Components/DeathThroes.swift:13-15 | the countdown is the duration |
| Expiry.Expire | Sources/Asteroids/Systems/BulletAgeSystem.swift:20-25 | only destroy requests, at most one per member |
| Expiry.ExpireDestroysExactlyTheSpent | Sources/Asteroids/Systems/BulletAgeSystem.swift:22-24 | an entity is destroyed exactly when its time after the decrement is ≤ 0. Only family members are destroyed, and each at most once |
| Expiry.BulletAgeUpdate | Sources/Asteroids/Systems/BulletAgeSystem.swift:19-26 | every bullet loses exactly `time` of life, and the destroy requests are those of `Expire` on the decremented values |
| Expiry.DeathThroesUpdate | Sources/Asteroids/Systems/DeathThroesSystem.swift:19-26 | every countdown drops by exactly `time`, and the destroy requests are those of `Expire` |
| GunControl.GunStep | Sources/Asteroids/Systems/GunControlSystem.swift:23-29 | fires exactly when the trigger is down and the time since the last shot plus `time` reaches the interval. Firing resets the timer to 0, and otherwise `time` is added |
| GunControl.FiresTracksTimeSinceLastShot | Sources/Asteroids/Systems/GunControlSystem.swift:24-28 | over any run of frames, the gun's timer is the time elapsed since its last shot, or since the start plus the initial value |
| GunControl.ShotsAreSpaced | Sources/Asteroids/Systems/GunControlSystem.swift:24-28 | two consecutive shots are at least `minimumShotInterval` of frame time apart |
| GunControl.Volley | Sources/Asteroids/Systems/GunControlSystem.swift:22-30 | at most one request per gun, and every request creates a bullet |
| GunControl.VolleyIsTheFiringGuns | Sources/Asteroids/Systems/GunControlSystem.swift:22-30 | a bullet request for every gun that fires, and every request comes from a gun that fires |
| GunControl.UpdateGun | Sources/Asteroids/Systems/GunControlSystem.swift:23-29 | `shooting` is the trigger key's state and the timer follows `GunStep`. Firing queues exactly one `shootGun` sound. The interval, the offset from the parent and the bullet lifetime keep their values |
| GunControl.GunControlUpdate | Sources/Asteroids/Systems/GunControlSystem.swift:21-31 | every gun is updated as `UpdateGun` states (`Updated` from its old values and sound queue, keeping its interval, offset and bullet lifetime), and the requests are `Volley` of the old gun values |
| Movement.Wrap | Sources/Asteroids/Systems/MovementSystem.swift:24-38 | a coordinate moves by at most one screen size, and a negative one is moved up by exactly one |
| Movement.WrapStaysOnScreen | Sources/Asteroids/Systems/MovementSystem.swift:24-38 | an on-screen coordinate moved by at most a screen size ends on screen |
| Movement.Damp | Sources/Asteroids/Systems/MovementSystem.swift:46-60 | the component's magnitude drops by the damp amount or becomes 0, and its sign never flips |
| Movement.DampNeverSpeedsUp | Sources/Asteroids/Systems/MovementSystem.swift:46-60 | damping never increases a velocity component's magnitude |
| Movement.DampAmount | Sources/Asteroids/Systems/MovementSystem.swift:43-44 | damp amounts are non-negative |
| Movement.Move | Sources/Asteroids/Systems/MovementSystem.swift:22-61 | position advances by velocity × time and is then wrapped. Rotation advances by angular velocity × time without wrapping. Velocity is unchanged when damping ≤ 0, and otherwise shrinks toward 0 on each axis without changing sign |
| Movement.MoveStaysOnScreen | Sources/Asteroids/Systems/MovementSystem.swift:22-38 | an entity on screen that moves less than a screen size per frame stays on screen |
| Movement.MoveOne | Sources/Asteroids/Systems/MovementSystem.swift:22-61 | the in-place update of one entity equals `Move` |
| Movement.MovementUpdate | Sources/Asteroids/Systems/MovementSystem.swift:20-63 | every entity of the family is updated as `Move` says |
| MotionControl.RepeatIsProduct | Sources/Asteroids/Systems/MotionControlSystem.swift:22-28 | adding the same step once per pressed key is the key count times the step |
| MotionControl.SteerIsNetKeyCount | Sources/Asteroids/Systems/MotionControlSystem.swift:22-33 | the rotation changes by rate × time × (pressed right keys − pressed left keys). The velocity gains one thrust for each pressed accelerate key, along the rotation after turning |
| MotionControl.NoKeysNoSteering | Sources/Asteroids/Systems/MotionControlSystem.swift:21-34 | with no control key pressed, rotation and velocity are unchanged |
| MotionControl.TurnLeft | Sources/Asteroids/Systems/MotionControlSystem.swift:22-24 | the rotation drops by one turn step per pressed left key, so aliases stack |
| MotionControl.TurnRight | Sources/Asteroids/Systems/MotionControlSystem.swift:26-28 | the rotation rises by one turn step per pressed right key |
| MotionControl.Accelerate | Sources/Asteroids/Systems/MotionControlSystem.swift:30-33 | the velocity gains one thrust per pressed accelerate key |
| MotionControl.SteerOne | Sources/Asteroids/Systems/MotionControlSystem.swift:22-33 | the in-place update of one entity equals `Steer` |
| MotionControl.MotionControlUpdate | Sources/Asteroids/Systems/MotionControlSystem.swift:20-35 | every entity steers as `Steer` says. `position.position`, angular velocity and damping are never modified |
| WaitForStartSystem.DestroyAll | Sources/Asteroids/Systems/WaitForStartSystem.swift:28-30 | one destroy request per asteroid, in family order |
| WaitForStartSystem.StartClearsTheField | Sources/Asteroids/Systems/WaitForStartSystem.swift:25-36 | with no game nothing is requested. With a game and a raised flag every asteroid is destroyed. Every clicked wait entity is destroyed. Only asteroids and clicked wait entities are destroyed |
| WaitForStartSystem.DestroyEach | Sources/Asteroids/Systems/WaitForStartSystem.swift:28-30 | the loop requests exactly `DestroyAll` |
| WaitForStartSystem.StartGames | Sources/Asteroids/Systems/WaitForStartSystem.swift:27-34 | every game is set for start. The flag is cleared when a game exists, and the wait entity is destroyed once per game |
| WaitForStartSystem.WaitForStartUpdate | Sources/Asteroids/Systems/WaitForStartSystem.swift:25-36 | the requests are `StartRequests` of the old flags. A flag stays raised only when there is no game. Every game is set for start exactly when some flag was raised |
| GameManagement.LevelUps | Sources/Asteroids/Systems/GameManagementSystem.swift:51-64 | the level goes up by exactly one per spaceship, and every planned asteroid avoids one of the spaceships |
| GameManagement.LevelUpCount | Sources/Asteroids/Systems/GameManagementSystem.swift:51-54 | n level-ups from level L plan n·(2+L) + n·(n+1)/2 asteroids, that is 2 + the new level per spaceship |
| GameManagement.GamePass | Sources/Asteroids/Systems/GameManagementSystem.swift:29-66 | lives and hits never change and the level never drops. A game that is not playing is skipped entirely. The families only grow |
| GameManagement.GamePassPlans | Sources/Asteroids/Systems/GameManagementSystem.swift:30-62 | a spaceship is asked for exactly when the game is playing, none is left, lives remain and no asteroid is within its radius + 50 of the centre. The game ends, with one wait-for-click screen and nothing else, exactly when no spaceship is left and no lives remain. A new level starts exactly when the game is playing and, after the respawn step, there is a spaceship and there are no asteroids and no bullets |
| GameManagement.Manage | Sources/Asteroids/Systems/GameManagementSystem.swift:28-67 | across all games, lives and hits never change, and non-playing games are untouched |
| GameManagement.SafePlaceExists | Sources/Asteroids/Systems/GameManagementSystem.swift:56-61 | on a screen wider than 160 a position more than 80 from the spaceship exists, so the redraw loop can end |
| GameManagement.ClearToAddSpaceship | Sources/Asteroids/Systems/GameManagementSystem.swift:33-39 | the early-exit loop answers exactly whether no asteroid blocks the centre |
| GameManagement.SpawnAround | Sources/Asteroids/Systems/GameManagementSystem.swift:54-63 | the given number of radius-30 asteroids, each on screen and more than 80 from the spaceship |
| GameManagement.LevelUp | Sources/Asteroids/Systems/GameManagementSystem.swift:51-64 | the level and the created asteroids follow `LevelUps` |
| GameManagement.ManageGame | Sources/Asteroids/Systems/GameManagementSystem.swift:29-66 | the game object, the families and the requests follow `GamePass` |
| GameManagement.GameManagementUpdate | Sources/Asteroids/Systems/GameManagementSystem.swift:28-67 | every game object and the request log follow `Manage`, and every new-level asteroid is placed safely |
| Collision.FirstHit | Sources/Asteroids/Systems/CollisionSystem.swift:28-32 | the first asteroid whose radius² bounds its squared distance to the bullet. The bullet's own radius plays no part |
| Collision.FirstHitIsFirst | Sources/Asteroids/Systems/CollisionSystem.swift:28-32 | any index with no hit before it, and a hit or the end at it, is `FirstHit` |
| Collision.FindHit | Sources/Asteroids/Systems/CollisionSystem.swift:28-32 | the inner loop with `break` finds `FirstHit` |
| Collision.Fragments | Sources/Asteroids/Systems/CollisionSystem.swift:34-41 | two fragments of radius r − 10 > 0 when r > 10, and none otherwise. For offsets in [-5, 5] per axis, as the code draws them, they are within 5 per axis of the parent's centre. They are numbered by their create requests |
| Collision.StruckOutcome | Sources/Asteroids/Systems/CollisionSystem.swift:27-49 | a bullet hits exactly when it is inside some asteroid. The hit destroys the bullet, creates the fragments, moves that asteroid to `.destroyed` and swaps it for its fragments in the family. A miss changes nothing |
| Collision.StruckWellFormed | Sources/Asteroids/Systems/CollisionSystem.swift:27-49 | entities stay unique in the family, and a hit asteroid leaves the family for good |
| Collision.Volleys | Sources/Asteroids/Systems/CollisionSystem.swift:27-50 | at most one asteroid is hit per bullet |
| Collision.VolleysWellFormed | Sources/Asteroids/Systems/CollisionSystem.swift:27-50 | no asteroid is hit twice in one update |
| Collision.VolleysDestroyOnlyBullets | Sources/Asteroids/Systems/CollisionSystem.swift:27-33 | the only entities the bullet pass destroys are bullets |
| Collision.VolleysChangeOnlyHits | Sources/Asteroids/Systems/CollisionSystem.swift:33-42 | the bullet pass only destroys, creates and changes asteroids; only hit asteroids change state, always to `.destroyed` |
| Collision.StruckLog | Sources/Asteroids/Systems/CollisionSystem.swift:28-42 | a bullet that misses changes nothing. A hit appends the asteroid to the hits and logs, in order, the bullet's destruction, the fragments' creations and the asteroid's change to `.destroyed` |
| Collision.StruckRequests | Sources/Asteroids/Systems/CollisionSystem.swift:33-42 | one bullet adds only its own destruction, fragment creations and the hit asteroid's change to `.destroyed`, and forgets no earlier hit |
| Collision.WrecksAreTheCrashes | Sources/Asteroids/Systems/CollisionSystem.swift:52-62 | one `.destoyed` request for each spaceship within (asteroid radius + ship radius) of some asteroid, and for no other |
| Collision.Wrecks | Sources/Asteroids/Systems/CollisionSystem.swift:52-62 | the spaceship pass issues at most one request per spaceship, and every request moves a spaceship to its `.destoyed` state |
| Collision.Split | Sources/Asteroids/Systems/CollisionSystem.swift:34-41 | the new asteroid entities are the `Fragments`, each with a new audio component |
| Collision.Shoot | Sources/Asteroids/Systems/CollisionSystem.swift:28-49 | one bullet's iteration follows `Struck`. A hit asteroid queues one `explodeAsteroid`, and every game gains exactly one hit |
| Collision.Fire | Sources/Asteroids/Systems/CollisionSystem.swift:28-49 | as `Shoot`, stated for the asteroids present when the update began |
| Collision.BulletPass | Sources/Asteroids/Systems/CollisionSystem.swift:27-50 | the family and the requests follow `Volleys`. Hits grow by the number of asteroids hit. Each original asteroid queues `explodeAsteroid` exactly when it was hit |
| Collision.Touching | Sources/Asteroids/Systems/CollisionSystem.swift:53-54 | the inner loop with `break` answers whether the spaceship touches any asteroid |
| Collision.Wreck | Sources/Asteroids/Systems/CollisionSystem.swift:53-61 | a touching spaceship queues one `explodeShip`, and every game loses exactly one life |
| Collision.ShipPass | Sources/Asteroids/Systems/CollisionSystem.swift:52-62 | the requests are `Wrecks`. Lives drop by one per wrecked spaceship. Each spaceship's sound follows whether it touched an asteroid |
| Collision.CollisionUpdate | Sources/Asteroids/Systems/CollisionSystem.swift:26-63 | the whole update. Hits grow by the number of asteroids hit and lives drop by the number of spaceships wrecked, so hits never decrease and lives never increase. The sounds and the request log follow the bullet pass and then the spaceship pass over the field the bullets left |

## Left out

- The FirebladeECS package: the entity store, the family index, `EntityStateMachine` and the `NexusEvent` types. Families are input sequences. Destroy, create and state-change calls are logged requests. Their effect on the store is not modelled, apart from the synchronous family membership changes described above.
- `EntityCreator` recipes and `SpatialIndex` (a protocol with no implementation). A created asteroid is recorded as its radius and position. Its new audio component is modelled: a fragment hit by a later bullet in the same update queues `explodeAsteroid` (`Collision.Shoot`). The `BulletPass` and `CollisionUpdate` contracts state the sound queues of the original asteroids only, not those of the fragments. A bullet is recorded as the gun entity that fired it, so `createBullet`'s rotated offset and velocity are not modelled.
- Bézier evaluation, tessellation count and curve-length estimate. `addCurve` takes the tessellation as a function parameter. `Label`, `Matrix` and the other floating-point geometry are not modelled.
- Floating-point rounding. `Double` is a mathematical real, and `cos` and `sin` are arbitrary functions passed in.
- Randomness:
  - the fragment offsets are a parameter sequence that `Volleys`, `BulletPass` and `CollisionUpdate` accept unconstrained. The bound of 5 per axis around the hit asteroid is proved only in `Collision.Fragments`, for offsets in [-5, 5]. No contract of the whole update bounds where fragments are placed;
  - the new-level asteroid positions are chosen with `:|` among the values the redraw loop accepts, which says nothing about their distribution.
- GameManagement.GameManagementUpdate: requires a screen wider than 160. Below that, the redraw loop could run forever for a spaceship near the middle. The game's configuration is fixed at start-up at 800 × 600 or more (Sources/Asteroids/main.swift:37-38, 131).
- GameManagement.GameManagementUpdate: requires that each game entity has its own `GameState` (`DistinctGames`). The entity store gives each entity its own component.
- GameManagement.GameManagementUpdate: requires non-negative levels. A negative level would make `0 ..< 2 + level` trap. Levels start at 0 and only grow.
- Collision.CollisionUpdate: requires that every entity has its own audio component, that the entities of the asteroid family are distinct, and that each game entity has its own `GameState` (`DistinctGames`). The entity store guarantees all three. The position and radius of each family member are read as values, since this system never writes them.
- Family order after a removal is not modelled. A hit asteroid is removed and the later members close up, and fragments are appended at the end. The package's own order after removal is unknown.
- Set iteration order. The key sets of `MotionControls` are walked in an arbitrary order, which does not change the result.
- I/O and the SDL layer are not modelled:
  - the audio device and `AudioSystem`;
  - the render, HUD, layout and animation systems and the views;
  - frame pacing and the delta-time clamp;
  - window creation and `SDLKit`;
  - the `FirebladeECSDemo` example.

  Window resizing only updates the loop's width and height fields.
- Input.PushIsPreorder: the pre-order push runs over a value snapshot of the scene tree, listing which nodes' handlers run. The handlers themselves are not modelled.
- Scene.Renderable.AddChild: the source does not stop a node being added under itself or its own descendant. The consistency postcondition covers the parent/child links only, not the absence of cycles.
- Drawing.Path.AddLine: follows a release build, where the two `assert`s of Sources/Library/Graphics.swift:60-61 are not checked. A debug build traps when the path's last line is empty, which a path made from an array literal with a trailing `[]` (Sources/Library/Graphics.swift:138-142, `Drawing.Path.FromLines`) can reach; the model then appends the point to that empty line. `Drawing.Build` proves that paths made through the path operations never have an empty line.
- Drawing.Path.AddCurve: requires `CurveDefined`, so the trapping inputs are excluded rather than modelled. When the last line is empty and the line before it is empty or missing (for example `[[]]` from an array literal), the source removes the last line and then reads a point of an empty line or an empty path (Sources/Library/Graphics.swift:68-77), which traps in every build. Paths made through the path operations always satisfy `CurveDefined` (`Drawing.Build`).
- `Int32` key codes and mouse coordinates are unbounded integers. No overflow can arise from the operations modelled.
- WaitForStartSystem.WaitForStartUpdate: requires that each game entity has its own `GameState` (`DistinctGames`). The entity store gives each entity its own component.
- WaitForStartSystem.WaitForStartUpdate: with more than one game, the wait entity is destroyed once per game. This is modelled as written.
