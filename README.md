# Entity pipeline of a top-down shooter, in Dafny

The game keeps every entity in one map from string id to entity. The
player, the controls and the game statistics sit under the fixed keys
`player`, `controls` and `gameStats`; enemies and bullets under ids with the
prefixes `enemy_` and `bullet_`. Each frame, the host runs a fixed list of systems
over that map (`MyGame/App.js:117-124`). Each system edits the map and may
dispatch `ADD_SCORE` and `GAME_OVER` events. This project models those
systems and the engine's separate wave spawner, and proves their rules:

- **Movement** (`movement.dfy`): moves the player by the joystick, clamped to
  the screen. At most once a second, when an enemy is on the map, it fires
  a homing bullet at the nearest enemy.
- **Enemy spawning** (`enemy_spawning.dfy`):
  - picks a time-windowed wave;
  - runs a per-wave cooldown;
  - resets its timers at the start of a game;
  - inserts new enemies on the screen edges.
- **Enemy AI** (`enemy_ai.dfy`): moves each enemy one step toward the player.
- **Bullet movement** (`bullet_movement.dfy`): moves homing bullets. It
  deletes bullets whose target is gone and bullets that leave the screen.
- **Collision** (`collision.dfy`):
  - tests box overlaps and sums damage;
  - deletes spent bullets and defeated enemies;
  - emits one score event per defeated enemy, and a game-over event at most
    once.
- **Engine spawner** (`spawn.dfy`): a clock plus a wave index that releases
  each scheduled wave once.
- **One frame** (`pipeline.dfy`): the five systems composed in the host's
  order.

Shared definitions are in `entities.dfy`: entities, ids and kinds, and the
decimal rendering of the numbers in generated ids. `geometry.dfy` holds the
direction step shared by the two homing systems.

How the source becomes Dafny:

- **The entity map is a Dafny `map`.** Each system that loops over it is a
  method with a loop over the keys. Its postcondition says the result equals a
  closed-form function of the map as it was at the start. The properties are
  lemmas on that function.
- **Module-level variables become classes.** The spawner's timers, counter
  and reset flag, the auto-fire timestamp and bullet counter, and the engine
  spawner's clock and wave index are each the fields of a class. The class's
  method states the new fields and result as a function of the old fields.
- **Dispatched events are an output sequence.**
- **Kinds are checked two ways.** `WellKinded` ties each id's prefix to its
  entity variant, and every system is proved to preserve it.

Contact damage has no floor. `Collision.HealthGoesBelowZero` shows a player
at 10 health, touching two live enemies, ending the frame at -10.

## Model

| member | source | states |
|---|---|---|
| Entities.EnemyId | MyGame/systems/EnemySpawningSystem.js:57 | a generated enemy id has the `enemy_` prefix, is not a bullet id and is not the player's key |
| Entities.BulletId | MyGame/systems/MovementSystem.js:65 | a generated bullet id has the `bullet_` prefix, is not an enemy id and is not the player's key |
| Entities.EnemyIdInjective | MyGame/systems/EnemySpawningSystem.js:55-57 | equal enemy ids come from equal engine time, counter and index |
| Entities.BulletIdInjective | MyGame/systems/MovementSystem.js:64-65 | equal bullet ids come from equal engine time and counter |
| Entities.PrefixDecidesKind | MyGame/systems/CollisionSystem.js:43-48 | in a well-kinded map the id prefix alone decides whether an entry is an enemy, a bullet or the player |
| Geometry.MagnitudePositiveIff | MyGame/systems/EnemyAISystem.js:21-23 | the distance to the target is positive exactly when the two positions differ |
| Geometry.AdvanceFollowsSign | MyGame/systems/EnemyAISystem.js:24-29 | a normalised step with positive speed changes each coordinate with the sign of the offset to the target |
| EnemyAI.EnemyAISystem | MyGame/systems/EnemyAISystem.js:1-36 | the loop over the keys yields the map where every positioned enemy with a numeric speed has taken one chase step |
| EnemyAI.ChaseAllKeepsKeys | MyGame/systems/EnemyAISystem.js:4-6 | no key is added or removed; with no positioned player the map is returned unchanged |
| EnemyAI.ChaseAllMovesOnlyEnemies | MyGame/systems/EnemyAISystem.js:10-13 | only `enemy_` entries with a position and a numeric speed change, and they keep their health and speed |
| EnemyAI.EnemyOnPlayerStays | MyGame/systems/EnemyAISystem.js:21-23 | an enemy exactly on the player does not move |
| EnemyAI.ChaseMovesTowardPlayer | MyGame/systems/EnemyAISystem.js:17-29 | a moved enemy's x and y change with the signs of the player's offset |
| EnemyAI.ChaseAllKeepsWellKinded | MyGame/systems/EnemyAISystem.js:10-35 | every id still names its kind of entity after the system |
| BulletMovement.Fly | MyGame/systems/BulletMovementSystem.js:11-67 | a bullet that survives is still a bullet with the same target, speed and collided flag |
| BulletMovement.BulletMovementSystem | MyGame/systems/BulletMovementSystem.js:6-71 | the loop, which deletes entries as it goes, yields the map where each bullet is moved, kept or deleted by its own rule |
| BulletMovement.FlyAllTouchesOnlyBullets | MyGame/systems/BulletMovementSystem.js:7-41 | no entity is added and every non-bullet entry, the target enemies included, is untouched |
| BulletMovement.ParkedBulletStays | MyGame/systems/BulletMovementSystem.js:11-23 | a collided bullet or one without a position is neither moved nor deleted |
| BulletMovement.LostTargetDeletesBullet | MyGame/systems/BulletMovementSystem.js:25-67 | a bullet whose target is missing, unplaced or at health 0 or below is deleted |
| BulletMovement.ArrivedBulletStays | MyGame/systems/BulletMovementSystem.js:34-62 | a bullet exactly on its live target is neither moved nor deleted |
| BulletMovement.SteppedBulletCulledIffOffScreen | MyGame/systems/BulletMovementSystem.js:36-52 | after a step a bullet is kept exactly when it is inside the screen grown by 10 on each side, and then sits at the stepped position |
| BulletMovement.FlyAllKeepsWellKinded | MyGame/systems/BulletMovementSystem.js:6-71 | every id still names its kind of entity after the system |
| Collision.CheckAABBCollision | MyGame/systems/CollisionSystem.js:13-33 | boxes collide exactly when both entities are placed and the centres are strictly closer than the summed half-extents on both axes |
| Collision.AABBSymmetric | MyGame/systems/CollisionSystem.js:19-32 | the overlap test does not depend on which entity comes first |
| Collision.TouchingEdgesDoNotCollide | MyGame/systems/CollisionSystem.js:32 | boxes whose edges only touch do not collide |
| Collision.StrikeEnemies | MyGame/systems/CollisionSystem.js:47-64 | one bullet's inner loop credits 10 to every live enemy it overlaps, marks it collided and lists it for deletion |
| Collision.VisitBullet | MyGame/systems/CollisionSystem.js:43-65 | one step of the outer loop keeps the marks, the list of spent bullets and the damage table in step with the bullets visited |
| Collision.BulletHits | MyGame/systems/CollisionSystem.js:42-66 | the first phase marks exactly the spent bullets, lists exactly them and fills the damage table with 10 per overlapping live bullet |
| Collision.PlayerContact | MyGame/systems/CollisionSystem.js:69-87 | a placed player with health above 0 loses 10 per overlapping live enemy; otherwise the map is unchanged |
| Collision.ApplyDamage | MyGame/systems/CollisionSystem.js:92-101 | each damaged enemy loses its summed damage, and exactly those taken to 0 or below are listed for deletion |
| Collision.DeleteBullets | MyGame/systems/CollisionSystem.js:104 | exactly the listed bullets are deleted, repeats included |
| Collision.DeleteDefeated | MyGame/systems/CollisionSystem.js:107-112 | exactly the listed enemies are deleted, with one ADD_SCORE of 10 each |
| Collision.GameOverCheck | MyGame/systems/CollisionSystem.js:115-119 | GAME_OVER fires exactly when the player's health is 0 or below and it was not yet notified, and then it is marked notified |
| Collision.CollisionSystem | MyGame/systems/CollisionSystem.js:35-121 | the six phases yield the closed-form map and event list stated on the map as it was at the start of the tick |
| Collision.CollisionTouchesOnlyCombatants | MyGame/systems/CollisionSystem.js:35-121 | no entity is added, and every entry other than bullets, enemies and the player is untouched |
| Collision.BulletFate | MyGame/systems/CollisionSystem.js:42-104 | a bullet is gone exactly when it was not collided and overlapped a live enemy; otherwise it is unchanged |
| Collision.CollidedBulletDealsNoDamage | MyGame/systems/CollisionSystem.js:45 | a bullet already marked collided damages nothing |
| Collision.BulletHitsEveryOverlap | MyGame/systems/CollisionSystem.js:52-61 | without a `break`, a bullet overlapping two live enemies damages both and is deleted |
| Collision.EnemyFate | MyGame/systems/CollisionSystem.js:92-109 | an enemy loses exactly its summed damage, and is deleted exactly when that damage is positive and takes its health to 0 or below |
| Collision.DeadEnemyUntouched | MyGame/systems/CollisionSystem.js:50 | an enemy already at health 0 or below is neither damaged nor removed |
| Collision.OneScorePerRemovedEnemy | MyGame/systems/CollisionSystem.js:107-112 | the enemies that vanish are exactly the defeated ones, with one ADD_SCORE of 10 per enemy, before any GAME_OVER |
| Collision.PlayerFate | MyGame/systems/CollisionSystem.js:69-87 | the player stays in place, losing 10 per overlapping live enemy only when it began placed and alive; it is never removed |
| Collision.HealthGoesBelowZero | MyGame/systems/CollisionSystem.js:75-78 | contact damage is not floored: 10 health and two touching enemies end at -10, and GAME_OVER fires |
| Collision.GameOverMarksPlayer | MyGame/systems/CollisionSystem.js:115-119 | GAME_OVER fires only for a player not yet notified and leaves it notified; a notified player stays notified and fires nothing |
| Collision.NotifiedPersists | MyGame/systems/CollisionSystem.js:115-116 | over a run of ticks that keep the flag between passes, a notified player stays notified |
| Collision.GameOverAtMostOnce | MyGame/systems/CollisionSystem.js:115-119 | over such a run GAME_OVER is dispatched at most once |
| Collision.MarkedBulletsDeleted | MyGame/systems/CollisionSystem.js:54-104 | every bullet marked collided in the first phase is deleted in the same tick |
| Collision.AfterCollisionKeepsWellKinded | MyGame/systems/CollisionSystem.js:35-121 | every id still names its kind of entity after the system |
| EnemySpawning.FirstCovering | MyGame/systems/EnemySpawningSystem.js:35-41 | the wave found, if any, is one of the schedule's |
| EnemySpawning.WaveFor | MyGame/systems/EnemySpawningSystem.js:32-45 | the wave in force is one of the schedule's |
| EnemySpawning.SelectWave | MyGame/systems/EnemySpawningSystem.js:32-45 | the loop with its running duration and `break` picks the wave in force, falling back to the last |
| EnemySpawning.WaveSchedule | MyGame/systems/EnemySpawningSystem.js:12-45 | wave1 runs before 60 s, wave2 from 60 s to before 120 s, wave3_fast_single from then on |
| EnemySpawning.Along | MyGame/systems/EnemySpawningSystem.js:62-65 | a random fraction in [0, 1) of a non-negative length lies within [0, length] |
| EnemySpawning.EdgePointOnEdge | MyGame/systems/EnemySpawningSystem.js:59-66 | a spawn point lies on one edge line inset by 20, with both coordinates in [20, dim - 20] |
| EnemySpawning.EnemySpawner.constructor | MyGame/systems/EnemySpawningSystem.js:7-9 | the system starts with no timers, counter 0 and the reset flag set |
| EnemySpawning.EnemySpawner.ApplyResetRule | MyGame/systems/EnemySpawningSystem.js:24-30 | the reset rule updates the timers, counter and flag |
| EnemySpawning.EnemySpawner.EnemySpawningSystem | MyGame/systems/EnemySpawningSystem.js:19-78 | the new timers, counter, flag and map are the closed-form tick of the old ones |
| EnemySpawning.BatchIdsDiffer | MyGame/systems/EnemySpawningSystem.js:54-57 | two enemies of one batch never share an id |
| EnemySpawning.SpawnBatchKeys | MyGame/systems/EnemySpawningSystem.js:54-73 | a batch adds exactly its ids and leaves every other entry as it was |
| EnemySpawning.SpawnBatchEnemyAt | MyGame/systems/EnemySpawningSystem.js:68-73 | the k-th id of a batch holds an enemy with health 30 and speed 1 at the k-th edge point |
| EnemySpawning.SpawnBatchContents | MyGame/systems/EnemySpawningSystem.js:54-73 | the two facts above, for the whole batch |
| EnemySpawning.BatchIdsCount | MyGame/systems/EnemySpawningSystem.js:54-57 | a batch of n names exactly n distinct ids |
| EnemySpawning.EarlierIdsDiffer | MyGame/systems/EnemySpawningSystem.js:55-57 | an id minted with a counter not above the current one is never among the new batch's ids |
| EnemySpawning.SpawnKeepsEveryEntry | MyGame/systems/EnemySpawningSystem.js:55-77 | when every enemy id in the map was minted with a counter at most the one the tick starts from, no entry is overwritten or removed, and that holds again for the new counter |
| EnemySpawning.SpawnIffCooldownElapsed | MyGame/systems/EnemySpawningSystem.js:47-75 | a spawn happens exactly when the wave was seen before and more than its interval has passed; the first sighting only records the time; the timer, counter and keys change accordingly |
| EnemySpawning.OneEnemyPerSpawn | MyGame/systems/EnemySpawningSystem.js:12-74 | with the schedule as written, a tick that changes the map adds exactly one enemy id and counts one |
| EnemySpawning.ResetRuleCases | MyGame/systems/EnemySpawningSystem.js:24-30 | at most 1 s in with the flag set, timers, counter and flag are cleared; after 1 s the flag is set; otherwise nothing changes |
| EnemySpawning.SpawnOnlyAdds | MyGame/systems/EnemySpawningSystem.js:68-77 | every entry after the tick is either as it was or a new enemy with health 30 under an enemy id |
| EnemySpawning.SpawnKeepsOthers | MyGame/systems/EnemySpawningSystem.js:68-77 | entries not under enemy ids are kept as they were |
| EnemySpawning.SpawnedEnemiesOnEdge | MyGame/systems/EnemySpawningSystem.js:59-73 | with random values in [0, 1), every inserted enemy has health 30, speed 1 and a position on an edge, within [20, dim - 20] |
| EnemySpawning.SpawnTickKeepsWellKinded | MyGame/systems/EnemySpawningSystem.js:54-77 | every id still names its kind of entity after the tick |
| EnemySpawning.SpawnStates | MyGame/systems/EnemySpawningSystem.js:7-9 | the spawner's state persists across ticks: a run starts from the given state and has one state per tick plus the final one |
| EnemySpawning.SpawnStatesStep | MyGame/systems/EnemySpawningSystem.js:7-9 | each state of a run is the previous state after one tick |
| EnemySpawning.TickFlag | MyGame/systems/EnemySpawningSystem.js:24-30 | a tick passes on the reset flag as the reset rule leaves it |
| EnemySpawning.FlagStaysDown | MyGame/systems/EnemySpawningSystem.js:24-30 | after a reset fires, the flag stays down through every later tick at most one second into the game |
| EnemySpawning.ResetAtMostOncePerGame | MyGame/systems/EnemySpawningSystem.js:24-30 | once a reset fires, no later reset fires until some tick in between sees a game time above one second |
| EnemySpawning.ResetRearms | MyGame/systems/EnemySpawningSystem.js:24-30 | a tick above one second followed by one at most one second makes the reset fire again, clearing timers and counter |
| Movement.Clamp | MyGame/systems/MovementSystem.js:50-51 | the clamped value lies within the bounds; a value already within them is unchanged, one below is raised to the lower bound and one above lowered to the upper |
| Movement.Nearest | MyGame/systems/MovementSystem.js:20-33 | the enemy found is one of the visited keys, an `enemy_` entry with a position |
| Movement.FindNearestEnemy | MyGame/systems/MovementSystem.js:12-34 | with no player or no position, no enemy; otherwise the running-minimum loop finds the nearest enemy in visit order |
| Movement.NearestIsMinimal | MyGame/systems/MovementSystem.js:20-33 | no enemy is found exactly when no visited `enemy_` entry has a position; the one found is at least as near as every other |
| Movement.NearestTiesGoFirst | MyGame/systems/MovementSystem.js:25-29 | every candidate visited before the one found is strictly farther, so ties go to the first |
| Movement.Autofire.constructor | MyGame/systems/MovementSystem.js:9-10 | the last fire time and the bullet counter start at 0 |
| Movement.Autofire.MovementSystem | MyGame/systems/MovementSystem.js:37-77 | the new fire time, counter and map are the closed-form tick of the old ones |
| Movement.PlayerStaysOnScreen | MyGame/systems/MovementSystem.js:43-56 | the player keeps its health and its game-over flag; with a numeric joystick reading it ends within [25, dim - 25], and without one it does not move |
| Movement.FireIffDueAndTargetExists | MyGame/systems/MovementSystem.js:59-66 | a shot is fired exactly when more than 1000 ms have passed and an enemy has a position; only then do the time and counter change |
| Movement.AtMostOneBullet | MyGame/systems/MovementSystem.js:58-74 | at most one key is added: a bullet at the player's moved position, aimed at the nearest enemy, with speed 7; nothing else but the player changes |
| Movement.BulletTargetsNearest | MyGame/systems/MovementSystem.js:60-69 | the target is a positioned enemy entry, as near the moved player as any other |
| Movement.TargetAmongAllEnemies | MyGame/systems/MovementSystem.js:20-33 | when the visit order covers every key of the map, a due shot is fired exactly when some enemy in the map has a position, and its target is as near as every such enemy |
| Movement.FreshBulletId | MyGame/systems/MovementSystem.js:64-65 | since the counter only grows, a new bullet's id is never already in the map |
| Movement.MovementKeepsWellKinded | MyGame/systems/MovementSystem.js:37-77 | every id still names its kind of entity after the system |
| EngineSpawn.FindEnemyData | engine/spawn.js:19 | the entry found has the requested type, and none is found exactly when no entry has it |
| EngineSpawn.FindEnemyDataTakesFirst | engine/spawn.js:19 | among entries sharing a type, the earliest is found |
| EngineSpawn.SpawnList | engine/spawn.js:18-32 | a wave yields at most one record per listed type |
| EngineSpawn.WaveSpawner.constructor | engine/spawn.js:4-5 | the clock and wave index start at 0 |
| EngineSpawn.WaveSpawner.SpawnEnemies | engine/spawn.js:7-38 | the new clock, wave index and returned list are the closed-form step of the old state |
| EngineSpawn.WaveSpawner.ResetSpawn | engine/spawn.js:41-44 | the clock and the wave index are both 0 again |
| EngineSpawn.SpawnedFromTable | engine/spawn.js:18-32 | every record copies type, hit points and speed from an entry of the table whose type the wave lists, and starts at (0, 0); which entry is `EngineSpawn.SpawnListIsKnownTypes` |
| EngineSpawn.NothingSpawnedIffAllUnknown | engine/spawn.js:18-32 | nothing is spawned exactly when none of the wave's types is in the table |
| EngineSpawn.OneRecordPerKnownType | engine/spawn.js:18-32 | when every listed type is known there is one record per type, in the wave's order |
| EngineSpawn.Known | engine/spawn.js:19-20 | the known types of a wave are listed types that have a table entry |
| EngineSpawn.SpawnListIsKnownTypes | engine/spawn.js:18-32 | in any wave, known and unknown types mixed, there is one record per known type, in the wave's order, copied from the first table entry of that type; unknown types are skipped |
| EngineSpawn.StepAdvances | engine/spawn.js:8-35 | the clock grows by the delta; the index grows by one exactly when the next wave is due, stays within the table, and otherwise nothing is spawned |
| EngineSpawn.EachWaveOnce | engine/spawn.js:13-34 | over many calls, waves are released in table order and each at most once |
| EngineSpawn.ClockMonotone | engine/spawn.js:8 | with non-negative deltas the clock never runs backwards |
| Pipeline.RunFrame | MyGame/App.js:117-124 | the systems run in the registered order; the frame's events are ADD_SCORE of 10 except a last GAME_OVER, and a frame dispatching GAME_OVER leaves the player notified |
| Pipeline.GameOverEventIff | MyGame/systems/CollisionSystem.js:115-119 | GAME_OVER is among the collision events exactly when it fires |
| Pipeline.FrameKeepsWellKinded | MyGame/App.js:117-124 | a whole frame keeps every id naming its kind of entity |
| Pipeline.FrameKeepsPlayer | MyGame/App.js:117-124 | a player survives a frame as a player whose health never grows |
| Pipeline.FrameKeepsControlsAndStats | MyGame/App.js:117-124 | the controls and the game statistics pass through a frame untouched |
| Pipeline.FrameKeepsNotified | MyGame/App.js:117-124 | a notified player is still notified after a whole frame, and that frame dispatches no GAME_OVER |
| Pipeline.RunFrames | MyGame/App.js:117-124 | a run has one frame per input, each fed the state and map the previous frame left |
| Pipeline.RunFramesUnfold | MyGame/App.js:117-124 | a run is its first frame followed by the run started from the state and map that frame left |
| Pipeline.NotifiedRunQuiet | MyGame/systems/CollisionSystem.js:115-119 | once the player is notified, every later frame of the run keeps it notified and dispatches no GAME_OVER |
| Pipeline.GameOverOncePerRun | MyGame/systems/CollisionSystem.js:115-119 | over a run of whole frames, GAME_OVER is dispatched in at most one frame |

## Left out

- LoggingSystem is not part of this model. It runs first in the host's list, but its only statement is commented out, so it returns the map unchanged.
- The rest of the app is not modelled:
  - the React UI and gesture handling in `App.js` and `MyGame/App.js`;
  - the animation-frame driver in `engine/gameLoop.js`;
  - the renderer components.
- `console.log` output is not modelled. `dispatch` becomes an event list returned by `Collision.CollisionSystem`.
- `Math.sqrt` and the division by the magnitude are modelled on exact reals:
  - the length is a parameter `length: Vec -> real`;
  - its only assumed property is `Geometry.IsLength`: non-negative, and zero exactly for the zero vector;
  - floating-point rounding and NaN are not modelled.
- EnemyAI.ChaseMovesTowardPlayer: states the sign of each coordinate's step, not the step's length, because the normalisation is abstract.
- BulletMovement.SteppedBulletCulledIffOffScreen: states where the stepped bullet is, in terms of the same abstract step, not how far it moved.
- `Math.random()` becomes a parameter `random: nat -> real`. Enemy k of a batch draws `random(2k)` for the edge and `random(2k + 1)` for the place along it.
- The random id string given to records in `engine/spawn.js` is not modelled. The record type drops it.
- The screen size from `Dimensions.get('window')` is a parameter.
- The waves and enemies tables of `engine/spawn.js` are parameters, because their contents are not part of this model.
- The engine time (`time.current`) is simplified to a natural number of milliseconds:
  - the host's game engine supplies it as a frame timestamp, which need not be whole;
  - only the rendering of generated ids would differ for a fractional time, since every comparison in the systems reads the same either way.
- The game-statistics time is a natural number of seconds. The app counts it up by one each second (`MyGame/App.js:74-88`).
- JavaScript for-in order over a map changed during the loop is not modelled:
  - Each looping system is proved equal to a closed form over a key snapshot, so the order does not matter there.
  - `findNearestEnemy` breaks ties by order, so the visit order is an explicit parameter `order`.
- Entries whose variant disagrees with their id prefix (for example a health-less object under an `enemy_` id) are skipped by the model. There JavaScript would compare `undefined` or produce NaN. Every system is proved to keep maps well kinded, so such entries never arise from a well-kinded start.
- `player.isInvulnerable` is never set anywhere in the source. The model treats it as always unset.
- The player's in-place position update and the bullet's copy of it are modelled as map updates of values. The source copies the array, so no aliasing is lost.
- The player box is 50 wide for clamping (`MovementSystem.js`) but 40 for collisions (`CollisionSystem.js`). Both are modelled as written.
- A spawned enemy id that matched an existing key would overwrite it, in the model as in the source. `EnemySpawning.SpawnKeepsEveryEntry` shows that this never happens while every enemy id in the map was minted with a counter at most the current one. The reset rule zeroes the counter at the start of a game, so ids left over from a previous game are not covered.
- Collision.NotifiedPersists: assumes, rather than proves, that nothing between two collision passes clears the player's notified flag. `Pipeline.NotifiedRunQuiet` proves it for runs of whole frames.
- Collision.GameOverAtMostOnce: rests on the same assumption about the maps between passes. `Pipeline.GameOverOncePerRun` proves at-most-once for runs of whole frames, where every frame gets the map the previous one left.
- A run of frames does not include the app's restart (`resetGame` replaces the whole map with a fresh one). A restart begins a new run.
