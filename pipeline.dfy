/** One frame of the game loop: the systems run in the fixed order the app
    registers them, each on the map the previous one returned. */
module Pipeline {
  import opened Entities
  import Movement
  import EnemySpawning
  import EnemyAI
  import BulletMovement
  import Collision

  datatype Frame = Frame(fire: Movement.FireState, spawner: EnemySpawning.SpawnerState,
                         entities: Entities, events: seq<Event>)

  /** The frame's outcome. `order` is the key order the nearest-enemy search
      sees, `random` the frame's random draws, `length` the vector length.
      The frame's events are ADD_SCORE of 10 but for a last GAME_OVER, and a
      frame that dispatches GAME_OVER leaves the player notified. */
  function RunFrame(fire: Movement.FireState, spawner: EnemySpawning.SpawnerState, m: Entities,
                    engineTime: nat, screen: Screen, order: seq<string>,
                    random: nat -> real, length: Vec -> real): (r: Frame)
    ensures forall k :: 0 <= k < |r.events| ==>
      r.events[k] == AddScore(Collision.EnemyDefeatScore) || (k == |r.events| - 1 && r.events[k] == GameOver)
    ensures GameOver in r.events ==> Collision.Notified(r.entities)
  {
    var moved := Movement.MovementTick(fire, m, engineTime, screen, order);
    var spawned := EnemySpawning.SpawnTick(spawner, moved.entities, engineTime, screen, random);
    var chased := EnemyAI.ChaseAll(spawned.entities, length);
    var flown := BulletMovement.FlyAll(chased, screen, length);
    Collision.OneScorePerRemovedEnemy(flown);
    GameOverEventIff(flown);
    Collision.GameOverMarksPlayer(flown);
    Frame(moved.state, spawned.state, Collision.AfterCollision(flown), Collision.CollisionEvents(flown))
  }

  /** GAME_OVER is among the collision events exactly when it fires. */
  lemma GameOverEventIff(m: Entities)
    ensures GameOver in Collision.CollisionEvents(m) <==> Collision.GameOverFires(m)
  {
    var scores := seq(|Collision.DefeatedSet(m)|, _ => AddScore(Collision.EnemyDefeatScore));
    assert GameOver !in scores;
    if Collision.GameOverFires(m) {
      assert Collision.CollisionEvents(m)[|scores|] == GameOver;
    } else {
      assert Collision.CollisionEvents(m) == scores;
    }
  }

  /** A notified player is still notified after the frame, and the frame
      dispatches no GAME_OVER. */
  lemma FrameKeepsNotified(fire: Movement.FireState, spawner: EnemySpawning.SpawnerState, m: Entities,
                           engineTime: nat, screen: Screen, order: seq<string>,
                           random: nat -> real, length: Vec -> real)
    requires Collision.Notified(m)
    ensures var f := RunFrame(fire, spawner, m, engineTime, screen, order, random, length);
      Collision.Notified(f.entities) && GameOver !in f.events
  {
    var moved := Movement.MovementTick(fire, m, engineTime, screen, order);
    var spawned := EnemySpawning.SpawnTick(spawner, moved.entities, engineTime, screen, random);
    var chased := EnemyAI.ChaseAll(spawned.entities, length);
    var flown := BulletMovement.FlyAll(chased, screen, length);
    Movement.PlayerStaysOnScreen(fire, m, engineTime, screen, order);
    KeyKinds(PlayerKey);
    EnemySpawning.SpawnKeepsOthers(spawner, moved.entities, engineTime, screen, random, PlayerKey);
    EnemyAI.ChaseAllKeepsKeys(spawned.entities, length);
    if chased[PlayerKey] != spawned.entities[PlayerKey] {
      EnemyAI.ChaseAllMovesOnlyEnemies(spawned.entities, length, PlayerKey);
    }
    BulletMovement.FlyAllTouchesOnlyBullets(chased, screen, length);
    assert Collision.Notified(flown);
    Collision.GameOverMarksPlayer(flown);
    GameOverEventIff(flown);
  }

  /** What a frame takes from the outside: the engine clock, the key order
      the nearest-enemy search sees and the random draws. */
  datatype FrameInput = FrameInput(engineTime: nat, order: seq<string>, random: nat -> real)

  /** The frames of a run, each fed the spawner, autofire state and map the
      previous one left. */
  function RunFrames(fire: Movement.FireState, spawner: EnemySpawning.SpawnerState, m: Entities,
                     screen: Screen, length: Vec -> real, inputs: seq<FrameInput>): (r: seq<Frame>)
    ensures |r| == |inputs|
    decreases |inputs|
  {
    if inputs == [] then []
    else
      var f := RunFrame(fire, spawner, m, inputs[0].engineTime, screen, inputs[0].order, inputs[0].random, length);
      [f] + RunFrames(f.fire, f.spawner, f.entities, screen, length, inputs[1..])
  }

  /** A run is its first frame followed by the run from where that frame
      left off. */
  lemma RunFramesUnfold(fire: Movement.FireState, spawner: EnemySpawning.SpawnerState, m: Entities,
                        screen: Screen, length: Vec -> real, inputs: seq<FrameInput>, f: Frame, k: nat)
    requires 0 < |inputs| && k < |inputs|
    requires f == RunFrame(fire, spawner, m, inputs[0].engineTime, screen, inputs[0].order, inputs[0].random, length)
    ensures k == 0 ==> RunFrames(fire, spawner, m, screen, length, inputs)[k] == f
    ensures k > 0 ==> RunFrames(fire, spawner, m, screen, length, inputs)[k]
                      == RunFrames(f.fire, f.spawner, f.entities, screen, length, inputs[1..])[k - 1]
  {
  }

  /** Once the player is notified, no frame of the run dispatches GAME_OVER
      and the player stays notified. */
  lemma {:induction false} NotifiedRunQuiet(fire: Movement.FireState, spawner: EnemySpawning.SpawnerState, m: Entities,
                                            screen: Screen, length: Vec -> real, inputs: seq<FrameInput>, j: nat)
    requires Collision.Notified(m) && j < |inputs|
    ensures var frames := RunFrames(fire, spawner, m, screen, length, inputs);
      Collision.Notified(frames[j].entities) && GameOver !in frames[j].events
    decreases |inputs|
  {
    var f := RunFrame(fire, spawner, m, inputs[0].engineTime, screen, inputs[0].order, inputs[0].random, length);
    RunFramesUnfold(fire, spawner, m, screen, length, inputs, f, j);
    FrameKeepsNotified(fire, spawner, m, inputs[0].engineTime, screen, inputs[0].order, inputs[0].random, length);
    if j > 0 {
      NotifiedRunQuiet(f.fire, f.spawner, f.entities, screen, length, inputs[1..], j - 1);
    }
  }

  /** GAME_OVER is dispatched in at most one frame of a run. */
  lemma {:induction false} GameOverOncePerRun(fire: Movement.FireState, spawner: EnemySpawning.SpawnerState, m: Entities,
                                              screen: Screen, length: Vec -> real, inputs: seq<FrameInput>, i: nat, j: nat)
    requires i < j < |inputs|
    requires GameOver in RunFrames(fire, spawner, m, screen, length, inputs)[i].events
    ensures GameOver !in RunFrames(fire, spawner, m, screen, length, inputs)[j].events
    decreases i
  {
    var f := RunFrame(fire, spawner, m, inputs[0].engineTime, screen, inputs[0].order, inputs[0].random, length);
    RunFramesUnfold(fire, spawner, m, screen, length, inputs, f, i);
    RunFramesUnfold(fire, spawner, m, screen, length, inputs, f, j);
    if i == 0 {
      NotifiedRunQuiet(f.fire, f.spawner, f.entities, screen, length, inputs[1..], j - 1);
    } else {
      GameOverOncePerRun(f.fire, f.spawner, f.entities, screen, length, inputs[1..], i - 1, j - 1);
    }
  }

  /** A frame keeps every id naming its kind of entity. */
  lemma FrameKeepsWellKinded(fire: Movement.FireState, spawner: EnemySpawning.SpawnerState, m: Entities,
                             engineTime: nat, screen: Screen, order: seq<string>,
                             random: nat -> real, length: Vec -> real)
    requires WellKinded(m)
    ensures WellKinded(RunFrame(fire, spawner, m, engineTime, screen, order, random, length).entities)
  {
    var moved := Movement.MovementTick(fire, m, engineTime, screen, order);
    var spawned := EnemySpawning.SpawnTick(spawner, moved.entities, engineTime, screen, random);
    var chased := EnemyAI.ChaseAll(spawned.entities, length);
    var flown := BulletMovement.FlyAll(chased, screen, length);
    Movement.MovementKeepsWellKinded(fire, m, engineTime, screen, order);
    EnemySpawning.SpawnTickKeepsWellKinded(spawner, moved.entities, engineTime, screen, random);
    EnemyAI.ChaseAllKeepsWellKinded(spawned.entities, length);
    BulletMovement.FlyAllKeepsWellKinded(chased, screen, length);
    Collision.AfterCollisionKeepsWellKinded(flown);
  }

  /** A player survives a frame as a player whose health never grows. */
  lemma FrameKeepsPlayer(fire: Movement.FireState, spawner: EnemySpawning.SpawnerState, m: Entities,
                         engineTime: nat, screen: Screen, order: seq<string>,
                         random: nat -> real, length: Vec -> real)
    requires PlayerKey in m && m[PlayerKey].Player?
    ensures var f := RunFrame(fire, spawner, m, engineTime, screen, order, random, length);
      PlayerKey in f.entities && f.entities[PlayerKey].Player?
      && f.entities[PlayerKey].health <= m[PlayerKey].health
  {
    var moved := Movement.MovementTick(fire, m, engineTime, screen, order);
    var spawned := EnemySpawning.SpawnTick(spawner, moved.entities, engineTime, screen, random);
    var chased := EnemyAI.ChaseAll(spawned.entities, length);
    var flown := BulletMovement.FlyAll(chased, screen, length);
    Movement.PlayerStaysOnScreen(fire, m, engineTime, screen, order);
    KeyKinds(PlayerKey);
    EnemySpawning.SpawnKeepsOthers(spawner, moved.entities, engineTime, screen, random, PlayerKey);
    EnemyAI.ChaseAllKeepsKeys(spawned.entities, length);
    BulletMovement.FlyAllTouchesOnlyBullets(chased, screen, length);
    Collision.PlayerFate(flown);
  }

  /** The controls and the game statistics pass through a frame untouched. */
  lemma FrameKeepsControlsAndStats(fire: Movement.FireState, spawner: EnemySpawning.SpawnerState, m: Entities,
                                   engineTime: nat, screen: Screen, order: seq<string>,
                                   random: nat -> real, length: Vec -> real, k: string)
    requires k in {ControlsKey, StatsKey} && k in m
    ensures var f := RunFrame(fire, spawner, m, engineTime, screen, order, random, length);
      k in f.entities && f.entities[k] == m[k]
  {
    var moved := Movement.MovementTick(fire, m, engineTime, screen, order);
    var spawned := EnemySpawning.SpawnTick(spawner, moved.entities, engineTime, screen, random);
    var chased := EnemyAI.ChaseAll(spawned.entities, length);
    var flown := BulletMovement.FlyAll(chased, screen, length);
    KeyKinds(k);
    Movement.AtMostOneBullet(fire, m, engineTime, screen, order);
    EnemySpawning.SpawnKeepsOthers(spawner, moved.entities, engineTime, screen, random, k);
    EnemyAI.ChaseAllKeepsKeys(spawned.entities, length);
    BulletMovement.FlyAllTouchesOnlyBullets(chased, screen, length);
    Collision.CollisionTouchesOnlyCombatants(flown);
  }

  lemma KeyKinds(k: string)
    requires k in {PlayerKey, ControlsKey, StatsKey}
    ensures !IsEnemyId(k) && !IsBulletId(k)
  {
    assert k[0] == 'p' || k[0] == 'c' || k[0] == 'g';
  }
}
