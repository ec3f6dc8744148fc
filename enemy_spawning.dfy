/** EnemySpawningSystem: a time-windowed wave schedule, a per-wave spawn
    cooldown and enemies inserted on the screen edges. The module-level
    variables of the system (the last spawn time per wave, the enemy counter
    and the reset flag) are the fields of `EnemySpawner`. */
module EnemySpawning {
  import opened Entities

  /** The side of an enemy's box, and the inset of a spawn from each edge. */
  const EnemySize: real := 40.0
  const EnemyHealth: int := 30
  const EnemySpeed: real := 1.0

  /** A wave's length in seconds of game time; the last wave never ends. */
  datatype Duration = Seconds(secs: nat) | Unbounded

  /** `interval` is in milliseconds of engine time. */
  datatype Wave = Wave(duration: Duration, interval: nat, numEnemies: nat, id: string)

  const Waves: seq<Wave> := [
    Wave(Seconds(60), 3000, 1, "wave1"),
    Wave(Seconds(60), 2000, 1, "wave2"),
    Wave(Unbounded, 1500, 1, "wave3_fast_single")
  ]

  // ---------------------------------------------------------------------
  // Wave selection

  /** Wave `w`, starting at `start`, still runs at game time `t`. */
  predicate Covers(t: nat, start: nat, w: Wave) {
    w.duration.Unbounded? || t < start + w.duration.secs
  }

  /** The first wave of `waves`, the first starting at `start`, that still
      runs at `t`. */
  function FirstCovering(waves: seq<Wave>, t: nat, start: nat): (r: Option<Wave>)
    ensures r.Some? ==> r.value in waves
    decreases |waves|
  {
    if waves == [] then None
    else if Covers(t, start, waves[0]) then Some(waves[0])
    else FirstCovering(waves[1..], t, start + waves[0].duration.secs)
  }

  /** The wave in force at game time `t`: the first one still running, or
      the last one when every window has passed. */
  function WaveFor(waves: seq<Wave>, t: nat): (w: Wave)
    requires |waves| > 0
    ensures w in waves
  {
    match FirstCovering(waves, t, 0)
    case Some(w) => w
    case None => waves[|waves| - 1]
  }

  /** The loop over the schedule, accumulating the durations passed. */
  method SelectWave(waves: seq<Wave>, gameTime: nat) returns (wave: Wave)
    requires |waves| > 0
    ensures wave == WaveFor(waves, gameTime)
  {
    var current: Option<Wave> := None;
    var accumulated: nat := 0;
    var i := 0;
    while i < |waves|
      invariant 0 <= i <= |waves|
      invariant FirstCovering(waves, gameTime, 0) ==
        if current.Some? then current else FirstCovering(waves[i..], gameTime, accumulated)
      invariant current.Some? ==> i == |waves|
    {
      var w := waves[i];
      assert waves[i..][1..] == waves[i + 1..];
      if Covers(gameTime, accumulated, w) {
        current := Some(w);
        break;
      }
      accumulated := accumulated + w.duration.secs;
      i := i + 1;
    }
    if current.None? {
      wave := waves[|waves| - 1];
    } else {
      wave := current.value;
    }
  }

  /** The schedule in force: wave1 for the first minute, wave2 for the
      second, then wave3_fast_single for ever. */
  lemma WaveSchedule(t: nat)
    ensures t < 60 ==> WaveFor(Waves, t) == Waves[0]
    ensures 60 <= t < 120 ==> WaveFor(Waves, t) == Waves[1]
    ensures 120 <= t ==> WaveFor(Waves, t) == Waves[2]
  {
    assert Waves[1..][1..] == [Waves[2]];
  }

  // ---------------------------------------------------------------------
  // Spawn placement

  /** `r * d`: a random fraction of a length. */
  function Along(r: real, d: real): (x: real)
    ensures 0.0 <= r < 1.0 && d >= 0.0 ==> 0.0 <= x <= d
  {
    FractionBound(r, d);
    r * d
  }

  /** A spawn point: `r1` picks the edge through `floor(r1 * 4)` (top, right,
      bottom, and any other value the left edge), `r2` the place along it. */
  function EdgePoint(screen: Screen, r1: real, r2: real): Vec {
    var half := EnemySize / 2.0;
    var edge := (r1 * 4.0).Floor;
    if edge == 0 then Vec(Along(r2, screen.width - EnemySize) + half, half)
    else if edge == 1 then Vec(screen.width - half, Along(r2, screen.height - EnemySize) + half)
    else if edge == 2 then Vec(Along(r2, screen.width - EnemySize) + half, screen.height - half)
    else Vec(half, Along(r2, screen.height - EnemySize) + half)
  }

  lemma FractionBound(r: real, d: real)
    ensures 0.0 <= r < 1.0 && d >= 0.0 ==> 0.0 <= r * d <= d
  {
    if 0.0 <= r < 1.0 && d >= 0.0 {
      assert (1.0 - r) * d >= 0.0;
    }
  }

  /** With the second random value in [0, 1) and a screen at least one enemy
      wide and high, every spawn point lies on one edge line, inset by half
      an enemy, with both coordinates within [20, dim - 20]. */
  lemma EdgePointOnEdge(screen: Screen, r1: real, r2: real)
    requires screen.width >= EnemySize && screen.height >= EnemySize
    requires 0.0 <= r2 < 1.0
    ensures var p := EdgePoint(screen, r1, r2);
      (p.x == 20.0 || p.x == screen.width - 20.0 || p.y == 20.0 || p.y == screen.height - 20.0)
      && 20.0 <= p.x <= screen.width - 20.0 && 20.0 <= p.y <= screen.height - 20.0
  {
  }

  // ---------------------------------------------------------------------
  // One tick

  /** `entities.gameStats ? entities.gameStats.time : 0`, in seconds. */
  function GameTimeOf(m: Entities): nat {
    if StatsKey in m && m[StatsKey].GameStats? then m[StatsKey].time else 0
  }

  /** The `k`th enemy of a batch: `random(2k)` draws its edge and
      `random(2k + 1)` its place along the edge. */
  function NewEnemy(screen: Screen, random: nat -> real, k: nat): Entity {
    Enemy(Some(EdgePoint(screen, random(2 * k), random(2 * k + 1))), EnemyHealth, Some(EnemySpeed))
  }

  /** `m` with the first `n` enemies of a batch inserted at engine time `t`;
      the `k`th gets counter value `counter + k + 1`. */
  function SpawnBatch(m: Entities, t: nat, counter: nat, n: nat, screen: Screen, random: nat -> real): Entities {
    if n == 0 then m
    else SpawnBatch(m, t, counter, n - 1, screen, random)[BatchId(t, counter, n - 1) := NewEnemy(screen, random, n - 1)]
  }

  /** The id of the `k`th enemy of a batch. */
  function BatchId(t: nat, counter: nat, k: nat): string {
    EnemyId(t, counter + k + 1, k)
  }

  /** The ids of the first `n` enemies of a batch. */
  function BatchIds(t: nat, counter: nat, n: nat): set<string> {
    set k: nat | k < n :: BatchId(t, counter, k)
  }

  datatype SpawnerState = SpawnerState(lastSpawnTime: map<string, int>, enemyCounter: nat, gameJustReset: bool)

  /** At the start of a game (game time at most one second) with the flag
      set, the timers and the counter are cleared and the flag consumed; any
      later second arms the flag again. */
  function ResetRule(s: SpawnerState, gameTime: nat): SpawnerState {
    if gameTime <= 1 && s.gameJustReset then SpawnerState(map[], 0, false)
    else if gameTime > 1 then SpawnerState(s.lastSpawnTime, s.enemyCounter, true)
    else s
  }

  datatype Tick = Tick(state: SpawnerState, entities: Entities)

  /** The whole tick: reset rule, wave selection, first-sighting record,
      cooldown check, batch. */
  function SpawnTick(s: SpawnerState, m: Entities, engineTime: nat, screen: Screen, random: nat -> real): Tick {
    var s1 := ResetRule(s, GameTimeOf(m));
    var wave := WaveFor(Waves, GameTimeOf(m));
    var last := if wave.id in s1.lastSpawnTime then s1.lastSpawnTime[wave.id] else engineTime;
    if engineTime - last > wave.interval then
      Tick(SpawnerState(s1.lastSpawnTime[wave.id := engineTime], s1.enemyCounter + wave.numEnemies, s1.gameJustReset),
           SpawnBatch(m, engineTime, s1.enemyCounter, wave.numEnemies, screen, random))
    else
      Tick(SpawnerState(s1.lastSpawnTime[wave.id := last], s1.enemyCounter, s1.gameJustReset), m)
  }

  class EnemySpawner {
    var lastSpawnTime: map<string, int>
    var enemyCounter: nat
    var gameJustReset: bool

    function State(): SpawnerState
      reads this
    {
      SpawnerState(lastSpawnTime, enemyCounter, gameJustReset)
    }

    /** The state at module load. */
    constructor()
      ensures State() == SpawnerState(map[], 0, true)
    {
      lastSpawnTime := map[];
      enemyCounter := 0;
      gameJustReset := true;
    }

    method ApplyResetRule(gameTime: nat)
      modifies this
      ensures State() == ResetRule(old(State()), gameTime)
    {
      if gameTime <= 1 && gameJustReset {
        lastSpawnTime := map[];
        enemyCounter := 0;
        gameJustReset := false;
      } else if gameTime > 1 {
        gameJustReset := true;
      }
    }

    method EnemySpawningSystem(entities: Entities, engineTime: nat, screen: Screen, random: nat -> real)
      returns (result: Entities)
      modifies this
      ensures Tick(State(), result) == SpawnTick(old(State()), entities, engineTime, screen, random)
    {
      result := entities;
      var gameTime := GameTimeOf(entities);
      ApplyResetRule(gameTime);

      var wave := SelectWave(Waves, gameTime);
      if wave.id !in lastSpawnTime {
        lastSpawnTime := lastSpawnTime[wave.id := engineTime];
      }
      if engineTime - lastSpawnTime[wave.id] > wave.interval {
        lastSpawnTime := lastSpawnTime[wave.id := engineTime];
        ghost var counter0, timers, flag := enemyCounter, lastSpawnTime, gameJustReset;
        for i := 0 to wave.numEnemies
          invariant enemyCounter == counter0 + i
          invariant lastSpawnTime == timers && gameJustReset == flag
          invariant result == SpawnBatch(entities, engineTime, counter0, i, screen, random)
        {
          enemyCounter := enemyCounter + 1;
          var enemyId := EnemyId(engineTime, enemyCounter, i);
          var position := EdgePoint(screen, random(2 * i), random(2 * i + 1));
          result := result[enemyId := Enemy(Some(position), EnemyHealth, Some(EnemySpeed))];
        }
      } else {
        assert lastSpawnTime == lastSpawnTime[wave.id := lastSpawnTime[wave.id]];
      }
    }
  }

  // ---------------------------------------------------------------------
  // What a tick guarantees

  /** Two enemies of one batch never share an id. */
  lemma BatchIdsDiffer(t: nat, counter: nat, j: nat, k: nat)
    requires j != k
    ensures BatchId(t, counter, j) != BatchId(t, counter, k)
  {
    if BatchId(t, counter, j) == BatchId(t, counter, k) {
      EnemyIdInjective(t, counter + j + 1, j, t, counter + k + 1, k);
    }
  }

  lemma BatchIdsGrow(t: nat, counter: nat, n: nat)
    requires n > 0
    ensures BatchIds(t, counter, n) == BatchIds(t, counter, n - 1) + {BatchId(t, counter, n - 1)}
  {
    var last: nat := n - 1;
    assert BatchId(t, counter, last) in BatchIds(t, counter, n);
  }

  /** A batch adds exactly its ids and leaves every other entry as it was. */
  lemma {:induction false} SpawnBatchKeys(m: Entities, t: nat, counter: nat, n: nat, screen: Screen, random: nat -> real)
    ensures SpawnBatch(m, t, counter, n, screen, random).Keys == m.Keys + BatchIds(t, counter, n)
    ensures forall id :: id in m && id !in BatchIds(t, counter, n) ==>
      SpawnBatch(m, t, counter, n, screen, random)[id] == m[id]
  {
    if n > 0 {
      SpawnBatchKeys(m, t, counter, n - 1, screen, random);
      BatchIdsGrow(t, counter, n);
    }
  }

  /** The `k`th id of a batch holds an enemy with health 30 and speed 1 at
      the `k`th edge point. */
  lemma {:induction false} SpawnBatchEnemyAt(m: Entities, t: nat, counter: nat, n: nat, screen: Screen, random: nat -> real, k: nat)
    requires k < n
    ensures BatchId(t, counter, k) in SpawnBatch(m, t, counter, n, screen, random)
    ensures SpawnBatch(m, t, counter, n, screen, random)[BatchId(t, counter, k)] == NewEnemy(screen, random, k)
  {
    if k < n - 1 {
      SpawnBatchEnemyAt(m, t, counter, n - 1, screen, random, k);
      BatchIdsDiffer(t, counter, k, n - 1);
    }
  }

  lemma SpawnBatchContents(m: Entities, t: nat, counter: nat, n: nat, screen: Screen, random: nat -> real)
    ensures SpawnBatch(m, t, counter, n, screen, random).Keys == m.Keys + BatchIds(t, counter, n)
    ensures forall id :: id in m && id !in BatchIds(t, counter, n) ==>
      SpawnBatch(m, t, counter, n, screen, random)[id] == m[id]
    ensures forall k: nat :: k < n ==>
      BatchId(t, counter, k) in SpawnBatch(m, t, counter, n, screen, random)
      && SpawnBatch(m, t, counter, n, screen, random)[BatchId(t, counter, k)] == NewEnemy(screen, random, k)
  {
    SpawnBatchKeys(m, t, counter, n, screen, random);
    forall k: nat | k < n
      ensures BatchId(t, counter, k) in SpawnBatch(m, t, counter, n, screen, random)
      ensures SpawnBatch(m, t, counter, n, screen, random)[BatchId(t, counter, k)] == NewEnemy(screen, random, k)
    {
      SpawnBatchEnemyAt(m, t, counter, n, screen, random, k);
    }
  }

  /** The ids of a batch are pairwise distinct, so a batch of `n` names `n`
      enemies. */
  lemma {:induction false} BatchIdsCount(t: nat, counter: nat, n: nat)
    ensures |BatchIds(t, counter, n)| == n
  {
    if n > 0 {
      BatchIdsCount(t, counter, n - 1);
      BatchIdsGrow(t, counter, n);
      if BatchId(t, counter, n - 1) in BatchIds(t, counter, n - 1) {
        var k: nat :| k < n - 1 && BatchId(t, counter, k) == BatchId(t, counter, n - 1);
        BatchIdsDiffer(t, counter, k, n - 1);
      }
    }
  }

  /** An id minted with a counter value not above `counter` (that is, by an
      earlier batch of the same session) is never one of this batch's. */
  lemma EarlierIdsDiffer(t: nat, counter: nat, n: nat, t0: nat, c0: nat, i0: nat)
    requires c0 <= counter
    ensures EnemyId(t0, c0, i0) !in BatchIds(t, counter, n)
  {
    if EnemyId(t0, c0, i0) in BatchIds(t, counter, n) {
      var k: nat :| k < n && BatchId(t, counter, k) == EnemyId(t0, c0, i0);
      EnemyIdInjective(t, counter + k + 1, k, t0, c0, i0);
    }
  }

  /** Every enemy id in the map was minted with a counter value at most
      `counter`. */
  ghost predicate EnemiesIssuedUpTo(m: Entities, counter: nat) {
    forall t: nat, c: nat, i: nat :: EnemyId(t, c, i) in m ==> c <= counter
  }

  /** Enemy ids are pairwise distinct within a session: when every enemy id
      in the map was minted with a counter at most the one the tick starts
      from, no entry of the map is overwritten or removed, and the property
      holds again for the new counter. */
  lemma SpawnKeepsEveryEntry(s: SpawnerState, m: Entities, engineTime: nat, screen: Screen, random: nat -> real)
    requires EnemiesIssuedUpTo(m, ResetRule(s, GameTimeOf(m)).enemyCounter)
    ensures var after := SpawnTick(s, m, engineTime, screen, random);
      forall id :: id in m ==> id in after.entities && after.entities[id] == m[id]
    ensures var after := SpawnTick(s, m, engineTime, screen, random);
      EnemiesIssuedUpTo(after.entities, after.state.enemyCounter)
  {
    var s1 := ResetRule(s, GameTimeOf(m));
    var wave := WaveFor(Waves, GameTimeOf(m));
    var c0 := s1.enemyCounter;
    var after := SpawnTick(s, m, engineTime, screen, random);
    SpawnBatchKeys(m, engineTime, c0, wave.numEnemies, screen, random);
    if after.entities != m {
      assert after.state.enemyCounter == c0 + wave.numEnemies;
      assert after.entities == SpawnBatch(m, engineTime, c0, wave.numEnemies, screen, random);
      forall t: nat, c: nat, i: nat | EnemyId(t, c, i) in after.entities
        ensures c <= c0 + wave.numEnemies
      {
        if EnemyId(t, c, i) !in m {
          var k: nat :| k < wave.numEnemies && EnemyId(t, c, i) == BatchId(engineTime, c0, k);
          EnemyIdInjective(t, c, i, engineTime, c0 + k + 1, k);
        }
      }
    }
  }

  /** A spawn happens exactly when the wave in force was seen before and
      more than its interval has passed since; the first tick a wave is seen
      only records the engine time. The wave's timer is then the engine
      time, the counter grows by the batch size and exactly the batch's ids
      are added; otherwise nothing but the timer record changes. */
  lemma SpawnIffCooldownElapsed(s: SpawnerState, m: Entities, engineTime: nat, screen: Screen, random: nat -> real)
    ensures var s1 := ResetRule(s, GameTimeOf(m));
      var wave := WaveFor(Waves, GameTimeOf(m));
      var after := SpawnTick(s, m, engineTime, screen, random);
      var spawns := wave.id in s1.lastSpawnTime && engineTime - s1.lastSpawnTime[wave.id] > wave.interval;
      after.state.lastSpawnTime.Keys == s1.lastSpawnTime.Keys + {wave.id}
      && (wave.id !in s1.lastSpawnTime ==> !spawns && after.state.lastSpawnTime[wave.id] == engineTime)
      && (spawns ==> after.state.lastSpawnTime[wave.id] == engineTime
                     && after.state.enemyCounter == s1.enemyCounter + wave.numEnemies
                     && after.entities.Keys == m.Keys + BatchIds(engineTime, s1.enemyCounter, wave.numEnemies))
      && (!spawns ==> after.state.enemyCounter == s1.enemyCounter && after.entities == m)
      && after.state.gameJustReset == s1.gameJustReset
  {
    var s1 := ResetRule(s, GameTimeOf(m));
    var wave := WaveFor(Waves, GameTimeOf(m));
    SpawnBatchContents(m, engineTime, s1.enemyCounter, wave.numEnemies, screen, random);
  }

  /** Every wave of the schedule spawns one enemy, so a spawning tick adds
      exactly one key when its id is new. */
  lemma OneEnemyPerSpawn(s: SpawnerState, m: Entities, engineTime: nat, screen: Screen, random: nat -> real)
    requires SpawnTick(s, m, engineTime, screen, random).entities != m
    ensures var c := ResetRule(s, GameTimeOf(m)).enemyCounter;
      SpawnTick(s, m, engineTime, screen, random).state.enemyCounter == c + 1
      && SpawnTick(s, m, engineTime, screen, random).entities.Keys == m.Keys + {EnemyId(engineTime, c + 1, 0)}
  {
    var s1 := ResetRule(s, GameTimeOf(m));
    var wave := WaveFor(Waves, GameTimeOf(m));
    assert wave.numEnemies == 1;
    SpawnBatchContents(m, engineTime, s1.enemyCounter, 1, screen, random);
    BatchIdsGrow(engineTime, s1.enemyCounter, 1);
  }

  /** The reset rule: at most one second into a game with the flag set, the
      timers are cleared, the counter zeroed and the flag consumed; after the
      first second the flag is set; otherwise nothing changes. */
  lemma ResetRuleCases(s: SpawnerState, gameTime: nat)
    ensures gameTime <= 1 && s.gameJustReset ==>
      ResetRule(s, gameTime).lastSpawnTime == map[] && ResetRule(s, gameTime).enemyCounter == 0
      && !ResetRule(s, gameTime).gameJustReset
    ensures gameTime > 1 ==>
      ResetRule(s, gameTime).gameJustReset && ResetRule(s, gameTime).lastSpawnTime == s.lastSpawnTime
      && ResetRule(s, gameTime).enemyCounter == s.enemyCounter
    ensures gameTime <= 1 && !s.gameJustReset ==> ResetRule(s, gameTime) == s
  {
  }

  /** Existing entries are never changed or removed: the tick only adds
      keys, every one an enemy id holding an enemy. */
  lemma SpawnOnlyAdds(s: SpawnerState, m: Entities, engineTime: nat, screen: Screen, random: nat -> real, id: string)
    requires id in SpawnTick(s, m, engineTime, screen, random).entities
    ensures var after := SpawnTick(s, m, engineTime, screen, random).entities;
      (id in m && after[id] == m[id]) || (IsEnemyId(id) && after[id].Enemy? && after[id].health == EnemyHealth)
  {
    var s1 := ResetRule(s, GameTimeOf(m));
    var wave := WaveFor(Waves, GameTimeOf(m));
    SpawnBatchContents(m, engineTime, s1.enemyCounter, wave.numEnemies, screen, random);
  }

  /** Entries under other than `enemy_` ids, the player, the controls and
      the statistics among them, are kept as they were. */
  lemma SpawnKeepsOthers(s: SpawnerState, m: Entities, engineTime: nat, screen: Screen, random: nat -> real, id: string)
    requires id in m && !IsEnemyId(id)
    ensures var after := SpawnTick(s, m, engineTime, screen, random).entities;
      id in after && after[id] == m[id]
  {
    var s1 := ResetRule(s, GameTimeOf(m));
    var wave := WaveFor(Waves, GameTimeOf(m));
    SpawnBatchKeys(m, engineTime, s1.enemyCounter, wave.numEnemies, screen, random);
    assert id !in BatchIds(engineTime, s1.enemyCounter, wave.numEnemies);
  }

  /** Every enemy a tick inserts is on a screen edge with both coordinates
      in [20, dim - 20], given random values in [0, 1). */
  lemma SpawnedEnemiesOnEdge(s: SpawnerState, m: Entities, engineTime: nat, screen: Screen, random: nat -> real, id: string)
    requires screen.width >= EnemySize && screen.height >= EnemySize
    requires forall j :: 0.0 <= random(j) < 1.0
    requires id in SpawnTick(s, m, engineTime, screen, random).entities
    requires id !in m || SpawnTick(s, m, engineTime, screen, random).entities[id] != m[id]
    ensures var e := SpawnTick(s, m, engineTime, screen, random).entities[id];
      e.Enemy? && e.position.Some? && e.health == EnemyHealth && e.speed == Some(EnemySpeed)
      && var p := e.position.value;
      (p.x == 20.0 || p.x == screen.width - 20.0 || p.y == 20.0 || p.y == screen.height - 20.0)
      && 20.0 <= p.x <= screen.width - 20.0 && 20.0 <= p.y <= screen.height - 20.0
  {
    var s1 := ResetRule(s, GameTimeOf(m));
    var wave := WaveFor(Waves, GameTimeOf(m));
    SpawnBatchContents(m, engineTime, s1.enemyCounter, wave.numEnemies, screen, random);
    var k: nat :| k < wave.numEnemies && id == BatchId(engineTime, s1.enemyCounter, k);
    EdgePointOnEdge(screen, random(2 * k), random(2 * k + 1));
  }

  lemma SpawnTickKeepsWellKinded(s: SpawnerState, m: Entities, engineTime: nat, screen: Screen, random: nat -> real)
    requires WellKinded(m)
    ensures WellKinded(SpawnTick(s, m, engineTime, screen, random).entities)
  {
    var s1 := ResetRule(s, GameTimeOf(m));
    var wave := WaveFor(Waves, GameTimeOf(m));
    SpawnBatchContents(m, engineTime, s1.enemyCounter, wave.numEnemies, screen, random);
  }
  // ---------------------------------------------------------------------
  // The reset rule over a run of ticks

  /** What a tick takes from the outside: the map it sees, the engine clock
      and the random draws. */
  datatype SpawnInput = SpawnInput(entities: Entities, engineTime: nat, random: nat -> real)

  /** The spawner's state before each tick of a run and after the last. */
  function SpawnStates(s: SpawnerState, inputs: seq<SpawnInput>, screen: Screen): (r: seq<SpawnerState>)
    ensures |r| == |inputs| + 1 && r[0] == s
    decreases |inputs|
  {
    if inputs == [] then [s]
    else [s] + SpawnStates(SpawnTick(s, inputs[0].entities, inputs[0].engineTime, screen, inputs[0].random).state,
                           inputs[1..], screen)
  }

  /** The reset fires on a tick whose game time is at most one second while
      the flag is set. */
  predicate ResetFires(s: SpawnerState, gameTime: nat) {
    gameTime <= 1 && s.gameJustReset
  }

  /** Each state of the run is the tick of the one before. */
  lemma {:induction false} SpawnStatesStep(s: SpawnerState, inputs: seq<SpawnInput>, screen: Screen, k: nat)
    requires k < |inputs|
    ensures var r := SpawnStates(s, inputs, screen);
      r[k + 1] == SpawnTick(r[k], inputs[k].entities, inputs[k].engineTime, screen, inputs[k].random).state
    decreases k
  {
    if k > 0 {
      var next := SpawnTick(s, inputs[0].entities, inputs[0].engineTime, screen, inputs[0].random).state;
      SpawnStatesStep(next, inputs[1..], screen, k - 1);
    }
  }

  /** A tick passes on the flag the reset rule leaves. */
  lemma TickFlag(s: SpawnerState, m: Entities, engineTime: nat, screen: Screen, random: nat -> real)
    ensures SpawnTick(s, m, engineTime, screen, random).state.gameJustReset == ResetRule(s, GameTimeOf(m)).gameJustReset
  {
    SpawnIffCooldownElapsed(s, m, engineTime, screen, random);
  }

  /** Once a reset fires, the flag stays down through every following tick
      whose game time is at most one second. */
  lemma {:induction false} FlagStaysDown(s: SpawnerState, inputs: seq<SpawnInput>, screen: Screen, i: nat, j: nat)
    requires i < j <= |inputs|
    requires ResetFires(SpawnStates(s, inputs, screen)[i], GameTimeOf(inputs[i].entities))
    requires forall k :: i < k < j ==> GameTimeOf(inputs[k].entities) <= 1
    ensures !SpawnStates(s, inputs, screen)[j].gameJustReset
    decreases j - i
  {
    var r := SpawnStates(s, inputs, screen);
    SpawnStatesStep(s, inputs, screen, j - 1);
    TickFlag(r[j - 1], inputs[j - 1].entities, inputs[j - 1].engineTime, screen, inputs[j - 1].random);
    if j - 1 > i {
      FlagStaysDown(s, inputs, screen, i, j - 1);
    }
  }

  /** The reset fires at most once per game: after it fires, it does not
      fire again until some later tick sees a game time above one second. */
  lemma ResetAtMostOncePerGame(s: SpawnerState, inputs: seq<SpawnInput>, screen: Screen, i: nat, j: nat)
    requires i < j < |inputs|
    requires ResetFires(SpawnStates(s, inputs, screen)[i], GameTimeOf(inputs[i].entities))
    requires forall k :: i < k < j ==> GameTimeOf(inputs[k].entities) <= 1
    ensures !ResetFires(SpawnStates(s, inputs, screen)[j], GameTimeOf(inputs[j].entities))
  {
    FlagStaysDown(s, inputs, screen, i, j);
  }

  /** A tick past the first second re-arms the reset: when the next tick
      sees a game time of at most one second again, the reset fires there,
      clearing the timers and the counter. */
  lemma ResetRearms(s: SpawnerState, inputs: seq<SpawnInput>, screen: Screen, i: nat)
    requires i + 1 < |inputs|
    requires GameTimeOf(inputs[i].entities) > 1 && GameTimeOf(inputs[i + 1].entities) <= 1
    ensures var r := SpawnStates(s, inputs, screen);
      ResetFires(r[i + 1], GameTimeOf(inputs[i + 1].entities))
      && ResetRule(r[i + 1], GameTimeOf(inputs[i + 1].entities)) == SpawnerState(map[], 0, false)
  {
    var r := SpawnStates(s, inputs, screen);
    SpawnStatesStep(s, inputs, screen, i);
    TickFlag(r[i], inputs[i].entities, inputs[i].engineTime, screen, inputs[i].random);
  }
}
