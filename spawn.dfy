/** The engine's wave spawner (engine/spawn.js): a clock that advances by
    each frame's delta and, when it reaches the next wave's start time,
    hands out one enemy record per known type of that wave. The
    module-level `gameTime` and `waveIndex` are the fields of
    `WaveSpawner`; the waves and enemy tables are parameters. */
module EngineSpawn {
  import opened Entities

  /** An entry of the waves table: start time and enemy types. */
  datatype WaveData = WaveData(time: real, types: seq<string>)

  /** An entry of the enemies table. */
  datatype EnemyData = EnemyData(enemyType: string, hp: int, speed: real)

  /** A spawned enemy record; its random id is not modelled. */
  datatype SpawnedEnemy = SpawnedEnemy(enemyType: string, hp: int, speed: real, position: Vec)

  /** The first entry of the table with the given type, as `Array.find`. */
  function FindEnemyData(enemies: seq<EnemyData>, t: string): (r: Option<EnemyData>)
    ensures r.Some? ==> r.value in enemies && r.value.enemyType == t
    ensures r.None? <==> forall d :: d in enemies ==> d.enemyType != t
  {
    if enemies == [] then None
    else if enemies[0].enemyType == t then Some(enemies[0])
    else FindEnemyData(enemies[1..], t)
  }

  /** When several entries share a type, the earliest one is used. */
  lemma {:induction false} FindEnemyDataTakesFirst(enemies: seq<EnemyData>, t: string, i: nat)
    requires i < |enemies| && enemies[i].enemyType == t
    requires forall j :: 0 <= j < i ==> enemies[j].enemyType != t
    ensures FindEnemyData(enemies, t) == Some(enemies[i])
  {
    if i > 0 {
      assert enemies[0].enemyType != t;
      FindEnemyDataTakesFirst(enemies[1..], t, i - 1);
    }
  }

  /** A fresh record for an entry of the table, placed at (0, 0). */
  function Instantiate(d: EnemyData): SpawnedEnemy {
    SpawnedEnemy(d.enemyType, d.hp, d.speed, Vec(0.0, 0.0))
  }

  /** The records for a wave's types, in order, skipping unknown types. */
  function SpawnList(types: seq<string>, enemies: seq<EnemyData>): (r: seq<SpawnedEnemy>)
    ensures |r| <= |types|
  {
    if types == [] then []
    else
      SpawnList(types[..|types| - 1], enemies) +
      match FindEnemyData(enemies, types[|types| - 1])
      case None => []
      case Some(d) => [Instantiate(d)]
  }

  /** The listed types that have a table entry, in the wave's order. */
  function Known(types: seq<string>, enemies: seq<EnemyData>): (r: seq<string>)
    ensures forall t :: t in r ==> t in types && FindEnemyData(enemies, t).Some?
  {
    if types == [] then []
    else
      var last := types[|types| - 1];
      Known(types[..|types| - 1], enemies) + (if FindEnemyData(enemies, last).Some? then [last] else [])
  }

  datatype SpawnState = SpawnState(gameTime: real, waveIndex: nat)

  datatype SpawnResult = SpawnResult(state: SpawnState, spawned: seq<SpawnedEnemy>)

  /** One call: advance the clock, then release the next wave when its
      start time has been reached. */
  function SpawnStep(s: SpawnState, deltaTime: real, waves: seq<WaveData>, enemies: seq<EnemyData>): SpawnResult {
    var t := s.gameTime + deltaTime;
    if s.waveIndex < |waves| && t >= waves[s.waveIndex].time then
      SpawnResult(SpawnState(t, s.waveIndex + 1), SpawnList(waves[s.waveIndex].types, enemies))
    else
      SpawnResult(SpawnState(t, s.waveIndex), [])
  }

  class WaveSpawner {
    var gameTime: real
    var waveIndex: nat

    function State(): SpawnState
      reads this
    {
      SpawnState(gameTime, waveIndex)
    }

    /** The state at module load. */
    constructor()
      ensures State() == SpawnState(0.0, 0)
    {
      gameTime := 0.0;
      waveIndex := 0;
    }

    method SpawnEnemies(deltaTime: real, wavesData: seq<WaveData>, enemiesData: seq<EnemyData>)
      returns (enemiesToSpawn: seq<SpawnedEnemy>)
      modifies this
      ensures SpawnResult(State(), enemiesToSpawn) == SpawnStep(old(State()), deltaTime, wavesData, enemiesData)
    {
      gameTime := gameTime + deltaTime;
      enemiesToSpawn := [];
      if waveIndex < |wavesData| && gameTime >= wavesData[waveIndex].time {
        var wave := wavesData[waveIndex];
        for i := 0 to |wave.types|
          invariant enemiesToSpawn == SpawnList(wave.types[..i], enemiesData)
        {
          assert wave.types[..i + 1][..i] == wave.types[..i];
          var enemyData := FindEnemyData(enemiesData, wave.types[i]);
          if enemyData.Some? {
            var newEnemy := Instantiate(enemyData.value);
            enemiesToSpawn := enemiesToSpawn + [newEnemy];
          }
        }
        assert wave.types[..|wave.types|] == wave.types;
        waveIndex := waveIndex + 1;
      }
    }

    /** Back to the start of a game. */
    method ResetSpawn()
      modifies this
      ensures State() == SpawnState(0.0, 0)
    {
      gameTime := 0.0;
      waveIndex := 0;
    }
  }

  // ---------------------------------------------------------------------
  // What the spawner guarantees

  /** Every record comes from a table entry whose type the wave lists, and
      is placed at (0, 0). */
  lemma {:induction false} SpawnedFromTable(types: seq<string>, enemies: seq<EnemyData>)
    ensures forall x :: x in SpawnList(types, enemies) ==>
      x.position == Vec(0.0, 0.0) &&
      exists d :: d in enemies && d.enemyType in types && x == Instantiate(d)
  {
    if types != [] {
      var front := types[..|types| - 1];
      SpawnedFromTable(front, enemies);
      assert forall t :: t in front ==> t in types;
    }
  }

  /** Nothing is spawned exactly when no listed type is in the table. */
  lemma {:induction false} NothingSpawnedIffAllUnknown(types: seq<string>, enemies: seq<EnemyData>)
    ensures SpawnList(types, enemies) == [] <==> forall t :: t in types ==> FindEnemyData(enemies, t).None?
  {
    if types != [] {
      var front := types[..|types| - 1];
      var last := types[|types| - 1];
      NothingSpawnedIffAllUnknown(front, enemies);
      assert types == front + [last];
      if FindEnemyData(enemies, last).Some? {
        assert |SpawnList(types, enemies)| == |SpawnList(front, enemies)| + 1;
        assert last in types;
      }
    }
  }

  /** When every listed type is in the table there is one record per type,
      in the order the wave lists them. */
  lemma {:induction false} OneRecordPerKnownType(types: seq<string>, enemies: seq<EnemyData>)
    requires forall t :: t in types ==> FindEnemyData(enemies, t).Some?
    ensures |SpawnList(types, enemies)| == |types|
    ensures forall i :: 0 <= i < |types| ==>
      SpawnList(types, enemies)[i] == Instantiate(FindEnemyData(enemies, types[i]).value)
  {
    if types != [] {
      var front := types[..|types| - 1];
      var last := types[|types| - 1];
      assert forall t :: t in front ==> t in types;
      OneRecordPerKnownType(front, enemies);
      assert last in types;
      var r := SpawnList(types, enemies);
      assert r == SpawnList(front, enemies) + [Instantiate(FindEnemyData(enemies, last).value)];
      forall i | 0 <= i < |types|
        ensures r[i] == Instantiate(FindEnemyData(enemies, types[i]).value)
      {
        if i < |front| {
          assert types[i] == front[i];
        }
      }
    }
  }

  /** In any wave, known and unknown types mixed, there is one record per
      known type, in the wave's order, each copied from the first table
      entry of its type; unknown types are skipped. */
  lemma {:induction false} SpawnListIsKnownTypes(types: seq<string>, enemies: seq<EnemyData>)
    ensures |SpawnList(types, enemies)| == |Known(types, enemies)|
    ensures forall i :: 0 <= i < |Known(types, enemies)| ==>
      SpawnList(types, enemies)[i] == Instantiate(FindEnemyData(enemies, Known(types, enemies)[i]).value)
  {
    if types != [] {
      SpawnListIsKnownTypes(types[..|types| - 1], enemies);
    }
  }

  /** The clock always advances by the delta; the wave index grows by one
      exactly when a wave is released, and never passes the table's end. */
  lemma StepAdvances(s: SpawnState, deltaTime: real, waves: seq<WaveData>, enemies: seq<EnemyData>)
    requires s.waveIndex <= |waves|
    ensures var r := SpawnStep(s, deltaTime, waves, enemies);
      r.state.gameTime == s.gameTime + deltaTime
      && r.state.waveIndex <= |waves|
      && (r.state.waveIndex == s.waveIndex + 1 <==>
            s.waveIndex < |waves| && s.gameTime + deltaTime >= waves[s.waveIndex].time)
      && (r.state.waveIndex != s.waveIndex + 1 ==> r.state.waveIndex == s.waveIndex && r.spawned == [])
  {
  }

  /** Several calls in a row: the final state, and the indices of the waves
      released, in order. */
  datatype RunResult = RunResult(state: SpawnState, released: seq<nat>)

  function Run(s: SpawnState, deltas: seq<real>, waves: seq<WaveData>, enemies: seq<EnemyData>): RunResult
    decreases |deltas|
  {
    if deltas == [] then RunResult(s, [])
    else
      var next := SpawnStep(s, deltas[0], waves, enemies).state;
      var rest := Run(next, deltas[1..], waves, enemies);
      RunResult(rest.state, (if next.waveIndex != s.waveIndex then [s.waveIndex] else []) + rest.released)
  }

  /** Waves are released in table order, each at most once, and only
      waves of the table. */
  lemma {:induction false} EachWaveOnce(s: SpawnState, deltas: seq<real>, waves: seq<WaveData>, enemies: seq<EnemyData>)
    requires s.waveIndex <= |waves|
    decreases |deltas|
    ensures var r := Run(s, deltas, waves, enemies);
      r.state.waveIndex == s.waveIndex + |r.released| && r.state.waveIndex <= |waves|
      && (forall i, j :: 0 <= i < j < |r.released| ==> r.released[i] < r.released[j])
      && (forall i :: 0 <= i < |r.released| ==> s.waveIndex <= r.released[i] < r.state.waveIndex)
  {
    if deltas != [] {
      var next := SpawnStep(s, deltas[0], waves, enemies).state;
      StepAdvances(s, deltas[0], waves, enemies);
      EachWaveOnce(next, deltas[1..], waves, enemies);
    }
  }

  /** With non-negative deltas the clock never runs backwards. */
  lemma {:induction false} ClockMonotone(s: SpawnState, deltas: seq<real>, waves: seq<WaveData>, enemies: seq<EnemyData>)
    requires forall i :: 0 <= i < |deltas| ==> deltas[i] >= 0.0
    ensures Run(s, deltas, waves, enemies).state.gameTime >= s.gameTime
    decreases |deltas|
  {
    if deltas != [] {
      var next := SpawnStep(s, deltas[0], waves, enemies).state;
      ClockMonotone(next, deltas[1..], waves, enemies);
    }
  }
}
