/** EnemyAISystem: every enemy takes one step of its own speed toward the
    player's current position. */
module EnemyAI {
  import opened Entities
  import opened Geometry

  /** `entities.player.position`, when there is a player and it has one. */
  function PlayerPosition(m: Entities): Option<Vec> {
    if PlayerKey in m then PositionOf(m[PlayerKey]) else None
  }

  /** What one enemy becomes: it moves only when it has a position and a
      numeric speed and is not already on the target. */
  function Chase(e: Entity, target: Vec, length: Vec -> real): Entity
    requires e.Enemy?
  {
    if e.position.None? || e.speed.None? then e
    else
      var d := Toward(e.position.value, target);
      var magnitude := length(d);
      if magnitude > 0.0 then
        Enemy(Some(Advance(e.position.value, d, magnitude, e.speed.value)), e.health, e.speed)
      else e
  }

  /** The map after the system has run. */
  function ChaseAll(m: Entities, length: Vec -> real): Entities {
    match PlayerPosition(m)
    case None => m
    case Some(target) =>
      map id | id in m :: if IsEnemyAt(m, id) then Chase(m[id], target, length) else m[id]
  }

  method EnemyAISystem(entities: Entities, length: Vec -> real) returns (result: Entities)
    ensures result == ChaseAll(entities, length)
  {
    result := entities;
    var player := PlayerPosition(entities);
    if player.None? {
      return;
    }
    var target := player.value;
    var todo := entities.Keys;
    while todo != {}
      invariant todo <= entities.Keys
      invariant result.Keys == entities.Keys
      invariant forall id :: id in entities ==>
        result[id] == if id in todo || !IsEnemyAt(entities, id) then entities[id]
                      else Chase(entities[id], target, length)
      decreases todo
    {
      var id :| id in todo;
      todo := todo - {id};
      if IsEnemyId(id) && result[id].Enemy? {
        var enemy := result[id];
        if enemy.position.Some? && enemy.speed.Some? {
          var d := Toward(enemy.position.value, target);
          var magnitude := length(d);
          if magnitude > 0.0 {
            var moved := Advance(enemy.position.value, d, magnitude, enemy.speed.value);
            result := result[id := Enemy(Some(moved), enemy.health, enemy.speed)];
          }
        }
      }
    }
  }

  /** No key is added or removed, and without a positioned player nothing
      changes at all. */
  lemma ChaseAllKeepsKeys(m: Entities, length: Vec -> real)
    ensures ChaseAll(m, length).Keys == m.Keys
    ensures PlayerPosition(m).None? ==> ChaseAll(m, length) == m
  {
  }

  /** Only enemy entries that have a position and a numeric speed can change;
      in particular the player and every non-enemy entry are left as they are. */
  lemma ChaseAllMovesOnlyEnemies(m: Entities, length: Vec -> real, id: string)
    requires id in m
    requires ChaseAll(m, length)[id] != m[id]
    ensures IsEnemyAt(m, id) && m[id].position.Some? && m[id].speed.Some?
    ensures ChaseAll(m, length)[id].Enemy?
    ensures ChaseAll(m, length)[id].health == m[id].health
    ensures ChaseAll(m, length)[id].speed == m[id].speed
  {
  }

  /** An enemy standing exactly on the player does not move. */
  lemma EnemyOnPlayerStays(m: Entities, length: Vec -> real, id: string)
    requires IsLength(length)
    requires IsEnemyAt(m, id) && PlayerPosition(m).Some?
    requires m[id].position == PlayerPosition(m)
    ensures ChaseAll(m, length)[id] == m[id]
  {
    MagnitudePositiveIff(m[id].position.value, PlayerPosition(m).value, length);
  }

  /** A moving enemy with positive speed steps toward the player on each axis:
      each coordinate changes with the sign of the player's offset. */
  lemma ChaseMovesTowardPlayer(m: Entities, length: Vec -> real, id: string)
    requires IsLength(length)
    requires IsEnemyAt(m, id) && PlayerPosition(m).Some?
    requires m[id].position.Some? && m[id].speed.Some? && m[id].speed.value > 0.0
    requires m[id].position != PlayerPosition(m)
    ensures ChaseAll(m, length)[id].position.Some?
    ensures Sign(ChaseAll(m, length)[id].position.value.x - m[id].position.value.x)
         == Sign(PlayerPosition(m).value.x - m[id].position.value.x)
    ensures Sign(ChaseAll(m, length)[id].position.value.y - m[id].position.value.y)
         == Sign(PlayerPosition(m).value.y - m[id].position.value.y)
  {
    var p, target := m[id].position.value, PlayerPosition(m).value;
    var d := Toward(p, target);
    MagnitudePositiveIff(p, target, length);
    AdvanceFollowsSign(p, d, length(d), m[id].speed.value);
  }

  lemma ChaseAllKeepsWellKinded(m: Entities, length: Vec -> real)
    requires WellKinded(m)
    ensures WellKinded(ChaseAll(m, length))
  {
  }
}
