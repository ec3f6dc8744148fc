/** BulletMovementSystem: homing bullets fly toward their target's current
    position; bullets whose target is gone, and bullets that leave the
    screen, are deleted. */
module BulletMovement {
  import opened Entities
  import opened Geometry

  /** The margin of the off-screen test (the bullet's drawn size). */
  const BulletSize: real := 10.0

  /** `targetEnemy && targetEnemy.position && targetEnemy.health > 0` */
  predicate TargetAlive(m: Entities, target: string) {
    target in m && PositionOf(m[target]).Some? && HealthOf(m[target]).Some? && HealthOf(m[target]).value > 0
  }

  /** Outside the screen grown by BulletSize on every side. */
  predicate OffScreen(p: Vec, screen: Screen) {
    p.x < -BulletSize || p.x > screen.width + BulletSize ||
    p.y < -BulletSize || p.y > screen.height + BulletSize
  }

  /** What one bullet becomes: None when it is deleted. A bullet is still a
      bullet with the same target, speed and flag afterwards. */
  function Fly(m: Entities, b: Entity, screen: Screen, length: Vec -> real): (r: Option<Entity>)
    requires b.Bullet?
    ensures r.Some? ==> r.value.Bullet? && r.value.targetEnemyId == b.targetEnemyId
                        && r.value.bulletSpeed == b.bulletSpeed && r.value.collided == b.collided
  {
    if b.position.None? || b.collided then Some(b)
    else if !TargetAlive(m, b.targetEnemyId) then None
    else
      var p := b.position.value;
      var d := Toward(p, PositionOf(m[b.targetEnemyId]).value);
      var magnitude := length(d);
      if magnitude > 0.0 then
        var q := Advance(p, d, magnitude, b.bulletSpeed);
        if OffScreen(q, screen) then None
        else Some(Bullet(Some(q), b.targetEnemyId, b.bulletSpeed, b.collided))
      else Some(b)
  }

  /** The map after the system has run. */
  function FlyAll(m: Entities, screen: Screen, length: Vec -> real): Entities {
    map id | id in m && (IsBulletAt(m, id) ==> Fly(m, m[id], screen, length).Some?)
      :: if IsBulletAt(m, id) then Fly(m, m[id], screen, length).value else m[id]
  }

  /** Bullets never count as alive targets, so a map that agrees with `m`
      everywhere except on bullets has the same live targets. */
  lemma SameLiveTargets(m: Entities, r: Entities, target: string)
    requires forall id :: id in r ==> id in m
    requires forall id :: id in m && !IsBulletAt(m, id) ==> id in r && r[id] == m[id]
    requires forall id :: id in r && IsBulletAt(m, id) ==> r[id].Bullet?
    ensures TargetAlive(r, target) <==> TargetAlive(m, target)
  {
  }

  method BulletMovementSystem(entities: Entities, screen: Screen, length: Vec -> real)
    returns (result: Entities)
    ensures result == FlyAll(entities, screen, length)
  {
    result := entities;
    var todo := entities.Keys;
    while todo != {}
      invariant todo <= entities.Keys
      invariant forall id :: id in result ==> id in entities
      invariant forall id :: id in entities && (id in todo || !IsBulletAt(entities, id)) ==>
        id in result && result[id] == entities[id]
      invariant forall id :: id in entities && id !in todo && IsBulletAt(entities, id) ==>
        (id in result <==> Fly(entities, entities[id], screen, length).Some?) &&
        (id in result ==> result[id] == Fly(entities, entities[id], screen, length).value)
      decreases todo
    {
      var id :| id in todo;
      todo := todo - {id};
      if IsBulletId(id) && result[id].Bullet? {
        var bullet := result[id];
        if bullet.position.Some? && !bullet.collided {
          var target := bullet.targetEnemyId;
          SameLiveTargets(entities, result, target);
          if target in result && PositionOf(result[target]).Some?
             && HealthOf(result[target]).Some? && HealthOf(result[target]).value > 0
          {
            var p := bullet.position.value;
            var d := Toward(p, PositionOf(result[target]).value);
            var magnitude := length(d);
            if magnitude > 0.0 {
              var q := Advance(p, d, magnitude, bullet.bulletSpeed);
              result := result[id := Bullet(Some(q), target, bullet.bulletSpeed, bullet.collided)];
              if OffScreen(q, screen) {
                result := result - {id};
              }
            }
          } else {
            result := result - {id};
          }
        }
      }
    }
  }

  /** No entity is added, and every entry that is not a bullet is untouched,
      the target enemies included. */
  lemma FlyAllTouchesOnlyBullets(m: Entities, screen: Screen, length: Vec -> real)
    ensures FlyAll(m, screen, length).Keys <= m.Keys
    ensures forall id :: id in m && !IsBulletAt(m, id) ==>
      id in FlyAll(m, screen, length) && FlyAll(m, screen, length)[id] == m[id]
  {
  }

  /** A bullet already marked as collided, or without a position, is neither
      moved nor deleted. */
  lemma ParkedBulletStays(m: Entities, screen: Screen, length: Vec -> real, id: string)
    requires IsBulletAt(m, id)
    requires m[id].position.None? || m[id].collided
    ensures id in FlyAll(m, screen, length) && FlyAll(m, screen, length)[id] == m[id]
  {
  }

  /** A bullet whose target is missing, has no position or has no health
      left is deleted. */
  lemma LostTargetDeletesBullet(m: Entities, screen: Screen, length: Vec -> real, id: string)
    requires IsBulletAt(m, id) && m[id].position.Some? && !m[id].collided
    requires !TargetAlive(m, m[id].targetEnemyId)
    ensures id !in FlyAll(m, screen, length)
  {
  }

  /** A bullet exactly on its live target's position is neither moved nor
      deleted. */
  lemma ArrivedBulletStays(m: Entities, screen: Screen, length: Vec -> real, id: string)
    requires IsLength(length)
    requires IsBulletAt(m, id) && m[id].position.Some? && !m[id].collided
    requires TargetAlive(m, m[id].targetEnemyId)
    requires PositionOf(m[m[id].targetEnemyId]) == m[id].position
    ensures id in FlyAll(m, screen, length) && FlyAll(m, screen, length)[id] == m[id]
  {
    MagnitudePositiveIff(m[id].position.value, m[id].position.value, length);
  }

  /** A bullet that steps toward a live target is kept exactly when its new
      position is on the grown screen, and then it is at that new position. */
  lemma SteppedBulletCulledIffOffScreen(m: Entities, screen: Screen, length: Vec -> real, id: string)
    requires IsLength(length)
    requires IsBulletAt(m, id) && m[id].position.Some? && !m[id].collided
    requires TargetAlive(m, m[id].targetEnemyId)
    requires PositionOf(m[m[id].targetEnemyId]) != m[id].position
    ensures var p := m[id].position.value;
            var d := Toward(p, PositionOf(m[m[id].targetEnemyId]).value);
            length(d) > 0.0 &&
            var q := Advance(p, d, length(d), m[id].bulletSpeed);
            (id in FlyAll(m, screen, length) <==> !OffScreen(q, screen)) &&
            (id in FlyAll(m, screen, length) ==> FlyAll(m, screen, length)[id].position == Some(q))
  {
    MagnitudePositiveIff(m[id].position.value, PositionOf(m[m[id].targetEnemyId]).value, length);
  }

  lemma FlyAllKeepsWellKinded(m: Entities, screen: Screen, length: Vec -> real)
    requires WellKinded(m)
    ensures WellKinded(FlyAll(m, screen, length))
  {
  }
}
