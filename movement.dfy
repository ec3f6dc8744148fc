/** MovementSystem: the player moves with the joystick, clamped to the
    screen, and auto-fires a homing bullet at the nearest enemy once per
    second. The module-level `lastFireTime` and `bulletCounter` are the
    fields of `Autofire`. */
module Movement {
  import opened Entities

  const PlayerSize: real := 50.0
  const PlayerSpeed: real := 5.0
  /** Milliseconds between shots. */
  const FireRate: int := 1000
  const BulletSpeed: real := 7.0

  // ---------------------------------------------------------------------
  // Clamped movement

  function Min(a: real, b: real): real { if a <= b then a else b }

  function Max(a: real, b: real): real { if a >= b then a else b }

  /** `Math.max(lo, Math.min(hi, v))` */
  function Clamp(v: real, lo: real, hi: real): (r: real)
    ensures lo <= hi ==> lo <= r <= hi
    ensures lo <= v <= hi ==> r == v
    ensures lo <= hi && v < lo ==> r == lo
    ensures lo <= hi && hi < v ==> r == hi
  {
    Max(lo, Min(hi, v))
  }

  /** The joystick reading, when the controls entry holds one with numeric
      `dx` and `dy`. */
  function Stick(m: Entities): Option<Vec> {
    if ControlsKey in m && m[ControlsKey].Controls? && m[ControlsKey].joystick.Some?
       && m[ControlsKey].joystick.value.dx.Some? && m[ControlsKey].joystick.value.dy.Some?
    then Some(Vec(m[ControlsKey].joystick.value.dx.value, m[ControlsKey].joystick.value.dy.value))
    else None
  }

  /** The player's position after a step of 5 along the stick, each axis
      clamped to [25, dim - 25]. */
  function Step(p: Vec, d: Vec, screen: Screen): Vec {
    var half := PlayerSize / 2.0;
    Vec(Clamp(p.x + d.x * PlayerSpeed, half, screen.width - half),
        Clamp(p.y + d.y * PlayerSpeed, half, screen.height - half))
  }

  /** The map after the movement half of the system. */
  function MovePlayer(m: Entities, screen: Screen): Entities {
    if PlayerKey in m && m[PlayerKey].Player? && m[PlayerKey].position.Some? && Stick(m).Some? then
      var p := m[PlayerKey];
      m[PlayerKey := Player(Some(Step(p.position.value, Stick(m).value, screen)), p.health, p.isGameOverNotified)]
    else m
  }

  // ---------------------------------------------------------------------
  // The nearest enemy

  function DistanceSq(p: Vec, q: Vec): real {
    (p.x - q.x) * (p.x - q.x) + (p.y - q.y) * (p.y - q.y)
  }

  /** An `enemy_` entry with a position: a candidate target. */
  predicate Candidate(m: Entities, id: string) {
    id in m && IsEnemyId(id) && PositionOf(m[id]).Some?
  }

  function DistanceTo(p: Vec, m: Entities, id: string): real
    requires Candidate(m, id)
  {
    DistanceSq(p, PositionOf(m[id]).value)
  }

  /** The candidate nearest to `p` among the keys in `order`, visited in that
      order; a later candidate replaces the current one only when strictly
      nearer. */
  function Nearest(p: Vec, m: Entities, order: seq<string>): (r: Option<string>)
    ensures r.Some? ==> r.value in order && Candidate(m, r.value)
  {
    if order == [] then None
    else
      var r := Nearest(p, m, order[..|order| - 1]);
      var id := order[|order| - 1];
      if Candidate(m, id) && (r.None? || DistanceTo(p, m, id) < DistanceTo(p, m, r.value)) then Some(id)
      else r
  }

  /** The loop with a running minimum; `nearest == None` plays the part of
      the initial `Infinity`. Player and target are read from `m`. */
  method FindNearestEnemy(player: Option<Entity>, m: Entities, order: seq<string>) returns (nearest: Option<string>)
    ensures player.None? || PositionOf(player.value).None? ==> nearest.None?
    ensures player.Some? && PositionOf(player.value).Some? ==>
      nearest == Nearest(PositionOf(player.value).value, m, order)
  {
    nearest := None;
    if player.None? || PositionOf(player.value).None? {
      return;
    }
    var p := PositionOf(player.value).value;
    var minDistanceSq: real := 0.0;
    var i := 0;
    while i < |order|
      invariant 0 <= i <= |order|
      invariant nearest == Nearest(p, m, order[..i])
      invariant nearest.Some? ==> minDistanceSq == DistanceTo(p, m, nearest.value)
    {
      assert order[..i + 1][..i] == order[..i];
      var id := order[i];
      if IsEnemyId(id) && id in m && PositionOf(m[id]).Some? {
        var distanceSq := DistanceSq(p, PositionOf(m[id]).value);
        if nearest.None? || distanceSq < minDistanceSq {
          minDistanceSq := distanceSq;
          nearest := Some(id);
        }
      }
      i := i + 1;
    }
    assert order[..i] == order;
  }

  /** No candidate in `order`, no target; otherwise the target is at least as
      near as every candidate in `order`. */
  lemma {:induction false} NearestIsMinimal(p: Vec, m: Entities, order: seq<string>)
    ensures Nearest(p, m, order).None? <==> forall id :: id in order ==> !Candidate(m, id)
    ensures Nearest(p, m, order).Some? ==>
      forall id :: id in order && Candidate(m, id) ==>
        DistanceTo(p, m, Nearest(p, m, order).value) <= DistanceTo(p, m, id)
  {
    if order != [] {
      var front := order[..|order| - 1];
      NearestIsMinimal(p, m, front);
      assert order == front + [order[|order| - 1]];
    }
  }

  /** Ties go to the candidate visited first: every candidate before the
      target in `order` is strictly farther. */
  lemma {:induction false} NearestTiesGoFirst(p: Vec, m: Entities, order: seq<string>, i: nat, j: nat)
    requires forall a, b :: 0 <= a < b < |order| ==> order[a] != order[b]
    requires j < i < |order| && Nearest(p, m, order) == Some(order[i]) && Candidate(m, order[j])
    ensures DistanceTo(p, m, order[j]) > DistanceTo(p, m, order[i])
  {
    var front := order[..|order| - 1];
    if i == |order| - 1 {
      NearestIsMinimal(p, m, front);
      assert order[j] in front;
    } else {
      assert Nearest(p, m, front) == Some(order[i]);
      NearestTiesGoFirst(p, m, front, i, j);
    }
  }

  // ---------------------------------------------------------------------
  // Auto-fire

  datatype FireState = FireState(lastFireTime: int, bulletCounter: nat)

  datatype MoveTick = MoveTick(state: FireState, entities: Entities)

  /** The bullet fired from `p` at `target`. */
  function NewBullet(p: Vec, target: string): Entity {
    Bullet(Some(p), target, BulletSpeed, false)
  }

  /** The whole tick: move, then fire when more than a second has passed
      and a target exists, from the player's new position. */
  function MovementTick(s: FireState, m: Entities, currentTime: nat, screen: Screen, order: seq<string>): MoveTick {
    var m1 := MovePlayer(m, screen);
    if PlayerKey in m1 && PositionOf(m1[PlayerKey]).Some? && currentTime - s.lastFireTime > FireRate then
      var p := PositionOf(m1[PlayerKey]).value;
      match Nearest(p, m1, order)
      case None => MoveTick(s, m1)
      case Some(target) =>
        MoveTick(FireState(currentTime, s.bulletCounter + 1),
                 m1[BulletId(currentTime, s.bulletCounter + 1) := NewBullet(p, target)])
    else MoveTick(s, m1)
  }

  class Autofire {
    var lastFireTime: int
    var bulletCounter: nat

    function State(): FireState
      reads this
    {
      FireState(lastFireTime, bulletCounter)
    }

    /** The state at module load. */
    constructor()
      ensures State() == FireState(0, 0)
    {
      lastFireTime := 0;
      bulletCounter := 0;
    }

    /** `order` is the order in which the host's map yields its keys. */
    method MovementSystem(entities: Entities, currentTime: nat, screen: Screen, order: seq<string>)
      returns (result: Entities)
      modifies this
      ensures MoveTick(State(), result) == MovementTick(old(State()), entities, currentTime, screen, order)
    {
      result := entities;
      if PlayerKey in result && result[PlayerKey].Player? && result[PlayerKey].position.Some? {
        var stick := Stick(result);
        if stick.Some? {
          var player := result[PlayerKey];
          var half := PlayerSize / 2.0;
          var newX := player.position.value.x + stick.value.x * PlayerSpeed;
          var newY := player.position.value.y + stick.value.y * PlayerSpeed;
          newX := Max(half, Min(screen.width - half, newX));
          newY := Max(half, Min(screen.height - half, newY));
          result := result[PlayerKey := Player(Some(Vec(newX, newY)), player.health, player.isGameOverNotified)];
        }
      }
      if PlayerKey in result && PositionOf(result[PlayerKey]).Some? && currentTime - lastFireTime > FireRate {
        var nearest := FindNearestEnemy(Some(result[PlayerKey]), result, order);
        if nearest.Some? {
          lastFireTime := currentTime;
          bulletCounter := bulletCounter + 1;
          var bulletId := BulletId(currentTime, bulletCounter);
          result := result[bulletId := NewBullet(PositionOf(result[PlayerKey]).value, nearest.value)];
        }
      }
    }
  }

  // ---------------------------------------------------------------------
  // What a tick guarantees

  /** The player stays a player with its health and game-over flag. With a screen at least
      one player wide and high, a moved player ends within [25, dim - 25]
      on both axes; without a joystick reading with numeric components the
      player does not move. */
  lemma PlayerStaysOnScreen(s: FireState, m: Entities, currentTime: nat, screen: Screen, order: seq<string>)
    requires PlayerKey in m && m[PlayerKey].Player?
    ensures var after := MovementTick(s, m, currentTime, screen, order).entities;
      PlayerKey in after && after[PlayerKey].Player?
      && after[PlayerKey].health == m[PlayerKey].health
      && after[PlayerKey].isGameOverNotified == m[PlayerKey].isGameOverNotified
      && after[PlayerKey].position.Some? == m[PlayerKey].position.Some?
      && (m[PlayerKey].position.Some? && Stick(m).Some?
          && screen.width >= PlayerSize && screen.height >= PlayerSize ==>
            var q := after[PlayerKey].position.value;
            25.0 <= q.x <= screen.width - 25.0 && 25.0 <= q.y <= screen.height - 25.0)
      && (Stick(m).None? ==> after[PlayerKey] == m[PlayerKey])
  {
    var m1 := MovePlayer(m, screen);
    assert PlayerKey in m1;
    PlayerKeyIsNoBullet(currentTime, s.bulletCounter + 1);
  }

  lemma PlayerKeyIsNoBullet(t: nat, c: nat)
    ensures BulletId(t, c) != PlayerKey
  {
  }

  /** A shot is fired exactly when more than a second has passed since the
      last one, the player has a position and some `enemy_` entry in `order`
      has one; only then do the shot time and the counter change, the time
      becoming the current time and the counter growing by one. */
  lemma FireIffDueAndTargetExists(s: FireState, m: Entities, currentTime: nat, screen: Screen, order: seq<string>)
    ensures var m1 := MovePlayer(m, screen);
      var fires := PlayerKey in m1 && PositionOf(m1[PlayerKey]).Some? && currentTime - s.lastFireTime > FireRate
                   && exists id :: id in order && Candidate(m1, id);
      var after := MovementTick(s, m, currentTime, screen, order);
      (fires ==> after.state == FireState(currentTime, s.bulletCounter + 1))
      && (!fires ==> after.state == s && after.entities == m1)
  {
    var m1 := MovePlayer(m, screen);
    if PlayerKey in m1 && PositionOf(m1[PlayerKey]).Some? {
      NearestIsMinimal(PositionOf(m1[PlayerKey]).value, m1, order);
    }
  }

  /** At most one key is added: the new bullet, which starts at a copy of
      the player's position after the move, targets the nearest enemy and
      has speed 7. Every entry but the player and the new bullet is left as
      it was. */
  lemma AtMostOneBullet(s: FireState, m: Entities, currentTime: nat, screen: Screen, order: seq<string>)
    ensures var after := MovementTick(s, m, currentTime, screen, order);
      var id := BulletId(currentTime, s.bulletCounter + 1);
      after.entities.Keys <= m.Keys + {id}
      && (forall k :: k in m && k != PlayerKey && k != id ==> k in after.entities && after.entities[k] == m[k])
      && (after.state != s ==>
            var m1 := MovePlayer(m, screen);
            var p := PositionOf(m1[PlayerKey]).value;
            id in after.entities
            && after.entities[id] == NewBullet(p, Nearest(p, m1, order).value)
            && Nearest(p, m1, order).Some?)
  {
    PlayerKeyIsNoBullet(currentTime, s.bulletCounter + 1);
  }

  /** The nearest enemy is chosen among the entries as they are after the
      move, and the move touches only the player, so the target is a
      positioned `enemy_` entry at least as near as any other. */
  lemma BulletTargetsNearest(s: FireState, m: Entities, currentTime: nat, screen: Screen, order: seq<string>)
    requires MovementTick(s, m, currentTime, screen, order).state != s
    ensures var m1 := MovePlayer(m, screen);
      var p := PositionOf(m1[PlayerKey]).value;
      var target := Nearest(p, m1, order).value;
      Candidate(m, target) && m[target] == m1[target]
      && forall id :: id in order && Candidate(m, id) ==> DistanceTo(p, m, target) <= DistanceTo(p, m, id)
  {
    var m1 := MovePlayer(m, screen);
    var p := PositionOf(m1[PlayerKey]).value;
    NearestIsMinimal(p, m1, order);
    assert forall id :: id != PlayerKey ==> (id in m1 <==> id in m) && (id in m ==> m1[id] == m[id]);
    assert forall id :: Candidate(m, id) <==> Candidate(m1, id) by {
      assert !IsEnemyId(PlayerKey) by { assert PlayerKey[0] == 'p'; }
    }
  }

  /** When `order` visits every key of the map, as the host's for-in loop
      does, the rules above speak of every enemy in the map: a due shot is
      fired exactly when some `enemy_` entry has a position, and its target
      is as near the moved player as every such entry. */
  lemma TargetAmongAllEnemies(s: FireState, m: Entities, currentTime: nat, screen: Screen, order: seq<string>)
    requires forall id :: id in m ==> id in order
    ensures var m1 := MovePlayer(m, screen);
      var after := MovementTick(s, m, currentTime, screen, order);
      PlayerKey in m1 && PositionOf(m1[PlayerKey]).Some? && currentTime - s.lastFireTime > FireRate ==>
        (after.state != s <==> exists id :: Candidate(m, id))
        && (after.state != s ==>
              var p := PositionOf(m1[PlayerKey]).value;
              var target := Nearest(p, m1, order).value;
              Candidate(m, target)
              && forall id :: Candidate(m, id) ==> DistanceTo(p, m, target) <= DistanceTo(p, m, id))
  {
    var m1 := MovePlayer(m, screen);
    assert forall id :: Candidate(m, id) <==> Candidate(m1, id) by {
      assert !IsEnemyId(PlayerKey) by { assert PlayerKey[0] == 'p'; }
    }
    if PlayerKey in m1 && PositionOf(m1[PlayerKey]).Some? && currentTime - s.lastFireTime > FireRate {
      var p := PositionOf(m1[PlayerKey]).value;
      NearestIsMinimal(p, m1, order);
      FireIffDueAndTargetExists(s, m, currentTime, screen, order);
      if MovementTick(s, m, currentTime, screen, order).state != s {
        BulletTargetsNearest(s, m, currentTime, screen, order);
      }
    }
  }

  /** Every bullet id in the map was minted with a counter value at most
      `counter`. */
  ghost predicate IssuedUpTo(m: Entities, counter: nat) {
    forall t: nat, c: nat :: BulletId(t, c) in m ==> c <= counter
  }

  /** Bullet ids never repeat: when every bullet id in the map was minted
      with a counter at most the current one, the new bullet's id is not in
      the map, and the property holds again afterwards. */
  lemma FreshBulletId(s: FireState, m: Entities, currentTime: nat, screen: Screen, order: seq<string>)
    requires IssuedUpTo(m, s.bulletCounter)
    ensures BulletId(currentTime, s.bulletCounter + 1) !in m
    ensures var after := MovementTick(s, m, currentTime, screen, order);
      IssuedUpTo(after.entities, after.state.bulletCounter)
  {
    var after := MovementTick(s, m, currentTime, screen, order);
    AtMostOneBullet(s, m, currentTime, screen, order);
    forall t: nat, c: nat | BulletId(t, c) in after.entities
      ensures c <= after.state.bulletCounter
    {
      if BulletId(t, c) == BulletId(currentTime, s.bulletCounter + 1) {
        BulletIdInjective(t, c, currentTime, s.bulletCounter + 1);
      } else {
        PlayerKeyIsNoBullet(t, c);
      }
    }
  }

  lemma MovementKeepsWellKinded(s: FireState, m: Entities, currentTime: nat, screen: Screen, order: seq<string>)
    requires WellKinded(m)
    ensures WellKinded(MovementTick(s, m, currentTime, screen, order).entities)
  {
  }
}
