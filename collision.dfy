/** CollisionSystem: bullet-versus-enemy and player-versus-enemy overlap tests,
    summed damage, deletion of spent bullets and defeated enemies, and the
    ADD_SCORE and one-shot GAME_OVER events.

    The system runs in six phases over the same map; each phase is a method
    proved against a function of its input, and `CollisionSystem` is proved
    equal to `AfterCollision`/`CollisionEvents`, closed forms stated on the map
    as it was when the tick began. The properties are lemmas on the closed
    forms. */
module Collision {
  import opened Entities

  /** A box's extent, centred on the entity's position. */
  datatype Box = Box(width: real, height: real)

  const PlayerBox: Box := Box(40.0, 40.0)
  const EnemyBox: Box := Box(40.0, 40.0)
  const BulletBox: Box := Box(10.0, 10.0)

  const BulletDamage: int := 10
  const EnemyContactDamage: int := 10
  const EnemyDefeatScore: int := 10

  function Abs(r: real): real {
    if r < 0.0 then -r else r
  }

  // ---------------------------------------------------------------------
  // The overlap test

  /** Two boxes collide exactly when both entities have a position and the
      centres are closer than the half-extents summed, strictly, on each axis. */
  function CheckAABBCollision(a: Option<Vec>, b: Option<Vec>, sizeA: Box, sizeB: Box): (r: bool)
    ensures r <==> a.Some? && b.Some?
                   && 2.0 * Abs(a.value.x - b.value.x) < sizeA.width + sizeB.width
                   && 2.0 * Abs(a.value.y - b.value.y) < sizeA.height + sizeB.height
  {
    if a.None? || b.None? then false
    else
      var aLeft := a.value.x - sizeA.width / 2.0;
      var aRight := a.value.x + sizeA.width / 2.0;
      var aTop := a.value.y - sizeA.height / 2.0;
      var aBottom := a.value.y + sizeA.height / 2.0;
      var bLeft := b.value.x - sizeB.width / 2.0;
      var bRight := b.value.x + sizeB.width / 2.0;
      var bTop := b.value.y - sizeB.height / 2.0;
      var bBottom := b.value.y + sizeB.height / 2.0;
      aLeft < bRight && aRight > bLeft && aTop < bBottom && aBottom > bTop
  }

  /** The test does not depend on which entity comes first. */
  lemma AABBSymmetric(a: Option<Vec>, b: Option<Vec>, sizeA: Box, sizeB: Box)
    ensures CheckAABBCollision(a, b, sizeA, sizeB) == CheckAABBCollision(b, a, sizeB, sizeA)
  {
    if a.Some? && b.Some? {
      assert Abs(a.value.x - b.value.x) == Abs(b.value.x - a.value.x);
      assert Abs(a.value.y - b.value.y) == Abs(b.value.y - a.value.y);
    }
  }

  /** Boxes that only share an edge do not collide. */
  lemma TouchingEdgesDoNotCollide(a: Vec, b: Vec, sizeA: Box, sizeB: Box)
    requires 2.0 * Abs(a.x - b.x) == sizeA.width + sizeB.width
          || 2.0 * Abs(a.y - b.y) == sizeA.height + sizeB.height
    ensures !CheckAABBCollision(Some(a), Some(b), sizeA, sizeB)
  {
  }

  // ---------------------------------------------------------------------
  // What the tick decides, stated on the map as the tick found it

  /** A bullet that is still tested: not already marked as collided. */
  predicate LiveBullet(m: Entities, b: string) {
    IsBulletAt(m, b) && !m[b].collided
  }

  /** An enemy that can still be hit: health above zero. */
  predicate LiveEnemy(m: Entities, e: string) {
    IsEnemyAt(m, e) && m[e].health > 0
  }

  predicate Hits(m: Entities, b: string, e: string) {
    LiveBullet(m, b) && LiveEnemy(m, e)
    && CheckAABBCollision(m[b].position, m[e].position, BulletBox, EnemyBox)
  }

  /** The bullets among `bullets` that hit enemy `e`. */
  function HitSet(m: Entities, bullets: set<string>, e: string): set<string> {
    set b | b in bullets && Hits(m, b, e)
  }

  /** The damage `e` takes this tick: 10 per bullet overlapping it. */
  function Damage(m: Entities, e: string): int {
    BulletDamage * |HitSet(m, m.Keys, e)|
  }

  /** The damage table the first phase builds. */
  function Tally(m: Entities): map<string, int> {
    map e | e in m && Damage(m, e) > 0 :: Damage(m, e)
  }

  /** A bullet that hit at least one enemy. */
  predicate Spent(m: Entities, b: string) {
    exists e :: e in m && Hits(m, b, e)
  }

  /** An enemy whose summed damage brings its health to zero or below. */
  predicate Defeated(m: Entities, e: string) {
    IsEnemyAt(m, e) && Damage(m, e) > 0 && m[e].health - Damage(m, e) <= 0
  }

  function DefeatedSet(m: Entities): set<string> {
    set e | e in m && Defeated(m, e)
  }

  /** The player takes contact damage only if present, placed and alive. */
  predicate PlayerExposed(m: Entities) {
    PlayerKey in m && m[PlayerKey].Player? && m[PlayerKey].position.Some? && m[PlayerKey].health > 0
  }

  predicate Touches(m: Entities, e: string) {
    PlayerKey in m && LiveEnemy(m, e)
    && CheckAABBCollision(PositionOf(m[PlayerKey]), m[e].position, PlayerBox, EnemyBox)
  }

  function Touchers(m: Entities, enemies: set<string>): set<string> {
    set e | e in enemies && Touches(m, e)
  }

  /** 10 per live enemy overlapping an exposed player. */
  function ContactDamage(m: Entities): int {
    if PlayerExposed(m) then EnemyContactDamage * |Touchers(m, m.Keys)| else 0
  }

  /** The player after the tick: contact damage taken, and the game-over flag
      raised once health is at or below zero. */
  function PlayerAfter(m: Entities): Entity
    requires PlayerKey in m && m[PlayerKey].Player?
  {
    var p := m[PlayerKey];
    var health := p.health - ContactDamage(m);
    Player(p.position, health, p.isGameOverNotified || health <= 0)
  }

  /** GAME_OVER is dispatched when health is at or below zero after contact
      damage and the player has not been notified yet. */
  predicate GameOverFires(m: Entities) {
    PlayerKey in m && m[PlayerKey].Player?
    && m[PlayerKey].health - ContactDamage(m) <= 0 && !m[PlayerKey].isGameOverNotified
  }

  /** The map after the system has run. */
  function AfterCollision(m: Entities): Entities {
    map id | id in m && !Spent(m, id) && !Defeated(m, id) ::
      if id == PlayerKey && m[id].Player? then PlayerAfter(m)
      else if IsEnemyAt(m, id) && Damage(m, id) > 0 then
        Enemy(m[id].position, m[id].health - Damage(m, id), m[id].speed)
      else m[id]
  }

  /** The events dispatched: one ADD_SCORE of 10 per defeated enemy, then
      GAME_OVER when it fires. */
  function CollisionEvents(m: Entities): seq<Event> {
    seq(|DefeatedSet(m)|, _ => AddScore(EnemyDefeatScore))
    + (if GameOverFires(m) then [GameOver] else [])
  }

  // ---------------------------------------------------------------------
  // Phase 1: bullets against enemies

  /** Every bullet that hit something, marked as collided. */
  function MarkSpent(m: Entities): Entities {
    map id | id in m ::
      if Spent(m, id) then Bullet(m[id].position, m[id].targetEnemyId, m[id].bulletSpeed, true)
      else m[id]
  }

  function Get(table: map<string, int>, k: string): int {
    if k in table then table[k] else 0
  }

  /** `damage` holds, for every enemy hit by a bullet in `done`, 10 per such
      bullet, and has no other key. */
  ghost predicate DamageCounts(m: Entities, done: set<string>, damage: map<string, int>) {
    forall e ::
      (e in damage <==> e in m && HitSet(m, done, e) != {}) &&
      (e in damage ==> damage[e] == BulletDamage * |HitSet(m, done, e)|)
  }

  lemma HitSetGrows(m: Entities, done: set<string>, b: string, e: string)
    requires b !in done
    ensures |HitSet(m, done + {b}, e)| == |HitSet(m, done, e)| + (if Hits(m, b, e) then 1 else 0)
  {
    assert HitSet(m, done + {b}, e) == HitSet(m, done, e) + (if Hits(m, b, e) then {b} else {});
  }

  /** Crediting one more bullet's hits to a table that counts the bullets in
      `done` gives the table that counts `done + {b}`. */
  lemma CreditStep(m: Entities, done: set<string>, b: string, damage0: map<string, int>, damage: map<string, int>)
    requires b !in done && DamageCounts(m, done, damage0)
    requires forall e :: e in damage <==> e in damage0 || Hits(m, b, e)
    requires forall e :: e in damage ==> damage[e] == Get(damage0, e) + (if Hits(m, b, e) then BulletDamage else 0)
    ensures DamageCounts(m, done + {b}, damage)
  {
    forall e | true
      ensures (e in damage <==> e in m && HitSet(m, done + {b}, e) != {})
      ensures e in damage ==> damage[e] == BulletDamage * |HitSet(m, done + {b}, e)|
    {
      HitSetGrows(m, done, b, e);
      if Hits(m, b, e) {
        assert b in HitSet(m, done + {b}, e);
      }
    }
  }

  /** Once every key has been visited the table is the damage table. */
  lemma TallyComplete(m: Entities, damage: map<string, int>)
    requires DamageCounts(m, m.Keys, damage)
    ensures damage == Tally(m)
  {
  }

  /** The inner loop for one live bullet: it is tested against every live
      enemy (no `break`, so it can hit several); each overlap marks it as
      collided, pushes its id onto the deletion list again and adds 10 to
      that enemy's damage. Enemies are read from `m`: the first phase changes
      bullets only. */
  method StrikeEnemies(m: Entities, b: string, marked0: Entities, pending0: seq<string>, damage0: map<string, int>)
    returns (marked: Entities, pending: seq<string>, damage: map<string, int>)
    requires LiveBullet(m, b)
    ensures marked == if Spent(m, b) then marked0[b := MarkSpent(m)[b]] else marked0
    ensures forall x :: x in pending <==> x in pending0 || (x == b && Spent(m, b))
    ensures forall e :: e in damage <==> e in damage0 || Hits(m, b, e)
    ensures forall e :: e in damage ==> damage[e] == Get(damage0, e) + (if Hits(m, b, e) then BulletDamage else 0)
  {
    var bullet := m[b];
    marked, pending, damage := marked0, pending0, damage0;
    var enemies := m.Keys;
    ghost var seen: set<string> := {};
    ghost var struck := false;
    while enemies != {}
      invariant enemies <= m.Keys && seen == m.Keys - enemies
      invariant struck <==> exists e :: e in seen && Hits(m, b, e)
      invariant marked == if struck then marked0[b := MarkSpent(m)[b]] else marked0
      invariant forall x :: x in pending <==> x in pending0 || (x == b && struck)
      invariant CreditedUpTo(m, b, seen, damage0, damage)
      decreases enemies
    {
      var e :| e in enemies;
      enemies := enemies - {e};
      ghost var before := damage;
      if IsEnemyId(e) && m[e].Enemy? && m[e].health > 0 {
        if CheckAABBCollision(bullet.position, m[e].position, BulletBox, EnemyBox) {
          assert Hits(m, b, e);
          struck := true;
          marked := marked[b := Bullet(bullet.position, bullet.targetEnemyId, bullet.bulletSpeed, true)];
          pending := pending + [b];
          damage := damage[e := Get(damage, e) + BulletDamage];
        }
      }
      CreditOne(m, b, seen, e, damage0, before, damage);
      seen := seen + {e};
    }
    assert seen == m.Keys;
    CreditComplete(m, b, damage0, damage);
  }

  /** `damage` is `damage0` with 10 added for each enemy in `seen` that `b`
      hits. */
  ghost predicate CreditedUpTo(m: Entities, b: string, seen: set<string>, damage0: map<string, int>, damage: map<string, int>) {
    forall e ::
      (e in damage <==> e in damage0 || (e in seen && Hits(m, b, e))) &&
      (e in damage ==> damage[e] == Get(damage0, e) + (if e in seen && Hits(m, b, e) then BulletDamage else 0))
  }

  lemma CreditOne(m: Entities, b: string, seen: set<string>, e: string,
                  damage0: map<string, int>, before: map<string, int>, damage: map<string, int>)
    requires e !in seen && CreditedUpTo(m, b, seen, damage0, before)
    requires damage == if Hits(m, b, e) then before[e := Get(before, e) + BulletDamage] else before
    ensures CreditedUpTo(m, b, seen + {e}, damage0, damage)
  {
  }

  lemma CreditComplete(m: Entities, b: string, damage0: map<string, int>, damage: map<string, int>)
    requires CreditedUpTo(m, b, m.Keys, damage0, damage)
    ensures forall e :: e in damage <==> e in damage0 || Hits(m, b, e)
    ensures forall e :: e in damage ==> damage[e] == Get(damage0, e) + (if Hits(m, b, e) then BulletDamage else 0)
  {
  }

  /** The bullets visited so far that hit something are marked as collided;
      every other entry is as the tick found it. */
  ghost predicate MarkedUpTo(m: Entities, done: set<string>, marked: Entities) {
    marked.Keys == m.Keys
    && forall id :: id in m ==> marked[id] == if id in done then MarkSpent(m)[id] else m[id]
  }

  /** The deletion list names exactly the visited bullets that hit something. */
  ghost predicate ListedUpTo(m: Entities, done: set<string>, pending: seq<string>) {
    forall x :: x in pending <==> x in done && Spent(m, x)
  }

  lemma MarkStep(m: Entities, done: set<string>, b: string, marked0: Entities, marked: Entities)
    requires b in m && MarkedUpTo(m, done, marked0)
    requires marked == if Spent(m, b) then marked0[b := MarkSpent(m)[b]] else marked0
    ensures MarkedUpTo(m, done + {b}, marked)
  {
  }

  lemma ListStep(m: Entities, done: set<string>, b: string, pending0: seq<string>, pending: seq<string>)
    requires ListedUpTo(m, done, pending0)
    requires forall x :: x in pending <==> x in pending0 || (x == b && Spent(m, b))
    ensures ListedUpTo(m, done + {b}, pending)
  {
  }

  /** One pass of the outer loop: a bullet already marked as collided, or an
      entry that is not a bullet, is skipped; a live bullet is tested against
      every enemy. */
  method VisitBullet(m: Entities, ghost done: set<string>, b: string,
                     marked0: Entities, pending0: seq<string>, damage0: map<string, int>)
    returns (marked: Entities, pending: seq<string>, damage: map<string, int>)
    requires b in m && b !in done
    requires MarkedUpTo(m, done, marked0) && ListedUpTo(m, done, pending0) && DamageCounts(m, done, damage0)
    ensures MarkedUpTo(m, done + {b}, marked) && ListedUpTo(m, done + {b}, pending)
    ensures DamageCounts(m, done + {b}, damage)
  {
    marked, pending, damage := marked0, pending0, damage0;
    if IsBulletId(b) && marked[b].Bullet? && !marked[b].collided {
      marked, pending, damage := StrikeEnemies(m, b, marked, pending, damage);
    } else {
      assert !LiveBullet(m, b);
    }
    MarkStep(m, done, b, marked0, marked);
    ListStep(m, done, b, pending0, pending);
    CreditStep(m, done, b, damage0, damage);
  }

  lemma MarkComplete(m: Entities, marked: Entities)
    requires MarkedUpTo(m, m.Keys, marked)
    ensures marked == MarkSpent(m)
  {
  }

  /** The outer loop over bullets. The result is the damage table, every
      spent bullet marked as collided, and a deletion list naming exactly the
      spent bullets. */
  method BulletHits(m: Entities) returns (marked: Entities, bulletsToDelete: seq<string>, damage: map<string, int>)
    ensures marked == MarkSpent(m)
    ensures forall b :: b in bulletsToDelete <==> b in m && Spent(m, b)
    ensures damage == Tally(m)
  {
    marked := m;
    bulletsToDelete := [];
    damage := map[];
    var todo := m.Keys;
    ghost var done: set<string> := {};
    while todo != {}
      invariant todo <= m.Keys && done == m.Keys - todo
      invariant MarkedUpTo(m, done, marked)
      invariant ListedUpTo(m, done, bulletsToDelete)
      invariant DamageCounts(m, done, damage)
      decreases todo
    {
      var b :| b in todo;
      todo := todo - {b};
      marked, bulletsToDelete, damage := VisitBullet(m, done, b, marked, bulletsToDelete, damage);
      done := done + {b};
    }
    assert done == m.Keys;
    MarkComplete(m, marked);
    TallyComplete(m, damage);
  }

  // ---------------------------------------------------------------------
  // Phase 2: the player against enemies

  /** The map with the player's contact damage applied. */
  function Contact(m: Entities): Entities {
    if PlayerExposed(m) then
      var p := m[PlayerKey];
      m[PlayerKey := Player(p.position, p.health - ContactDamage(m), p.isGameOverNotified)]
    else m
  }

  lemma TouchersGrow(m: Entities, done: set<string>, e: string)
    requires e !in done
    ensures |Touchers(m, done + {e})| == |Touchers(m, done)| + (if Touches(m, e) then 1 else 0)
  {
    assert Touchers(m, done + {e}) == Touchers(m, done) + (if Touches(m, e) then {e} else {});
  }

  /** The player loses 10 for each live enemy it overlaps; the guard on the
      player is checked once, before the loop, so health can end below zero.
      `isInvulnerable` is never set anywhere, so its test always passes. */
  method PlayerContact(m: Entities) returns (result: Entities)
    ensures result == Contact(m)
  {
    result := m;
    if PlayerKey in m && m[PlayerKey].Player? && m[PlayerKey].position.Some? && m[PlayerKey].health > 0 {
      var player := m[PlayerKey];
      var health := player.health;
      var todo := m.Keys;
      ghost var done: set<string> := {};
      while todo != {}
        invariant todo <= m.Keys && done == m.Keys - todo
        invariant health == player.health - EnemyContactDamage * |Touchers(m, done)|
        decreases todo
      {
        var e :| e in todo;
        todo := todo - {e};
        TouchersGrow(m, done, e);
        if IsEnemyId(e) && m[e].Enemy? && m[e].health > 0 {
          if CheckAABBCollision(player.position, m[e].position, PlayerBox, EnemyBox) {
            health := health - EnemyContactDamage;
          }
        }
        done := done + {e};
      }
      assert done == m.Keys;
      result := m[PlayerKey := Player(player.position, health, player.isGameOverNotified)];
    }
  }

  // ---------------------------------------------------------------------
  // Phase 3: damage applied

  function Damaged(m: Entities, damage: map<string, int>): Entities {
    map id | id in m ::
      if id in damage && m[id].Enemy? then Enemy(m[id].position, m[id].health - damage[id], m[id].speed)
      else m[id]
  }

  function Doomed(m: Entities, damage: map<string, int>): set<string> {
    set e | e in damage && e in m && m[e].Enemy? && m[e].health - damage[e] <= 0
  }

  /** Each damaged enemy loses its summed damage and is listed for deletion
      when its health is then at or below zero. The list holds each key of the
      damage table at most once, so it is a set here. */
  method ApplyDamage(m: Entities, damage: map<string, int>) returns (result: Entities, enemiesToDelete: set<string>)
    ensures result == Damaged(m, damage)
    ensures enemiesToDelete == Doomed(m, damage)
  {
    result := m;
    enemiesToDelete := {};
    var todo := damage.Keys;
    while todo != {}
      invariant todo <= damage.Keys
      invariant result.Keys == m.Keys
      invariant forall id :: id in m ==> result[id] == if id in todo then m[id] else Damaged(m, damage)[id]
      invariant enemiesToDelete == Doomed(m, damage) - todo
      decreases todo
    {
      var e :| e in todo;
      todo := todo - {e};
      if e in result && result[e].Enemy? {
        var enemy := result[e];
        var health := enemy.health - damage[e];
        result := result[e := Enemy(enemy.position, health, enemy.speed)];
        if health <= 0 {
          enemiesToDelete := enemiesToDelete + {e};
        }
      }
    }
  }

  // ---------------------------------------------------------------------
  // Phases 4 and 5: deletions and score events

  function Without(m: Entities, ids: set<string>): Entities {
    map id | id in m && id !in ids :: m[id]
  }

  /** Deleting the listed bullets; a key listed twice is simply deleted once. */
  method DeleteBullets(m: Entities, bulletsToDelete: seq<string>) returns (result: Entities)
    ensures result == Without(m, set b | b in bulletsToDelete)
  {
    result := m;
    var i := 0;
    while i < |bulletsToDelete|
      invariant 0 <= i <= |bulletsToDelete|
      invariant result == Without(m, set b | b in bulletsToDelete[..i])
    {
      assert bulletsToDelete[..i + 1] == bulletsToDelete[..i] + [bulletsToDelete[i]];
      result := result - {bulletsToDelete[i]};
      i := i + 1;
    }
    assert bulletsToDelete[..i] == bulletsToDelete;
  }

  /** Deleting the defeated enemies, one ADD_SCORE of 10 for each. */
  method DeleteDefeated(m: Entities, enemiesToDelete: set<string>) returns (result: Entities, events: seq<Event>)
    ensures result == Without(m, enemiesToDelete)
    ensures events == seq(|enemiesToDelete|, _ => AddScore(EnemyDefeatScore))
  {
    result := m;
    events := [];
    var todo := enemiesToDelete;
    while todo != {}
      invariant todo <= enemiesToDelete
      invariant result == Without(m, enemiesToDelete - todo)
      invariant |events| + |todo| == |enemiesToDelete|
      invariant forall k :: 0 <= k < |events| ==> events[k] == AddScore(EnemyDefeatScore)
      decreases todo
    {
      var e :| e in todo;
      todo := todo - {e};
      result := result - {e};
      events := events + [AddScore(EnemyDefeatScore)];
    }
    assert events == seq(|enemiesToDelete|, _ => AddScore(EnemyDefeatScore));
  }

  // ---------------------------------------------------------------------
  // Phase 6: game over

  /** Raises the player's flag and reports GAME_OVER when health is at or
      below zero and the flag was not yet set. */
  method GameOverCheck(m: Entities) returns (result: Entities, fired: bool)
    ensures fired <==> PlayerKey in m && m[PlayerKey].Player?
                       && m[PlayerKey].health <= 0 && !m[PlayerKey].isGameOverNotified
    ensures result.Keys == m.Keys
    ensures forall id :: id in m && id != PlayerKey ==> result[id] == m[id]
    ensures PlayerKey in m && m[PlayerKey].Player? ==>
      result[PlayerKey] == Player(m[PlayerKey].position, m[PlayerKey].health,
                                  m[PlayerKey].isGameOverNotified || m[PlayerKey].health <= 0)
    ensures PlayerKey in m && !m[PlayerKey].Player? ==> result[PlayerKey] == m[PlayerKey]
  {
    result := m;
    fired := false;
    if PlayerKey in m && m[PlayerKey].Player? {
      var player := m[PlayerKey];
      if player.health <= 0 && !player.isGameOverNotified {
        result := m[PlayerKey := Player(player.position, player.health, true)];
        fired := true;
      }
    }
  }

  // ---------------------------------------------------------------------
  // The system

  /** An enemy that takes damage was alive and is an enemy. */
  lemma DamagedIsLive(m: Entities, e: string)
    requires Damage(m, e) > 0
    ensures LiveEnemy(m, e)
  {
    assert HitSet(m, m.Keys, e) != {};
    var b :| b in HitSet(m, m.Keys, e);
  }

  lemma PlayerKeyKind()
    ensures !IsEnemyId(PlayerKey) && !IsBulletId(PlayerKey)
  {
    assert PlayerKey[0] == 'p';
  }

  /** Marking bullets as collided changes nothing the contact phase reads. */
  lemma ContactUnmarked(m: Entities)
    ensures PlayerExposed(MarkSpent(m)) == PlayerExposed(m)
    ensures ContactDamage(MarkSpent(m)) == ContactDamage(m)
  {
    PlayerKeyKind();
    var c := MarkSpent(m);
    assert forall id :: id in m && !IsBulletAt(m, id) ==> c[id] == m[id];
    assert Touchers(c, c.Keys) == Touchers(m, m.Keys);
  }

  /** One entry after the first two phases. */
  lemma ContactAt(m: Entities, id: string)
    requires id in m
    ensures id in Contact(MarkSpent(m))
    ensures Contact(MarkSpent(m))[id] ==
      if id == PlayerKey && m[id].Player? then
        Player(m[id].position, m[id].health - ContactDamage(m), m[id].isGameOverNotified)
      else MarkSpent(m)[id]
  {
    ContactUnmarked(m);
    PlayerKeyKind();
  }

  /** One entry after the third phase: exactly its summed damage is taken. */
  lemma DamageAt(m: Entities, id: string)
    requires id in m
    ensures id in Damaged(Contact(MarkSpent(m)), Tally(m))
    ensures Damaged(Contact(MarkSpent(m)), Tally(m))[id] ==
      if IsEnemyAt(m, id) && Damage(m, id) > 0 then
        Enemy(m[id].position, m[id].health - Damage(m, id), m[id].speed)
      else Contact(MarkSpent(m))[id]
  {
    ContactAt(m, id);
    PlayerKeyKind();
    if Damage(m, id) > 0 {
      DamagedIsLive(m, id);
    }
  }

  /** The third phase lists exactly the defeated enemies. */
  lemma DoomedAreDefeated(m: Entities)
    ensures Doomed(Contact(MarkSpent(m)), Tally(m)) == DefeatedSet(m)
  {
    forall e | e in Tally(m)
      ensures Contact(MarkSpent(m))[e] == m[e]
    {
      DamagedIsLive(m, e);
      ContactAt(m, e);
      PlayerKeyKind();
    }
  }

  /** What the last three phases leave of the map: every entry of the third
      phase's map but the listed bullets and the defeated enemies. */
  function Pruned(m: Entities, bulletsToDelete: seq<string>): Entities {
    Without(Without(Damaged(Contact(MarkSpent(m)), Tally(m)), set b | b in bulletsToDelete), DefeatedSet(m))
  }

  lemma PrunedKeysAt(m: Entities, bulletsToDelete: seq<string>, id: string)
    requires forall b :: b in bulletsToDelete <==> b in m && Spent(m, b)
    requires id in m
    ensures id in Pruned(m, bulletsToDelete) <==> id in AfterCollision(m)
  {
    DamageAt(m, id);
  }

  lemma PrunedAt(m: Entities, bulletsToDelete: seq<string>, id: string)
    requires forall b :: b in bulletsToDelete <==> b in m && Spent(m, b)
    requires id in AfterCollision(m)
    ensures id in Pruned(m, bulletsToDelete)
    ensures id == PlayerKey && m[id].Player? ==>
      Pruned(m, bulletsToDelete)[id] == Player(m[id].position, m[id].health - ContactDamage(m), m[id].isGameOverNotified)
    ensures !(id == PlayerKey && m[id].Player?) ==> Pruned(m, bulletsToDelete)[id] == AfterCollision(m)[id]
  {
    DamageAt(m, id);
    ContactAt(m, id);
    PlayerKeyKind();
  }

  lemma PrunedKeys(m: Entities, bulletsToDelete: seq<string>)
    requires forall b :: b in bulletsToDelete <==> b in m && Spent(m, b)
    ensures Pruned(m, bulletsToDelete).Keys == AfterCollision(m).Keys
  {
    forall id | id in m
      ensures id in Pruned(m, bulletsToDelete) <==> id in AfterCollision(m)
    {
      PrunedKeysAt(m, bulletsToDelete, id);
    }
  }

  lemma Assemble(m: Entities, bulletsToDelete: seq<string>, result: Entities)
    requires forall b :: b in bulletsToDelete <==> b in m && Spent(m, b)
    requires var c5 := Pruned(m, bulletsToDelete);
      result.Keys == c5.Keys
      && (forall id :: id in c5 && id != PlayerKey ==> result[id] == c5[id])
      && (PlayerKey in c5 && c5[PlayerKey].Player? ==>
            result[PlayerKey] == Player(c5[PlayerKey].position, c5[PlayerKey].health,
                                        c5[PlayerKey].isGameOverNotified || c5[PlayerKey].health <= 0))
      && (PlayerKey in c5 && !c5[PlayerKey].Player? ==> result[PlayerKey] == c5[PlayerKey])
    ensures result == AfterCollision(m)
  {
    var after := AfterCollision(m);
    PrunedKeys(m, bulletsToDelete);
    forall id | id in after
      ensures result[id] == after[id]
    {
      PrunedAt(m, bulletsToDelete, id);
    }
  }

  method CollisionSystem(entities: Entities) returns (result: Entities, events: seq<Event>)
    ensures result == AfterCollision(entities)
    ensures events == CollisionEvents(entities)
  {
    var marked, bulletsToDelete, damage := BulletHits(entities);
    var afterContact := PlayerContact(marked);
    var afterDamage, enemiesToDelete := ApplyDamage(afterContact, damage);
    DoomedAreDefeated(entities);
    var afterBullets := DeleteBullets(afterDamage, bulletsToDelete);
    var afterEnemies, scores := DeleteDefeated(afterBullets, enemiesToDelete);
    var fired;
    result, fired := GameOverCheck(afterEnemies);
    events := scores + (if fired then [GameOver] else []);
    Assemble(entities, bulletsToDelete, result);
  }

  // ---------------------------------------------------------------------
  // What the tick guarantees

  /** No entity is added, and entries that are not bullets, enemies or the
      player (the controls, the stats) are left as they are. */
  lemma CollisionTouchesOnlyCombatants(m: Entities)
    ensures AfterCollision(m).Keys <= m.Keys
    ensures forall id :: id in m && !IsBulletAt(m, id) && !IsEnemyAt(m, id) && id != PlayerKey ==>
      id in AfterCollision(m) && AfterCollision(m)[id] == m[id]
  {
  }

  /** A bullet is gone after the tick exactly when it was live and overlapped
      a live enemy; otherwise it is left as it was. */
  lemma BulletFate(m: Entities, b: string)
    requires IsBulletAt(m, b)
    ensures b !in AfterCollision(m) <==>
      !m[b].collided
      && (exists e :: LiveEnemy(m, e) && CheckAABBCollision(m[b].position, m[e].position, BulletBox, EnemyBox))
    ensures b in AfterCollision(m) ==> AfterCollision(m)[b] == m[b]
  {
    PlayerKeyKind();
    if b !in AfterCollision(m) {
      assert Spent(m, b);
    }
  }

  /** A bullet already marked as collided deals no damage. */
  lemma CollidedBulletDealsNoDamage(m: Entities, b: string, e: string)
    requires IsBulletAt(m, b) && m[b].collided
    ensures b !in HitSet(m, m.Keys, e)
  {
  }

  /** There is no `break`: a bullet overlapping two live enemies damages
      both, by at least 10 each, and is deleted. */
  lemma BulletHitsEveryOverlap(m: Entities, b: string, e1: string, e2: string)
    requires Hits(m, b, e1) && Hits(m, b, e2)
    ensures Damage(m, e1) >= BulletDamage && Damage(m, e2) >= BulletDamage
    ensures b !in AfterCollision(m)
  {
    assert b in HitSet(m, m.Keys, e1);
    assert b in HitSet(m, m.Keys, e2);
  }

  /** An enemy loses exactly its summed damage and is gone after the tick
      exactly when that damage is positive and takes its health to zero or
      below. */
  lemma EnemyFate(m: Entities, e: string)
    requires IsEnemyAt(m, e)
    ensures e !in AfterCollision(m) <==> Damage(m, e) > 0 && m[e].health - Damage(m, e) <= 0
    ensures e in AfterCollision(m) ==>
      AfterCollision(m)[e] == Enemy(m[e].position, m[e].health - Damage(m, e), m[e].speed)
  {
    PlayerKeyKind();
    assert !Spent(m, e);
  }

  /** An enemy already at zero health or below is neither hit nor removed. */
  lemma DeadEnemyUntouched(m: Entities, e: string)
    requires IsEnemyAt(m, e) && m[e].health <= 0
    ensures Damage(m, e) == 0
    ensures e in AfterCollision(m) && AfterCollision(m)[e] == m[e]
  {
    assert HitSet(m, m.Keys, e) == {};
    EnemyFate(m, e);
  }

  /** The enemies that vanish in the tick are exactly the defeated ones, and
      one ADD_SCORE of 10 is dispatched for each of them, before any
      GAME_OVER. */
  lemma OneScorePerRemovedEnemy(m: Entities)
    ensures DefeatedSet(m) == set e | e in m && IsEnemyAt(m, e) && e !in AfterCollision(m)
    ensures |CollisionEvents(m)| == |DefeatedSet(m)| + (if GameOverFires(m) then 1 else 0)
    ensures forall k :: 0 <= k < |DefeatedSet(m)| ==> CollisionEvents(m)[k] == AddScore(EnemyDefeatScore)
  {
    forall e | e in m && IsEnemyAt(m, e)
      ensures e in DefeatedSet(m) <==> e !in AfterCollision(m)
    {
      EnemyFate(m, e);
    }
  }

  /** The player loses 10 for each live enemy it overlaps, but only when it
      began the tick placed and with health above zero; it is never removed. */
  lemma PlayerFate(m: Entities)
    requires PlayerKey in m && m[PlayerKey].Player?
    ensures PlayerKey in AfterCollision(m)
    ensures AfterCollision(m)[PlayerKey].Player?
    ensures AfterCollision(m)[PlayerKey].position == m[PlayerKey].position
    ensures PlayerExposed(m) ==>
      AfterCollision(m)[PlayerKey].health == m[PlayerKey].health - EnemyContactDamage * |Touchers(m, m.Keys)|
    ensures !PlayerExposed(m) ==> AfterCollision(m)[PlayerKey].health == m[PlayerKey].health
  {
    PlayerKeyKind();
    assert !Spent(m, PlayerKey);
  }

  /** Contact damage is not floored: a player at 10 health overlapped by two
      live enemies ends the tick at -10 and GAME_OVER fires. */
  lemma HealthGoesBelowZero()
    ensures var m := map[PlayerKey := Player(Some(Vec(100.0, 100.0)), 10, false),
                         "enemy_a" := Enemy(Some(Vec(100.0, 100.0)), 30, Some(1.0)),
                         "enemy_b" := Enemy(Some(Vec(110.0, 100.0)), 30, Some(1.0))];
            AfterCollision(m)[PlayerKey].health == -10 && GameOverFires(m)
  {
    var m := map[PlayerKey := Player(Some(Vec(100.0, 100.0)), 10, false),
                 "enemy_a" := Enemy(Some(Vec(100.0, 100.0)), 30, Some(1.0)),
                 "enemy_b" := Enemy(Some(Vec(110.0, 100.0)), 30, Some(1.0))];
    PlayerKeyKind();
    assert IsEnemyId("enemy_a") && IsEnemyId("enemy_b");
    assert Touchers(m, m.Keys) == {"enemy_a", "enemy_b"};
    PlayerFate(m);
  }

  predicate Notified(m: Entities) {
    PlayerKey in m && m[PlayerKey].Player? && m[PlayerKey].isGameOverNotified
  }

  /** GAME_OVER fires only for a player not yet notified, and leaves it
      notified; a notified player stays notified. */
  lemma GameOverMarksPlayer(m: Entities)
    ensures GameOverFires(m) ==> !Notified(m) && Notified(AfterCollision(m))
    ensures Notified(m) ==> Notified(AfterCollision(m)) && !GameOverFires(m)
  {
    if PlayerKey in m && m[PlayerKey].Player? {
      PlayerFate(m);
    }
  }

  /** Over a run of ticks in which nothing between two collision passes
      clears the player's flag, a notified player is still notified at every
      later tick. */
  lemma {:induction false} NotifiedPersists(ticks: seq<Entities>, i: nat, j: nat)
    requires forall k :: 0 <= k < |ticks| - 1 ==> Notified(AfterCollision(ticks[k])) ==> Notified(ticks[k + 1])
    requires i < j < |ticks| && Notified(AfterCollision(ticks[i]))
    ensures Notified(ticks[j])
    decreases j - i
  {
    if j > i + 1 {
      NotifiedPersists(ticks, i, j - 1);
      GameOverMarksPlayer(ticks[j - 1]);
    }
  }

  /** GAME_OVER is dispatched at most once per player over a run of ticks. */
  lemma GameOverAtMostOnce(ticks: seq<Entities>, i: nat, j: nat)
    requires forall k :: 0 <= k < |ticks| - 1 ==> Notified(AfterCollision(ticks[k])) ==> Notified(ticks[k + 1])
    requires i < j < |ticks| && GameOverFires(ticks[i])
    ensures !GameOverFires(ticks[j])
  {
    GameOverMarksPlayer(ticks[i]);
    NotifiedPersists(ticks, i, j);
    GameOverMarksPlayer(ticks[j]);
  }

  /** Every bullet the first phase marks as collided is deleted, so the mark
      never outlives the tick. */
  lemma MarkedBulletsDeleted(m: Entities, id: string)
    requires id in m && MarkSpent(m)[id] != m[id]
    ensures id !in AfterCollision(m)
  {
  }

  lemma AfterCollisionKeepsWellKinded(m: Entities)
    requires WellKinded(m)
    ensures WellKinded(AfterCollision(m))
  {
    forall id | id in AfterCollision(m)
      ensures KindMatches(id, AfterCollision(m)[id])
    {
      assert KindMatches(id, m[id]);
    }
  }
}
