/** The shared state of one game tick: the map from string id to entity that
    every system edits, the events the systems dispatch to the host, and the
    ids the systems mint for new entities.

    An entity's kind is read from its id, as the systems do: the key "player",
    keys starting with "enemy_", keys starting with "bullet_"; the host also
    keeps a "controls" entry (the joystick) and a "gameStats" entry (score and
    elapsed seconds) in the same map. */
module Entities {

  datatype Option<T> = None | Some(value: T)

  /** A point or a vector on the screen. */
  datatype Vec = Vec(x: real, y: real)

  /** The window size, which the systems read once at load time. */
  datatype Screen = Screen(width: real, height: real)

  /** The joystick reading; a component is None when it is not a number. */
  datatype Joystick = Joystick(dx: Option<real>, dy: Option<real>)

  /** One entry of the entity map. A missing `position` is None. */
  datatype Entity =
    | Player(position: Option<Vec>, health: int, isGameOverNotified: bool)
    | Enemy(position: Option<Vec>, health: int, speed: Option<real>)
    | Bullet(position: Option<Vec>, targetEnemyId: string, bulletSpeed: real, collided: bool)
    | Controls(joystick: Option<Joystick>)
    | GameStats(score: int, time: nat)

  type Entities = map<string, Entity>

  /** What the systems dispatch to the host. */
  datatype Event = AddScore(points: int) | GameOver

  const PlayerKey: string := "player"
  const ControlsKey: string := "controls"
  const StatsKey: string := "gameStats"
  const EnemyPrefix: string := "enemy_"
  const BulletPrefix: string := "bullet_"

  predicate StartsWith(s: string, prefix: string) {
    |prefix| <= |s| && s[..|prefix|] == prefix
  }

  predicate IsEnemyId(id: string) { StartsWith(id, EnemyPrefix) }

  predicate IsBulletId(id: string) { StartsWith(id, BulletPrefix) }

  /** `entity.position`, which is undefined on the controls and stats entries. */
  function PositionOf(e: Entity): Option<Vec> {
    match e
    case Player(p, _, _) => p
    case Enemy(p, _, _) => p
    case Bullet(p, _, _, _) => p
    case _ => None
  }

  /** `entity.health`, defined on the player and on enemies only. */
  function HealthOf(e: Entity): Option<int> {
    match e
    case Player(_, h, _) => Some(h)
    case Enemy(_, h, _) => Some(h)
    case _ => None
  }

  predicate IsEnemyAt(m: Entities, id: string) {
    id in m && IsEnemyId(id) && m[id].Enemy?
  }

  predicate IsBulletAt(m: Entities, id: string) {
    id in m && IsBulletId(id) && m[id].Bullet?
  }

  /** The entry's variant is the one its id names. */
  predicate KindMatches(id: string, e: Entity) {
    match e
    case Player(_, _, _) => id == PlayerKey
    case Enemy(_, _, _) => IsEnemyId(id)
    case Bullet(_, _, _, _) => IsBulletId(id)
    case Controls(_) => id == ControlsKey
    case GameStats(_, _) => id == StatsKey
  }

  /** Every entry is of the kind its id names. Every system keeps this. */
  predicate WellKinded(m: Entities) {
    forall id :: id in m ==> KindMatches(id, m[id])
  }

  /** In a well-kinded map the id prefix alone decides the variant. */
  lemma PrefixDecidesKind(m: Entities, id: string)
    requires WellKinded(m) && id in m
    ensures IsEnemyId(id) <==> m[id].Enemy?
    ensures IsBulletId(id) <==> m[id].Bullet?
    ensures id == PlayerKey <==> m[id].Player?
  {
    assert KindMatches(id, m[id]);
    if IsEnemyId(id) {
      assert id[0] == 'e';
    }
    if IsBulletId(id) {
      assert id[0] == 'b';
    }
  }

  // ---------------------------------------------------------------------
  // Decimal rendering of counters and timestamps inside generated ids

  function DigitChar(d: nat): (c: char)
    requires d < 10
    ensures '0' <= c <= '9'
  {
    (48 + d) as char
  }

  /** `String(n)` for a non-negative integer. */
  function Digits(n: nat): (s: string)
    ensures |s| >= 1
    ensures forall k :: 0 <= k < |s| ==> '0' <= s[k] <= '9'
    decreases n
  {
    if n < 10 then [DigitChar(n)] else Digits(n / 10) + [DigitChar(n % 10)]
  }

  lemma {:induction false} DigitsInjective(a: nat, b: nat)
    requires Digits(a) == Digits(b)
    ensures a == b
    decreases a
  {
    if a < 10 && b < 10 {
      assert Digits(a)[0] == DigitChar(a);
    } else if a >= 10 && b >= 10 {
      var sa, sb := Digits(a), Digits(b);
      assert sa[|sa| - 1] == DigitChar(a % 10);
      assert sb[|sb| - 1] == DigitChar(b % 10);
      assert sa[..|sa| - 1] == Digits(a / 10);
      assert sb[..|sb| - 1] == Digits(b / 10);
      DigitsInjective(a / 10, b / 10);
    }
  }

  /** Splitting at the first underscore is unique when the head has none. */
  lemma SplitAtUnderscore(a: string, b: string, c: string, d: string)
    requires '_' !in a && '_' !in c
    requires a + "_" + b == c + "_" + d
    ensures a == c && b == d
  {
    var s := a + "_" + b;
    assert s[|a|] == '_';
    assert s[|c|] == '_';
    if |a| < |c| {
      assert false;
    } else if |c| < |a| {
      assert false;
    }
    assert a == s[..|a|];
    assert c == s[..|c|];
    assert b == s[|a| + 1..];
    assert d == s[|c| + 1..];
  }

  lemma DigitsHaveNoUnderscore(n: nat)
    ensures '_' !in Digits(n)
  {
  }

  // ---------------------------------------------------------------------
  // Generated ids

  /** `enemy_${engineTime}_${enemyCounter}_${i}` */
  function EnemyId(time: nat, counter: nat, index: nat): (id: string)
    ensures IsEnemyId(id) && !IsBulletId(id) && id != PlayerKey
  {
    var id := EnemyPrefix + (Digits(time) + "_" + (Digits(counter) + "_" + Digits(index)));
    assert id[0] == 'e';
    id
  }

  /** `bullet_${currentTime}_${bulletCounter}` */
  function BulletId(time: nat, counter: nat): (id: string)
    ensures IsBulletId(id) && !IsEnemyId(id) && id != PlayerKey
  {
    var id := BulletPrefix + (Digits(time) + "_" + Digits(counter));
    assert id[0] == 'b';
    id
  }

  /** Different (time, counter, index) triples never give the same enemy id. */
  lemma EnemyIdInjective(t1: nat, c1: nat, i1: nat, t2: nat, c2: nat, i2: nat)
    requires EnemyId(t1, c1, i1) == EnemyId(t2, c2, i2)
    ensures t1 == t2 && c1 == c2 && i1 == i2
  {
    var r1 := Digits(t1) + "_" + (Digits(c1) + "_" + Digits(i1));
    var r2 := Digits(t2) + "_" + (Digits(c2) + "_" + Digits(i2));
    assert r1 == EnemyId(t1, c1, i1)[|EnemyPrefix|..];
    assert r2 == EnemyId(t2, c2, i2)[|EnemyPrefix|..];
    DigitsHaveNoUnderscore(t1);
    DigitsHaveNoUnderscore(t2);
    SplitAtUnderscore(Digits(t1), Digits(c1) + "_" + Digits(i1), Digits(t2), Digits(c2) + "_" + Digits(i2));
    DigitsHaveNoUnderscore(c1);
    DigitsHaveNoUnderscore(c2);
    SplitAtUnderscore(Digits(c1), Digits(i1), Digits(c2), Digits(i2));
    DigitsInjective(t1, t2);
    DigitsInjective(c1, c2);
    DigitsInjective(i1, i2);
  }

  /** Different (time, counter) pairs never give the same bullet id. */
  lemma BulletIdInjective(t1: nat, c1: nat, t2: nat, c2: nat)
    requires BulletId(t1, c1) == BulletId(t2, c2)
    ensures t1 == t2 && c1 == c2
  {
    var r1 := Digits(t1) + "_" + Digits(c1);
    var r2 := Digits(t2) + "_" + Digits(c2);
    assert r1 == BulletId(t1, c1)[|BulletPrefix|..];
    assert r2 == BulletId(t2, c2)[|BulletPrefix|..];
    DigitsHaveNoUnderscore(t1);
    DigitsHaveNoUnderscore(t2);
    SplitAtUnderscore(Digits(t1), Digits(c1), Digits(t2), Digits(c2));
    DigitsInjective(t1, t2);
    DigitsInjective(c1, c2);
  }
}
