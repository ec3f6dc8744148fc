/** The chase step shared by the enemy AI and the homing bullets: the vector
    to the target, its length, and a move of `speed` along the unit vector.
    The length `Math.sqrt(dx * dx + dy * dy)` is a parameter `length`: the
    model assumes only that it is non-negative and zero exactly on the zero
    vector (IsLength), which is all the `magnitude > 0` guards depend on. */
module Geometry {
  import opened Entities

  ghost predicate IsLength(length: Vec -> real) {
    forall d: Vec :: length(d) >= 0.0 && (length(d) == 0.0 <==> d == Vec(0.0, 0.0))
  }

  /** The vector from `from` to `to`. */
  function Toward(from: Vec, to: Vec): Vec {
    Vec(to.x - from.x, to.y - from.y)
  }

  /** `dx /= magnitude; dy /= magnitude; position += [dx, dy] * speed` */
  function Advance(p: Vec, d: Vec, magnitude: real, speed: real): Vec
    requires magnitude != 0.0
  {
    Vec(p.x + d.x / magnitude * speed, p.y + d.y / magnitude * speed)
  }

  function Sign(r: real): int {
    if r > 0.0 then 1 else if r < 0.0 then -1 else 0
  }

  /** The magnitude guard is exactly "the two points differ". */
  lemma MagnitudePositiveIff(from: Vec, to: Vec, length: Vec -> real)
    requires IsLength(length)
    ensures length(Toward(from, to)) > 0.0 <==> from != to
  {
    assert from == to <==> Toward(from, to) == Vec(0.0, 0.0);
  }

  /** Dividing by a positive magnitude and scaling by a positive speed keeps
      the sign of a component. */
  lemma ScaleKeepsSign(a: real, magnitude: real, speed: real)
    requires magnitude > 0.0 && speed > 0.0
    ensures Sign(a / magnitude * speed) == Sign(a)
  {
    var u := a / magnitude;
    assert u * magnitude == a;
    if a > 0.0 {
      assert u > 0.0;
      assert u * speed > 0.0;
    } else if a < 0.0 {
      assert u < 0.0;
      assert (-u) * speed > 0.0;
    } else {
      assert u == 0.0;
    }
  }

  /** A step toward the target moves each coordinate in the direction of the
      target's, when the speed is positive. */
  lemma AdvanceFollowsSign(p: Vec, d: Vec, magnitude: real, speed: real)
    requires magnitude > 0.0 && speed > 0.0
    ensures Sign(Advance(p, d, magnitude, speed).x - p.x) == Sign(d.x)
    ensures Sign(Advance(p, d, magnitude, speed).y - p.y) == Sign(d.y)
  {
    ScaleKeepsSign(d.x, magnitude, speed);
    ScaleKeepsSign(d.y, magnitude, speed);
  }
}
