/**
 * Vectors, quaternions and transforms over exact reals.
 *
 * These stand for the engine's `Vec2`, `Vec3`, `Quat` and `Transform`. The
 * source computes with 32-bit floats; here every operation is exact, so the
 * algebra the editor relies on can be checked without rounding.
 */
module Geometry {

  datatype Vec2 = Vec2(x: real, y: real) {
    function Plus(o: Vec2): Vec2 { Vec2(x + o.x, y + o.y) }
    function Minus(o: Vec2): Vec2 { Vec2(x - o.x, y - o.y) }
  }

  const Zero2: Vec2 := Vec2(0.0, 0.0)

  datatype Vec3 = Vec3(x: real, y: real, z: real) {
    function Plus(o: Vec3): Vec3 { Vec3(x + o.x, y + o.y, z + o.z) }
    function Minus(o: Vec3): Vec3 { Vec3(x - o.x, y - o.y, z - o.z) }
  }

  const Zero: Vec3 := Vec3(0.0, 0.0, 0.0)
  const One: Vec3 := Vec3(1.0, 1.0, 1.0)

  /** A quaternion with vector part (x, y, z) and scalar part w, in the engine's field order. */
  datatype Quat = Quat(x: real, y: real, z: real, w: real) {

    /** The Hamilton product `this * q` (rotation `q` first, then `this`). */
    function Mul(q: Quat): Quat {
      Quat(w * q.x + x * q.w + y * q.z - z * q.y,
           w * q.y - x * q.z + y * q.w + z * q.x,
           w * q.z + x * q.y - y * q.x + z * q.w,
           w * q.w - x * q.x - y * q.y - z * q.z)
    }

    /**
     * The engine's `Quat::inverse`, which assumes a unit quaternion and
     * returns its conjugate.
     */
    function Inverse(): Quat { Quat(-x, -y, -z, w) }

    /** Component-wise sum, the engine's `Quat + Quat`; not a rotation composition. */
    function Plus(q: Quat): Quat { Quat(x + q.x, y + q.y, z + q.z, w + q.w) }

    function NormSquared(): real { x * x + y * y + z * z + w * w }

    /** Every component multiplied by `k`. */
    function Scaled(k: real): Quat { Quat(k * x, k * y, k * z, k * w) }

    /** A rotation: the only quaternions the engine's `Transform` is meant to hold. */
    predicate IsUnit() { NormSquared() == 1.0 }
  }

  const Identity: Quat := Quat(0.0, 0.0, 0.0, 1.0)

  datatype Transform = Transform(translation: Vec3, rotation: Quat, scale: Vec3)

  /** `Transform::default()`: no translation, no rotation, unit scale. */
  const DefaultTransform: Transform := Transform(Zero, Identity, One)

  /** `Transform::from_translation`. */
  function FromTranslation(t: Vec3): (r: Transform)
    ensures r.translation == t && r.rotation == Identity && r.scale == One
  {
    DefaultTransform.(translation := t)
  }

  lemma MulIdentity(q: Quat)
    ensures q.Mul(Identity) == q && Identity.Mul(q) == q
  {
  }

  /** A quaternion times its own inverse is the scalar |q|^2. */
  lemma InverseMul(q: Quat)
    ensures q.Inverse().Mul(q) == Quat(0.0, 0.0, 0.0, q.NormSquared())
  {
  }

  /** Multiplying by a real quaternion scales every component. */
  lemma MulScalar(q: Quat, k: real)
    ensures q.Mul(Quat(0.0, 0.0, 0.0, k)) == q.Scaled(k)
  {
  }
}
