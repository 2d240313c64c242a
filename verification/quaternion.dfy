/**
 * Rotations as quaternions (x, y, z, w) over the reals.
 *
 * The product follows the component convention of the engine's quaternion
 * type (the vector part first, `w` last), and `Inverse` is the conjugate,
 * which is the exact inverse of every unit quaternion.  Floating-point
 * rounding is not modelled.
 */
module Quaternions {

  datatype Quat = Quat(x: real, y: real, z: real, w: real)

  /** The zero rotation. */
  const Identity: Quat := Quat(0.0, 0.0, 0.0, 1.0)

  /** The squared norm; a rotation has `NormSq(q) == 1.0`. */
  function NormSq(q: Quat): real {
    q.x * q.x + q.y * q.y + q.z * q.z + q.w * q.w
  }

  predicate IsUnit(q: Quat) {
    NormSq(q) == 1.0
  }

  /**
   * The Hamilton product `a * b`: rotate by `b`, then by `a`.  The identity
   * is neutral on either side.
   */
  function Mul(a: Quat, b: Quat): (r: Quat)
    ensures a == Identity ==> r == b
    ensures b == Identity ==> r == a
  {
    Quat(a.w * b.x + a.x * b.w + a.y * b.z - a.z * b.y,
         a.w * b.y + a.y * b.w + a.z * b.x - a.x * b.z,
         a.w * b.z + a.z * b.w + a.x * b.y - a.y * b.x,
         a.w * b.w - a.x * b.x - a.y * b.y - a.z * b.z)
  }

  /**
   * The inverse rotation (see `InverseCancels`): it has the same length, and
   * the zero rotation is its own inverse.
   */
  function Inverse(q: Quat): (r: Quat)
    ensures NormSq(r) == NormSq(q)
    ensures IsUnit(q) <==> IsUnit(r)
    ensures q == Identity ==> r == Identity
  {
    Quat(-q.x, -q.y, -q.z, q.w)
  }

  /**
   * Composed with `q` on either side, the inverse leaves only the scalar
   * `NormSq(q)`; for a unit quaternion it cancels to the zero rotation.
   */
  lemma InverseCancels(q: Quat)
    ensures Mul(Inverse(q), q) == Quat(0.0, 0.0, 0.0, NormSq(q))
    ensures Mul(q, Inverse(q)) == Quat(0.0, 0.0, 0.0, NormSq(q))
    ensures NormSq(Inverse(q)) == NormSq(q)
    ensures IsUnit(q) ==> Mul(Inverse(q), q) == Identity && IsUnit(Inverse(q))
  {
  }
}
