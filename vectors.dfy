/**
 * Three-component vectors and quaternions over the reals: the math
 * primitives the physics core is written against. Floats are modelled as
 * `real`, so there is no rounding, no infinity and no NaN.
 */
module Vectors {

  datatype Vec3 = Vec3(x: real, y: real, z: real)

  const Zero := Vec3(0.0, 0.0, 0.0)

  function Add(a: Vec3, b: Vec3): Vec3
  {
    Vec3(a.x + b.x, a.y + b.y, a.z + b.z)
  }

  function Sub(a: Vec3, b: Vec3): Vec3
  {
    Vec3(a.x - b.x, a.y - b.y, a.z - b.z)
  }

  function Scale(a: Vec3, s: real): Vec3
  {
    Vec3(a.x * s, a.y * s, a.z * s)
  }

  function Dot(a: Vec3, b: Vec3): real
  {
    a.x * b.x + a.y * b.y + a.z * b.z
  }

  /** Squared Euclidean length; never negative, and zero only for the zero vector. */
  function LengthSqr(a: Vec3): (r: real)
    ensures r >= 0.0
  {
    Dot(a, a)
  }

  /** Swapping the operands of a difference does not change its squared length. */
  lemma LengthSqrSubSymmetric(a: Vec3, b: Vec3)
    ensures LengthSqr(Sub(a, b)) == LengthSqr(Sub(b, a))
  {
    assert Sub(b, a) == Scale(Sub(a, b), -1.0);
  }

  /** Quaternion (x, y, z) + w; (0, 0, 0, 1) is the identity rotation. */
  datatype Quat = Quat(x: real, y: real, z: real, w: real)

  const Identity := Quat(0.0, 0.0, 0.0, 1.0)

  /** Hamilton product. */
  function Mul(p: Quat, q: Quat): Quat
  {
    Quat(p.x * q.w + p.w * q.x + p.y * q.z - p.z * q.y,
         p.y * q.w + p.w * q.y + p.z * q.x - p.x * q.z,
         p.z * q.w + p.w * q.z + p.x * q.y - p.y * q.x,
         p.w * q.w - p.x * q.x - p.y * q.y - p.z * q.z)
  }

  /** The conjugate, which is the inverse of every unit quaternion. */
  function Inverse(q: Quat): Quat
  {
    Quat(-q.x, -q.y, -q.z, q.w)
  }

  /** A vector as a pure quaternion (w = 0). */
  function Pure(v: Vec3): Quat
  {
    Quat(v.x, v.y, v.z, 0.0)
  }

  /**
   * Rotates a point: the vector part of q * (v, 0) * q^-1. The origin is a
   * fixed point of every rotation.
   */
  function RotatePoint(q: Quat, v: Vec3): (r: Vec3)
    ensures v == Zero ==> r == Zero
  {
    var f := Mul(Mul(q, Pure(v)), Inverse(q));
    Vec3(f.x, f.y, f.z)
  }

  /** The identity quaternion is its own inverse and moves no point. */
  lemma IdentityRotation(v: Vec3)
    ensures Inverse(Identity) == Identity
    ensures RotatePoint(Identity, v) == v
  {
    assert Mul(Identity, Pure(v)) == Pure(v);
    assert Mul(Pure(v), Identity) == Pure(v);
  }
}
