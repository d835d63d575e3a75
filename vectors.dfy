/**
 * The small fixed-size vectors the importer and the material model compute with.
 * Every component is an exact `real`: the single-precision rounding of the
 * source is not modelled.
 */
module Vectors {

  datatype Vec2 = Vec2(x: real, y: real)
  datatype Vec3 = Vec3(x: real, y: real, z: real)
  datatype Vec4 = Vec4(x: real, y: real, z: real, w: real)

  /** `Vector3(v)`: every component equal to `v`. */
  function Splat3(v: real): Vec3 { Vec3(v, v, v) }

  /** `Vector4(v)`: every component equal to `v`. */
  function Splat4(v: real): Vec4 { Vec4(v, v, v, v) }

  function Max(a: real, b: real): real { if a < b then b else a }

  function Min(a: real, b: real): real { if a < b then a else b }

  /** glm::mix on one component: linear interpolation from `a` towards `b` by `w`. */
  function Mix(a: real, b: real, w: real): real { a + (b - a) * w }

  function Mix3(a: Vec3, b: Vec3, w: real): Vec3 {
    Vec3(Mix(a.x, b.x, w), Mix(a.y, b.y, w), Mix(a.z, b.z, w))
  }

  function Mix4(a: Vec4, b: Vec4, w: real): Vec4 {
    Vec4(Mix(a.x, b.x, w), Mix(a.y, b.y, w), Mix(a.z, b.z, w), Mix(a.w, b.w, w))
  }

  /** Component-wise product, glm's `*` on two vectors. */
  function Mul3(a: Vec3, b: Vec3): Vec3 { Vec3(a.x * b.x, a.y * b.y, a.z * b.z) }

  function Mul4(a: Vec4, b: Vec4): Vec4 { Vec4(a.x * b.x, a.y * b.y, a.z * b.z, a.w * b.w) }

  function Add3(a: Vec3, b: Vec3): Vec3 { Vec3(a.x + b.x, a.y + b.y, a.z + b.z) }

  function Add4(a: Vec4, b: Vec4): Vec4 { Vec4(a.x + b.x, a.y + b.y, a.z + b.z, a.w + b.w) }

  /** A scalar times a vector. */
  function Scale4(s: real, v: Vec4): Vec4 { Vec4(s * v.x, s * v.y, s * v.z, s * v.w) }

  /** glm::fract: the fractional part, in [0, 1), differing from `x` by a whole number. */
  function Fract(x: real): (r: real)
    ensures 0.0 <= r < 1.0
    ensures (x - r).Floor as real == x - r
  {
    x - x.Floor as real
  }

  function Fract2(v: Vec2): (r: Vec2)
    ensures 0.0 <= r.x < 1.0 && 0.0 <= r.y < 1.0
  {
    Vec2(Fract(v.x), Fract(v.y))
  }
}
