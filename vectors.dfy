/** Three-component real vectors, rays and the numeric builtins the shader calls. */
module Vectors {

  /** A GLSL `vec3`, over the reals. */
  datatype Vec3 = Vec3(x: real, y: real, z: real)

  const Zero: Vec3 := Vec3(0.0, 0.0, 0.0)

  function Add(a: Vec3, b: Vec3): Vec3 { Vec3(a.x + b.x, a.y + b.y, a.z + b.z) }

  function Sub(a: Vec3, b: Vec3): Vec3 { Vec3(a.x - b.x, a.y - b.y, a.z - b.z) }

  function Neg(a: Vec3): Vec3 { Vec3(-a.x, -a.y, -a.z) }

  /** `a * s` for a vector `a` and a scalar `s`. */
  function Scale(a: Vec3, s: real): Vec3 { Vec3(a.x * s, a.y * s, a.z * s) }

  function Dot(a: Vec3, b: Vec3): real { a.x * b.x + a.y * b.y + a.z * b.z }

  function Cross(a: Vec3, b: Vec3): Vec3 {
    Vec3(a.y * b.z - a.z * b.y, a.z * b.x - a.x * b.z, a.x * b.y - a.y * b.x)
  }

  /** A ray: origin `position` and (not necessarily unit) `direction`. */
  datatype Ray = Ray(position: Vec3, direction: Vec3)

  /** `getHitPos`: the point of the ray at parameter `t`. */
  function HitPos(r: Ray, t: real): Vec3 {
    Add(r.position, Scale(r.direction, t))
  }

  /** The point at parameter `t` determines `t` whenever the direction is not zero. */
  lemma HitPosDeterminesT(r: Ray, s: real, t: real)
    requires r.direction != Zero
    ensures HitPos(r, s) == HitPos(r, t) <==> s == t
  {
    if HitPos(r, s) == HitPos(r, t) {
      var d := r.direction;
      if d.x != 0.0 {
        assert d.x * s == d.x * t;
      } else if d.y != 0.0 {
        assert d.y * s == d.y * t;
      } else {
        assert d.z * s == d.z * t;
      }
    }
  }

  /**
   * The floating-point builtins the shader relies on, as uninterpreted real
   * functions chosen by the caller: `sqrt`, `sin`, `cos` and `normalize`.
   */
  datatype Numerics = Numerics(
    sqrt: real -> real,
    sin: real -> real,
    cos: real -> real,
    normalize: Vec3 -> Vec3)

  /** `num.sqrt` returns the non-negative square root of `x`. */
  predicate IsSqrt(num: Numerics, x: real) {
    num.sqrt(x) >= 0.0 && num.sqrt(x) * num.sqrt(x) == x
  }
}
