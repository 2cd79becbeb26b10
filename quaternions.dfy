/**
 * Quaternion rotations of the shader: `quat`, `quatInv`, `quatMul`, `quatRot`
 * and the two `rotateRay` overloads, with the algebra that makes a rotation
 * undoable and composable.
 */
module Quaternions {
  import opened Vectors

  /** A GLSL `vec4` used as a quaternion: vector part `v` (xyz), scalar part `w`. */
  datatype Quat = Quat(v: Vec3, w: real)

  /** `quat`: the rotation by `angle` about the axis `a`, that is (a sin(angle/2), cos(angle/2)). */
  function QuatOf(a: Vec3, angle: real, num: Numerics): Quat {
    var halfAngle := angle / 2.0;
    Quat(Scale(a, num.sin(halfAngle)), num.cos(halfAngle))
  }

  /** `quatInv`: the conjugate, which is the inverse of a unit quaternion. */
  function Inv(q: Quat): Quat { Quat(Neg(q.v), q.w) }

  /** `quatMul`: the Hamilton product. */
  function Mul(q1: Quat, q2: Quat): Quat {
    Quat(Add(Add(Scale(q2.v, q1.w), Scale(q1.v, q2.w)), Cross(q1.v, q2.v)),
         q1.w * q2.w - Dot(q1.v, q2.v))
  }

  /** A vector as a quaternion with zero scalar part, `vec4(p, 0)`. */
  function Pure(p: Vec3): Quat { Quat(p, 0.0) }

  /** `quatRot`: the vector part of `q * (p, 0) * quatInv(q)`. */
  function Rot(q: Quat, p: Vec3): Vec3 {
    Mul(Mul(q, Pure(p)), Inv(q)).v
  }

  /** `rotateRay(ray, quat)`: both origin and direction rotated. */
  function RotateRay(ray: Ray, q: Quat): Ray {
    Ray(Rot(q, ray.position), Rot(q, ray.direction))
  }

  /** `rotateRay(ray, quat, offset)`: the origin is translated by `offset` before rotating. */
  function RotateRayOffset(ray: Ray, q: Quat, offset: Vec3): Ray {
    Ray(Rot(q, Add(ray.position, offset)), Rot(q, ray.direction))
  }

  function NormSq(q: Quat): real { Dot(q.v, q.v) + q.w * q.w }

  predicate IsUnit(q: Quat) { NormSq(q) == 1.0 }

  /** The identity quaternion. */
  const One: Quat := Quat(Zero, 1.0)

  function QAdd(a: Quat, b: Quat): Quat { Quat(Add(a.v, b.v), a.w + b.w) }

  function QScale(a: Quat, s: real): Quat { Quat(Scale(a.v, s), a.w * s) }

  // ----- The algebra of the Hamilton product -----
  //
  // The algebraic laws are proved on a component form `MulC` of the product
  // (shown equal to `Mul` by `MulIsMulC`), one component at a time, through
  // small lemmas over plain real variables. This form is a proof device only:
  // the solver does not close the nonlinear identities on the vector form, and
  // it needs the per-component facts handed to it as separate lemmas (which
  // is why `MulParts`, `QScaleParts` and the `*Component*` lemmas look alike).

  /** The Hamilton product written component by component. */
  function MulC(p: Quat, q: Quat): Quat {
    Quat(Vec3(p.w * q.v.x + q.w * p.v.x + (p.v.y * q.v.z - p.v.z * q.v.y),
              p.w * q.v.y + q.w * p.v.y + (p.v.z * q.v.x - p.v.x * q.v.z),
              p.w * q.v.z + q.w * p.v.z + (p.v.x * q.v.y - p.v.y * q.v.x)),
         p.w * q.w - (p.v.x * q.v.x + p.v.y * q.v.y + p.v.z * q.v.z))
  }

  /** The components of `MulC(p, q)`, spelled out. */
  lemma MulParts(p: Quat, q: Quat)
    ensures MulC(p, q).v.x == p.w * q.v.x + q.w * p.v.x + (p.v.y * q.v.z - p.v.z * q.v.y)
    ensures MulC(p, q).v.y == p.w * q.v.y + q.w * p.v.y + (p.v.z * q.v.x - p.v.x * q.v.z)
    ensures MulC(p, q).v.z == p.w * q.v.z + q.w * p.v.z + (p.v.x * q.v.y - p.v.y * q.v.x)
    ensures MulC(p, q).w == p.w * q.w - (p.v.x * q.v.x + p.v.y * q.v.y + p.v.z * q.v.z)
  {
  }

  /** Component x of associativity, on reals: d = ab, e = bc. */
  lemma AssocComponentX(a1: real, a2: real, a3: real, a4: real, b1: real, b2: real, b3: real, b4: real, c1: real, c2: real, c3: real, c4: real, d1: real, d2: real, d3: real, d4: real, e1: real, e2: real, e3: real, e4: real)
    requires d1 == a4 * b1 + b4 * a1 + (a2 * b3 - a3 * b2)
    requires d2 == a4 * b2 + b4 * a2 + (a3 * b1 - a1 * b3)
    requires d3 == a4 * b3 + b4 * a3 + (a1 * b2 - a2 * b1)
    requires d4 == a4 * b4 - (a1 * b1 + a2 * b2 + a3 * b3)
    requires e1 == b4 * c1 + c4 * b1 + (b2 * c3 - b3 * c2)
    requires e2 == b4 * c2 + c4 * b2 + (b3 * c1 - b1 * c3)
    requires e3 == b4 * c3 + c4 * b3 + (b1 * c2 - b2 * c1)
    requires e4 == b4 * c4 - (b1 * c1 + b2 * c2 + b3 * c3)
    ensures d4 * c1 + c4 * d1 + (d2 * c3 - d3 * c2) == a4 * e1 + e4 * a1 + (a2 * e3 - a3 * e2)
  {
  }

  lemma MulCAssocX(a: Quat, b: Quat, c: Quat)
    ensures MulC(MulC(a, b), c).v.x == MulC(a, MulC(b, c)).v.x
  {
    MulParts(a, b);
    MulParts(b, c);
    MulParts(MulC(a, b), c);
    MulParts(a, MulC(b, c));
    AssocComponentX(a.v.x, a.v.y, a.v.z, a.w, b.v.x, b.v.y, b.v.z, b.w, c.v.x, c.v.y, c.v.z, c.w, MulC(a, b).v.x, MulC(a, b).v.y, MulC(a, b).v.z, MulC(a, b).w, MulC(b, c).v.x, MulC(b, c).v.y, MulC(b, c).v.z, MulC(b, c).w);
  }

  /** Component y of associativity, on reals: d = ab, e = bc. */
  lemma AssocComponentY(a1: real, a2: real, a3: real, a4: real, b1: real, b2: real, b3: real, b4: real, c1: real, c2: real, c3: real, c4: real, d1: real, d2: real, d3: real, d4: real, e1: real, e2: real, e3: real, e4: real)
    requires d1 == a4 * b1 + b4 * a1 + (a2 * b3 - a3 * b2)
    requires d2 == a4 * b2 + b4 * a2 + (a3 * b1 - a1 * b3)
    requires d3 == a4 * b3 + b4 * a3 + (a1 * b2 - a2 * b1)
    requires d4 == a4 * b4 - (a1 * b1 + a2 * b2 + a3 * b3)
    requires e1 == b4 * c1 + c4 * b1 + (b2 * c3 - b3 * c2)
    requires e2 == b4 * c2 + c4 * b2 + (b3 * c1 - b1 * c3)
    requires e3 == b4 * c3 + c4 * b3 + (b1 * c2 - b2 * c1)
    requires e4 == b4 * c4 - (b1 * c1 + b2 * c2 + b3 * c3)
    ensures d4 * c2 + c4 * d2 + (d3 * c1 - d1 * c3) == a4 * e2 + e4 * a2 + (a3 * e1 - a1 * e3)
  {
  }

  lemma MulCAssocY(a: Quat, b: Quat, c: Quat)
    ensures MulC(MulC(a, b), c).v.y == MulC(a, MulC(b, c)).v.y
  {
    MulParts(a, b);
    MulParts(b, c);
    MulParts(MulC(a, b), c);
    MulParts(a, MulC(b, c));
    AssocComponentY(a.v.x, a.v.y, a.v.z, a.w, b.v.x, b.v.y, b.v.z, b.w, c.v.x, c.v.y, c.v.z, c.w, MulC(a, b).v.x, MulC(a, b).v.y, MulC(a, b).v.z, MulC(a, b).w, MulC(b, c).v.x, MulC(b, c).v.y, MulC(b, c).v.z, MulC(b, c).w);
  }

  /** Component z of associativity, on reals: d = ab, e = bc. */
  lemma AssocComponentZ(a1: real, a2: real, a3: real, a4: real, b1: real, b2: real, b3: real, b4: real, c1: real, c2: real, c3: real, c4: real, d1: real, d2: real, d3: real, d4: real, e1: real, e2: real, e3: real, e4: real)
    requires d1 == a4 * b1 + b4 * a1 + (a2 * b3 - a3 * b2)
    requires d2 == a4 * b2 + b4 * a2 + (a3 * b1 - a1 * b3)
    requires d3 == a4 * b3 + b4 * a3 + (a1 * b2 - a2 * b1)
    requires d4 == a4 * b4 - (a1 * b1 + a2 * b2 + a3 * b3)
    requires e1 == b4 * c1 + c4 * b1 + (b2 * c3 - b3 * c2)
    requires e2 == b4 * c2 + c4 * b2 + (b3 * c1 - b1 * c3)
    requires e3 == b4 * c3 + c4 * b3 + (b1 * c2 - b2 * c1)
    requires e4 == b4 * c4 - (b1 * c1 + b2 * c2 + b3 * c3)
    ensures d4 * c3 + c4 * d3 + (d1 * c2 - d2 * c1) == a4 * e3 + e4 * a3 + (a1 * e2 - a2 * e1)
  {
  }

  lemma MulCAssocZ(a: Quat, b: Quat, c: Quat)
    ensures MulC(MulC(a, b), c).v.z == MulC(a, MulC(b, c)).v.z
  {
    MulParts(a, b);
    MulParts(b, c);
    MulParts(MulC(a, b), c);
    MulParts(a, MulC(b, c));
    AssocComponentZ(a.v.x, a.v.y, a.v.z, a.w, b.v.x, b.v.y, b.v.z, b.w, c.v.x, c.v.y, c.v.z, c.w, MulC(a, b).v.x, MulC(a, b).v.y, MulC(a, b).v.z, MulC(a, b).w, MulC(b, c).v.x, MulC(b, c).v.y, MulC(b, c).v.z, MulC(b, c).w);
  }

  /** Component w of associativity, on reals: d = ab, e = bc. */
  lemma AssocComponentW(a1: real, a2: real, a3: real, a4: real, b1: real, b2: real, b3: real, b4: real, c1: real, c2: real, c3: real, c4: real, d1: real, d2: real, d3: real, d4: real, e1: real, e2: real, e3: real, e4: real)
    requires d1 == a4 * b1 + b4 * a1 + (a2 * b3 - a3 * b2)
    requires d2 == a4 * b2 + b4 * a2 + (a3 * b1 - a1 * b3)
    requires d3 == a4 * b3 + b4 * a3 + (a1 * b2 - a2 * b1)
    requires d4 == a4 * b4 - (a1 * b1 + a2 * b2 + a3 * b3)
    requires e1 == b4 * c1 + c4 * b1 + (b2 * c3 - b3 * c2)
    requires e2 == b4 * c2 + c4 * b2 + (b3 * c1 - b1 * c3)
    requires e3 == b4 * c3 + c4 * b3 + (b1 * c2 - b2 * c1)
    requires e4 == b4 * c4 - (b1 * c1 + b2 * c2 + b3 * c3)
    ensures d4 * c4 - (d1 * c1 + d2 * c2 + d3 * c3) == a4 * e4 - (a1 * e1 + a2 * e2 + a3 * e3)
  {
  }

  lemma MulCAssocW(a: Quat, b: Quat, c: Quat)
    ensures MulC(MulC(a, b), c).w == MulC(a, MulC(b, c)).w
  {
    MulParts(a, b);
    MulParts(b, c);
    MulParts(MulC(a, b), c);
    MulParts(a, MulC(b, c));
    AssocComponentW(a.v.x, a.v.y, a.v.z, a.w, b.v.x, b.v.y, b.v.z, b.w, c.v.x, c.v.y, c.v.z, c.w, MulC(a, b).v.x, MulC(a, b).v.y, MulC(a, b).v.z, MulC(a, b).w, MulC(b, c).v.x, MulC(b, c).v.y, MulC(b, c).v.z, MulC(b, c).w);
  }

  lemma MulCAssoc(a: Quat, b: Quat, c: Quat)
    ensures MulC(MulC(a, b), c) == MulC(a, MulC(b, c))
  {
    MulCAssocX(a, b, c);
    MulCAssocY(a, b, c);
    MulCAssocZ(a, b, c);
    MulCAssocW(a, b, c);
  }

  /** The scalar part of q (p, 0) conj(q) vanishes, on reals: m = qp, j = conj(q). */
  lemma SandwichComponentW(q1: real, q2: real, q3: real, q4: real, p1: real, p2: real, p3: real, p4: real, j1: real, j2: real, j3: real, j4: real, m1: real, m2: real, m3: real, m4: real)
    requires p4 == 0.0
    requires j1 == -q1
    requires j2 == -q2
    requires j3 == -q3
    requires j4 == q4
    requires m1 == q4 * p1 + p4 * q1 + (q2 * p3 - q3 * p2)
    requires m2 == q4 * p2 + p4 * q2 + (q3 * p1 - q1 * p3)
    requires m3 == q4 * p3 + p4 * q3 + (q1 * p2 - q2 * p1)
    requires m4 == q4 * p4 - (q1 * p1 + q2 * p2 + q3 * p3)
    ensures m4 * j4 - (m1 * j1 + m2 * j2 + m3 * j3) == 0.0
  {
  }

  lemma SandwichScalarZero(q: Quat, p: Vec3)
    ensures MulC(MulC(q, Pure(p)), Inv(q)).w == 0.0
  {
    MulParts(q, Pure(p));
    MulParts(MulC(q, Pure(p)), Inv(q));
    SandwichComponentW(q.v.x, q.v.y, q.v.z, q.w, Pure(p).v.x, Pure(p).v.y, Pure(p).v.z, Pure(p).w, Inv(q).v.x, Inv(q).v.y, Inv(q).v.z, Inv(q).w, MulC(q, Pure(p)).v.x, MulC(q, Pure(p)).v.y, MulC(q, Pure(p)).v.z, MulC(q, Pure(p)).w);
  }

  /** Euler's four-square identity, on reals: r = ab. */
  lemma NormComponents(a1: real, a2: real, a3: real, a4: real, b1: real, b2: real, b3: real, b4: real, r1: real, r2: real, r3: real, r4: real)
    requires r1 == a4 * b1 + b4 * a1 + (a2 * b3 - a3 * b2)
    requires r2 == a4 * b2 + b4 * a2 + (a3 * b1 - a1 * b3)
    requires r3 == a4 * b3 + b4 * a3 + (a1 * b2 - a2 * b1)
    requires r4 == a4 * b4 - (a1 * b1 + a2 * b2 + a3 * b3)
    ensures r1 * r1 + r2 * r2 + r3 * r3 + r4 * r4 == (a1 * a1 + a2 * a2 + a3 * a3 + a4 * a4) * (b1 * b1 + b2 * b2 + b3 * b3 + b4 * b4)
  {
  }

  lemma MulCNorm(a: Quat, b: Quat)
    ensures NormSq(MulC(a, b)) == NormSq(a) * NormSq(b)
  {
    MulParts(a, b);
    NormComponents(a.v.x, a.v.y, a.v.z, a.w, b.v.x, b.v.y, b.v.z, b.w, MulC(a, b).v.x, MulC(a, b).v.y, MulC(a, b).v.z, MulC(a, b).w);
  }

  /** Component x of scaling the right factor, on reals: b = a s. */
  lemma QScaleParts(a: Quat, s: real)
    ensures QScale(a, s).v.x == a.v.x * s && QScale(a, s).v.y == a.v.y * s
    ensures QScale(a, s).v.z == a.v.z * s && QScale(a, s).w == a.w * s
  {
  }

  lemma ScaleRightComponentX(q1: real, q2: real, q3: real, q4: real, a1: real, a2: real, a3: real, a4: real, b1: real, b2: real, b3: real, b4: real, s: real)
    requires b1 == a1 * s
    requires b2 == a2 * s
    requires b3 == a3 * s
    requires b4 == a4 * s
    ensures q4 * b1 + b4 * q1 + (q2 * b3 - q3 * b2) == (q4 * a1 + a4 * q1 + (q2 * a3 - q3 * a2)) * s
  {
  }

  lemma MulCScaleRightX(q: Quat, a: Quat, s: real)
    ensures MulC(q, QScale(a, s)).v.x == MulC(q, a).v.x * s
  {
    var b := QScale(a, s);
    QScaleParts(a, s);
    MulParts(q, a);
    MulParts(q, b);
    ScaleRightComponentX(q.v.x, q.v.y, q.v.z, q.w, a.v.x, a.v.y, a.v.z, a.w, b.v.x, b.v.y, b.v.z, b.w, s);
  }

  /** Component y of scaling the right factor, on reals: b = a s. */
  lemma ScaleRightComponentY(q1: real, q2: real, q3: real, q4: real, a1: real, a2: real, a3: real, a4: real, b1: real, b2: real, b3: real, b4: real, s: real)
    requires b1 == a1 * s
    requires b2 == a2 * s
    requires b3 == a3 * s
    requires b4 == a4 * s
    ensures q4 * b2 + b4 * q2 + (q3 * b1 - q1 * b3) == (q4 * a2 + a4 * q2 + (q3 * a1 - q1 * a3)) * s
  {
  }

  lemma MulCScaleRightY(q: Quat, a: Quat, s: real)
    ensures MulC(q, QScale(a, s)).v.y == MulC(q, a).v.y * s
  {
    var b := QScale(a, s);
    QScaleParts(a, s);
    MulParts(q, a);
    MulParts(q, b);
    ScaleRightComponentY(q.v.x, q.v.y, q.v.z, q.w, a.v.x, a.v.y, a.v.z, a.w, b.v.x, b.v.y, b.v.z, b.w, s);
  }

  /** Component z of scaling the right factor, on reals: b = a s. */
  lemma ScaleRightComponentZ(q1: real, q2: real, q3: real, q4: real, a1: real, a2: real, a3: real, a4: real, b1: real, b2: real, b3: real, b4: real, s: real)
    requires b1 == a1 * s
    requires b2 == a2 * s
    requires b3 == a3 * s
    requires b4 == a4 * s
    ensures q4 * b3 + b4 * q3 + (q1 * b2 - q2 * b1) == (q4 * a3 + a4 * q3 + (q1 * a2 - q2 * a1)) * s
  {
  }

  lemma MulCScaleRightZ(q: Quat, a: Quat, s: real)
    ensures MulC(q, QScale(a, s)).v.z == MulC(q, a).v.z * s
  {
    var b := QScale(a, s);
    QScaleParts(a, s);
    MulParts(q, a);
    MulParts(q, b);
    ScaleRightComponentZ(q.v.x, q.v.y, q.v.z, q.w, a.v.x, a.v.y, a.v.z, a.w, b.v.x, b.v.y, b.v.z, b.w, s);
  }

  /** Component w of scaling the right factor, on reals: b = a s. */
  lemma ScaleRightComponentW(q1: real, q2: real, q3: real, q4: real, a1: real, a2: real, a3: real, a4: real, b1: real, b2: real, b3: real, b4: real, s: real)
    requires b1 == a1 * s
    requires b2 == a2 * s
    requires b3 == a3 * s
    requires b4 == a4 * s
    ensures q4 * b4 - (q1 * b1 + q2 * b2 + q3 * b3) == (q4 * a4 - (q1 * a1 + q2 * a2 + q3 * a3)) * s
  {
  }

  lemma MulCScaleRightW(q: Quat, a: Quat, s: real)
    ensures MulC(q, QScale(a, s)).w == MulC(q, a).w * s
  {
    var b := QScale(a, s);
    QScaleParts(a, s);
    MulParts(q, a);
    MulParts(q, b);
    ScaleRightComponentW(q.v.x, q.v.y, q.v.z, q.w, a.v.x, a.v.y, a.v.z, a.w, b.v.x, b.v.y, b.v.z, b.w, s);
  }

  lemma MulCScaleRight(q: Quat, a: Quat, s: real)
    ensures MulC(q, QScale(a, s)) == QScale(MulC(q, a), s)
  {
    MulCScaleRightX(q, a, s);
    MulCScaleRightY(q, a, s);
    MulCScaleRightZ(q, a, s);
    MulCScaleRightW(q, a, s);
  }

  /** Component x of scaling the left factor, on reals: b = a s. */
  lemma ScaleLeftComponentX(q1: real, q2: real, q3: real, q4: real, a1: real, a2: real, a3: real, a4: real, b1: real, b2: real, b3: real, b4: real, s: real)
    requires b1 == a1 * s
    requires b2 == a2 * s
    requires b3 == a3 * s
    requires b4 == a4 * s
    ensures b4 * q1 + q4 * b1 + (b2 * q3 - b3 * q2) == (a4 * q1 + q4 * a1 + (a2 * q3 - a3 * q2)) * s
  {
  }

  lemma MulCScaleLeftX(q: Quat, a: Quat, s: real)
    ensures MulC(QScale(a, s), q).v.x == MulC(a, q).v.x * s
  {
    var b := QScale(a, s);
    QScaleParts(a, s);
    MulParts(a, q);
    MulParts(b, q);
    ScaleLeftComponentX(q.v.x, q.v.y, q.v.z, q.w, a.v.x, a.v.y, a.v.z, a.w, b.v.x, b.v.y, b.v.z, b.w, s);
  }

  /** Component y of scaling the left factor, on reals: b = a s. */
  lemma ScaleLeftComponentY(q1: real, q2: real, q3: real, q4: real, a1: real, a2: real, a3: real, a4: real, b1: real, b2: real, b3: real, b4: real, s: real)
    requires b1 == a1 * s
    requires b2 == a2 * s
    requires b3 == a3 * s
    requires b4 == a4 * s
    ensures b4 * q2 + q4 * b2 + (b3 * q1 - b1 * q3) == (a4 * q2 + q4 * a2 + (a3 * q1 - a1 * q3)) * s
  {
  }

  lemma MulCScaleLeftY(q: Quat, a: Quat, s: real)
    ensures MulC(QScale(a, s), q).v.y == MulC(a, q).v.y * s
  {
    var b := QScale(a, s);
    QScaleParts(a, s);
    MulParts(a, q);
    MulParts(b, q);
    ScaleLeftComponentY(q.v.x, q.v.y, q.v.z, q.w, a.v.x, a.v.y, a.v.z, a.w, b.v.x, b.v.y, b.v.z, b.w, s);
  }

  /** Component z of scaling the left factor, on reals: b = a s. */
  lemma ScaleLeftComponentZ(q1: real, q2: real, q3: real, q4: real, a1: real, a2: real, a3: real, a4: real, b1: real, b2: real, b3: real, b4: real, s: real)
    requires b1 == a1 * s
    requires b2 == a2 * s
    requires b3 == a3 * s
    requires b4 == a4 * s
    ensures b4 * q3 + q4 * b3 + (b1 * q2 - b2 * q1) == (a4 * q3 + q4 * a3 + (a1 * q2 - a2 * q1)) * s
  {
  }

  lemma MulCScaleLeftZ(q: Quat, a: Quat, s: real)
    ensures MulC(QScale(a, s), q).v.z == MulC(a, q).v.z * s
  {
    var b := QScale(a, s);
    QScaleParts(a, s);
    MulParts(a, q);
    MulParts(b, q);
    ScaleLeftComponentZ(q.v.x, q.v.y, q.v.z, q.w, a.v.x, a.v.y, a.v.z, a.w, b.v.x, b.v.y, b.v.z, b.w, s);
  }

  /** Component w of scaling the left factor, on reals: b = a s. */
  lemma ScaleLeftComponentW(q1: real, q2: real, q3: real, q4: real, a1: real, a2: real, a3: real, a4: real, b1: real, b2: real, b3: real, b4: real, s: real)
    requires b1 == a1 * s
    requires b2 == a2 * s
    requires b3 == a3 * s
    requires b4 == a4 * s
    ensures b4 * q4 - (b1 * q1 + b2 * q2 + b3 * q3) == (a4 * q4 - (a1 * q1 + a2 * q2 + a3 * q3)) * s
  {
  }

  lemma MulCScaleLeftW(q: Quat, a: Quat, s: real)
    ensures MulC(QScale(a, s), q).w == MulC(a, q).w * s
  {
    var b := QScale(a, s);
    QScaleParts(a, s);
    MulParts(a, q);
    MulParts(b, q);
    ScaleLeftComponentW(q.v.x, q.v.y, q.v.z, q.w, a.v.x, a.v.y, a.v.z, a.w, b.v.x, b.v.y, b.v.z, b.w, s);
  }

  lemma MulCScaleLeft(q: Quat, a: Quat, s: real)
    ensures MulC(QScale(a, s), q) == QScale(MulC(a, q), s)
  {
    MulCScaleLeftX(q, a, s);
    MulCScaleLeftY(q, a, s);
    MulCScaleLeftZ(q, a, s);
    MulCScaleLeftW(q, a, s);
  }

  lemma MulCAddRight(q: Quat, a: Quat, b: Quat)
    ensures MulC(q, QAdd(a, b)) == QAdd(MulC(q, a), MulC(q, b))
  {
    MulParts(q, a);
    MulParts(q, b);
    MulParts(q, QAdd(a, b));
  }

  lemma MulCAddLeft(q: Quat, a: Quat, b: Quat)
    ensures MulC(QAdd(a, b), q) == QAdd(MulC(a, q), MulC(b, q))
  {
    MulParts(a, q);
    MulParts(b, q);
    MulParts(QAdd(a, b), q);
  }

  lemma MulCInvLeft(q: Quat)
    ensures MulC(Inv(q), q) == Quat(Zero, NormSq(q))
  {
    MulParts(Inv(q), q);
  }

  lemma MulCReal(n: real, x: Quat)
    ensures MulC(Quat(Zero, n), x) == QScale(x, n)
    ensures MulC(x, Quat(Zero, n)) == QScale(x, n)
  {
    MulParts(Quat(Zero, n), x);
    MulParts(x, Quat(Zero, n));
    QScaleParts(x, n);
  }

  lemma InvMulC(a: Quat, b: Quat)
    ensures Inv(MulC(a, b)) == MulC(Inv(b), Inv(a))
  {
    MulParts(a, b);
    MulParts(Inv(b), Inv(a));
  }

  // ----- Properties of the shader's quaternion functions -----

  /** `quatMul` agrees with the component form. */
  lemma MulIsMulC(p: Quat, q: Quat)
    ensures Mul(p, q) == MulC(p, q)
  {
  }

  /** `quatMul` is associative. */
  lemma MulAssoc(a: Quat, b: Quat, c: Quat)
    ensures Mul(Mul(a, b), c) == Mul(a, Mul(b, c))
  {
    MulIsMulC(a, b);
    MulIsMulC(b, c);
    MulIsMulC(Mul(a, b), c);
    MulIsMulC(a, Mul(b, c));
    MulCAssoc(a, b, c);
  }

  /** A conjugate has the same norm. */
  lemma NormSqInv(q: Quat)
    ensures NormSq(Inv(q)) == NormSq(q)
  {
    assert (-q.v.x) * (-q.v.x) == q.v.x * q.v.x;
    assert (-q.v.y) * (-q.v.y) == q.v.y * q.v.y;
    assert (-q.v.z) * (-q.v.z) == q.v.z * q.v.z;
  }

  /** `quatInv` is an involution. */
  lemma InvInvolution(q: Quat)
    ensures Inv(Inv(q)) == q
  {
  }

  /** `quatInv` reverses products: the conjugate of q1 q2 is conj(q2) conj(q1). */
  lemma InvMul(a: Quat, b: Quat)
    ensures Inv(Mul(a, b)) == Mul(Inv(b), Inv(a))
  {
    MulIsMulC(a, b);
    MulIsMulC(Inv(b), Inv(a));
    InvMulC(a, b);
  }

  /** For a unit quaternion, `quatInv` is a two-sided inverse under `quatMul`. */
  lemma InvIsInverse(q: Quat)
    requires IsUnit(q)
    ensures Mul(Inv(q), q) == One
    ensures Mul(q, Inv(q)) == One
  {
    MulIsMulC(Inv(q), q);
    MulCInvLeft(q);
    MulIsMulC(q, Inv(q));
    MulCInvLeft(Inv(q));
    NormSqInv(q);
  }

  lemma RotIsMulC(q: Quat, p: Vec3)
    ensures Rot(q, p) == MulC(MulC(q, Pure(p)), Inv(q)).v
  {
    MulIsMulC(q, Pure(p));
    MulIsMulC(Mul(q, Pure(p)), Inv(q));
  }

  /** Rotating a vector with `quatRot` gives a vector again: the sandwich has scalar part zero. */
  lemma SandwichIsPure(q: Quat, p: Vec3)
    ensures Mul(Mul(q, Pure(p)), Inv(q)) == Pure(Rot(q, p))
  {
    MulIsMulC(q, Pure(p));
    MulIsMulC(Mul(q, Pure(p)), Inv(q));
    SandwichScalarZero(q, p);
  }

  /** The sandwich in component form is the pure quaternion of the rotated vector. */
  lemma SandwichCIsPure(q: Quat, p: Vec3)
    ensures MulC(MulC(q, Pure(p)), Inv(q)) == Pure(Rot(q, p))
  {
    RotIsMulC(q, p);
    SandwichScalarZero(q, p);
  }

  /** For a unit q, `J * (q * P)` is `P` and `(P * J) * q` is `P` again, where J is q's conjugate. */
  lemma CancelLeft(q: Quat, x: Quat)
    requires IsUnit(q)
    ensures MulC(Inv(q), MulC(q, x)) == x
    ensures MulC(MulC(x, Inv(q)), q) == x
  {
    MulCAssoc(Inv(q), q, x);
    MulCInvLeft(q);
    MulCReal(1.0, x);
    MulCAssoc(x, Inv(q), q);
  }

  /** For a unit q, rotating by q and then by `quatInv(q)` gives the vector back, and the other way round. */
  lemma RotRoundTrip(q: Quat, p: Vec3)
    requires IsUnit(q)
    ensures Rot(Inv(q), Rot(q, p)) == p
    ensures Rot(q, Rot(Inv(q), p)) == p
  {
    var P, J := Pure(p), Inv(q);
    SandwichCIsPure(q, p);
    RotIsMulC(J, Rot(q, p));
    InvIsInverse(q);
    calc {
      MulC(MulC(J, MulC(MulC(q, P), J)), q);
      { MulCAssoc(J, MulC(q, P), J); }
      MulC(MulC(MulC(J, MulC(q, P)), J), q);
      { CancelLeft(q, P); }
      MulC(MulC(P, J), q);
      { CancelLeft(q, P); }
      P;
    }
    NormSqInv(q);
    SandwichCIsPure(J, p);
    RotIsMulC(q, Rot(J, p));
    calc {
      MulC(MulC(q, MulC(MulC(J, P), q)), J);
      { MulCAssoc(q, MulC(J, P), q); }
      MulC(MulC(MulC(q, MulC(J, P)), q), J);
      { CancelLeft(J, P); }
      MulC(MulC(P, q), J);
      { CancelLeft(J, P); }
      P;
    }
  }

  /** Rotating by b and then by a is rotating by `quatMul(a, b)`. */
  lemma RotCompose(a: Quat, b: Quat, p: Vec3)
    ensures Rot(a, Rot(b, p)) == Rot(Mul(a, b), p)
  {
    var P := Pure(p);
    SandwichCIsPure(b, p);
    RotIsMulC(a, Rot(b, p));
    MulIsMulC(a, b);
    RotIsMulC(Mul(a, b), p);
    InvMulC(a, b);
    calc {
      MulC(MulC(a, MulC(MulC(b, P), Inv(b))), Inv(a));
      { MulCAssoc(a, MulC(b, P), Inv(b)); }
      MulC(MulC(MulC(a, MulC(b, P)), Inv(b)), Inv(a));
      { MulCAssoc(a, b, P); }
      MulC(MulC(MulC(MulC(a, b), P), Inv(b)), Inv(a));
      { MulCAssoc(MulC(MulC(a, b), P), Inv(b), Inv(a)); }
      MulC(MulC(MulC(a, b), P), MulC(Inv(b), Inv(a)));
    }
  }

  /** `quatRot` is additive in the vector. */
  lemma RotAdd(q: Quat, a: Vec3, b: Vec3)
    ensures Rot(q, Add(a, b)) == Add(Rot(q, a), Rot(q, b))
  {
    assert Pure(Add(a, b)) == QAdd(Pure(a), Pure(b));
    RotIsMulC(q, Add(a, b));
    RotIsMulC(q, a);
    RotIsMulC(q, b);
    MulCAddRight(q, Pure(a), Pure(b));
    MulCAddLeft(Inv(q), MulC(q, Pure(a)), MulC(q, Pure(b)));
  }

  /** `quatRot` is homogeneous in the vector. */
  lemma RotScale(q: Quat, p: Vec3, s: real)
    ensures Rot(q, Scale(p, s)) == Scale(Rot(q, p), s)
  {
    assert Pure(Scale(p, s)) == QScale(Pure(p), s);
    RotIsMulC(q, Scale(p, s));
    RotIsMulC(q, p);
    MulCScaleRight(q, Pure(p), s);
    MulCScaleLeft(Inv(q), MulC(q, Pure(p)), s);
  }

  /** The norm of a product is the product of the norms. */
  lemma MulNorm(a: Quat, b: Quat)
    ensures NormSq(Mul(a, b)) == NormSq(a) * NormSq(b)
  {
    MulIsMulC(a, b);
    MulCNorm(a, b);
  }

  /** A unit quaternion's rotation keeps lengths. */
  lemma RotPreservesLength(q: Quat, p: Vec3)
    requires IsUnit(q)
    ensures Dot(Rot(q, p), Rot(q, p)) == Dot(p, p)
  {
    SandwichCIsPure(q, p);
    MulCNorm(MulC(q, Pure(p)), Inv(q));
    MulCNorm(q, Pure(p));
    NormSqInv(q);
  }

  lemma DotAddSelf(a: Vec3, b: Vec3)
    ensures Dot(Add(a, b), Add(a, b)) == Dot(a, a) + 2.0 * Dot(a, b) + Dot(b, b)
  {
  }

  /** A unit quaternion's rotation keeps dot products, hence angles. */
  lemma RotPreservesDot(q: Quat, a: Vec3, b: Vec3)
    requires IsUnit(q)
    ensures Dot(Rot(q, a), Rot(q, b)) == Dot(a, b)
  {
    RotAdd(q, a, b);
    RotPreservesLength(q, Add(a, b));
    RotPreservesLength(q, a);
    RotPreservesLength(q, b);
    DotAddSelf(a, b);
    DotAddSelf(Rot(q, a), Rot(q, b));
  }

  /** `quat` of a unit axis is a unit quaternion when sin and cos of the half angle satisfy the Pythagorean identity. */
  lemma QuatOfIsUnit(a: Vec3, angle: real, num: Numerics)
    requires Dot(a, a) == 1.0
    requires num.sin(angle / 2.0) * num.sin(angle / 2.0) + num.cos(angle / 2.0) * num.cos(angle / 2.0) == 1.0
    ensures IsUnit(QuatOf(a, angle, num))
  {
    var s, c := num.sin(angle / 2.0), num.cos(angle / 2.0);
    assert (a.x * s) * (a.x * s) + (a.y * s) * (a.y * s) + (a.z * s) * (a.z * s) == Dot(a, a) * (s * s);
  }

  /** The origin and direction of a rotated ray are the rotated origin and direction; so is every point on it. */
  lemma RotateRayHitPos(ray: Ray, q: Quat, t: real)
    ensures HitPos(RotateRay(ray, q), t) == Rot(q, HitPos(ray, t))
  {
    RotAdd(q, ray.position, Scale(ray.direction, t));
    RotScale(q, ray.direction, t);
  }

  /** The ray rotated about the offset point: its points are the original ones, shifted by the offset, then rotated. */
  lemma RotateRayOffsetHitPos(ray: Ray, q: Quat, offset: Vec3, t: real)
    ensures HitPos(RotateRayOffset(ray, q, offset), t) == Rot(q, Add(HitPos(ray, t), offset))
  {
    assert Add(HitPos(ray, t), offset) == Add(Add(ray.position, offset), Scale(ray.direction, t));
    RotAdd(q, Add(ray.position, offset), Scale(ray.direction, t));
    RotScale(q, ray.direction, t);
  }

  /** For a unit q, rotating a ray by `quatInv(q)` undoes `rotateRay(ray, q)`. */
  lemma RotateRayRoundTrip(ray: Ray, q: Quat)
    requires IsUnit(q)
    ensures RotateRay(RotateRay(ray, q), Inv(q)) == ray
    ensures RotateRay(RotateRay(ray, Inv(q)), q) == ray
  {
    RotRoundTrip(q, ray.position);
    RotRoundTrip(q, ray.direction);
  }

  /** For a unit q, rotating by `quatInv(q)` undoes the offset overload up to the offset itself. */
  lemma RotateRayOffsetRoundTrip(ray: Ray, q: Quat, offset: Vec3)
    requires IsUnit(q)
    ensures RotateRay(RotateRayOffset(ray, q, offset), Inv(q)) == Ray(Add(ray.position, offset), ray.direction)
  {
    RotRoundTrip(q, Add(ray.position, offset));
    RotRoundTrip(q, ray.direction);
  }

  /** q (a, 0) for q = (s a, w) and a unit vector a, on reals. */
  lemma AxisProductComponents(a1: real, a2: real, a3: real, s: real, w: real, m1: real, m2: real, m3: real, m4: real)
    requires a1 * a1 + a2 * a2 + a3 * a3 == 1.0
    requires m1 == w * a1 + 0.0 * (a1 * s) + ((a2 * s) * a3 - (a3 * s) * a2)
    requires m2 == w * a2 + 0.0 * (a2 * s) + ((a3 * s) * a1 - (a1 * s) * a3)
    requires m3 == w * a3 + 0.0 * (a3 * s) + ((a1 * s) * a2 - (a2 * s) * a1)
    requires m4 == w * 0.0 - ((a1 * s) * a1 + (a2 * s) * a2 + (a3 * s) * a3)
    ensures m1 == a1 * w && m2 == a2 * w && m3 == a3 * w && m4 == -s
  {
  }

  /** (w a, -s) conj(q) for q = (s a, w), on reals. */
  lemma AxisSandwichComponents(a1: real, a2: real, a3: real, s: real, w: real, r1: real, r2: real, r3: real)
    requires s * s + w * w == 1.0
    requires r1 == (-s) * (-(a1 * s)) + w * (a1 * w) + ((a2 * w) * (-(a3 * s)) - (a3 * w) * (-(a2 * s)))
    requires r2 == (-s) * (-(a2 * s)) + w * (a2 * w) + ((a3 * w) * (-(a1 * s)) - (a1 * w) * (-(a3 * s)))
    requires r3 == (-s) * (-(a3 * s)) + w * (a3 * w) + ((a1 * w) * (-(a2 * s)) - (a2 * w) * (-(a1 * s)))
    ensures r1 == a1
    ensures r2 == a2
    ensures r3 == a3
  {
  }

  lemma AxisProduct(q: Quat, a: Vec3, s: real)
    requires Dot(a, a) == 1.0
    requires q.v == Scale(a, s)
    ensures MulC(q, Pure(a)) == Quat(Scale(a, q.w), -s)
  {
    var m := MulC(q, Pure(a));
    MulParts(q, Pure(a));
    AxisProductComponents(a.x, a.y, a.z, s, q.w, m.v.x, m.v.y, m.v.z, m.w);
  }

  lemma AxisSandwich(q: Quat, a: Vec3, s: real)
    requires q.v == Scale(a, s)
    requires s * s + q.w * q.w == 1.0
    ensures MulC(Quat(Scale(a, q.w), -s), Inv(q)).v == a
  {
    assert q.v.x == a.x * s && q.v.y == a.y * s && q.v.z == a.z * s;
    var j, m := Inv(q), Quat(Scale(a, q.w), -s);
    var r := MulC(m, j);
    MulParts(m, j);
    AxisSandwichComponents(a.x, a.y, a.z, s, q.w, r.v.x, r.v.y, r.v.z);
  }

  /** A rotation whose vector part lies along the unit vector a leaves a where it is. */
  lemma RotFixesAxis(q: Quat, a: Vec3, s: real)
    requires Dot(a, a) == 1.0
    requires q.v == Scale(a, s)
    requires IsUnit(q)
    ensures Rot(q, a) == a
  {
    assert Dot(q.v, q.v) == s * s * Dot(a, a);
    AxisProduct(q, a, s);
    AxisSandwich(q, a, s);
    RotIsMulC(q, a);
  }
}
