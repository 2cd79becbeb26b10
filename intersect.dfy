/**
 * The shader's ray-surface intersectors `hitSphere`, `hitCylinder`,
 * `hitParaboloid`, `hitPlane` and `hitCircPlane`, each with the
 * geometric property that makes its answer right.
 */
module Intersect {
  import opened Vectors
  import opened Hits

  datatype Sphere = Sphere(position: Vec3, radius: real)

  /** An open tube about the vertical line through `position`, from `position.y` up to `position.y + height`. */
  datatype Cylinder = Cylinder(position: Vec3, radius: real, height: real)

  /** The bowl y - p.y = (x - p.x)² + (z - p.z)², cut off at `height` above its vertex `position`. */
  datatype Paraboloid = Paraboloid(position: Vec3, height: real)

  datatype Plane = Plane(position: Vec3, normal: Vec3)

  datatype CirclePlane = CirclePlane(position: Vec3, normal: Vec3, radius: real)

  // ----- Quadratics -----

  datatype Quadratic = Quadratic(a: real, b: real, c: real)

  function Disc(q: Quadratic): real { q.b * q.b - 4.0 * q.a * q.c }

  function Eval(q: Quadratic, t: real): real { q.a * t * t + q.b * t + q.c }

  function LowRoot(q: Quadratic, sq: real): real
    requires q.a != 0.0
  { (-q.b - sq) / (2.0 * q.a) }

  function HighRoot(q: Quadratic, sq: real): real
    requires q.a != 0.0
  { (-q.b + sq) / (2.0 * q.a) }

  /** Completing the square: 4a (a t² + b t + c) = (2a t + b)² - (b² - 4ac). */
  lemma CompleteSquare(q: Quadratic, t: real)
    ensures 4.0 * q.a * Eval(q, t) == (2.0 * q.a * t + q.b) * (2.0 * q.a * t + q.b) - Disc(q)
  {
  }

  lemma RootsAreZeros(q: Quadratic, sq: real)
    requires q.a != 0.0
    requires sq * sq == Disc(q)
    ensures Eval(q, LowRoot(q, sq)) == 0.0
    ensures Eval(q, HighRoot(q, sq)) == 0.0
  {
    var lo, hi := LowRoot(q, sq), HighRoot(q, sq);
    assert 2.0 * q.a * lo == -q.b - sq;
    assert 2.0 * q.a * hi == -q.b + sq;
    CompleteSquare(q, lo);
    CompleteSquare(q, hi);
  }

  lemma ZerosAreRoots(q: Quadratic, sq: real, t: real)
    requires q.a != 0.0
    requires sq * sq == Disc(q)
    requires Eval(q, t) == 0.0
    ensures t == LowRoot(q, sq) || t == HighRoot(q, sq)
  {
    var u := 2.0 * q.a * t + q.b;
    CompleteSquare(q, t);
    assert (u - sq) * (u + sq) == 0.0;
    if u == sq {
      assert 2.0 * q.a * t == -q.b + sq;
    } else {
      assert u == -sq;
      assert 2.0 * q.a * t == -q.b - sq;
    }
  }

  lemma NoZeros(q: Quadratic, t: real)
    requires q.a != 0.0
    requires Disc(q) < 0.0
    ensures Eval(q, t) != 0.0
  {
    var u := 2.0 * q.a * t + q.b;
    CompleteSquare(q, t);
    assert u * u >= 0.0;
    assert 4.0 * q.a * Eval(q, t) > 0.0;
  }

  lemma RootsOrdered(q: Quadratic, sq: real)
    requires q.a > 0.0 && sq >= 0.0
    ensures LowRoot(q, sq) <= HighRoot(q, sq)
  {
    var lo, hi := LowRoot(q, sq), HighRoot(q, sq);
    assert 2.0 * q.a * lo == -q.b - sq;
    assert 2.0 * q.a * hi == -q.b + sq;
    assert 2.0 * q.a * (hi - lo) == 2.0 * sq;
  }

  // ----- Surfaces -----

  /** The `xz` part of a vector (a GLSL `.xz` swizzle), kept in 3-space with y = 0. */
  function Flat(v: Vec3): Vec3 { Vec3(v.x, 0.0, v.z) }

  predicate OnSphere(p: Vec3, s: Sphere) {
    Dot(Sub(p, s.position), Sub(p, s.position)) == s.radius * s.radius
  }

  predicate OnCylinderWall(p: Vec3, c: Cylinder) {
    Dot(Flat(Sub(p, c.position)), Flat(Sub(p, c.position))) == c.radius * c.radius
  }

  predicate OnParaboloid(p: Vec3, para: Paraboloid) {
    Dot(Flat(Sub(p, para.position)), Flat(Sub(p, para.position))) == p.y - para.position.y
  }

  /** The height test of both capped intersectors, bounds included. */
  predicate InSlab(p: Vec3, base: Vec3, height: real) {
    base.y <= p.y <= height + base.y
  }

  lemma DotLine(l: Vec3, d: Vec3, u: real)
    ensures Dot(Add(l, Scale(d, u)), Add(l, Scale(d, u))) == Dot(d, d) * u * u + 2.0 * Dot(l, d) * u + Dot(l, l)
  {
  }

  lemma SumOfSquaresNonNegative(x: real, y: real, z: real)
    ensures x * x + y * y + z * z >= 0.0
  {
  }

  /** A non-zero `dot(v, v)` is positive. */
  lemma DotSelfPositive(v: Vec3)
    requires Dot(v, v) != 0.0
    ensures Dot(v, v) > 0.0
  {
    SumOfSquaresNonNegative(v.x, v.y, v.z);
  }

  // ----- hitSphere -----

  /** The quadratic of `hitSphere`: a = d·d, b = 2 (o - c)·d, c = (o - c)·(o - c) - r². */
  function SphereQuad(ray: Ray, s: Sphere): Quadratic {
    var line := Sub(ray.position, s.position);
    Quadratic(Dot(ray.direction, ray.direction), Dot(line, ray.direction) * 2.0, Dot(line, line) - s.radius * s.radius)
  }

  /** The point at parameter u lies on the sphere exactly when u is a zero of the sphere's quadratic. */
  lemma SphereQuadZeros(ray: Ray, s: Sphere, u: real)
    ensures OnSphere(HitPos(ray, u), s) <==> Eval(SphereQuad(ray, s), u) == 0.0
  {
    var line := Sub(ray.position, s.position);
    assert Sub(HitPos(ray, u), s.position) == Add(line, Scale(ray.direction, u));
    DotLine(line, ray.direction, u);
  }

  /**
   * What `hitSphere` returns: `-1` with the normal unwritten when the
   * discriminant is negative, otherwise the smaller root, whatever its sign,
   * with the normalised radius vector at that point.
   */
  function SphereHit(ray: Ray, s: Sphere, num: Numerics): Hit
    requires Dot(ray.direction, ray.direction) != 0.0
  {
    var q := SphereQuad(ray, s);
    if Disc(q) < 0.0 then Miss
    else
      var t := LowRoot(q, num.sqrt(Disc(q)));
      Hit(t, Some(num.normalize(Sub(HitPos(ray, t), s.position))))
  }

  /** A negative discriminant: `hitSphere` reports a miss, and indeed no point of the line is on the sphere. */
  lemma SphereHitMiss(ray: Ray, s: Sphere, num: Numerics)
    requires Dot(ray.direction, ray.direction) != 0.0
    requires Disc(SphereQuad(ray, s)) < 0.0
    ensures SphereHit(ray, s, num) == Miss
    ensures forall u :: !OnSphere(HitPos(ray, u), s)
  {
    forall u
      ensures !OnSphere(HitPos(ray, u), s)
    {
      SphereQuadZeros(ray, s, u);
      NoZeros(SphereQuad(ray, s), u);
    }
  }

  /** Otherwise the point `hitSphere` reports lies on the sphere. */
  lemma SphereHitOnSurface(ray: Ray, s: Sphere, num: Numerics)
    requires Dot(ray.direction, ray.direction) != 0.0
    requires Disc(SphereQuad(ray, s)) >= 0.0 && IsSqrt(num, Disc(SphereQuad(ray, s)))
    ensures OnSphere(HitPos(ray, SphereHit(ray, s, num).t), s)
  {
    var q := SphereQuad(ray, s);
    RootsAreZeros(q, num.sqrt(Disc(q)));
    SphereQuadZeros(ray, s, SphereHit(ray, s, num).t);
  }

  /**
   * ... and at the least parameter of all points of the line on the sphere,
   * including those behind the ray's origin: there is no sign check.
   */
  lemma SphereHitLeastRoot(ray: Ray, s: Sphere, num: Numerics, u: real)
    requires Dot(ray.direction, ray.direction) != 0.0
    requires Disc(SphereQuad(ray, s)) >= 0.0 && IsSqrt(num, Disc(SphereQuad(ray, s)))
    requires OnSphere(HitPos(ray, u), s)
    ensures SphereHit(ray, s, num).t <= u
  {
    var q := SphereQuad(ray, s);
    var sq := num.sqrt(Disc(q));
    DotSelfPositive(ray.direction);
    RootsOrdered(q, sq);
    SphereQuadZeros(ray, s, u);
    ZerosAreRoots(q, sq, u);
  }

  /** A negative c in a quadratic with a > 0 puts the smaller root below zero. */
  lemma LowRootNegative(q: Quadratic, sq: real)
    requires q.a > 0.0 && q.c < 0.0
    requires sq >= 0.0 && sq * sq == Disc(q)
    ensures LowRoot(q, sq) < 0.0
  {
    assert 4.0 * q.a * q.c < 0.0;
    assert sq * sq > q.b * q.b;
    assert -q.b - sq < 0.0;
    assert 2.0 * q.a * LowRoot(q, sq) == -q.b - sq;
  }

  /**
   * From strictly inside the sphere the reported parameter is negative, so a
   * sphere around the ray's origin counts as missed by the scene's merge.
   */
  lemma SphereHitFromInside(ray: Ray, s: Sphere, num: Numerics)
    requires Dot(ray.direction, ray.direction) != 0.0
    requires Dot(Sub(ray.position, s.position), Sub(ray.position, s.position)) < s.radius * s.radius
    requires Disc(SphereQuad(ray, s)) >= 0.0 ==> IsSqrt(num, Disc(SphereQuad(ray, s)))
    ensures SphereHit(ray, s, num).t < 0.0
  {
    var q := SphereQuad(ray, s);
    DotSelfPositive(ray.direction);
    if Disc(q) >= 0.0 {
      LowRootNegative(q, num.sqrt(Disc(q)));
    }
  }

  /** `hitSphere`, step by step. */
  method HitSphere(ray: Ray, sphere: Sphere, num: Numerics) returns (t: real, normal: Option<Vec3>)
    requires Dot(ray.direction, ray.direction) != 0.0
    ensures Hit(t, normal) == SphereHit(ray, sphere, num)
    ensures (t == -1.0 && normal == None) || normal.Some?
  {
    var line := Sub(ray.position, sphere.position);
    var a := Dot(ray.direction, ray.direction);
    var b := Dot(line, ray.direction) * 2.0;
    var c := Dot(line, line) - sphere.radius * sphere.radius;
    ghost var q := Quadratic(a, b, c);
    assert q == SphereQuad(ray, sphere);
    var disc := b * b - 4.0 * a * c;
    assert disc == Disc(q);
    if disc < 0.0 {
      return -1.0, None;
    }
    t := (-b - num.sqrt(b * b - 4.0 * a * c)) / (2.0 * a);
    assert t == LowRoot(q, num.sqrt(Disc(q)));
    var hitPos := HitPos(ray, t);
    normal := Some(num.normalize(Sub(hitPos, sphere.position)));
  }

  // ----- The capped two-root selection of hitCylinder and hitParaboloid -----

  /** A root whose point falls below the base or above the top is dropped to `-1`; both bounds are kept. */
  function Capped(ray: Ray, base: Vec3, height: real, t: real): (r: real)
    ensures InSlab(HitPos(ray, t), base, height) ==> r == t
    ensures !InSlab(HitPos(ray, t), base, height) ==> r == -1.0
    ensures r >= 0.0 ==> r == t && InSlab(HitPos(ray, t), base, height)
  {
    var p := HitPos(ray, t);
    if p.y < base.y || p.y > height + base.y then -1.0 else t
  }

  /**
   * The selection both capped intersectors make between their roots: the
   * same rule as `merge`, applied to the capped roots, each carried with its
   * own hit position in place of a normal.
   */
  function SelectCapped(ray: Ray, t1: real, t2: real, base: Vec3, height: real): Hit {
    Merge(Hit(Capped(ray, base, height, t1), Some(HitPos(ray, t1))),
          Hit(Capped(ray, base, height, t2), Some(HitPos(ray, t2))))
  }

  /**
   * When the roots of `q` are exactly the zeros of a surface's quadratic, the
   * selection is the least parameter ahead of the ray whose point lies
   * within the height bounds, carried with its point, or `Miss` when there
   * is none.
   */
  lemma SelectCappedNearest(ray: Ray, q: Quadratic, sq: real, base: Vec3, height: real)
    requires q.a > 0.0 && sq >= 0.0 && sq * sq == Disc(q)
    ensures var sel := SelectCapped(ray, LowRoot(q, sq), HighRoot(q, sq), base, height);
      && (sel.t >= 0.0 ==> Eval(q, sel.t) == 0.0 && InSlab(HitPos(ray, sel.t), base, height)
                           && sel.normal == Some(HitPos(ray, sel.t)))
      && (sel.t < 0.0 ==> sel == Miss)
      && (forall u :: u >= 0.0 && Eval(q, u) == 0.0 && InSlab(HitPos(ray, u), base, height) ==> 0.0 <= sel.t <= u)
  {
    var t1, t2 := LowRoot(q, sq), HighRoot(q, sq);
    var h1 := Hit(Capped(ray, base, height, t1), Some(HitPos(ray, t1)));
    var h2 := Hit(Capped(ray, base, height, t2), Some(HitPos(ray, t2)));
    var sel := Merge(h1, h2);
    RootsAreZeros(q, sq);
    MergeIsNearest(h1, h2);
    forall u | u >= 0.0 && Eval(q, u) == 0.0 && InSlab(HitPos(ray, u), base, height)
      ensures 0.0 <= sel.t <= u
    {
      ZerosAreRoots(q, sq, u);
    }
  }

  // ----- hitCylinder -----

  /** The quadratic of `hitCylinder`, in the `xz` plane: a = d·d, b = 2 oc·d, c = oc·oc - r². */
  function CylinderQuad(ray: Ray, c: Cylinder): Quadratic {
    var oc := Flat(Sub(ray.position, c.position));
    var d := Flat(ray.direction);
    Quadratic(Dot(d, d), 2.0 * Dot(oc, d), Dot(oc, oc) - c.radius * c.radius)
  }

  /** The point at parameter u lies on the (uncapped) wall exactly when u is a zero of the cylinder's quadratic. */
  lemma CylinderQuadZeros(ray: Ray, c: Cylinder, u: real)
    ensures OnCylinderWall(HitPos(ray, u), c) <==> Eval(CylinderQuad(ray, c), u) == 0.0
  {
    var oc := Flat(Sub(ray.position, c.position));
    assert Flat(Sub(HitPos(ray, u), c.position)) == Add(oc, Scale(Flat(ray.direction), u));
    DotLine(oc, Flat(ray.direction), u);
  }

  /** The cylinder's normal at a chosen point: the point minus the axis point with y cleared, normalised. */
  function WallNormal(num: Numerics, c: Cylinder, p: Option<Vec3>): Option<Vec3> {
    match p
    case None => None
    case Some(p) => Some(num.normalize(Flat(Sub(p, c.position))))
  }

  /**
   * What `hitCylinder` returns: `-1` with the normal unwritten for a negative
   * discriminant; otherwise the selected capped root, with the normal of
   * its point, left undefined when neither root survives.
   */
  function CylinderHit(ray: Ray, c: Cylinder, num: Numerics): Hit
    requires Dot(Flat(ray.direction), Flat(ray.direction)) != 0.0
  {
    var q := CylinderQuad(ray, c);
    if Disc(q) < 0.0 then Miss
    else
      var sq := num.sqrt(Disc(q));
      var sel := SelectCapped(ray, LowRoot(q, sq), HighRoot(q, sq), c.position, c.height);
      Hit(sel.t, WallNormal(num, c, sel.normal))
  }

  /** A negative discriminant: a miss, and no point of the line is on the wall. */
  lemma CylinderHitMiss(ray: Ray, c: Cylinder, num: Numerics)
    requires Dot(Flat(ray.direction), Flat(ray.direction)) != 0.0
    requires Disc(CylinderQuad(ray, c)) < 0.0
    ensures CylinderHit(ray, c, num) == Miss
    ensures forall u :: !OnCylinderWall(HitPos(ray, u), c)
  {
    forall u
      ensures !OnCylinderWall(HitPos(ray, u), c)
    {
      CylinderQuadZeros(ray, c, u);
      NoZeros(CylinderQuad(ray, c), u);
    }
  }

  /**
   * `hitCylinder` reports the nearest point ahead of the ray on the wall
   * between the two bounding heights (both included), with the normalised
   * horizontal radius vector there, or a miss with no normal when there is
   * no such point.
   */
  lemma CylinderHitNearest(ray: Ray, c: Cylinder, num: Numerics)
    requires Dot(Flat(ray.direction), Flat(ray.direction)) != 0.0
    requires Disc(CylinderQuad(ray, c)) >= 0.0 ==> IsSqrt(num, Disc(CylinderQuad(ray, c)))
    ensures var h := CylinderHit(ray, c, num);
      && (h.t >= 0.0 ==> OnCylinderWall(HitPos(ray, h.t), c) && InSlab(HitPos(ray, h.t), c.position, c.height)
                         && h.normal == Some(num.normalize(Flat(Sub(HitPos(ray, h.t), c.position)))))
      && (h.t < 0.0 ==> h == Miss)
      && (forall u :: u >= 0.0 && OnCylinderWall(HitPos(ray, u), c) && InSlab(HitPos(ray, u), c.position, c.height) ==> 0.0 <= h.t <= u)
  {
    var q := CylinderQuad(ray, c);
    var h := CylinderHit(ray, c, num);
    if Disc(q) < 0.0 {
      CylinderHitMiss(ray, c, num);
    } else {
      DotSelfPositive(Flat(ray.direction));
      SelectCappedNearest(ray, q, num.sqrt(Disc(q)), c.position, c.height);
      if h.t >= 0.0 {
        CylinderQuadZeros(ray, c, h.t);
      }
      forall u | u >= 0.0 && OnCylinderWall(HitPos(ray, u), c) && InSlab(HitPos(ray, u), c.position, c.height)
        ensures 0.0 <= h.t <= u
      {
        CylinderQuadZeros(ray, c, u);
      }
    }
  }

  /** `hitCylinder`, step by step: both roots, their height culling, the selection and the normal. */
  method HitCylinder(ray: Ray, cyl: Cylinder, num: Numerics) returns (t: real, normal: Option<Vec3>)
    requires Dot(Flat(ray.direction), Flat(ray.direction)) != 0.0
    ensures Hit(t, normal) == CylinderHit(ray, cyl, num)
  {
    var oc := Flat(Sub(ray.position, cyl.position));
    var a := Dot(Flat(ray.direction), Flat(ray.direction));
    var b := 2.0 * Dot(oc, Flat(ray.direction));
    var c := Dot(oc, oc) - cyl.radius * cyl.radius;
    ghost var q := Quadratic(a, b, c);
    assert q == CylinderQuad(ray, cyl);
    var disc := b * b - 4.0 * a * c;
    assert disc == Disc(q);
    if disc < 0.0 {
      return -1.0, None;
    }
    var t1 := (-b - num.sqrt(disc)) / (2.0 * a);
    var t2 := (-b + num.sqrt(disc)) / (2.0 * a);
    ghost var r1, r2 := t1, t2;
    assert r1 == LowRoot(q, num.sqrt(Disc(q))) && r2 == HighRoot(q, num.sqrt(Disc(q)));
    var hitPos1 := HitPos(ray, t1);
    var hitPos2 := HitPos(ray, t2);
    if hitPos1.y < cyl.position.y || hitPos1.y > cyl.height + cyl.position.y {
      t1 := -1.0;
    }
    if hitPos2.y < cyl.position.y || hitPos2.y > cyl.height + cyl.position.y {
      t2 := -1.0;
    }
    assert t1 == Capped(ray, cyl.position, cyl.height, r1);
    assert t2 == Capped(ray, cyl.position, cyl.height, r2);
    var hitPos: Option<Vec3> := None;
    if t1 < 0.0 && t2 < 0.0 {
      t := -1.0;
    } else if t2 < 0.0 {
      t, hitPos := t1, Some(hitPos1);
    } else if t1 < 0.0 {
      t, hitPos := t2, Some(hitPos2);
    } else {
      if t1 < t2 {
        t, hitPos := t1, Some(hitPos1);
      } else {
        t, hitPos := t2, Some(hitPos2);
      }
    }
    assert Hit(t, hitPos) == SelectCapped(ray, r1, r2, cyl.position, cyl.height);
    match hitPos
    case None =>
      normal := None;
    case Some(p) =>
      var n := Sub(p, cyl.position);
      n := n.(y := 0.0);
      normal := Some(num.normalize(n));
  }

  // ----- hitParaboloid -----

  /**
   * The quadratic of `hitParaboloid`, from (ox + dx t)² + (oz + dz t)² = oy + dy t
   * with o the origin relative to the vertex.
   */
  function ParaboloidQuad(ray: Ray, para: Paraboloid): Quadratic {
    var oc := Flat(Sub(ray.position, para.position));
    var d := ray.direction;
    Quadratic(Dot(Flat(d), Flat(d)),
              2.0 * (oc.x * d.x) + 2.0 * (oc.z * d.z) - d.y,
              oc.x * oc.x + oc.z * oc.z - (ray.position.y - para.position.y))
  }

  /** The point at parameter u lies on the (uncut) bowl exactly when u is a zero of the paraboloid's quadratic. */
  lemma ParaboloidQuadZeros(ray: Ray, para: Paraboloid, u: real)
    ensures OnParaboloid(HitPos(ray, u), para) <==> Eval(ParaboloidQuad(ray, para), u) == 0.0
  {
    var oc := Flat(Sub(ray.position, para.position));
    assert Flat(Sub(HitPos(ray, u), para.position)) == Add(oc, Scale(Flat(ray.direction), u));
    DotLine(oc, Flat(ray.direction), u);
  }

  /**
   * The paraboloid's unnormalised normal at parameter t: the cross product of
   * the surface's tangents along x and along z there.
   */
  function ParaboloidGradient(ray: Ray, para: Paraboloid, t: real): Vec3 {
    var oc := Flat(Sub(ray.position, para.position));
    Cross(Vec3(1.0, 2.0 * (oc.x + ray.direction.x * t), 0.0),
          Vec3(0.0, 2.0 * (oc.z + ray.direction.z * t), 1.0))
  }

  /**
   * That cross product is the gradient (2 (x - px), -1, 2 (z - pz)) of
   * (x - px)² + (z - pz)² - (y - py) at the point: perpendicular to the bowl,
   * pointing away from its inside.
   */
  lemma ParaboloidGradientIsNormal(ray: Ray, para: Paraboloid, t: real)
    ensures var h := HitPos(ray, t);
      ParaboloidGradient(ray, para, t) == Vec3(2.0 * (h.x - para.position.x), -1.0, 2.0 * (h.z - para.position.z))
  {
  }

  /**
   * What `hitParaboloid` returns: `-1` with the normal unwritten for a
   * negative discriminant; otherwise the selected capped root, with the
   * normal computed at that parameter even when it is the `-1` of a miss.
   */
  function ParaboloidHit(ray: Ray, para: Paraboloid, num: Numerics): Hit
    requires Dot(Flat(ray.direction), Flat(ray.direction)) != 0.0
  {
    var q := ParaboloidQuad(ray, para);
    if Disc(q) < 0.0 then Miss
    else
      var sq := num.sqrt(Disc(q));
      var sel := SelectCapped(ray, LowRoot(q, sq), HighRoot(q, sq), para.position, para.height);
      Hit(sel.t, Some(num.normalize(ParaboloidGradient(ray, para, sel.t))))
  }

  /** A negative discriminant: a miss, and no point of the line is on the bowl. */
  lemma ParaboloidHitMiss(ray: Ray, para: Paraboloid, num: Numerics)
    requires Dot(Flat(ray.direction), Flat(ray.direction)) != 0.0
    requires Disc(ParaboloidQuad(ray, para)) < 0.0
    ensures ParaboloidHit(ray, para, num) == Miss
    ensures forall u :: !OnParaboloid(HitPos(ray, u), para)
  {
    forall u
      ensures !OnParaboloid(HitPos(ray, u), para)
    {
      ParaboloidQuadZeros(ray, para, u);
      NoZeros(ParaboloidQuad(ray, para), u);
    }
  }

  /**
   * `hitParaboloid` reports the nearest point ahead of the ray on the bowl
   * between its vertex height and its cut-off height (both included), with
   * the normalised gradient there; if there is none it reports `-1`.
   */
  lemma ParaboloidHitNearest(ray: Ray, para: Paraboloid, num: Numerics)
    requires Dot(Flat(ray.direction), Flat(ray.direction)) != 0.0
    requires Disc(ParaboloidQuad(ray, para)) >= 0.0 ==> IsSqrt(num, Disc(ParaboloidQuad(ray, para)))
    ensures var h := ParaboloidHit(ray, para, num);
      && (h.t >= 0.0 ==> OnParaboloid(HitPos(ray, h.t), para) && InSlab(HitPos(ray, h.t), para.position, para.height)
                         && h.normal == Some(num.normalize(ParaboloidGradient(ray, para, h.t))))
      && (h.t < 0.0 ==> h.t == -1.0)
      && (forall u :: u >= 0.0 && OnParaboloid(HitPos(ray, u), para) && InSlab(HitPos(ray, u), para.position, para.height) ==> 0.0 <= h.t <= u)
  {
    var q := ParaboloidQuad(ray, para);
    var h := ParaboloidHit(ray, para, num);
    if Disc(q) < 0.0 {
      ParaboloidHitMiss(ray, para, num);
    } else {
      DotSelfPositive(Flat(ray.direction));
      SelectCappedNearest(ray, q, num.sqrt(Disc(q)), para.position, para.height);
      if h.t >= 0.0 {
        ParaboloidQuadZeros(ray, para, h.t);
      }
      forall u | u >= 0.0 && OnParaboloid(HitPos(ray, u), para) && InSlab(HitPos(ray, u), para.position, para.height)
        ensures 0.0 <= h.t <= u
      {
        ParaboloidQuadZeros(ray, para, u);
      }
    }
  }

  /** The tangents as `hitParaboloid` builds them give `ParaboloidGradient` (a proof step the solver needs handed to it). */
  lemma GradientAt(ray: Ray, para: Paraboloid, oc: Vec3, t: real)
    requires oc == Flat(Sub(ray.position, para.position))
    ensures Cross(Vec3(1.0, 2.0 * (oc.x + ray.direction.x * t), 0.0), Vec3(0.0, 2.0 * (oc.z + ray.direction.z * t), 1.0))
         == ParaboloidGradient(ray, para, t)
  {
  }

  /** `hitParaboloid`, step by step. */
  method HitParaboloid(ray: Ray, para: Paraboloid, num: Numerics) returns (t: real, normal: Option<Vec3>)
    requires Dot(Flat(ray.direction), Flat(ray.direction)) != 0.0
    ensures Hit(t, normal) == ParaboloidHit(ray, para, num)
  {
    var oc := Flat(Sub(ray.position, para.position));
    var a := Dot(Flat(ray.direction), Flat(ray.direction));
    var b := 2.0 * (oc.x * ray.direction.x) + 2.0 * (oc.z * ray.direction.z) - ray.direction.y;
    var c := oc.x * oc.x + oc.z * oc.z - (ray.position.y - para.position.y);
    ghost var q := Quadratic(a, b, c);
    assert q == ParaboloidQuad(ray, para);
    var disc := b * b - 4.0 * a * c;
    assert disc == Disc(q);
    if disc < 0.0 {
      return -1.0, None;
    }
    var t1 := (-b - num.sqrt(disc)) / (2.0 * a);
    var t2 := (-b + num.sqrt(disc)) / (2.0 * a);
    ghost var r1, r2 := t1, t2;
    assert r1 == LowRoot(q, num.sqrt(Disc(q))) && r2 == HighRoot(q, num.sqrt(Disc(q)));
    var hitPos1 := HitPos(ray, t1);
    var hitPos2 := HitPos(ray, t2);
    if hitPos1.y < para.position.y || hitPos1.y > para.height + para.position.y {
      t1 := -1.0;
    }
    if hitPos2.y < para.position.y || hitPos2.y > para.height + para.position.y {
      t2 := -1.0;
    }
    assert t1 == Capped(ray, para.position, para.height, r1);
    assert t2 == Capped(ray, para.position, para.height, r2);
    if t1 < 0.0 && t2 < 0.0 {
      t := -1.0;
    } else if t2 < 0.0 {
      t := t1;
    } else if t1 < 0.0 {
      t := t2;
    } else {
      if t1 < t2 {
        t := t1;
      } else {
        t := t2;
      }
    }
    assert t == SelectCapped(ray, r1, r2, para.position, para.height).t;
    assert ParaboloidHit(ray, para, num) == Hit(t, Some(num.normalize(ParaboloidGradient(ray, para, t))));
    var fx := Vec3(1.0, 2.0 * (oc.x + ray.direction.x * t), 0.0);
    var fz := Vec3(0.0, 2.0 * (oc.z + ray.direction.z * t), 1.0);
    var n := Cross(fx, fz);
    GradientAt(ray, para, oc, t);
    normal := Some(num.normalize(n));
  }

  // ----- hitPlane and hitCircPlane -----

  predicate OnPlane(p: Vec3, pl: Plane) {
    Dot(Sub(p, pl.position), pl.normal) == 0.0
  }

  /** How far along the plane's normal the point at parameter u is: linear in u. */
  lemma PlaneOffset(ray: Ray, pl: Plane, u: real)
    ensures Dot(Sub(HitPos(ray, u), pl.position), pl.normal)
         == u * Dot(ray.direction, pl.normal) - Dot(Sub(pl.position, ray.position), pl.normal)
  {
  }

  /**
   * `hitPlane`: the parameter at which the ray's line meets the plane, the
   * only such parameter; its sign is not checked.
   */
  function HitPlane(ray: Ray, pl: Plane): (t: real)
    requires Dot(ray.direction, pl.normal) != 0.0
    ensures OnPlane(HitPos(ray, t), pl)
    ensures forall u :: OnPlane(HitPos(ray, u), pl) ==> u == t
  {
    var t := Dot(Sub(pl.position, ray.position), pl.normal) / Dot(ray.direction, pl.normal);
    PlaneOffset(ray, pl, t);
    assert forall u :: OnPlane(HitPos(ray, u), pl) ==> u == t by {
      forall u | OnPlane(HitPos(ray, u), pl)
        ensures u == t
      {
        PlaneOffset(ray, pl, u);
      }
    }
    t
  }

  /** The disc test of `hitCircPlane`, boundary included. */
  predicate InDisc(p: Vec3, cp: CirclePlane) {
    Dot(Sub(p, cp.position), Sub(p, cp.position)) <= cp.radius * cp.radius
  }

  /**
   * `hitCircPlane`: `hitPlane`'s parameter when the meeting point is within
   * the radius of the centre, otherwise `-1`.
   */
  function HitCircPlane(ray: Ray, cp: CirclePlane): (t: real)
    requires Dot(ray.direction, cp.normal) != 0.0
    ensures var tp := HitPlane(ray, Plane(cp.position, cp.normal));
      && (InDisc(HitPos(ray, tp), cp) ==> t == tp)
      && (!InDisc(HitPos(ray, tp), cp) ==> t == -1.0)
  {
    var t := Dot(Sub(cp.position, ray.position), cp.normal) / Dot(ray.direction, cp.normal);
    var target := Add(ray.position, Scale(ray.direction, t));
    if Dot(Sub(target, cp.position), Sub(target, cp.position)) <= cp.radius * cp.radius then t else -1.0
  }

  /** A disc hit lies on the disc's plane within its radius, and it is the only point of the line there. */
  lemma CircPlaneHitOnDisc(ray: Ray, cp: CirclePlane)
    requires Dot(ray.direction, cp.normal) != 0.0
    ensures var t := HitCircPlane(ray, cp);
      t != -1.0 ==> OnPlane(HitPos(ray, t), Plane(cp.position, cp.normal)) && InDisc(HitPos(ray, t), cp)
    ensures forall u :: OnPlane(HitPos(ray, u), Plane(cp.position, cp.normal)) && InDisc(HitPos(ray, u), cp)
                        ==> HitCircPlane(ray, cp) == u
  {
  }
}
