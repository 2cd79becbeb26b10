/**
 * `hitScene`: the lamp on its floor. The floor plane and the base's pivot
 * sphere are hit with the world ray; the base cylinder and its top disc in
 * the camera frame; the first arm and second joint, the second arm and third
 * joint, and the paraboloid shade each in a further rotated frame. Normals
 * found in a rotated frame are carried back to world space (the disc's is
 * used as constructed), and the candidate hits are folded with `merge`.
 */
module Scene {
  import opened Vectors
  import opened Quaternions
  import opened Hits
  import opened Intersect

  // ----- The shapes, in their own frames -----

  const Floor: Plane := Plane(Vec3(0.0, -0.2, 0.0), Vec3(0.0, 1.0, 0.0))
  const Base: Cylinder := Cylinder(Vec3(0.0, -0.2, 0.0), 1.2, 0.2)
  const Top: CirclePlane := CirclePlane(Vec3(0.0, 0.0, 0.0), Vec3(0.0, 1.0, 0.0), 1.2)
  const Joint1: Sphere := Sphere(Vec3(0.0, 0.0, 0.0), 0.15)
  const Arm1: Cylinder := Cylinder(Vec3(0.0, 0.0, 0.0), 0.05, 1.5)
  const Joint2: Sphere := Sphere(Vec3(0.0, 1.5, 0.0), 0.15)
  const Arm2: Cylinder := Cylinder(Vec3(0.0, 0.0, 0.0), 0.05, 1.5)
  const Joint3: Sphere := Sphere(Vec3(0.0, 1.5, 0.0), 0.2)
  const Shade: Paraboloid := Paraboloid(Vec3(0.0, 0.0, 0.0), 0.55)

  /** The offset by which each upper segment's frame is shifted down the previous arm. */
  const ArmOffset: Vec3 := Vec3(0.0, -1.5, 0.0)

  // ----- Frames -----

  /** The animation time of `frame`: 60 frames a second, starting 19 seconds in. */
  function SceneTime(frame: real): real { frame / 60.0 + 19.0 }

  /** The rotations of `hitScene` and the ray expressed in each frame. */
  datatype Frames = Frames(
    q: Quat, q1: Quat, q2: Quat, q3: Quat,
    camera: Ray, seg1: Ray, seg2: Ray, seg3: Ray)

  function SceneFrames(ray: Ray, frame: real, num: Numerics): Frames {
    var time := SceneTime(frame);
    var q := QuatOf(num.normalize(Vec3(0.0, 4.0, 0.0)), time, num);
    var camera := RotateRay(ray, q);
    var q1 := QuatOf(num.normalize(Vec3(0.0, 3.0, 1.0)), time * 4.0, num);
    var seg1 := RotateRay(camera, q1);
    var q2 := QuatOf(num.normalize(Vec3(0.0, 1.0, 1.0)), time * 4.0, num);
    var seg2 := RotateRayOffset(seg1, q2, ArmOffset);
    var q3 := QuatOf(num.normalize(Vec3(0.0, 4.0, 1.0)), time * 4.0, num);
    var seg3 := RotateRayOffset(seg2, q3, ArmOffset);
    Frames(q, q1, q2, q3, camera, seg1, seg2, seg3)
  }

  predicate UnitFrames(f: Frames) {
    IsUnit(f.q) && IsUnit(f.q1) && IsUnit(f.q2) && IsUnit(f.q3)
  }

  /**
   * With `normalize` giving unit vectors for the four axes used and
   * sin² + cos² = 1 at the half angles, every rotation of the scene is a
   * unit quaternion.
   */
  lemma SceneFramesUnit(ray: Ray, frame: real, num: Numerics)
    requires Dot(num.normalize(Vec3(0.0, 4.0, 0.0)), num.normalize(Vec3(0.0, 4.0, 0.0))) == 1.0
    requires Dot(num.normalize(Vec3(0.0, 3.0, 1.0)), num.normalize(Vec3(0.0, 3.0, 1.0))) == 1.0
    requires Dot(num.normalize(Vec3(0.0, 1.0, 1.0)), num.normalize(Vec3(0.0, 1.0, 1.0))) == 1.0
    requires Dot(num.normalize(Vec3(0.0, 4.0, 1.0)), num.normalize(Vec3(0.0, 4.0, 1.0))) == 1.0
    requires forall a :: num.sin(a) * num.sin(a) + num.cos(a) * num.cos(a) == 1.0
    ensures UnitFrames(SceneFrames(ray, frame, num))
  {
    var time := SceneTime(frame);
    QuatOfIsUnit(num.normalize(Vec3(0.0, 4.0, 0.0)), time, num);
    QuatOfIsUnit(num.normalize(Vec3(0.0, 3.0, 1.0)), time * 4.0, num);
    QuatOfIsUnit(num.normalize(Vec3(0.0, 1.0, 1.0)), time * 4.0, num);
    QuatOfIsUnit(num.normalize(Vec3(0.0, 4.0, 1.0)), time * 4.0, num);
  }

  /**
   * Every frame's ray is the world ray moved rigidly: point t of each is the
   * image of the world ray's point t, so hit parameters found in different
   * frames name points of the same world ray.
   */
  lemma FramePoints(ray: Ray, frame: real, num: Numerics, t: real)
    ensures var f := SceneFrames(ray, frame, num);
      && HitPos(f.camera, t) == Rot(f.q, HitPos(ray, t))
      && HitPos(f.seg1, t) == Rot(f.q1, HitPos(f.camera, t))
      && HitPos(f.seg2, t) == Rot(f.q2, Add(HitPos(f.seg1, t), ArmOffset))
      && HitPos(f.seg3, t) == Rot(f.q3, Add(HitPos(f.seg2, t), ArmOffset))
  {
    var f := SceneFrames(ray, frame, num);
    RotateRayHitPos(ray, f.q, t);
    RotateRayHitPos(f.camera, f.q1, t);
    RotateRayOffsetHitPos(f.seg1, f.q2, ArmOffset, t);
    RotateRayOffsetHitPos(f.seg2, f.q3, ArmOffset, t);
  }

  /** ... and with unit rotations a unit of t is the same distance in every frame. */
  lemma FrameSpeeds(ray: Ray, frame: real, num: Numerics)
    requires UnitFrames(SceneFrames(ray, frame, num))
    ensures var f := SceneFrames(ray, frame, num);
      var dd := Dot(ray.direction, ray.direction);
      && Dot(f.camera.direction, f.camera.direction) == dd
      && Dot(f.seg1.direction, f.seg1.direction) == dd
      && Dot(f.seg2.direction, f.seg2.direction) == dd
      && Dot(f.seg3.direction, f.seg3.direction) == dd
  {
    var f := SceneFrames(ray, frame, num);
    RotPreservesLength(f.q, ray.direction);
    RotPreservesLength(f.q1, f.camera.direction);
    RotPreservesLength(f.q2, f.seg1.direction);
    RotPreservesLength(f.q3, f.seg2.direction);
  }

  // ----- Carrying normals back to world space -----

  /** One `normal = quatRot(quatInv(q), normal)` step; an undefined normal stays undefined. */
  function Back(q: Quat, n: Option<Vec3>): Option<Vec3> {
    match n
    case None => None
    case Some(v) => Some(Rot(Inv(q), v))
  }

  /** The rotations from world to a frame, innermost first, applied to v: `Wind([q2, q1, q], v)` is q2 (q1 (q v)). */
  function Wind(qs: seq<Quat>, v: Vec3): Vec3
    decreases |qs|
  {
    if |qs| == 0 then v else Rot(qs[0], Wind(qs[1..], v))
  }

  /** The inverse rotations applied innermost first, as `hitScene` does for each normal. */
  function Unwind(qs: seq<Quat>, v: Vec3): Vec3
    decreases |qs|
  {
    if |qs| == 0 then v else Unwind(qs[1..], Rot(Inv(qs[0]), v))
  }

  predicate AllUnit(qs: seq<Quat>) {
    forall i :: 0 <= i < |qs| ==> IsUnit(qs[i])
  }

  /** Carrying a frame vector back undoes the rotations that led into the frame. */
  lemma {:induction false} UnwindWind(qs: seq<Quat>, v: Vec3)
    requires AllUnit(qs)
    ensures Unwind(qs, Wind(qs, v)) == v
    decreases |qs|
  {
    if |qs| > 0 {
      RotRoundTrip(qs[0], Wind(qs[1..], v));
      UnwindWind(qs[1..], v);
    }
  }

  /** Carrying back keeps dot products, so angles between normals and directions. */
  lemma {:induction false} UnwindPreservesDot(qs: seq<Quat>, a: Vec3, b: Vec3)
    requires AllUnit(qs)
    ensures Dot(Unwind(qs, a), Unwind(qs, b)) == Dot(a, b)
    decreases |qs|
  {
    if |qs| > 0 {
      NormSqInv(qs[0]);
      RotPreservesDot(Inv(qs[0]), a, b);
      UnwindPreservesDot(qs[1..], Rot(Inv(qs[0]), a), Rot(Inv(qs[0]), b));
    }
  }

  /**
   * A normal carried back to world space faces the world ray exactly as it
   * faced the frame's ray, so the front/back test on the world normal is the
   * test in the frame.
   */
  lemma NormalFacing(qs: seq<Quat>, n: Vec3, d: Vec3)
    requires AllUnit(qs)
    ensures Dot(Unwind(qs, n), d) == Dot(n, Wind(qs, d))
  {
    UnwindPreservesDot(qs, n, Wind(qs, d));
    UnwindWind(qs, d);
  }

  /** The frames' directions are the world direction wound through their rotations. */
  lemma FrameDirections(ray: Ray, frame: real, num: Numerics)
    ensures var f := SceneFrames(ray, frame, num);
      && f.camera.direction == Wind([f.q], ray.direction)
      && f.seg1.direction == Wind([f.q1, f.q], ray.direction)
      && f.seg2.direction == Wind([f.q2, f.q1, f.q], ray.direction)
      && f.seg3.direction == Wind([f.q3, f.q2, f.q1, f.q], ray.direction)
  {
    var f := SceneFrames(ray, frame, num);
    assert [f.q][1..] == [];
    assert [f.q1, f.q][1..] == [f.q];
    assert [f.q2, f.q1, f.q][1..] == [f.q1, f.q];
    assert [f.q3, f.q2, f.q1, f.q][1..] == [f.q2, f.q1, f.q];
  }

  /** The chain of `Back` steps `hitScene` writes out is `Unwind` on a written normal. */
  lemma BackIsUnwind(qs: seq<Quat>, n: Option<Vec3>)
    requires |qs| == 3
    ensures Back(qs[2], Back(qs[1], Back(qs[0], n))) == (if n.None? then None else Some(Unwind(qs, n.value)))
  {
    if n.Some? {
      var v := n.value;
      var v1 := Rot(Inv(qs[0]), v);
      var v2 := Rot(Inv(qs[1]), v1);
      assert qs[1..][0] == qs[1] && qs[1..][1..][0] == qs[2] && qs[1..][1..][1..] == [];
      assert Unwind(qs[1..][1..], v2) == Rot(Inv(qs[2]), v2);
      assert Unwind(qs[1..], v1) == Unwind(qs[1..][1..], v2);
    }
  }

  /**
   * The top disc is hit in the camera frame; its normal (0, 1, 0) is used
   * without being carried back, which is right: the camera turns about the
   * y axis, which it leaves fixed.
   */
  lemma TopNormalNeedsNoTransport(ray: Ray, frame: real, num: Numerics)
    requires num.normalize(Vec3(0.0, 4.0, 0.0)) == Vec3(0.0, 1.0, 0.0)
    requires IsUnit(SceneFrames(ray, frame, num).q)
    ensures Rot(Inv(SceneFrames(ray, frame, num).q), Top.normal) == Top.normal
  {
    var q := SceneFrames(ray, frame, num).q;
    var s := num.sin(SceneTime(frame) / 2.0);
    assert Inv(q).v == Scale(Top.normal, -s);
    NormSqInv(q);
    RotFixesAxis(Inv(q), Top.normal, -s);
  }

  // ----- The candidates and their fold -----

  /** The candidate hits of `hitScene`, each with its normal in world space. */
  datatype Candidates = Candidates(
    cp: Hit, sph1: Hit, cyl1: Hit, sph2: Hit, cyl3: Hit, sph3: Hit, cyl2: Hit, para: Hit, plane: Hit)

  /** The divisions of the intersectors `hitScene` calls have non-zero divisors. */
  predicate WellPosed(ray: Ray, f: Frames) {
    && Dot(ray.direction, Floor.normal) != 0.0
    && Dot(Flat(f.camera.direction), Flat(f.camera.direction)) != 0.0
    && Dot(f.camera.direction, Top.normal) != 0.0
    && Dot(ray.direction, ray.direction) != 0.0
    && Dot(Flat(f.seg1.direction), Flat(f.seg1.direction)) != 0.0
    && Dot(f.seg1.direction, f.seg1.direction) != 0.0
    && Dot(Flat(f.seg2.direction), Flat(f.seg2.direction)) != 0.0
    && Dot(f.seg2.direction, f.seg2.direction) != 0.0
    && Dot(Flat(f.seg3.direction), Flat(f.seg3.direction)) != 0.0
  }

  /** Each shape intersected in its frame, normals carried back innermost first. */
  function SceneCandidates(ray: Ray, f: Frames, num: Numerics): Candidates
    requires WellPosed(ray, f)
  {
    var cyl1 := CylinderHit(f.camera, Base, num);
    var cyl2 := CylinderHit(f.seg1, Arm1, num);
    var sph2 := SphereHit(f.seg1, Joint2, num);
    var cyl3 := CylinderHit(f.seg2, Arm2, num);
    var sph3 := SphereHit(f.seg2, Joint3, num);
    var para := ParaboloidHit(f.seg3, Shade, num);
    Candidates(
      Hit(HitCircPlane(f.camera, Top), Some(Top.normal)),
      SphereHit(ray, Joint1, num),
      Hit(cyl1.t, Back(f.q, cyl1.normal)),
      Hit(sph2.t, Back(f.q, Back(f.q1, sph2.normal))),
      Hit(cyl3.t, Back(f.q, Back(f.q1, Back(f.q2, cyl3.normal)))),
      Hit(sph3.t, Back(f.q, Back(f.q1, Back(f.q2, sph3.normal)))),
      Hit(cyl2.t, Back(f.q, Back(f.q1, cyl2.normal))),
      Hit(para.t, Back(f.q, Back(f.q1, Back(f.q2, Back(f.q3, para.normal))))),
      Hit(HitPlane(ray, Floor), Some(Floor.normal)))
  }

  /** The merge order as written: the second joint's sphere twice, the third joint's never. */
  function AsWrittenOrder(c: Candidates): seq<Hit> {
    [c.cp, c.sph1, c.cyl1, c.sph2, c.cyl3, c.sph2, c.cyl2, c.para, c.plane]
  }

  /** The intended order: the repeated `tSph2` replaced by the third joint's `tSph3`. */
  function CorrectedOrder(c: Candidates): seq<Hit> {
    [c.cp, c.sph1, c.cyl1, c.sph2, c.cyl3, c.sph3, c.cyl2, c.para, c.plane]
  }

  /** The fold as written reports `-1` exactly when all eight candidates it lists are negative; `sph3` plays no part. */
  lemma AsWrittenMiss(c: Candidates)
    ensures Chain(AsWrittenOrder(c)).t == -1.0 <==>
      && c.cp.t < 0.0 && c.sph1.t < 0.0 && c.cyl1.t < 0.0 && c.sph2.t < 0.0
      && c.cyl3.t < 0.0 && c.cyl2.t < 0.0 && c.para.t < 0.0 && c.plane.t < 0.0
  {
    var hs := AsWrittenOrder(c);
    ChainMiss(hs);
    assert hs[0] == c.cp && hs[1] == c.sph1 && hs[2] == c.cyl1 && hs[3] == c.sph2;
    assert hs[4] == c.cyl3 && hs[6] == c.cyl2 && hs[7] == c.para && hs[8] == c.plane;
  }

  /** The intended fold picks the nearest hit ahead among all nine candidates, and reports `-1` exactly when there is none. */
  lemma CorrectedIsNearest(c: Candidates)
    ensures IsNearest(Chain(CorrectedOrder(c)), CorrectedOrder(c))
    ensures Chain(CorrectedOrder(c)).t == -1.0 <==>
      && c.cp.t < 0.0 && c.sph1.t < 0.0 && c.cyl1.t < 0.0 && c.sph2.t < 0.0 && c.cyl3.t < 0.0
      && c.sph3.t < 0.0 && c.cyl2.t < 0.0 && c.para.t < 0.0 && c.plane.t < 0.0
  {
    var hs := CorrectedOrder(c);
    ChainIsNearest(hs);
    ChainMiss(hs);
    assert hs[0] == c.cp && hs[1] == c.sph1 && hs[2] == c.cyl1 && hs[3] == c.sph2 && hs[4] == c.cyl3;
    assert hs[5] == c.sph3 && hs[6] == c.cyl2 && hs[7] == c.para && hs[8] == c.plane;
  }

  /**
   * Whenever the third joint's sphere is the only candidate ahead, the fold
   * as written reports a miss, and the intended one reports that sphere.
   */
  lemma AsWrittenDropsJoint3(c: Candidates)
    requires c.sph3.t >= 0.0
    requires c.cp.t < 0.0 && c.sph1.t < 0.0 && c.cyl1.t < 0.0 && c.sph2.t < 0.0
    requires c.cyl3.t < 0.0 && c.cyl2.t < 0.0 && c.para.t < 0.0 && c.plane.t < 0.0
    ensures Chain(AsWrittenOrder(c)) == Miss
    ensures Chain(CorrectedOrder(c)) == c.sph3
  {
    AsWrittenMiss(c);
    ChainMiss(AsWrittenOrder(c));
    CorrectedFold(c);
  }

  /**
   * The same on the scene itself: for a ray on which only the third joint's
   * sphere lies ahead, `hitScene` as written returns `-1` with no normal,
   * while the intended fold returns that sphere's hit.
   */
  lemma SceneDropsJoint3(ray: Ray, frame: real, num: Numerics)
    requires WellPosed(ray, SceneFrames(ray, frame, num))
    requires var c := SceneCandidates(ray, SceneFrames(ray, frame, num), num);
      && c.sph3.t >= 0.0
      && c.cp.t < 0.0 && c.sph1.t < 0.0 && c.cyl1.t < 0.0 && c.sph2.t < 0.0
      && c.cyl3.t < 0.0 && c.cyl2.t < 0.0 && c.para.t < 0.0 && c.plane.t < 0.0
    ensures SceneHitAsWritten(ray, frame, num) == Miss
    ensures SceneHit(ray, frame, num) == SceneCandidates(ray, SceneFrames(ray, frame, num), num).sph3
  {
    AsWrittenDropsJoint3(SceneCandidates(ray, SceneFrames(ray, frame, num), num));
  }

  /** The intended fold, written out as the chain of `merge` calls. */
  lemma CorrectedFold(c: Candidates)
    ensures Chain(CorrectedOrder(c))
         == Merge(Merge(Merge(Merge(Merge(Merge(Merge(Merge(c.cp, c.sph1), c.cyl1), c.sph2), c.cyl3), c.sph3), c.cyl2), c.para), c.plane)
  {
    var hs := CorrectedOrder(c);
    assert hs[..2] == [c.cp, c.sph1];
    ChainSnoc(hs, 2);
    ChainSnoc(hs, 3);
    ChainSnoc(hs, 4);
    ChainSnoc(hs, 5);
    ChainSnoc(hs, 6);
    ChainSnoc(hs, 7);
    ChainSnoc(hs, 8);
    assert hs[..9] == hs;
  }

  /** What `hitScene` returns, as written. */
  function SceneHitAsWritten(ray: Ray, frame: real, num: Numerics): Hit
    requires WellPosed(ray, SceneFrames(ray, frame, num))
  {
    Chain(AsWrittenOrder(SceneCandidates(ray, SceneFrames(ray, frame, num), num)))
  }

  /** What `hitScene` is meant to return: the intended fold over all nine candidates. */
  function SceneHit(ray: Ray, frame: real, num: Numerics): Hit
    requires WellPosed(ray, SceneFrames(ray, frame, num))
  {
    Chain(CorrectedOrder(SceneCandidates(ray, SceneFrames(ray, frame, num), num)))
  }

  /** `hitScene` with the intended merge order, step by step. */
  method HitScene(ray: Ray, frame: real, num: Numerics) returns (t: real, normal: Option<Vec3>)
    requires WellPosed(ray, SceneFrames(ray, frame, num))
    ensures Hit(t, normal) == SceneHit(ray, frame, num)
    ensures t == -1.0 ==> normal == None
  {
    ghost var f := SceneFrames(ray, frame, num);
    var time := frame / 60.0 + 19.0;
    var q := QuatOf(num.normalize(Vec3(0.0, 4.0, 0.0)), time, num);
    var rayCamera := RotateRay(ray, q);

    var tPlane := HitPlane(ray, Floor);

    var tCyl1, nCyl1 := HitCylinder(rayCamera, Base, num);
    nCyl1 := Back(q, nCyl1);

    var tCP := HitCircPlane(rayCamera, Top);

    var tSph1, nSph1 := HitSphere(ray, Joint1, num);

    var qSegment1 := QuatOf(num.normalize(Vec3(0.0, 3.0, 1.0)), time * 4.0, num);
    var raySegment1 := RotateRay(rayCamera, qSegment1);
    var tCyl2, nCyl2 := HitCylinder(raySegment1, Arm1, num);
    nCyl2 := Back(qSegment1, nCyl2);
    nCyl2 := Back(q, nCyl2);

    var tSph2, nSph2 := HitSphere(raySegment1, Joint2, num);
    nSph2 := Back(qSegment1, nSph2);
    nSph2 := Back(q, nSph2);

    var qSegment2 := QuatOf(num.normalize(Vec3(0.0, 1.0, 1.0)), time * 4.0, num);
    var raySegment2 := RotateRayOffset(raySegment1, qSegment2, ArmOffset);
    var tCyl3, nCyl3 := HitCylinder(raySegment2, Arm2, num);
    nCyl3 := Back(qSegment2, nCyl3);
    nCyl3 := Back(qSegment1, nCyl3);
    nCyl3 := Back(q, nCyl3);

    var tSph3, nSph3 := HitSphere(raySegment2, Joint3, num);
    nSph3 := Back(qSegment2, nSph3);
    nSph3 := Back(qSegment1, nSph3);
    nSph3 := Back(q, nSph3);

    var qSegment3 := QuatOf(num.normalize(Vec3(0.0, 4.0, 1.0)), time * 4.0, num);
    var raySegment3 := RotateRayOffset(raySegment2, qSegment3, ArmOffset);
    var tPara, nPara := HitParaboloid(raySegment3, Shade, num);
    nPara := Back(qSegment3, nPara);
    nPara := Back(qSegment2, nPara);
    nPara := Back(qSegment1, nPara);
    nPara := Back(q, nPara);

    ghost var c := Candidates(
      Hit(tCP, Some(Top.normal)), Hit(tSph1, nSph1), Hit(tCyl1, nCyl1), Hit(tSph2, nSph2),
      Hit(tCyl3, nCyl3), Hit(tSph3, nSph3), Hit(tCyl2, nCyl2), Hit(tPara, nPara), Hit(tPlane, Some(Floor.normal)));
    assert c == SceneCandidates(ray, f, num);
    var h := Merge(Hit(tCP, Some(Top.normal)), Hit(tSph1, nSph1));
    h := Merge(h, Hit(tCyl1, nCyl1));
    h := Merge(h, Hit(tSph2, nSph2));
    h := Merge(h, Hit(tCyl3, nCyl3));
    h := Merge(h, Hit(tSph3, nSph3));
    h := Merge(h, Hit(tCyl2, nCyl2));
    h := Merge(h, Hit(tPara, nPara));
    h := Merge(h, Hit(tPlane, Some(Floor.normal)));
    CorrectedFold(c);
    ChainMiss(CorrectedOrder(c));
    t, normal := h.t, h.normal;
  }
}
