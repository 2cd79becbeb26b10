# Ray-traced lamp shader, modelled in Dafny

The program is a small OpenGL application. Its fragment shader (GLSL, held as a string in
`Programs/Skeleton/Skeleton/Skeleton.cpp`) ray-traces an animated desk lamp. The lamp is made of:

- a floor plane;
- a cylindrical base with a disc on top and a pivot sphere at its centre;
- two thin arm cylinders, each followed by a joint sphere;
- a paraboloid shade.

The floor and the pivot sphere are intersected with the world ray. The other parts are intersected in
rotated frames, which are reached by rotating the ray with quaternions:
- the base and its disc in the camera frame;
- the first arm and the second joint in a first segment frame;
- the second arm and the third joint in a second segment frame;
- the shade in a third segment frame.

A normal found in a rotated frame is carried back to world space by the inverse rotations. The exception is
the disc's normal (0, 1, 0), which is used as constructed. The candidate hits are then folded with
`merge`, which picks the nearest hit ahead of the ray. `-1` means "no hit".

This model covers the shader's geometric and decision logic over the reals:

- `vectors.dfy` (`Vectors`): vectors, rays, `getHitPos`, and the numeric builtins.
  `sqrt`, `sin`, `cos` and `normalize` are uninterpreted functions supplied by the caller
  in a `Numerics` value.
- `quaternions.dfy` (`Quaternions`): `quat`, `quatInv`, `quatMul`, `quatRot` and both
  `rotateRay` overloads. The Hamilton-product algebra proves rotations undoable, composable and
  length-preserving.
- `hits.dfy` (`Hits`): the `(t, normal)` candidate, `merge`, and its left fold.
  They are proved against an independent reference rule, "the last candidate ahead with the least t".
- `intersect.dfy` (`Intersect`): `hitSphere`, `hitCylinder`, `hitParaboloid`, `hitPlane` and
  `hitCircPlane`.
  - Each intersector is a specification function.
  - The three step-by-step intersectors are also methods that follow the source statement by statement.
    Each method is proved equal to its function.
  - Lemmas state what the answer means geometrically: the point is on the surface within the height
    bounds, and no nearer such point lies ahead.
- `scene.dfy` (`Scene`): `hitScene`.
  - Its frames, the carrying of normals back to world space, and the candidate fold, both as written
    and corrected (see Findings).
  - A method performing the corrected fold step by step.

An `out` value the shader leaves unwritten has an undefined value. It is modelled as `None` in
`Option<Vec3>`. This happens for `merge` with both inputs negative, for an intersector returning early on a
negative discriminant, and for the cylinder normal computed from an unassigned `hitPos`.
`pow(x, 2.0)` is modelled as `x * x`.

On a tie between two non-negative parameters, `merge` returns the second one, because its test is the strict
`t1 < t2`. The model follows the code.

## Model

| member | source | states |
|---|---|---|
| Vectors.HitPosDeterminesT | Programs/Skeleton/Skeleton/Skeleton.cpp:120-122 | on a ray with non-zero direction, the points at two parameters coincide exactly when the parameters are equal |
| Quaternions.QuatOfIsUnit | Programs/Skeleton/Skeleton/Skeleton.cpp:100-103 | `quat` of a unit axis is a unit quaternion when sin² + cos² = 1 at the half angle |
| Quaternions.InvInvolution | Programs/Skeleton/Skeleton/Skeleton.cpp:105-107 | `quatInv(quatInv(q)) == q` for every q |
| Quaternions.NormSqInv | Programs/Skeleton/Skeleton/Skeleton.cpp:105-107 | the conjugate has the same squared norm |
| Quaternions.InvMul | Programs/Skeleton/Skeleton/Skeleton.cpp:105-113 | the conjugate of a product is the product of the conjugates in reverse order |
| Quaternions.InvIsInverse | Programs/Skeleton/Skeleton/Skeleton.cpp:105-113 | for a unit q, `quatMul(quatInv(q), q)` and `quatMul(q, quatInv(q))` are both the identity (0, 0, 0, 1) |
| Quaternions.MulAssoc | Programs/Skeleton/Skeleton/Skeleton.cpp:109-113 | `quatMul` is associative |
| Quaternions.MulNorm | Programs/Skeleton/Skeleton/Skeleton.cpp:109-113 | the squared norm of a product is the product of the squared norms |
| Quaternions.SandwichIsPure | Programs/Skeleton/Skeleton/Skeleton.cpp:115-118 | q (p, 0) conj(q) has scalar part 0, so taking `.xyz` in `quatRot` drops nothing |
| Quaternions.RotRoundTrip | Programs/Skeleton/Skeleton/Skeleton.cpp:105-118 | for a unit q, rotating by q and then by `quatInv(q)` returns the vector, and so does the reverse order |
| Quaternions.RotCompose | Programs/Skeleton/Skeleton/Skeleton.cpp:109-118 | rotating by b and then by a equals rotating by `quatMul(a, b)` |
| Quaternions.RotAdd | Programs/Skeleton/Skeleton/Skeleton.cpp:115-118 | `quatRot` is additive in the vector |
| Quaternions.RotScale | Programs/Skeleton/Skeleton/Skeleton.cpp:115-118 | `quatRot` is homogeneous in the vector |
| Quaternions.RotPreservesLength | Programs/Skeleton/Skeleton/Skeleton.cpp:115-118 | a unit quaternion's rotation keeps squared lengths |
| Quaternions.RotPreservesDot | Programs/Skeleton/Skeleton/Skeleton.cpp:115-118 | a unit quaternion's rotation keeps dot products |
| Quaternions.RotFixesAxis | Programs/Skeleton/Skeleton/Skeleton.cpp:100-118 | a unit quaternion whose vector part lies along the unit vector a leaves a unchanged |
| Quaternions.RotateRayHitPos | Programs/Skeleton/Skeleton/Skeleton.cpp:277-282 | the point at t of the rotated ray is the rotated point at t of the original ray |
| Quaternions.RotateRayOffsetHitPos | Programs/Skeleton/Skeleton/Skeleton.cpp:284-289 | the point at t of the offset overload's ray is the original point at t, shifted by the offset and then rotated |
| Quaternions.RotateRayRoundTrip | Programs/Skeleton/Skeleton/Skeleton.cpp:277-282 | for a unit q, rotating a ray by q and then by `quatInv(q)` gives the ray back, in either order |
| Quaternions.RotateRayOffsetRoundTrip | Programs/Skeleton/Skeleton/Skeleton.cpp:284-289 | for a unit q, rotating back by `quatInv(q)` gives the original ray, with its origin shifted by the offset |
| Hits.Merge | Programs/Skeleton/Skeleton/Skeleton.cpp:256-275 | `-1` with no normal when both inputs are negative; the other input with its normal when exactly one is negative; the smaller when both are non-negative, the second on a tie; the result is `-1` exactly when both inputs are negative |
| Hits.NearestUnique | Programs/Skeleton/Skeleton/Skeleton.cpp:256-275 | the reference rule "the last candidate ahead with the least t, or a miss" determines at most one hit |
| Hits.MergeIsNearest | Programs/Skeleton/Skeleton/Skeleton.cpp:256-275 | `merge`'s result satisfies the reference rule for its two candidates: a miss when neither is ahead, otherwise the nearest non-negative one with its own normal |
| Hits.NearestIsMerge | Programs/Skeleton/Skeleton/Skeleton.cpp:256-275 | any hit that satisfies the reference rule for two candidates is `merge`'s result |
| Hits.MergeStep | Programs/Skeleton/Skeleton/Skeleton.cpp:355-362 | merging one more candidate into the nearest of a list gives the nearest of the extended list |
| Hits.ChainIsNearest | Programs/Skeleton/Skeleton/Skeleton.cpp:355-362 | a chain `t = merge(t, h)` over any list of at least two candidates gives the reference rule's hit |
| Hits.ChainMiss | Programs/Skeleton/Skeleton/Skeleton.cpp:355-362 | the chain returns `-1` exactly when every candidate is negative, and a negative result has no normal |
| Intersect.RootsAreZeros | Programs/Skeleton/Skeleton/Skeleton.cpp:153-154 | both roots `(-b ∓ sqrt(disc)) / 2a` are zeros of the quadratic |
| Intersect.ZerosAreRoots | Programs/Skeleton/Skeleton/Skeleton.cpp:153-154 | every zero of the quadratic is one of those two roots |
| Intersect.NoZeros | Programs/Skeleton/Skeleton/Skeleton.cpp:149-152 | a quadratic with a negative discriminant has no zero |
| Intersect.RootsOrdered | Programs/Skeleton/Skeleton/Skeleton.cpp:153-154 | for a > 0 the root with `-sqrt` is the smaller one |
| Intersect.SphereQuadZeros | Programs/Skeleton/Skeleton/Skeleton.cpp:125-129 | the point at u is on the sphere exactly when u is a zero of `hitSphere`'s a, b, c |
| Intersect.SphereHitMiss | Programs/Skeleton/Skeleton/Skeleton.cpp:130-133 | with a negative discriminant `hitSphere` gives `-1` with the normal unwritten, and the line misses the sphere |
| Intersect.SphereHitOnSurface | Programs/Skeleton/Skeleton/Skeleton.cpp:134-137 | otherwise the returned parameter's point lies on the sphere |
| Intersect.SphereHitLeastRoot | Programs/Skeleton/Skeleton/Skeleton.cpp:134 | the returned parameter is no greater than that of any point of the line on the sphere, behind the origin included: there is no sign check |
| Intersect.SphereHitFromInside | Programs/Skeleton/Skeleton/Skeleton.cpp:134 | from an origin strictly inside the sphere the returned parameter is negative |
| Intersect.HitSphere | Programs/Skeleton/Skeleton/Skeleton.cpp:125-139 | the step-by-step method returns the specification's parameter and normal; the normal is unwritten only for the `-1` of a negative discriminant |
| Intersect.Capped | Programs/Skeleton/Skeleton/Skeleton.cpp:157-160 | a root survives the height test exactly when its point's y lies in [base y, base y + height], both bounds included; otherwise it becomes `-1` |
| Intersect.SelectCappedNearest | Programs/Skeleton/Skeleton/Skeleton.cpp:153-180 | the capped two-root selection gives the least parameter ahead whose point is a zero within the bounds, with that point, or a miss with no point when there is none |
| Intersect.CylinderQuadZeros | Programs/Skeleton/Skeleton/Skeleton.cpp:195-198 | the point at u is on the infinite cylinder wall exactly when u is a zero of `hitCylinder`'s a, b, c |
| Intersect.CylinderHitMiss | Programs/Skeleton/Skeleton/Skeleton.cpp:199-202 | a negative discriminant gives `-1` with the normal unwritten, and the line misses the wall |
| Intersect.CylinderHitNearest | Programs/Skeleton/Skeleton/Skeleton.cpp:194-237 | a non-negative result's point is on the wall within the inclusive heights and carries the normalised horizontal radius vector there; it is the nearest such point ahead; a negative result is `-1` with no normal, and then no such point lies ahead |
| Intersect.HitCylinder | Programs/Skeleton/Skeleton/Skeleton.cpp:194-237 | the step-by-step method, which reassigns `t1`, `t2`, `t` and `hitPos`, returns the specification's parameter and normal |
| Intersect.ParaboloidQuadZeros | Programs/Skeleton/Skeleton/Skeleton.cpp:145-148 | the point at u is on the bowl y - py = (x - px)² + (z - pz)² exactly when u is a zero of `hitParaboloid`'s a, b, c |
| Intersect.ParaboloidGradientIsNormal | Programs/Skeleton/Skeleton/Skeleton.cpp:182-186 | the cross product of the two tangents is the gradient (2 (x - px), -1, 2 (z - pz)) of the bowl's equation at the point |
| Intersect.ParaboloidHitMiss | Programs/Skeleton/Skeleton/Skeleton.cpp:149-152 | a negative discriminant gives `-1` with the normal unwritten, and the line misses the bowl |
| Intersect.ParaboloidHitNearest | Programs/Skeleton/Skeleton/Skeleton.cpp:144-191 | a non-negative result's point is on the bowl within the inclusive heights and carries the normalised gradient; it is the nearest such point ahead; otherwise the result is `-1` and no such point lies ahead |
| Intersect.HitParaboloid | Programs/Skeleton/Skeleton/Skeleton.cpp:144-191 | the step-by-step method returns the specification's parameter and normal; the normal is computed at the selected parameter even when that parameter is `-1` |
| Intersect.HitPlane | Programs/Skeleton/Skeleton/Skeleton.cpp:239-241 | the point at the returned parameter is on the plane, and it is the only such parameter (no sign check) |
| Intersect.HitCircPlane | Programs/Skeleton/Skeleton/Skeleton.cpp:244-253 | equals `hitPlane` for the same plane when the meeting point is within the radius of the centre (boundary included), otherwise `-1` |
| Intersect.CircPlaneHitOnDisc | Programs/Skeleton/Skeleton/Skeleton.cpp:244-253 | a result other than `-1` is a point on the plane inside the disc, and it is the only point of the line there |
| Scene.SceneFramesUnit | Programs/Skeleton/Skeleton/Skeleton.cpp:292-338 | with a unit-length `normalize` and sin² + cos² = 1, all four scene rotations are unit quaternions |
| Scene.FramePoints | Programs/Skeleton/Skeleton/Skeleton.cpp:295-338 | the point at t of each frame's ray is the rigid image of the previous frame's point at t, so parameters from different frames name points of the same world ray |
| Scene.FrameSpeeds | Programs/Skeleton/Skeleton/Skeleton.cpp:295-338 | with unit rotations every frame's direction has the world direction's length, so parameters measure the same distance in every frame |
| Scene.FrameDirections | Programs/Skeleton/Skeleton/Skeleton.cpp:295-338 | each frame's direction is the world direction rotated by that frame's rotations in turn |
| Scene.UnwindWind | Programs/Skeleton/Skeleton/Skeleton.cpp:303-344 | applying the inverse rotations innermost first, as is done to each normal, undoes the rotations into the frame |
| Scene.UnwindPreservesDot | Programs/Skeleton/Skeleton/Skeleton.cpp:303-344 | carrying two vectors back keeps their dot product |
| Scene.NormalFacing | Programs/Skeleton/Skeleton/Skeleton.cpp:303-344 | a normal carried back to world space has the same dot product with the world direction as the frame normal has with the frame direction |
| Scene.BackIsUnwind | Programs/Skeleton/Skeleton/Skeleton.cpp:327-329 | the three written-out `quatRot(quatInv(..), normal)` steps are the innermost-first inverse chain; an undefined normal stays undefined |
| Scene.TopNormalNeedsNoTransport | Programs/Skeleton/Skeleton/Skeleton.cpp:305-306 | the disc top's normal (0, 1, 0) is left fixed by the inverse camera rotation, so using it without carrying it back is right |
| Scene.AsWrittenMiss | Programs/Skeleton/Skeleton/Skeleton.cpp:355-362 | the fold as written returns `-1` exactly when `tCP`, `tSph1`, `tCyl1`, `tSph2`, `tCyl3`, `tCyl2`, `tPara` and `tPlane` are all negative |
| Scene.AsWrittenDropsJoint3 | Programs/Skeleton/Skeleton/Skeleton.cpp:355-362 | for any candidates where only the third joint's sphere lies ahead, the fold as written reports a miss and the corrected fold reports that sphere |
| Scene.SceneDropsJoint3 | Programs/Skeleton/Skeleton/Skeleton.cpp:331-362 | for any ray on which only the third joint's sphere lies ahead, `hitScene` as written returns `-1` with no normal, while the corrected fold returns that sphere's hit |
| Scene.CorrectedIsNearest | Programs/Skeleton/Skeleton/Skeleton.cpp:355-362 | the corrected fold picks the reference rule's hit among all nine candidates, and returns `-1` exactly when all nine are negative |
| Scene.CorrectedFold | Programs/Skeleton/Skeleton/Skeleton.cpp:355-362 | the corrected fold is the chain of eight `merge` calls in source order, with `tSph3` in place of the repeated `tSph2` |
| Scene.HitScene | Programs/Skeleton/Skeleton/Skeleton.cpp:291-365 | the step-by-step method builds the frames, calls the intersectors and carries the normals back; its corrected fold returns the specification's hit, and no normal with `-1` |

## Left out

- Floating point: every value is a real. Float rounding, NaN and infinity are not modelled, and neither are the actual values of `sqrt`, `sin`, `cos` and `normalize`. Lemmas take `IsSqrt` or the Pythagorean identity as hypotheses.
- Division by zero: each intersector requires its divisor to be non-zero. That is `dot(d, d)` for the sphere, the squared `xz` length of the direction for the cylinder and paraboloid, and `dot(d, N)` for the planes. The shader would produce an infinity or NaN instead. `Scene.WellPosed` collects these conditions for `hitScene`.
- `pow(x, 2.0)` is modelled as `x * x`. GLSL leaves `pow` undefined for x < 0, and `hitSphere`'s `b` is negative for a ray heading towards a sphere in front of it.
- Parameter passing: `hitSphere`, `hitCylinder` and `hitParaboloid` take their shape as an `out` parameter, which GLSL does not copy in. As written they therefore read uninitialised `position`, `radius` and `height` fields (Skeleton.cpp:126-129, 145-148, 157-159, 195-198, 207-209, 232). The model reads the fields as the caller set them, as the evidently intended `inout` would. It does not model the undefined reads.
- The `hitPos` local of `hitParaboloid` (Skeleton.cpp:163-178) is assigned but never read. The model does not track it.
- The global `lampPoint` (Skeleton.cpp:141, 293, 347-353) is written but never used for the output.
- `glow` (Skeleton.cpp:369-394) and `main` (Skeleton.cpp:396-415) are left out. They hold shading arithmetic and camera-ray construction with `tan`.
- The host program's OpenGL/GLUT set-up, callbacks and the `frame` uniform upload are not part of this model. Neither is `Programs/Skeleton/Skeleton/Skeleton_kulso_shader.cpp`, which reloads shader files from disk. `frame` is a parameter of `Scene.HitScene`.
- Scene.HitScene: follows the corrected merge order (see Findings). The order as written is `Scene.SceneHitAsWritten`.

## Findings

| source | as written | input that shows it | evidently intended | confidence | as-written member | corrected member |
|---|---|---|---|---|---|---|
| Programs/Skeleton/Skeleton/Skeleton.cpp:359 | `t = merge(t, tSph2, normal, sph2.normal, normal);` merges the second joint's sphere a second time. The third joint's `tSph3` (computed at :332) is never merged. | any ray on which only the third joint's sphere lies ahead, e.g. its hit at t = 1 and every other candidate negative: `hitScene` returns `-1` | `t = merge(t, tSph3, normal, sph3.normal, normal);` | not executed | Scene.SceneDropsJoint3 | Scene.HitScene |
