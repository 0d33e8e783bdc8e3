/** Rendering in a body-fixed frame: the `BodyFixedEntity` record, which
    only stores its pose, and the Python group's re-posing of the camera
    and lights into the body frame before each render. */
module BodyFixed {
  import opened LinAlg
  import opened Cameras
  import opened Lighting

  /** `BodyFixedEntity`: where the geometry comes from, how it is shaded,
      and a pose that is stored but applied to nothing. */
  datatype BodyFixedEntity = BodyFixedEntity(
    geometryPath: string, geometryType: string, smooth: bool, color: Vec3,
    position: Vec3, rotation: Mat3, scale: real)

  /** The constructor: the four arguments stored, scale 1, position at the
      origin, identity rotation. */
  function NewBodyFixedEntity(path: string, kind: string, smooth: bool, color: Vec3): (e: BodyFixedEntity)
    ensures e.geometryPath == path && e.geometryType == kind && e.smooth == smooth && e.color == color
    ensures e.scale == 1.0 && e.position == Zero && e.rotation == Identity
  {
    BodyFixedEntity(path, kind, smooth, color, Vec3(0.0, 0.0, 0.0),
      Mat3(Vec3(1.0, 0.0, 0.0), Vec3(0.0, 1.0, 0.0), Vec3(0.0, 0.0, 1.0)), 1.0)
  }

  /** `set_scale`: the scale is replaced, nothing else changes. */
  function SetScale(e: BodyFixedEntity, s: real): (r: BodyFixedEntity)
    ensures r.scale == s && r.position == e.position && r.rotation == e.rotation
    ensures r.geometryPath == e.geometryPath && r.geometryType == e.geometryType
    ensures r.smooth == e.smooth && r.color == e.color
  {
    e.(scale := s)
  }

  /** `set_position`: the position is replaced, nothing else changes. */
  function SetPosition(e: BodyFixedEntity, p: Vec3): (r: BodyFixedEntity)
    ensures r.position == p && r.scale == e.scale && r.rotation == e.rotation
    ensures r.geometryPath == e.geometryPath && r.geometryType == e.geometryType
    ensures r.smooth == e.smooth && r.color == e.color
  {
    e.(position := p)
  }

  /** `set_rotation`: the nine entries copied one by one. */
  function SetRotation(e: BodyFixedEntity, m: Mat3): (r: BodyFixedEntity)
    ensures r.rotation == m && r.position == e.position && r.scale == e.scale
    ensures r.geometryPath == e.geometryPath && r.geometryType == e.geometryType
    ensures r.smooth == e.smooth && r.color == e.color
  {
    e.(rotation := Mat3(Vec3(m.r0.x, m.r0.y, m.r0.z), Vec3(m.r1.x, m.r1.y, m.r1.z), Vec3(m.r2.x, m.r2.y, m.r2.z)))
  }

  /** `set_pose`: the rotation first, then the position. */
  function SetPose(e: BodyFixedEntity, p: Vec3, m: Mat3): (r: BodyFixedEntity)
    ensures r.position == p && r.rotation == m
    ensures r.geometryPath == e.geometryPath && r.geometryType == e.geometryType
    ensures r.smooth == e.smooth && r.color == e.color && r.scale == e.scale
  {
    SetPosition(SetRotation(e, m), p)
  }

  /** The pose of a camera or light seen from a body at `body`: the offset
      from the body turned into the body frame, `R_b (p - p_b)`, and the
      rotation `(R_b R^T)^T`. */
  function RelativePose(body: Pose, p: Pose): (q: Pose)
    ensures q.position == MulVec(body.rotation, Sub(p.position, body.position))
    ensures q.rotation == MatMul(p.rotation, Transpose(body.rotation))
  {
    TransposeOfProduct(body.rotation, Transpose(p.rotation));
    TransposeTwice(p.rotation);
    Pose(MulVec(body.rotation, Sub(p.position, body.position)),
         Transpose(MatMul(body.rotation, Transpose(p.rotation))))
  }

  function CameraPose(c: Camera): Pose {
    Pose(c.position, c.rotation)
  }

  function LightPose(l: Light): Pose {
    Pose(l.position, l.rotation)
  }

  /** `BodyFixedGroup.render` and `normal_pass`, before the C++ call: the
      caller's camera and every light re-posed in place into the body frame,
      the lights handed on in their order. */
  function Repose(body: Pose, c: Camera, lights: seq<Light>): (r: (Camera, seq<Light>))
    ensures CameraPose(r.0) == RelativePose(body, CameraPose(c)) && SameIntrinsics(r.0, c)
    ensures |r.1| == |lights|
    ensures forall k :: 0 <= k < |lights| ==> LightPose(r.1[k]) == RelativePose(body, LightPose(lights[k]))
  {
    var cp := RelativePose(body, CameraPose(c));
    (Cameras.SetPose(c, cp.position, cp.rotation),
     seq(|lights|, k requires 0 <= k < |lights| =>
       var lp := RelativePose(body, LightPose(lights[k]));
       Lighting.SetPose(lights[k], lp.position, lp.rotation)))
  }

  /** The image `normal_pass` can return: 255 times the magnitude of every
      normal component. */
  function NormalImage(normals: seq<real>): (img: seq<real>)
    ensures |img| == |normals|
    ensures forall k :: 0 <= k < |normals| ==> 0.0 <= img[k] && (img[k] == 255.0 * normals[k] || img[k] == -255.0 * normals[k])
  {
    seq(|normals|, k requires 0 <= k < |normals| => 255.0 * Abs(normals[k]))
  }

  // ---------------------------------------------------------------------
  // Lemmas

  /** The pose setters store the pose and nothing else: the same final
      state in either order. */
  lemma SetPoseEitherOrder(e: BodyFixedEntity, p: Vec3, m: Mat3)
    ensures SetPose(e, p, m) == SetRotation(SetPosition(e, p), m)
  {
  }

  /** A body at the origin with the identity rotation leaves every pose as
      it is. */
  lemma RelativeToIdentity(p: Pose)
    ensures RelativePose(Pose(Zero, Identity), p) == p
  {
    var q := RelativePose(Pose(Zero, Identity), p);
    assert q.position == p.position;
  }

  /** With a rotation whose transpose undoes it (`R_b^T R_b = I`), the
      relative pose sees every world point where the world pose saw it:
      rendering the body-fixed geometry from the relative pose matches
      rendering the posed geometry from the original one. */
  lemma {:induction false} RelativePoseKeepsView(body: Pose, p: Pose, x: Vec3)
    requires Orthonormal(Transpose(body.rotation))
    ensures
      var q := RelativePose(body, p);
      var xb := MulVec(body.rotation, Sub(x, body.position));
      MulVec(q.rotation, Sub(xb, q.position)) == MulVec(p.rotation, Sub(x, p.position))
  {
    var rb := body.rotation;
    var q := RelativePose(body, p);
    var xb := MulVec(rb, Sub(x, body.position));
    var d := Sub(x, p.position);
    assert Sub(xb, q.position) == MulVec(rb, d);
    assert MulTVec(rb, MulVec(rb, d)) == d by {
      TransposeUndoesRotate(rb, d);
    }
    MulTransposeApply(p.rotation, rb, MulVec(rb, d));
  }

  /** `(A B^T) v = A (B^T v)`. */
  lemma MulTransposeApply(a: Mat3, b: Mat3, v: Vec3)
    ensures MulVec(MatMul(a, Transpose(b)), v) == MulVec(a, MulTVec(b, v))
  {
  }

  /** `R^T R v = v` when the columns of `R` are orthonormal. */
  lemma {:induction false} TransposeUndoesRotate(r: Mat3, v: Vec3)
    requires Orthonormal(Transpose(r))
    ensures MulTVec(r, MulVec(r, v)) == v
  {
    MulTVecIsTransposed(r, MulVec(r, v));
    TransposeTwice(r);
    RotateUndoesTranspose(Transpose(r), v);
    MulTVecIsTransposed(Transpose(r), v);
  }

  /** Re-posing twice composes the transform again: the second call sees
      the poses the first call left behind. */
  lemma ReposeTwice(body: Pose, c: Camera, lights: seq<Light>)
    ensures CameraPose(Repose(body, Repose(body, c, lights).0, lights).0)
         == RelativePose(body, RelativePose(body, CameraPose(c)))
  {
  }

  /** Unit normals give image values in [0, 255]. */
  lemma NormalImageInRange(normals: seq<real>)
    requires forall k :: 0 <= k < |normals| ==> -1.0 <= normals[k] <= 1.0
    ensures forall k :: 0 <= k < |normals| ==> 0.0 <= NormalImage(normals)[k] <= 255.0
  {
  }
}
