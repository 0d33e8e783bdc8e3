/** The pinhole camera: intrinsics fixed at construction, a pose that can be
    changed, and the map from a (sub-)pixel position to a world ray. */
module Cameras {
  import opened Wrappers
  import opened LinAlg
  import opened Geometry

  /** `PinholeCamera`. The derived class declares its own `center`, `scale`
      and `K`, hiding the base class members of the same names; only the
      derived ones are ever written or read, and only they are modelled. */
  datatype Camera = Pinhole(
    position: Vec3, rotation: Mat3,
    focalLength: real, resolution: Vec2, sensorSize: Vec2,
    center: Vec2, scale: Vec2, k: Mat3)

  /** Everything of a camera except its pose. */
  predicate SameIntrinsics(a: Camera, b: Camera) {
    && a.focalLength == b.focalLength && a.resolution == b.resolution && a.sensorSize == b.sensorSize
    && a.center == b.center && a.scale == b.scale && a.k == b.k
  }

  /** `PinholeCamera(focal_length, resolution, sensor_size)`. The pixel scale
      divides the resolution by the sensor size; a zero sensor dimension
      makes that a division by zero, reported as `None`. */
  function NewPinhole(f: real, resolution: Vec2, sensor: Vec2): (c: Option<Camera>)
    ensures c.Some? <==> sensor.x != 0.0 && sensor.y != 0.0
    ensures c.Some? ==>
      && c.value.focalLength == f && c.value.resolution == resolution && c.value.sensorSize == sensor
      && 2.0 * c.value.center.x == resolution.x && 2.0 * c.value.center.y == resolution.y
      && c.value.scale.x * sensor.x == resolution.x && c.value.scale.y * sensor.y == resolution.y
      && c.value.position == Zero && c.value.rotation == Identity
    ensures c.Some? ==>
      c.value.k == Mat3(Vec3(f, 0.0, c.value.center.x), Vec3(0.0, f, c.value.center.y), Vec3(0.0, 0.0, 1.0))
  {
    if sensor.x == 0.0 || sensor.y == 0.0 then None
    else
      var center := Vec2(resolution.x / 2.0, resolution.y / 2.0);
      var scale := Vec2(resolution.x / sensor.x, resolution.y / sensor.y);
      var k := Mat3(Vec3(f, 0.0, center.x), Vec3(0.0, f, center.y), Vec3(0.0, 0.0, 1.0));
      Some(Pinhole(Zero, Identity, f, resolution, sensor, center, scale, k))
  }

  /** `set_position`. */
  function SetPosition(c: Camera, p: Vec3): (r: Camera)
    ensures r.position == p && r.rotation == c.rotation && SameIntrinsics(r, c)
  {
    c.(position := p)
  }

  /** `set_rotation`: the nine entries are copied. */
  function SetRotation(c: Camera, m: Mat3): (r: Camera)
    ensures r.rotation == m && r.position == c.position && SameIntrinsics(r, c)
  {
    c.(rotation := m)
  }

  /** `set_pose`: `set_position`, then `set_rotation`. */
  function SetPose(c: Camera, p: Vec3, m: Mat3): (r: Camera)
    ensures r.position == p && r.rotation == m && SameIntrinsics(r, c)
  {
    SetRotation(SetPosition(c, p), m)
  }

  /** The direction of the ray through (u, v) in the camera frame, before
      normalisation: the camera looks down its -z axis, image rows grow
      downwards. */
  function CameraDirection(c: Camera, u: real, v: real): (d: Vec3)
    requires c.scale.x != 0.0 && c.scale.y != 0.0
    ensures c.scale.x * d.x == u - c.center.x && c.scale.y * d.y == c.center.y - v
    ensures d.z == -c.focalLength
  {
    Vec3((-c.center.x + u) / c.scale.x, (c.center.y - v) / c.scale.y, -c.focalLength)
  }

  /** `pixel_to_ray`: the normalised camera-frame direction is turned into
      the world frame by the transpose of the stored rotation, and the ray
      starts at the camera position. A zero pixel scale (zero resolution)
      makes the direction a division by zero, reported as `None`. */
  function PixelToRay(num: Numerics, c: Camera, u: real, v: real): (r: Option<Ray>)
    ensures r.Some? <==> c.scale.x != 0.0 && c.scale.y != 0.0
    ensures r.Some? ==> r.value.origin == c.position && r.value.tmin == 0.0 && r.value.tmax == Unbounded
    ensures r.Some? && Orthonormal(c.rotation) ==>
      MulVec(c.rotation, r.value.direction) == num.normalize(CameraDirection(c, u, v))
  {
    if c.scale.x == 0.0 || c.scale.y == 0.0 then None
    else
      var d := num.normalize(CameraDirection(c, u, v));
      assert Orthonormal(c.rotation) ==> MulVec(c.rotation, MulTVec(c.rotation, d)) == d by {
        if Orthonormal(c.rotation) { RotateUndoesTranspose(c.rotation, d); }
      }
      Some(RayFrom(c.position, MulTVec(c.rotation, d)))
  }

  /** The pinhole projection of a world direction back to pixel
      coordinates: rotate into the camera frame and divide by depth. A
      direction parallel to the image plane has no image. */
  function Project(c: Camera, w: Vec3): (p: Option<Vec2>)
    ensures p.Some? <==> MulVec(c.rotation, w).z != 0.0
  {
    ImageOf(c, MulVec(c.rotation, w))
  }

  /** The pixel a camera-frame direction `q` projects to. */
  function ImageOf(c: Camera, q: Vec3): (p: Option<Vec2>)
    ensures p.Some? <==> q.z != 0.0
  {
    if q.z == 0.0 then None
    else Some(Vec2(c.center.x + c.scale.x * (-c.focalLength * q.x / q.z),
                   c.center.y - c.scale.y * (-c.focalLength * q.y / q.z)))
  }

  // ---------------------------------------------------------------------
  // Lemmas

  /** The order of the two pose setters does not matter. */
  lemma SetPoseEitherOrder(c: Camera, p: Vec3, m: Mat3)
    ensures SetPose(c, p, m) == SetPosition(SetRotation(c, m), p)
  {
  }

  /** With a sound `normalize`, an orthonormal rotation and a non-zero focal
      length, every ray direction has unit length. */
  lemma {:induction false} PixelRayIsUnit(num: Numerics, c: Camera, u: real, v: real)
    requires Sound(num) && Orthonormal(c.rotation)
    requires c.focalLength != 0.0 && c.scale.x != 0.0 && c.scale.y != 0.0
    ensures PixelToRay(num, c, u, v).Some?
    ensures NormSq(PixelToRay(num, c, u, v).value.direction) == 1.0
  {
    var d := CameraDirection(c, u, v);
    assert d != Zero;
    NormalizeIsUnit(num, d);
    TransposeRotationIsometry(c.rotation, num.normalize(d));
  }

  /** The ray through the principal point of a camera with positive focal
      length points along the negated third row of the rotation: the
      camera's optical axis in world coordinates. */
  lemma {:induction false} PrincipalRay(num: Numerics, c: Camera)
    requires Sound(num)
    requires c.focalLength > 0.0 && c.scale.x != 0.0 && c.scale.y != 0.0
    ensures PixelToRay(num, c, c.center.x, c.center.y).Some?
    ensures PixelToRay(num, c, c.center.x, c.center.y).value.direction == Neg(c.rotation.r2)
  {
    var d := CameraDirection(c, c.center.x, c.center.y);
    assert d == Vec3(0.0, 0.0, -c.focalLength);
    NormalizeAxisZ(num, -c.focalLength);
  }

  /** Projecting the direction of the ray through (u, v) gives (u, v) back:
      `pixel_to_ray` is the inverse of the pinhole projection. */
  lemma {:induction false} ProjectPixelRay(num: Numerics, c: Camera, u: real, v: real)
    requires Sound(num) && Orthonormal(c.rotation)
    requires c.focalLength != 0.0 && c.scale.x != 0.0 && c.scale.y != 0.0
    ensures PixelToRay(num, c, u, v).Some?
    ensures Project(c, PixelToRay(num, c, u, v).value.direction) == Some(Vec2(u, v))
  {
    var d := CameraDirection(c, u, v);
    assert d != Zero;
    var l := num.length(d);
    NormSqPositive(d);
    assert l != 0.0;
    var n := num.normalize(d);
    assert n == Scale(1.0 / l, d);
    RotateUndoesTranspose(c.rotation, n);
    ImageOfScaledDirection(c, u, v, 1.0 / l);
  }

  /** Any non-zero multiple of the camera-frame direction through (u, v)
      projects to (u, v). */
  lemma ImageOfScaledDirection(c: Camera, u: real, v: real, k: real)
    requires c.focalLength != 0.0 && c.scale.x != 0.0 && c.scale.y != 0.0 && k != 0.0
    ensures ImageOf(c, Scale(k, CameraDirection(c, u, v))) == Some(Vec2(u, v))
  {
    var f := c.focalLength;
    var d := CameraDirection(c, u, v);
    var q := Scale(k, d);
    assert q.z == k * -f;
    ProductNonZero(k, -f);
    DepthRatio(f, k, d.x);
    DepthRatio(f, k, d.y);
    assert -f * q.x / q.z == d.x;
    assert -f * q.y / q.z == d.y;
  }

  lemma ProductNonZero(a: real, b: real)
    requires a != 0.0 && b != 0.0
    ensures a * b != 0.0
  {
  }

  /** `-f (a k) / (-f k) = a` for non-zero `f` and `k`. */
  lemma DepthRatio(f: real, k: real, a: real)
    requires f != 0.0 && k != 0.0
    ensures -f * (k * a) / (k * -f) == a
  {
    assert -f * (k * a) == a * (k * -f);
  }
}
