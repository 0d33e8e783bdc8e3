/** Light sources: a point light and a square area light sampled at a
    random point per shadow ray. */
module Lighting {
  import opened Wrappers
  import opened LinAlg
  import opened Geometry
  import opened Transform

  /** `PointLight` and `SquareLight`. The square light also remembers the
      point it sampled last, which its intensity is measured from. */
  datatype Light =
    | PointLight(intensity: real, position: Vec3, rotation: Mat3)
    | SquareLight(intensity: real, position: Vec3, rotation: Mat3, size: Vec2, sampledPoint: Vec3)

  /** The cap on the point light's intensity. */
  const MaxIntensity: real := 10000.0

  /** Two uniform draws from [0, 1) for one light sample. The square light's
      generator and distributions are default-constructed members (the
      constructor only fills locals of the same names), so each draw is
      uniform on [0, 1). */
  datatype Draw = Draw(x: real, y: real)

  predicate InUnit(d: Draw) {
    0.0 <= d.x < 1.0 && 0.0 <= d.y < 1.0
  }

  /** `PointLight(intensity)`. Position and rotation are left uninitialised
      by the constructor; they are the `unset` argument here. */
  function NewPointLight(intensity: real, unset: Pose): (l: Light)
    ensures l.PointLight? && l.intensity == intensity
    ensures l.position == unset.position && l.rotation == unset.rotation
  {
    PointLight(intensity, unset.position, unset.rotation)
  }

  /** The copy constructor of `PointLight`: intensity and position are
      copied, the rotation is not (it is left uninitialised, `unset`). */
  function CopyPointLight(l: Light, unsetRotation: Mat3): (r: Light)
    requires l.PointLight?
    ensures r.PointLight? && r.intensity == l.intensity && r.position == l.position
    ensures r.rotation == unsetRotation
  {
    PointLight(l.intensity, l.position, unsetRotation)
  }

  /** `SquareLight(size, intensity)`. Pose and last sample are left
      uninitialised. */
  function NewSquareLight(size: Vec2, intensity: real, unset: Pose, unsetSample: Vec3): (l: Light)
    ensures l.SquareLight? && l.intensity == intensity && l.size == size
    ensures l.position == unset.position && l.rotation == unset.rotation && l.sampledPoint == unsetSample
  {
    SquareLight(intensity, unset.position, unset.rotation, size, unsetSample)
  }

  /** `set_position`: the position is replaced, nothing else changes. */
  function SetPosition(l: Light, p: Vec3): (r: Light)
    ensures r.position == p && r.rotation == l.rotation && r.intensity == l.intensity
    ensures r.SquareLight? <==> l.SquareLight?
    ensures r.SquareLight? ==> r.size == l.size && r.sampledPoint == l.sampledPoint
  {
    l.(position := p)
  }

  /** `set_rotation`: the nine entries are copied, nothing else changes. */
  function SetRotation(l: Light, m: Mat3): (r: Light)
    ensures r.rotation == m && r.position == l.position && r.intensity == l.intensity
    ensures r.SquareLight? <==> l.SquareLight?
    ensures r.SquareLight? ==> r.size == l.size && r.sampledPoint == l.sampledPoint
  {
    l.(rotation := m)
  }

  /** `set_pose`: `set_position`, then `set_rotation`. */
  function SetPose(l: Light, p: Vec3, m: Mat3): (r: Light)
    ensures r.position == p && r.rotation == m && r.intensity == l.intensity
    ensures r.SquareLight? <==> l.SquareLight?
    ensures r.SquareLight? ==> r.size == l.size && r.sampledPoint == l.sampledPoint
  {
    SetRotation(SetPosition(l, p), m)
  }

  /** The point of the square light a draw selects, in the light's frame:
      the square of side `size` centred on the origin of the z = 0 plane. */
  function LocalSample(size: Vec2, d: Draw): (p: Vec3)
    ensures p.z == 0.0
    ensures p.x + size.x / 2.0 == size.x * d.x && p.y + size.y / 2.0 == size.y * d.y
  {
    Vec3(size.x * d.x - size.x / 2.0, size.y * d.y - size.y / 2.0, 0.0)
  }

  /** The point a shadow ray from `origin` is aimed at. */
  function Target(l: Light, d: Draw): Vec3 {
    match l
    case PointLight(_, p, _) => p
    case SquareLight(_, p, m, size, _) => TransformPoint(LocalSample(size, d), m, p, 1.0)
  }

  /** `sample_ray(origin)`: a ray from `origin` towards the light, ending at
      the light. The square light first draws a point on its surface and
      stores it; the point light uses its position and changes nothing. */
  function SampleRay(num: Numerics, l: Light, origin: Vec3, d: Draw): (res: (Ray, Light))
    ensures res.0.origin == origin && res.0.tmin == 0.0
    ensures res.0.direction == num.normalize(Sub(Target(l, d), origin))
    ensures res.0.tmax == Upto(num.length(Sub(Target(l, d), origin)))
    ensures l.PointLight? ==> res.1 == l
    ensures l.SquareLight? ==> res.1 == l.(sampledPoint := Target(l, d))
  {
    var t := Target(l, d);
    var ray := Ray(origin, num.normalize(Sub(t, origin)), 0.0, Upto(num.length(Sub(t, origin))));
    match l
    case PointLight(_, _, _) => (ray, l)
    case SquareLight(_, _, _, _, _) => (ray, l.(sampledPoint := t))
  }

  /** `get_intensity(point)`: the intensity divided by the squared distance
      to the light (the point light's position, the square light's last
      sample). The point light caps the value at 10000. At distance zero
      the division gives an infinity, which the point light's cap turns
      into 10000 when the intensity is positive; every other zero-distance
      case (an infinity or NaN that reaches the caller) is `None`. */
  function GetIntensity(l: Light, point: Vec3): (r: Option<real>)
    ensures r.None? <==> NormSq(Sub(point, Source(l))) == 0.0 && (l.SquareLight? || l.intensity <= 0.0)
    ensures r.Some? && l.PointLight? ==> r.value <= MaxIntensity
    ensures r.Some? && 0.0 < NormSq(Sub(point, Source(l))) ==>
      (r.value * NormSq(Sub(point, Source(l))) == l.intensity || (l.PointLight? && r.value == MaxIntensity))
    ensures r.Some? && 0.0 < NormSq(Sub(point, Source(l))) && l.PointLight? && l.intensity <= MaxIntensity * NormSq(Sub(point, Source(l))) ==>
      r.value * NormSq(Sub(point, Source(l))) == l.intensity
  {
    var d2 := NormSq(Sub(point, Source(l)));
    match l
    case PointLight(i, _, _) =>
      if d2 == 0.0 then (if 0.0 < i then Some(MaxIntensity) else None)
      else
        DivLeCap(i, d2, MaxIntensity);
        Some(Min(i / d2, MaxIntensity))
    case SquareLight(i, _, _, _, _) =>
      if d2 == 0.0 then None else Some(i / d2)
  }

  /** The point the intensity is measured from. */
  function Source(l: Light): Vec3 {
    match l
    case PointLight(_, p, _) => p
    case SquareLight(_, _, _, _, s) => s
  }

  // ---------------------------------------------------------------------
  // Lemmas

  lemma DivLeCap(i: real, d2: real, cap: real)
    requires 0.0 < d2
    ensures i <= cap * d2 <==> i / d2 <= cap
  {
    assert i / d2 * d2 == i;
  }

  /** The order of the two pose setters does not matter. */
  lemma SetPoseEitherOrder(l: Light, p: Vec3, m: Mat3)
    ensures SetPose(l, p, m) == SetPosition(SetRotation(l, m), p)
  {
  }

  /** With a sound `length` and `normalize`, the shadow ray ends exactly at
      the point sampled on the light, and its direction has unit length. */
  lemma {:induction false} ShadowRayEndsOnLight(num: Numerics, l: Light, origin: Vec3, d: Draw)
    requires Sound(num)
    requires Target(l, d) != origin
    ensures var ray := SampleRay(num, l, origin, d).0;
            Add(ray.origin, Scale(ray.tmax.t, ray.direction)) == Target(l, d)
    ensures NormSq(SampleRay(num, l, origin, d).0.direction) == 1.0
  {
    var diff := Sub(Target(l, d), origin);
    assert diff != Zero;
    var len := num.length(diff);
    NormSqPositive(diff);
    assert len != 0.0;
    assert num.normalize(diff) == Scale(1.0 / len, diff);
    assert len * (1.0 / len) == 1.0;
    assert Scale(len, Scale(1.0 / len, diff)) == diff;
    NormalizeIsUnit(num, diff);
  }

  /** A draw from [0, 1) x [0, 1) selects a point of the square
      [-size/2, size/2) x [-size/2, size/2) of the light's plane. */
  lemma {:induction false} LocalSampleInSquare(size: Vec2, d: Draw)
    requires InUnit(d) && 0.0 < size.x && 0.0 < size.y
    ensures var p := LocalSample(size, d);
            && -size.x / 2.0 <= p.x < size.x / 2.0
            && -size.y / 2.0 <= p.y < size.y / 2.0
  {
    var p := LocalSample(size, d);
    assert p.x == size.x * d.x - size.x / 2.0 && p.y == size.y * d.y - size.y / 2.0;
    AxisSample(size.x, d.x);
    AxisSample(size.y, d.y);
  }

  lemma AxisSample(s: real, t: real)
    requires 0.0 < s && 0.0 <= t < 1.0
    ensures -s / 2.0 <= s * t - s / 2.0 < s / 2.0
  {
    MulNonNeg(s, t);
    assert s * t < s * 1.0;
  }

  /** The draw (1/2, 1/2) selects the centre of the light, its position. */
  lemma SquareCentreSample(l: Light)
    requires l.SquareLight?
    ensures Target(l, Draw(0.5, 0.5)) == l.position
  {
    assert LocalSample(l.size, Draw(0.5, 0.5)) == Zero;
  }

  /** For a light whose rotation has orthonormal columns, every sampled
      point lies in the plane through the light's position perpendicular
      to the light's axis `R (0, 0, 1)`, at the distance from the position
      that the local sample has from the origin. */
  lemma {:induction false} SampleInLightPlane(l: Light, d: Draw)
    requires l.SquareLight? && Orthonormal(Transpose(l.rotation))
    ensures Dot(Sub(Target(l, d), l.position), MulVec(l.rotation, Vec3(0.0, 0.0, 1.0))) == 0.0
    ensures NormSq(Sub(Target(l, d), l.position)) == NormSq(LocalSample(l.size, d))
  {
    var p := LocalSample(l.size, d);
    var r := l.rotation;
    var t := Transpose(r);
    var ez := Vec3(0.0, 0.0, 1.0);
    TransformIsComposition(p, r, l.position, 1.0);
    assert Resize(p, 1.0) == p;
    assert Sub(Target(l, d), l.position) == MulVec(r, p);
    TransposeTwice(r);
    MulTVecIsTransposed(t, p);
    MulTVecIsTransposed(t, ez);
    PolarizationOrthogonal(t, p, ez);
    TransposeRotationIsometry(t, p);
  }

  /** An `R^T` that preserves squared length preserves orthogonality. */
  lemma {:induction false} PolarizationOrthogonal(r: Mat3, a: Vec3, b: Vec3)
    requires Orthonormal(r) && Dot(a, b) == 0.0
    ensures Dot(MulTVec(r, a), MulTVec(r, b)) == 0.0
  {
    TransposeRotationIsometry(r, a);
    TransposeRotationIsometry(r, b);
    TransposeRotationIsometry(r, Add(a, b));
    assert MulTVec(r, Add(a, b)) == Add(MulTVec(r, a), MulTVec(r, b));
    DotExpandSum(MulTVec(r, a), MulTVec(r, b));
    DotExpandSum(a, b);
  }

  lemma DotExpandSum(a: Vec3, b: Vec3)
    ensures NormSq(Add(a, b)) == NormSq(a) + 2.0 * Dot(a, b) + NormSq(b)
  {
  }

  /** For a non-negative intensity the point light gets no brighter with
      distance. */
  lemma {:induction false} PointLightFallsOff(l: Light, near: Vec3, far: Vec3)
    requires l.PointLight? && 0.0 <= l.intensity
    requires 0.0 < NormSq(Sub(near, l.position)) <= NormSq(Sub(far, l.position))
    ensures GetIntensity(l, far).value <= GetIntensity(l, near).value
  {
    var a := NormSq(Sub(near, l.position));
    var b := NormSq(Sub(far, l.position));
    DivAntitone(l.intensity, a, b);
  }

  lemma DivAntitone(i: real, a: real, b: real)
    requires 0.0 <= i && 0.0 < a <= b
    ensures i / b <= i / a
  {
    assert i / b * b == i && i / a * a == i;
    assert i / b * a <= i / b * b;
  }

  /** Right after a square light has sampled a point, its intensity is
      measured from that new point, not from the one sampled before. */
  lemma SquareIntensityFollowsSample(num: Numerics, l: Light, origin: Vec3, d: Draw, point: Vec3)
    requires l.SquareLight?
    ensures Source(SampleRay(num, l, origin, d).1) == Target(l, d)
    ensures GetIntensity(SampleRay(num, l, origin, d).1, point)
         == GetIntensity(l.(sampledPoint := Target(l, d)), point)
  {
  }
}
