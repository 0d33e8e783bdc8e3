/** The path tracer of `render`: what one camera ray contributes to a pixel.

    The acceleration structure, the materials' shading functions and the
    random number generator are parameters: `Tracer` answers closest-hit and
    any-hit queries, `Shader` evaluates and samples a material, and `Draws`
    hands out the random numbers each step of a sample consumes, keyed by
    pixel, sample, bounce and light. */
module Integrator {
  import opened Wrappers
  import opened LinAlg
  import opened Geometry
  import opened Cameras
  import opened Lighting

  /** The closest-hit query and the any-hit (occlusion) query of the BVH
      traverser over the scene's triangles. */
  datatype Tracer = Tracer(closest: Ray -> Option<Hit>, occluded: Ray -> bool)

  /** Which random numbers a step consumes: pixel column and row, sample
      number and bounce number. */
  datatype Key = Key(i: nat, j: nat, sample: nat, bounce: nat)

  /** `Material::compute(light_ray, view_ray, normal, u, v)` and
      `Material::sample(ray, normal, u, v)`; the latter returns the next
      direction and the colour the path weight is multiplied by. */
  datatype Shader = Shader(
    compute: (Material, Ray, Ray, Vec3, real, real) -> Vec3,
    sample: (Material, Ray, Vec3, real, real, Key) -> (Vec3, Vec3))

  /** The pixel jitter of a sample (two draws from [-0.5, 0.5)) and the
      point drawn on a light for a shadow ray. */
  datatype Draws = Draws(jitter: (nat, nat, nat) -> Vec2, light: (Key, nat) -> Draw)

  /** Every jitter draw is one of `uniform_real_distribution(-0.5, 0.5)`:
      each component lies in [-0.5, 0.5). */
  ghost predicate JitterInRange(d: Draws) {
    forall i, j, s :: -0.5 <= d.jitter(i, j, s).x < 0.5 && -0.5 <= d.jitter(i, j, s).y < 0.5
  }

  /** The renderer's settings: sample counts, noise threshold and number of
      bounces, as the C `int`s and floating value they are. */
  datatype Knobs = Knobs(minSamples: int, maxSamples: int, noiseThreshold: real, numBounces: int)

  /** Everything a render call works with. */
  datatype Setup = Setup(
    num: Numerics, tracer: Tracer, shader: Shader, draws: Draws,
    triangles: seq<Triangle>, lights: seq<Light>, camera: Camera, knobs: Knobs)

  /** How far the shading point is moved back along the face normal to
      avoid hitting its own triangle again. */
  const Offset: real := 0.0001

  /** The shading data at a hit: face normal, shading normal, texture
      coordinate, material and the offset shading point. */
  datatype ShadePoint = ShadePoint(normal: Vec3, shadingNormal: Vec3, uv: Vec2, material: Material, point: Vec3)

  /** The shading normal: the normalised interpolated vertex normal when the
      triangle's entity is smooth shaded, the normalised face normal
      otherwise. */
  function ShadingNormal(num: Numerics, t: Triangle, s: Surface, u: real, v: real): (n: Vec3)
    ensures !s.smooth ==> n == num.normalize(t.FaceNormal())
    ensures s.smooth ==> n == num.normalize(t.NormalAt(u, v))
  {
    if s.smooth then num.normalize(t.NormalAt(u, v)) else num.normalize(t.FaceNormal())
  }

  /** The shading data of a hit. A primitive index past the triangle list,
      a triangle without a parent or a material index past the material
      list are undefined behaviour in the source and `None` here. */
  function ShadeAt(st: Setup, h: Hit): (sp: Option<ShadePoint>)
    ensures sp.Some? <==>
      && h.prim < |st.triangles|
      && st.triangles[h.prim].parent.Some?
      && MaterialAt(st.triangles[h.prim].parent.value, st.triangles[h.prim].UVAt(h.u, h.v).x,
                    st.triangles[h.prim].UVAt(h.u, h.v).y).Some?
    ensures sp.Some? ==>
      var t := st.triangles[h.prim];
      && sp.value.normal == st.num.normalize(t.FaceNormal())
      && sp.value.shadingNormal == ShadingNormal(st.num, t, t.parent.value, h.u, h.v)
      && sp.value.uv == t.UVAt(h.u, h.v)
      && sp.value.material in t.parent.value.materials
      && Add(sp.value.point, Scale(Offset, sp.value.normal)) == t.PointAt(h.u, h.v)
  {
    if h.prim >= |st.triangles| then None
    else
      var t := st.triangles[h.prim];
      if t.parent.None? then None
      else
        var s := t.parent.value;
        var uv := t.UVAt(h.u, h.v);
        var m :- MaterialAt(s, uv.x, uv.y);
        var n := st.num.normalize(t.FaceNormal());
        Some(ShadePoint(n, ShadingNormal(st.num, t, s, h.u, h.v), uv, m, Sub(t.PointAt(h.u, h.v), Scale(Offset, n))))
  }

  /** `illumination`: the material's response to one shadow ray, or black
      when anything blocks the shadow ray. */
  function Illumination(st: Setup, sp: ShadePoint, lightRay: Ray, viewRay: Ray): (c: Vec3)
    ensures st.tracer.occluded(lightRay) ==> c == Zero
    ensures !st.tracer.occluded(lightRay) ==>
      c == st.shader.compute(sp.material, lightRay, viewRay, sp.shadingNormal, sp.uv.x, sp.uv.y)
  {
    if st.tracer.occluded(lightRay) then Zero
    else st.shader.compute(sp.material, lightRay, viewRay, sp.shadingNormal, sp.uv.x, sp.uv.y)
  }

  /** What light number `idx` contributes at a shading point: sample a
      shadow ray, then scale the illumination by the light's intensity at
      the point (measured from the point just sampled). */
  function LightTerm(st: Setup, key: Key, sp: ShadePoint, viewRay: Ray, idx: nat): (c: Option<Vec3>)
    requires idx < |st.lights|
  {
    var (lightRay, sampled) := SampleRay(st.num, st.lights[idx], sp.point, st.draws.light(key, idx));
    var intensity :- GetIntensity(sampled, sp.point);
    Some(Scale(intensity, Illumination(st, sp, lightRay, viewRay)))
  }

  /** The direct light at a shading point: the sum of the terms of the
      first `k` lights. */
  function DirectLight(st: Setup, key: Key, sp: ShadePoint, viewRay: Ray, k: nat): (c: Option<Vec3>)
    requires k <= |st.lights|
    ensures c.Some? <==> forall idx :: 0 <= idx < k ==> LightTerm(st, key, sp, viewRay, idx).Some?
  {
    if k == 0 then Some(Zero)
    else
      var rest :- DirectLight(st, key, sp, viewRay, k - 1);
      var term :- LightTerm(st, key, sp, viewRay, k - 1);
      Some(Add(rest, term))
  }

  /** Every component clamped to [0, 1]. */
  function ClampColor(c: Vec3): (r: Vec3)
    ensures 0.0 <= r.x <= 1.0 && 0.0 <= r.y <= 1.0 && 0.0 <= r.z <= 1.0
    ensures 0.0 <= c.x <= 1.0 && 0.0 <= c.y <= 1.0 && 0.0 <= c.z <= 1.0 ==> r == c
  {
    Vec3(Clamp(c.x, 0.0, 1.0), Clamp(c.y, 0.0, 1.0), Clamp(c.z, 0.0, 1.0))
  }

  /** The key of bounce `b` of a sample. */
  function BounceKey(key: Key, b: nat): Key {
    key.(bounce := b)
  }

  /** The direct light bounce `b` gathers at a shading point; every bounce
      after the first is clamped to [0, 1]. */
  function Gather(st: Setup, key: Key, ray: Ray, sp: ShadePoint, b: nat): (c: Option<Vec3>)
    ensures c.Some? <==> DirectLight(st, BounceKey(key, b), sp, ray, |st.lights|).Some?
    ensures c.Some? && 1 <= b ==> 0.0 <= c.value.x <= 1.0 && 0.0 <= c.value.y <= 1.0 && 0.0 <= c.value.z <= 1.0
  {
    var light :- DirectLight(st, BounceKey(key, b), sp, ray, |st.lights|);
    Some(if 1 <= b then ClampColor(light) else light)
  }

  /** The bounce loop from bounce `b` on, with the current ray, its closest
      hit, the path weight and the radiance gathered so far. A miss ends the
      path, and so does the last bounce, without sampling a new direction. */
  function Bounces(st: Setup, key: Key, ray: Ray, hit: Option<Hit>, weight: Vec3, b: nat, path: Vec3): (r: Option<Vec3>)
    ensures st.knobs.numBounces <= b || hit.None? ==> r == Some(path)
    ensures r.Some? && b < st.knobs.numBounces && hit.Some? ==> ShadeAt(st, hit.value).Some?
    decreases st.knobs.numBounces - b, 1
  {
    if st.knobs.numBounces <= b then Some(path)
    else match hit
      case None => Some(path)
      case Some(h) =>
        var sp :- ShadeAt(st, h);
        var gathered :- Gather(st, key, ray, sp, b);
        var path' := Add(path, Mul(gathered, weight));
        if b == st.knobs.numBounces - 1 then Some(path')
        else Continue(st, key, ray, sp, weight, b, path')
  }

  /** The rest of a bounce: sample the material for the next direction,
      trace it from the shading point and multiply the weight by the
      sampled colour. */
  function Continue(st: Setup, key: Key, ray: Ray, sp: ShadePoint, weight: Vec3, b: nat, path: Vec3): (r: Option<Vec3>)
    requires b < st.knobs.numBounces
    decreases st.knobs.numBounces - b, 0
  {
    var next := NextRay(st, key, ray, sp, b);
    Bounces(st, key, next, st.tracer.closest(next), Mul(weight, NextColor(st, key, ray, sp, b)), b + 1, path)
  }

  /** The ray of the next bounce: from the shading point in the sampled
      direction. */
  function NextRay(st: Setup, key: Key, ray: Ray, sp: ShadePoint, b: nat): (r: Ray)
    ensures r.origin == sp.point && r.tmin == 0.0 && r.tmax == Unbounded
  {
    RayFrom(sp.point, st.shader.sample(sp.material, ray, sp.shadingNormal, sp.uv.x, sp.uv.y, BounceKey(key, b)).0)
  }

  /** The colour the path weight is multiplied by at bounce `b`. */
  function NextColor(st: Setup, key: Key, ray: Ray, sp: ShadePoint, b: nat): Vec3 {
    st.shader.sample(sp.material, ray, sp.shadingNormal, sp.uv.x, sp.uv.y, BounceKey(key, b)).1
  }

  /** With no bounces the sample shows the absolute value of the shading
      normal at the hit, and black on a miss. */
  function NormalVisual(st: Setup, hit: Option<Hit>): (c: Option<Vec3>)
    ensures c.Some? ==> 0.0 <= c.value.x && 0.0 <= c.value.y && 0.0 <= c.value.z
    ensures hit.None? ==> c == Some(Zero)
  {
    match hit
    case None => Some(Zero)
    case Some(h) =>
      if h.prim >= |st.triangles| then None
      else
        var t := st.triangles[h.prim];
        if t.parent.None? then None
        else Some(AbsVec(ShadingNormal(st.num, t, t.parent.value, h.u, h.v)))
  }

  /** The radiance one camera ray carries back: the normal visualisation
      when `num_bounces` is 0, otherwise the bounce loop started with the
      weight 2 pi and no radiance. */
  function PathRadiance(st: Setup, key: Key, ray: Ray): (r: Option<Vec3>)
    ensures st.tracer.closest(ray).None? ==> r == Some(Zero)
    ensures st.knobs.numBounces == 0 ==> r == NormalVisual(st, st.tracer.closest(ray))
    ensures st.knobs.numBounces < 0 ==> r == Some(Zero)
    ensures 0 < st.knobs.numBounces && |st.lights| == 0 && r.Some? ==> r == Some(Zero)
  {
    var hit := st.tracer.closest(ray);
    var start :- if st.knobs.numBounces == 0 then NormalVisual(st, hit) else Some(Zero);
    var r := Bounces(st, key, ray, hit, Gray(2.0 * Pi), 0, start);
    assert |st.lights| == 0 && r.Some? ==> r == Some(start) by {
      if |st.lights| == 0 && r.Some? {
        NoLightsKeepPath(st, key, ray, hit, Gray(2.0 * Pi), 0, start);
      }
    }
    r
  }

  // ---------------------------------------------------------------------
  // Lemmas

  /** A ray that hits nothing gives black, whatever the settings. */
  lemma MissIsBlack(st: Setup, key: Key, ray: Ray)
    requires st.tracer.closest(ray).None?
    ensures PathRadiance(st, key, ray) == Some(Zero)
  {
  }

  /** With no lights every bounce gathers nothing: the bounce loop returns
      the radiance it started with. */
  lemma {:induction false} NoLightsKeepPath(st: Setup, key: Key, ray: Ray, hit: Option<Hit>, weight: Vec3, b: nat, path: Vec3)
    requires |st.lights| == 0
    requires Bounces(st, key, ray, hit, weight, b, path).Some?
    ensures Bounces(st, key, ray, hit, weight, b, path) == Some(path)
    decreases st.knobs.numBounces - b, 1
  {
    if st.knobs.numBounces <= b || hit.None? {
    } else {
      NoLightsKeepPathAtHit(st, key, ray, hit.value, weight, b, path);
    }
  }

  lemma {:induction false} NoLightsKeepPathAtHit(st: Setup, key: Key, ray: Ray, h: Hit, weight: Vec3, b: nat, path: Vec3)
    requires |st.lights| == 0 && b < st.knobs.numBounces
    requires Bounces(st, key, ray, Some(h), weight, b, path).Some?
    ensures Bounces(st, key, ray, Some(h), weight, b, path) == Some(path)
    decreases st.knobs.numBounces - b, 0
  {
    var sp := ShadeAt(st, h).value;
    NoLightsGatherNothing(st, key, ray, sp, b);
    BouncesAtHit(st, key, ray, h, weight, b, path);
    assert Add(path, Mul(Zero, weight)) == path;
    if b != st.knobs.numBounces - 1 {
      var next := NextRay(st, key, ray, sp, b);
      NoLightsKeepPath(st, key, next, st.tracer.closest(next), Mul(weight, NextColor(st, key, ray, sp, b)), b + 1, path);
    }
  }

  lemma NoLightsGatherNothing(st: Setup, key: Key, ray: Ray, sp: ShadePoint, b: nat)
    requires |st.lights| == 0
    ensures Gather(st, key, ray, sp, b) == Some(Zero)
  {
    assert DirectLight(st, BounceKey(key, b), sp, ray, 0) == Some(Zero);
    assert ClampColor(Zero) == Zero;
  }

  /** One step of the bounce loop at a hit with defined shading. */
  lemma BouncesAtHit(st: Setup, key: Key, ray: Ray, h: Hit, weight: Vec3, b: nat, path: Vec3)
    requires b < st.knobs.numBounces && ShadeAt(st, h).Some?
    requires Gather(st, key, ray, ShadeAt(st, h).value, b).Some?
    ensures Bounces(st, key, ray, Some(h), weight, b, path)
         == var sp := ShadeAt(st, h).value;
            var path' := Add(path, Mul(Gather(st, key, ray, sp, b).value, weight));
            if b == st.knobs.numBounces - 1 then Some(path') else Continue(st, key, ray, sp, weight, b, path')
  {
  }

  /** With one bounce, a hit whose lights are all blocked is black, and
      otherwise the sample is the direct light weighted by 2 pi, unclamped. */
  lemma SingleBounceIsDirectLight(st: Setup, key: Key, ray: Ray, h: Hit)
    requires st.knobs.numBounces == 1 && st.tracer.closest(ray) == Some(h)
    requires ShadeAt(st, h).Some?
    ensures PathRadiance(st, key, ray)
         == match DirectLight(st, BounceKey(key, 0), ShadeAt(st, h).value, ray, |st.lights|)
            case None => None
            case Some(l) => Some(Mul(l, Gray(2.0 * Pi)))
  {
    var sp := ShadeAt(st, h).value;
    match DirectLight(st, BounceKey(key, 0), sp, ray, |st.lights|)
    case None =>
    case Some(l) =>
      assert Add(Zero, Mul(l, Gray(2.0 * Pi))) == Mul(l, Gray(2.0 * Pi));
  }

  /** When every shadow ray is blocked, the direct light is black. */
  lemma {:induction false} ShadowedIsBlack(st: Setup, key: Key, sp: ShadePoint, viewRay: Ray, k: nat)
    requires k <= |st.lights|
    requires forall r :: st.tracer.occluded(r)
    requires DirectLight(st, key, sp, viewRay, k).Some?
    ensures DirectLight(st, key, sp, viewRay, k) == Some(Zero)
  {
    if k > 0 {
      ShadowedIsBlack(st, key, sp, viewRay, k - 1);
      ShadowedTermIsBlack(st, key, sp, viewRay, k - 1);
    }
  }

  lemma ShadowedTermIsBlack(st: Setup, key: Key, sp: ShadePoint, viewRay: Ray, idx: nat)
    requires idx < |st.lights|
    requires forall r :: st.tracer.occluded(r)
    requires LightTerm(st, key, sp, viewRay, idx).Some?
    ensures LightTerm(st, key, sp, viewRay, idx) == Some(Zero)
  {
    var (lightRay, sampled) := SampleRay(st.num, st.lights[idx], sp.point, st.draws.light(key, idx));
    assert st.tracer.occluded(lightRay);
  }

  /** Non-negative inputs give non-negative radiance. */
  predicate NonNegColor(c: Vec3) {
    0.0 <= c.x && 0.0 <= c.y && 0.0 <= c.z
  }

  /** The physically meaningful setting: materials reflect non-negative
      amounts, path weights stay non-negative and light intensities are
      non-negative. */
  ghost predicate NonNegScene(st: Setup) {
    && (forall m, l, w, n, u, v :: NonNegColor(st.shader.compute(m, l, w, n, u, v)))
    && (forall m, r, n, u, v, k :: NonNegColor(st.shader.sample(m, r, n, u, v, k).1))
    && (forall idx :: 0 <= idx < |st.lights| ==> 0.0 <= st.lights[idx].intensity)
  }

  lemma {:induction false} DirectLightNonNeg(st: Setup, key: Key, sp: ShadePoint, viewRay: Ray, k: nat)
    requires k <= |st.lights| && NonNegScene(st)
    requires DirectLight(st, key, sp, viewRay, k).Some?
    ensures NonNegColor(DirectLight(st, key, sp, viewRay, k).value)
  {
    if k > 0 {
      DirectLightNonNeg(st, key, sp, viewRay, k - 1);
      LightTermNonNeg(st, key, sp, viewRay, k - 1);
    }
  }

  lemma LightTermNonNeg(st: Setup, key: Key, sp: ShadePoint, viewRay: Ray, idx: nat)
    requires idx < |st.lights| && NonNegScene(st)
    requires LightTerm(st, key, sp, viewRay, idx).Some?
    ensures NonNegColor(LightTerm(st, key, sp, viewRay, idx).value)
  {
    var l := st.lights[idx];
    var (lightRay, sampled) := SampleRay(st.num, l, sp.point, st.draws.light(key, idx));
    assert 0.0 <= sampled.intensity;
    IntensityNonNeg(sampled, sp.point);
    var c := Illumination(st, sp, lightRay, viewRay);
    assert NonNegColor(c);
    ScaleNonNeg(GetIntensity(sampled, sp.point).value, c);
  }

  lemma ScaleNonNeg(a: real, c: Vec3)
    requires 0.0 <= a && NonNegColor(c)
    ensures NonNegColor(Scale(a, c))
  {
    MulNonNeg(a, c.x);
    MulNonNeg(a, c.y);
    MulNonNeg(a, c.z);
  }

  lemma MulColorNonNeg(a: Vec3, b: Vec3)
    requires NonNegColor(a) && NonNegColor(b)
    ensures NonNegColor(Mul(a, b))
  {
    MulNonNeg(a.x, b.x);
    MulNonNeg(a.y, b.y);
    MulNonNeg(a.z, b.z);
  }

  lemma IntensityNonNeg(l: Light, p: Vec3)
    requires 0.0 <= l.intensity && GetIntensity(l, p).Some?
    ensures 0.0 <= GetIntensity(l, p).value
  {
    var d2 := NormSq(Sub(p, Source(l)));
    if d2 != 0.0 {
      assert 0.0 <= d2;
      DivNonNeg(l.intensity, d2);
    }
  }

  lemma DivNonNeg(a: real, b: real)
    requires 0.0 <= a && 0.0 < b
    ensures 0.0 <= a / b
  {
  }

  /** In a non-negative scene every bounce adds a non-negative amount, so
      the radiance of a path never goes negative. */
  lemma {:induction false} BouncesNonNeg(st: Setup, key: Key, ray: Ray, hit: Option<Hit>, weight: Vec3, b: nat, path: Vec3)
    requires NonNegScene(st) && NonNegColor(weight) && NonNegColor(path)
    requires Bounces(st, key, ray, hit, weight, b, path).Some?
    ensures NonNegColor(Bounces(st, key, ray, hit, weight, b, path).value)
    decreases st.knobs.numBounces - b
  {
    if st.knobs.numBounces <= b || hit.None? {
    } else {
      var sp := ShadeAt(st, hit.value).value;
      var gathered := Gather(st, key, ray, sp, b).value;
      assert NonNegColor(gathered) by {
        DirectLightNonNeg(st, BounceKey(key, b), sp, ray, |st.lights|);
      }
      MulColorNonNeg(gathered, weight);
      var path' := Add(path, Mul(gathered, weight));
      if b != st.knobs.numBounces - 1 {
        var next := NextRay(st, key, ray, sp, b);
        var color := NextColor(st, key, ray, sp, b);
        MulColorNonNeg(weight, color);
        assert Bounces(st, key, ray, hit, weight, b, path)
            == Bounces(st, key, next, st.tracer.closest(next), Mul(weight, color), b + 1, path');
        BouncesNonNeg(st, key, next, st.tracer.closest(next), Mul(weight, color), b + 1, path');
      }
    }
  }

  /** In a non-negative scene the radiance of a camera ray is non-negative. */
  lemma {:induction false} PathRadianceNonNeg(st: Setup, key: Key, ray: Ray)
    requires NonNegScene(st) && PathRadiance(st, key, ray).Some?
    ensures NonNegColor(PathRadiance(st, key, ray).value)
  {
    var hit := st.tracer.closest(ray);
    var start := (if st.knobs.numBounces == 0 then NormalVisual(st, hit) else Some(Zero)).value;
    assert 0.0 <= 2.0 * Pi;
    BouncesNonNeg(st, key, ray, hit, Gray(2.0 * Pi), 0, start);
  }

  /** With a sound `normalize` and a shading normal of non-zero length, the
      normal visualisation stays inside the unit cube, so it quantises
      without clipping. */
  lemma {:induction false} NormalVisualInUnitCube(st: Setup, h: Hit)
    requires Sound(st.num)
    requires h.prim < |st.triangles| && st.triangles[h.prim].parent.Some?
    requires var t := st.triangles[h.prim];
             (if t.parent.value.smooth then t.NormalAt(h.u, h.v) else t.FaceNormal()) != Zero
    ensures var c := NormalVisual(st, Some(h)).value;
            c.x <= 1.0 && c.y <= 1.0 && c.z <= 1.0
  {
    var t := st.triangles[h.prim];
    var raw := if t.parent.value.smooth then t.NormalAt(h.u, h.v) else t.FaceNormal();
    NormalizeIsUnit(st.num, raw);
    var n := st.num.normalize(raw);
    UnitComponents(n);
  }

  lemma UnitComponents(n: Vec3)
    requires NormSq(n) == 1.0
    ensures Abs(n.x) <= 1.0 && Abs(n.y) <= 1.0 && Abs(n.z) <= 1.0
  {
    SquareAtMostOne(n.x, n.y * n.y + n.z * n.z);
    SquareAtMostOne(n.y, n.x * n.x + n.z * n.z);
    SquareAtMostOne(n.z, n.x * n.x + n.y * n.y);
  }

  lemma SquareAtMostOne(a: real, rest: real)
    requires a * a + rest == 1.0 && 0.0 <= rest
    ensures Abs(a) <= 1.0
  {
    assert Abs(a) * Abs(a) == a * a;
    if 1.0 < Abs(a) {
      SquareStrictlyMonotone(1.0, Abs(a));
    }
  }

  /** With a sound `normalize` and a non-degenerate triangle, the shading
      point lies exactly `Offset` behind the hit point. */
  lemma {:induction false} ShadingPointOffset(st: Setup, h: Hit)
    requires Sound(st.num) && ShadeAt(st, h).Some?
    requires st.triangles[h.prim].FaceNormal() != Zero
    ensures var sp := ShadeAt(st, h).value;
            NormSq(Sub(st.triangles[h.prim].PointAt(h.u, h.v), sp.point)) == Offset * Offset
  {
    var sp := ShadeAt(st, h).value;
    var t := st.triangles[h.prim];
    NormalizeIsUnit(st.num, t.FaceNormal());
    assert Sub(t.PointAt(h.u, h.v), sp.point) == Scale(Offset, sp.normal);
    NormSqScale(Offset, sp.normal);
  }
}
