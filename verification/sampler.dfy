/** Adaptive sampling of one pixel: up to `max_samples` camera rays,
    jittered inside the pixel, whose radiances are averaged as they come
    in; sampling stops early once `min_samples` have been taken and the
    last sample moved the average by less than the noise threshold. */
module Sampler {
  import opened Wrappers
  import opened LinAlg
  import opened Geometry
  import opened Cameras
  import opened Integrator

  /** The sum of the radiances of samples 1 to n; `None` when one of them
      is undefined. */
  function SumUpto(paths: nat -> Option<Vec3>, n: nat): (r: Option<Vec3>)
    ensures r.Some? <==> forall t :: 1 <= t <= n ==> paths(t).Some?
  {
    if n == 0 then Some(Zero)
    else
      var rest :- SumUpto(paths, n - 1);
      var p :- paths(n);
      Some(Add(rest, p))
  }

  /** The mean of the radiances of samples 1 to n (black for no samples):
      the reference the running average is measured against. */
  function MeanOf(paths: nat -> Option<Vec3>, n: nat): (r: Option<Vec3>)
    ensures r.Some? <==> SumUpto(paths, n).Some?
  {
    if n == 0 then Some(Zero)
    else
      var sum :- SumUpto(paths, n);
      Some(Scale(1.0 / n as real, sum))
  }

  /** How far sample `t` moved the average. */
  function Change(num: Numerics, paths: nat -> Option<Vec3>, t: nat): real
    requires 1 <= t
  {
    num.length(Sub(MeanOf(paths, t).GetOr(Zero), MeanOf(paths, t - 1).GetOr(Zero)))
  }

  /** The sample loop from sample `s` on, with the running average `pixel`
      of the samples before it. Each sample moves the average by
      `(path - pixel) / s`; after it, the loop stops when `s >= min_samples`
      and that move is shorter than the noise threshold. The result is the
      final average and the number of samples taken. */
  function Accumulate(k: Knobs, num: Numerics, paths: nat -> Option<Vec3>, s: nat, pixel: Vec3): (r: Option<(Vec3, nat)>)
    requires 1 <= s && MeanOf(paths, s - 1) == Some(pixel)
    ensures r.Some? ==> MeanOf(paths, r.value.1) == Some(r.value.0)
    ensures r.Some? && k.maxSamples < s ==> r.value.1 == s - 1
    ensures r.Some? && s <= k.maxSamples ==> s <= r.value.1 <= k.maxSamples
    ensures r.Some? && s <= k.maxSamples && r.value.1 < k.maxSamples ==>
      k.minSamples <= r.value.1 && Change(num, paths, r.value.1) < k.noiseThreshold
    ensures r.Some? ==> forall t :: s <= t < r.value.1 && k.minSamples <= t ==> k.noiseThreshold <= Change(num, paths, t)
    ensures r.None? ==> exists t :: s <= t <= k.maxSamples && paths(t).None?
    decreases k.maxSamples + 1 - s
  {
    if k.maxSamples < s then Some((pixel, s - 1))
    else
      var p :- paths(s);
      var contrib := Scale(1.0 / s as real, Sub(p, pixel));
      var next := Add(pixel, contrib);
      MeanStep(paths, s, pixel, p);
      assert Sub(next, pixel) == contrib;
      if k.minSamples <= s && num.length(contrib) < k.noiseThreshold then Some((next, s))
      else Accumulate(k, num, paths, s + 1, next)
  }

  /** The ray of sample `s` of pixel (i, j): through the pixel's corner when
      only one sample is allowed, through the jittered position otherwise. */
  function CameraRay(st: Setup, i: nat, j: nat, s: nat): (r: Option<Ray>)
    ensures r.Some? <==> st.camera.scale.x != 0.0 && st.camera.scale.y != 0.0
    ensures st.knobs.maxSamples == 1 ==> r == PixelToRay(st.num, st.camera, i as real, j as real)
  {
    if st.knobs.maxSamples == 1 then PixelToRay(st.num, st.camera, i as real, j as real)
    else
      var jitter := st.draws.jitter(i, j, s);
      PixelToRay(st.num, st.camera, i as real + jitter.x, j as real + jitter.y)
  }

  /** The radiance of every sample of pixel (i, j). */
  function SamplePaths(st: Setup, i: nat, j: nat): nat -> Option<Vec3> {
    (s: nat) => match CameraRay(st, i, j, s)
         case None => None
         case Some(ray) => PathRadiance(st, Key(i, j, s, 0), ray)
  }

  /** The value stored for pixel (i, j), with the number of samples taken. */
  function SamplePixel(st: Setup, i: nat, j: nat): (r: Option<(Vec3, nat)>)
    ensures r.Some? ==> MeanOf(SamplePaths(st, i, j), r.value.1) == Some(r.value.0)
    ensures r.Some? && st.knobs.maxSamples < 1 ==> r.value == (Zero, 0)
    ensures r.Some? && 1 <= st.knobs.maxSamples ==> 1 <= r.value.1 <= st.knobs.maxSamples
    ensures r.Some? && r.value.1 < st.knobs.maxSamples ==>
      st.knobs.minSamples <= r.value.1 && Change(st.num, SamplePaths(st, i, j), r.value.1) < st.knobs.noiseThreshold
    ensures r.Some? ==> forall t :: 1 <= t < r.value.1 && st.knobs.minSamples <= t ==>
      st.knobs.noiseThreshold <= Change(st.num, SamplePaths(st, i, j), t)
  {
    Accumulate(st.knobs, st.num, SamplePaths(st, i, j), 1, Zero)
  }

  // ---------------------------------------------------------------------
  // Lemmas

  /** Every camera ray of pixel (i, j) passes through the pixel: projected
      back onto the image it lands within half a pixel of (i, j) on both
      axes, exactly on (i, j) when only one sample is allowed. */
  lemma {:induction false} CameraRayInPixel(st: Setup, i: nat, j: nat, s: nat)
    requires JitterInRange(st.draws)
    requires Sound(st.num) && Orthonormal(st.camera.rotation)
    requires st.camera.focalLength != 0.0 && st.camera.scale.x != 0.0 && st.camera.scale.y != 0.0
    ensures CameraRay(st, i, j, s).Some?
    ensures var p := Project(st.camera, CameraRay(st, i, j, s).value.direction);
            && p.Some?
            && i as real - 0.5 <= p.value.x < i as real + 0.5
            && j as real - 0.5 <= p.value.y < j as real + 0.5
            && (st.knobs.maxSamples == 1 ==> p.value == Vec2(i as real, j as real))
  {
    if st.knobs.maxSamples == 1 {
      ProjectPixelRay(st.num, st.camera, i as real, j as real);
    } else {
      var jitter := st.draws.jitter(i, j, s);
      ProjectPixelRay(st.num, st.camera, i as real + jitter.x, j as real + jitter.y);
    }
  }

  /** One more sample updates the mean the way the loop does:
      `mean(n) = mean(n - 1) + (p - mean(n - 1)) / n`. */
  lemma {:induction false} MeanStep(paths: nat -> Option<Vec3>, n: nat, pixel: Vec3, p: Vec3)
    requires 1 <= n && MeanOf(paths, n - 1) == Some(pixel) && paths(n) == Some(p)
    ensures MeanOf(paths, n) == Some(Add(pixel, Scale(1.0 / n as real, Sub(p, pixel))))
  {
    var prev := SumUpto(paths, n - 1).value;
    PreviousSum(paths, n, pixel);
    assert SumUpto(paths, n) == Some(Add(prev, p));
    VecMeanStep(prev, pixel, p, n as real);
  }

  /** The sum of the first `n - 1` samples is `n - 1` times their mean. */
  lemma PreviousSum(paths: nat -> Option<Vec3>, n: nat, pixel: Vec3)
    requires 1 <= n && MeanOf(paths, n - 1) == Some(pixel)
    ensures SumUpto(paths, n - 1) == Some(Scale((n - 1) as real, pixel))
  {
    var prev := SumUpto(paths, n - 1).value;
    if n != 1 {
      ScaleBack((n - 1) as real, prev);
    }
  }

  lemma VecMeanStep(prev: Vec3, pixel: Vec3, p: Vec3, n: real)
    requires 1.0 <= n && prev == Scale(n - 1.0, pixel)
    ensures Scale(1.0 / n, Add(prev, p)) == Add(pixel, Scale(1.0 / n, Sub(p, pixel)))
  {
    RunningMeanStep(prev.x, pixel.x, p.x, n);
    RunningMeanStep(prev.y, pixel.y, p.y, n);
    RunningMeanStep(prev.z, pixel.z, p.z, n);
  }

  lemma ScaleBack(m: real, v: Vec3)
    requires m != 0.0
    ensures Scale(m, Scale(1.0 / m, v)) == v
  {
  }

  /** The scalar identity behind the running mean. */
  lemma RunningMeanStep(prev: real, a: real, p: real, n: real)
    requires 1.0 <= n && prev == (n - 1.0) * a
    ensures 1.0 / n * (prev + p) == a + 1.0 / n * (p - a)
  {
    assert 1.0 / n * (prev + p) == 1.0 / n * (n * a + (p - a));
    assert 1.0 / n * (n * a) == a;
  }

  /** A threshold of zero or less never stops sampling early: the pixel is
      the mean of exactly `max_samples` samples. */
  lemma NoThresholdTakesAllSamples(st: Setup, i: nat, j: nat)
    requires st.knobs.noiseThreshold <= 0.0 && 1 <= st.knobs.maxSamples
    requires SamplePixel(st, i, j).Some?
    ensures SamplePixel(st, i, j).value.1 == st.knobs.maxSamples
  {
  }

  /** With `min_samples` above `max_samples` sampling never stops early. */
  lemma MinAboveMaxTakesAllSamples(st: Setup, i: nat, j: nat)
    requires st.knobs.maxSamples < st.knobs.minSamples && 1 <= st.knobs.maxSamples
    requires SamplePixel(st, i, j).Some?
    ensures SamplePixel(st, i, j).value.1 == st.knobs.maxSamples
  {
  }

  /** With a single sample the pixel is the radiance of the unjittered ray
      through the pixel's corner. */
  lemma {:induction false} SingleSampleIsUnjittered(st: Setup, i: nat, j: nat)
    requires st.knobs.maxSamples == 1
    requires SamplePixel(st, i, j).Some?
    ensures PixelToRay(st.num, st.camera, i as real, j as real).Some?
    ensures Some(SamplePixel(st, i, j).value.0)
         == PathRadiance(st, Key(i, j, 1, 0), PixelToRay(st.num, st.camera, i as real, j as real).value)
  {
    var paths := SamplePaths(st, i, j);
    var r := SamplePixel(st, i, j).value;
    assert r.1 == 1;
    assert MeanOf(paths, 1) == Some(r.0);
    var p := paths(1).value;
    assert SumUpto(paths, 1) == Some(Add(Zero, p));
    assert Scale(1.0, Add(Zero, p)) == p;
  }

  /** Non-negative sample radiances give a non-negative mean. */
  lemma {:induction false} SumNonNeg(paths: nat -> Option<Vec3>, n: nat)
    requires forall t :: 1 <= t <= n && paths(t).Some? ==> NonNegColor(paths(t).value)
    requires SumUpto(paths, n).Some?
    ensures NonNegColor(SumUpto(paths, n).value)
  {
    if n > 0 {
      SumNonNeg(paths, n - 1);
    }
  }

  lemma {:induction false} MeanNonNeg(paths: nat -> Option<Vec3>, n: nat)
    requires forall t :: 1 <= t <= n && paths(t).Some? ==> NonNegColor(paths(t).value)
    requires MeanOf(paths, n).Some?
    ensures NonNegColor(MeanOf(paths, n).value)
  {
    if n > 0 {
      SumNonNeg(paths, n);
      var sum := SumUpto(paths, n).value;
      MulNonNeg(1.0 / n as real, sum.x);
      MulNonNeg(1.0 / n as real, sum.y);
      MulNonNeg(1.0 / n as real, sum.z);
    }
  }

  /** In a non-negative scene every stored pixel is non-negative. */
  lemma {:induction false} PixelNonNeg(st: Setup, i: nat, j: nat)
    requires NonNegScene(st) && SamplePixel(st, i, j).Some?
    ensures NonNegColor(SamplePixel(st, i, j).value.0)
  {
    var paths := SamplePaths(st, i, j);
    var n := SamplePixel(st, i, j).value.1;
    forall t | 1 <= t <= n && paths(t).Some?
      ensures NonNegColor(paths(t).value)
    {
      PathRadianceNonNeg(st, Key(i, j, t, 0), CameraRay(st, i, j, t).value);
    }
    MeanNonNeg(paths, n);
  }
}
