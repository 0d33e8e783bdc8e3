/** Ranging: the single-beam `SimpleLidar` and `do_lidar`, which casts the
    lidar's rays, measures the distance to the closest hit of each (0 on a
    miss) and averages them. */
module Lidars {
  import opened Wrappers
  import opened LinAlg
  import opened Geometry
  import opened Integrator

  /** `SimpleLidar`: the beam direction flag and the rigid-body pose. */
  datatype SimpleLidar = SimpleLidar(zPositive: bool, position: Vec3, rotation: Mat3)

  /** `SimpleLidar(z_positive)`: only the flag is set; the pose is whatever
      the rigid-body base holds, `unset` here. */
  function NewSimpleLidar(zPositive: bool, unset: Pose): (l: SimpleLidar)
    ensures l.zPositive == zPositive && l.position == unset.position && l.rotation == unset.rotation
  {
    SimpleLidar(zPositive, unset.position, unset.rotation)
  }

  /** The copy constructor: flag, position and all nine rotation entries. */
  function CopyLidar(l: SimpleLidar): (r: SimpleLidar)
    ensures r == l
  {
    var m := l.rotation;
    SimpleLidar(l.zPositive, l.position,
      Mat3(Vec3(m.r0.x, m.r0.y, m.r0.z), Vec3(m.r1.x, m.r1.y, m.r1.z), Vec3(m.r2.x, m.r2.y, m.r2.z)))
  }

  /** The beam in the lidar frame, before normalisation: +z or -z. */
  function Beam(l: SimpleLidar): Vec3 {
    Vec3(0.0, 0.0, if l.zPositive then 1.0 else -1.0)
  }

  /** `cast_rays`: one ray from the lidar position along the normalised
      beam turned by the transpose of the stored rotation, whatever number
      of rays is asked for. */
  function CastRays(num: Numerics, l: SimpleLidar, numRays: int): (rays: seq<Ray>)
    ensures |rays| == 1
    ensures rays[0].origin == l.position && rays[0].tmin == 0.0 && rays[0].tmax == Unbounded
    ensures rays[0].direction == MulTVec(l.rotation, num.normalize(Beam(l)))
  {
    [RayFrom(l.position, MulTVec(l.rotation, num.normalize(Beam(l))))]
  }

  /** The distance recorded for one ray: from the lidar position to the hit
      point, 0 on a miss; `None` when the hit names no triangle. */
  function HitDistance(num: Numerics, triangles: seq<Triangle>, position: Vec3, hit: Option<Hit>): (d: Option<real>)
    ensures d.Some? <==> (hit.Some? ==> hit.value.prim < |triangles|)
    ensures d.Some? ==> 0.0 <= d.value
    ensures hit.None? ==> d == Some(0.0)
    ensures hit.Some? && d.Some? ==>
      d.value == num.length(Sub(triangles[hit.value.prim].PointAt(hit.value.u, hit.value.v), position))
  {
    match hit
    case None => Some(0.0)
    case Some(h) =>
      if h.prim < |triangles| then Some(num.length(Sub(triangles[h.prim].PointAt(h.u, h.v), position)))
      else None
  }

  /** One distance per ray, in ray order. */
  function Distances(num: Numerics, tracer: Tracer, triangles: seq<Triangle>, position: Vec3, rays: seq<Ray>): (ds: Option<seq<real>>)
    ensures ds.Some? <==> forall k :: 0 <= k < |rays| ==> HitDistance(num, triangles, position, tracer.closest(rays[k])).Some?
    ensures ds.Some? ==> |ds.value| == |rays|
    ensures ds.Some? ==>
      forall k :: 0 <= k < |rays| ==> ds.value[k] == HitDistance(num, triangles, position, tracer.closest(rays[k])).value
  {
    if rays == [] then Some([])
    else
      var init :- Distances(num, tracer, triangles, position, rays[..|rays| - 1]);
      var d :- HitDistance(num, triangles, position, tracer.closest(rays[|rays| - 1]));
      Some(init + [d])
  }

  /** The sum of the distances, added in order. */
  function Sum(ds: seq<real>): real {
    if ds == [] then 0.0 else Sum(ds[..|ds| - 1]) + ds[|ds| - 1]
  }

  /** The averaging loop of `do_lidar`: the running sum and count, then the
      sum divided by the count. With no distances the count is 0, a
      division by zero, reported as `None`. */
  method MeanRange(ds: seq<real>) returns (r: Option<real>)
    ensures r.Some? <==> 0 < |ds|
    ensures r.Some? ==> r.value * |ds| as real == Sum(ds)
  {
    var sum := 0.0;
    var count := 0;
    while count < |ds|
      invariant count <= |ds|
      invariant sum == Sum(ds[..count])
    {
      assert ds[..count + 1][..count] == ds[..count];
      sum := sum + ds[count];
      count := count + 1;
    }
    assert ds[..count] == ds;
    if count == 0 {
      return None;
    }
    return Some(sum / count as real);
  }

  /** `do_lidar` with a `SimpleLidar`: the range measured along its one
      beam. */
  method DoLidar(num: Numerics, tracer: Tracer, triangles: seq<Triangle>, l: SimpleLidar, numRays: int)
    returns (r: Option<real>)
    ensures r == HitDistance(num, triangles, l.position, tracer.closest(CastRays(num, l, numRays)[0]))
  {
    var rays := CastRays(num, l, numRays);
    var ds := Distances(num, tracer, triangles, l.position, rays);
    if ds.None? {
      return None;
    }
    r := MeanRange(ds.value);
    assert Sum(ds.value) == ds.value[0] by {
      assert ds.value[..0] == [];
    }
  }

  // ---------------------------------------------------------------------
  // Lemmas

  /** With a sound `normalize` the beam is the third row of the rotation,
      negated when the beam looks down -z. */
  lemma BeamIsThirdRow(num: Numerics, l: SimpleLidar, numRays: int)
    requires Sound(num)
    ensures CastRays(num, l, numRays)[0].direction == (if l.zPositive then l.rotation.r2 else Neg(l.rotation.r2))
  {
    NormalizeAxisZ(num, Beam(l).z);
  }

  /** The number of rays asked for does not change the rays cast. */
  lemma CastRaysIgnoresCount(num: Numerics, l: SimpleLidar, a: int, b: int)
    ensures CastRays(num, l, a) == CastRays(num, l, b)
  {
  }

  /** What the mean of the distances can be: never negative; exactly 0 when
      every ray missed; exactly `d` when every ray hit at distance `d`. */
  lemma {:induction false} MeanRangeCases(ds: seq<real>, mean: real, d: real)
    requires 0 < |ds| && mean * |ds| as real == Sum(ds)
    requires forall k :: 0 <= k < |ds| ==> 0.0 <= ds[k]
    ensures 0.0 <= mean
    ensures (forall k :: 0 <= k < |ds| ==> ds[k] == d) ==> mean == d
  {
    SumNonNeg(ds);
    if forall k :: 0 <= k < |ds| ==> ds[k] == d {
      SumConstant(ds, d);
      assert (mean - d) * |ds| as real == 0.0;
    }
  }

  lemma {:induction false} SumNonNeg(ds: seq<real>)
    requires forall k :: 0 <= k < |ds| ==> 0.0 <= ds[k]
    ensures 0.0 <= Sum(ds)
  {
    if ds != [] {
      SumNonNeg(ds[..|ds| - 1]);
    }
  }

  lemma {:induction false} SumConstant(ds: seq<real>, d: real)
    requires forall k :: 0 <= k < |ds| ==> ds[k] == d
    ensures Sum(ds) == |ds| as real * d
  {
    if ds != [] {
      SumConstant(ds[..|ds| - 1], d);
    }
  }

  /** The sum does not depend on the order the distances were recorded in:
      the rays are traced in parallel, and the model records them in ray
      order. */
  lemma {:induction false} SumOrderFree(ds: seq<real>, es: seq<real>)
    requires multiset(ds) == multiset(es)
    ensures Sum(ds) == Sum(es)
    decreases |ds|
  {
    if ds == [] {
      assert |es| == |multiset(es)| == 0;
    } else {
      var n := |ds| - 1;
      var x := ds[n];
      assert ds == ds[..n] + [x];
      assert x in multiset(es);
      var k :| 0 <= k < |es| && es[k] == x;
      var rest := es[..k] + es[k + 1..];
      assert es == es[..k] + [x] + es[k + 1..];
      assert multiset(ds) == multiset(ds[..n]) + multiset{x};
      assert multiset(es) == multiset(es[..k]) + multiset{x} + multiset(es[k + 1..]);
      assert multiset(rest) == multiset(es[..k]) + multiset(es[k + 1..]);
      assert multiset(ds[..n]) == multiset(ds) - multiset{x};
      assert multiset(rest) == multiset(es) - multiset{x};
      SumOrderFree(ds[..n], rest);
      SumRemove(es, k);
    }
  }

  /** Taking element `k` out lowers the sum by it. */
  lemma {:induction false} SumRemove(es: seq<real>, k: nat)
    requires k < |es|
    ensures Sum(es) == Sum(es[..k] + es[k + 1..]) + es[k]
    decreases |es|
  {
    var n := |es| - 1;
    if k < n {
      var rest := es[..k] + es[k + 1..];
      assert rest[..|rest| - 1] == es[..n][..k] + es[..n][k + 1..];
      assert rest[|rest| - 1] == es[n];
      SumRemove(es[..n], k);
      assert es[..n][k] == es[k];
    } else {
      assert es[..k] + es[k + 1..] == es[..n];
    }
  }
}
