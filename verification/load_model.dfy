/** `load_model`: reads a mesh, places every triangle with one scale,
    rotation and position, and wraps the result in a single entity. */
module LoadModel {
  import opened Wrappers
  import opened LinAlg
  import opened Geometry
  import opened Transform
  import opened Entities

  /** One loaded triangle placed in the scene: vertices through
      `transform`, vertex normals only rotated, colours and texture
      coordinates copied. The triangle is built afresh, so it has no
      parent yet. */
  function PlaceTriangle(t: Triangle, r: Mat3, p: Vec3, s: real): Triangle {
    Triangle(TransformPoint(t.p0, r, p, s), TransformPoint(t.p1, r, p, s), TransformPoint(t.p2, r, p, s),
             Rotate(t.vn0, r), Rotate(t.vn1, r), Rotate(t.vn2, r),
             t.vc0, t.vc1, t.vc2,
             t.uv0, t.uv1, t.uv2,
             None)
  }

  /** `load_model(path, smooth, position, scale, rotation, color)`. The
      entity constructor it calls takes the placed triangles directly; it
      is modelled like the path constructor (parents set, one coloured
      material), with the pose left unset. */
  function Load(path: string, smooth: bool, p: Vec3, s: real, r: Mat3, color: Vec3,
                load: Loader, unset: Placement): (es: seq<Entity>)
    ensures |es| == 1
    ensures es[0].surface == DefaultSurface(smooth, color)
    ensures IsObjPath(path) ==> |es[0].triangles| == |load(path)|
    ensures !IsObjPath(path) ==> es[0].triangles == []
    ensures forall i :: 0 <= i < |es[0].triangles| ==>
      && es[0].triangles[i].p0 == TransformPoint(load(path)[i].p0, r, p, s)
      && es[0].triangles[i].p1 == TransformPoint(load(path)[i].p1, r, p, s)
      && es[0].triangles[i].p2 == TransformPoint(load(path)[i].p2, r, p, s)
      && es[0].triangles[i].vn0 == Rotate(load(path)[i].vn0, r)
      && es[0].triangles[i].vn1 == Rotate(load(path)[i].vn1, r)
      && es[0].triangles[i].vn2 == Rotate(load(path)[i].vn2, r)
      && SameSurfaceData(es[0].triangles[i], load(path)[i].(parent := Some(es[0].surface)))
  {
    var loaded := if IsObjPath(path) then load(path) else [];
    var placed := seq(|loaded|, i requires 0 <= i < |loaded| => PlaceTriangle(loaded[i], r, p, s));
    var surface := DefaultSurface(smooth, color);
    [Entity(unset.position, unset.rotation, unset.scale, Adopt(placed, surface), surface)]
  }

  /** Loading with a placement gives the same triangles as constructing the
      entity from the path and then calling `set_scale`, `set_position` and
      `set_rotation` with the same values, as the configuration loader does. */
  lemma {:induction false} LoadAgreesWithSetters(path: string, smooth: bool, p: Vec3, s: real, r: Mat3, color: Vec3,
                                                 load: Loader, unset: Placement)
    ensures Load(path, smooth, p, s, r, color, load, unset)[0].triangles
         == SetRotation(SetPosition(SetScale(NewEntity(path, smooth, color, load, unset), s), p), r).triangles
  {
    var a := Load(path, smooth, p, s, r, color, load, unset)[0].triangles;
    var e := NewEntity(path, smooth, color, load, unset);
    var b := SetRotation(SetPosition(SetScale(e, s), p), r).triangles;
    forall i | 0 <= i < |a|
      ensures a[i] == b[i]
    {
      ScalePositionRotation(e, s, p, r, i);
    }
  }
}
