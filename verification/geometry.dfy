/** Rays, hits, triangles and the per-entity shading data that a triangle
    reaches through its parent link. */
module Geometry {
  import opened Wrappers
  import opened LinAlg
  import opened UVMaps

  /** The far end of a ray: infinite by default, or a distance. */
  datatype Extent = Unbounded | Upto(t: real)

  /** A ray `origin + t direction`, `tmin <= t <= tmax`. */
  datatype Ray = Ray(origin: Vec3, direction: Vec3, tmin: real, tmax: Extent)

  /** A ray built from an origin and a direction only: `tmin` is 0 and
      `tmax` infinite. */
  function RayFrom(origin: Vec3, direction: Vec3): Ray {
    Ray(origin, direction, 0.0, Unbounded)
  }

  /** The answer of a closest-hit or any-hit query: which primitive, and
      the barycentric coordinates of the hit on it. */
  datatype Hit = Hit(prim: nat, u: real, v: real)

  /** The only material kind the entities create. Its shading functions
      live outside this model. */
  datatype Material = ColoredLambertian(color: Vec3)

  /** What a triangle's parent entity contributes to shading: the smooth
      shading flag, the material list and the map from (u, v) to a
      material index. */
  datatype Surface = Surface(smooth: bool, materials: seq<Material>, materialMap: ConstantUVMap<nat>)

  /** A triangle with its vertices, vertex normals, vertex colours, vertex
      texture coordinates and (once it belongs to an entity) its parent. */
  datatype Triangle = Triangle(
    p0: Vec3, p1: Vec3, p2: Vec3,
    vn0: Vec3, vn1: Vec3, vn2: Vec3,
    vc0: Vec3, vc1: Vec3, vc2: Vec3,
    uv0: Vec2, uv1: Vec2, uv2: Vec2,
    parent: Option<Surface>)
  {
    /** The geometric (face) normal `n`, recomputed from the vertices
        whenever they change: `(p0 - p1) x (p2 - p0)`. */
    function FaceNormal(): Vec3 {
      Cross(Sub(p0, p1), Sub(p2, p0))
    }

    /** The point with barycentric coordinates (u, v). */
    function PointAt(u: real, v: real): Vec3 {
      Barycentric(u, v, p0, p1, p2)
    }

    /** The interpolated vertex normal at (u, v), before normalisation. */
    function NormalAt(u: real, v: real): Vec3 {
      Barycentric(u, v, vn0, vn1, vn2)
    }

    /** The interpolated texture coordinate at (u, v). */
    function UVAt(u: real, v: real): Vec2 {
      Barycentric2(u, v, uv0, uv1, uv2)
    }

    function WithVertices(q0: Vec3, q1: Vec3, q2: Vec3): Triangle {
      this.(p0 := q0, p1 := q1, p2 := q2)
    }

    function WithNormals(n0: Vec3, n1: Vec3, n2: Vec3): Triangle {
      this.(vn0 := n0, vn1 := n1, vn2 := n2)
    }
  }

  /** Two triangles that differ at most in their vertex positions. */
  predicate SameAttributes(a: Triangle, b: Triangle) {
    && a.vn0 == b.vn0 && a.vn1 == b.vn1 && a.vn2 == b.vn2
    && a.vc0 == b.vc0 && a.vc1 == b.vc1 && a.vc2 == b.vc2
    && a.uv0 == b.uv0 && a.uv1 == b.uv1 && a.uv2 == b.uv2
    && a.parent == b.parent
  }

  /** Two triangles that differ at most in their vertex positions and
      vertex normals. */
  predicate SameSurfaceData(a: Triangle, b: Triangle) {
    && a.vc0 == b.vc0 && a.vc1 == b.vc1 && a.vc2 == b.vc2
    && a.uv0 == b.uv0 && a.uv1 == b.uv1 && a.uv2 == b.uv2
    && a.parent == b.parent
  }

  /** `Entity::get_material`: the material whose index the material map
      gives at (u, v). Indexing past the material list is undefined in the
      source and `None` here. */
  function MaterialAt(s: Surface, u: real, v: real): (m: Option<Material>)
    ensures m.Some? <==> s.materialMap.val < |s.materials|
    ensures m.Some? ==> m.value in s.materials
  {
    var k := ConstantAt(s.materialMap, u, v);
    if k < |s.materials| then Some(s.materials[k]) else None
  }
}
