/** Vector and triangle transforms used to place meshes in the scene:
    scaling, translation, rotation by a row-major matrix, and their
    application to every vertex of a triangle list about a pivot. */
module Transform {
  import opened LinAlg
  import opened Geometry

  /** `resize`: every component multiplied by the scale. */
  function Resize(v: Vec3, s: real): (r: Vec3)
    ensures forall k :: 0 <= k < 3 ==> r.At(k) == s * v.At(k)
  {
    Vec3(s * v.x, s * v.y, s * v.z)
  }

  /** `translate`: componentwise sum. */
  function Translate(v: Vec3, p: Vec3): (r: Vec3)
    ensures forall k :: 0 <= k < 3 ==> r.At(k) == v.At(k) + p.At(k)
  {
    Vec3(v.x + p.x, v.y + p.y, v.z + p.z)
  }

  /** `rotate`: the product `R v` of the row-major matrix `R` and `v`. */
  function Rotate(v: Vec3, r: Mat3): (w: Vec3)
    ensures forall i :: 0 <= i < 3 ==>
      w.At(i) == r.At(i, 0) * v.At(0) + r.At(i, 1) * v.At(1) + r.At(i, 2) * v.At(2)
  {
    MulVec(r, v)
  }

  /** `transform`: scale, then rotate, then add the position, written out
      in one step as the source does. */
  function TransformPoint(v: Vec3, r: Mat3, p: Vec3, s: real): Vec3 {
    var w := Vec3(s * v.x, s * v.y, s * v.z);
    Vec3(r.r0.x * w.x + r.r0.y * w.y + r.r0.z * w.z + p.x,
         r.r1.x * w.x + r.r1.y * w.y + r.r1.z * w.z + p.y,
         r.r2.x * w.x + r.r2.y * w.y + r.r2.z * w.z + p.z)
  }

  /** Per-vertex maps applied by the triangle transforms. */
  function ResizeAbout(v: Vec3, s: real, pivot: Vec3): Vec3 {
    Translate(Resize(Translate(v, Neg(pivot)), s), pivot)
  }

  function RotateAbout(v: Vec3, r: Mat3, pivot: Vec3): Vec3 {
    Translate(Rotate(Translate(v, Neg(pivot)), r), pivot)
  }

  /** `translate_triangles`: all three vertices shifted by `p`; count,
      order, normals, colours, texture coordinates and parents unchanged. */
  function TranslateTriangles(ts: seq<Triangle>, p: Vec3): (rs: seq<Triangle>)
    ensures |rs| == |ts|
    ensures forall i :: 0 <= i < |ts| ==>
      && rs[i].p0 == Translate(ts[i].p0, p)
      && rs[i].p1 == Translate(ts[i].p1, p)
      && rs[i].p2 == Translate(ts[i].p2, p)
      && SameAttributes(rs[i], ts[i])
  {
    seq(|ts|, i requires 0 <= i < |ts| =>
      ts[i].WithVertices(Translate(ts[i].p0, p), Translate(ts[i].p1, p), Translate(ts[i].p2, p)))
  }

  /** `rotate_triangles`: vertices rotated about `pivot`, vertex normals
      rotated without translation, everything else unchanged. */
  function RotateTriangles(ts: seq<Triangle>, r: Mat3, pivot: Vec3): (rs: seq<Triangle>)
    ensures |rs| == |ts|
    ensures forall i :: 0 <= i < |ts| ==>
      && rs[i].p0 == RotateAbout(ts[i].p0, r, pivot)
      && rs[i].p1 == RotateAbout(ts[i].p1, r, pivot)
      && rs[i].p2 == RotateAbout(ts[i].p2, r, pivot)
      && rs[i].vn0 == Rotate(ts[i].vn0, r)
      && rs[i].vn1 == Rotate(ts[i].vn1, r)
      && rs[i].vn2 == Rotate(ts[i].vn2, r)
      && SameSurfaceData(rs[i], ts[i])
  {
    seq(|ts|, i requires 0 <= i < |ts| =>
      ts[i].WithVertices(RotateAbout(ts[i].p0, r, pivot), RotateAbout(ts[i].p1, r, pivot), RotateAbout(ts[i].p2, r, pivot))
           .WithNormals(Rotate(ts[i].vn0, r), Rotate(ts[i].vn1, r), Rotate(ts[i].vn2, r)))
  }

  /** `resize_triangles`: vertices scaled about `pivot`; normals and all
      other attributes unchanged. */
  function ResizeTriangles(ts: seq<Triangle>, s: real, pivot: Vec3): (rs: seq<Triangle>)
    ensures |rs| == |ts|
    ensures forall i :: 0 <= i < |ts| ==>
      && rs[i].p0 == ResizeAbout(ts[i].p0, s, pivot)
      && rs[i].p1 == ResizeAbout(ts[i].p1, s, pivot)
      && rs[i].p2 == ResizeAbout(ts[i].p2, s, pivot)
      && SameAttributes(rs[i], ts[i])
  {
    seq(|ts|, i requires 0 <= i < |ts| =>
      ts[i].WithVertices(ResizeAbout(ts[i].p0, s, pivot), ResizeAbout(ts[i].p1, s, pivot), ResizeAbout(ts[i].p2, s, pivot)))
  }

  // ---------------------------------------------------------------------
  // Lemmas

  /** `transform(v, R, p, s)` is `translate(rotate(resize(v, s), R), p)`. */
  lemma TransformIsComposition(v: Vec3, r: Mat3, p: Vec3, s: real)
    ensures TransformPoint(v, r, p, s) == Translate(Rotate(Resize(v, s), r), p)
  {
  }

  /** Translating by `p` and then by `-p` is the identity. */
  lemma TranslateInverse(v: Vec3, p: Vec3)
    ensures Translate(Translate(v, p), Neg(p)) == v
  {
  }

  /** Two translations add up. */
  lemma TranslateTwice(v: Vec3, p: Vec3, q: Vec3)
    ensures Translate(Translate(v, p), q) == Translate(v, Add(p, q))
  {
  }

  /** A rotation about a pivot leaves the pivot where it is. */
  lemma RotateAboutFixesPivot(r: Mat3, pivot: Vec3)
    ensures RotateAbout(pivot, r, pivot) == pivot
  {
  }

  /** A scaling about a pivot leaves the pivot where it is, and scale 1
      leaves every point where it is. */
  lemma ResizeAboutFixedPoints(v: Vec3, s: real, pivot: Vec3)
    ensures ResizeAbout(pivot, s, pivot) == pivot
    ensures ResizeAbout(v, 1.0, pivot) == v
  {
  }

  /** Scaling by `s` and then by `1/s` about the same pivot is the identity. */
  lemma ResizeAboutInverse(v: Vec3, s: real, pivot: Vec3)
    requires s != 0.0
    ensures ResizeAbout(ResizeAbout(v, s, pivot), 1.0 / s, pivot) == v
  {
    var w := Translate(v, Neg(pivot));
    assert (1.0 / s) * (s * w.x) == w.x;
    assert (1.0 / s) * (s * w.y) == w.y;
    assert (1.0 / s) * (s * w.z) == w.z;
  }

  /** For an orthonormal `R`, a rotation by `R^T` about a pivot is undone by
      a rotation by `R` about the same pivot. */
  lemma {:induction false} RotateAboutInverse(v: Vec3, r: Mat3, pivot: Vec3)
    requires Orthonormal(r)
    ensures RotateAbout(RotateAbout(v, Transpose(r), pivot), r, pivot) == v
  {
    var w := Translate(v, Neg(pivot));
    MulTVecIsTransposed(r, w);
    RotateUndoesTranspose(r, w);
    TranslateInverse(Rotate(w, Transpose(r)), pivot);
  }

  /** The face normal is unchanged by a translation. */
  lemma FaceNormalTranslationInvariant(t: Triangle, p: Vec3)
    ensures t.WithVertices(Translate(t.p0, p), Translate(t.p1, p), Translate(t.p2, p)).FaceNormal() == t.FaceNormal()
  {
  }

  /** Translating a triangle list by `p` and then by `-p` restores it. */
  lemma {:induction false} TranslateTrianglesInverse(ts: seq<Triangle>, p: Vec3)
    ensures TranslateTriangles(TranslateTriangles(ts, p), Neg(p)) == ts
  {
    var rs := TranslateTriangles(TranslateTriangles(ts, p), Neg(p));
    forall i | 0 <= i < |ts|
      ensures rs[i] == ts[i]
    {
      TranslateInverse(ts[i].p0, p);
      TranslateInverse(ts[i].p1, p);
      TranslateInverse(ts[i].p2, p);
    }
  }

  /** Two translations of a triangle list add up. */
  lemma {:induction false} TranslateTrianglesTwice(ts: seq<Triangle>, p: Vec3, q: Vec3)
    ensures TranslateTriangles(TranslateTriangles(ts, p), q) == TranslateTriangles(ts, Add(p, q))
  {
    var a := TranslateTriangles(TranslateTriangles(ts, p), q);
    var b := TranslateTriangles(ts, Add(p, q));
    forall i | 0 <= i < |ts|
      ensures a[i] == b[i]
    {
      TranslateTwice(ts[i].p0, p, q);
      TranslateTwice(ts[i].p1, p, q);
      TranslateTwice(ts[i].p2, p, q);
    }
  }

  /** For an orthonormal `R`, rotating a triangle list by `R^T` and then by
      `R` about the same pivot restores vertices and normals. */
  lemma {:induction false} RotateTrianglesInverse(ts: seq<Triangle>, r: Mat3, pivot: Vec3)
    requires Orthonormal(r)
    ensures RotateTriangles(RotateTriangles(ts, Transpose(r), pivot), r, pivot) == ts
  {
    var rs := RotateTriangles(RotateTriangles(ts, Transpose(r), pivot), r, pivot);
    forall i | 0 <= i < |ts|
      ensures rs[i] == ts[i]
    {
      var t := ts[i];
      RotateAboutInverse(t.p0, r, pivot);
      RotateAboutInverse(t.p1, r, pivot);
      RotateAboutInverse(t.p2, r, pivot);
      MulTVecIsTransposed(r, t.vn0);
      MulTVecIsTransposed(r, t.vn1);
      MulTVecIsTransposed(r, t.vn2);
      RotateUndoesTranspose(r, t.vn0);
      RotateUndoesTranspose(r, t.vn1);
      RotateUndoesTranspose(r, t.vn2);
    }
  }

  /** Scaling a triangle list by 1 changes nothing. */
  lemma {:induction false} ResizeTrianglesUnit(ts: seq<Triangle>, pivot: Vec3)
    ensures ResizeTriangles(ts, 1.0, pivot) == ts
  {
    var rs := ResizeTriangles(ts, 1.0, pivot);
    forall i | 0 <= i < |ts|
      ensures rs[i] == ts[i]
    {
      ResizeAboutFixedPoints(ts[i].p0, 1.0, pivot);
      ResizeAboutFixedPoints(ts[i].p1, 1.0, pivot);
      ResizeAboutFixedPoints(ts[i].p2, 1.0, pivot);
    }
  }
}
