/** Real-valued vectors and 3x3 matrices as the renderer uses them.

    Every floating-point quantity of the renderer is modelled as a `real`.
    Square roots are not available over the reals, so vector length and
    normalisation are an oracle record (`Numerics`) whose intended meaning
    is stated by the ghost predicate `Sound` and assumed only by the lemmas
    that need it. */
module LinAlg {

  datatype Vec2 = Vec2(x: real, y: real)

  datatype Vec3 = Vec3(x: real, y: real, z: real) {
    /** Component `k`, as `v[k]` in the source. */
    function At(k: nat): real
      requires k < 3
    {
      if k == 0 then x else if k == 1 then y else z
    }
  }

  /** A 3x3 matrix stored by rows, `rotation[i][j]` being `Row(i).At(j)`. */
  datatype Mat3 = Mat3(r0: Vec3, r1: Vec3, r2: Vec3) {
    function Row(i: nat): Vec3
      requires i < 3
    {
      if i == 0 then r0 else if i == 1 then r1 else r2
    }

    function At(i: nat, j: nat): real
      requires i < 3 && j < 3
    {
      Row(i).At(j)
    }
  }

  /** A rigid pose: where a body sits and how it is turned. */
  datatype Pose = Pose(position: Vec3, rotation: Mat3)

  /** A pose with a uniform scale, the placement of a model in the world. */
  datatype Placement = Placement(position: Vec3, rotation: Mat3, scale: real)

  type NonNeg = r: real | 0.0 <= r

  const Zero := Vec3(0.0, 0.0, 0.0)

  const Identity := Mat3(Vec3(1.0, 0.0, 0.0), Vec3(0.0, 1.0, 0.0), Vec3(0.0, 0.0, 1.0))

  /** The double-precision value of M_PI. */
  const Pi: real := 3.14159265358979323846

  function Gray(s: real): Vec3 {
    Vec3(s, s, s)
  }

  function Add(a: Vec3, b: Vec3): Vec3 {
    Vec3(a.x + b.x, a.y + b.y, a.z + b.z)
  }

  function Sub(a: Vec3, b: Vec3): Vec3 {
    Vec3(a.x - b.x, a.y - b.y, a.z - b.z)
  }

  function Neg(a: Vec3): Vec3 {
    Vec3(-a.x, -a.y, -a.z)
  }

  function Scale(s: real, a: Vec3): Vec3 {
    Vec3(s * a.x, s * a.y, s * a.z)
  }

  /** Component-wise product, the `Color * Color` of the source. */
  function Mul(a: Vec3, b: Vec3): Vec3 {
    Vec3(a.x * b.x, a.y * b.y, a.z * b.z)
  }

  function Dot(a: Vec3, b: Vec3): real {
    a.x * b.x + a.y * b.y + a.z * b.z
  }

  function NormSq(a: Vec3): real {
    Dot(a, a)
  }

  function Cross(a: Vec3, b: Vec3): Vec3 {
    Vec3(a.y * b.z - a.z * b.y, a.z * b.x - a.x * b.z, a.x * b.y - a.y * b.x)
  }

  function Abs(r: real): real {
    if r < 0.0 then -r else r
  }

  function AbsVec(a: Vec3): Vec3 {
    Vec3(Abs(a.x), Abs(a.y), Abs(a.z))
  }

  /** `std::clamp(v, lo, hi)`. */
  function Clamp(v: real, lo: real, hi: real): real {
    if v < lo then lo else if hi < v then hi else v
  }

  /** `std::min(a, b)`, which returns `a` unless `b < a`. */
  function Min(a: real, b: real): real {
    if b < a then b else a
  }

  /** The point `u*a1 + v*a2 + (1-u-v)*a0`: the weight of `a0` is the third
      barycentric coordinate, so `u = v = 0` names the first vertex. */
  function Barycentric(u: real, v: real, a0: Vec3, a1: Vec3, a2: Vec3): Vec3 {
    Add(Add(Scale(u, a1), Scale(v, a2)), Scale(1.0 - u - v, a0))
  }

  function Barycentric2(u: real, v: real, a0: Vec2, a1: Vec2, a2: Vec2): Vec2 {
    Vec2(u * a1.x + v * a2.x + (1.0 - u - v) * a0.x,
         u * a1.y + v * a2.y + (1.0 - u - v) * a0.y)
  }

  /** Row-major product `R * v`. */
  function MulVec(r: Mat3, v: Vec3): Vec3 {
    Vec3(Dot(r.r0, v), Dot(r.r1, v), Dot(r.r2, v))
  }

  /** Product with the transpose, `R^T * v`: component `k` is the sum over
      `i` of `R[i][k] * v[i]`. */
  function MulTVec(r: Mat3, v: Vec3): Vec3 {
    Vec3(r.r0.x * v.x + r.r1.x * v.y + r.r2.x * v.z,
         r.r0.y * v.x + r.r1.y * v.y + r.r2.y * v.z,
         r.r0.z * v.x + r.r1.z * v.y + r.r2.z * v.z)
  }

  function Transpose(m: Mat3): Mat3 {
    Mat3(Vec3(m.r0.x, m.r1.x, m.r2.x),
         Vec3(m.r0.y, m.r1.y, m.r2.y),
         Vec3(m.r0.z, m.r1.z, m.r2.z))
  }

  function MatMul(a: Mat3, b: Mat3): Mat3 {
    var bt := Transpose(b);
    Mat3(MulVec(bt, a.r0), MulVec(bt, a.r1), MulVec(bt, a.r2))
  }

  /** The rows of `R` are unit length and pairwise orthogonal (`R R^T = I`). */
  predicate Orthonormal(r: Mat3) {
    && Dot(r.r0, r.r0) == 1.0 && Dot(r.r1, r.r1) == 1.0 && Dot(r.r2, r.r2) == 1.0
    && Dot(r.r0, r.r1) == 0.0 && Dot(r.r0, r.r2) == 0.0 && Dot(r.r1, r.r2) == 0.0
  }

  /** Oracles for the square-root based helpers of the vector library. */
  datatype Numerics = Numerics(length: Vec3 -> NonNeg, normalize: Vec3 -> Vec3)

  /** What `length` and `normalize` are meant to compute. */
  ghost predicate Sound(num: Numerics) {
    && (forall v :: num.length(v) * num.length(v) == NormSq(v))
    && (forall v :: num.length(v) != 0.0 ==> num.normalize(v) == Scale(1.0 / num.length(v), v))
  }

  // ---------------------------------------------------------------------
  // Lemmas

  lemma DotCombination(w: Vec3, a: Vec3, b: Vec3, c: Vec3, s: real, t: real, u: real)
    ensures Dot(w, Add(Add(Scale(s, a), Scale(t, b)), Scale(u, c)))
         == s * Dot(w, a) + t * Dot(w, b) + u * Dot(w, c)
  {
  }

  /** `R^T v` is the combination of the rows of `R` weighted by `v`. */
  lemma MulTVecIsRowCombination(r: Mat3, v: Vec3)
    ensures MulTVec(r, v) == Add(Add(Scale(v.x, r.r0), Scale(v.y, r.r1)), Scale(v.z, r.r2))
  {
  }

  /** The transpose product of the camera and lidar code is `rotate` applied
      to the transposed matrix. */
  lemma MulTVecIsTransposed(r: Mat3, v: Vec3)
    ensures MulTVec(r, v) == MulVec(Transpose(r), v)
  {
  }

  /** For orthonormal `R`, rotating by `R^T` keeps squared length. */
  lemma {:induction false} TransposeRotationIsometry(r: Mat3, d: Vec3)
    requires Orthonormal(r)
    ensures NormSq(MulTVec(r, d)) == NormSq(d)
  {
    var w := MulTVec(r, d);
    MulTVecIsRowCombination(r, d);
    DotCombination(w, r.r0, r.r1, r.r2, d.x, d.y, d.z);
    DotCombination(r.r0, r.r0, r.r1, r.r2, d.x, d.y, d.z);
    DotCombination(r.r1, r.r0, r.r1, r.r2, d.x, d.y, d.z);
    DotCombination(r.r2, r.r0, r.r1, r.r2, d.x, d.y, d.z);
    assert Dot(w, r.r0) == d.x by { assert Dot(w, r.r0) == Dot(r.r0, w); }
    assert Dot(w, r.r1) == d.y by { assert Dot(w, r.r1) == Dot(r.r1, w); }
    assert Dot(w, r.r2) == d.z by { assert Dot(w, r.r2) == Dot(r.r2, w); }
  }

  /** For orthonormal `R`, rotating by `R` undoes a rotation by `R^T`. */
  lemma {:induction false} RotateUndoesTranspose(r: Mat3, v: Vec3)
    requires Orthonormal(r)
    ensures MulVec(r, MulTVec(r, v)) == v
  {
    MulTVecIsRowCombination(r, v);
    DotCombination(r.r0, r.r0, r.r1, r.r2, v.x, v.y, v.z);
    DotCombination(r.r1, r.r0, r.r1, r.r2, v.x, v.y, v.z);
    DotCombination(r.r2, r.r0, r.r1, r.r2, v.x, v.y, v.z);
  }

  lemma TransposeOfProduct(a: Mat3, b: Mat3)
    ensures Transpose(MatMul(a, b)) == MatMul(Transpose(b), Transpose(a))
  {
  }

  lemma TransposeTwice(a: Mat3)
    ensures Transpose(Transpose(a)) == a
  {
  }

  lemma IdentityIsOrthonormal()
    ensures Orthonormal(Identity)
  {
  }

  lemma NormSqScale(k: real, v: Vec3)
    ensures NormSq(Scale(k, v)) == k * k * NormSq(v)
  {
  }

  /** A sound `normalize` returns a unit vector for every non-zero input. */
  lemma {:induction false} NormalizeIsUnit(num: Numerics, v: Vec3)
    requires Sound(num)
    requires v != Zero
    ensures NormSq(num.normalize(v)) == 1.0
  {
    var l := num.length(v);
    assert l * l == NormSq(v);
    NormSqPositive(v);
    assert l != 0.0;
    assert num.normalize(v) == Scale(1.0 / l, v);
    NormSqScale(1.0 / l, v);
    assert (1.0 / l) * (1.0 / l) * (l * l) == 1.0;
  }

  /** Only the zero vector has squared length zero. */
  lemma NormSqPositive(v: Vec3)
    requires v != Zero
    ensures 0.0 < NormSq(v)
  {
    calc {
      NormSq(v);
      v.x * v.x + v.y * v.y + v.z * v.z;
    > { SumSquaresPositive(v.x, v.y, v.z); }
      0.0;
    }
  }

  lemma SumSquaresPositive(a: real, b: real, c: real)
    requires a != 0.0 || b != 0.0 || c != 0.0
    ensures 0.0 < a * a + b * b + c * c
  {
    if a != 0.0 {
      assert 0.0 < a * a;
    } else if b != 0.0 {
      assert 0.0 < b * b;
    } else {
      assert 0.0 < c * c;
    }
  }

  lemma SquareStrictlyMonotone(a: real, b: real)
    requires 0.0 <= a < b
    ensures a * a < b * b
  {
    MulNonNeg(a, b - a);
    MulPositive(b, b - a);
    assert a * (b - a) == a * b - a * a;
    assert b * (b - a) == b * b - a * b;
    OrderedDifferences(a * a, a * b, b * b);
  }

  lemma OrderedDifferences(p: real, q: real, r: real)
    requires 0.0 <= q - p && 0.0 < r - q
    ensures p < r
  {
  }

  lemma MulNonNeg(x: real, y: real)
    requires 0.0 <= x && 0.0 <= y
    ensures 0.0 <= x * y
  {
  }

  lemma MulPositive(x: real, y: real)
    requires 0.0 < x && 0.0 < y
    ensures 0.0 < x * y
  {
  }

  /** A sound `normalize` maps a vector along the z axis to the unit z
      vector of the same sign. */
  lemma {:induction false} NormalizeAxisZ(num: Numerics, s: real)
    requires Sound(num)
    requires s != 0.0
    ensures num.normalize(Vec3(0.0, 0.0, s)) == Vec3(0.0, 0.0, if s > 0.0 then 1.0 else -1.0)
  {
    var v := Vec3(0.0, 0.0, s);
    var l := num.length(v);
    assert l * l == s * s;
    assert Abs(s) * Abs(s) == s * s;
    assert l == Abs(s) by {
      if l < Abs(s) { SquareStrictlyMonotone(l, Abs(s)); }
      if Abs(s) < l { SquareStrictlyMonotone(Abs(s), l); }
    }
    assert num.normalize(v) == Scale(1.0 / l, v);
  }
}
