/** Texture lookups of the material system: a map from surface coordinates
    (u, v) to a value. The renderer's entities use the constant map; the
    image maps read an RGBA image decoded elsewhere. */
module UVMaps {
  import opened Wrappers
  import opened LinAlg

  type byte = b: int | 0 <= b < 256

  /** `ConstantUVMap<Value>`: the same value for every (u, v). */
  datatype ConstantUVMap<T> = ConstantUVMap(val: T)

  function ConstantAt<T>(m: ConstantUVMap<T>, u: real, v: real): T {
    m.val
  }

  /** A decoded RGBA image, four bytes per texel, rows of `width` texels. */
  datatype Image = Image(width: nat, height: nat, pixels: seq<byte>)

  /** What the image decoder delivers: exactly one RGBA quadruple per texel. */
  predicate Decoded(img: Image) {
    |img.pixels| == 4 * img.width * img.height
  }

  /** The conversion `(size_t)r` of a floating value: truncation toward zero.
      It is undefined for `r <= -1`, which the model reports as `None`
      (values beyond the range of `size_t` are not modelled). */
  function ToSize(r: real): (n: Option<nat>)
    ensures n.Some? <==> -1.0 < r
    ensures n.Some? && 0.0 <= r ==> n.value as real <= r < n.value as real + 1.0
    ensures n.Some? && r < 0.0 ==> n.value == 0
  {
    if r <= -1.0 then None
    else if r < 0.0 then Some(0)
    else Some(r.Floor)
  }

  /** Texel coordinate along an axis of `extent` texels: round to nearest. */
  function TexelCoord(t: real, extent: nat): Option<nat> {
    ToSize(t * extent as real + 0.5)
  }

  /** Offset of the red byte of texel (x, y). */
  function TexelIndex(width: nat, x: nat, y: nat): nat {
    4 * width * y + 4 * x
  }

  function Channel(b: byte): real {
    b as real / 255.0
  }

  /** `ImageUVMap::operator()`: the RGB channels of the nearest texel, each
      scaled to [0, 1]. The source does not check the index; a read past the
      end of the pixel buffer is undefined and is `None` here. */
  function ImageAt(img: Image, u: real, v: real): (c: Option<Vec3>)
    ensures c.Some? ==> 0.0 <= c.value.x <= 1.0 && 0.0 <= c.value.y <= 1.0 && 0.0 <= c.value.z <= 1.0
    ensures c.Some? ==> TexelCoord(u, img.width).Some? && TexelCoord(v, img.height).Some?
  {
    match (TexelCoord(u, img.width), TexelCoord(v, img.height))
    case (Some(x), Some(y)) =>
      var idx := TexelIndex(img.width, x, y);
      if idx + 2 < |img.pixels| then
        Some(Vec3(Channel(img.pixels[idx]), Channel(img.pixels[idx + 1]), Channel(img.pixels[idx + 2])))
      else None
    case _ => None
  }

  /** The same lookup with each texel coordinate clamped to the last row
      and column, so that every (u, v) of the unit square reads a texel. */
  function ClampedImageAt(img: Image, u: real, v: real): (c: Option<Vec3>)
    ensures c.Some? ==> 0.0 <= c.value.x <= 1.0 && 0.0 <= c.value.y <= 1.0 && 0.0 <= c.value.z <= 1.0
  {
    match (TexelCoord(u, img.width), TexelCoord(v, img.height))
    case (Some(x), Some(y)) =>
      if img.width == 0 || img.height == 0 then None
      else
        var cx := if x < img.width then x else img.width - 1;
        var cy := if y < img.height then y else img.height - 1;
        var idx := TexelIndex(img.width, cx, cy);
        if idx + 2 < |img.pixels| then
          Some(Vec3(Channel(img.pixels[idx]), Channel(img.pixels[idx + 1]), Channel(img.pixels[idx + 2])))
        else None
    case _ => None
  }

  /** `ImageIndexUVMap::operator()`: the red channel scaled by `range` and
      rounded to the nearest integer. */
  function ImageIndexAt(range: nat, img: Image, u: real, v: real): (r: Option<nat>)
    ensures r.Some? <==> ImageAt(img, u, v).Some?
    ensures r.Some? ==> r.value <= range
    ensures r.Some? ==> r.value as real <= ImageAt(img, u, v).value.x * range as real + 0.5 < r.value as real + 1.0
  {
    match ImageAt(img, u, v)
    case None => None
    case Some(c) =>
      assert 0.0 <= c.x * range as real <= range as real by { ScaleUnit(c.x, range as real); }
      ToSize(c.x * range as real + 0.5)
  }

  // ---------------------------------------------------------------------
  // Lemmas

  lemma ScaleUnit(t: real, k: real)
    requires 0.0 <= t <= 1.0 && 0.0 <= k
    ensures 0.0 <= t * k <= k
  {
  }

  /** A texel inside the image has its whole RGBA quadruple inside the buffer. */
  lemma TexelInside(img: Image, x: nat, y: nat)
    requires Decoded(img) && x < img.width && y < img.height
    ensures TexelIndex(img.width, x, y) + 3 < |img.pixels|
  {
    var w, h := img.width, img.height;
    assert w * y + x < w * h by { RowMajorBound(w, h, x, y); }
  }

  lemma RowMajorBound(w: nat, h: nat, x: nat, y: nat)
    requires x < w && y < h
    ensures w * y + x < w * h
  {
    assert w * y + x < w * y + w;
    assert w * y + w == w * (y + 1);
    assert y + 1 <= h;
    MulMonotone(w, y + 1, h);
  }

  lemma MulMonotone(w: nat, a: nat, b: nat)
    requires a <= b
    ensures w * a <= w * b
  {
  }

  /** The read is inside the buffer exactly when the row-major texel number
      `width * y + x` is below the texel count; in particular a column past
      the right edge is not caught, it reads the next row. */
  lemma {:induction false} TexelIndexInBounds(img: Image, x: nat, y: nat)
    requires Decoded(img)
    ensures TexelIndex(img.width, x, y) + 2 < |img.pixels| <==> img.width * y + x < img.width * img.height
  {
    var w, h := img.width, img.height;
    var n := w * y + x;
    assert TexelIndex(w, x, y) == 4 * n;
    assert |img.pixels| == 4 * (w * h);
  }

  /** Inside the open texel grid the lookup is defined and returns the
      channels of texel (x, y). */
  lemma {:induction false} ImageAtInside(img: Image, u: real, v: real, x: nat, y: nat)
    requires Decoded(img)
    requires TexelCoord(u, img.width) == Some(x) && TexelCoord(v, img.height) == Some(y)
    requires x < img.width && y < img.height
    ensures TexelIndex(img.width, x, y) + 2 < |img.pixels|
    ensures ImageAt(img, u, v)
         == Some(Vec3(Channel(img.pixels[TexelIndex(img.width, x, y)]),
                      Channel(img.pixels[TexelIndex(img.width, x, y) + 1]),
                      Channel(img.pixels[TexelIndex(img.width, x, y) + 2])))
  {
    TexelInside(img, x, y);
  }

  /** Inside the image the material index is the red byte of texel (x, y),
      scaled from [0, 255] to [0, range] and rounded to the nearest
      integer. */
  lemma {:induction false} ImageIndexInside(range: nat, img: Image, u: real, v: real, x: nat, y: nat)
    requires Decoded(img)
    requires TexelCoord(u, img.width) == Some(x) && TexelCoord(v, img.height) == Some(y)
    requires x < img.width && y < img.height
    ensures TexelIndex(img.width, x, y) < |img.pixels|
    ensures var b := Channel(img.pixels[TexelIndex(img.width, x, y)]) * range as real;
            && ImageIndexAt(range, img, u, v).Some?
            && ImageIndexAt(range, img, u, v).value as real <= b + 0.5 < ImageIndexAt(range, img, u, v).value as real + 1.0
  {
    ImageAtInside(img, u, v, x, y);
  }

  /** On a decoded, non-empty image the clamped lookup is defined for every
      non-negative (u, v). */
  lemma {:induction false} ClampedImageAtTotal(img: Image, u: real, v: real)
    requires Decoded(img) && 0 < img.width && 0 < img.height
    requires 0.0 <= u && 0.0 <= v
    ensures ClampedImageAt(img, u, v).Some?
  {
    MulNonNeg(u, img.width as real);
    MulNonNeg(v, img.height as real);
    var x := TexelCoord(u, img.width).value;
    var y := TexelCoord(v, img.height).value;
    var cx := if x < img.width then x else img.width - 1;
    var cy := if y < img.height then y else img.height - 1;
    TexelInside(img, cx, cy);
  }

  /** Where the clamped lookup agrees with the unchecked one. */
  lemma {:induction false} ClampedAgreesInside(img: Image, u: real, v: real, x: nat, y: nat)
    requires Decoded(img)
    requires TexelCoord(u, img.width) == Some(x) && TexelCoord(v, img.height) == Some(y)
    requires x < img.width && y < img.height
    ensures ClampedImageAt(img, u, v) == ImageAt(img, u, v)
  {
    TexelInside(img, x, y);
  }

  /** With u = v = 1 on a 2x2 image the rounded texel is (2, 2), whose
      index 24 lies past the 16 bytes of the image. */
  lemma ImageAtReadsPastEnd()
    ensures var img := Image(2, 2, seq(16, _ => 0));
            Decoded(img) && ImageAt(img, 1.0, 1.0).None? && ClampedImageAt(img, 1.0, 1.0).Some?
  {
    var img := Image(2, 2, seq(16, _ => 0));
    assert TexelCoord(1.0, 2) == Some(2);
    assert TexelIndex(2, 2, 2) == 24;
  }

  /** With u = 1, v = 0 on a 2x2 image the rounded column 2 is past the
      right edge, and the lookup silently returns texel (0, 1). */
  lemma ImageAtWrapsToNextRow()
    ensures var img := Image(2, 2, seq(16, i => if i == 8 then 255 else 0));
            ImageAt(img, 1.0, 0.0) == Some(Vec3(1.0, 0.0, 0.0))
  {
    assert TexelCoord(1.0, 2) == Some(2);
    assert TexelCoord(0.0, 2) == Some(0);
    assert TexelIndex(2, 2, 0) == 8;
  }
}
