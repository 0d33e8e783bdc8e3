/** The image-level parts of `render` and `get_intersections`: image size
    from the camera resolution, the RGBA float buffer laid out row by row,
    its conversion to 8-bit channels, and the buffer of hit points. */
module Renderer {
  import opened Wrappers
  import opened LinAlg
  import opened UVMaps
  import opened Geometry
  import opened Cameras
  import opened Integrator
  import opened Sampler

  /** `(size_t) floor(x)`: undefined for `floor(x) < 0`, reported as `None`. */
  function FloorToSize(x: real): (n: Option<nat>)
    ensures n.Some? <==> 0.0 <= x
    ensures n.Some? ==> n.value as real <= x < n.value as real + 1.0
  {
    ToSize(x.Floor as real)
  }

  /** The image size: the floor of the camera resolution. */
  function ImageSize(c: Camera): (wh: Option<(nat, nat)>)
    ensures wh.Some? <==> 0.0 <= c.resolution.x && 0.0 <= c.resolution.y
    ensures wh.Some? ==> wh.value.0 as real <= c.resolution.x < wh.value.0 as real + 1.0
    ensures wh.Some? ==> wh.value.1 as real <= c.resolution.y < wh.value.1 as real + 1.0
  {
    var w :- FloorToSize(c.resolution.x);
    var h :- FloorToSize(c.resolution.y);
    Some((w, h))
  }

  /** The pixel and channel a slot of a row-major buffer with `stride`
      values per pixel belongs to. */
  function SlotPixel(w: nat, stride: nat, k: nat): (ijc: (nat, nat, nat))
    requires 0 < w && 0 < stride
    ensures ijc.0 < w && ijc.2 < stride
  {
    var p := k / stride;
    (p % w, p / w, k % stride)
  }

  /** Component `c` of an RGBA pixel whose alpha is 1. */
  function Rgba(c: Vec3, k: nat): real
    requires k < 4
  {
    if k == 3 then 1.0 else c.At(k)
  }

  /** Every pixel of the image has a defined value. */
  predicate AllPixelsDefined(st: Setup, w: nat, h: nat) {
    forall i: nat, j: nat :: i < w && j < h ==> SamplePixel(st, i, j).Some?
  }

  /** The float buffer `pixels` of `render`: RGBA per pixel, pixel (i, j)
      at slot `4 (w j + i)`, alpha 1. */
  function PixelBuffer(st: Setup, w: nat, h: nat): (buf: Option<seq<real>>)
    ensures buf.Some? <==> AllPixelsDefined(st, w, h)
    ensures buf.Some? ==> |buf.value| == 4 * w * h
  {
    if !AllPixelsDefined(st, w, h) then None
    else if w == 0 then Some([])
    else
      Some(seq(4 * w * h, k requires 0 <= k < 4 * w * h =>
        var ijc := SlotPixel(w, 4, k);
        assert ijc.1 < h by { SlotRowInside(w, h, 4, k); }
        Rgba(SamplePixel(st, ijc.0, ijc.1).value.0, ijc.2)))
  }

  /** `(uint8_t) std::clamp(x * 256, 0, 255)`: the conversion truncates
      toward zero, which on [0, 255] is the floor. */
  function Quantize(x: real): (b: byte)
    ensures 0.0 <= 256.0 * x <= 255.0 ==> b as real <= 256.0 * x < b as real + 1.0
    ensures 255.0 < 256.0 * x ==> b == 255
    ensures 256.0 * x < 0.0 ==> b == 0
  {
    Clamp(256.0 * x, 0.0, 255.0).Floor
  }

  /** The conversion of the float buffer to bytes, as the source does it:
      one pass pushing every converted slot, then a second pass over the
      pixels writing every channel again at the same place. */
  method QuantizeImage(pixels: seq<real>, w: nat, h: nat) returns (image: seq<byte>)
    requires |pixels| == 4 * w * h
    ensures |image| == |pixels|
    ensures forall k :: 0 <= k < |pixels| ==> image[k] == Quantize(pixels[k])
  {
    image := [];
    var k := 0;
    while k < 4 * w * h
      invariant k <= 4 * w * h && |image| == k
      invariant forall m :: 0 <= m < k ==> image[m] == Quantize(pixels[m])
    {
      image := image + [Quantize(pixels[k])];
      k := k + 1;
    }
    var y := 0;
    while y < h
      invariant y <= h && |image| == |pixels|
      invariant forall m :: 0 <= m < |pixels| ==> image[m] == Quantize(pixels[m])
    {
      var x := 0;
      while x < w
        invariant x <= w && |image| == |pixels|
        invariant forall m :: 0 <= m < |pixels| ==> image[m] == Quantize(pixels[m])
      {
        image := RewritePixel(image, pixels, w, h, x, y);
        x := x + 1;
      }
      y := y + 1;
    }
  }

  /** One step of the second pass: the four channels of pixel (x, y)
      written again with the values the first pass already stored there. */
  method RewritePixel(image: seq<byte>, pixels: seq<real>, w: nat, h: nat, x: nat, y: nat) returns (r: seq<byte>)
    requires |pixels| == 4 * w * h && |image| == |pixels| && x < w && y < h
    requires forall m :: 0 <= m < |pixels| ==> image[m] == Quantize(pixels[m])
    ensures r == image
  {
    var i := 4 * (w * y + x);
    SlotInside(w, h, 4, x, y, 3);
    assert 4 * w * y + 4 * x == i;
    r := image;
    r := r[4 * w * y + 4 * x + 0 := Quantize(pixels[i + 0])];
    r := r[4 * w * y + 4 * x + 1 := Quantize(pixels[i + 1])];
    r := r[4 * w * y + 4 * x + 2 := Quantize(pixels[i + 2])];
    r := r[4 * w * y + 4 * x + 3 := Quantize(pixels[i + 3])];
  }

  /** `render`: the 8-bit RGBA image, or `None` when the image size or a
      pixel is undefined. */
  method Render(st: Setup) returns (image: Option<seq<byte>>)
    ensures image.Some? <==> ImageSize(st.camera).Some? && AllPixelsDefined(st, ImageSize(st.camera).value.0, ImageSize(st.camera).value.1)
    ensures image.Some? ==>
      var buf := PixelBuffer(st, ImageSize(st.camera).value.0, ImageSize(st.camera).value.1).value;
      && |image.value| == |buf|
      && forall k :: 0 <= k < |buf| ==> image.value[k] == Quantize(buf[k])
  {
    var wh := ImageSize(st.camera);
    if wh.None? {
      return None;
    }
    var w, h := wh.value.0, wh.value.1;
    var buf := PixelBuffer(st, w, h);
    if buf.None? {
      return None;
    }
    var bytes := QuantizeImage(buf.value, w, h);
    return Some(bytes);
  }

  /** The hit point of the unjittered ray through pixel (i, j), the origin
      on a miss. */
  function HitPoint(st: Setup, i: nat, j: nat): (p: Option<Vec3>)
    ensures p.Some? <==>
      && PixelToRay(st.num, st.camera, i as real, j as real).Some?
      && match st.tracer.closest(PixelToRay(st.num, st.camera, i as real, j as real).value)
         case None => true
         case Some(h) => h.prim < |st.triangles|
  {
    var ray :- PixelToRay(st.num, st.camera, i as real, j as real);
    match st.tracer.closest(ray)
    case None => Some(Zero)
    case Some(h) =>
      if h.prim < |st.triangles| then Some(st.triangles[h.prim].PointAt(h.u, h.v)) else None
  }

  predicate AllHitsDefined(st: Setup, w: nat, h: nat) {
    forall i: nat, j: nat :: i < w && j < h ==> HitPoint(st, i, j).Some?
  }

  /** `get_intersections` as intended: three values per pixel, pixel (i, j)
      at slot `3 (w j + i)`. */
  function Intersections(st: Setup): (buf: Option<seq<real>>)
    ensures buf.Some? ==> ImageSize(st.camera).Some?
    ensures buf.Some? ==> |buf.value| == 3 * ImageSize(st.camera).value.0 * ImageSize(st.camera).value.1
  {
    var (w, h) :- ImageSize(st.camera);
    if !AllHitsDefined(st, w, h) then None
    else if w == 0 then Some([])
    else
      Some(seq(3 * w * h, k requires 0 <= k < 3 * w * h =>
        var ijc := SlotPixel(w, 3, k);
        assert ijc.1 < h by { SlotRowInside(w, h, 3, k); }
        HitPoint(st, ijc.0, ijc.1).value.At(ijc.2)))
  }

  /** `get_intersections` as written: the output vector is only reserved,
      never resized, so its size stays 0; the writes through `operator[]`
      land outside its elements and the caller receives an empty vector. */
  function IntersectionsAsWritten(st: Setup): (buf: Option<seq<real>>)
    ensures buf.Some? ==> buf.value == []
  {
    var (w, h) :- ImageSize(st.camera);
    Some([])
  }

  // ---------------------------------------------------------------------
  // Lemmas

  /** Euclidean division recovers quotient and remainder. */
  lemma DivModOf(d: nat, q: nat, r: nat)
    requires r < d
    ensures (d * q + r) / d == q && (d * q + r) % d == r
  {
    var a := d * q + r;
    var q', r' := a / d, a % d;
    assert d * q' + r' == d * q + r;
    assert d * (q' - q) == r - r';
    if q' > q {
      MulAtLeast(d, q' - q);
    } else if q' < q {
      MulAtLeast(d, q - q');
    }
  }

  lemma MulAtLeast(d: nat, x: int)
    requires 1 <= x
    ensures d <= d * x
  {
  }

  /** Slot `stride (w j + i) + c` of a pixel inside the image lies inside
      the buffer and belongs to pixel (i, j), channel c. */
  lemma SlotInside(w: nat, h: nat, stride: nat, i: nat, j: nat, c: nat)
    requires i < w && j < h && c < stride
    ensures stride * (w * j + i) + c < stride * w * h
    ensures SlotPixel(w, stride, stride * (w * j + i) + c) == (i, j, c)
  {
    RowMajorBound(w, h, i, j);
    assert stride * (w * j + i) + c < stride * (w * j + i + 1);
    MulMonotone(stride, w * j + i + 1, w * h);
    assert stride * (w * h) == stride * w * h;
    DivModOf(stride, w * j + i, c);
    DivModOf(w, j, i);
  }

  /** The pixel a slot inside the buffer belongs to is inside the image. */
  lemma SlotRowInside(w: nat, h: nat, stride: nat, k: nat)
    requires 0 < w && 0 < stride && k < stride * w * h
    ensures k / stride / w < h
  {
  }

  /** Distinct pixel channels occupy distinct slots. */
  lemma SlotsDistinct(w: nat, h: nat, stride: nat, i: nat, j: nat, c: nat, i': nat, j': nat, c': nat)
    requires i < w && j < h && c < stride && i' < w && j' < h && c' < stride
    requires (i, j, c) != (i', j', c')
    ensures stride * (w * j + i) + c != stride * (w * j' + i') + c'
  {
    SlotInside(w, h, stride, i, j, c);
    SlotInside(w, h, stride, i', j', c');
  }

  /** The float buffer holds, at the slot of pixel (i, j) and channel c,
      that channel of the pixel's sampled value (alpha 1). */
  lemma BufferSlot(st: Setup, w: nat, h: nat, i: nat, j: nat, c: nat)
    requires AllPixelsDefined(st, w, h) && i < w && j < h && c < 4
    ensures 4 * (w * j + i) + c < |PixelBuffer(st, w, h).value|
    ensures PixelBuffer(st, w, h).value[4 * (w * j + i) + c] == Rgba(SamplePixel(st, i, j).value.0, c)
  {
    SlotInside(w, h, 4, i, j, c);
  }

  /** The hit-point buffer holds coordinate c of the hit of pixel (i, j) at
      slot `3 (w j + i) + c`. */
  lemma IntersectionSlot(st: Setup, i: nat, j: nat, c: nat)
    requires ImageSize(st.camera).Some?
    requires var (w, h) := ImageSize(st.camera).value; AllHitsDefined(st, w, h) && i < w && j < h && c < 3
    ensures Intersections(st).Some?
    ensures var (w, h) := ImageSize(st.camera).value;
            && 3 * (w * j + i) + c < |Intersections(st).value|
            && Intersections(st).value[3 * (w * j + i) + c] == HitPoint(st, i, j).value.At(c)
  {
    var (w, h) := ImageSize(st.camera).value;
    SlotInside(w, h, 3, i, j, c);
  }

  /** Whenever the image has a pixel, the function as written hands back
      nothing, while the intended buffer has three values per pixel. */
  lemma IntersectionsAsWrittenLosesHits(st: Setup)
    requires ImageSize(st.camera).Some?
    requires var (w, h) := ImageSize(st.camera).value; 0 < w && 0 < h && AllHitsDefined(st, w, h)
    ensures IntersectionsAsWritten(st) == Some([])
    ensures |Intersections(st).value| == 3 * ImageSize(st.camera).value.0 * ImageSize(st.camera).value.1 > 0
  {
    var (w, h) := ImageSize(st.camera).value;
    MulPositiveNat(w, h);
  }

  lemma MulPositiveNat(w: nat, h: nat)
    requires 0 < w && 0 < h
    ensures 0 < 3 * w * h
  {
  }

  /** A channel value of 1 (the alpha channel) becomes 255, 0 becomes 0,
      one half becomes 128. */
  lemma QuantizeValues()
    ensures Quantize(1.0) == 255 && Quantize(0.0) == 0 && Quantize(0.5) == 128
  {
  }

  /** The conversion keeps the order of channel values. */
  lemma QuantizeMonotone(a: real, b: real)
    requires a <= b
    ensures Quantize(a) <= Quantize(b)
  {
  }
}
