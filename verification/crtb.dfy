/** The CRTB geometry container: a 22-byte header (the text `CRTOBJ`, then
    four little-endian 32-bit counts) followed by the compressed vertex
    block and the compressed face block; the OBJ reading that feeds it and
    the OBJ-style printing of faces. */
module Crtb {
  import opened Wrappers
  import opened Text
  import UVMaps

  type byte = UVMaps.byte

  /** `uint32_t`. */
  type u32 = n: int | 0 <= n < 0x1_0000_0000

  const U32Range: int := 0x1_0000_0000

  /** Conversion to `uint32_t`: wrap-around modulo 2^32, so -1 becomes
      2^32 - 1. */
  function ToU32(n: int): (r: u32)
    ensures 0 <= n < U32Range ==> r == n
    ensures (r - n) % U32Range == 0
  {
    n % U32Range
  }

  /** The magic text `CRTOBJ`, without its terminating zero. */
  const Magic: seq<byte> := [67, 82, 84, 79, 66, 74]

  const HeaderSize: nat := 22

  /** `count` bytes of `n`, least significant first: how `fwrite` puts an
      unsigned integer on a little-endian host. */
  function LeBytes(n: nat, count: nat): (bs: seq<byte>)
    ensures |bs| == count
  {
    if count == 0 then [] else [n % 256] + LeBytes(n / 256, count - 1)
  }

  /** The unsigned integer `fread` fills from bytes, least significant
      first. */
  function LeValue(bs: seq<byte>): (n: nat)
    ensures n < Pow256(|bs|)
  {
    if bs == [] then 0 else bs[0] + 256 * LeValue(bs[1..])
  }

  function Pow256(k: nat): nat {
    if k == 0 then 1 else 256 * Pow256(k - 1)
  }

  /** A `uint32_t` as `fwrite` puts it. */
  function U32Bytes(n: u32): (bs: seq<byte>)
    ensures |bs| == 4
  {
    LeBytes(n, 4)
  }

  /** Four bytes as `fread` fills a `uint32_t` from them. */
  function U32Of(bs: seq<byte>): u32
    requires |bs| == 4
  {
    assert Pow256(4) == U32Range;
    LeValue(bs)
  }

  /** The header. */
  datatype Header = Header(compressedV: u32, compressedF: u32, numV: u32, numF: u32)

  /** The header as `write_crtb` writes it: the magic, then the compressed
      vertex size, the compressed face size, the vertex count and the face
      count. */
  function EncodeHeader(h: Header): (bs: seq<byte>)
    ensures |bs| == HeaderSize && bs[..6] == Magic
  {
    Magic + U32Bytes(h.compressedV) + U32Bytes(h.compressedF) + U32Bytes(h.numV) + U32Bytes(h.numF)
  }

  /** Why reading stops: the file ends early (`fread` leaves its target
      unfilled), the magic differs (the assertion fails), or a block does
      not decompress to the size the header announces (the arrays are left
      partly unfilled). */
  datatype CrtbFault = ShortFile | BadMagic | BadBlock

  /** The header as `read_crtb` reads it: the same fields in the same
      order, and the magic checked. */
  function DecodeHeader(bs: seq<byte>): (r: Result<Header, CrtbFault>)
    ensures r.Err? <==> |bs| < HeaderSize || bs[..6] != Magic
    ensures r.Ok? ==> EncodeHeader(r.value) == bs[..HeaderSize]
  {
    if |bs| < HeaderSize then Err(ShortFile)
    else if bs[..6] != Magic then Err(BadMagic)
    else
      var h := Header(U32Of(bs[6..10]), U32Of(bs[10..14]), U32Of(bs[14..18]), U32Of(bs[18..22]));
      U32BytesOf(bs[6..10]);
      U32BytesOf(bs[10..14]);
      U32BytesOf(bs[14..18]);
      U32BytesOf(bs[18..22]);
      HeaderFields(bs);
      Ok(h)
  }

  /** The first three entries of every row, row after row; `None` when a
      row has fewer than three (a read past its end). */
  function Flatten3<T>(rows: seq<seq<T>>): (r: Option<seq<T>>)
    ensures r.Some? <==> forall i :: 0 <= i < |rows| ==> 3 <= |rows[i]|
    ensures r.Some? ==> |r.value| == 3 * |rows|
    ensures r.Some? ==> forall i, j :: 0 <= i < |rows| && 0 <= j < 3 ==> r.value[3 * i + j] == rows[i][j]
  {
    if rows == [] then Some([])
    else
      var init :- Flatten3(rows[..|rows| - 1]);
      var last := rows[|rows| - 1];
      if |last| < 3 then None else Some(init + last[..3])
  }

  /** Consecutive triples as rows; entries past the last whole triple are
      dropped. */
  function Unflatten3<T>(flat: seq<T>): (rows: seq<seq<T>>)
    ensures |rows| == |flat| / 3
    ensures forall i :: 0 <= i < |rows| ==> |rows[i]| == 3
    ensures forall i, j :: 0 <= i < |rows| && 0 <= j < 3 ==> rows[i][j] == flat[3 * i + j]
  {
    seq(|flat| / 3, i requires 0 <= i < |flat| / 3 => flat[3 * i..3 * i + 3])
  }

  /** Every row cut to its first three entries. */
  function Rows3<T>(rows: seq<seq<T>>): (r: seq<seq<T>>)
    requires forall i :: 0 <= i < |rows| ==> 3 <= |rows[i]|
    ensures |r| == |rows| && forall i :: 0 <= i < |rows| ==> r[i] == rows[i][..3]
  {
    seq(|rows|, i requires 0 <= i < |rows| => rows[i][..3])
  }

  /** Fixed-width encodings, one after the other. */
  function Bytes<T>(enc: T -> seq<byte>, xs: seq<T>): seq<byte> {
    if xs == [] then [] else enc(xs[0]) + Bytes(enc, xs[1..])
  }

  /** `bs` cut into `width`-byte pieces, each decoded; a short tail is
      dropped. */
  function Values<T>(dec: seq<byte> --> T, width: nat, bs: seq<byte>): seq<T>
    requires 0 < width && forall b :: |b| == width ==> dec.requires(b)
    decreases |bs|
  {
    if |bs| < width then [] else [dec(bs[..width])] + Values(dec, width, bs[width..])
  }

  /** The byte codec for `double` and the zstd compressor, neither of which
      is part of this model: `f64` writes the eight bytes of a value,
      `f64Of` reads them back; `decompress` takes the capacity of its
      destination. */
  datatype Codecs = Codecs(
    f64: real -> seq<byte>, f64Of: seq<byte> -> real,
    compress: seq<byte> -> seq<byte>, decompress: (seq<byte>, nat) -> Option<seq<byte>>)

  /** What the codecs promise: eight bytes per value that read back as the
      value, and decompression into a destination of the original size
      giving back the original. */
  ghost predicate Sound(c: Codecs) {
    && (forall x :: |c.f64(x)| == 8 && c.f64Of(c.f64(x)) == x)
    && (forall d :: c.decompress(c.compress(d), |d|) == Some(d))
  }

  /** A mesh as `read_crtb` hands it back. */
  datatype Mesh = Mesh(vertices: seq<seq<real>>, faces: seq<seq<u32>>)

  /** `write_crtb`: the counts wrap to 32 bits and that many rows are
      written; the first three entries of each row are compressed; the
      compressed sizes wrap to 32 bits and that many bytes of each block
      follow the header. `None` when a written row has fewer than three
      entries. */
  function WriteCrtb(c: Codecs, vertices: seq<seq<real>>, faces: seq<seq<u32>>): (file: Option<seq<byte>>)
    ensures file.Some? <==>
      && (forall i :: 0 <= i < ToU32(|vertices|) ==> 3 <= |vertices[i]|)
      && (forall i :: 0 <= i < ToU32(|faces|) ==> 3 <= |faces[i]|)
    ensures file.Some? ==>
      && HeaderSize <= |file.value|
      && DecodeHeader(file.value).Ok?
      && DecodeHeader(file.value).value.numV == ToU32(|vertices|)
      && DecodeHeader(file.value).value.numF == ToU32(|faces|)
      && |file.value| == HeaderSize + DecodeHeader(file.value).value.compressedV + DecodeHeader(file.value).value.compressedF
  {
    var numV := ToU32(|vertices|);
    var numF := ToU32(|faces|);
    var vflat :- Flatten3(vertices[..numV]);
    var fflat :- Flatten3(faces[..numF]);
    var cv := c.compress(Bytes(c.f64, vflat));
    var cf := c.compress(Bytes(U32Bytes, fflat));
    var h := Header(ToU32(|cv|), ToU32(|cf|), numV, numF);
    FileHeader(h, cv[..h.compressedV], cf[..h.compressedF]);
    Some(EncodeHeader(h) + cv[..h.compressedV] + cf[..h.compressedF])
  }

  /** `read_crtb`: the header, then the vertex block and the face block in
      that order, each decompressed into an array of the announced size and
      cut into rows of three. */
  function ReadCrtb(c: Codecs, file: seq<byte>): (r: Result<Mesh, CrtbFault>)
    ensures r.Err? ==> DecodeHeader(file).Err? || r.error != BadMagic
    ensures DecodeHeader(file).Err? ==> r == Err(DecodeHeader(file).error)
    ensures r.Ok? ==>
      && DecodeHeader(file).Ok?
      && |r.value.vertices| == DecodeHeader(file).value.numV
      && |r.value.faces| == DecodeHeader(file).value.numF
  {
    var h :- DecodeHeader(file);
    ReadBody(c, h, file[HeaderSize..])
  }

  /** The part of `read_crtb` after the header: the two blocks the header
      announces, decompressed and cut into rows. */
  function ReadBody(c: Codecs, h: Header, body: seq<byte>): (r: Result<Mesh, CrtbFault>)
    ensures r.Err? ==> r.error != BadMagic
    ensures r.Ok? ==> |r.value.vertices| == h.numV && |r.value.faces| == h.numF
  {
    if |body| < h.compressedV + h.compressedF then Err(ShortFile)
    else
      var vb := c.decompress(body[..h.compressedV], 24 * h.numV);
      var fb := c.decompress(body[h.compressedV..h.compressedV + h.compressedF], 12 * h.numF);
      if vb.None? || |vb.value| != 24 * h.numV || fb.None? || |fb.value| != 12 * h.numF then Err(BadBlock)
      else
        ValuesCount(c.f64Of, 8, vb.value, 3 * h.numV);
        ValuesCount(U32Of, 4, fb.value, 3 * h.numF);
        Ok(Mesh(Unflatten3(Values(c.f64Of, 8, vb.value)), Unflatten3(Values(U32Of, 4, fb.value))))
  }

  /** One shape of an OBJ file as the parser gives it: the number of
      vertices of every face and the vertex index of every face corner. */
  datatype Shape = Shape(faceSizes: seq<nat>, indices: seq<int>)

  /** The vertex indices of one shape from corner `offset` on, face by face,
      each converted to `uint32_t`; `None` when the corners run out (a read
      past the end). */
  function ShapeFaces(faceSizes: seq<nat>, indices: seq<int>, offset: nat): (r: Option<seq<seq<u32>>>)
    requires offset <= |indices|
    ensures r.Some? <==> offset + Total(faceSizes) <= |indices|
    ensures r.Some? ==> |r.value| == |faceSizes|
    ensures r.Some? ==> forall f :: 0 <= f < |faceSizes| ==> |r.value[f]| == faceSizes[f]
    ensures r.Some? ==> Concat(r.value) == Wrap(indices[offset..offset + Total(faceSizes)])
    decreases |faceSizes|
  {
    if faceSizes == [] then Some([])
    else
      var fv := faceSizes[0];
      if |indices| < offset + fv then None
      else
        var rest :- ShapeFaces(faceSizes[1..], indices, offset + fv);
        var face := Wrap(indices[offset..offset + fv]);
        assert indices[offset..offset + Total(faceSizes)]
            == indices[offset..offset + fv] + indices[offset + fv..offset + fv + Total(faceSizes[1..])];
        Some([face] + rest)
  }

  function Total(ns: seq<nat>): nat {
    if ns == [] then 0 else ns[0] + Total(ns[1..])
  }

  function Concat<T>(rows: seq<seq<T>>): seq<T> {
    if rows == [] then [] else rows[0] + Concat(rows[1..])
  }

  /** Every index converted to `uint32_t`. */
  function Wrap(xs: seq<int>): (r: seq<u32>)
    ensures |r| == |xs| && forall k :: 0 <= k < |xs| ==> r[k] == ToU32(xs[k])
  {
    seq(|xs|, k requires 0 <= k < |xs| => ToU32(xs[k]))
  }

  /** The vertex loop of `read_obj`: the flat coordinate list in
      consecutive triples; `None` when its length is not a multiple of three
      (the last triple would read past the end). */
  function ObjVertices(flat: seq<real>): (r: Option<seq<seq<real>>>)
    ensures r.Some? <==> |flat| % 3 == 0
    ensures r.Some? ==> r.value == Unflatten3(flat)
  {
    if |flat| % 3 != 0 then None else Some(Unflatten3(flat))
  }

  /** The face loops of `read_obj`: the faces of every shape, shape after
      shape. */
  function ObjFaces(shapes: seq<Shape>): (r: Option<seq<seq<u32>>>)
    ensures r.Some? <==> forall s :: 0 <= s < |shapes| ==> Total(shapes[s].faceSizes) <= |shapes[s].indices|
    ensures r.Some? ==> |r.value| == FaceCount(shapes)
    decreases |shapes|
  {
    if shapes == [] then Some([])
    else
      var first :- ShapeFaces(shapes[0].faceSizes, shapes[0].indices, 0);
      var rest :- ObjFaces(shapes[1..]);
      assert forall s :: 1 <= s < |shapes| ==> shapes[1..][s - 1] == shapes[s];
      Some(first + rest)
  }

  function FaceCount(shapes: seq<Shape>): nat {
    if shapes == [] then 0 else |shapes[0].faceSizes| + FaceCount(shapes[1..])
  }

  /** The corners the faces of every shape use, shape after shape, each
      converted to `uint32_t`: the first `Total(faceSizes)` indices of each
      shape (all of them when there are fewer). */
  function UsedIndices(shapes: seq<Shape>): seq<u32> {
    if shapes == [] then []
    else
      var n := Total(shapes[0].faceSizes);
      var idx := shapes[0].indices;
      Wrap(if n <= |idx| then idx[..n] else idx) + UsedIndices(shapes[1..])
  }

  /** One line of `print_faces`: `f `, then every index plus one (in
      `uint32_t` arithmetic) followed by a space, then a newline. */
  function PrintFace(face: seq<u32>): (line: string)
    ensures 0 < |line| && line[|line| - 1] == '\n'
    ensures line[..|line| - 1] == "f " + FaceNumbers(face)
    ensures '\n' !in line[..|line| - 1]
  {
    var numbers := FaceNumbers(face);
    assert '\n' !in numbers by {
      assert forall k :: 0 <= k < |numbers| ==> numbers[k] != '\n';
    }
    var line := "f " + numbers + "\n";
    assert line[..|line| - 1] == "f " + numbers;
    line
  }

  /** The indices of one face, each plus one in `uint32_t` arithmetic and
      followed by a space: nothing but digits and spaces. */
  function FaceNumbers(face: seq<u32>): (r: string)
    ensures forall k :: 0 <= k < |r| ==> IsDigit(r[k]) || r[k] == ' '
  {
    if face == [] then []
    else
      var d := Decimal(ToU32(face[0] as int + 1));
      var rest := FaceNumbers(face[1..]);
      var r := d + " " + rest;
      assert forall k :: 0 <= k < |d| ==> r[k] == d[k];
      assert forall k :: |d| + 1 <= k < |r| ==> r[k] == rest[k - |d| - 1];
      r
  }

  /** `print_faces`: one line per face; split at the newlines, line `k` is
      `f ` followed by the numbers of face `k`. */
  function PrintFaces(faces: seq<seq<u32>>): (r: string)
    ensures |Split(r, '\n')| == |faces|
    ensures forall k :: 0 <= k < |faces| ==> Split(r, '\n')[k] == "f " + FaceNumbers(faces[k])
  {
    if faces == [] then []
    else
      var line := PrintFace(faces[0]);
      var text := line[..|line| - 1];
      var rest := PrintFaces(faces[1..]);
      var pieces := [text] + Split(rest, '\n');
      assert Split(line + rest, '\n') == pieces by {
        assert line + rest == text + ['\n'] + rest;
        SplitLine(text, rest);
      }
      assert forall k :: 0 <= k < |faces| ==> pieces[k] == "f " + FaceNumbers(faces[k]) by {
        forall k | 1 <= k < |faces|
          ensures pieces[k] == "f " + FaceNumbers(faces[k])
        {
          assert faces[1..][k - 1] == faces[k];
        }
      }
      line + rest
  }

  /** A line without a newline, a newline and more text split into the
      line and the pieces of the rest. */
  lemma SplitLine(text: string, rest: string)
    requires '\n' !in text
    ensures Split(text + ['\n'] + rest, '\n') == [text] + Split(rest, '\n')
  {
    var r := text + ['\n'] + rest;
    FindAfter(text, '\n', rest);
    assert r[..|text|] == text;
    assert r[|text| + 1..] == rest;
  }

  // ---------------------------------------------------------------------
  // Lemmas

  /** A `uint32_t` written and read back is unchanged. */
  lemma U32RoundTrip(n: u32)
    ensures U32Of(U32Bytes(n)) == n
  {
    assert Pow256(4) == U32Range;
    LeRoundTrip(n, 4);
  }

  /** Four bytes read as a `uint32_t` and written again are unchanged. */
  lemma U32BytesOf(bs: seq<byte>)
    requires |bs| == 4
    ensures U32Bytes(U32Of(bs)) == bs
  {
    LeBytesOf(bs);
  }

  /** Any number below `256^count` survives writing `count` bytes and
      reading them back. */
  lemma {:induction false} LeRoundTrip(n: nat, count: nat)
    requires n < Pow256(count)
    ensures LeValue(LeBytes(n, count)) == n
  {
    if count > 0 {
      LeRoundTrip(n / 256, count - 1);
      assert LeBytes(n, count)[1..] == LeBytes(n / 256, count - 1);
    }
  }

  /** Any bytes survive reading them as a number and writing it back. */
  lemma {:induction false} LeBytesOf(bs: seq<byte>)
    ensures LeBytes(LeValue(bs), |bs|) == bs
  {
    if bs != [] {
      LeBytesOf(bs[1..]);
      DivMod256(bs[0], LeValue(bs[1..]));
      assert bs == [bs[0]] + bs[1..];
    }
  }

  lemma DivMod256(r: int, q: int)
    requires 0 <= r < 256 && 0 <= q
    ensures (r + 256 * q) / 256 == q && (r + 256 * q) % 256 == r
  {
  }

  /** The header reads back as written, whatever follows it. */
  lemma HeaderRoundTrip(h: Header, rest: seq<byte>)
    ensures DecodeHeader(EncodeHeader(h) + rest) == Ok(h)
  {
    var bs := EncodeHeader(h) + rest;
    assert bs[..6] == Magic;
    assert bs[6..10] == U32Bytes(h.compressedV);
    assert bs[10..14] == U32Bytes(h.compressedF);
    assert bs[14..18] == U32Bytes(h.numV);
    assert bs[18..22] == U32Bytes(h.numF);
    U32RoundTrip(h.compressedV);
    U32RoundTrip(h.compressedF);
    U32RoundTrip(h.numV);
    U32RoundTrip(h.numF);
  }

  /** A file that starts with anything but the magic is refused. */
  lemma OtherMagicRefused(c: Codecs, file: seq<byte>)
    requires HeaderSize <= |file| && file[..6] != Magic
    ensures ReadCrtb(c, file) == Err(BadMagic)
  {
  }

  /** Flattening rows and cutting the result into triples gives the rows'
      first three entries back. */
  lemma UnflattenFlatten<T>(rows: seq<seq<T>>)
    requires forall i :: 0 <= i < |rows| ==> 3 <= |rows[i]|
    ensures Flatten3(rows).Some? && Unflatten3(Flatten3(rows).value) == Rows3(rows)
  {
    var r := Unflatten3(Flatten3(rows).value);
    forall i | 0 <= i < |rows|
      ensures r[i] == rows[i][..3]
    {
      assert r[i][0] == rows[i][0] && r[i][1] == rows[i][1] && r[i][2] == rows[i][2];
    }
  }

  /** Cutting into triples and flattening again gives the list back. */
  lemma FlattenUnflatten<T>(flat: seq<T>)
    requires |flat| % 3 == 0
    ensures Flatten3(Unflatten3(flat)) == Some(flat)
  {
    var rows := Unflatten3(flat);
    var r := Flatten3(rows).value;
    forall k | 0 <= k < |flat|
      ensures r[k] == flat[k]
    {
      var i, j := k / 3, k % 3;
      assert k == 3 * i + j;
      assert r[3 * i + j] == rows[i][j];
      assert rows[i][j] == flat[3 * i + j];
    }
    assert Flatten3(rows).Some?;
    assert |r| == |flat|;
    assert r == flat;
  }

  /** Values encoded one after the other decode one after the other. */
  lemma {:induction false} ValuesOfBytes<T>(enc: T -> seq<byte>, dec: seq<byte> --> T, width: nat, xs: seq<T>)
    requires 0 < width && forall b :: |b| == width ==> dec.requires(b)
    requires forall k :: 0 <= k < |xs| ==> |enc(xs[k])| == width && dec(enc(xs[k])) == xs[k]
    ensures |Bytes(enc, xs)| == width * |xs|
    ensures Values(dec, width, Bytes(enc, xs)) == xs
  {
    if xs != [] {
      assert forall k :: 0 <= k < |xs[1..]| ==> xs[1..][k] == xs[k + 1];
      ValuesOfBytes(enc, dec, width, xs[1..]);
      var bs := Bytes(enc, xs);
      assert bs[..width] == enc(xs[0]);
      assert bs[width..] == Bytes(enc, xs[1..]);
    }
  }

  /** `width * n` bytes decode to `n` values. */
  lemma {:induction false} ValuesCount<T>(dec: seq<byte> --> T, width: nat, bs: seq<byte>, n: nat)
    requires 0 < width && forall b :: |b| == width ==> dec.requires(b)
    requires |bs| == width * n
    ensures |Values(dec, width, bs)| == n
  {
    if n > 0 {
      ValuesCount(dec, width, bs[width..], n - 1);
    }
  }

  /** The blocks `write_crtb` compresses: the flattened vertices as
      doubles, the flattened faces as `uint32_t`. */
  function VertexBlock(c: Codecs, vertices: seq<seq<real>>): seq<byte>
    requires forall i :: 0 <= i < |vertices| ==> 3 <= |vertices[i]|
  {
    c.compress(Bytes(c.f64, Flatten3(vertices).value))
  }

  function FaceBlock(c: Codecs, faces: seq<seq<u32>>): seq<byte>
    requires forall i :: 0 <= i < |faces| ==> 3 <= |faces[i]|
  {
    c.compress(Bytes(U32Bytes, Flatten3(faces).value))
  }

  /** The container round trip: with sound codecs, fewer than 2^32 rows and
      blocks shorter than 2^32 bytes, reading what was written gives every
      vertex and every face back cut to three entries. */
  lemma {:induction false} CrtbRoundTrip(c: Codecs, vertices: seq<seq<real>>, faces: seq<seq<u32>>)
    requires Sound(c)
    requires |vertices| < U32Range && |faces| < U32Range
    requires forall i :: 0 <= i < |vertices| ==> 3 <= |vertices[i]|
    requires forall i :: 0 <= i < |faces| ==> 3 <= |faces[i]|
    requires |VertexBlock(c, vertices)| < U32Range && |FaceBlock(c, faces)| < U32Range
    ensures WriteCrtb(c, vertices, faces).Some?
    ensures ReadCrtb(c, WriteCrtb(c, vertices, faces).value) == Ok(Mesh(Rows3(vertices), Rows3(faces)))
  {
    var vflat := Flatten3(vertices).value;
    var fflat := Flatten3(faces).value;
    var vbytes := Bytes(c.f64, vflat);
    var fbytes := Bytes(U32Bytes, fflat);
    var cv := VertexBlock(c, vertices);
    var cf := FaceBlock(c, faces);
    var h := Header(|cv|, |cf|, |vertices|, |faces|);
    VertexBytesRead(c, vflat);
    FaceBytesRead(fflat);
    assert c.decompress(cv, |vbytes|) == Some(vbytes);
    assert c.decompress(cf, |fbytes|) == Some(fbytes);
    HeaderThenBody(c, h, cv + cf);
    ReadLayout(c, h, cv, cf, vbytes, fbytes);
    WriteLayout(c, vertices, faces);
    UnflattenFlatten(vertices);
    UnflattenFlatten(faces);
  }

  /** What `write_crtb` writes when the counts and sizes fit in 32 bits:
      the header, the whole vertex block, the whole face block. */
  lemma WriteLayout(c: Codecs, vertices: seq<seq<real>>, faces: seq<seq<u32>>)
    requires |vertices| < U32Range && |faces| < U32Range
    requires forall i :: 0 <= i < |vertices| ==> 3 <= |vertices[i]|
    requires forall i :: 0 <= i < |faces| ==> 3 <= |faces[i]|
    requires |VertexBlock(c, vertices)| < U32Range && |FaceBlock(c, faces)| < U32Range
    ensures WriteCrtb(c, vertices, faces) == Some(EncodeHeader(Header(|VertexBlock(c, vertices)|, |FaceBlock(c, faces)|, |vertices|, |faces|))
                                                  + (VertexBlock(c, vertices) + FaceBlock(c, faces)))
  {
    assert vertices[..|vertices|] == vertices;
    assert faces[..|faces|] == faces;
    var cv := VertexBlock(c, vertices);
    var cf := FaceBlock(c, faces);
    assert ToU32(|vertices|) == |vertices| && ToU32(|faces|) == |faces|;
    assert ToU32(|cv|) == |cv| && ToU32(|cf|) == |cf|;
    assert cv[..|cv|] == cv && cf[..|cf|] == cf;
    var h := Header(|cv|, |cf|, |vertices|, |faces|);
    assert EncodeHeader(h) + cv + cf == EncodeHeader(h) + (cv + cf);
  }

  /** What `read_crtb` makes of blocks of the sizes the header announces
      that decompress to the announced sizes. */
  lemma ReadLayout(c: Codecs, h: Header, cv: seq<byte>, cf: seq<byte>, vb: seq<byte>, fb: seq<byte>)
    requires h.compressedV == |cv| && h.compressedF == |cf|
    requires |vb| == 24 * h.numV && |fb| == 12 * h.numF
    requires c.decompress(cv, 24 * h.numV) == Some(vb) && c.decompress(cf, 12 * h.numF) == Some(fb)
    ensures ReadBody(c, h, cv + cf) == Ok(Mesh(Unflatten3(Values(c.f64Of, 8, vb)), Unflatten3(Values(U32Of, 4, fb))))
  {
    assert (cv + cf)[..|cv|] == cv && (cv + cf)[|cv|..|cv| + |cf|] == cf;
  }

  /** After a well-formed header, `read_crtb` reads the rest as the body
      that header describes. */
  lemma HeaderThenBody(c: Codecs, h: Header, body: seq<byte>)
    ensures ReadCrtb(c, EncodeHeader(h) + body) == ReadBody(c, h, body)
  {
    var file := EncodeHeader(h) + body;
    HeaderRoundTrip(h, body);
    assert file[HeaderSize..] == body;
  }

  /** The first 22 bytes are the magic and the four count fields. */
  lemma HeaderFields(bs: seq<byte>)
    requires HeaderSize <= |bs|
    ensures bs[..HeaderSize] == bs[..6] + bs[6..10] + bs[10..14] + bs[14..18] + bs[18..22]
  {
  }

  /** A header followed by two blocks reads back as that header. */
  lemma FileHeader(h: Header, a: seq<byte>, b: seq<byte>)
    ensures HeaderSize <= |EncodeHeader(h) + a + b| == HeaderSize + |a| + |b|
    ensures DecodeHeader(EncodeHeader(h) + a + b) == Ok(h)
  {
    HeaderRoundTrip(h, a + b);
    assert EncodeHeader(h) + a + b == EncodeHeader(h) + (a + b);
  }

  /** The vertex coordinates written as doubles read back. */
  lemma VertexBytesRead(c: Codecs, vflat: seq<real>)
    requires Sound(c)
    ensures |Bytes(c.f64, vflat)| == 8 * |vflat| && Values(c.f64Of, 8, Bytes(c.f64, vflat)) == vflat
  {
    forall k | 0 <= k < |vflat|
      ensures |c.f64(vflat[k])| == 8 && c.f64Of(c.f64(vflat[k])) == vflat[k]
    {
      var x := vflat[k];
      assert |c.f64(x)| == 8 && c.f64Of(c.f64(x)) == x;
    }
    ValuesOfBytes(c.f64, c.f64Of, 8, vflat);
  }

  /** The face indices written as `uint32_t` read back. */
  lemma FaceBytesRead(fflat: seq<u32>)
    ensures |Bytes(U32Bytes, fflat)| == 4 * |fflat| && Values(U32Of, 4, Bytes(U32Bytes, fflat)) == fflat
  {
    U32Codec();
    ValuesOfBytes(U32Bytes, U32Of, 4, fflat);
  }

  lemma U32Codec()
    ensures forall x: u32 :: |U32Bytes(x)| == 4 && U32Of(U32Bytes(x)) == x
  {
    forall x: u32
      ensures U32Of(U32Bytes(x)) == x
    {
      U32RoundTrip(x);
    }
  }

  /** The vertex loop of `read_obj` and the flattening of `write_crtb` are
      inverse: the triples flatten back to the coordinate list. */
  lemma ObjVerticesFlatten(flat: seq<real>)
    requires |flat| % 3 == 0
    ensures ObjVertices(flat).Some? && Flatten3(ObjVertices(flat).value) == Some(flat)
  {
    FlattenUnflatten(flat);
  }

  /** Face by face, the corners of a shape are its index list in order,
      every index converted to `uint32_t`. */
  lemma ShapeFacesInOrder(sh: Shape)
    requires Total(sh.faceSizes) <= |sh.indices|
    ensures ShapeFaces(sh.faceSizes, sh.indices, 0).Some?
    ensures Concat(ShapeFaces(sh.faceSizes, sh.indices, 0).value) == Wrap(sh.indices[..Total(sh.faceSizes)])
  {
    assert sh.indices[0..Total(sh.faceSizes)] == sh.indices[..Total(sh.faceSizes)];
  }

  /** Rows written one after the other: the concatenation of two lists of
      rows is the concatenation of their concatenations. */
  lemma {:induction false} ConcatAppend<T>(a: seq<seq<T>>, b: seq<seq<T>>)
    ensures Concat(a + b) == Concat(a) + Concat(b)
  {
    if a == [] {
      assert a + b == b;
    } else {
      assert (a + b)[1..] == a[1..] + b;
      ConcatAppend(a[1..], b);
    }
  }

  /** The faces of shape `s` follow the faces of the shapes before it: face
      `f` of shape `s` is face `FacesBefore(shapes, s) + f` of the list. */
  lemma {:induction false} ObjFacesPlacesShape(shapes: seq<Shape>, s: nat, f: nat)
    requires ObjFaces(shapes).Some? && s < |shapes| && f < |shapes[s].faceSizes|
    ensures ShapeFaces(shapes[s].faceSizes, shapes[s].indices, 0).Some?
    ensures FacesBefore(shapes, s) + f < |ObjFaces(shapes).value|
    ensures ObjFaces(shapes).value[FacesBefore(shapes, s) + f]
         == ShapeFaces(shapes[s].faceSizes, shapes[s].indices, 0).value[f]
  {
    var groups := ObjFacesGroups(shapes);
    ConcatPlaces(groups, s, f);
    GroupsBeforeFaces(shapes, groups, s);
  }

  /** The faces of every shape, one group per shape, when no shape runs
      out of corners. */
  function ShapeGroups(shapes: seq<Shape>): (gs: seq<seq<seq<u32>>>)
    requires forall s :: 0 <= s < |shapes| ==> Total(shapes[s].faceSizes) <= |shapes[s].indices|
    ensures |gs| == |shapes|
    ensures forall s :: 0 <= s < |shapes| ==> gs[s] == ShapeFaces(shapes[s].faceSizes, shapes[s].indices, 0).value
  {
    seq(|shapes|, s requires 0 <= s < |shapes| => ShapeFaces(shapes[s].faceSizes, shapes[s].indices, 0).value)
  }

  /** The face list is the shapes' face groups written one after the
      other. */
  lemma {:induction false} ObjFacesGroups(shapes: seq<Shape>) returns (groups: seq<seq<seq<u32>>>)
    requires ObjFaces(shapes).Some?
    ensures |groups| == |shapes|
    ensures forall s :: 0 <= s < |shapes| ==>
      ShapeFaces(shapes[s].faceSizes, shapes[s].indices, 0).Some? &&
      groups[s] == ShapeFaces(shapes[s].faceSizes, shapes[s].indices, 0).value
    ensures ObjFaces(shapes).value == Concat(groups)
    decreases |shapes|
  {
    if shapes == [] {
      groups := [];
    } else {
      ObjFacesStep(shapes);
      var tail := ObjFacesGroups(shapes[1..]);
      groups := [ShapeFaces(shapes[0].faceSizes, shapes[0].indices, 0).value] + tail;
      assert groups[1..] == tail;
      forall s | 1 <= s < |shapes|
        ensures ShapeFaces(shapes[s].faceSizes, shapes[s].indices, 0).Some?
        ensures groups[s] == ShapeFaces(shapes[s].faceSizes, shapes[s].indices, 0).value
      {
        assert shapes[1..][s - 1] == shapes[s];
      }
    }
  }

  /** The number of rows in the first `s` groups. */
  function RowsBefore<T>(groups: seq<seq<T>>, s: nat): nat
    requires s <= |groups|
  {
    if s == 0 then 0 else |groups[0]| + RowsBefore(groups[1..], s - 1)
  }

  /** Row `f` of group `s` sits after the rows of the groups before it. */
  lemma {:induction false} ConcatPlaces<T>(groups: seq<seq<T>>, s: nat, f: nat)
    requires s < |groups| && f < |groups[s]|
    ensures RowsBefore(groups, s) + f < |Concat(groups)|
    ensures Concat(groups)[RowsBefore(groups, s) + f] == groups[s][f]
    decreases s
  {
    if s != 0 {
      assert groups[1..][s - 1] == groups[s];
      ConcatPlaces(groups[1..], s - 1, f);
    }
  }

  /** Counting rows of the face groups counts faces. */
  lemma {:induction false} GroupsBeforeFaces(shapes: seq<Shape>, groups: seq<seq<seq<u32>>>, s: nat)
    requires s <= |shapes| == |groups|
    requires forall k :: 0 <= k < |shapes| ==> |groups[k]| == |shapes[k].faceSizes|
    ensures RowsBefore(groups, s) == FacesBefore(shapes, s)
    decreases s
  {
    if s != 0 {
      assert forall k :: 0 <= k < |shapes| - 1 ==> groups[1..][k] == groups[k + 1] && shapes[1..][k] == shapes[k + 1];
      GroupsBeforeFaces(shapes[1..], groups[1..], s - 1);
    }
  }

  /** The number of faces of the first `s` shapes. */
  function FacesBefore(shapes: seq<Shape>, s: nat): nat
    requires s <= |shapes|
  {
    if s == 0 then 0 else |shapes[0].faceSizes| + FacesBefore(shapes[1..], s - 1)
  }

  /** Read in order, the faces of `read_obj` list the corners every shape's
      faces use, shape after shape. */
  lemma {:induction false} ObjFacesInOrder(shapes: seq<Shape>)
    requires ObjFaces(shapes).Some?
    ensures Concat(ObjFaces(shapes).value) == UsedIndices(shapes)
    decreases |shapes|
  {
    if shapes != [] {
      ObjFacesStep(shapes);
      var first := ShapeFaces(shapes[0].faceSizes, shapes[0].indices, 0).value;
      ObjFacesInOrder(shapes[1..]);
      assert shapes[0].indices[0..Total(shapes[0].faceSizes)] == shapes[0].indices[..Total(shapes[0].faceSizes)];
      ConcatAppend(first, ObjFaces(shapes[1..]).value);
    }
  }

  /** The face list of a non-empty shape list: the first shape's faces,
      then those of the rest. */
  lemma ObjFacesStep(shapes: seq<Shape>)
    requires ObjFaces(shapes).Some? && shapes != []
    ensures ShapeFaces(shapes[0].faceSizes, shapes[0].indices, 0).Some?
    ensures ObjFaces(shapes[1..]).Some?
    ensures |ShapeFaces(shapes[0].faceSizes, shapes[0].indices, 0).value| == |shapes[0].faceSizes|
    ensures ObjFaces(shapes).value
         == ShapeFaces(shapes[0].faceSizes, shapes[0].indices, 0).value + ObjFaces(shapes[1..]).value
  {
  }

  /** The decimal form of every index plus one, in `uint32_t`
      arithmetic. */
  function OneBased(face: seq<u32>): (ds: seq<string>)
    ensures |ds| == |face|
    ensures forall k :: 0 <= k < |face| ==> ds[k] == Decimal(ToU32(face[k] as int + 1))
  {
    if face == [] then [] else [Decimal(ToU32(face[0] as int + 1))] + OneBased(face[1..])
  }

  /** The printed numbers, split at spaces, are the decimal forms of the
      indices plus one. */
  lemma {:induction false} FaceNumbersSplit(face: seq<u32>)
    ensures Split(FaceNumbers(face), ' ') == OneBased(face)
  {
    if face != [] {
      FaceNumbersSplit(face[1..]);
      var d := Decimal(ToU32(face[0] as int + 1));
      var rest := FaceNumbers(face[1..]);
      var s := FaceNumbers(face);
      assert s == d + [' '] + rest;
      assert ' ' !in d by {
        assert forall k :: 0 <= k < |d| ==> IsDigit(d[k]);
      }
      FindAfter(d, ' ', rest);
      assert s[..|d|] == d;
      assert s[|d| + 1..] == rest;
    }
  }

  /** An index below 2^32 - 1 prints as itself plus one; the largest, which
      is what a missing index (-1) converts to, wraps round to 0. */
  lemma PrintedIndex(idx: u32)
    ensures idx < U32Range - 1 ==> DigitsValue(Decimal(ToU32(idx as int + 1))) == idx + 1
    ensures idx == U32Range - 1 ==> Decimal(ToU32(idx as int + 1)) == "0"
  {
    DecimalValue(ToU32(idx as int + 1));
  }
}
