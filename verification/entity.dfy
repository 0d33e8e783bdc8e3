/** A renderable mesh: its triangles, the pose last given to it, and the
    shading data its triangles point back to. */
module Entities {
  import opened Wrappers
  import opened LinAlg
  import opened UVMaps
  import opened Geometry
  import opened Transform

  datatype Entity = Entity(position: Vec3, rotation: Mat3, scale: real, triangles: seq<Triangle>, surface: Surface)

  /** The mesh file reader: the triangles of the file at a path, in file
      order, without parents. */
  type Loader = string -> seq<Triangle>

  /** The extension of a path as `std::filesystem::path::extension`
      computes it: taken from the last path component. */
  function Extension(path: string): (ext: string)
    ensures ext == [] || ext[0] == '.'
    ensures '/' !in ext
  {
    NameExtension(FileName(path))
  }

  /** The extension of one path component: from its last '.' on; empty for
      `.`, `..`, a name without a dot, or a dot only in first position. */
  function NameExtension(name: string): (ext: string)
    ensures ext == [] || ext[0] == '.'
    ensures |ext| <= |name| && name[|name| - |ext|..] == ext
  {
    if name == "." || name == ".." then ""
    else
      match LastDot(name)
      case None => ""
      case Some(k) => if k == 0 then "" else name[k..]
  }

  /** The last path component: the longest suffix without a '/'. */
  function FileName(path: string): (name: string)
    ensures '/' !in name
    ensures |name| <= |path| && path[|path| - |name|..] == name
    ensures |name| < |path| ==> path[|path| - |name| - 1] == '/'
  {
    if path == [] then []
    else if path[|path| - 1] == '/' then []
    else
      var init := path[..|path| - 1];
      var rest := FileName(init);
      assert path[|path| - 1 - |rest|..] == init[|init| - |rest|..] + [path[|path| - 1]];
      rest + [path[|path| - 1]]
  }

  /** The position of the last '.' of a string. */
  function LastDot(s: string): (k: Option<nat>)
    ensures k.None? <==> '.' !in s
    ensures k.Some? ==> k.value < |s| && s[k.value] == '.' && '.' !in s[k.value + 1..]
  {
    if s == [] then None
    else if s[|s| - 1] == '.' then Some(|s| - 1)
    else
      var k := LastDot(s[..|s| - 1]);
      assert s == s[..|s| - 1] + [s[|s| - 1]];
      k
  }

  /** `std::tolower` applied to every character (the "C" locale: only the
      ASCII capitals change). */
  function ToLower(s: string): (t: string)
    ensures |t| == |s|
    ensures forall i :: 0 <= i < |s| ==>
      t[i] == if 'A' <= s[i] <= 'Z' then (s[i] as int + 32) as char else s[i]
  {
    seq(|s|, i requires 0 <= i < |s| =>
      if 'A' <= s[i] <= 'Z' then (s[i] as int + 32) as char else s[i])
  }

  /** The mesh reader is called only for a path whose extension is `.obj`
      in any letter case. */
  predicate IsObjPath(path: string) {
    ToLower(Extension(path)) == ".obj"
  }

  /** The triangles with their parent link set to `s`, in order. */
  function Adopt(ts: seq<Triangle>, s: Surface): (rs: seq<Triangle>)
    ensures |rs| == |ts|
    ensures forall i :: 0 <= i < |ts| ==> rs[i] == ts[i].(parent := Some(s))
  {
    seq(|ts|, i requires 0 <= i < |ts| => ts[i].(parent := Some(s)))
  }

  /** The shading data every entity constructor installs: one coloured
      Lambertian material and a constant material map selecting it. */
  function DefaultSurface(smooth: bool, color: Vec3): Surface {
    Surface(smooth, [ColoredLambertian(color)], ConstantUVMap(0))
  }

  /** `Entity(path, smooth_shading, color)`. The constructor leaves
      position, rotation and scale uninitialised; they are the `unset`
      argument here. A path with another extension gives no triangles and
      no error. */
  function NewEntity(path: string, smooth: bool, color: Vec3, load: Loader, unset: Placement): (e: Entity)
    ensures e.surface == DefaultSurface(smooth, color)
    ensures IsObjPath(path) ==> |e.triangles| == |load(path)|
    ensures IsObjPath(path) ==> forall i :: 0 <= i < |e.triangles| ==>
      e.triangles[i] == load(path)[i].(parent := Some(e.surface))
    ensures !IsObjPath(path) ==> e.triangles == []
    ensures e.position == unset.position && e.rotation == unset.rotation && e.scale == unset.scale
  {
    var loaded := if IsObjPath(path) then load(path) else [];
    var s := DefaultSurface(smooth, color);
    Entity(unset.position, unset.rotation, unset.scale, Adopt(loaded, s), s)
  }

  /** `Entity::get_material`. */
  function GetMaterial(e: Entity, u: real, v: real): Option<Material> {
    MaterialAt(e.surface, u, v)
  }

  /** `set_scale`: stores the scale and scales every vertex about the
      origin (the model's reading of the two-argument call). */
  function SetScale(e: Entity, s: real): (r: Entity)
    ensures r.scale == s && r.position == e.position && r.rotation == e.rotation && r.surface == e.surface
    ensures |r.triangles| == |e.triangles|
    ensures forall i :: 0 <= i < |e.triangles| ==>
      && r.triangles[i].p0 == Resize(e.triangles[i].p0, s)
      && r.triangles[i].p1 == Resize(e.triangles[i].p1, s)
      && r.triangles[i].p2 == Resize(e.triangles[i].p2, s)
      && SameAttributes(r.triangles[i], e.triangles[i])
  {
    e.(scale := s, triangles := ResizeTriangles(e.triangles, s, Zero))
  }

  /** `set_position`: stores `p` and shifts every vertex by `p`. The shift
      is relative to the current vertices, not to the stored position. */
  function SetPosition(e: Entity, p: Vec3): (r: Entity)
    ensures r.position == p && r.rotation == e.rotation && r.scale == e.scale && r.surface == e.surface
    ensures r.triangles == TranslateTriangles(e.triangles, p)
  {
    e.(position := p, triangles := TranslateTriangles(e.triangles, p))
  }

  /** `set_rotation`: stores `R`, then moves the stored position to the
      origin, rotates vertices and vertex normals about the origin, and
      moves back. */
  function SetRotation(e: Entity, r: Mat3): (res: Entity)
    ensures res.rotation == r && res.position == e.position && res.scale == e.scale && res.surface == e.surface
    ensures |res.triangles| == |e.triangles|
  {
    var moved := TranslateTriangles(e.triangles, Neg(e.position));
    var turned := RotateTriangles(moved, r, Zero);
    e.(rotation := r, triangles := TranslateTriangles(turned, e.position))
  }

  /** `set_pose`: `set_position`, then `set_rotation`. */
  function SetPose(e: Entity, p: Vec3, r: Mat3): (res: Entity)
    ensures res.position == p && res.rotation == r && res.scale == e.scale && res.surface == e.surface
    ensures |res.triangles| == |e.triangles|
  {
    SetRotation(SetPosition(e, p), r)
  }

  // ---------------------------------------------------------------------
  // Lemmas

  lemma {:induction false} FileNameWithoutSlash(name: string)
    requires '/' !in name
    ensures FileName(name) == name
  {
    if name != [] {
      FileNameWithoutSlash(name[..|name| - 1]);
    }
  }

  lemma {:induction false} FileNameAfterSlash(dir: string, name: string)
    requires '/' !in name
    ensures FileName(dir + "/" + name) == name
  {
    if name == [] {
    } else {
      var init := name[..|name| - 1];
      assert (dir + "/" + name)[..|dir + "/" + name| - 1] == dir + "/" + init;
      FileNameAfterSlash(dir, init);
    }
  }

  lemma {:induction false} LastDotOf(stem: string, ext: string)
    requires '.' !in ext
    ensures LastDot(stem + "." + ext) == Some(|stem|)
  {
    if ext == [] {
    } else {
      var init := ext[..|ext| - 1];
      assert (stem + "." + ext)[..|stem + "." + ext| - 1] == stem + "." + init;
      LastDotOf(stem, init);
    }
  }

  /** The extension of a file name with a dot after a non-empty stem is
      everything from its last dot on, whatever the directory. */
  lemma ExtensionAfterDot(dir: string, stem: string, ext: string)
    requires '/' !in stem && '/' !in ext && '.' !in ext && stem != []
    requires stem + "." + ext != ".."
    ensures Extension(dir + "/" + stem + "." + ext) == "." + ext
  {
    var name := stem + "." + ext;
    assert FileName(dir + "/" + stem + "." + ext) == name by {
      assert '/' !in name;
      assert dir + "/" + stem + "." + ext == dir + "/" + name;
      FileNameAfterSlash(dir, name);
    }
    NameExtensionAfterDot(stem, ext);
  }

  lemma NameExtensionAfterDot(stem: string, ext: string)
    requires '.' !in ext && stem != [] && stem + "." + ext != ".."
    ensures NameExtension(stem + "." + ext) == "." + ext
  {
    var name := stem + "." + ext;
    LastDotOf(stem, ext);
    assert name != "." by {
      assert |name| >= 2;
    }
    assert name[|stem|..] == "." + ext;
  }

  /** Such a file is read as a mesh exactly when its extension, in lower
      case, is `obj`: the test ignores letter case. */
  lemma ObjPathByExtension(dir: string, stem: string, ext: string)
    requires '/' !in stem && '/' !in ext && '.' !in ext && stem != []
    requires stem + "." + ext != ".."
    ensures IsObjPath(dir + "/" + stem + "." + ext) <==> ToLower(ext) == "obj"
  {
    ExtensionAfterDot(dir, stem, ext);
    LowerDotted(ext);
  }

  lemma LowerDotted(ext: string)
    ensures ToLower("." + ext) == ".obj" <==> ToLower(ext) == "obj"
  {
    var low := ToLower("." + ext);
    assert low == "." + ToLower(ext) by {
      assert forall i :: 0 <= i < |ext| ==> ("." + ext)[i + 1] == ext[i];
    }
    assert ".obj" == "." + "obj";
    assert low[1..] == ToLower(ext);
  }

  /** A file whose only dot comes first (a hidden file such as `.obj`) has
      no extension and is never read as a mesh. */
  lemma HiddenFileRefused(dir: string, ext: string)
    requires '/' !in ext && '.' !in ext
    ensures Extension(dir + "/." + ext) == ""
    ensures !IsObjPath(dir + "/." + ext)
  {
    var name := "." + ext;
    assert FileName(dir + "/." + ext) == name by {
      assert dir + "/." + ext == dir + "/" + name;
      FileNameAfterSlash(dir, name);
    }
    assert NameExtension(name) == "" by {
      LastDotOf("", ext);
      assert "" + "." + ext == name;
    }
  }

  /** Capital letters in the extension are lowered before the test, so
      `Bennu.OBJ` is read as a mesh. */
  lemma UpperCaseObj()
    ensures ToLower("OBJ") == "obj"
  {
    var low := ToLower("OBJ");
    assert low[0] == 'o' && low[1] == 'b' && low[2] == 'j';
  }

  /** With the single material and the constant map of index 0, every
      (u, v) selects the entity's colour. */
  lemma NewEntityMaterial(path: string, smooth: bool, color: Vec3, load: Loader, unset: Placement, u: real, v: real)
    ensures GetMaterial(NewEntity(path, smooth, color, load, unset), u, v) == Some(ColoredLambertian(color))
  {
  }

  /** Every stored triangle of a new entity points back to it. */
  lemma NewEntityParents(path: string, smooth: bool, color: Vec3, load: Loader, unset: Placement)
    ensures var e := NewEntity(path, smooth, color, load, unset);
            forall i :: 0 <= i < |e.triangles| ==> e.triangles[i].parent == Some(e.surface)
  {
  }

  /** Two `set_position` calls shift the vertices by the sum of their
      arguments, while only the last argument is stored. */
  lemma {:induction false} SetPositionTwice(e: Entity, p: Vec3, q: Vec3)
    ensures SetPosition(SetPosition(e, p), q).triangles == SetPosition(e, Add(p, q)).triangles
    ensures SetPosition(SetPosition(e, p), q).position == q
  {
    TranslateTrianglesTwice(e.triangles, p, q);
  }

  /** `set_rotation` is a rotation of the vertices about the stored
      position; in particular a vertex at the stored position stays. */
  lemma {:induction false} SetRotationAboutPosition(e: Entity, r: Mat3)
    ensures SetRotation(e, r).triangles == RotateTriangles(e.triangles, r, e.position)
  {
    var a := SetRotation(e, r).triangles;
    var b := RotateTriangles(e.triangles, r, e.position);
    forall i | 0 <= i < |e.triangles|
      ensures a[i] == b[i]
    {
    }
  }

  /** After `set_scale(s)`, `set_position(p)` and `set_rotation(R)` (the
      configuration loader's order) every vertex is `transform(v, R, p, s)`
      of its mesh coordinates and every normal is rotated by `R`. */
  lemma {:induction false} ScalePositionRotation(e: Entity, s: real, p: Vec3, r: Mat3, i: nat)
    requires i < |e.triangles|
    ensures var t := SetRotation(SetPosition(SetScale(e, s), p), r).triangles[i];
            && t.p0 == TransformPoint(e.triangles[i].p0, r, p, s)
            && t.p1 == TransformPoint(e.triangles[i].p1, r, p, s)
            && t.p2 == TransformPoint(e.triangles[i].p2, r, p, s)
            && t.vn0 == Rotate(e.triangles[i].vn0, r)
            && t.vn1 == Rotate(e.triangles[i].vn1, r)
            && t.vn2 == Rotate(e.triangles[i].vn2, r)
            && SameSurfaceData(t, e.triangles[i])
  {
    var e3 := SetRotation(SetPosition(SetScale(e, s), p), r);
    SetRotationAboutPosition(SetPosition(SetScale(e, s), p), r);
    var t0 := e.triangles[i];
    RotateAfterShift(t0.p0, s, p, r);
    RotateAfterShift(t0.p1, s, p, r);
    RotateAfterShift(t0.p2, s, p, r);
  }

  lemma RotateAfterShift(v: Vec3, s: real, p: Vec3, r: Mat3)
    ensures RotateAbout(Translate(ResizeAbout(v, s, Zero), p), r, p) == TransformPoint(v, r, p, s)
  {
  }

  /** `set_pose(p, R)` places the mesh at `R v + p`, whatever the entity's
      earlier position was. */
  lemma {:induction false} SetPosePlacesMesh(e: Entity, p: Vec3, r: Mat3, i: nat)
    requires i < |e.triangles|
    ensures SetPose(e, p, r).triangles[i].p0 == TransformPoint(e.triangles[i].p0, r, p, 1.0)
    ensures SetPose(e, p, r).triangles[i].p1 == TransformPoint(e.triangles[i].p1, r, p, 1.0)
    ensures SetPose(e, p, r).triangles[i].p2 == TransformPoint(e.triangles[i].p2, r, p, 1.0)
  {
    SetRotationAboutPosition(SetPosition(e, p), r);
  }
}
