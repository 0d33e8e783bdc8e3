/** `SceneConfig`: a scene read from an INI file. Settings come with
    defaults; list values such as `[1920, 1080]` are read piece by piece
    into fixed-size arrays; the camera, the first light section and the
    first model section are built from their keys. */
module Config {
  import opened Wrappers
  import opened LinAlg
  import opened Text
  import opened Cameras
  import opened Lighting
  import opened Entities
  import opened Transform
  import opened Integrator

  /** An INI file as the reader presents it: the value of every key of
      every section, and the section names in the order the reader lists
      them. */
  datatype Ini = Ini(values: map<(string, string), string>, sections: seq<string>)

  /** `Get(section, key, default)`. */
  function Get(ini: Ini, section: string, key: string, default: string): string {
    if (section, key) in ini.values then ini.values[(section, key)] else default
  }

  /** The reader's conversions of a value to an integer, a real and a
      boolean; `None` when the text does not convert. Their rules belong
      to the reader and are not part of this model. */
  datatype Parsers = Parsers(toInteger: string -> Option<int>, toReal: string -> Option<real>, toBoolean: string -> Option<bool>)

  /** `GetInteger`/`GetReal`/`GetBoolean`: the converted value, or the
      default when the key is missing or its value does not convert. */
  function Typed<T>(ini: Ini, parse: string -> Option<T>, section: string, key: string, default: T): (v: T)
    ensures (section, key) !in ini.values ==> v == default
  {
    if (section, key) in ini.values then parse(ini.values[(section, key)]).GetOr(default) else default
  }

  /** The conversions from Euler angles (with their axis sequence) and from
      a quaternion to a rotation matrix. They are not part of this model. */
  datatype Rotations = Rotations(fromEuler: (seq<real>, string) -> Mat3, fromQuaternion: seq<real> -> Mat3)

  /** What stops loading: `std::stod` throwing on a piece that starts with
      no number, a list with more values than its array holds (a write past
      the array's end), or a zero sensor dimension (a division by zero in
      the camera). */
  datatype Fault = NotANumber(piece: string) | TooManyValues(key: string) | ZeroSensor

  /** The contents of storage the loaders read before writing it: the
      two- and three-element arrays, the pose and last sample the light
      constructors leave alone, and the placement the entity constructor
      leaves alone. */
  datatype Unset = Unset(pair: Vec2, triple: Vec3, pose: Pose, sample: Vec3, placement: Placement)

  /** The text `substr(find("[") + 1, find("]") - cut)` takes: from after
      the first `[` (from the start when there is none, `npos + 1` being 0)
      for as many characters as the position of the first `]` less `cut`
      (to the end when there is no `]`, or when `0 - 1` wraps round). */
  function Bracketed(s: string, cut: nat): (b: string)
    requires cut <= 1
    ensures |b| <= |s|
    ensures '[' !in s && ']' !in s ==> b == s
  {
    var open := match Find(s, '[') case None => 0 case Some(i) => i + 1;
    match Find(s, ']')
    case None => s[open..]
    case Some(j) =>
      if j < cut then s[open..]
      else
        var end := if open + (j - cut) < |s| then open + (j - cut) else |s|;
        s[open..end]
  }

  /** The reading loop from piece `k` on: piece `k` read by `std::stod`
      (which throws when it starts with no number), then written to entry
      `k`, a write past the array's end when `k` is not below its size. */
  function ReadList(key: string, pieces: seq<string>, into: seq<real>, k: nat): (r: Result<seq<real>, Fault>)
    requires k <= |pieces|
    ensures r.Ok? <==> |pieces| <= |into| && forall j :: k <= j < |pieces| ==> LeadingNumber(pieces[j]).Some?
    ensures r.Ok? ==> |r.value| == |into|
    ensures r.Ok? ==> forall j :: k <= j < |pieces| ==> LeadingNumber(pieces[j]) == Some(r.value[j])
    ensures r.Ok? ==> forall j :: 0 <= j < |into| && !(k <= j < |pieces|) ==> r.value[j] == into[j]
    decreases |pieces| - k
  {
    if k == |pieces| then
      if |pieces| <= |into| then Ok(into) else Err(TooManyValues(key))
    else match LeadingNumber(pieces[k])
      case None => Err(NotANumber(pieces[k]))
      case Some(x) =>
        if |into| <= k then Err(TooManyValues(key))
        else ReadList(key, pieces, into[k := x], k + 1)
  }

  /** The pieces of a list value: whitespace removed, the bracketed part
      split at commas. */
  function Pieces(text: string, cut: nat): seq<string>
    requires cut <= 1
  {
    Split(Bracketed(StripSpace(text), cut), ',')
  }

  /** A list value read into an array holding `into`: piece `k` is read by
      `std::stod` and written to entry `k`; entries past the last piece keep
      their contents. */
  function ParseList(key: string, text: string, into: seq<real>, cut: nat): (r: Result<seq<real>, Fault>)
    requires cut <= 1
    ensures r.Ok? <==> |Pieces(text, cut)| <= |into| && forall k :: 0 <= k < |Pieces(text, cut)| ==> LeadingNumber(Pieces(text, cut)[k]).Some?
    ensures r.Ok? ==> |r.value| == |into|
    ensures r.Ok? ==> forall k :: 0 <= k < |Pieces(text, cut)| ==> LeadingNumber(Pieces(text, cut)[k]) == Some(r.value[k])
    ensures r.Ok? ==> forall k :: |Pieces(text, cut)| <= k < |into| ==> r.value[k] == into[k]
  {
    ReadList(key, Pieces(text, cut), into, 0)
  }

  function Pair(s: seq<real>): Vec2
    requires |s| == 2
  {
    Vec2(s[0], s[1])
  }

  function Triple(s: seq<real>): Vec3
    requires |s| == 3
  {
    Vec3(s[0], s[1], s[2])
  }

  /** A two-entry list (`resolution`, `sensor_size`, `size`). */
  function GetPair(ini: Ini, section: string, key: string, default: string, current: Vec2): (r: Result<Vec2, Fault>)
    ensures r.Ok? <==> ParseList(key, Get(ini, section, key, default), [current.x, current.y], 0).Ok?
    ensures r.Ok? ==> ParseList(key, Get(ini, section, key, default), [current.x, current.y], 0).Ok? && [r.value.x, r.value.y] == ParseList(key, Get(ini, section, key, default), [current.x, current.y], 0).value
  {
    var s :- ParseList(key, Get(ini, section, key, default), [current.x, current.y], 0);
    Ok(Pair(s))
  }

  /** A three-entry list (`position`, `color`). */
  function GetTriple(ini: Ini, section: string, key: string, default: string, current: Vec3): (r: Result<Vec3, Fault>)
    ensures r.Ok? <==> ParseList(key, Get(ini, section, key, default), [current.x, current.y, current.z], 0).Ok?
    ensures r.Ok? ==> ParseList(key, Get(ini, section, key, default), [current.x, current.y, current.z], 0).Ok? && [r.value.x, r.value.y, r.value.z] == ParseList(key, Get(ini, section, key, default), [current.x, current.y, current.z], 0).value
  {
    var s :- ParseList(key, Get(ini, section, key, default), [current.x, current.y, current.z], 0);
    Ok(Triple(s))
  }

  /** `get_position`: default `[0,0,0]`. */
  function GetPosition(ini: Ini, section: string, current: Vec3): Result<Vec3, Fault> {
    GetTriple(ini, section, "position", "[0,0,0]", current)
  }

  /** `get_rotation`. The quaternion list is read (and can fail) but its
      values are then replaced by `(0, 0, 0, 1)`. When an `euler_angles`
      value other than the text `UNKNOWN` is present, the angles and the
      axis sequence (default `321`) give the rotation; otherwise the
      replaced quaternion does. */
  function GetRotation(ini: Ini, rots: Rotations, section: string, current: Vec3): (r: Result<Mat3, Fault>)
    ensures r.Ok? ==> ParseList("quaternion", Get(ini, section, "quaternion", "[0,0,0,1]"), [0.0, 0.0, 0.0, 0.0], 1).Ok?
    ensures r.Ok? && Get(ini, section, "euler_angles", "UNKNOWN") == "UNKNOWN" ==>
      r.value == rots.fromQuaternion([0.0, 0.0, 0.0, 1.0])
    ensures r.Ok? && Get(ini, section, "euler_angles", "UNKNOWN") != "UNKNOWN" ==>
      var angles := ParseList("euler_angles", Get(ini, section, "euler_angles", "UNKNOWN"), [current.x, current.y, current.z], 0);
      angles.Ok? && r.value == rots.fromEuler(angles.value, Get(ini, section, "euler_sequence", "321"))
  {
    var _ :- ParseList("quaternion", Get(ini, section, "quaternion", "[0,0,0,1]"), [0.0, 0.0, 0.0, 0.0], 1);
    var euler := Get(ini, section, "euler_angles", "UNKNOWN");
    if euler != "UNKNOWN" then
      var sequence := Get(ini, section, "euler_sequence", "321");
      var angles :- ParseList("euler_angles", euler, [current.x, current.y, current.z], 0);
      Ok(rots.fromEuler(angles, sequence))
    else
      Ok(rots.fromQuaternion([0.0, 0.0, 0.0, 1.0]))
  }

  /** `load_camera`: the lists are read whatever the camera type; a type
      other than `PinholeCamera` then gives no camera. */
  function LoadCamera(ini: Ini, p: Parsers, rots: Rotations, u: Unset): (r: Result<Option<Camera>, Fault>)
    ensures r.Ok? ==>
      && GetPair(ini, "camera", "resolution", "UNKNOWN", u.pair).Ok?
      && GetPair(ini, "camera", "sensor_size", "UNKNOWN", u.pair).Ok?
      && GetPosition(ini, "camera", u.triple).Ok? && GetRotation(ini, rots, "camera", u.triple).Ok?
    ensures r.Ok? && r.value.Some? ==>
      && Get(ini, "camera", "type", "PinholeCamera") == "PinholeCamera"
      && GetPair(ini, "camera", "resolution", "UNKNOWN", u.pair).Ok?
      && GetPair(ini, "camera", "sensor_size", "UNKNOWN", u.pair).Ok?
      && GetPosition(ini, "camera", u.triple).Ok? && GetRotation(ini, rots, "camera", u.triple).Ok?
      && r.value.value.focalLength == Typed(ini, p.toReal, "camera", "focal_length", 0.0)
      && r.value.value.resolution == GetPair(ini, "camera", "resolution", "UNKNOWN", u.pair).value
      && r.value.value.sensorSize == GetPair(ini, "camera", "sensor_size", "UNKNOWN", u.pair).value
      && r.value.value.position == GetPosition(ini, "camera", u.triple).value
      && r.value.value.rotation == GetRotation(ini, rots, "camera", u.triple).value
    ensures r.Ok? && r.value.Some? ==>
      var made := NewPinhole(Typed(ini, p.toReal, "camera", "focal_length", 0.0),
                             GetPair(ini, "camera", "resolution", "UNKNOWN", u.pair).value,
                             GetPair(ini, "camera", "sensor_size", "UNKNOWN", u.pair).value);
      made.Some? && SameIntrinsics(r.value.value, made.value)
    ensures r.Ok? && r.value.None? <==> r.Ok? && Get(ini, "camera", "type", "PinholeCamera") != "PinholeCamera"
  {
    var name := Get(ini, "camera", "type", "PinholeCamera");
    var f := Typed(ini, p.toReal, "camera", "focal_length", 0.0);
    var resolution :- GetPair(ini, "camera", "resolution", "UNKNOWN", u.pair);
    var sensor :- GetPair(ini, "camera", "sensor_size", "UNKNOWN", u.pair);
    var position :- GetPosition(ini, "camera", u.triple);
    var rotation :- GetRotation(ini, rots, "camera", u.triple);
    if name == "PinholeCamera" then
      match NewPinhole(f, resolution, sensor)
      case None => Err(ZeroSensor)
      case Some(c) => Ok(Some(Cameras.SetPose(c, position, rotation)))
    else Ok(None)
  }

  /** A found item, or the fault that stopped building it. */
  function Found<T>(r: Result<T, Fault>): Result<Option<T>, Fault> {
    match r
    case Ok(x) => Ok(Some(x))
    case Err(e) => Err(e)
  }

  /** The position of the first section `wanted` holds for. */
  function FirstWanted(secs: seq<string>, wanted: string -> bool): (i: Option<nat>)
    ensures i.None? <==> forall k :: 0 <= k < |secs| ==> !wanted(secs[k])
    ensures i.Some? ==> i.value < |secs| && wanted(secs[i.value]) && forall m :: 0 <= m < i.value ==> !wanted(secs[m])
  {
    if secs == [] then None
    else if wanted(secs[0]) then Some(0)
    else match FirstWanted(secs[1..], wanted)
      case None => None
      case Some(i) => Some(i + 1)
  }

  /** The loop of `load_light` and `load_entity` over the sections: the
      item built from the first wanted section, later sections never looked
      at, no item when no section is wanted. */
  function FirstOf<T>(secs: seq<string>, wanted: string -> bool, build: string --> Result<T, Fault>): (r: Result<Option<T>, Fault>)
    requires forall s :: wanted(s) ==> build.requires(s)
    ensures (forall k :: 0 <= k < |secs| ==> !wanted(secs[k])) ==> r == Ok(None)
    ensures forall k :: 0 <= k < |secs| && wanted(secs[k]) && (forall m :: 0 <= m < k ==> !wanted(secs[m])) ==>
      r == Found(build(secs[k]))
  {
    match FirstWanted(secs, wanted)
    case None => Ok(None)
    case Some(i) => Found(build(secs[i]))
  }

  /** A section `load_light` builds a light from: a name starting with
      `lgt` and a type it knows. */
  predicate IsLightSection(ini: Ini, s: string) {
    HasPrefix(s, "lgt") && (Get(ini, s, "type", "UNKNOWN") == "PointLight" || Get(ini, s, "type", "UNKNOWN") == "SquareLight")
  }

  /** The light of one section: a point light gets a position and an
      intensity (default 1); a square light also a size (default `[1,1]`)
      and a rotation. */
  function LightFrom(ini: Ini, p: Parsers, rots: Rotations, s: string, u: Unset): (r: Result<Light, Fault>)
    requires IsLightSection(ini, s)
    ensures r.Ok? ==> r.value.intensity == Typed(ini, p.toReal, s, "intensity", 1.0)
    ensures r.Ok? ==> GetPosition(ini, s, u.triple).Ok? && r.value.position == GetPosition(ini, s, u.triple).value
    ensures r.Ok? ==> (r.value.PointLight? <==> Get(ini, s, "type", "UNKNOWN") == "PointLight")
    ensures r.Ok? && r.value.SquareLight? ==>
      && GetPair(ini, s, "size", "[1,1]", u.pair).Ok?
      && r.value.size == GetPair(ini, s, "size", "[1,1]", u.pair).value
      && GetRotation(ini, rots, s, u.triple).Ok?
      && r.value.rotation == GetRotation(ini, rots, s, u.triple).value
  {
    if Get(ini, s, "type", "UNKNOWN") == "PointLight" then
      var position :- GetPosition(ini, s, u.triple);
      var intensity := Typed(ini, p.toReal, s, "intensity", 1.0);
      Ok(Lighting.SetPosition(NewPointLight(intensity, u.pose), position))
    else
      var intensity := Typed(ini, p.toReal, s, "intensity", 1.0);
      var size :- GetPair(ini, s, "size", "[1,1]", u.pair);
      var position :- GetPosition(ini, s, u.triple);
      var rotation :- GetRotation(ini, rots, s, u.triple);
      Ok(Lighting.SetRotation(Lighting.SetPosition(NewSquareLight(size, intensity, u.pose, u.sample), position), rotation))
  }

  /** `load_light` over the sections from `secs` on: the light of the first
      light section, other sections skipped, no light when there is none. */
  function LoadLightFrom(ini: Ini, p: Parsers, rots: Rotations, secs: seq<string>, u: Unset): (r: Result<Option<Light>, Fault>)
    ensures (forall k :: 0 <= k < |secs| ==> !IsLightSection(ini, secs[k])) ==> r == Ok(None)
    ensures forall k :: 0 <= k < |secs| && IsLightSection(ini, secs[k]) && (forall m :: 0 <= m < k ==> !IsLightSection(ini, secs[m])) ==>
      r == Found(LightFrom(ini, p, rots, secs[k], u))
  {
    FirstOf(secs, s => IsLightSection(ini, s), s requires IsLightSection(ini, s) => LightFrom(ini, p, rots, s, u))
  }

  /** A section `load_entity` builds an entity from: a name starting with
      `obj`. */
  predicate IsEntitySection(s: string) {
    HasPrefix(s, "obj")
  }

  /** The entity of one section: the model at `path`, smooth shading unless
      turned off, scale (default 1), position, rotation and a colour that
      has no default. The setters run in the order scale, position,
      rotation. */
  function EntityFrom(ini: Ini, p: Parsers, rots: Rotations, load: Loader, s: string, u: Unset): (r: Result<Entity, Fault>)
    ensures r.Ok? ==>
      && GetTriple(ini, s, "color", "UNKNOWN", u.triple).Ok?
      && GetPosition(ini, s, u.triple).Ok?
      && GetRotation(ini, rots, s, u.triple).Ok?
    ensures r.Ok? && GetTriple(ini, s, "color", "UNKNOWN", u.triple).Ok? && GetPosition(ini, s, u.triple).Ok? && GetRotation(ini, rots, s, u.triple).Ok? ==>
      var made := NewEntity(Get(ini, s, "path", "UNKNOWN"), Typed(ini, p.toBoolean, s, "smooth", true),
                             GetTriple(ini, s, "color", "UNKNOWN", u.triple).value, load, u.placement);
      && r.value.surface == made.surface
      && r.value.scale == Typed(ini, p.toReal, s, "scale", 1.0)
      && r.value.position == GetPosition(ini, s, u.triple).value
      && r.value.rotation == GetRotation(ini, rots, s, u.triple).value
      && |r.value.triangles| == |made.triangles|
      && forall i :: 0 <= i < |made.triangles| ==>
           var t := r.value.triangles[i];
           && t.p0 == TransformPoint(made.triangles[i].p0, r.value.rotation, r.value.position, r.value.scale)
           && t.p1 == TransformPoint(made.triangles[i].p1, r.value.rotation, r.value.position, r.value.scale)
           && t.p2 == TransformPoint(made.triangles[i].p2, r.value.rotation, r.value.position, r.value.scale)
  {
    var path := Get(ini, s, "path", "UNKNOWN");
    var smooth := Typed(ini, p.toBoolean, s, "smooth", true);
    var scale := Typed(ini, p.toReal, s, "scale", 1.0);
    var position :- GetPosition(ini, s, u.triple);
    var rotation :- GetRotation(ini, rots, s, u.triple);
    var color :- GetTriple(ini, s, "color", "UNKNOWN", u.triple);
    var e := NewEntity(path, smooth, color, load, u.placement);
    var placed := Entities.SetRotation(Entities.SetPosition(Entities.SetScale(e, scale), position), rotation);
    assert forall i :: 0 <= i < |e.triangles| ==>
      && placed.triangles[i].p0 == TransformPoint(e.triangles[i].p0, rotation, position, scale)
      && placed.triangles[i].p1 == TransformPoint(e.triangles[i].p1, rotation, position, scale)
      && placed.triangles[i].p2 == TransformPoint(e.triangles[i].p2, rotation, position, scale)
    by {
      forall i | 0 <= i < |e.triangles| {
        ScalePositionRotation(e, scale, position, rotation, i);
      }
    }
    Ok(placed)
  }

  /** `load_entity` over the sections from `secs` on: the entity of the
      first model section, none when there is none. */
  function LoadEntityFrom(ini: Ini, p: Parsers, rots: Rotations, load: Loader, secs: seq<string>, u: Unset): (r: Result<Option<Entity>, Fault>)
    ensures (forall k :: 0 <= k < |secs| ==> !IsEntitySection(secs[k])) ==> r == Ok(None)
    ensures forall k :: 0 <= k < |secs| && IsEntitySection(secs[k]) && (forall m :: 0 <= m < k ==> !IsEntitySection(secs[m])) ==>
      r == Found(EntityFrom(ini, p, rots, load, secs[k], u))
  {
    FirstOf(secs, IsEntitySection, s => EntityFrom(ini, p, rots, load, s, u))
  }

  /** A loaded configuration. */
  datatype SceneConfig = SceneConfig(output: string, knobs: Knobs, camera: Option<Camera>, light: Option<Light>, entity: Option<Entity>)

  /** The `SceneConfig` constructor: the settings with their defaults
      (output `render.png`, one sample at most and at least, noise threshold
      0, one bounce), then the camera, the light and the entity. */
  function LoadConfig(ini: Ini, p: Parsers, rots: Rotations, load: Loader, u: Unset): (r: Result<SceneConfig, Fault>)
    ensures r.Ok? <==>
      && LoadCamera(ini, p, rots, u).Ok?
      && LoadLightFrom(ini, p, rots, ini.sections, u).Ok?
      && LoadEntityFrom(ini, p, rots, load, ini.sections, u).Ok?
    ensures r.Ok? ==>
      && LoadCamera(ini, p, rots, u).Ok?
      && LoadLightFrom(ini, p, rots, ini.sections, u).Ok?
      && LoadEntityFrom(ini, p, rots, load, ini.sections, u).Ok?
      && r.value.camera == LoadCamera(ini, p, rots, u).value
      && r.value.light == LoadLightFrom(ini, p, rots, ini.sections, u).value
      && r.value.entity == LoadEntityFrom(ini, p, rots, load, ini.sections, u).value
    ensures r.Ok? ==>
      && r.value.output == Get(ini, "settings", "output", "render.png")
      && r.value.knobs.maxSamples == Typed(ini, p.toInteger, "settings", "max_samples", 1)
      && r.value.knobs.minSamples == Typed(ini, p.toInteger, "settings", "min_samples", 1)
      && r.value.knobs.noiseThreshold == Typed(ini, p.toReal, "settings", "noise_threshold", 0.0)
      && r.value.knobs.numBounces == Typed(ini, p.toInteger, "settings", "num_bounces", 1)
  {
    var output := Get(ini, "settings", "output", "render.png");
    var maxSamples := Typed(ini, p.toInteger, "settings", "max_samples", 1);
    var minSamples := Typed(ini, p.toInteger, "settings", "min_samples", 1);
    var noise := Typed(ini, p.toReal, "settings", "noise_threshold", 0.0);
    var bounces := Typed(ini, p.toInteger, "settings", "num_bounces", 1);
    var camera :- LoadCamera(ini, p, rots, u);
    var light :- LoadLightFrom(ini, p, rots, ini.sections, u);
    var entity :- LoadEntityFrom(ini, p, rots, load, ini.sections, u);
    Ok(SceneConfig(output, Knobs(minSamples, maxSamples, noise, bounces), camera, light, entity))
  }

  // ---------------------------------------------------------------------
  // Lemmas

  /** The decimal renderings of a list of naturals. */
  function Decimals(ns: seq<nat>): (ds: seq<string>)
    ensures |ds| == |ns| && forall k :: 0 <= k < |ns| ==> ds[k] == Decimal(ns[k])
  {
    seq(|ns|, k requires 0 <= k < |ns| => Decimal(ns[k]))
  }

  function Reals(ns: seq<nat>): (rs: seq<real>)
    ensures |rs| == |ns| && forall k :: 0 <= k < |ns| ==> rs[k] == ns[k] as real
  {
    seq(|ns|, k requires 0 <= k < |ns| => ns[k] as real)
  }

  /** A list written as `[n0,n1,...]` with decimal naturals, no more of them
      than the array holds, is read back exactly, the entries past it
      keeping their contents. */
  lemma {:induction false} ListRoundTrip(key: string, ns: seq<nat>, into: seq<real>)
    requires 0 < |ns| <= |into|
    ensures ParseList(key, "[" + Join(Decimals(ns), ',') + "]", into, 0) == Ok(Reals(ns) + into[|ns|..])
  {
    var text := "[" + Join(Decimals(ns), ',') + "]";
    ListPieces(ns);
    ListPiecesRead(ns);
    ReadAll(key, ClosedPieces(ns), into, Reals(ns));
  }

  /** The pieces of `[n0,...,nk]` with the closing bracket kept: every
      decimal, the last one followed by `]`. */
  function ClosedPieces(ns: seq<nat>): seq<string>
    requires 0 < |ns|
  {
    Decimals(ns)[..|ns| - 1] + [Decimals(ns)[|ns| - 1] + "]"]
  }

  lemma {:induction false} ListPieces(ns: seq<nat>)
    requires 0 < |ns|
    ensures Pieces("[" + Join(Decimals(ns), ',') + "]", 0) == ClosedPieces(ns)
  {
    var n := |ns|;
    var body := Join(Decimals(ns), ',');
    var text := "[" + body + "]";
    var pieces := ClosedPieces(ns);
    JoinOfDigits(ns);
    BracketedWhole(body);
    JoinAppendLast(Decimals(ns), "]");
    assert forall k :: 0 <= k < n ==> ',' !in pieces[k] by {
      forall k | 0 <= k < n
        ensures ',' !in pieces[k]
      {
        if k == n - 1 {
          assert pieces[k] == Decimal(ns[k]) + "]";
        } else {
          assert pieces[k] == Decimal(ns[k]);
        }
      }
    }
    SplitJoin(pieces, ',');
    calc {
      Pieces(text, 0);
      Split(Bracketed(text, 0), ',');
      Split(body + "]", ',');
      Split(Join(pieces, ','), ',');
      pieces;
    }
  }

  lemma {:induction false} ListPiecesRead(ns: seq<nat>)
    requires 0 < |ns|
    ensures |ClosedPieces(ns)| == |ns|
    ensures forall k :: 0 <= k < |ns| ==> LeadingNumber(ClosedPieces(ns)[k]) == Some(Reals(ns)[k])
  {
    var n := |ns|;
    var pieces := ClosedPieces(ns);
    forall k | 0 <= k < n
      ensures LeadingNumber(pieces[k]) == Some(Reals(ns)[k])
    {
      if k == n - 1 {
        LeadingDecimal(ns[k], "]");
      } else {
        LeadingDecimal(ns[k], []);
        assert Decimal(ns[k]) + [] == pieces[k];
      }
    }
  }

  /** A bracketed text holding no brackets or whitespace of its own loses
      its brackets, or only the opening one when `cut` is 0. */
  lemma {:induction false} BracketedWhole(body: string)
    requires forall k :: 0 <= k < |body| ==> body[k] != '[' && body[k] != ']' && !IsSpace(body[k])
    ensures StripSpace("[" + body + "]") == "[" + body + "]"
    ensures Bracketed("[" + body + "]", 0) == body + "]"
    ensures Bracketed("[" + body + "]", 1) == body
  {
    var text := "[" + body + "]";
    assert StripSpace(text) == text by {
      assert forall k :: 0 < k < |text| - 1 ==> text[k] == body[k - 1];
      StripSpaceKeepsText(text);
    }
    assert Bracketed(text, 0) == body + "]" && Bracketed(text, 1) == body by {
      assert forall k :: 0 < k < |text| - 1 ==> text[k] == body[k - 1];
      BracketedCut(text);
      assert text[1..] == body + "]";
      assert text[1..|text| - 1] == body;
    }
  }

  /** A text that opens with `[`, closes with `]` and holds neither in
      between. */
  lemma BracketedCut(text: string)
    requires 2 <= |text| && text[0] == '[' && text[|text| - 1] == ']'
    requires forall k :: 0 < k < |text| - 1 ==> text[k] != '[' && text[k] != ']'
    ensures Bracketed(text, 0) == text[1..]
    ensures Bracketed(text, 1) == text[1..|text| - 1]
  {
    assert Find(text, '[') == Some(0);
    assert Find(text, ']') == Some(|text| - 1);
  }

  /** Pieces that all read as numbers, no more of them than the array
      holds, are written to its first entries. */
  lemma ReadAll(key: string, pieces: seq<string>, into: seq<real>, xs: seq<real>)
    requires |xs| == |pieces| <= |into|
    requires forall k :: 0 <= k < |xs| ==> LeadingNumber(pieces[k]) == Some(xs[k])
    ensures ReadList(key, pieces, into, 0) == Ok(xs + into[|xs|..])
  {
    var r := ReadList(key, pieces, into, 0);
    assert r.Ok?;
    forall k | 0 <= k < |into|
      ensures r.value[k] == (xs + into[|xs|..])[k]
    {
      if k < |xs| {
        assert LeadingNumber(pieces[k]) == Some(r.value[k]);
      }
    }
    assert r.value == xs + into[|xs|..];
  }

  /** Every character of comma-joined decimals is a digit or a comma. */
  lemma {:induction false} JoinOfDigits(ns: seq<nat>)
    ensures forall k :: 0 <= k < |Join(Decimals(ns), ',')| ==>
      IsDigit(Join(Decimals(ns), ',')[k]) || Join(Decimals(ns), ',')[k] == ','
  {
    if |ns| > 1 {
      JoinOfDigits(ns[1..]);
      assert Decimals(ns)[1..] == Decimals(ns[1..]);
      var head := Decimal(ns[0]);
      var rest := Join(Decimals(ns[1..]), ',');
      var s := Join(Decimals(ns), ',');
      assert s == head + [','] + rest;
      forall k | 0 <= k < |s|
        ensures IsDigit(s[k]) || s[k] == ','
      {
        if k > |head| {
          assert s[k] == rest[k - |head| - 1];
        }
      }
    }
  }

  /** Text appended to the last piece ends up at the end of the join. */
  lemma {:induction false} JoinAppendLast(ps: seq<string>, t: string)
    requires 0 < |ps|
    ensures Join(ps[..|ps| - 1] + [ps[|ps| - 1] + t], ',') == Join(ps, ',') + t
  {
    var qs := ps[..|ps| - 1] + [ps[|ps| - 1] + t];
    if |ps| > 1 {
      assert qs[1..] == ps[1..][..|ps| - 2] + [ps[1..][|ps| - 2] + t];
      JoinAppendLast(ps[1..], t);
    }
  }

  /** A missing list key whose default is the text `UNKNOWN` makes
      `std::stod` throw: the piece starts with a letter. */
  lemma MissingListFails(key: string, into: seq<real>)
    ensures ParseList(key, "UNKNOWN", into, 0).Err?
  {
    var text := "UNKNOWN";
    assert forall k :: 0 <= k < |text| ==> 'A' <= text[k] <= 'Z';
    NoLeadingNumber(text);
    PlainTextFails(key, text, into);
  }

  /** A value with no brackets, commas or whitespace is one piece; when it
      does not start with a number the read throws. */
  lemma {:induction false} PlainTextFails(key: string, text: string, into: seq<real>)
    requires forall k :: 0 <= k < |text| ==> 'A' <= text[k] <= 'Z'
    requires 0 < |text| && LeadingNumber(text).None?
    ensures ParseList(key, text, into, 0).Err?
  {
    StripSpaceKeepsText(text);
    assert '[' !in text && ']' !in text && ',' !in text;
    assert Bracketed(text, 0) == text;
    assert Split(text, ',') == [text];
  }

  /** A camera section without `resolution` or without `sensor_size` stops
      the load; so does a model section without `color`. */
  lemma MissingKeysFail(ini: Ini, p: Parsers, rots: Rotations, load: Loader, s: string, u: Unset)
    ensures ("camera", "resolution") !in ini.values ==> LoadCamera(ini, p, rots, u).Err?
    ensures ("camera", "sensor_size") !in ini.values ==> LoadCamera(ini, p, rots, u).Err?
    ensures (s, "color") !in ini.values ==> EntityFrom(ini, p, rots, load, s, u).Err?
  {
    MissingListFails("resolution", [u.pair.x, u.pair.y]);
    MissingListFails("sensor_size", [u.pair.x, u.pair.y]);
    MissingListFails("color", [u.triple.x, u.triple.y, u.triple.z]);
  }

  /** A file with no `settings` keys loads the default settings. */
  lemma SettingsDefaults(ini: Ini, p: Parsers, rots: Rotations, load: Loader, u: Unset)
    requires forall k :: ("settings", k) !in ini.values
    requires LoadConfig(ini, p, rots, load, u).Ok?
    ensures LoadConfig(ini, p, rots, load, u).value.output == "render.png"
    ensures LoadConfig(ini, p, rots, load, u).value.knobs == Knobs(1, 1, 0.0, 1)
  {
  }

  /** Without Euler angles the rotation is that of the quaternion
      `(0, 0, 0, 1)` whatever quaternion the file gives, as long as it
      reads. */
  lemma QuaternionIgnored(ini: Ini, ini': Ini, rots: Rotations, s: string, current: Vec3)
    requires (s, "euler_angles") !in ini.values && (s, "euler_angles") !in ini'.values
    requires GetRotation(ini, rots, s, current).Ok? && GetRotation(ini', rots, s, current).Ok?
    ensures GetRotation(ini, rots, s, current) == GetRotation(ini', rots, s, current)
  {
  }
}
