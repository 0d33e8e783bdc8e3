/** `Scene`: the camera, lights and entities collected before a render, the
    triangle list kept alongside the entities, the default render settings,
    and the 16-bit output of `Scene::render`. */
module Scenes {
  import opened Wrappers
  import opened LinAlg
  import opened Geometry
  import opened Cameras
  import opened Lighting
  import opened Entities
  import opened Integrator
  import opened Renderer

  /** The triangles of the entities, entity by entity, each in its own
      order: what appending every entity's triangles to an empty list
      gives. */
  function Flatten(es: seq<Entity>): (ts: seq<Triangle>)
    ensures es == [] ==> ts == []
  {
    if es == [] then [] else Flatten(es[..|es| - 1]) + es[|es| - 1].triangles
  }

  /** A scene. The camera is held by a pointer that is empty until
      `add_camera` is called. */
  datatype Scene = Scene(
    entities: seq<Entity>, triangles: seq<Triangle>,
    camera: Option<Camera>, lights: seq<Light>, knobs: Knobs)

  /** The default render settings: 25 samples at most, 3 at least, noise
      threshold 1e-5, 2 bounces. */
  const DefaultKnobs := Knobs(3, 25, 0.00001, 2)

  /** `Scene()`: nothing added yet, default settings. */
  function NewScene(): (sc: Scene)
    ensures sc.entities == [] && sc.triangles == [] && sc.lights == [] && sc.camera.None?
    ensures sc.knobs.maxSamples == 25 && sc.knobs.minSamples == 3
    ensures sc.knobs.noiseThreshold == 0.00001 && sc.knobs.numBounces == 2
  {
    Scene([], [], None, [], DefaultKnobs)
  }

  /** `add_camera`: the camera is replaced. */
  function AddCamera(sc: Scene, c: Camera): (r: Scene)
    ensures r.camera == Some(c)
    ensures r.entities == sc.entities && r.triangles == sc.triangles && r.lights == sc.lights && r.knobs == sc.knobs
  {
    sc.(camera := Some(c))
  }

  /** `add_light`: one light appended at the end. */
  function AddLight(sc: Scene, l: Light): (r: Scene)
    ensures |r.lights| == |sc.lights| + 1 && r.lights[..|sc.lights|] == sc.lights && r.lights[|sc.lights|] == l
    ensures r.entities == sc.entities && r.triangles == sc.triangles && r.camera == sc.camera && r.knobs == sc.knobs
  {
    sc.(lights := sc.lights + [l])
  }

  /** `add_entity`: the entity's triangles appended to the triangle list
      in their order, and the entity appended to the entity list. */
  function AddEntity(sc: Scene, e: Entity): (r: Scene)
    ensures |r.triangles| == |sc.triangles| + |e.triangles|
    ensures r.triangles[..|sc.triangles|] == sc.triangles && r.triangles[|sc.triangles|..] == e.triangles
    ensures |r.entities| == |sc.entities| + 1 && r.entities[..|sc.entities|] == sc.entities && r.entities[|sc.entities|] == e
    ensures r.lights == sc.lights && r.camera == sc.camera && r.knobs == sc.knobs
  {
    sc.(triangles := sc.triangles + e.triangles, entities := sc.entities + [e])
  }

  /** Adding the entities one after the other. */
  function AddEntities(sc: Scene, es: seq<Entity>): Scene {
    if es == [] then sc else AddEntity(AddEntities(sc, es[..|es| - 1]), es[|es| - 1])
  }

  /** The triangle list is the entities' triangles in order. */
  predicate Consistent(sc: Scene) {
    sc.triangles == Flatten(sc.entities)
  }

  /** One 16-bit output sample: the channel clamped to [0, 1] and scaled to
      the full range 65535. The scaled value is kept exact; its conversion
      to the image library's sample type is not part of this model. */
  function Quantum(x: real): (q: real)
    ensures 0.0 <= q <= 65535.0
    ensures 0.0 <= x <= 1.0 ==> q == 65535.0 * x
    ensures x <= 0.0 ==> q == 0.0
    ensures 1.0 <= x ==> q == 65535.0
  {
    Clamp(x, 0.0, 1.0) * 65535.0
  }

  /** The buffer the tracing step fills: slot values by index. The tracing
      step itself is not part of this model. */
  type Tracing = (Knobs, Camera, seq<Light>, seq<Triangle>) -> (nat -> real)

  /** `Scene::render`: three floats per pixel, every one written out as a
      16-bit sample. `None` when no camera was added (an empty pointer is
      dereferenced) or the image size is undefined. */
  function Render16(sc: Scene, trace: Tracing): (out: Option<seq<real>>)
    ensures out.Some? <==> sc.camera.Some? && ImageSize(sc.camera.value).Some?
    ensures out.Some? ==>
      var wh := ImageSize(sc.camera.value).value;
      var slots := trace(sc.knobs, sc.camera.value, sc.lights, sc.triangles);
      && |out.value| == 3 * wh.0 * wh.1
      && forall k :: 0 <= k < |out.value| ==> out.value[k] == Quantum(slots(k))
  {
    var c :- sc.camera;
    var wh :- ImageSize(c);
    var slots := trace(sc.knobs, c, sc.lights, sc.triangles);
    Some(seq(3 * wh.0 * wh.1, (k: nat) => Quantum(slots(k))))
  }

  // ---------------------------------------------------------------------
  // Lemmas

  /** Flattening one more entity appends its triangles. */
  lemma FlattenAppend(es: seq<Entity>, e: Entity)
    ensures Flatten(es + [e]) == Flatten(es) + e.triangles
  {
    assert (es + [e])[..|es|] == es;
  }

  /** A new scene is consistent, and each of the three `add_` operations
      keeps a scene consistent. */
  lemma {:induction false} OperationsKeepConsistent(sc: Scene, c: Camera, l: Light, e: Entity)
    ensures Consistent(NewScene())
    ensures Consistent(sc) ==> Consistent(AddCamera(sc, c)) && Consistent(AddLight(sc, l)) && Consistent(AddEntity(sc, e))
  {
    FlattenAppend(sc.entities, e);
  }

  /** Adding entities to a new scene leaves exactly those entities, their
      triangles in order, and no light or camera. */
  lemma {:induction false} AddEntitiesToNewScene(es: seq<Entity>)
    ensures AddEntities(NewScene(), es).entities == es
    ensures AddEntities(NewScene(), es).triangles == Flatten(es)
    ensures AddEntities(NewScene(), es).lights == [] && AddEntities(NewScene(), es).camera.None?
  {
    if es != [] {
      var init := es[..|es| - 1];
      AddEntitiesToNewScene(init);
      FlattenAppend(init, es[|es| - 1]);
      assert init + [es[|es| - 1]] == es;
    }
  }

  /** The triangles of entity `k` sit, in their order, right after those of
      the entities before it. */
  lemma {:induction false} FlattenPlacesEntity(es: seq<Entity>, k: nat, m: nat)
    requires k < |es| && m < |es[k].triangles|
    ensures |Flatten(es[..k])| + m < |Flatten(es)|
    ensures Flatten(es)[|Flatten(es[..k])| + m] == es[k].triangles[m]
  {
    var n := |es| - 1;
    var init := es[..n];
    if k == n {
      assert es[..k] == init;
    } else {
      assert init[..k] == es[..k];
      FlattenPlacesEntity(init, k, m);
    }
  }

  /** A 16-bit sample of a channel in [0, 1] gives the channel back when
      divided by 65535; darker channels never give brighter samples. */
  lemma QuantumInverse(x: real, y: real)
    ensures 0.0 <= x <= 1.0 ==> Quantum(x) / 65535.0 == x
    ensures x <= y ==> Quantum(x) <= Quantum(y)
  {
  }
}
