/** The two entry points that wrap a render: the single-light,
    single-entity `render` of `ceres_ray_tracer.hpp`, whose tracing step is
    a parameter here, and the setup the many-entity `render` of
    `ray_tracer.hpp` traces. */
module CeresRender {
  import opened Wrappers
  import opened LinAlg
  import opened UVMaps
  import opened Geometry
  import opened Cameras
  import opened Lighting
  import opened Entities
  import opened Integrator
  import opened Renderer
  import opened Scenes

  /** The render settings as passed in: the four self-assignments at the
      top of both `render` functions leave them as they are. */
  function Settings(minSamples: int, maxSamples: int, noiseThreshold: real, numBounces: int): (k: Knobs)
    ensures k.minSamples == minSamples && k.maxSamples == maxSamples
    ensures k.noiseThreshold == noiseThreshold && k.numBounces == numBounces
  {
    Knobs(minSamples, maxSamples, noiseThreshold, numBounces)
  }

  /** What the wrapper ingests: its one light, its one entity, and that
      entity's triangles, held as a scene. */
  function Ingest(c: Camera, l: Light, e: Entity, k: Knobs): (sc: Scene)
    ensures sc.lights == [l] && sc.entities == [e] && sc.triangles == e.triangles
    ensures sc.camera == Some(c) && sc.knobs == k
  {
    Scene([e], e.triangles, Some(c), [l], k)
  }

  /** `render` of `ceres_ray_tracer.hpp`: four floats per pixel filled by
      the tracing step, each turned into a byte by `Quantize`. `None` when
      the image size is undefined. */
  method Render(c: Camera, l: Light, e: Entity, minSamples: int, maxSamples: int, noiseThreshold: real, numBounces: int,
                trace: Tracing) returns (image: Option<seq<byte>>)
    ensures image.Some? <==> ImageSize(c).Some?
    ensures image.Some? ==>
      var slots := trace(Settings(minSamples, maxSamples, noiseThreshold, numBounces), c, [l], e.triangles);
      && |image.value| == 4 * ImageSize(c).value.0 * ImageSize(c).value.1
      && forall k :: 0 <= k < |image.value| ==> image.value[k] == Quantize(slots(k))
  {
    var sc := Ingest(c, l, e, Settings(minSamples, maxSamples, noiseThreshold, numBounces));
    var wh := ImageSize(c);
    if wh.None? {
      return None;
    }
    var w, h := wh.value.0, wh.value.1;
    var slots := trace(sc.knobs, c, sc.lights, sc.triangles);
    var pixels := seq(4 * w * h, (k: nat) => slots(k));
    var bytes := QuantizeImage(pixels, w, h);
    return Some(bytes);
  }

  /** The setup `render` of `ray_tracer.hpp` traces: the triangles of all
      entities gathered in order into one list. */
  function SetupFor(num: Numerics, tracer: Tracer, shader: Shader, draws: Draws,
                    c: Camera, lights: seq<Light>, es: seq<Entity>, k: Knobs): (st: Setup)
    ensures st.camera == c && st.lights == lights && st.knobs == k
    ensures |st.triangles| == |Flatten(es)|
  {
    Setup(num, tracer, shader, draws, Flatten(es), lights, c, k)
  }

  // ---------------------------------------------------------------------
  // Lemmas

  /** The wrapper's ingestion is the scene built by adding its camera, its
      one light and its one entity to a new scene. */
  lemma IngestIsSceneBuild(c: Camera, l: Light, e: Entity, k: Knobs)
    ensures Ingest(c, l, e, k) == AddEntity(AddLight(AddCamera(NewScene(), c), l), e).(knobs := k)
    ensures Consistent(Ingest(c, l, e, k))
  {
    FlattenAppend([], e);
  }

  /** The triangles traced by `ray_tracer.hpp`'s `render` are those of a
      scene the same entities were added to, entity by entity, and entity
      `j`'s triangle `m` sits right after the triangles of the entities
      before it. */
  lemma {:induction false} SetupTrianglesInOrder(num: Numerics, tracer: Tracer, shader: Shader, draws: Draws,
                                c: Camera, lights: seq<Light>, es: seq<Entity>, k: Knobs, j: nat, m: nat)
    requires j < |es| && m < |es[j].triangles|
    ensures SetupFor(num, tracer, shader, draws, c, lights, es, k).triangles == AddEntities(NewScene(), es).triangles
    ensures |Flatten(es[..j])| + m < |SetupFor(num, tracer, shader, draws, c, lights, es, k).triangles|
    ensures SetupFor(num, tracer, shader, draws, c, lights, es, k).triangles[|Flatten(es[..j])| + m] == es[j].triangles[m]
  {
    AddEntitiesToNewScene(es);
    FlattenPlacesEntity(es, j, m);
  }
}
