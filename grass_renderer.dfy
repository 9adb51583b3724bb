/**
 * The host side of the procedural grass renderer: buffer sizing, the
 * activation state machine (OnEnable / OnDisable), the per-frame protocol
 * (LateUpdate) and the two mesh filters GetVertices / GetTriangles.
 *
 * GPU buffers are abstract records kept by an `Engine`, and every engine
 * call is appended to the engine's log, so the frame protocol and the
 * allocation discipline are stated on that log and on the set of live
 * buffers.
 */
module ProceduralGrass {
  import opened Unity
  import opened Engine
  import opened SourceFilters
  import Shader

  // ---------------------------------------------------------------------
  // Strides and sizing
  // ---------------------------------------------------------------------

  const SizeOfFloat: int := 4
  const SizeOfInt: int := 4

  /** A source vertex is a position (3 floats) and a colour (4 floats). */
  const SourceVertStride: int := SizeOfFloat * (3 + 4)
  /** A source triangle buffer element is one index. */
  const SourceTriStride: int := SizeOfInt
  /** A draw record is a position and, per corner, a normal and a scalar. */
  const DrawStride: int := SizeOfFloat * (3 + (3 + 1) * 3)
  /** The indirect arguments are four ints. */
  const IndirectArgsStride: int := SizeOfInt * 4

  /** Written into the args buffer every frame: no vertices, one instance. */
  const ArgsBufferReset: seq<int> := [0, 1, 0, 0]

  lemma Strides()
    ensures SourceVertStride == 28 && SourceTriStride == 4
    ensures DrawStride == 60 && IndirectArgsStride == 16
    ensures ArgsBufferReset == [0, 1, 0, 0]
  {
  }

  /** `tris.Length / 3`: the number of whole triangles in an index list. */
  function NumSourceTriangles(indexCount: nat): (n: nat)
    ensures 3 * n <= indexCount < 3 * n + 3
  {
    indexCount / 3
  }

  /** `Mathf.Max(1, maxSegments)`. */
  function MaxBladeSegments(maxSegments: int): (s: int)
    ensures s >= 1 && s >= maxSegments
    ensures s == 1 || s == maxSegments
  {
    if maxSegments < 1 then 1 else maxSegments
  }

  /** `(maxBladeSegments - 1) * 2 + 1` in C#'s 32-bit arithmetic (wrapping after
      each operation gives the same value as wrapping the exact result once). */
  function MaxBladeTriangles(maxSegments: int): (t: int)
    ensures IsInt32(t)
  {
    Int32((MaxBladeSegments(maxSegments) - 1) * 2 + 1)
  }

  /** Every blade has an odd number of triangles; the count is positive exactly
      when maxSegments does not exceed 2^30, and beyond that the multiplication
      wraps to a negative value. Below the bound it is 2 * max(1, maxSegments) - 1. */
  lemma MaxBladeTrianglesOdd(maxSegments: int)
    requires IsInt32(maxSegments)
    ensures MaxBladeTriangles(maxSegments) % 2 == 1
    ensures MaxBladeTriangles(maxSegments) >= 1 <==> maxSegments <= 0x4000_0000
    ensures maxSegments <= 0x4000_0000 ==> MaxBladeTriangles(maxSegments) == 2 * MaxBladeSegments(maxSegments) - 1
  {
    var exact := (MaxBladeSegments(maxSegments) - 1) * 2 + 1;
    assert 1 <= exact < 0x1_0000_0000;
    if exact > Int32Max {
      assert Int32(exact) == exact - 0x1_0000_0000;
    }
  }

  /** The draw buffer holds `numSourceTriangles * maxBladeTriangles` records,
      a 32-bit product. */
  function DrawCapacity(indexCount: nat, maxSegments: int): (c: int)
    ensures IsInt32(c)
  {
    Int32(NumSourceTriangles(indexCount) * MaxBladeTriangles(maxSegments))
  }

  /** A positive draw capacity needs at least one whole source triangle, so the
      source triangle buffer is never created empty alongside it. */
  lemma DrawCapacityNeedsTriangle(indexCount: nat, maxSegments: int)
    requires DrawCapacity(indexCount, maxSegments) > 0
    ensures indexCount >= 3 && NumSourceTriangles(indexCount) >= 1
  {
  }

  /** With maxSegments <= 1 each source triangle gets one draw record. */
  lemma DrawCapacitySingleSegment(indexCount: nat, maxSegments: int)
    requires maxSegments <= 1 && indexCount <= Int32Max
    ensures DrawCapacity(indexCount, maxSegments) == indexCount / 3
  {
    var n := NumSourceTriangles(indexCount);
    assert MaxBladeTriangles(maxSegments) == 1;
    assert n * 1 == n;
    Int32Identity(n);
  }

  /** When the product does not overflow, the capacity is the number of source
      triangles times 2 * maxSegments - 1. */
  lemma DrawCapacityProduct(indexCount: nat, maxSegments: int)
    requires 1 <= maxSegments <= 0x4000_0000
    requires (indexCount / 3) * (2 * maxSegments - 1) <= Int32Max
    ensures DrawCapacity(indexCount, maxSegments) == (indexCount / 3) * (2 * maxSegments - 1)
  {
    var n := NumSourceTriangles(indexCount);
    var t := 2 * maxSegments - 1;
    Int32Identity(t);
    assert MaxBladeTriangles(maxSegments) == t;
    ProductFits(n, t);
    assert DrawCapacity(indexCount, maxSegments) == Int32(n * t);
  }

  lemma ProductFits(n: nat, t: int)
    requires 1 <= t && n * t <= Int32Max
    ensures Int32(n * t) == n * t
  {
    Int32Identity(n * t);
  }

  /** The number of thread groups dispatched: the integer reading of
      `Mathf.CeilToInt((float)n / g)`. */
  function DispatchSize(n: nat, g: int): (q: nat)
    requires g > 0
    ensures q * g >= n
    ensures n > 0 ==> (q - 1) * g < n
  {
    var q := (n + g - 1) / g;
    assert q * g <= n + g - 1 < q * g + g;
    q
  }

  /** The dispatch covers every source triangle and no group is wholly idle. */
  lemma DispatchSizeIsCeiling(n: nat, g: int)
    requires g > 0
    ensures DispatchSize(n, g) * g >= n
    ensures n > 0 ==> (DispatchSize(n, g) - 1) * g < n
    ensures n == 0 ==> DispatchSize(n, g) == 0
  {
    var q := DispatchSize(n, g);
    assert q * g <= n + g - 1 < q * g + g;
  }

  /** The sizing example: two triangles with three segments need ten draw records. */
  lemma TwoTrianglesThreeSegments()
    ensures NumSourceTriangles(6) == 2 && MaxBladeTriangles(3) == 5 && DrawCapacity(6, 3) == 10
    ensures DrawCapacity(6, 3) * DrawStride == 600
  {
    DrawCapacityProduct(6, 3);
  }

  // ---------------------------------------------------------------------
  // Configuration and per-frame inputs
  // ---------------------------------------------------------------------

  /** The serialized grass settings; floats are reals, the texture an opaque id. */
  datatype GrassSettings = GrassSettings(
    maxSegments: int,
    meshSubdivisions: int,
    maxBendAngle: real,
    bladeCurvature: real,
    bladeHeight: real,
    bladeHeightVariance: real,
    bladeWidth: real,
    bladeWidthVariance: real,
    windNoiseTexture: nat,
    windTextureScale: real,
    windPeriod: real,
    windScale: real,
    windAmplitude: real,
    windDirectionAngle: real,
    cameraLODMin: real,
    cameraLODMax: real,
    cameraLODFactor: real)

  /** The compute shader asset: its id, the index `FindKernel("Main")` returns,
      and the X thread-group width its kernel declares. */
  datatype ComputeShaderAsset = ComputeShaderAsset(id: nat, mainKernel: int, threadGroupSizeX: int)

  /** What LateUpdate reads from the engine each frame: `Time.timeSinceLevelLoad`,
      the object's local-to-world matrix, the main camera's position and the
      object's layer. */
  datatype FrameInputs = FrameInputs(timeSinceLevelLoad: real, localToWorld: nat, cameraPosition: Vector3, layer: int)

  /** The vertex records uploaded to the source vertex buffer: position i and colour i. */
  function Packed(positions: seq<Vector3>, colors: seq<Color>): (vs: seq<SourceVertex>)
    requires |colors| >= |positions|
  {
    seq(|positions|, i requires 0 <= i < |positions| => SourceVertex(positions[i], colors[i]))
  }

  // ---------------------------------------------------------------------
  // The engine calls made by the lifecycle, in order
  // ---------------------------------------------------------------------

  /** Destroying the two instantiated objects and releasing the four buffers. */
  function TeardownCommands(shader: nat, material: nat, buffers: seq<nat>, isPlaying: bool): (cs: seq<Command>)
    requires |buffers| == 4
  {
    [Destroy(shader, !isPlaying), Destroy(material, !isPlaying),
     ReleaseBuffer(buffers[0]), ReleaseBuffer(buffers[1]), ReleaseBuffer(buffers[2]), ReleaseBuffer(buffers[3])]
  }

  /** Allocating and filling the four buffers, with handles first .. first+3. */
  function BufferCommands(first: nat, vertices: seq<SourceVertex>, tris: seq<int>, maxSegments: int): (cs: seq<Command>)
    requires |tris| <= Int32Max
  {
    [CreateBuffer(ComputeBuffer(first, |vertices|, SourceVertStride, StructuredImmutable)),
     SetData(first, Vertices(vertices)),
     CreateBuffer(ComputeBuffer(first + 1, |tris|, SourceTriStride, StructuredImmutable)),
     SetData(first + 1, Ints(tris)),
     CreateBuffer(ComputeBuffer(first + 2, DrawCapacity(|tris|, maxSegments), DrawStride, Append)),
     SetCounterValue(first + 2, 0),
     CreateBuffer(ComputeBuffer(first + 3, 1, IndirectArgsStride, IndirectArguments))]
  }

  /** Binding the four buffers to the kernel's slots. */
  function BindingCommands(shader: nat, kernel: int, vert: nat, tri: nat, draw: nat, args: nat): (cs: seq<Command>)
  {
    [SetKernelBuffer(shader, kernel, Shader.SourceVertices, vert),
     SetKernelBuffer(shader, kernel, Shader.SourceTriangles, tri),
     SetKernelBuffer(shader, kernel, Shader.DrawTriangles, draw),
     SetKernelBuffer(shader, kernel, Shader.IndirectArgsBuffer, args)]
  }

  /** Pushing the activation-time uniforms, each setting once. */
  function SettingsCommands(shader: nat, kernel: int, numSourceTriangles: int, settings: GrassSettings): (cs: seq<Command>)
  {
    ShapeCommands(shader, numSourceTriangles, settings) + WindCommands(shader, kernel, settings)
  }

  /** The mesh size and blade-shape uniforms. */
  function ShapeCommands(shader: nat, numSourceTriangles: int, settings: GrassSettings): (cs: seq<Command>)
  {
    [SetUniform(shader, Shader.NumSourceTriangles, IntValue(numSourceTriangles)),
     SetUniform(shader, Shader.MaxBladeSegments, IntValue(MaxBladeSegments(settings.maxSegments))),
     SetUniform(shader, Shader.MaxBendAngle, FloatValue(settings.maxBendAngle)),
     SetUniform(shader, Shader.BladeCurvature, FloatValue(settings.bladeCurvature)),
     SetUniform(shader, Shader.BladeHeight, FloatValue(settings.bladeHeight)),
     SetUniform(shader, Shader.BladeHeightVariance, FloatValue(settings.bladeHeightVariance)),
     SetUniform(shader, Shader.BladeWidth, FloatValue(settings.bladeWidth)),
     SetUniform(shader, Shader.BladeWidthVariance, FloatValue(settings.bladeWidthVariance))]
  }

  /** The wind and level-of-detail uniforms; the LOD factor is clamped at 0. */
  function WindCommands(shader: nat, kernel: int, settings: GrassSettings): (cs: seq<Command>)
  {
    [SetKernelTexture(shader, kernel, Shader.WindNoiseTexture, settings.windNoiseTexture),
     SetUniform(shader, Shader.WindTexMult, FloatValue(settings.windTextureScale)),
     SetUniform(shader, Shader.WindTimeMult, FloatValue(settings.windPeriod)),
     SetUniform(shader, Shader.WindPosMult, FloatValue(settings.windScale)),
     SetUniform(shader, Shader.WindAmplitude, FloatValue(settings.windAmplitude)),
     SetUniform(shader, Shader.WindDirectionAngle, FloatValue(settings.windDirectionAngle)),
     SetUniform(shader, Shader.CameraLOD, VectorValue(settings.cameraLODMin, settings.cameraLODMax,
                                                   if settings.cameraLODFactor < 0.0 then 0.0 else settings.cameraLODFactor, 0.0))]
  }

  /** Everything OnEnable issues after any teardown, when the engine's next id is base. */
  function ActivationCommands(base: nat, shader: ComputeShaderAsset, material: nat,
                              vertices: seq<SourceVertex>, tris: seq<int>, settings: GrassSettings): (cs: seq<Command>)
    requires IsInt32(settings.maxSegments) && |tris| <= Int32Max
  {
    [Instantiate(base, shader.id), Instantiate(base + 1, material)]
    + BufferCommands(base + 2, vertices, tris, settings.maxSegments)
    + ConfigureCommands(base, base + 1, shader.mainKernel, base + 2, NumSourceTriangles(|tris|), settings)
  }

  /** Binding the buffers (handles first .. first+3), pushing the settings and
      handing the draw buffer to the material. */
  function ConfigureCommands(shader: nat, material: nat, kernel: int, first: nat,
                             numSourceTriangles: int, settings: GrassSettings): (cs: seq<Command>)
  {
    BindingCommands(shader, kernel, first, first + 1, first + 2, first + 3)
    + SettingsCommands(shader, kernel, numSourceTriangles, settings)
    + [SetMaterialBuffer(material, Shader.DrawTriangles, first + 2)]
  }

  /** The per-frame protocol of LateUpdate. */
  function FrameCommands(shader: nat, material: nat, kernel: int, dispatchSize: int,
                         draw: nat, args: nat, frame: FrameInputs): (cs: seq<Command>)
  {
    [SetCounterValue(draw, 0),
     SetData(args, Ints(ArgsBufferReset)),
     SetUniform(shader, Shader.Time, VectorValue(0.0, frame.timeSinceLevelLoad, 0.0, 0.0)),
     SetUniform(shader, Shader.LocalToWorld, MatrixValue(frame.localToWorld)),
     SetUniform(shader, Shader.CameraPosition, PositionValue(frame.cameraPosition)),
     Dispatch(shader, kernel, dispatchSize, 1, 1),
     DrawProceduralIndirect(material, Triangles, args, 0, false, true, frame.layer)]
  }

  lemma AppendAssoc3<T>(a: seq<T>, b: seq<T>, c: seq<T>, d: seq<T>)
    ensures a + b + c + d == a + (b + c + d)
  {
  }

  // ---------------------------------------------------------------------
  // The renderer
  // ---------------------------------------------------------------------

  class ProceduralGrassRenderer {
    const engine: Engine
    var sourceMesh: Mesh
    var grassComputeShader: Option<ComputeShaderAsset>
    var material: Option<nat>
    var grassSettings: GrassSettings

    var initialized: bool
    var sourceVertBuffer: Option<ComputeBuffer>
    var sourceTriBuffer: Option<ComputeBuffer>
    var drawBuffer: Option<ComputeBuffer>
    var argsBuffer: Option<ComputeBuffer>
    var instantiatedGrassComputeShader: Option<nat>
    var instantiatedMaterial: Option<nat>
    var idGrassKernel: int
    var dispatchSize: int

    /** All per-activation references are set. */
    predicate Assigned()
      reads this
    {
      sourceVertBuffer.Some? && sourceTriBuffer.Some? && drawBuffer.Some? && argsBuffer.Some? &&
      instantiatedGrassComputeShader.Some? && instantiatedMaterial.Some?
    }

    /** The handles of the four buffers, in declaration order. */
    function Handles(): (hs: seq<nat>)
      reads this
      requires Assigned()
      ensures |hs| == 4
    {
      [sourceVertBuffer.value.handle, sourceTriBuffer.value.handle, drawBuffer.value.handle, argsBuffer.value.handle]
    }

    /** The four buffers and the two instances are distinct, so each is
        released or destroyed once. */
    predicate Apart()
      reads this
      requires Assigned()
    {
      var hs := Handles();
      hs[0] != hs[1] && hs[0] != hs[2] && hs[0] != hs[3] &&
      hs[1] != hs[2] && hs[1] != hs[3] && hs[2] != hs[3] &&
      instantiatedGrassComputeShader.value != instantiatedMaterial.value
    }

    /** The allocation invariant: while initialized, the live buffers are exactly
        the four this renderer holds and the live objects exactly its two
        instances; otherwise nothing is live. Nothing is ever leaked. */
    ghost predicate Valid()
      reads this, engine
    {
      engine.Valid() &&
      (initialized ==>
         Assigned() &&
         engine.live == {sourceVertBuffer.value.handle, sourceTriBuffer.value.handle,
                         drawBuffer.value.handle, argsBuffer.value.handle} &&
         engine.objects == {instantiatedGrassComputeShader.value, instantiatedMaterial.value} &&
         Apart()) &&
      (!initialized ==> engine.live == {} && engine.objects == {})
    }

    /** What OnEnable demands: the two asserted references are set, the mesh has a
        colour per vertex, the kernel's thread-group width is positive, and the
        vertex and draw buffers have a positive count, since Unity throws on
        creating a buffer of count zero or less. */
    predicate Ready()
      reads this, sourceMesh
    {
      grassComputeShader.Some? && material.Some? &&
      grassComputeShader.value.threadGroupSizeX > 0 &&
      |sourceMesh.colors| >= |sourceMesh.vertices| &&
      |sourceMesh.triangles| <= Int32Max &&
      IsInt32(grassSettings.maxSegments) &&
      |sourceMesh.vertices| > 0 && DrawCapacity(|sourceMesh.triangles|, grassSettings.maxSegments) > 0
    }

    /** The state a fresh activation leaves when the engine's next id was base:
        the sizes and strides depend only on the mesh and the settings. */
    predicate Activated(base: nat)
      reads this, sourceMesh
      requires Ready()
    {
      var tris := sourceMesh.triangles;
      initialized &&
      instantiatedGrassComputeShader == Some(base) && instantiatedMaterial == Some(base + 1) &&
      sourceVertBuffer == Some(ComputeBuffer(base + 2, |sourceMesh.vertices|, SourceVertStride, StructuredImmutable)) &&
      sourceTriBuffer == Some(ComputeBuffer(base + 3, |tris|, SourceTriStride, StructuredImmutable)) &&
      drawBuffer == Some(ComputeBuffer(base + 4, DrawCapacity(|tris|, grassSettings.maxSegments), DrawStride, Append)) &&
      argsBuffer == Some(ComputeBuffer(base + 5, 1, IndirectArgsStride, IndirectArguments)) &&
      idGrassKernel == grassComputeShader.value.mainKernel &&
      dispatchSize == DispatchSize(NumSourceTriangles(|tris|), grassComputeShader.value.threadGroupSizeX)
    }

    /** The calls OnDisable makes in the current state. */
    function Teardown(isPlaying: bool): (cs: seq<Command>)
      reads this
      requires initialized ==> Assigned()
    {
      if initialized then
        TeardownCommands(instantiatedGrassComputeShader.value, instantiatedMaterial.value, Handles(), isPlaying)
      else []
    }

    /** The calls OnEnable makes after any teardown, given the engine's next id. */
    function Activation(base: nat): (cs: seq<Command>)
      reads this, sourceMesh
      requires Ready()
    {
      ActivationCommands(base, grassComputeShader.value, material.value,
                         Packed(sourceMesh.vertices, sourceMesh.colors), sourceMesh.triangles, grassSettings)
    }

    constructor (engine: Engine, sourceMesh: Mesh, grassComputeShader: Option<ComputeShaderAsset>,
                 material: Option<nat>, grassSettings: GrassSettings)
      requires engine.Valid() && engine.live == {} && engine.objects == {}
      ensures Valid() && !initialized
      ensures this.engine == engine && this.sourceMesh == sourceMesh && this.grassSettings == grassSettings
      ensures this.grassComputeShader == grassComputeShader && this.material == material
    {
      this.engine := engine;
      this.sourceMesh := sourceMesh;
      this.grassComputeShader := grassComputeShader;
      this.material := material;
      this.grassSettings := grassSettings;
      initialized := false;
      sourceVertBuffer, sourceTriBuffer, drawBuffer, argsBuffer := None, None, None, None;
      instantiatedGrassComputeShader, instantiatedMaterial := None, None;
      idGrassKernel, dispatchSize := 0, 0;
    }

    /** Deactivation: when initialized, destroy the two instances (immediately
        outside play mode) and release the four buffers; in every case end
        uninitialized. A second call does nothing but clear the flag. */
    method OnDisable(isPlaying: bool)
      requires Valid()
      modifies this`initialized, engine
      ensures Valid() && !initialized
      ensures engine.live == {} && engine.objects == {} && engine.next == old(engine.next)
      ensures engine.log == old(engine.log) + old(Teardown(isPlaying))
    {
      if initialized {
        engine.DestroyObject(instantiatedGrassComputeShader.value, !isPlaying);
        engine.DestroyObject(instantiatedMaterial.value, !isPlaying);
        engine.Release(sourceVertBuffer.value.handle);
        engine.Release(sourceTriBuffer.value.handle);
        engine.Release(drawBuffer.value.handle);
        engine.Release(argsBuffer.value.handle);
      }
      initialized := false;
    }

    /** Activation: tear down any current activation, then build a fresh one. */
    method OnEnable(isPlaying: bool)
      requires Valid() && Ready()
      modifies this, engine
      ensures Valid() && Ready() && Activated(old(engine.next))
      ensures sourceMesh == old(sourceMesh) && grassSettings == old(grassSettings)
      ensures grassComputeShader == old(grassComputeShader) && material == old(material)
      ensures forall h :: h in engine.live ==> h >= old(engine.next)  // every live buffer is a new one
      ensures engine.next == old(engine.next) + 6
      ensures engine.log == old(engine.log) + old(Teardown(isPlaying)) + Activation(old(engine.next))
    {
      if initialized {
        OnDisable(isPlaying);
      }
      Activate();
    }

    /** The body of OnEnable once nothing is active: instantiate private copies of
        the kernel and material, then build and configure the buffers. */
    method Activate()
      requires Valid() && Ready() && !initialized
      modifies this`initialized, this`instantiatedGrassComputeShader, this`instantiatedMaterial,
               this`sourceVertBuffer, this`sourceTriBuffer, this`drawBuffer, this`argsBuffer,
               this`idGrassKernel, this`dispatchSize, engine
      ensures Valid() && Activated(old(engine.next))
      ensures engine.next == old(engine.next) + 6
      ensures engine.log == old(engine.log) + Activation(old(engine.next))
    {
      ghost var base := engine.next;
      ghost var log0 := engine.log;
      initialized := true;
      InstantiateCopies();
      BuildBuffers(instantiatedGrassComputeShader.value, instantiatedMaterial.value);
      AppendAssoc3(log0, [Instantiate(base, grassComputeShader.value.id), Instantiate(base + 1, material.value)],
                   BufferCommands(base + 2, Packed(sourceMesh.vertices, sourceMesh.colors), sourceMesh.triangles, grassSettings.maxSegments),
                   ConfigureCommands(base, base + 1, grassComputeShader.value.mainKernel, base + 2,
                                     NumSourceTriangles(|sourceMesh.triangles|), grassSettings));
    }

    /** `Instantiate` the kernel and the material. */
    method InstantiateCopies()
      requires engine.Valid() && grassComputeShader.Some? && material.Some?
      modifies this`instantiatedGrassComputeShader, this`instantiatedMaterial, engine
      ensures engine.Valid()
      ensures instantiatedGrassComputeShader == Some(old(engine.next))
      ensures instantiatedMaterial == Some(old(engine.next) + 1)
      ensures engine.objects == old(engine.objects) + {old(engine.next), old(engine.next) + 1}
      ensures engine.live == old(engine.live) && engine.next == old(engine.next) + 2
      ensures engine.log == old(engine.log) + [Instantiate(old(engine.next), grassComputeShader.value.id),
                                               Instantiate(old(engine.next) + 1, material.value)]
    {
      var shaderId := engine.InstantiateObject(grassComputeShader.value.id);
      instantiatedGrassComputeShader := Some(shaderId);
      var materialId := engine.InstantiateObject(material.value);
      instantiatedMaterial := Some(materialId);
    }

    /** Pack the mesh, allocate the four buffers, bind and configure them, and
        compute the dispatch size (everything after the instantiations). */
    method BuildBuffers(shaderId: nat, materialId: nat)
      requires engine.Valid() && Ready() && engine.live == {}
      modifies this`sourceVertBuffer, this`sourceTriBuffer, this`drawBuffer, this`argsBuffer,
               this`idGrassKernel, this`dispatchSize, engine
      ensures engine.Valid()
      ensures var h := old(engine.next); var tris := sourceMesh.triangles;
        && sourceVertBuffer == Some(ComputeBuffer(h, |sourceMesh.vertices|, SourceVertStride, StructuredImmutable))
        && sourceTriBuffer == Some(ComputeBuffer(h + 1, |tris|, SourceTriStride, StructuredImmutable))
        && drawBuffer == Some(ComputeBuffer(h + 2, DrawCapacity(|tris|, grassSettings.maxSegments), DrawStride, Append))
        && argsBuffer == Some(ComputeBuffer(h + 3, 1, IndirectArgsStride, IndirectArguments))
        && engine.live == {h, h + 1, h + 2, h + 3}
        && engine.next == h + 4
        && engine.log == old(engine.log)
           + BufferCommands(h, Packed(sourceMesh.vertices, sourceMesh.colors), tris, grassSettings.maxSegments)
           + ConfigureCommands(shaderId, materialId, grassComputeShader.value.mainKernel, h, NumSourceTriangles(|tris|), grassSettings)
      ensures engine.objects == old(engine.objects)
      ensures idGrassKernel == grassComputeShader.value.mainKernel
      ensures dispatchSize == DispatchSize(NumSourceTriangles(|sourceMesh.triangles|), grassComputeShader.value.threadGroupSizeX)
    {
      var positions := sourceMesh.vertices;
      var colors := sourceMesh.colors;
      var tris := sourceMesh.triangles;
      var vertices := PackVertices(positions, colors);
      var numSourceTriangles := NumSourceTriangles(|tris|);

      AllocateBuffers(vertices[..], tris);
      idGrassKernel := grassComputeShader.value.mainKernel;
      Configure(shaderId, materialId, sourceVertBuffer.value.handle, numSourceTriangles);
      dispatchSize := DispatchSize(numSourceTriangles, grassComputeShader.value.threadGroupSizeX);
    }

    /** Allocation of the four buffers, in declaration order, with the upload of
        the two immutable ones and the reset of the append counter. */
    method AllocateBuffers(vertices: seq<SourceVertex>, tris: seq<int>)
      requires engine.Valid() && IsInt32(grassSettings.maxSegments) && |tris| <= Int32Max
      requires |vertices| > 0 && DrawCapacity(|tris|, grassSettings.maxSegments) > 0
      modifies this`sourceVertBuffer, this`sourceTriBuffer, this`drawBuffer, this`argsBuffer, engine
      ensures engine.Valid()
      ensures var h := old(engine.next);
        && sourceVertBuffer == Some(ComputeBuffer(h, |vertices|, SourceVertStride, StructuredImmutable))
        && sourceTriBuffer == Some(ComputeBuffer(h + 1, |tris|, SourceTriStride, StructuredImmutable))
        && drawBuffer == Some(ComputeBuffer(h + 2, DrawCapacity(|tris|, grassSettings.maxSegments), DrawStride, Append))
        && argsBuffer == Some(ComputeBuffer(h + 3, 1, IndirectArgsStride, IndirectArguments))
        && engine.live == old(engine.live) + {h, h + 1, h + 2, h + 3}
        && engine.next == h + 4
        && engine.log == old(engine.log) + BufferCommands(h, vertices, tris, grassSettings.maxSegments)
      ensures engine.objects == old(engine.objects)
    {
      DrawCapacityNeedsTriangle(|tris|, grassSettings.maxSegments);
      var vert := engine.NewBuffer(|vertices|, SourceVertStride, StructuredImmutable);
      engine.Issue(SetData(vert.handle, Vertices(vertices)));
      var tri := engine.NewBuffer(|tris|, SourceTriStride, StructuredImmutable);
      engine.Issue(SetData(tri.handle, Ints(tris)));
      var draw := engine.NewBuffer(DrawCapacity(|tris|, grassSettings.maxSegments), DrawStride, Append);
      engine.Issue(SetCounterValue(draw.handle, 0));
      var args := engine.NewBuffer(1, IndirectArgsStride, IndirectArguments);
      sourceVertBuffer, sourceTriBuffer, drawBuffer, argsBuffer := Some(vert), Some(tri), Some(draw), Some(args);
    }

    /** The fill loop: one packed record per source vertex. */
    static method PackVertices(positions: seq<Vector3>, colors: seq<Color>) returns (vertices: array<SourceVertex>)
      requires |colors| >= |positions|
      ensures fresh(vertices) && vertices[..] == Packed(positions, colors)
    {
      vertices := new SourceVertex[|positions|];
      for i := 0 to vertices.Length
        invariant forall j :: 0 <= j < i ==> vertices[j] == SourceVertex(positions[j], colors[j])
      {
        vertices[i] := SourceVertex(positions[i], colors[i]);
      }
    }

    /** Binding, uniform pushes and the material's buffer, in source order, for
        the buffers with handles first .. first+3. */
    method Configure(shader: nat, material: nat, first: nat, numSourceTriangles: int)
      requires engine.Valid()
      modifies engine
      ensures engine.Valid()
      ensures engine.live == old(engine.live) && engine.objects == old(engine.objects) && engine.next == old(engine.next)
      ensures engine.log == old(engine.log) +
        ConfigureCommands(shader, material, idGrassKernel, first, numSourceTriangles, grassSettings)
    {
      BindBuffers(shader, first, first + 1, first + 2, first + 3);
      PushSettings(shader, numSourceTriangles);
      engine.Issue(SetMaterialBuffer(material, Shader.DrawTriangles, first + 2));
    }

    method BindBuffers(shader: nat, vert: nat, tri: nat, draw: nat, args: nat)
      requires engine.Valid()
      modifies engine
      ensures engine.Valid()
      ensures engine.live == old(engine.live) && engine.objects == old(engine.objects) && engine.next == old(engine.next)
      ensures engine.log == old(engine.log) + BindingCommands(shader, idGrassKernel, vert, tri, draw, args)
    {
      engine.Issue(SetKernelBuffer(shader, idGrassKernel, Shader.SourceVertices, vert));
      engine.Issue(SetKernelBuffer(shader, idGrassKernel, Shader.SourceTriangles, tri));
      engine.Issue(SetKernelBuffer(shader, idGrassKernel, Shader.DrawTriangles, draw));
      engine.Issue(SetKernelBuffer(shader, idGrassKernel, Shader.IndirectArgsBuffer, args));
    }

    method PushSettings(shader: nat, numSourceTriangles: int)
      requires engine.Valid()
      modifies engine
      ensures engine.Valid()
      ensures engine.live == old(engine.live) && engine.objects == old(engine.objects) && engine.next == old(engine.next)
      ensures engine.log == old(engine.log) + SettingsCommands(shader, idGrassKernel, numSourceTriangles, grassSettings)
    {
      PushShape(shader, numSourceTriangles);
      PushWind(shader);
    }

    method PushShape(shader: nat, numSourceTriangles: int)
      requires engine.Valid()
      modifies engine
      ensures engine.Valid()
      ensures engine.live == old(engine.live) && engine.objects == old(engine.objects) && engine.next == old(engine.next)
      ensures engine.log == old(engine.log) + ShapeCommands(shader, numSourceTriangles, grassSettings)
    {
      var s := grassSettings;
      engine.Issue(SetUniform(shader, Shader.NumSourceTriangles, IntValue(numSourceTriangles)));
      engine.Issue(SetUniform(shader, Shader.MaxBladeSegments, IntValue(MaxBladeSegments(s.maxSegments))));
      engine.Issue(SetUniform(shader, Shader.MaxBendAngle, FloatValue(s.maxBendAngle)));
      engine.Issue(SetUniform(shader, Shader.BladeCurvature, FloatValue(s.bladeCurvature)));
      engine.Issue(SetUniform(shader, Shader.BladeHeight, FloatValue(s.bladeHeight)));
      engine.Issue(SetUniform(shader, Shader.BladeHeightVariance, FloatValue(s.bladeHeightVariance)));
      engine.Issue(SetUniform(shader, Shader.BladeWidth, FloatValue(s.bladeWidth)));
      engine.Issue(SetUniform(shader, Shader.BladeWidthVariance, FloatValue(s.bladeWidthVariance)));
    }

    method PushWind(shader: nat)
      requires engine.Valid()
      modifies engine
      ensures engine.Valid()
      ensures engine.live == old(engine.live) && engine.objects == old(engine.objects) && engine.next == old(engine.next)
      ensures engine.log == old(engine.log) + WindCommands(shader, idGrassKernel, grassSettings)
    {
      var s := grassSettings;
      engine.Issue(SetKernelTexture(shader, idGrassKernel, Shader.WindNoiseTexture, s.windNoiseTexture));
      engine.Issue(SetUniform(shader, Shader.WindTexMult, FloatValue(s.windTextureScale)));
      engine.Issue(SetUniform(shader, Shader.WindTimeMult, FloatValue(s.windPeriod)));
      engine.Issue(SetUniform(shader, Shader.WindPosMult, FloatValue(s.windScale)));
      engine.Issue(SetUniform(shader, Shader.WindAmplitude, FloatValue(s.windAmplitude)));
      engine.Issue(SetUniform(shader, Shader.WindDirectionAngle, FloatValue(s.windDirectionAngle)));
      var factor := if s.cameraLODFactor < 0.0 then 0.0 else s.cameraLODFactor;
      engine.Issue(SetUniform(shader, Shader.CameraLOD, VectorValue(s.cameraLODMin, s.cameraLODMax, factor, 0.0)));
    }

    /** The per-frame calls once active: reset the append counter and the
        indirect arguments, push the frame's uniforms, dispatch, draw. */
    method IssueFrame(frame: FrameInputs)
      requires Valid() && initialized
      modifies engine
      ensures Valid()
      ensures engine.live == old(engine.live) && engine.objects == old(engine.objects) && engine.next == old(engine.next)
      ensures engine.log == old(engine.log) +
        FrameCommands(instantiatedGrassComputeShader.value, instantiatedMaterial.value, idGrassKernel, dispatchSize,
                      drawBuffer.value.handle, argsBuffer.value.handle, frame)
    {
      var shader, material := instantiatedGrassComputeShader.value, instantiatedMaterial.value;
      engine.Issue(SetCounterValue(drawBuffer.value.handle, 0));
      engine.Issue(SetData(argsBuffer.value.handle, Ints(ArgsBufferReset)));
      engine.Issue(SetUniform(shader, Shader.Time, VectorValue(0.0, frame.timeSinceLevelLoad, 0.0, 0.0)));
      engine.Issue(SetUniform(shader, Shader.LocalToWorld, MatrixValue(frame.localToWorld)));
      engine.Issue(SetUniform(shader, Shader.CameraPosition, PositionValue(frame.cameraPosition)));
      engine.Issue(Dispatch(shader, idGrassKernel, dispatchSize, 1, 1));
      engine.Issue(DrawProceduralIndirect(material, Triangles, argsBuffer.value.handle, 0, false, true, frame.layer));
    }

    /** LateUpdate: outside play mode the renderer is rebuilt from scratch every
        frame (teardown with immediate destruction, then a fresh activation);
        in play mode the current activation is reused untouched. Either way the
        frame's calls follow, against the renderer's current handles. */
    method LateUpdate(isPlaying: bool, frame: FrameInputs)
      requires Valid()
      requires isPlaying ==> initialized
      requires !isPlaying ==> Ready()
      modifies this, engine
      ensures Valid() && initialized
      ensures isPlaying ==> unchanged(this) && engine.live == old(engine.live) &&
                            engine.objects == old(engine.objects) && engine.next == old(engine.next)
      ensures !isPlaying ==> Ready() && Activated(old(engine.next)) && engine.next == old(engine.next) + 6
      ensures sourceMesh == old(sourceMesh) && grassSettings == old(grassSettings)
      ensures grassComputeShader == old(grassComputeShader) && material == old(material)
      ensures engine.log == old(engine.log)
        + (if isPlaying then [] else old(Teardown(false)) + Activation(old(engine.next)))
        + FrameCommands(instantiatedGrassComputeShader.value, instantiatedMaterial.value, idGrassKernel, dispatchSize,
                        drawBuffer.value.handle, argsBuffer.value.handle, frame)
    {
      if !isPlaying {
        OnDisable(false);
        OnEnable(false);
      }
      IssueFrame(frame);
    }

    /** The painted vertices of the source mesh, in mesh order, and the set of
        their indices (the mesh needs a colour per vertex). */
    method GetVertices() returns (usedVerts: seq<Vector3>, vertIndices: set<int>)
      requires |sourceMesh.colors| >= |sourceMesh.vertices|
      ensures vertIndices == set i | 0 <= i < |sourceMesh.vertices| && Painted(sourceMesh.colors[i])
      ensures usedVerts == Gather(sourceMesh.vertices, PaintedIndices(sourceMesh.colors, |sourceMesh.vertices|))
      ensures |usedVerts| == |vertIndices|
    {
      var meshVerts := sourceMesh.vertices;
      var vertColors := sourceMesh.colors;
      var usedIndices: set<int> := {};
      usedVerts := [];
      for i := 0 to |meshVerts|
        invariant usedIndices == set j | 0 <= j < i && Painted(vertColors[j])
        invariant usedVerts == Gather(meshVerts, PaintedIndices(vertColors, i))
        invariant |usedVerts| == |usedIndices|
      {
        if vertColors[i].r > 0.0 {
          usedVerts := usedVerts + [meshVerts[i]];
          usedIndices := usedIndices + {i};
        }
      }
      vertIndices := usedIndices;
    }

    /** The source triangles whose three corners are all in vertIndices, in
        order (the index list is whole triangles). */
    method GetTriangles(vertIndices: set<int>) returns (filteredTris: seq<int>)
      requires |sourceMesh.triangles| % 3 == 0
      ensures filteredTris == KeepCovered(sourceMesh.triangles, vertIndices)
    {
      var triangles := sourceMesh.triangles;
      filteredTris := [];
      var i := 0;
      while i < |triangles|
        invariant 0 <= i <= |triangles| && i % 3 == 0
        invariant filteredTris == KeepCovered(triangles[..i], vertIndices)
      {
        var a, b, c := triangles[i], triangles[i + 1], triangles[i + 2];
        assert triangles[..i + 3][..i] == triangles[..i];
        if !(a in vertIndices) || !(b in vertIndices) || !(c in vertIndices) {
          i := i + 3;
          continue;
        }
        filteredTris := filteredTris + [a, b, c];
        i := i + 3;
      }
      assert triangles[..i] == triangles;
    }
  }
}
