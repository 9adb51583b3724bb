/** The shader property names the renderer writes, one constructor per name:
    `_SourceVertices` is SourceVertices, `_MaxBladeSegments` MaxBladeSegments,
    `_Time` Time, and so on. */
module Shader {
  datatype Property =
    | SourceVertices | SourceTriangles | DrawTriangles | IndirectArgsBuffer
    | NumSourceTriangles | MaxBladeSegments | MaxBendAngle | BladeCurvature
    | BladeHeight | BladeHeightVariance | BladeWidth | BladeWidthVariance
    | WindNoiseTexture | WindTexMult | WindTimeMult | WindPosMult | WindAmplitude | WindDirectionAngle
    | CameraLOD | Time | LocalToWorld | CameraPosition
}

/**
 * An abstract view of the engine calls the grass renderer makes. GPU buffers
 * are records (handle, element count, stride, kind); the engine keeps the set
 * of buffers that are allocated and not yet released, the set of instantiated
 * objects that are not yet destroyed, and the log of every call in order.
 * What the GPU does with a command is not modelled.
 */
module Engine {
  import opened Unity
  import Shader

  datatype BufferKind = StructuredImmutable | Append | IndirectArguments

  datatype ComputeBuffer = ComputeBuffer(handle: nat, count: int, stride: int, kind: BufferKind)

  /** One packed source vertex: a position and a colour (seven floats). */
  datatype SourceVertex = SourceVertex(position: Vector3, color: Color)

  /** What `SetData` uploads into a buffer. */
  datatype BufferData = Vertices(vertices: seq<SourceVertex>) | Ints(values: seq<int>)

  /** A value pushed to a shader uniform. Matrices and textures are opaque ids. */
  datatype Uniform =
    | IntValue(i: int)
    | FloatValue(f: real)
    | VectorValue(x: real, y: real, z: real, w: real)
    | PositionValue(p: Vector3)
    | MatrixValue(matrix: nat)

  datatype Topology = Triangles

  datatype Command =
    | CreateBuffer(buffer: ComputeBuffer)
    | ReleaseBuffer(handle: nat)
    | SetData(handle: nat, data: BufferData)
    | SetCounterValue(handle: nat, counter: int)
    | Instantiate(instance: nat, original: nat)
    | Destroy(instance: nat, immediate: bool)
    | SetKernelBuffer(shader: nat, kernel: int, name: Shader.Property, handle: nat)
    | SetMaterialBuffer(material: nat, name: Shader.Property, handle: nat)
    | SetUniform(shader: nat, name: Shader.Property, value: Uniform)
    | SetKernelTexture(shader: nat, kernel: int, name: Shader.Property, texture: nat)
    | Dispatch(shader: nat, kernel: int, groupsX: int, groupsY: int, groupsZ: int)
    | DrawProceduralIndirect(material: nat, topology: Topology, args: nat, argsOffset: int,
                             castShadows: bool, receiveShadows: bool, layer: int)

  /** Commands that only append to the log and leave the buffer and object sets alone. */
  predicate PlainCommand(c: Command) {
    !c.CreateBuffer? && !c.ReleaseBuffer? && !c.Instantiate? && !c.Destroy?
  }

  class Engine {
    var live: set<nat>     // handles of buffers allocated and not released
    var objects: set<nat>  // ids of instantiated objects not destroyed
    var next: nat          // the next fresh handle or object id
    var log: seq<Command>

    ghost predicate Valid()
      reads this
    {
      (forall h :: h in live ==> h < next) && (forall o :: o in objects ==> o < next)
    }

    constructor ()
      ensures Valid() && live == {} && objects == {} && log == [] && next == 0
    {
      live, objects, next, log := {}, {}, 0, [];
    }

    /** `new ComputeBuffer(count, stride, kind)`: a fresh handle becomes live.
        Unity refuses (throws) a count that is not positive. */
    method NewBuffer(count: int, stride: int, kind: BufferKind) returns (b: ComputeBuffer)
      requires Valid() && count > 0
      modifies this
      ensures Valid()
      ensures b == ComputeBuffer(old(next), count, stride, kind) && next == old(next) + 1
      ensures live == old(live) + {b.handle} && objects == old(objects)
      ensures log == old(log) + [CreateBuffer(b)]
    {
      b := ComputeBuffer(next, count, stride, kind);
      live := live + {next};
      next := next + 1;
      log := log + [CreateBuffer(b)];
    }

    /** `ComputeBuffer.Release()` of a buffer that is still live. */
    method Release(handle: nat)
      requires Valid() && handle in live
      modifies this
      ensures Valid()
      ensures live == old(live) - {handle} && objects == old(objects) && next == old(next)
      ensures log == old(log) + [ReleaseBuffer(handle)]
    {
      live := live - {handle};
      log := log + [ReleaseBuffer(handle)];
    }

    /** `Object.Instantiate(original)`: a fresh object id becomes live. */
    method InstantiateObject(original: nat) returns (id: nat)
      requires Valid()
      modifies this
      ensures Valid()
      ensures id == old(next) && next == old(next) + 1
      ensures objects == old(objects) + {id} && live == old(live)
      ensures log == old(log) + [Instantiate(id, original)]
    {
      id := next;
      objects := objects + {id};
      next := next + 1;
      log := log + [Instantiate(id, original)];
    }

    /** `Object.Destroy` (immediate == false) or `Object.DestroyImmediate` of an
        object that is still live. */
    method DestroyObject(id: nat, immediate: bool)
      requires Valid() && id in objects
      modifies this
      ensures Valid()
      ensures objects == old(objects) - {id} && live == old(live) && next == old(next)
      ensures log == old(log) + [Destroy(id, immediate)]
    {
      objects := objects - {id};
      log := log + [Destroy(id, immediate)];
    }

    /** Any other call: it is recorded and changes neither set. */
    method Issue(c: Command)
      requires Valid() && PlainCommand(c)
      modifies this
      ensures Valid()
      ensures live == old(live) && objects == old(objects) && next == old(next)
      ensures log == old(log) + [c]
    {
      log := log + [c];
    }
  }
}
