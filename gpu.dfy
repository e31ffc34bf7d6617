/**
 * The Metal objects the core hands around, reduced to what the core itself sets and
 * reads: buffer lengths, the fields of a triangle geometry descriptor, the geometry
 * list of an acceleration-structure descriptor, the two sizes a pipeline state
 * reports, and the commands recorded into a command buffer. What the GPU does with
 * them is not part of this model.
 */
module Gpu {
  import opened Base

  /** `sizeof(float)` and `sizeof(unsigned int)`. */
  const FLOAT_SIZE: nat := 4
  const UINT_SIZE: nat := 4
  /** `sizeof(uint16_t)`, the element type of the geometry-material table. */
  const UINT16_SIZE: nat := 2
  /** `sizeof(PrimitiveData)`: six `simd::float2` then three 16-byte aligned `simd::float3`. */
  const PRIMITIVE_DATA_SIZE: nat := 96
  /** `sizeof(Particle)`: a `bool` padded to 16 bytes, then four `simd::float3`. */
  const PARTICLE_SIZE: nat := 80
  /** `sizeof(Material)`: a `simd::float3` and a `float`, padded to 32 bytes. */
  const MATERIAL_SIZE: nat := 32

  /**
   * `PrimitiveData` as the core's initialisers fill it: the normals of a triangle's
   * three vertices. The motion-vector coordinates are left to the kernels.
   */
  datatype PrimitiveData = PrimitiveData(v0Normal: Vec3, v1Normal: Vec3, v2Normal: Vec3)

  /** `Particle` as the core fills it: whether the particle moves. Its vectors are floating point. */
  datatype Particle = Particle(alive: bool)

  /** `Material`: a colour and a roughness. */
  datatype Material = Material(color: Vec3r, roughness: real)

  /**
   * `Camera` as src/Renderer.cpp uses it: the basis and position that
   * shaders/SharedTypes.h:17-20 declares, and the pitch and yaw that src/Renderer.cpp
   * reads and updates but that header does not declare.
   */
  datatype Camera = Camera(right: Vec3r, up: Vec3r, forward: Vec3r, position: Vec3r, pitch: real, yaw: real)

  /** What a buffer holds after the `memcpy` that fills it. */
  datatype Contents =
    | Unwritten                               // never filled, or filled from uninitialised memory
    | Positions(points: seq<Vec3r>)           // `float` triples
    | Indices(indices: seq<nat>)              // `unsigned int` vertex indices
    | Primitives(records: seq<PrimitiveData>)
    | Particles(particles: seq<Particle>)
    | MaterialIndices(materialIndices: seq<nat>)   // `uint16_t` geometry-material indices
    | Materials(materials: seq<Material>)

  /** `MTL::Buffer`: its length in bytes and what was copied into it. */
  class Buffer {
    const length: nat
    const contents: Contents

    constructor (length: nat, contents: Contents)
      ensures this.length == length && this.contents == contents
    {
      this.length := length;
      this.contents := contents;
    }
  }

  /** `MTL::Texture`: an opaque handle. */
  class Texture {
    constructor ()
    {
    }
  }

  /** `MTL::AccelerationStructure`: an opaque handle. */
  class AccelerationStructure {
    constructor ()
    {
    }
  }

  /** `MTL::ComputePipelineState`: the two sizes the core asks it for. */
  class Pipeline {
    const threadExecutionWidth: nat
    const maxTotalThreadsPerThreadgroup: nat

    constructor (threadExecutionWidth: nat, maxTotalThreadsPerThreadgroup: nat)
      ensures this.threadExecutionWidth == threadExecutionWidth
      ensures this.maxTotalThreadsPerThreadgroup == maxTotalThreadsPerThreadgroup
    {
      this.threadExecutionWidth := threadExecutionWidth;
      this.maxTotalThreadsPerThreadgroup := maxTotalThreadsPerThreadgroup;
    }
  }

  /**
   * `MTL::AccelerationStructureTriangleGeometryDescriptor`: the fields the scene
   * objects set. A fresh descriptor has no buffers, no triangles and zero strides.
   */
  class TriangleDescriptor {
    var triangleCount: nat
    var vertexBuffer: Option<Buffer>
    var indexBuffer: Option<Buffer>
    var primitiveDataBuffer: Option<Buffer>
    var primitiveDataStride: nat
    var primitiveDataElementSize: nat

    constructor ()
      ensures triangleCount == 0 && primitiveDataStride == 0 && primitiveDataElementSize == 0
      ensures vertexBuffer.None? && indexBuffer.None? && primitiveDataBuffer.None?
    {
      triangleCount := 0;
      vertexBuffer := None;
      indexBuffer := None;
      primitiveDataBuffer := None;
      primitiveDataStride := 0;
      primitiveDataElementSize := 0;
    }
  }

  /** The descriptor holds the triangle count, the three buffers and the record size as stride and element size. */
  predicate Describes(d: TriangleDescriptor, triangleCount: nat, vb: Buffer, ib: Buffer, db: Buffer)
    reads d
  {
    && d.triangleCount == triangleCount
    && d.vertexBuffer == Some(vb) && d.indexBuffer == Some(ib)
    && d.primitiveDataBuffer == Some(db)
    && d.primitiveDataStride == PRIMITIVE_DATA_SIZE
    && d.primitiveDataElementSize == PRIMITIVE_DATA_SIZE
  }

  /** A fresh descriptor given a triangle count, the three buffers and the record size (src/Cloth.cpp:79-85, src/Cube.cpp:55-61). */
  method NewDescriptor(triangleCount: nat, vb: Buffer, ib: Buffer, db: Buffer) returns (d: TriangleDescriptor)
    ensures fresh(d)
    ensures Describes(d, triangleCount, vb, ib, db)
  {
    d := new TriangleDescriptor();
    d.triangleCount := triangleCount;
    d.vertexBuffer := Some(vb);
    d.indexBuffer := Some(ib);
    d.primitiveDataBuffer := Some(db);
    d.primitiveDataStride := PRIMITIVE_DATA_SIZE;
    d.primitiveDataElementSize := PRIMITIVE_DATA_SIZE;
  }

  /** `MTL::PrimitiveAccelerationStructureDescriptor`: its list of geometry descriptors. */
  class AccelerationDescriptor {
    var geometries: seq<TriangleDescriptor>

    constructor ()
      ensures geometries == []
    {
      geometries := [];
    }
  }

  /** A `simd::float4x4` passed to a kernel; its entries are not modelled. */
  datatype Matrix = Matrix(entries: seq<real>)

  /** The values the core passes with `setBytes`. */
  datatype Value =
    | Timestep(dt: Option<real>)   // a `float`; `None` stands for the infinity or NaN of a division by zero
    | Count(n: nat)                // an `unsigned int`
    | Transform(m: Matrix)         // a `simd::float4x4`
    | Point(p: Vec3r)              // a `simd::float3`

  /**
   * One call on a compute or acceleration-structure command encoder, or the creation
   * of one (`computeCommandEncoder()`, `accelerationStructureCommandEncoder()`). A build
   * records the geometry list it was given as it stood when the build was encoded.
   */
  datatype Command =
    | BeginCompute
    | BeginAccelerationStructure
    | BuildAccelerationStructure(target: AccelerationStructure, geometries: seq<TriangleDescriptor>)
    | SetTexture(texture: Texture, index: nat)
    | SetPipeline(pipeline: Pipeline)
    | SetBytes(value: Value, index: nat)
    | SetBuffer(buffer: Option<Buffer>, index: nat)
    | SetAccelerationStructure(structure: AccelerationStructure, index: nat)
    | DispatchThreadgroups(groups: Size, threads: Size)
    | EndEncoding

  /** `MTL::CommandBuffer`: the commands encoded into it so far, in order. */
  class CommandBuffer {
    var commands: seq<Command>

    constructor ()
      ensures commands == []
    {
      commands := [];
    }
  }

  /** The number of thread-group dispatches in a command sequence. */
  function Dispatches(cs: seq<Command>): (n: nat)
    ensures n <= |cs|
  {
    if cs == [] then 0
    else Dispatches(cs[..|cs| - 1]) + (if cs[|cs| - 1].DispatchThreadgroups? then 1 else 0)
  }

  lemma {:induction false} DispatchesAppend(a: seq<Command>, b: seq<Command>)
    ensures Dispatches(a + b) == Dispatches(a) + Dispatches(b)
    decreases |b|
  {
    if b != [] {
      assert (a + b)[..|a + b| - 1] == a + b[..|b| - 1];
      DispatchesAppend(a, b[..|b| - 1]);
    } else {
      assert a + b == a;
    }
  }

  /** A command sequence none of whose commands is a dispatch counts no dispatch. */
  lemma {:induction false} NoDispatches(cs: seq<Command>)
    requires forall k :: 0 <= k < |cs| ==> !cs[k].DispatchThreadgroups?
    ensures Dispatches(cs) == 0
  {
    if cs != [] {
      NoDispatches(cs[..|cs| - 1]);
    }
  }
}
