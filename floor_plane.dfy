/**
 * src/FloorPlane.cpp: a square of side `size` on the plane y = 0, as four vertices and
 * two triangles. Unlike the cube and the cloth, it has no primitive-data buffer.
 */
module FloorPlane {
  import opened Base
  import opened Gpu
  import opened Mesh

  /** The triangle count given to the descriptor (src/FloorPlane.cpp:24). */
  const FLOOR_TRIANGLE_COUNT: nat := 2

  /** The number of vertices: 12 floats, three per vertex (src/FloorPlane.cpp:9-16). */
  const FLOOR_VERTEX_COUNT: nat := 4

  /** `indices[6]`, src/FloorPlane.cpp:3-6. */
  const FLOOR_INDICES: seq<nat> := [0, 1, 2, 1, 2, 3]

  /** The vertex array of the constructor, src/FloorPlane.cpp:9-14: the corners of the square, all at y = 0. */
  function FloorVertices(size: real): (vs: seq<Vec3r>)
    ensures |vs| == FLOOR_VERTEX_COUNT
    ensures forall k :: 0 <= k < |vs| ==> vs[k].y == 0.0
  {
    var h := size / 2.0;
    [Vec3r(-h, 0.0, -h), Vec3r(-h, 0.0, h), Vec3r(h, 0.0, -h), Vec3r(h, 0.0, h)]
  }

  /**
   * The index table holds three in-range, distinct indices per triangle and uses every
   * vertex; the two triangles share exactly the edge from vertex 1 to vertex 2.
   */
  lemma FloorIndicesValid()
    ensures |FLOOR_INDICES| == 3 * FLOOR_TRIANGLE_COUNT
    ensures IndicesBelow(FLOOR_INDICES, FLOOR_VERTEX_COUNT)
    ensures ProperTriangles(FLOOR_INDICES)
    ensures UsesEvery(FLOOR_INDICES, FLOOR_VERTEX_COUNT)
    ensures var (a, b, c) := Triangle(FLOOR_INDICES, 0);
      var (d, e, f) := Triangle(FLOOR_INDICES, 1);
      {a, b, c} * {d, e, f} == {1, 2}
  {
    assert Triangle(FLOOR_INDICES, 0) == (0, 1, 2);
    assert Triangle(FLOOR_INDICES, 1) == (1, 2, 3);
    assert FLOOR_INDICES[3] == 1 && FLOOR_INDICES[5] == 3;
  }

  /** A floor plane: its two buffers and its triangle descriptor. */
  class FloorPlane {
    const vertexBuffer: Buffer
    const indexBuffer: Buffer
    const descriptor: TriangleDescriptor

    /**
     * `FloorPlane::FloorPlane`, src/FloorPlane.cpp:8-30: each buffer is exactly as long
     * as the table copied into it; the descriptor names the two triangles and the two
     * buffers, and keeps the fresh descriptor's missing primitive-data buffer and zero
     * record sizes.
     */
    constructor (size: real)
      ensures vertexBuffer.length == 3 * |FloorVertices(size)| * FLOAT_SIZE
      ensures vertexBuffer.contents == Positions(FloorVertices(size))
      ensures indexBuffer.length == |FLOOR_INDICES| * UINT_SIZE
      ensures indexBuffer.contents == Indices(FLOOR_INDICES)
      ensures fresh(descriptor)
      ensures descriptor.triangleCount == FLOOR_TRIANGLE_COUNT
      ensures descriptor.vertexBuffer == Some(vertexBuffer) && descriptor.indexBuffer == Some(indexBuffer)
      ensures descriptor.primitiveDataBuffer.None?
      ensures descriptor.primitiveDataStride == 0 && descriptor.primitiveDataElementSize == 0
    {
      var vb := new Buffer(12 * FLOAT_SIZE, Positions(FloorVertices(size)));
      var ib := new Buffer(6 * UINT_SIZE, Indices(FLOOR_INDICES));
      var d := new TriangleDescriptor();
      d.triangleCount := 2;
      d.vertexBuffer := Some(vb);
      d.indexBuffer := Some(ib);
      vertexBuffer, indexBuffer, descriptor := vb, ib, d;
    }

    /** `FloorPlane::update`, src/FloorPlane.cpp:36-38: the floor never changes. */
    method Update()
      ensures unchanged(descriptor)
    {
    }
  }
}
