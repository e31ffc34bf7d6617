/**
 * src/Cube.cpp: a cube of side `size` standing on the plane y = 0, as eight vertices,
 * a constant table of twelve triangles and one primitive-data record per triangle
 * holding the normals of its three vertices.
 */
module Cube {
  import opened Base
  import opened Gpu
  import opened Mesh

  /** The triangle count given to the descriptor (src/Cube.cpp:56). */
  const CUBE_TRIANGLE_COUNT: nat := 12

  /** The number of vertices: 24 floats, three per vertex (src/Cube.cpp:34-45). */
  const CUBE_VERTEX_COUNT: nat := 8

  /** `indices[36]`, src/Cube.cpp:3-16: two triangles per face. */
  const CUBE_INDICES: seq<nat> := [
    0, 1, 2,
    1, 2, 3,
    0, 1, 4,
    1, 4, 5,
    0, 2, 4,
    2, 4, 6,
    2, 3, 6,
    3, 6, 7,
    3, 1, 7,
    1, 7, 5,
    4, 5, 6,
    5, 6, 7
  ]

  /**
   * The vertex array of the constructor, src/Cube.cpp:34-43: vertex `k` has x on the
   * positive side when bit 1 of `k` is set, y = `size` when bit 2 is set, and z on the
   * positive side when bit 0 is set.
   */
  function CubeVertices(size: real): (vs: seq<Vec3r>)
    ensures |vs| == CUBE_VERTEX_COUNT
    ensures forall k :: 0 <= k < |vs| ==>
      && vs[k].x == (if k % 4 >= 2 then size / 2.0 else -size / 2.0)
      && vs[k].y == (if k >= 4 then size else 0.0)
      && vs[k].z == (if k % 2 == 1 then size / 2.0 else -size / 2.0)
  {
    var h := size / 2.0;
    [Vec3r(-h, 0.0, -h), Vec3r(-h, 0.0, h), Vec3r(h, 0.0, -h), Vec3r(h, 0.0, h),
     Vec3r(-h, size, -h), Vec3r(-h, size, h), Vec3r(h, size, -h), Vec3r(h, size, h)]
  }

  /** A record whose three vertex normals are all `n`. */
  function Flat(n: Vec3): PrimitiveData
  {
    PrimitiveData(n, n, n)
  }

  const DOWN: Vec3 := Vec3(0, -1, 0)
  const UP: Vec3 := Vec3(0, 1, 0)
  const LEFT: Vec3 := Vec3(-1, 0, 0)
  const RIGHT: Vec3 := Vec3(1, 0, 0)
  const BACK: Vec3 := Vec3(0, 0, -1)
  const FRONT: Vec3 := Vec3(0, 0, 1)

  /**
   * `primitiveData[12]` exactly as src/Cube.cpp:18-31 writes it: the first record's
   * first normal is the zero vector.
   */
  const PRIMITIVE_DATA_AS_WRITTEN: seq<PrimitiveData> := [
    PrimitiveData(Vec3(0, 0, 0), DOWN, DOWN), Flat(DOWN),
    Flat(LEFT), Flat(LEFT),
    Flat(BACK), Flat(BACK),
    Flat(RIGHT), Flat(RIGHT),
    Flat(FRONT), Flat(FRONT),
    Flat(UP), Flat(UP)
  ]

  /** The table with the first record's first normal pointing down like the other two. */
  const CUBE_PRIMITIVE_DATA: seq<PrimitiveData> := [
    Flat(DOWN), Flat(DOWN),
    Flat(LEFT), Flat(LEFT),
    Flat(BACK), Flat(BACK),
    Flat(RIGHT), Flat(RIGHT),
    Flat(FRONT), Flat(FRONT),
    Flat(UP), Flat(UP)
  ]

  /** The index table holds three in-range, distinct indices per triangle and uses every vertex. */
  lemma CubeIndicesValid()
    ensures |CUBE_INDICES| == 3 * CUBE_TRIANGLE_COUNT
    ensures IndicesBelow(CUBE_INDICES, CUBE_VERTEX_COUNT)
    ensures ProperTriangles(CUBE_INDICES)
    ensures UsesEvery(CUBE_INDICES, CUBE_VERTEX_COUNT)
  {
    CubeTrianglesProper();
    CubeVerticesUsed();
  }

  lemma CubeTrianglesProper()
    ensures ProperTriangles(CUBE_INDICES)
  {
    forall t | 0 <= t < CUBE_TRIANGLE_COUNT
      ensures Distinct(Triangle(CUBE_INDICES, t))
    {
      if t < 6 {
        LowerTrianglesProper(t);
      } else {
        UpperTrianglesProper(t);
      }
    }
  }

  lemma LowerTrianglesProper(t: nat)
    requires t < 6
    ensures Distinct(Triangle(CUBE_INDICES, t))
  {
    assert Triangle(CUBE_INDICES, t) == [(0, 1, 2), (1, 2, 3), (0, 1, 4), (1, 4, 5), (0, 2, 4), (2, 4, 6)][t];
  }

  lemma UpperTrianglesProper(t: nat)
    requires 6 <= t < 12
    ensures Distinct(Triangle(CUBE_INDICES, t))
  {
    assert Triangle(CUBE_INDICES, t) == [(2, 3, 6), (3, 6, 7), (3, 1, 7), (1, 7, 5), (4, 5, 6), (5, 6, 7)][t - 6];
  }

  lemma CubeVerticesUsed()
    ensures UsesEvery(CUBE_INDICES, CUBE_VERTEX_COUNT)
  {
    assert CUBE_INDICES[0] == 0 && CUBE_INDICES[1] == 1 && CUBE_INDICES[2] == 2 && CUBE_INDICES[5] == 3;
    assert CUBE_INDICES[8] == 4 && CUBE_INDICES[11] == 5 && CUBE_INDICES[17] == 6 && CUBE_INDICES[23] == 7;
  }

  /** One primitive-data record per triangle, in the table as written and in the corrected one. */
  lemma CubeRecordsPerTriangle()
    ensures |PRIMITIVE_DATA_AS_WRITTEN| == CUBE_TRIANGLE_COUNT
    ensures |CUBE_PRIMITIVE_DATA| == CUBE_TRIANGLE_COUNT
  {
  }

  /** One of the six unit vectors along the axes. */
  predicate UnitAxis(n: Vec3)
  {
    n in {DOWN, UP, LEFT, RIGHT, BACK, FRONT}
  }

  /**
   * `p` lies on the face of the cube whose outward normal is `n`: its offset from the
   * cube's centre `(0, size/2, 0)` has component `size/2` along `n`.
   */
  predicate OnFace(n: Vec3, p: Vec3r, size: real)
  {
    n.x as real * p.x + n.y as real * (p.y - size / 2.0) + n.z as real * p.z == size / 2.0
  }

  /** A record fits a triangle: its three normals are one axis vector, and the face with that outward normal holds all three vertices. */
  predicate FitsTriangle(r: PrimitiveData, a: Vec3r, b: Vec3r, c: Vec3r, size: real)
  {
    && UnitAxis(r.v0Normal) && r.v1Normal == r.v0Normal && r.v2Normal == r.v0Normal
    && OnFace(r.v0Normal, a, size) && OnFace(r.v0Normal, b, size) && OnFace(r.v0Normal, c, size)
  }

  /** Record `t` of `data` fits triangle `t` of the index table. */
  predicate RecordFits(data: seq<PrimitiveData>, t: nat, size: real)
    requires t < CUBE_TRIANGLE_COUNT && |data| == CUBE_TRIANGLE_COUNT
  {
    var vs := CubeVertices(size);
    var (a, b, c) := Triangle(CUBE_INDICES, t);
    FitsTriangle(data[t], vs[a], vs[b], vs[c], size)
  }

  /** Every record of the corrected table is the outward normal of the face its triangle lies on. */
  lemma CubeNormalsFaceOutward(size: real, t: nat)
    requires t < CUBE_TRIANGLE_COUNT
    ensures RecordFits(CUBE_PRIMITIVE_DATA, t, size)
  {
    if t < 4 {
      BottomAndLeftFit(size, t);
    } else if t < 8 {
      BackAndRightFit(size, t);
    } else {
      FrontAndTopFit(size, t);
    }
  }

  /** Triangles 0 to 3: the bottom and the left face. */
  lemma BottomAndLeftFit(size: real, t: nat)
    requires 0 <= t < 4
    ensures RecordFits(CUBE_PRIMITIVE_DATA, t, size)
  {
    var (a, b, c) := Triangle(CUBE_INDICES, t);
    var n := CUBE_PRIMITIVE_DATA[t].v0Normal;
    assert CUBE_PRIMITIVE_DATA[t] == Flat(n);
    if t == 0 {
      assert (a, b, c) == (0, 1, 2) && n == DOWN;
    } else if t == 1 {
      assert (a, b, c) == (1, 2, 3) && n == DOWN;
    } else if t == 2 {
      assert (a, b, c) == (0, 1, 4) && n == LEFT;
    } else {
      assert (a, b, c) == (1, 4, 5) && n == LEFT;
    }
  }

  /** Triangles 4 to 7: the back and the right face. */
  lemma BackAndRightFit(size: real, t: nat)
    requires 4 <= t < 8
    ensures RecordFits(CUBE_PRIMITIVE_DATA, t, size)
  {
    var (a, b, c) := Triangle(CUBE_INDICES, t);
    var n := CUBE_PRIMITIVE_DATA[t].v0Normal;
    assert CUBE_PRIMITIVE_DATA[t] == Flat(n);
    if t == 4 {
      assert (a, b, c) == (0, 2, 4) && n == BACK;
    } else if t == 5 {
      assert (a, b, c) == (2, 4, 6) && n == BACK;
    } else if t == 6 {
      assert (a, b, c) == (2, 3, 6) && n == RIGHT;
    } else {
      assert (a, b, c) == (3, 6, 7) && n == RIGHT;
    }
  }

  /** Triangles 8 to 11: the front and the top face. */
  lemma FrontAndTopFit(size: real, t: nat)
    requires 8 <= t < 12
    ensures RecordFits(CUBE_PRIMITIVE_DATA, t, size)
  {
    var (a, b, c) := Triangle(CUBE_INDICES, t);
    var n := CUBE_PRIMITIVE_DATA[t].v0Normal;
    assert CUBE_PRIMITIVE_DATA[t] == Flat(n);
    if t == 8 {
      assert (a, b, c) == (3, 1, 7) && n == FRONT;
    } else if t == 9 {
      assert (a, b, c) == (1, 7, 5) && n == FRONT;
    } else if t == 10 {
      assert (a, b, c) == (4, 5, 6) && n == UP;
    } else {
      assert (a, b, c) == (5, 6, 7) && n == UP;
    }
  }

  /** The table as written differs from the corrected one only in the first normal of record 0, which fits no face. */
  lemma CubeRecordZeroAsWritten(size: real)
    ensures !RecordFits(PRIMITIVE_DATA_AS_WRITTEN, 0, size)
    ensures PRIMITIVE_DATA_AS_WRITTEN[0] == CUBE_PRIMITIVE_DATA[0].(v0Normal := Vec3(0, 0, 0))
    ensures forall t :: 1 <= t < CUBE_TRIANGLE_COUNT ==> PRIMITIVE_DATA_AS_WRITTEN[t] == CUBE_PRIMITIVE_DATA[t]
  {
    assert !UnitAxis(Vec3(0, 0, 0));
  }

  /** A cube: its three buffers and its triangle descriptor. */
  class Cube {
    const vertexBuffer: Buffer
    const indexBuffer: Buffer
    const dataBuffer: Buffer
    const descriptor: TriangleDescriptor

    /**
     * `Cube::Cube`, src/Cube.cpp:33-66: each buffer is exactly as long as the table
     * copied into it, and the descriptor names the twelve triangles, the three buffers
     * and the record size.
     */
    constructor (size: real)
      ensures vertexBuffer.length == 3 * |CubeVertices(size)| * FLOAT_SIZE
      ensures vertexBuffer.contents == Positions(CubeVertices(size))
      ensures indexBuffer.length == |CUBE_INDICES| * UINT_SIZE
      ensures indexBuffer.contents == Indices(CUBE_INDICES)
      ensures dataBuffer.length == |CUBE_PRIMITIVE_DATA| * PRIMITIVE_DATA_SIZE
      ensures dataBuffer.contents == Primitives(CUBE_PRIMITIVE_DATA)
      ensures fresh(descriptor)
      ensures Describes(descriptor, CUBE_TRIANGLE_COUNT, vertexBuffer, indexBuffer, dataBuffer)
    {
      var vb := new Buffer(24 * FLOAT_SIZE, Positions(CubeVertices(size)));
      var ib := new Buffer(36 * UINT_SIZE, Indices(CUBE_INDICES));
      var db := new Buffer(12 * PRIMITIVE_DATA_SIZE, Primitives(CUBE_PRIMITIVE_DATA));
      var d := NewDescriptor(12, vb, ib, db);
      vertexBuffer, indexBuffer, dataBuffer, descriptor := vb, ib, db, d;
    }

    /** `Cube::update`, src/Cube.cpp:72-74: the cube never changes. */
    method Update()
      ensures unchanged(descriptor)
    {
    }
  }
}
