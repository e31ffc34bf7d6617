/**
 * What makes a constant triangle table usable by an indexed triangle geometry: three
 * indices per triangle, every index naming an existing vertex, and no triangle that
 * repeats a vertex.
 */
module Mesh {

  /** Every index names one of the first `vertexCount` vertices. */
  predicate IndicesBelow(indices: seq<nat>, vertexCount: nat)
  {
    forall k :: 0 <= k < |indices| ==> indices[k] < vertexCount
  }

  /** The three vertex indices of triangle `t`. */
  function Triangle(indices: seq<nat>, t: nat): (nat, nat, nat)
    requires 3 * t + 2 < |indices|
  {
    (indices[3 * t], indices[3 * t + 1], indices[3 * t + 2])
  }

  /** Three different vertices. */
  predicate Distinct(tri: (nat, nat, nat))
  {
    tri.0 != tri.1 && tri.0 != tri.2 && tri.1 != tri.2
  }

  /** The table holds whole triangles and none of them repeats a vertex. */
  predicate ProperTriangles(indices: seq<nat>)
  {
    && |indices| % 3 == 0
    && forall t :: 0 <= t < |indices| / 3 ==> Distinct(Triangle(indices, t))
  }

  /** Every one of the first `vertexCount` vertices belongs to some triangle. */
  predicate UsesEvery(indices: seq<nat>, vertexCount: nat)
  {
    forall v :: 0 <= v < vertexCount ==> v in indices
  }
}
