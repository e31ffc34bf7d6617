/** Small value types shared by every module of the model. */
module Base {

  /** A value that may be absent (a null handle, a failed read). */
  datatype Option<+T> = None | Some(value: T)

  /** The outcome of an operation that the source aborts on error. */
  datatype Result<+T, +E> = Ok(value: T) | Err(error: E)

  /** An integer 3-vector: the `simd::float3` values of the core that only ever hold whole numbers. */
  datatype Vec3 = Vec3(x: int, y: int, z: int)

  /** A 3-vector of reals, for the few floating-point constants the model keeps. */
  datatype Vec3r = Vec3r(x: real, y: real, z: real)

  /** `MTL::Size`: a width, height and depth of a dispatch grid or of a thread group. */
  datatype Size = Size(width: nat, height: nat, depth: nat)

  /** Ceiling division, as `(n + d - 1) / d` on non-negative operands. */
  function CeilDiv(n: nat, d: nat): (q: nat)
    requires d > 0
    ensures q * d >= n
    ensures n > 0 ==> (q - 1) * d < n
    ensures n == 0 ==> q == 0
  {
    (n + d - 1) / d
  }

  // ---------------------------------------------------------------------------
  // Index arithmetic of the row-major buffers
  // ---------------------------------------------------------------------------

  /** The row-major position of row `i`, column `j` in a buffer `width` entries wide. */
  function Cell(width: nat, i: nat, j: nat): nat
  {
    i * width + j
  }

  lemma MulMonotone(a: nat, b: nat, w: nat)
    requires a <= b
    ensures a * w <= b * w
  {
    assert b * w == a * w + (b - a) * w;
  }

  lemma CellInRange(width: nat, rows: nat, i: nat, j: nat)
    requires i < rows && j < width
    ensures Cell(width, i, j) < rows * width
    ensures Cell(width, i, j) + (width - j) <= rows * width
  {
    MulMonotone(i + 1, rows, width);
  }

  lemma CellDecompose(width: nat, i: nat, j: nat)
    requires j < width
    ensures Cell(width, i, j) / width == i && Cell(width, i, j) % width == j
  {
    var k := Cell(width, i, j);
    var q, r := k / width, k % width;
    assert q * width + r == i * width + j;
    if q < i {
      MulMonotone(q + 1, i, width);
      assert false;
    } else if q > i {
      MulMonotone(i + 1, q, width);
      assert false;
    }
  }

  lemma CellOf(width: nat, rows: nat, k: nat)
    requires k < rows * width
    ensures width > 0 && k / width < rows && k == Cell(width, k / width, k % width)
  {
    if width == 0 {
      assert false;
    }
    if k / width >= rows {
      MulMonotone(rows, k / width, width);
      assert false;
    }
  }

  lemma RowFits(i: nat, rows: nat, width: nat)
    requires i < rows
    ensures (i + 1) * width == i * width + width <= rows * width
  {
    MulMonotone(i + 1, rows, width);
  }
}
