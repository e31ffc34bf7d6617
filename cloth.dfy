/**
 * The cloth of src/Cloth.cpp: an N by N grid of particles (N is `particleCount`),
 * two triangles per grid cell, one primitive-data record per triangle, the pinned
 * top row, the buffer and dispatch sizes, and the substep loop of `update`.
 */
module Cloth {
  import opened Base
  import opened Gpu
  import opened Dispatch

  // ---------------------------------------------------------------------------
  // Triangle indices, src/Cloth.cpp:7, 12-22
  // ---------------------------------------------------------------------------

  /**
   * Entry `c` of the six that cell (`i`, `j`) writes: the triangles
   * (iN+j, iN+j+1, (i+1)N+j) and (iN+j+1, (i+1)N+j, (i+1)N+j+1).
   */
  function Corner(n: nat, i: nat, j: nat, c: nat): nat
    requires c < 6
  {
    if c == 0 then i * n + j
    else if c == 1 then i * n + j + 1
    else if c == 2 then (i + 1) * n + j
    else if c == 3 then i * n + j + 1
    else if c == 4 then (i + 1) * n + j
    else (i + 1) * n + j + 1
  }

  /** The six entries of cell (`i`, `j`). */
  function CellIndices(n: nat, i: nat, j: nat): (e: seq<nat>)
    ensures |e| == 6
  {
    [Corner(n, i, j, 0), Corner(n, i, j, 1), Corner(n, i, j, 2),
     Corner(n, i, j, 3), Corner(n, i, j, 4), Corner(n, i, j, 5)]
  }

  /** The entries of the first `m` cells of grid row `i`. */
  function RowIndices(n: nat, i: nat, m: nat): (e: seq<nat>)
    ensures |e| == 6 * m
  {
    if m == 0 then [] else RowIndices(n, i, m - 1) + CellIndices(n, i, m - 1)
  }

  /** The entries of the first `rows` grid rows, each `n - 1` cells wide. */
  function GridIndices(n: nat, rows: nat): (e: seq<nat>)
    requires n >= 1
  {
    if rows == 0 then [] else GridIndices(n, rows - 1) + RowIndices(n, rows - 1, n - 1)
  }

  /** The index table of an `n` by `n` cloth. */
  function IndexTable(n: nat): seq<nat>
    requires n >= 1
  {
    GridIndices(n, n - 1)
  }

  /** The slot where entry `c` of cell (`i`, `j`) goes: `6 * (i * (N - 1) + j) + c`. */
  function Slot(n: nat, i: nat, j: nat, c: nat): nat
    requires n >= 1
  {
    6 * Cell(n - 1, i, j) + c
  }

  lemma {:induction false} GridIndicesLength(n: nat, rows: nat)
    requires n >= 1
    ensures |GridIndices(n, rows)| == 6 * (rows * (n - 1))
  {
    if rows > 0 {
      GridIndicesLength(n, rows - 1);
      assert rows * (n - 1) == (rows - 1) * (n - 1) + (n - 1);
    }
  }

  /** The table holds exactly `6(N-1)^2` entries. */
  lemma IndexTableLength(n: nat)
    requires n >= 1
    ensures |IndexTable(n)| == 6 * (n - 1) * (n - 1)
  {
    GridIndicesLength(n, n - 1);
  }

  lemma {:induction false} RowIndicesAt(n: nat, i: nat, m: nat, j: nat, c: nat)
    requires j < m && c < 6
    ensures RowIndices(n, i, m)[6 * j + c] == Corner(n, i, j, c)
  {
    if j < m - 1 {
      RowIndicesAt(n, i, m - 1, j, c);
    }
  }

  lemma {:induction false} GridIndicesAt(n: nat, rows: nat, i: nat, j: nat, c: nat)
    requires n >= 1 && i < rows && j < n - 1 && c < 6
    ensures |GridIndices(n, rows)| == 6 * (rows * (n - 1))
    ensures GridIndices(n, rows)[Slot(n, i, j, c)] == Corner(n, i, j, c)
  {
    GridIndicesLength(n, rows);
    GridIndicesLength(n, rows - 1);
    RowFits(rows - 1, rows, n - 1);
    var prev, last := GridIndices(n, rows - 1), RowIndices(n, rows - 1, n - 1);
    assert GridIndices(n, rows) == prev + last;
    var before := 6 * ((rows - 1) * (n - 1));
    assert |prev| == before && |prev + last| == before + 6 * (n - 1);
    var slot := Slot(n, i, j, c);
    if i < rows - 1 {
      CellInRange(n - 1, rows - 1, i, j);
      assert slot < before;
      GridIndicesAt(n, rows - 1, i, j, c);
      assert (prev + last)[slot] == prev[slot];
    } else {
      assert slot == before + (6 * j + c);
      RowIndicesAt(n, i, n - 1, j, c);
      assert (prev + last)[slot] == last[6 * j + c];
    }
  }

  /** Cell (`i`, `j`) owns slots `6(i(N-1)+j)` to `6(i(N-1)+j)+5` and fills them with its two triangles. */
  lemma CellOwnsSlots(n: nat, i: nat, j: nat, c: nat)
    requires n >= 1 && i < n - 1 && j < n - 1 && c < 6
    ensures Slot(n, i, j, c) < |IndexTable(n)|
    ensures IndexTable(n)[Slot(n, i, j, c)] == Corner(n, i, j, c)
  {
    GridIndicesAt(n, n - 1, i, j, c);
    CellInRange(n - 1, n - 1, i, j);
  }

  /** The slots tile the table: distinct (cell, entry) pairs have distinct slots, and every slot belongs to one. */
  lemma SlotsTile(n: nat, i: nat, j: nat, c: nat, i': nat, j': nat, c': nat)
    requires n >= 1 && j < n - 1 && c < 6 && j' < n - 1 && c' < 6
    ensures Slot(n, i, j, c) == Slot(n, i', j', c') <==> i == i' && j == j' && c == c'
  {
    var k, k' := Cell(n - 1, i, j), Cell(n - 1, i', j');
    if Slot(n, i, j, c) == Slot(n, i', j', c') {
      assert k == k' && c == c';
      CellDecompose(n - 1, i, j);
      CellDecompose(n - 1, i', j');
    }
  }

  /** The cell and entry that own slot `k` of the table: every slot belongs to one. */
  function SlotOwner(n: nat, k: nat): (owner: (nat, nat, nat))
    requires n >= 1 && k < 6 * (n - 1) * (n - 1)
    ensures owner.0 < n - 1 && owner.1 < n - 1 && owner.2 < 6
    ensures Slot(n, owner.0, owner.1, owner.2) == k
  {
    var cell := k / 6;
    assert cell < (n - 1) * (n - 1);
    CellOf(n - 1, n - 1, cell);
    (cell / (n - 1), cell % (n - 1), k % 6)
  }

  /** Every corner of every cell is a particle of the grid. */
  lemma CornerInRange(n: nat, i: nat, j: nat, c: nat)
    requires i < n - 1 && j < n - 1 && c < 6
    ensures Corner(n, i, j, c) < n * n
  {
    CellInRange(n, n, i + 1, j + 1);
  }

  predicate Distinct3(a: nat, b: nat, c: nat)
  {
    a != b && b != c && a != c
  }

  /** Each triangle of a cell has three distinct vertices. */
  lemma TrianglesProper(n: nat, i: nat, j: nat)
    requires n >= 2
    ensures Distinct3(Corner(n, i, j, 0), Corner(n, i, j, 1), Corner(n, i, j, 2))
    ensures Distinct3(Corner(n, i, j, 3), Corner(n, i, j, 4), Corner(n, i, j, 5))
  {
    assert (i + 1) * n == i * n + n;
  }

  /** Every index in the table is less than `N * N`. */
  lemma IndicesInRange(n: nat, k: nat)
    requires n >= 1 && k < |IndexTable(n)|
    ensures IndexTable(n)[k] < n * n
  {
    IndexTableLength(n);
    var (i, j, c) := SlotOwner(n, k);
    CellOwnsSlots(n, i, j, c);
    CornerInRange(n, i, j, c);
  }

  /** The six entries of one cell, written into `indices` at `index`, src/Cloth.cpp:15-20. */
  method WriteCell(indices: array<nat>, n: nat, i: nat, j: nat, index: nat)
    requires index + 6 <= indices.Length
    modifies indices
    ensures indices[..index + 6] == old(indices[..index]) + CellIndices(n, i, j)
  {
    indices[index] := i * n + j;
    indices[index + 1] := i * n + j + 1;
    indices[index + 2] := (i + 1) * n + j;
    indices[index + 3] := i * n + j + 1;
    indices[index + 4] := (i + 1) * n + j;
    indices[index + 5] := (i + 1) * n + j + 1;
  }

  function RowPrefix(n: nat, i: nat, j: nat): seq<nat>
    requires n >= 1
  {
    GridIndices(n, i) + RowIndices(n, i, j)
  }

  lemma RowPrefixStep(n: nat, i: nat, j: nat)
    requires n >= 1
    ensures RowPrefix(n, i, j + 1) == RowPrefix(n, i, j) + CellIndices(n, i, j)
  {
  }

  /** The inner loop of src/Cloth.cpp:13-21: the cells of grid row `i`, left to right. */
  method GenerateRow(indices: array<nat>, n: nat, i: nat, ghost rowStart: nat)
    requires n >= 1 && i < n - 1 && rowStart == i * (n - 1)
    requires 6 * (rowStart + (n - 1)) <= indices.Length
    requires indices[..6 * rowStart] == GridIndices(n, i)
    modifies indices
    ensures indices[..6 * (rowStart + (n - 1))] == GridIndices(n, i + 1)
  {
    var j := 0;
    while j < n - 1
      invariant 0 <= j <= n - 1
      invariant indices[..6 * (rowStart + j)] == RowPrefix(n, i, j)
    {
      var index := 6 * (i * (n - 1) + j);
      WriteCell(indices, n, i, j, index);
      RowPrefixStep(n, i, j);
      j := j + 1;
    }
  }

  /** The index-generation loops, src/Cloth.cpp:7, 12-22. */
  method GenerateIndices(n: nat) returns (indices: array<nat>)
    requires n >= 1
    ensures fresh(indices)
    ensures indices[..] == IndexTable(n)
  {
    var m := n - 1;
    var cells := m * m;
    indices := new nat[6 * cells];
    var i := 0;
    ghost var rowStart := 0;
    while i < m
      invariant 0 <= i <= m && rowStart == i * m
      invariant indices.Length == 6 * cells
      invariant indices[..6 * rowStart] == GridIndices(n, i)
    {
      RowFits(i, m, m);
      GenerateRow(indices, n, i, rowStart);
      rowStart := rowStart + m;
      i := i + 1;
    }
    assert indices[..] == indices[..6 * rowStart];
  }

  // ---------------------------------------------------------------------------
  // Primitive data and particles, src/Cloth.cpp:8-9, 24-43
  // ---------------------------------------------------------------------------

  /** The record every cloth triangle starts with: all three normals `(0, 0, -1)`. */
  const FACING_VIEWER: PrimitiveData :=
    PrimitiveData(Vec3(0, 0, -1), Vec3(0, 0, -1), Vec3(0, 0, -1))

  /** The number of triangles of an `n` by `n` cloth, `2(N-1)^2`. */
  function TriangleCount(n: nat): nat
    requires n >= 1
  {
    2 * (n - 1) * (n - 1)
  }

  /** Two triangles per cell: the index table holds three vertex indices per triangle. */
  lemma IndicesPerTriangle(n: nat)
    requires n >= 1
    ensures |IndexTable(n)| == 3 * TriangleCount(n)
  {
    IndexTableLength(n);
  }

  /** The primitive-data loop, src/Cloth.cpp:24-27: one record per triangle. */
  method GeneratePrimitiveData(n: nat) returns (data: array<PrimitiveData>)
    requires n >= 1
    ensures fresh(data)
    ensures data.Length == TriangleCount(n)
    ensures forall k :: 0 <= k < data.Length ==> data[k] == FACING_VIEWER
  {
    data := new PrimitiveData[2 * (n - 1) * (n - 1)];
    var i := 0;
    while i < 2 * (n - 1) * (n - 1)
      invariant 0 <= i <= data.Length
      invariant forall k :: 0 <= k < i ==> data[k] == FACING_VIEWER
    {
      data[i] := FACING_VIEWER;
      i := i + 1;
    }
  }

  /** Particle (`i`, `j`) is stored at `i * N + j`; only the particles of row 0 are pinned. */
  lemma PinnedRow(n: nat, i: nat, j: nat)
    requires i < n && j < n
    ensures Cell(n, i, j) >= n <==> i > 0
  {
    if i > 0 {
      MulMonotone(1, i, n);
    }
  }

  /** The particle loops, src/Cloth.cpp:29-43: `alive` is `i > 0`. */
  method GenerateParticles(n: nat) returns (particles: array<Particle>)
    ensures fresh(particles)
    ensures particles.Length == n * n
    ensures forall k :: 0 <= k < n * n ==> (particles[k].alive <==> k >= n)
  {
    particles := new Particle[n * n];
    var i := 0;
    var base := 0;
    while i < n
      invariant 0 <= i <= n && base == i * n <= particles.Length
      invariant forall k :: 0 <= k < base ==> (particles[k].alive <==> k >= n)
    {
      RowFits(i, n, n);
      var j := 0;
      while j < n
        invariant 0 <= j <= n
        invariant forall k :: 0 <= k < base + j ==> (particles[k].alive <==> k >= n)
      {
        PinnedRow(n, i, j);
        particles[i * n + j] := Particle(i > 0);
        j := j + 1;
      }
      i, base := i + 1, base + n;
    }
  }

  /** Exactly the `N` particles of row 0 are not alive. */
  function PinnedCount(ps: seq<Particle>): (c: nat)
    ensures c <= |ps|
  {
    if ps == [] then 0 else PinnedCount(ps[..|ps| - 1]) + (if ps[|ps| - 1].alive then 0 else 1)
  }

  lemma {:induction false} PinnedCountRow(ps: seq<Particle>, n: nat, m: nat)
    requires m <= |ps|
    requires forall k :: 0 <= k < |ps| ==> (ps[k].alive <==> k >= n)
    ensures PinnedCount(ps[..m]) == if m <= n then m else n
  {
    if m > 0 {
      assert ps[..m][..m - 1] == ps[..m - 1];
      PinnedCountRow(ps, n, m - 1);
    }
  }

  lemma PinnedCountIsN(ps: seq<Particle>, n: nat)
    requires |ps| == n * n
    requires forall k :: 0 <= k < |ps| ==> (ps[k].alive <==> k >= n)
    ensures PinnedCount(ps) == n
  {
    PinnedCountRow(ps, n, |ps|);
    assert ps[..|ps|] == ps;
    if n > 0 {
      MulMonotone(1, n, n);
    }
  }

  // ---------------------------------------------------------------------------
  // Iterations of the substep loop, src/Cloth.cpp:100-102
  // ---------------------------------------------------------------------------

  const UINT_RANGE: real := 4294967296.0

  /**
   * The substep loop counts with a signed `int i`; its last increment reaches
   * `iterations`, which overflows unless `iterations` is below 2^31.
   */
  const INT_RANGE: real := 2147483648.0

  /**
   * The conversion of a `float` quotient to `unsigned int`: truncation toward zero,
   * defined only when the result is representable.
   */
  function Truncate(q: real): (r: nat)
    requires -1.0 < q < UINT_RANGE
    ensures q >= 0.0 ==> r as real <= q < r as real + 1.0
    ensures q < 1.0 ==> r == 0
  {
    if q < 0.0 then 0 else q.Floor
  }

  /** `dt / TARGET_TIMESTEP` substeps per frame. */
  function Iterations(dt: real, target: real): nat
    requires target > 0.0 && -1.0 < dt / target < UINT_RANGE
  {
    Truncate(dt / target)
  }

  /** `dt / iterations`; with no iterations the `float` division gives an infinity or NaN, here `None`. */
  function Substep(dt: real, iterations: nat): (fdt: Option<real>)
    ensures fdt.Some? <==> iterations > 0
    ensures fdt.Some? ==> fdt.value * iterations as real == dt
  {
    if iterations == 0 then None else Some(dt / iterations as real)
  }

  /** A command repeated `k` times. */
  function Repeat(c: Command, k: nat): (cs: seq<Command>)
    ensures |cs| == k && forall m :: 0 <= m < k ==> cs[m] == c
  {
    seq(k, _ => c)
  }

  lemma {:induction false} RepeatDispatches(groups: Size, threads: Size, k: nat)
    ensures Dispatches(Repeat(DispatchThreadgroups(groups, threads), k)) == k
  {
    if k > 0 {
      var r := Repeat(DispatchThreadgroups(groups, threads), k);
      assert r[..k - 1] == Repeat(DispatchThreadgroups(groups, threads), k - 1);
      RepeatDispatches(groups, threads, k - 1);
    }
  }

  /** The substeps of one frame fill the frame time: `iterations` whole substeps fit, one more would not. */
  lemma IterationsFillFrame(dt: real, target: real)
    requires target > 0.0 && 0.0 <= dt && dt / target < UINT_RANGE
    ensures Iterations(dt, target) as real * target <= dt < (Iterations(dt, target) as real + 1.0) * target
  {
    var q := dt / target;
    assert q * target == dt;
    Bracket(dt, target, q, Iterations(dt, target) as real);
  }

  lemma Bracket(dt: real, target: real, q: real, it: real)
    requires target > 0.0 && q * target == dt && it <= q < it + 1.0
    ensures it * target <= dt
    ensures dt < (it + 1.0) * target
  {
    var below, above := q - it, it + 1.0 - q;
    assert below >= 0.0 && above > 0.0;
    assert below * target >= 0.0;
    assert above * target > 0.0;
    assert below * target == dt - it * target;
    assert above * target == (it + 1.0) * target - dt;
  }

  // ---------------------------------------------------------------------------
  // Buffers and descriptor, src/Cloth.cpp:66-85
  // ---------------------------------------------------------------------------

  /**
   * The four buffers of an `n` by `n` cloth: `3N^2` floats of vertex positions (never
   * filled), the index table, one primitive-data record per triangle and the particles,
   * of which only row 0 is pinned.
   */
  predicate ClothBuffers(n: nat, vb: Buffer, ib: Buffer, db: Buffer, pb: Buffer)
    requires n >= 1
  {
    && vb.length == 3 * n * n * FLOAT_SIZE
    && ib.length == 6 * (n - 1) * (n - 1) * UINT_SIZE
    && ib.contents == Indices(IndexTable(n))
    && db.length == TriangleCount(n) * PRIMITIVE_DATA_SIZE
    && db.contents == Primitives(seq(TriangleCount(n), _ => FACING_VIEWER))
    && pb.length == n * n * PARTICLE_SIZE
    && pb.contents.Particles? && |pb.contents.particles| == n * n
    && (forall k :: 0 <= k < n * n ==> (pb.contents.particles[k].alive <==> k >= n))
  }

  /** The buffer creation and copies of src/Cloth.cpp:66-77. */
  method NewClothBuffers(n: nat) returns (vb: Buffer, ib: Buffer, db: Buffer, pb: Buffer)
    requires n >= 1
    ensures fresh(vb) && fresh(ib) && fresh(db) && fresh(pb)
    ensures ClothBuffers(n, vb, ib, db, pb)
  {
    var indices := GenerateIndices(n);
    var primitiveData := GeneratePrimitiveData(n);
    var particleData := GenerateParticles(n);
    assert primitiveData[..] == seq(TriangleCount(n), _ => FACING_VIEWER);
    vb := new Buffer(3 * n * n * FLOAT_SIZE, Unwritten);
    ib := new Buffer(6 * (n - 1) * (n - 1) * UINT_SIZE, Indices(indices[..]));
    db := new Buffer(TriangleCount(n) * PRIMITIVE_DATA_SIZE, Primitives(primitiveData[..]));
    pb := new Buffer(n * n * PARTICLE_SIZE, Particles(particleData[..]));
  }

  // ---------------------------------------------------------------------------
  // The cloth object
  // ---------------------------------------------------------------------------

  /** A cloth: its buffers, its descriptor and the simulation kernel with its grid. */
  class Cloth {
    const vertexBuffer: Buffer
    const indexBuffer: Buffer
    const dataBuffer: Buffer
    const particleBuffer: Buffer
    const descriptor: TriangleDescriptor
    const pipeline: Pipeline
    const clothTPG: Size
    const clothTPT: Size

    /**
     * `Cloth::Cloth`, src/Cloth.cpp:3-90, for `particleCount >= 1` (with 0 the unsigned
     * `particleCount - 1` wraps and the loops run off the arrays). The simulation
     * pipeline is a parameter; the vertex array is never filled in the source, so the
     * vertex buffer holds nothing known.
     */
    constructor (particleCount: nat, pipeline: Pipeline)
      requires particleCount >= 1
      requires Sizable(pipeline.threadExecutionWidth, pipeline.maxTotalThreadsPerThreadgroup)
      ensures this.pipeline == pipeline
      ensures clothTPT == ThreadsPerGroup(pipeline.threadExecutionWidth, pipeline.maxTotalThreadsPerThreadgroup)
      ensures clothTPG == GroupsPerGrid(Size(particleCount, particleCount, 1), clothTPT)
      ensures ClothBuffers(particleCount, vertexBuffer, indexBuffer, dataBuffer, particleBuffer)
      ensures fresh(descriptor)
      ensures Describes(descriptor, TriangleCount(particleCount), vertexBuffer, indexBuffer, dataBuffer)
    {
      this.pipeline := pipeline;
      var clothGroupWidth := pipeline.threadExecutionWidth;
      var clothGroupHeight := pipeline.maxTotalThreadsPerThreadgroup / clothGroupWidth;
      clothTPG := Size((particleCount + clothGroupWidth - 1) / clothGroupWidth,
                       (particleCount + clothGroupHeight - 1) / clothGroupHeight, 1);
      clothTPT := Size(clothGroupWidth, clothGroupHeight, 1);
      var vb, ib, db, pb := NewClothBuffers(particleCount);
      var d := NewDescriptor(2 * (particleCount - 1) * (particleCount - 1), vb, ib, db);
      vertexBuffer, indexBuffer, dataBuffer, particleBuffer := vb, ib, db, pb;
      descriptor := d;
    }

    /** What `update` encodes before its loop: the substep, the scene, the particle and vertex buffers and the kernel. */
    function Prologue(accel: AccelerationStructure, fdt: Option<real>): seq<Command>
    {
      [BeginCompute,
       SetBytes(Timestep(fdt), 0),
       SetAccelerationStructure(accel, 1),
       SetBuffer(Some(particleBuffer), 2),
       SetBuffer(Some(vertexBuffer), 3),
       SetPipeline(pipeline)]
    }

    /** The commands one `update` encodes. */
    function UpdatePass(accel: AccelerationStructure, dt: real, target: real): seq<Command>
      requires target > 0.0 && -1.0 < dt / target < INT_RANGE
    {
      var iterations := Iterations(dt, target);
      Prologue(accel, Substep(dt, iterations))
        + Repeat(DispatchThreadgroups(clothTPG, clothTPT), iterations) + [EndEncoding]
    }

    /** One `update` dispatches the simulation kernel `dt / TARGET_TIMESTEP` times, truncated. */
    lemma UpdateDispatches(accel: AccelerationStructure, dt: real, target: real)
      requires target > 0.0 && -1.0 < dt / target < INT_RANGE
      ensures Dispatches(UpdatePass(accel, dt, target)) == Iterations(dt, target)
    {
      var iterations := Iterations(dt, target);
      var prologue := Prologue(accel, Substep(dt, iterations));
      var groups := Repeat(DispatchThreadgroups(clothTPG, clothTPT), iterations);
      DispatchesAppend(prologue, groups);
      DispatchesAppend(prologue + groups, [EndEncoding]);
      RepeatDispatches(clothTPG, clothTPT, iterations);
      NoDispatches(prologue);
      NoDispatches([EndEncoding]);
    }

    /**
     * `Cloth::update`, src/Cloth.cpp:99-112, with `TARGET_TIMESTEP` as `target` (it is
     * not defined in the files of this model). A quotient that does not fit an
     * `unsigned int`, or that the signed loop counter cannot reach without overflow, is
     * undefined behaviour and is excluded.
     */
    method Update(cmd: CommandBuffer, accel: AccelerationStructure, dt: real, target: real)
      requires target > 0.0 && -1.0 < dt / target < INT_RANGE
      modifies cmd
      ensures cmd.commands == old(cmd.commands) + UpdatePass(accel, dt, target)
    {
      var iterations := Truncate(dt / target);
      var fdt := if iterations == 0 then None else Some(dt / iterations as real);
      cmd.commands := cmd.commands + Prologue(accel, fdt);
      var i := 0;
      while i < iterations
        invariant 0 <= i <= iterations
        invariant cmd.commands == old(cmd.commands) + Prologue(accel, fdt)
          + Repeat(DispatchThreadgroups(clothTPG, clothTPT), i)
      {
        cmd.commands := cmd.commands + [DispatchThreadgroups(clothTPG, clothTPT)];
        assert Repeat(DispatchThreadgroups(clothTPG, clothTPT), i) + [DispatchThreadgroups(clothTPG, clothTPT)]
          == Repeat(DispatchThreadgroups(clothTPG, clothTPT), i + 1);
        i := i + 1;
      }
      cmd.commands := cmd.commands + [EndEncoding];
    }

    /** `Cloth::updateGeometry`, src/Cloth.cpp:114-116: rebind the vertex buffer; nothing else changes. */
    method UpdateGeometry()
      modifies descriptor
      ensures descriptor.vertexBuffer == Some(vertexBuffer)
      ensures descriptor.triangleCount == old(descriptor.triangleCount)
      ensures descriptor.indexBuffer == old(descriptor.indexBuffer)
      ensures descriptor.primitiveDataBuffer == old(descriptor.primitiveDataBuffer)
      ensures descriptor.primitiveDataStride == old(descriptor.primitiveDataStride)
      ensures descriptor.primitiveDataElementSize == old(descriptor.primitiveDataElementSize)
    {
      descriptor.vertexBuffer := Some(vertexBuffer);
    }
  }

  /** The cloth grid covers every particle on both axes, with no surplus group. */
  lemma ClothGridFits(n: nat, threadWidth: nat, maxTotal: nat)
    requires Sizable(threadWidth, maxTotal)
    ensures var t := ThreadsPerGroup(threadWidth, maxTotal);
      var g := GroupsPerGrid(Size(n, n, 1), t);
      Covers(g, t, Size(n, n, 1)) && Minimal(g, t, Size(n, n, 1)) && g.depth == 1
  {
    GridFits(Size(n, n, 1), threadWidth, maxTotal);
  }
}
