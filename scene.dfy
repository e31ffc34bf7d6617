/**
 * src/Scene.cpp: a scene holds its objects in insertion order and an acceleration-
 * structure descriptor whose geometry list is rebuilt from them; each frame it asks
 * every object to update itself, then encodes one motion-vector dispatch per object.
 */
module Scene {
  import opened Base
  import opened Gpu
  import Cloth
  import opened Dispatch
  import Cube
  import FloorPlane

  /** The three kinds of scene object of the core. */
  datatype SceneObject =
    | ClothObject(cloth: Cloth.Cloth)
    | CubeObject(cube: Cube.Cube)
    | FloorObject(floor: FloorPlane.FloorPlane)

  /** `getDescriptor`: the object's triangle geometry descriptor. */
  function DescriptorOf(o: SceneObject): TriangleDescriptor
  {
    match o
    case ClothObject(c) => c.descriptor
    case CubeObject(c) => c.descriptor
    case FloorObject(f) => f.descriptor
  }

  /** The objects' descriptors, one per object, in the objects' order. */
  function Descriptors(os: seq<SceneObject>): (ds: seq<TriangleDescriptor>)
    ensures |ds| == |os|
    ensures forall k :: 0 <= k < |os| ==> ds[k] == DescriptorOf(os[k])
  {
    if os == [] then [] else Descriptors(os[..|os| - 1]) + [DescriptorOf(os[|os| - 1])]
  }

  /** The descriptors of two runs of objects are the descriptors of each, in order. */
  lemma DescriptorsAppend(a: seq<SceneObject>, b: seq<SceneObject>)
    ensures Descriptors(a + b) == Descriptors(a) + Descriptors(b)
  {
    assert |Descriptors(a + b)| == |Descriptors(a) + Descriptors(b)|;
    forall k | 0 <= k < |a + b|
      ensures Descriptors(a + b)[k] == (Descriptors(a) + Descriptors(b))[k]
    {
      if k < |a| {
        assert (a + b)[k] == a[k];
      } else {
        assert (a + b)[k] == b[k - |a|];
      }
    }
  }

  // ---------------------------------------------------------------------------
  // Per-object update
  // ---------------------------------------------------------------------------

  /** What `Cloth::update` demands of the frame time: a quotient that its signed loop counter can reach. */
  predicate Steppable(dt: real, target: real)
  {
    target > 0.0 && -1.0 < dt / target < Cloth.INT_RANGE
  }

  /** The frame time suits the cloths among the objects, if there are any. */
  predicate ClothsCanStep(os: seq<SceneObject>, dt: real, target: real)
  {
    ClothCount(os) > 0 ==> Steppable(dt, target)
  }

  /** What one object's `update` encodes: a cloth its simulation pass, a cube or a floor nothing. */
  function ObjectPass(o: SceneObject, accel: AccelerationStructure, dt: real, target: real): seq<Command>
    requires o.ClothObject? ==> Steppable(dt, target)
  {
    match o
    case ClothObject(c) => c.UpdatePass(accel, dt, target)
    case CubeObject(_) => []
    case FloorObject(_) => []
  }

  /** What the objects' updates encode, one after the other in the objects' order. */
  function UpdatePasses(os: seq<SceneObject>, accel: AccelerationStructure, dt: real, target: real): seq<Command>
    requires ClothsCanStep(os, dt, target)
  {
    if os == [] then []
    else UpdatePasses(os[..|os| - 1], accel, dt, target) + ObjectPass(os[|os| - 1], accel, dt, target)
  }

  /** The number of cloths among the objects. */
  function ClothCount(os: seq<SceneObject>): (n: nat)
    ensures n <= |os|
  {
    if os == [] then 0 else ClothCount(os[..|os| - 1]) + (if os[|os| - 1].ClothObject? then 1 else 0)
  }

  /** The cloths of two runs of objects are those of each. */
  lemma {:induction false} ClothCountAppend(a: seq<SceneObject>, b: seq<SceneObject>)
    ensures ClothCount(a + b) == ClothCount(a) + ClothCount(b)
    decreases |b|
  {
    if b == [] {
      assert a + b == a;
    } else {
      assert (a + b)[..|a + b| - 1] == a + b[..|b| - 1];
      ClothCountAppend(a, b[..|b| - 1]);
    }
  }

  /** Adding objects adds their passes after those of the objects already there. */
  lemma {:induction false} UpdatePassesAppend(a: seq<SceneObject>, b: seq<SceneObject>,
                                              accel: AccelerationStructure, dt: real, target: real)
    requires ClothsCanStep(a + b, dt, target)
    ensures ClothsCanStep(a, dt, target) && ClothsCanStep(b, dt, target)
    ensures UpdatePasses(a + b, accel, dt, target)
         == UpdatePasses(a, accel, dt, target) + UpdatePasses(b, accel, dt, target)
    decreases |b|
  {
    ClothCountAppend(a, b);
    if b == [] {
      assert a + b == a;
    } else {
      var b', last := b[..|b| - 1], b[|b| - 1];
      assert (a + b)[..|a + b| - 1] == a + b';
      assert (a + b)[|a + b| - 1] == last;
      ClothCountAppend(a, b');
      ClothCountAppend(b', [last]);
      assert b' + [last] == b;
      UpdatePassesAppend(a, b', accel, dt, target);
      var pa, pb', pl := UpdatePasses(a, accel, dt, target), UpdatePasses(b', accel, dt, target),
        ObjectPass(last, accel, dt, target);
      assert UpdatePasses(a + b, accel, dt, target) == (pa + pb') + pl;
      assert UpdatePasses(b, accel, dt, target) == pb' + pl;
      Associate(pa, pb', pl);
    }
  }

  /** One frame dispatches the cloth kernel `dt / target` times, truncated, per cloth and never for another object. */
  lemma {:induction false} UpdateDispatchCount(os: seq<SceneObject>, accel: AccelerationStructure, dt: real, target: real)
    requires Steppable(dt, target)
    ensures Dispatches(UpdatePasses(os, accel, dt, target)) == ClothCount(os) * Cloth.Iterations(dt, target)
  {
    if os != [] {
      var prefix, o := os[..|os| - 1], os[|os| - 1];
      var iterations, extra := Cloth.Iterations(dt, target), if o.ClothObject? then 1 else 0;
      UpdateDispatchCount(prefix, accel, dt, target);
      DispatchesAppend(UpdatePasses(prefix, accel, dt, target), ObjectPass(o, accel, dt, target));
      assert Dispatches(ObjectPass(o, accel, dt, target)) == extra * iterations by {
        match o
        case ClothObject(c) => c.UpdateDispatches(accel, dt, target);
        case CubeObject(_) =>
        case FloorObject(_) =>
      }
      assert ClothCount(os) == ClothCount(prefix) + extra;
      Distribute(ClothCount(prefix), extra, iterations);
    }
  }

  lemma Distribute(a: nat, b: nat, c: nat)
    ensures (a + b) * c == a * c + b * c
  {
  }

  lemma Associate(x: seq<Command>, y: seq<Command>, z: seq<Command>)
    ensures x + (y + z) == (x + y) + z
  {
  }

  /** The passes of the first `i + 1` objects: those of the first `i`, then that of object `i`. */
  lemma UpdatePassesStep(os: seq<SceneObject>, i: nat, accel: AccelerationStructure, dt: real, target: real)
    requires i < |os| && ClothsCanStep(os, dt, target)
    ensures ClothsCanStep(os[..i], dt, target) && ClothsCanStep(os[..i + 1], dt, target)
    ensures UpdatePasses(os[..i + 1], accel, dt, target)
         == UpdatePasses(os[..i], accel, dt, target) + ObjectPass(os[i], accel, dt, target)
  {
    assert os[..i + 1] + os[i + 1..] == os;
    ClothCountAppend(os[..i + 1], os[i + 1..]);
    assert os[..i + 1][..i] == os[..i];
    ClothCountAppend(os[..i], [os[i]]);
    assert os[..i] + [os[i]] == os[..i + 1];
  }

  // ---------------------------------------------------------------------------
  // Motion vectors
  // ---------------------------------------------------------------------------

  /**
   * The triangle count `updatePrimitiveMotion` derives from a descriptor: the length
   * of its primitive-data buffer over the record size. A descriptor without that
   * buffer (the floor plane's) yields 0, which is what a message to a null
   * Objective-C object returns.
   */
  function MotionTriangleCount(d: TriangleDescriptor): nat
    reads d
  {
    match d.primitiveDataBuffer
    case None => 0
    case Some(b) => b.length / PRIMITIVE_DATA_SIZE
  }

  /** The commands one object adds to the motion encoder: its count, buffers and matrix, then a one-dimensional dispatch. */
  function MotionPass(d: TriangleDescriptor, width: nat, vpMat: Matrix): seq<Command>
    requires width > 0
    reads d
  {
    var triangleCount := MotionTriangleCount(d);
    [SetBytes(Count(triangleCount), 0),
     SetBuffer(d.vertexBuffer, 1),
     SetBuffer(d.indexBuffer, 2),
     SetBuffer(d.primitiveDataBuffer, 3),
     SetBytes(Transform(vpMat), 4),
     DispatchThreadgroups(Size(CeilDiv(triangleCount, width), 1, 1), Size(width, 1, 1))]
  }

  /** The motion passes of the objects, one after the other in the objects' order. */
  function MotionPasses(os: seq<SceneObject>, width: nat, vpMat: Matrix): seq<Command>
    requires width > 0
    reads set k | 0 <= k < |os| :: DescriptorOf(os[k])
  {
    if os == [] then []
    else MotionPasses(os[..|os| - 1], width, vpMat) + MotionPass(DescriptorOf(os[|os| - 1]), width, vpMat)
  }

  /** Each object's motion grid has one thread per triangle at least, and no surplus group. */
  lemma MotionGridCovers(d: TriangleDescriptor, width: nat, vpMat: Matrix)
    requires width > 0
    ensures var dispatch := MotionPass(d, width, vpMat)[5];
      && dispatch.DispatchThreadgroups? && dispatch.threads == Size(width, 1, 1)
      && Covers(dispatch.groups, dispatch.threads, Size(MotionTriangleCount(d), 1, 1))
      && Minimal(dispatch.groups, dispatch.threads, Size(MotionTriangleCount(d), 1, 1))
  {
  }

  /** `updatePrimitiveMotion` dispatches exactly once per object. */
  lemma {:induction false} MotionDispatchCount(os: seq<SceneObject>, width: nat, vpMat: Matrix)
    requires width > 0
    ensures Dispatches(MotionPasses(os, width, vpMat)) == |os|
  {
    if os != [] {
      var prefix, d := os[..|os| - 1], DescriptorOf(os[|os| - 1]);
      MotionDispatchCount(prefix, width, vpMat);
      DispatchesAppend(MotionPasses(prefix, width, vpMat), MotionPass(d, width, vpMat));
      var pass := MotionPass(d, width, vpMat);
      DispatchesAppend(pass[..5], [pass[5]]);
      assert pass == pass[..5] + [pass[5]];
      NoDispatches(pass[..5]);
    }
  }

  /**
   * A descriptor set up with a primitive-data buffer of `triangleCount` records
   * reports `triangleCount` triangles to the motion kernel: 12 for a cube and
   * `2(N-1)^2` for an N by N cloth.
   */
  lemma MotionCountOfRecords(d: TriangleDescriptor, triangleCount: nat, vb: Buffer, ib: Buffer, db: Buffer)
    requires Describes(d, triangleCount, vb, ib, db)
    requires db.length == triangleCount * PRIMITIVE_DATA_SIZE
    ensures MotionTriangleCount(d) == triangleCount
  {
  }

  /**
   * For a cloth in the state its constructor leaves, the motion pass's triangle count,
   * read back from the data buffer's length, is the descriptor's `2(N-1)^2`, one per
   * index triple of the index table.
   */
  lemma ClothMotionCount(c: Cloth.Cloth, n: nat)
    requires n >= 1
    requires Cloth.ClothBuffers(n, c.vertexBuffer, c.indexBuffer, c.dataBuffer, c.particleBuffer)
    requires Describes(c.descriptor, Cloth.TriangleCount(n), c.vertexBuffer, c.indexBuffer, c.dataBuffer)
    ensures MotionTriangleCount(c.descriptor) == c.descriptor.triangleCount == Cloth.TriangleCount(n)
    ensures 3 * MotionTriangleCount(c.descriptor) == |Cloth.IndexTable(n)|
  {
    var t := Cloth.TriangleCount(n);
    assert c.dataBuffer.length == t * PRIMITIVE_DATA_SIZE;
    MotionCountOfRecords(c.descriptor, t, c.vertexBuffer, c.indexBuffer, c.dataBuffer);
    Cloth.IndicesPerTriangle(n);
  }

  /** One object's `update`, as the loop of src/Scene.cpp:24-26 calls it. */
  method UpdateObject(o: SceneObject, cmd: CommandBuffer, accel: AccelerationStructure, dt: real, target: real)
    requires o.ClothObject? ==> Steppable(dt, target)
    modifies cmd
    ensures cmd.commands == old(cmd.commands) + ObjectPass(o, accel, dt, target)
  {
    match o {
      case ClothObject(c) => c.Update(cmd, accel, dt, target);
      case CubeObject(c) => c.Update();
      case FloorObject(f) => f.Update();
    }
  }

  /** One object's pass in the motion encoder, src/Scene.cpp:42-53. */
  method EncodeMotion(cmd: CommandBuffer, d: TriangleDescriptor, width: nat, vpMat: Matrix)
    requires width > 0
    modifies cmd
    ensures cmd.commands == old(cmd.commands) + MotionPass(d, width, vpMat)
  {
    var triangleCount := match d.primitiveDataBuffer
      case None => 0
      case Some(b) => b.length / PRIMITIVE_DATA_SIZE;
    cmd.commands := cmd.commands + [SetBytes(Count(triangleCount), 0)];
    cmd.commands := cmd.commands + [SetBuffer(d.vertexBuffer, 1)];
    cmd.commands := cmd.commands + [SetBuffer(d.indexBuffer, 2)];
    cmd.commands := cmd.commands + [SetBuffer(d.primitiveDataBuffer, 3)];
    cmd.commands := cmd.commands + [SetBytes(Transform(vpMat), 4)];
    cmd.commands := cmd.commands
      + [DispatchThreadgroups(Size((triangleCount + width - 1) / width, 1, 1), Size(width, 1, 1))];
  }

  // ---------------------------------------------------------------------------
  // The scene
  // ---------------------------------------------------------------------------

  /** A scene: its objects in insertion order and its acceleration-structure descriptor. */
  class Scene {
    var objects: seq<SceneObject>
    const descriptor: AccelerationDescriptor

    /** A scene with no object and a fresh, empty descriptor (src/TestScene.cpp:12). */
    constructor ()
      ensures objects == []
      ensures fresh(descriptor) && descriptor.geometries == []
    {
      objects := [];
      descriptor := new AccelerationDescriptor();
    }

    /** `Scene::addObject`, src/Scene.cpp:10-13: append the object, then rebuild the geometry list. */
    method AddObject(o: SceneObject)
      modifies this`objects, descriptor
      ensures objects == old(objects) + [o]
      ensures descriptor.geometries == Descriptors(old(objects)) + [DescriptorOf(o)]
    {
      objects := objects + [o];
      UpdateGeometry();
      DescriptorsAppend(old(objects), [o]);
    }

    /**
     * `Scene::updateGeometry`, src/Scene.cpp:29-36: the geometry list becomes the
     * objects' descriptors in order. The result depends on `objects` alone, which this
     * method does not change, so a second call leaves the list as it is.
     */
    method UpdateGeometry()
      modifies descriptor
      ensures objects == old(objects)
      ensures descriptor.geometries == Descriptors(objects)
    {
      var geometries: seq<TriangleDescriptor> := [];
      var i := 0;
      while i < |objects|
        invariant 0 <= i <= |objects|
        invariant geometries == Descriptors(objects[..i])
      {
        assert objects[..i + 1][..i] == objects[..i];
        geometries := geometries + [DescriptorOf(objects[i])];
        i := i + 1;
      }
      assert objects[..i] == objects;
      descriptor.geometries := geometries;
    }

    /**
     * `Scene::update`, src/Scene.cpp:23-27: every object updates once, in insertion
     * order. The cloth direction and wind flag are passed on in the source, but no
     * object's `update` takes them.
     */
    method Update(cmd: CommandBuffer, accel: AccelerationStructure, dt: real, target: real,
                  clothDirection: Vec3, wind: bool)
      requires ClothsCanStep(objects, dt, target)
      modifies cmd
      ensures cmd.commands == old(cmd.commands) + UpdatePasses(objects, accel, dt, target)
    {
      var i := 0;
      while i < |objects|
        invariant 0 <= i <= |objects|
        invariant ClothsCanStep(objects[..i], dt, target)
        invariant cmd.commands == old(cmd.commands) + UpdatePasses(objects[..i], accel, dt, target)
      {
        UpdatePassesStep(objects, i, accel, dt, target);
        UpdateObject(objects[i], cmd, accel, dt, target);
        Associate(old(cmd.commands), UpdatePasses(objects[..i], accel, dt, target), ObjectPass(objects[i], accel, dt, target));
        i := i + 1;
      }
      assert objects[..i] == objects;
    }

    /**
     * `Scene::updatePrimitiveMotion`, src/Scene.cpp:38-57: one encoder, the motion
     * kernel, then one pass per object in insertion order. The motion kernel's SIMD
     * width is positive, as Metal guarantees.
     */
    method UpdatePrimitiveMotion(motion: Pipeline, cmd: CommandBuffer, vpMat: Matrix)
      requires motion.threadExecutionWidth > 0
      modifies cmd
      ensures cmd.commands == old(cmd.commands + [BeginCompute, SetPipeline(motion)]
        + MotionPasses(objects, motion.threadExecutionWidth, vpMat)) + [EndEncoding]
    {
      var width := motion.threadExecutionWidth;
      cmd.commands := cmd.commands + [BeginCompute, SetPipeline(motion)];
      var i := 0;
      while i < |objects|
        invariant 0 <= i <= |objects|
        invariant cmd.commands == old(cmd.commands + [BeginCompute, SetPipeline(motion)]
          + MotionPasses(objects[..i], width, vpMat))
      {
        var d := DescriptorOf(objects[i]);
        EncodeMotion(cmd, d, width, vpMat);
        assert MotionPass(d, width, vpMat) == old(MotionPass(d, width, vpMat));
        assert objects[..i + 1][..i] == objects[..i];
        assert old(MotionPasses(objects[..i + 1], width, vpMat))
            == old(MotionPasses(objects[..i], width, vpMat)) + old(MotionPass(d, width, vpMat));
        i := i + 1;
      }
      assert objects[..i] == objects;
      cmd.commands := cmd.commands + [EndEncoding];
    }
  }
}
