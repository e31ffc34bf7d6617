/**
 * src/Renderer.cpp: the renderer's keyboard and mouse state, the sizing of the scene
 * kernel's grid, the one resident scene, and the commands of a frame, with its
 * depth/normal history swapped at the end of every frame.
 */
module Renderer {
  import opened Base
  import opened Gpu
  import opened Dispatch
  import Scene
  import TestScene

  // ---------------------------------------------------------------------------
  // Keyboard state
  // ---------------------------------------------------------------------------

  /** The two intent vectors the keys steer: `_moveDirection` (the camera) and `_clothDirection`. */
  datatype Vector = Move | Push

  /** The axes of a `simd::float3`, indices 0, 1 and 2. */
  datatype Axis = X | Y | Z

  /** The renderer's input state: the two intent vectors and the `_wind` flag. */
  datatype Input = Input(move: Vec3, push: Vec3, wind: bool)

  /** The input state before any key event, include/Renderer.hpp:40-42. */
  const IDLE: Input := Input(Vec3(0, 0, 0), Vec3(0, 0, 0), false)

  /** The key code of the space bar, which toggles the wind. */
  const WIND_KEY: nat := 49

  function Component(v: Vec3, a: Axis): int
  {
    match a
    case X => v.x
    case Y => v.y
    case Z => v.z
  }

  /** `v` with the component on axis `a` set to `value`: that component reads back, the others are kept. */
  function WithComponent(v: Vec3, a: Axis, value: int): (w: Vec3)
    ensures Component(w, a) == value
    ensures forall b :: b != a ==> Component(w, b) == Component(v, b)
  {
    match a
    case X => v.(x := value)
    case Y => v.(y := value)
    case Z => v.(z := value)
  }

  /** One component of one intent vector. */
  function Get(s: Input, v: Vector, a: Axis): int
  {
    Component(if v == Move then s.move else s.push, a)
  }

  /** Set one component of one intent vector; every other component and the wind flag are kept. */
  function Put(s: Input, v: Vector, a: Axis, value: int): (t: Input)
    ensures Get(t, v, a) == value && t.wind == s.wind
    ensures forall w, b :: (w, b) != (v, a) ==> Get(t, w, b) == Get(s, w, b)
  {
    if v == Move then s.(move := WithComponent(s.move, a, value))
    else s.(push := WithComponent(s.push, a, value))
  }

  /** Two input states that agree on every component and on the wind flag are equal. */
  lemma SameInput(s: Input, t: Input)
    requires forall w, b :: Get(s, w, b) == Get(t, w, b)
    requires s.wind == t.wind
    ensures s == t
  {
    assert Get(s, Move, X) == Get(t, Move, X) && Get(s, Move, Y) == Get(t, Move, Y) && Get(s, Move, Z) == Get(t, Move, Z);
    assert Get(s, Push, X) == Get(t, Push, X) && Get(s, Push, Y) == Get(t, Push, Y) && Get(s, Push, Z) == Get(t, Push, Z);
  }

  /** A key binding of `keyDown`: the component it sets and the value it sets it to. */
  datatype Binding = Binding(vector: Vector, axis: Axis, value: int)

  /**
   * The keys `keyDown` binds, src/Renderer.cpp:232-268: W/S move along z, A/D along
   * x, Q/E along y; I/K push the cloth along z, J/L along x, and 32/31 along y. Each
   * sets one component to 1 or -1.
   */
  function Pressed(key: nat): (p: Option<Binding>)
    ensures p.Some? ==> p.value.value == 1 || p.value.value == -1
  {
    if key == 13 then Some(Binding(Move, Z, 1))
    else if key == 0 then Some(Binding(Move, X, -1))
    else if key == 1 then Some(Binding(Move, Z, -1))
    else if key == 2 then Some(Binding(Move, X, 1))
    else if key == 12 then Some(Binding(Move, Y, -1))
    else if key == 14 then Some(Binding(Move, Y, 1))
    else if key == 34 then Some(Binding(Push, Z, 1))
    else if key == 38 then Some(Binding(Push, X, -1))
    else if key == 40 then Some(Binding(Push, Z, -1))
    else if key == 37 then Some(Binding(Push, X, 1))
    else if key == 32 then Some(Binding(Push, Y, -1))
    else if key == 31 then Some(Binding(Push, Y, 1))
    else None
  }

  /**
   * The keys `keyUp` releases as written, src/Renderer.cpp:276-303: each pair of keys
   * zeroes the component it shares, except that the L key's case is written as 27.
   */
  function ReleasedAsWritten(key: nat): Option<(Vector, Axis)>
  {
    if key == 13 || key == 1 then Some((Move, Z))
    else if key == 12 || key == 14 then Some((Move, Y))
    else if key == 0 || key == 2 then Some((Move, X))
    else if key == 34 || key == 40 then Some((Push, Z))
    else if key == 32 || key == 31 then Some((Push, Y))
    else if key == 38 || key == 27 then Some((Push, X))
    else None
  }

  /** The keys `keyUp` releases with L's case written as 37, the code `keyDown` binds L to. */
  function Released(key: nat): Option<(Vector, Axis)>
  {
    if key == 13 || key == 1 then Some((Move, Z))
    else if key == 12 || key == 14 then Some((Move, Y))
    else if key == 0 || key == 2 then Some((Move, X))
    else if key == 34 || key == 40 then Some((Push, Z))
    else if key == 32 || key == 31 then Some((Push, Y))
    else if key == 38 || key == 37 then Some((Push, X))
    else None
  }

  function KeyUpStateAsWritten(s: Input, key: nat): Input
  {
    match ReleasedAsWritten(key)
    case None => s
    case Some((v, a)) => Put(s, v, a, 0)
  }

  function KeyDownStateAsWritten(s: Input, key: nat): Input
  {
    var t := KeyUpStateAsWritten(s, key);
    if key == WIND_KEY then t.(wind := !t.wind)
    else match Pressed(key)
      case None => t
      case Some(b) => Put(t, b.vector, b.axis, b.value)
  }

  /** The state after `keyUp(key)`. */
  function KeyUpState(s: Input, key: nat): Input
  {
    match Released(key)
    case None => s
    case Some((v, a)) => Put(s, v, a, 0)
  }

  /** The state after `keyDown(key)`: first the key's release, then its binding or the wind toggle. */
  function KeyDownState(s: Input, key: nat): Input
  {
    var t := KeyUpState(s, key);
    if key == WIND_KEY then t.(wind := !t.wind)
    else match Pressed(key)
      case None => t
      case Some(b) => Put(t, b.vector, b.axis, b.value)
  }

  /** A key is released by `keyUp` exactly when `keyDown` binds it, and on the component it binds. */
  lemma BindingsPaired(key: nat)
    ensures Pressed(key).Some? <==> Released(key).Some?
    ensures Pressed(key).Some? ==> Released(key).value == (Pressed(key).value.vector, Pressed(key).value.axis)
  {
  }

  /** As written, L (37) is bound but never released, and 27 is released but never bound. */
  lemma BindingsUnpairedAsWritten()
    ensures Pressed(37).Some? && ReleasedAsWritten(37).None?
    ensures Pressed(27).None? && ReleasedAsWritten(27).Some?
  {
  }

  /** As written, pressing and then releasing L from any state leaves the cloth pushed along +x. */
  lemma ReleaseLeavesPushAsWritten(s: Input)
    ensures Get(KeyUpStateAsWritten(KeyDownStateAsWritten(s, 37), 37), Push, X) == 1
  {
  }

  /** A bound key sets its one component and leaves every other component and the wind flag as they were. */
  lemma PressSetsOneAxis(s: Input, key: nat)
    requires Pressed(key).Some?
    ensures var b, t := Pressed(key).value, KeyDownState(s, key);
      && Get(t, b.vector, b.axis) == b.value
      && t.wind == s.wind
      && forall w, a :: (w, a) != (b.vector, b.axis) ==> Get(t, w, a) == Get(s, w, a)
  {
    BindingsPaired(key);
  }

  /** A released key zeroes its component and leaves every other component and the wind flag as they were. */
  lemma ReleaseZeroesAxis(s: Input, key: nat)
    requires Released(key).Some?
    ensures var (v, a) := Released(key).value;
      var t := KeyUpState(s, key);
      && Get(t, v, a) == 0
      && t.wind == s.wind
      && forall w, b :: (w, b) != (v, a) ==> Get(t, w, b) == Get(s, w, b)
  {
  }

  /** Pressing and then releasing a bound key ends where releasing it alone would: its component zero, the rest untouched. */
  lemma PressThenRelease(s: Input, key: nat)
    requires Pressed(key).Some?
    ensures KeyUpState(KeyDownState(s, key), key) == KeyUpState(s, key)
  {
    BindingsPaired(key);
    var b := Pressed(key).value;
    var t, u := KeyUpState(KeyDownState(s, key), key), KeyUpState(s, key);
    forall w, a
      ensures Get(t, w, a) == Get(u, w, a)
    {
    }
    SameInput(t, u);
  }

  /** The space bar toggles the wind on a press, so two presses restore it, and its release changes nothing. */
  lemma WindToggles(s: Input)
    ensures KeyDownState(s, WIND_KEY) == s.(wind := !s.wind)
    ensures KeyDownState(KeyDownState(s, WIND_KEY), WIND_KEY) == s
    ensures KeyUpState(s, WIND_KEY) == s
  {
  }

  /** A key that is neither bound nor the space bar changes nothing, pressed or released. */
  lemma UnboundKeysIgnored(s: Input, key: nat)
    requires key != WIND_KEY && Pressed(key).None?
    ensures KeyDownState(s, key) == s && KeyUpState(s, key) == s
  {
    BindingsPaired(key);
  }

  // ---------------------------------------------------------------------------
  // Mouse
  // ---------------------------------------------------------------------------

  /** `M_PI / 2`, as a double. */
  const HALF_PI: real := 1.5707963267948966

  function Abs(r: real): real
  {
    if r < 0.0 then -r else r
  }

  /** The yaw clamp of `mouseDragged`, src/Renderer.cpp:309-310: below first, then above. */
  function ClampYaw(yaw: real): (r: real)
    ensures -HALF_PI <= r <= HALF_PI
  {
    var low := if yaw < -HALF_PI then -HALF_PI else yaw;
    if low > HALF_PI then HALF_PI else low
  }

  /** The clamped yaw is the point of `[-HALF_PI, HALF_PI]` nearest to the unclamped one, so a yaw in range is kept. */
  lemma ClampYawNearest(yaw: real, y: real)
    requires -HALF_PI <= y <= HALF_PI
    ensures Abs(ClampYaw(yaw) - yaw) <= Abs(y - yaw)
    ensures y == yaw ==> ClampYaw(yaw) == yaw
  {
  }

  // ---------------------------------------------------------------------------
  // The scene kernel's grid
  // ---------------------------------------------------------------------------

  /** The scene kernel's groups per grid, src/Renderer.cpp:30: a ceiling division on each side of the drawable. */
  function SceneGrid(width: nat, height: nat, threads: Size): Size
    requires threads.width > 0 && threads.height > 0
  {
    Size((width + threads.width - 1) / threads.width, (height + threads.height - 1) / threads.height, 1)
  }

  /**
   * The scene grid covers every pixel of the drawable with no surplus group, and is
   * the grid the pipeline-state sizing computes for a one-deep context of the same
   * sides (src/Renderer.cpp:28-31).
   */
  lemma SceneGridFits(width: nat, height: nat, threadWidth: nat, maxTotal: nat)
    requires Sizable(threadWidth, maxTotal)
    ensures var t := ThreadsPerGroup(threadWidth, maxTotal);
      var g := SceneGrid(width, height, t);
      && Covers(g, t, Size(width, height, 1))
      && Minimal(g, t, Size(width, height, 1))
      && g == GroupsPerGrid(Size(width, height, 1), t)
  {
    var t := ThreadsPerGroup(threadWidth, maxTotal);
    assert SceneGrid(width, height, t) == Size(CeilDiv(width, t.width), CeilDiv(height, t.height), CeilDiv(1, 1));
    GridFits(Size(width, height, 1), threadWidth, maxTotal);
  }

  // ---------------------------------------------------------------------------
  // Depth/normal history
  // ---------------------------------------------------------------------------

  /** The two history slots exchanged. */
  function Swap(slots: seq<Texture>): (r: seq<Texture>)
    requires |slots| == 2
    ensures |r| == 2 && r[0] == slots[1] && r[1] == slots[0]
  {
    [slots[1], slots[0]]
  }

  /** The history slots after `n` frames. */
  function SwapTimes(slots: seq<Texture>, n: nat): (r: seq<Texture>)
    requires |slots| == 2
    ensures |r| == 2
  {
    if n == 0 then slots else Swap(SwapTimes(slots, n - 1))
  }

  /** After an even number of frames the history is in its original order, after an odd number it is exchanged. */
  lemma {:induction false} SwapsRestore(slots: seq<Texture>, n: nat)
    requires |slots| == 2
    ensures SwapTimes(slots, n) == if n % 2 == 0 then slots else Swap(slots)
  {
    if n > 0 {
      SwapsRestore(slots, n - 1);
    }
  }

  /** The geometry-material and material buffers of `loadScene`, src/Renderer.cpp:124-136: each exactly as long as its table, and holding it. */
  method NewMaterialBuffers() returns (geometryMaterialBuffer: Buffer, materialBuffer: Buffer)
    ensures fresh(geometryMaterialBuffer) && fresh(materialBuffer)
    ensures geometryMaterialBuffer.length == |TestScene.GeometryMaterials()| * UINT16_SIZE
    ensures geometryMaterialBuffer.contents == MaterialIndices(TestScene.GeometryMaterials())
    ensures materialBuffer.length == |TestScene.Materials()| * MATERIAL_SIZE
    ensures materialBuffer.contents == Materials(TestScene.Materials())
  {
    var geometryMaterials := TestScene.GeometryMaterials();
    var materials := TestScene.Materials();
    geometryMaterialBuffer := new Buffer(|geometryMaterials| * UINT16_SIZE, MaterialIndices(geometryMaterials));
    materialBuffer := new Buffer(|materials| * MATERIAL_SIZE, Materials(materials));
  }

  // ---------------------------------------------------------------------------
  // The renderer
  // ---------------------------------------------------------------------------

  /** The renderer: its pipelines, grid, textures, resident scene and input state. */
  class Renderer {
    const width: nat
    const height: nat
    const scenePipeline: Pipeline
    const motionPipeline: Pipeline
    const sceneTPG: Size
    const sceneTPT: Size
    const depthNormalTextures: array<Texture>
    const motionTexture: Texture
    const outputTexture: Texture

    var moveDirection: Vec3
    var clothDirection: Vec3
    var wind: bool
    var camera: Camera

    /** `_pScene`: null until the first scene is loaded. */
    var scene: Option<TestScene.TestScene>
    /** The scenes deleted so far, in the order `loadScene` deleted them. */
    var retired: seq<TestScene.TestScene>
    var hdriTexture: Option<Texture>
    var geometryMaterialBuffer: Option<Buffer>
    var materialBuffer: Option<Buffer>
    var accel: Option<AccelerationStructure>

    /** The input state the key handlers update. */
    function InputState(): Input
      reads this
    {
      Input(moveDirection, clothDirection, wind)
    }

    /** A scene is loaded with its resources, there are two history slots, and both kernels have a usable SIMD width. */
    predicate Valid()
      reads this
    {
      && depthNormalTextures.Length == 2
      && Sizable(scenePipeline.threadExecutionWidth, scenePipeline.maxTotalThreadsPerThreadgroup)
      && motionPipeline.threadExecutionWidth > 0
      && scene.Some? && hdriTexture.Some? && accel.Some?
      && geometryMaterialBuffer.Some? && materialBuffer.Some?
    }

    /**
     * `Renderer::Renderer`, src/Renderer.cpp:3-65, for a drawable of `width` by `height`
     * pixels: the scene grid covers the drawable with no surplus group; two distinct
     * history textures; the test scene loaded into a renderer that had none; the input
     * state idle (include/Renderer.hpp:40-44). Metal's pipelines have a positive SIMD
     * width that fits their thread-group maximum.
     */
    constructor (width: nat, height: nat, scenePipeline: Pipeline, motionPipeline: Pipeline)
      requires Sizable(scenePipeline.threadExecutionWidth, scenePipeline.maxTotalThreadsPerThreadgroup)
      requires motionPipeline.threadExecutionWidth > 0
      ensures Valid()
      ensures this.width == width && this.height == height
      ensures sceneTPT == ThreadsPerGroup(scenePipeline.threadExecutionWidth, scenePipeline.maxTotalThreadsPerThreadgroup)
      ensures Covers(sceneTPG, sceneTPT, Size(width, height, 1)) && Minimal(sceneTPG, sceneTPT, Size(width, height, 1))
      ensures fresh(depthNormalTextures) && depthNormalTextures[0] != depthNormalTextures[1]
      ensures fresh(scene.value) && retired == []
      ensures camera == TestScene.InitialCamera()
      ensures InputState() == IDLE
    {
      this.width := width;
      this.height := height;
      this.scenePipeline := scenePipeline;
      this.motionPipeline := motionPipeline;
      var groupWidth := scenePipeline.threadExecutionWidth;
      var groupHeight := scenePipeline.maxTotalThreadsPerThreadgroup / groupWidth;
      sceneTPG := Size((width + groupWidth - 1) / groupWidth, (height + groupHeight - 1) / groupHeight, 1);
      sceneTPT := Size(groupWidth, groupHeight, 1);
      var first := new Texture();
      var second := new Texture();
      depthNormalTextures := new Texture[2] [first, second];
      motionTexture := new Texture();
      outputTexture := new Texture();
      moveDirection, clothDirection, wind := Vec3(0, 0, 0), Vec3(0, 0, 0), false;
      camera := Camera(Vec3r(1.0, 0.0, 0.0), Vec3r(0.0, 1.0, 0.0), Vec3r(0.0, 0.0, 1.0), Vec3r(0.0, 0.0, 0.0), 0.0, 0.0);
      scene, retired := None, [];
      hdriTexture, geometryMaterialBuffer, materialBuffer, accel := None, None, None, None;
      new;
      SceneGridFits(width, height, scenePipeline.threadExecutionWidth, scenePipeline.maxTotalThreadsPerThreadgroup);
      var testScene := new TestScene.TestScene();
      LoadScene(testScene);
    }

    /**
     * `Renderer::loadScene`, src/Renderer.cpp:86-137: the resident scene, if there is
     * one, is deleted, and only then; the new scene becomes resident and the camera is
     * its initial camera; fresh buffers hold exactly the scene's geometry-material and
     * material tables. The scene passed in must be neither the resident scene nor one
     * already deleted: either would be used after its `delete`.
     */
    method LoadScene(s: TestScene.TestScene)
      requires (scene.Some? ==> scene.value != s) && s !in retired
      modifies this`scene, this`retired, this`camera, this`hdriTexture, this`geometryMaterialBuffer,
        this`materialBuffer, this`accel
      ensures retired == old(retired) + (if old(scene).Some? then [old(scene).value] else [])
      ensures scene == Some(s)
      ensures camera == TestScene.InitialCamera()
      ensures hdriTexture.Some? && fresh(hdriTexture.value) && accel.Some? && fresh(accel.value)
      ensures geometryMaterialBuffer.Some? && fresh(geometryMaterialBuffer.value)
      ensures geometryMaterialBuffer.value.length == |TestScene.GeometryMaterials()| * UINT16_SIZE
      ensures geometryMaterialBuffer.value.contents == MaterialIndices(TestScene.GeometryMaterials())
      ensures materialBuffer.Some? && fresh(materialBuffer.value)
      ensures materialBuffer.value.length == |TestScene.Materials()| * MATERIAL_SIZE
      ensures materialBuffer.value.contents == Materials(TestScene.Materials())
    {
      if scene.Some? {
        retired := retired + [scene.value];
      }
      scene := Some(s);
      camera := TestScene.InitialCamera();
      var hdri := new Texture();
      hdriTexture := Some(hdri);
      var geometryMaterialsBuffer, materialsBuffer := NewMaterialBuffers();
      var structure := new AccelerationStructure();
      geometryMaterialBuffer, materialBuffer, accel := Some(geometryMaterialsBuffer), Some(materialsBuffer), Some(structure);
    }

    /**
     * `Renderer::keyUp`, src/Renderer.cpp:276-304, with L's case as 37: the component the
     * key's pair shares is zeroed.
     */
    method KeyUp(keyCode: nat)
      modifies this`moveDirection, this`clothDirection
      ensures InputState() == KeyUpState(old(InputState()), keyCode)
    {
      if keyCode == 13 || keyCode == 1 {
        moveDirection := moveDirection.(z := 0);
      } else if keyCode == 12 || keyCode == 14 {
        moveDirection := moveDirection.(y := 0);
      } else if keyCode == 0 || keyCode == 2 {
        moveDirection := moveDirection.(x := 0);
      } else if keyCode == 34 || keyCode == 40 {
        clothDirection := clothDirection.(z := 0);
      } else if keyCode == 32 || keyCode == 31 {
        clothDirection := clothDirection.(y := 0);
      } else if keyCode == 38 || keyCode == 37 {
        clothDirection := clothDirection.(x := 0);
      }
    }

    /**
     * `Renderer::keyDown`, src/Renderer.cpp:229-274: the key's release first, then the
     * component it binds, or the wind toggle for the space bar.
     */
    method KeyDown(keyCode: nat)
      modifies this`moveDirection, this`clothDirection, this`wind
      ensures InputState() == KeyDownState(old(InputState()), keyCode)
    {
      KeyUp(keyCode);
      if keyCode == 13 {
        moveDirection := moveDirection.(z := 1);
      } else if keyCode == 0 {
        moveDirection := moveDirection.(x := -1);
      } else if keyCode == 1 {
        moveDirection := moveDirection.(z := -1);
      } else if keyCode == 2 {
        moveDirection := moveDirection.(x := 1);
      } else if keyCode == 12 {
        moveDirection := moveDirection.(y := -1);
      } else if keyCode == 14 {
        moveDirection := moveDirection.(y := 1);
      } else if keyCode == 34 {
        clothDirection := clothDirection.(z := 1);
      } else if keyCode == 38 {
        clothDirection := clothDirection.(x := -1);
      } else if keyCode == 40 {
        clothDirection := clothDirection.(z := -1);
      } else if keyCode == 37 {
        clothDirection := clothDirection.(x := 1);
      } else if keyCode == 32 {
        clothDirection := clothDirection.(y := -1);
      } else if keyCode == 31 {
        clothDirection := clothDirection.(y := 1);
      } else if keyCode == WIND_KEY {
        wind := !wind;
      }
    }

    /**
     * `Renderer::mouseDragged`, src/Renderer.cpp:306-311: pitch accumulates the
     * horizontal drag without bound; yaw accumulates the vertical drag and is clamped
     * to `[-HALF_PI, HALF_PI]`; the basis and position are kept.
     */
    method MouseDragged(deltaX: real, deltaY: real)
      modifies this`camera
      ensures camera == old(camera).(pitch := old(camera.pitch) + 0.01 * deltaX,
                                     yaw := ClampYaw(old(camera.yaw) + 0.01 * deltaY))
      ensures -HALF_PI <= camera.yaw <= HALF_PI
    {
      camera := camera.(pitch := camera.pitch + 0.01 * deltaX);
      camera := camera.(yaw := camera.yaw + 0.01 * deltaY);
      camera := camera.(yaw := if camera.yaw < -HALF_PI then -HALF_PI else camera.yaw);
      camera := camera.(yaw := if camera.yaw > HALF_PI then HALF_PI else camera.yaw);
    }

    /**
     * The part of a frame after the motion passes, src/Renderer.cpp:176-201: the
     * acceleration-structure build over `geometries`, then the scene kernel's seed,
     * structure, material buffers, camera position, inverse matrix and textures, and
     * its one dispatch over the scene grid.
     */
    function ScenePass(geometries: seq<TriangleDescriptor>, history: Texture, seed: nat, pvMatInv: Matrix): seq<Command>
      requires Valid()
      reads this
    {
      [BeginAccelerationStructure, BuildAccelerationStructure(accel.value, geometries), EndEncoding,
       BeginCompute,
       SetBytes(Count(seed), 0),
       SetAccelerationStructure(accel.value, 1),
       SetBuffer(geometryMaterialBuffer, 2),
       SetBuffer(materialBuffer, 3),
       SetBytes(Point(camera.position), 4),
       SetBytes(Transform(pvMatInv), 5),
       SetTexture(history, 0),
       SetTexture(motionTexture, 1),
       SetTexture(outputTexture, 2),
       SetTexture(hdriTexture.value, 3),
       SetPipeline(scenePipeline)]
      + [DispatchThreadgroups(sceneTPG, sceneTPT), EndEncoding]
    }

    /** The scene pass dispatches once. */
    lemma ScenePassDispatchesOnce(geometries: seq<TriangleDescriptor>, history: Texture, seed: nat, pvMatInv: Matrix)
      requires Valid()
      ensures Dispatches(ScenePass(geometries, history, seed, pvMatInv)) == 1
    {
      var pass := ScenePass(geometries, history, seed, pvMatInv);
      var setup := pass[..|pass| - 2];
      assert pass == setup + [DispatchThreadgroups(sceneTPG, sceneTPT)] + [EndEncoding];
      NoDispatches(setup);
      DispatchesAppend(setup, [DispatchThreadgroups(sceneTPG, sceneTPT)]);
      DispatchesAppend(setup + [DispatchThreadgroups(sceneTPG, sceneTPT)], [EndEncoding]);
    }

    /**
     * The motion passes and the scene pass of a frame, src/Renderer.cpp:170-201, into a
     * fresh command buffer: it opens with the motion kernel, holds one motion dispatch
     * per object and then the scene dispatch, and closes with the scene pass over the
     * scene's current geometry list.
     */
    method EncodeFrame(s: Scene.Scene, seed: nat, pvMat: Matrix, pvMatInv: Matrix) returns (frame: CommandBuffer)
      requires Valid()
      ensures fresh(frame)
      ensures |frame.commands| >= 2 && frame.commands[..2] == [BeginCompute, SetPipeline(motionPipeline)]
      ensures var tail := ScenePass(s.descriptor.geometries, depthNormalTextures[0], seed, pvMatInv);
        |frame.commands| >= |tail| && frame.commands[|frame.commands| - |tail|..] == tail
      ensures Dispatches(frame.commands) == |s.objects| + 1
    {
      frame := new CommandBuffer();
      var width := motionPipeline.threadExecutionWidth;
      Scene.MotionDispatchCount(s.objects, width, pvMat);
      ghost var motion := Scene.MotionPasses(s.objects, width, pvMat);
      s.UpdatePrimitiveMotion(motionPipeline, frame, pvMat);
      var open := [BeginCompute, SetPipeline(motionPipeline)];
      assert frame.commands == open + motion + [EndEncoding];
      var head := frame.commands;
      var pass := ScenePass(s.descriptor.geometries, depthNormalTextures[0], seed, pvMatInv);
      frame.commands := head + pass;

      NoDispatches(open);
      NoDispatches([EndEncoding]);
      DispatchesAppend(open, motion);
      DispatchesAppend(open + motion, [EndEncoding]);
      ScenePassDispatchesOnce(s.descriptor.geometries, depthNormalTextures[0], seed, pvMatInv);
      DispatchesAppend(head, pass);
      assert frame.commands[..2] == head[..2];
    }

    /**
     * `Renderer::draw`, src/Renderer.cpp:139-227, with the frame time, the timestep the
     * cloth targets, the random seed and the two camera matrices as parameters. The
     * simulation buffer holds every object's update in order; the geometry list is
     * rebuilt from the objects; the frame buffer is the one `EncodeFrame` describes,
     * over the rebuilt list and the history slot read before the exchange; the two
     * history slots are exchanged.
     */
    method Draw(dt: real, target: real, seed: nat, pvMat: Matrix, pvMatInv: Matrix)
      returns (simulation: CommandBuffer, frame: CommandBuffer)
      requires Valid()
      requires Scene.ClothsCanStep(scene.value.scene.objects, dt, target)
      modifies depthNormalTextures, scene.value.scene.descriptor
      ensures fresh(simulation) && fresh(frame)
      ensures simulation.commands == Scene.UpdatePasses(scene.value.scene.objects, accel.value, dt, target)
      ensures scene.value.scene.objects == old(scene.value.scene.objects)
      ensures scene.value.scene.descriptor.geometries == Scene.Descriptors(scene.value.scene.objects)
      ensures |frame.commands| >= 2 && frame.commands[..2] == [BeginCompute, SetPipeline(motionPipeline)]
      ensures var tail := ScenePass(Scene.Descriptors(scene.value.scene.objects), old(depthNormalTextures[0]), seed, pvMatInv);
        |frame.commands| >= |tail| && frame.commands[|frame.commands| - |tail|..] == tail
      ensures Dispatches(frame.commands) == |scene.value.scene.objects| + 1
      ensures depthNormalTextures[..] == Swap(old(depthNormalTextures[..]))
    {
      var s := scene.value.scene;
      simulation := new CommandBuffer();
      s.Update(simulation, accel.value, dt, target, clothDirection, wind);
      s.UpdateGeometry();
      frame := EncodeFrame(s, seed, pvMat, pvMatInv);
      depthNormalTextures[0], depthNormalTextures[1] := depthNormalTextures[1], depthNormalTextures[0];
    }
  }
}
