/**
 * src/TestScene.cpp: the scene the renderer loads at start-up, a single floor plane of
 * side 5 with one geometry-material index and one material.
 */
module TestScene {
  import opened Base
  import opened Gpu
  import Scene
  import FloorPlane

  /** `geoMats`, src/TestScene.cpp:3-5: the material of each geometry, as `uint16_t` indices. */
  const GEO_MATS: seq<nat> := [0]

  /** `mats`, src/TestScene.cpp:7-9: one reddish material; the roughness is zero-initialised. */
  const MATS: seq<Material> := [Material(Vec3r(1.0, 0.5, 0.5), 0.0)]

  /** The side of the floor plane, src/TestScene.cpp:13. */
  const FLOOR_SIZE: real := 5.0

  /** The largest value a `uint16_t` holds. */
  const UINT16_MAX: nat := 0xFFFF

  /** The dot product of two real 3-vectors. */
  function Dot(a: Vec3r, b: Vec3r): real
  {
    a.x * b.x + a.y * b.y + a.z * b.z
  }

  /**
   * Every geometry-material index names an entry of the material table and fits the
   * `uint16_t` the table is declared with (src/TestScene.cpp:3-9).
   */
  lemma MaterialIndicesInRange()
    ensures |GEO_MATS| == 1 && |MATS| == 1
    ensures forall k :: 0 <= k < |GEO_MATS| ==> GEO_MATS[k] < |MATS| && GEO_MATS[k] <= UINT16_MAX
  {
  }

  /**
   * `TestScene::getInitialCamera`, src/TestScene.cpp:26-33, with 0.707106781 standing
   * for the square root of one half as the source writes it. Pitch and yaw, which the
   * renderer reads but the camera's declaration lacks, start at zero.
   */
  function InitialCamera(): (c: Camera)
    ensures c.position == Vec3r(0.0, 2.0, -2.0)
    ensures c.pitch == 0.0 && c.yaw == 0.0
  {
    Camera(Vec3r(1.0, 0.0, 0.0), Vec3r(0.0, 0.707106781, 0.707106781), Vec3r(0.0, -0.707106781, 0.707106781),
           Vec3r(0.0, 2.0, -2.0), 0.0, 0.0)
  }

  /**
   * The initial camera looks straight at the origin, with its forward axis a positive
   * multiple of the way from its position to the origin, and its three axes are
   * pairwise perpendicular.
   */
  lemma InitialCameraFacesOrigin()
    ensures var c := InitialCamera();
      var k := 0.3535533905;
      k > 0.0 && c.forward == Vec3r(k * -c.position.x, k * -c.position.y, k * -c.position.z)
    ensures var c := InitialCamera();
      Dot(c.right, c.up) == 0.0 && Dot(c.right, c.forward) == 0.0 && Dot(c.up, c.forward) == 0.0
  {
    var c := InitialCamera();
    assert c.right == Vec3r(1.0, 0.0, 0.0);
    assert c.up == Vec3r(0.0, 0.707106781, 0.707106781);
    assert c.forward == Vec3r(0.0, -0.707106781, 0.707106781);
    var h := 0.707106781;
    assert Dot(c.up, c.forward) == 0.0 * 0.0 + h * -h + h * h;
  }

  /** `TestScene::getGeometryMaterials`, src/TestScene.cpp:35-37: a copy of `geoMats`, whose one index names a material. */
  function GeometryMaterials(): (g: seq<nat>)
    ensures |g| == |GEO_MATS| && forall k :: 0 <= k < |g| ==> g[k] == GEO_MATS[k]
    ensures forall k :: 0 <= k < |g| ==> g[k] < |Materials()|
  {
    GEO_MATS
  }

  /** `TestScene::getMaterials`, src/TestScene.cpp:39-41: a copy of `mats`. */
  function Materials(): (m: seq<Material>)
    ensures |m| == |MATS| && forall k :: 0 <= k < |m| ==> m[k] == MATS[k]
  {
    MATS
  }

  /** The test scene: a scene holding the floor plane it creates. */
  class TestScene {
    const scene: Scene.Scene
    const floor: FloorPlane.FloorPlane

    /**
     * `TestScene::TestScene`, src/TestScene.cpp:11-20, with the floor added as an
     * object of the scene: the scene holds the floor alone, and its geometry list is
     * the floor's descriptor, as the source's list of one geometry is.
     */
    constructor ()
      ensures fresh(scene) && fresh(scene.descriptor) && fresh(floor) && fresh(floor.descriptor)
      ensures scene.objects == [Scene.FloorObject(floor)]
      ensures scene.descriptor.geometries == [floor.descriptor]
    {
      var s := new Scene.Scene();
      var f := new FloorPlane.FloorPlane(FLOOR_SIZE);
      s.AddObject(Scene.FloorObject(f));
      scene, floor := s, f;
    }

    /** `TestScene::update`, src/TestScene.cpp:43-45: it records nothing. */
    method Update(cmd: CommandBuffer)
      ensures unchanged(cmd)
    {
    }
  }

  /**
   * The constructor as written, src/TestScene.cpp:11-20: the floor plane is created and
   * its descriptor is put straight into the geometry list, but never added to the
   * scene's objects.
   */
  method NewTestSceneAsWritten() returns (scene: Scene.Scene, floor: FloorPlane.FloorPlane)
    ensures fresh(scene) && fresh(scene.descriptor) && fresh(floor)
    ensures scene.objects == []
    ensures scene.descriptor.geometries == [floor.descriptor]
  {
    scene := new Scene.Scene();
    floor := new FloorPlane.FloorPlane(FLOOR_SIZE);
    scene.descriptor.geometries := [floor.descriptor];
  }

  /**
   * What the first frame does to the scene as written: the renderer's `draw` rebuilds
   * the geometry list from the objects (src/Renderer.cpp:168), and since the floor is
   * not one of them, the list of one geometry becomes empty.
   */
  method FirstRebuildAsWritten() returns (before: seq<TriangleDescriptor>, after: seq<TriangleDescriptor>)
    ensures |before| == 1 && after == []
  {
    var scene, floor := NewTestSceneAsWritten();
    before := scene.descriptor.geometries;
    scene.UpdateGeometry();
    after := scene.descriptor.geometries;
  }

  /** The same rebuild on the corrected scene keeps its geometry list of one. */
  method FirstRebuild() returns (before: seq<TriangleDescriptor>, after: seq<TriangleDescriptor>)
    ensures |before| == 1 && after == before
  {
    var t := new TestScene();
    before := t.scene.descriptor.geometries;
    t.scene.UpdateGeometry();
    after := t.scene.descriptor.geometries;
  }
}
