# metalcloth-pathtracing, modelled in Dafny

metalcloth-pathtracing is a real-time path tracer for macOS. It is written in C++ against Metal. A scene holds a set
of objects: a cloth simulated on the GPU, a cube and a floor plane. Each object owns a
triangle-geometry descriptor for the ray-tracing acceleration structure. Every frame, the
renderer steps the simulation, rebuilds the scene's geometry list, encodes a motion-vector
pass and a scene-sampling pass, and swaps its two depth/normal history textures. The scene
is lit by a Radiance RGBE (`.hdr`) environment map, which `Hdri` decodes on the CPU.

This project models the CPU side of that core:

- **`Hdri`** (`hdri.dfy`) is the `.hdr` loader. It works on a model of `std::ifstream` over
  the file's bytes. It covers:
  - the header checks;
  - the zero-filled work buffer;
  - the run-length decoder, as array-updating methods proved against a functional
    specification of the byte stream;
  - the flip-aware read-back into texels.
- **`RgbeFormat`**, **`RgbeHeader`** and **`RgbeFile`** hold the round trips:
  - run-length packets decode to the bytes they stand for;
  - a written header parses back to itself;
  - a whole written image loads back to its pixels, with each texel of the output taken
    from the source row and column the flips select.
- **`Cloth`** covers the cloth's construction:
  - the triangle index table, whose cells tile the table and whose triangles are proper;
  - the primitive data;
  - the pinned first row of particles;
  - the buffers and the descriptor.

  It also covers the per-frame update: `dt / TARGET_TIMESTEP` dispatches, truncated as
  an `unsigned int`.
- **`Dispatch`** is `ComputePipelineState`: thread-group sizing whose grid covers the
  context and is minimal.
- **`Scene`** is the object list, the geometry list rebuilt from it, the update pass and
  the motion pass.
- **`Cube`**, **`FloorPlane`** and **`TestScene`** are the static meshes and the start-up
  scene.
- **`Renderer`** is the key bindings, the mouse camera and the frame encoding. Its state
  updates are a class with `modifies` clauses.
- **`Gpu`** and **`Mesh`** hold the Metal objects the model needs. They are buffers,
  textures, descriptors and a command buffer recording the commands that the encoders
  receive.

## Model

| member | source | states |
|---|---|---|
| Base.CeilDiv | src/ComputePipelineState.cpp:12-14 | `(n + d - 1) / d` is the least number of groups of `d` covering `n`: `q*d >= n` and `(q-1)*d < n` |
| Dispatch.AssertNSError | src/Utils.cpp:3-8 | the process exits, with status -1, exactly when an error is present |
| Dispatch.ThreadsPerGroup | src/ComputePipelineState.cpp:8-10 | a thread group has positive width and height and depth 1; it fits the device maximum; and its height is the largest that fits |
| Dispatch.GridFits | src/ComputePipelineState.cpp:11-16 | the thread groups cover the context size on every axis, and dropping the last group on any axis would leave part of it uncovered |
| Dispatch.ComputePipelineState.constructor | src/ComputePipelineState.cpp:3-17 | the stored sizes are the group and grid sizes, and the grid covers the context minimally |
| Dispatch.ComputePipelineState.Dispatch | src/ComputePipelineState.cpp:23-26 | appends exactly "set pipeline" and one dispatch of the stored sizes to the encoder |
| Dispatch.Create | src/ComputePipelineState.cpp:3-7 | an error reported by the pipeline call ends in the `exit(-1)` outcome and nothing else does; otherwise the new object covers the context minimally (the uninitialised `pErr` is not modelled) |
| Gpu.NewDescriptor | src/Cloth.cpp:79-85 | a fresh triangle descriptor names the triangle count, the three buffers and a stride and element size of one primitive-data record |
| Cloth.IndexTableLength | src/Cloth.cpp:7 | the generated table has `6(N-1)^2` entries, the size of the `indices` array |
| Cloth.GridIndicesAt | src/Cloth.cpp:12-22 | after the rows `0..rows-1`, slot `6(i(N-1)+j)+c` holds corner `c` of cell `(i, j)` |
| Cloth.CellOwnsSlots | src/Cloth.cpp:14-20 | each cell's six slots lie inside the table and hold that cell's two triangles |
| Cloth.SlotsTile | src/Cloth.cpp:14 | two (cell, corner) pairs share a slot exactly when they are equal: the cells write disjoint slots |
| Cloth.SlotOwner | src/Cloth.cpp:12-14 | every slot of the table belongs to some cell and corner, so no entry is left unwritten |
| Cloth.CornerInRange | src/Cloth.cpp:15-20 | every corner index names one of the `N*N` particles |
| Cloth.IndicesInRange | src/Cloth.cpp:15-20 | every entry of the index table is below `N*N` |
| Cloth.TrianglesProper | src/Cloth.cpp:15-20 | for `N >= 2`, both triangles of a cell have three distinct vertices |
| Cloth.WriteCell | src/Cloth.cpp:15-20 | writes one cell's six indices after the given prefix and keeps the prefix |
| Cloth.RowPrefixStep | src/Cloth.cpp:13-21 | extending the row by one cell appends exactly that cell's six indices |
| Cloth.GenerateRow | src/Cloth.cpp:13-21 | the inner loop extends the table from `i` rows of cells to `i+1` |
| Cloth.GenerateIndices | src/Cloth.cpp:12-22 | the nested loops fill the array with exactly the index table |
| Cloth.IndicesPerTriangle | src/Cloth.cpp:7-8 | the index table holds three indices for each of the `2(N-1)^2` triangles |
| Cloth.GeneratePrimitiveData | src/Cloth.cpp:24-27 | one record per triangle, each with all three normals `(0, 0, -1)` |
| Cloth.PinnedRow | src/Cloth.cpp:32-33 | particle `(i, j)` has index `>= N` exactly when it is not in row 0 |
| Cloth.GenerateParticles | src/Cloth.cpp:29-43 | `N*N` particles, and particle `k` is alive exactly when `k >= N`, so the first row is pinned |
| Cloth.PinnedCountRow | src/Cloth.cpp:30-33 | among the first `m` particles, `min(m, N)` are pinned |
| Cloth.PinnedCountIsN | src/Cloth.cpp:29-43 | exactly `N` particles are pinned |
| Cloth.Truncate | src/Cloth.cpp:100 | conversion to `unsigned int` truncates toward zero: the floor for non-negative values and 0 above -1 |
| Cloth.Substep | src/Cloth.cpp:102 | with at least one iteration, the substeps add up to `dt`; with none, there is no substep |
| Cloth.RepeatDispatches | src/Cloth.cpp:109-110 | the loop's `k` repetitions of the dispatch count as `k` dispatches |
| Cloth.IterationsFillFrame | src/Cloth.cpp:100 | the number of whole target timesteps in the frame: `it*T <= dt < (it+1)*T` |
| Cloth.NewClothBuffers | src/Cloth.cpp:66-77 | the four buffers have the source's byte lengths; the index, data and particle buffers hold the index table, one `(0, 0, -1)` record per triangle and particles pinned exactly in the first row |
| Cloth.Cloth.constructor | src/Cloth.cpp:3-90 | group sizes as in `ComputePipelineState`, the grid of `N x N x 1`, the four buffers, and a descriptor of `2(N-1)^2` triangles naming them |
| Cloth.Cloth.UpdateDispatches | src/Cloth.cpp:99-112 | one update pass holds exactly `Iterations(dt, T)` dispatches |
| Cloth.Cloth.Update | src/Cloth.cpp:99-112 | appends the update pass (substep, bindings, pipeline, dispatches, end) to the command buffer |
| Cloth.Cloth.UpdateGeometry | src/Cloth.cpp:114-116 | the descriptor points at the vertex buffer again, and every other field of the descriptor is unchanged |
| Cloth.ClothGridFits | src/Cloth.cpp:61-64 | the cloth's thread groups cover the `N x N` particles minimally |
| Cube.CubeVertices | src/Cube.cpp:34-43 | vertex `k` is the corner with `x = ±size/2` by bit 1 of `k`, `y = 0` or `size` by bit 2, and `z = ±size/2` by bit 0 |
| Cube.CubeIndicesValid | src/Cube.cpp:3-16 | 36 indices, all below 8, three distinct per triangle, and every vertex is used |
| Cube.CubeTrianglesProper | src/Cube.cpp:3-16 | each of the twelve triangles has three distinct vertices |
| Cube.LowerTrianglesProper | src/Cube.cpp:4-9 | triangles 0 to 5 are proper |
| Cube.UpperTrianglesProper | src/Cube.cpp:10-15 | triangles 6 to 11 are proper |
| Cube.CubeVerticesUsed | src/Cube.cpp:3-16 | every one of the eight vertices appears in the index table |
| Cube.CubeRecordsPerTriangle | src/Cube.cpp:18-31 | one primitive-data record per triangle |
| Cube.CubeNormalsFaceOutward | src/Cube.cpp:18-31 | record `t` (corrected) is the outward unit normal of a face that holds all three vertices of triangle `t` |
| Cube.BottomAndLeftFit | src/Cube.cpp:19-22 | records 0 to 3 fit the bottom and left faces |
| Cube.BackAndRightFit | src/Cube.cpp:23-26 | records 4 to 7 fit the back and right faces |
| Cube.FrontAndTopFit | src/Cube.cpp:27-30 | records 8 to 11 fit the front and top faces |
| Cube.CubeRecordZeroAsWritten | src/Cube.cpp:19 | the table as written fits no face in record 0; it differs from the corrected table only in that record's first normal, which is zero |
| Cube.Cube.constructor | src/Cube.cpp:33-66 | the three buffers hold the vertex, index and record tables at their byte lengths, and the descriptor names 12 triangles and those buffers |
| Cube.Cube.Update | src/Cube.cpp:72-74 | the cube never changes |
| FloorPlane.FloorVertices | src/FloorPlane.cpp:9-14 | four vertices, all at height 0 |
| FloorPlane.FloorIndicesValid | src/FloorPlane.cpp:3-6 | two proper triangles over the four vertices, sharing exactly the diagonal `{1, 2}` |
| FloorPlane.FloorPlane.constructor | src/FloorPlane.cpp:8-30 | vertex and index buffers at the source's lengths, and a descriptor of 2 triangles with no primitive data |
| FloorPlane.FloorPlane.Update | src/FloorPlane.cpp:36-38 | the floor never changes |
| Scene.Descriptors | src/Scene.cpp:29-36 | the geometry list has one descriptor per object, in object order |
| Scene.DescriptorsAppend | src/Scene.cpp:10-13 | rebuilding after an append equals the old list plus the new object's descriptor |
| Scene.ClothCountAppend | src/Scene.cpp:23-27 | the number of cloths among objects is additive over concatenation |
| Scene.UpdatePassesAppend | src/Scene.cpp:23-27 | the update loop over `a + b` records `a`'s passes, then `b`'s |
| Scene.UpdateDispatchCount | src/Scene.cpp:23-27 | a scene update dispatches `ClothCount * Iterations(dt, T)` times: only cloths simulate |
| Scene.UpdatePassesStep | src/Scene.cpp:24-26 | one more loop iteration appends exactly that object's pass |
| Scene.MotionGridCovers | src/Scene.cpp:50-54 | each object's motion dispatch is one-dimensional and covers its triangle count minimally |
| Scene.MotionDispatchCount | src/Scene.cpp:41-55 | the motion pass dispatches once per object |
| Scene.ClothMotionCount | src/Scene.cpp:43 | for a cloth as its constructor builds it, the motion pass reads back from the data buffer's length the descriptor's `2(N-1)^2` triangles, one per index triple |
| Scene.MotionCountOfRecords | src/Scene.cpp:43 | the triangle count read back from the data buffer is the count the descriptor was built with |
| Scene.UpdateObject | src/Scene.cpp:24-26 | appends the object's own update pass: the cloth's dispatches, or nothing for cube and floor |
| Scene.EncodeMotion | src/Scene.cpp:42-53 | appends the object's bindings and its motion dispatch |
| Scene.Scene.constructor | src/TestScene.cpp:12 | an empty scene with a fresh, empty acceleration-structure descriptor |
| Scene.Scene.AddObject | src/Scene.cpp:10-13 | the object is appended, and the geometry list is rebuilt to include it last |
| Scene.Scene.UpdateGeometry | src/Scene.cpp:29-36 | the geometry list becomes exactly the objects' descriptors, and the objects are unchanged |
| Scene.Scene.Update | src/Scene.cpp:23-27 | appends every object's update pass in order |
| Scene.Scene.UpdatePrimitiveMotion | src/Scene.cpp:38-57 | one compute encoder, the motion pipeline, each object's motion pass in order, then end of encoding |
| Renderer.WithComponent | src/Renderer.cpp:233 | one component of a direction vector is set and the other two are kept |
| Renderer.Put | src/Renderer.cpp:229-274 | one axis of one input vector is set, and every other axis and the wind flag are kept |
| Renderer.SameInput | src/Renderer.cpp:229-304 | two input states agreeing on every axis and on the wind flag are equal |
| Renderer.Pressed | src/Renderer.cpp:232-268 | a bound key sets its axis to +1 or -1 |
| Renderer.BindingsPaired | src/Renderer.cpp:229-304 | with the corrected release table, a key is released exactly when it is pressed, and on the same axis |
| Renderer.BindingsUnpairedAsWritten | src/Renderer.cpp:300 | as written, L (37) is pressed but never released, and key 27 is released but never pressed |
| Renderer.ReleaseLeavesPushAsWritten | src/Renderer.cpp:260-301 | as written, pressing and releasing L leaves the cloth pushed along +X |
| Renderer.PressSetsOneAxis | src/Renderer.cpp:229-268 | a key press sets exactly its own axis and keeps everything else |
| Renderer.ReleaseZeroesAxis | src/Renderer.cpp:276-303 | a key release zeroes exactly its own axis and keeps everything else |
| Renderer.PressThenRelease | src/Renderer.cpp:229-304 | press then release of a bound key equals releasing it alone: nothing of the press remains |
| Renderer.WindToggles | src/Renderer.cpp:270-272 | Space flips the wind, twice restores it, and its release does nothing |
| Renderer.UnboundKeysIgnored | src/Renderer.cpp:229-304 | any other key changes nothing on press or release |
| Renderer.ClampYaw | src/Renderer.cpp:309-310 | the yaw is kept within `[-pi/2, pi/2]` |
| Renderer.ClampYawNearest | src/Renderer.cpp:309-310 | the clamped yaw is the admissible yaw nearest the requested one, and an admissible yaw is kept |
| Renderer.SceneGridFits | src/Renderer.cpp:28-31 | the scene pass's grid equals `ComputePipelineState`'s and covers the drawable minimally |
| Renderer.Swap | src/Renderer.cpp:224 | the two history textures trade places |
| Renderer.SwapsRestore | src/Renderer.cpp:224 | after an even number of frames the history slots are back in place; after an odd number they are swapped |
| Renderer.NewMaterialBuffers | src/Renderer.cpp:124-136 | the buffers hold exactly the scene's geometry-material indices and materials, at their byte lengths |
| Renderer.Renderer.constructor | src/Renderer.cpp:3-65 | minimal scene grid, two distinct fresh history textures, the test scene loaded, its initial camera, and idle input |
| Renderer.Renderer.LoadScene | src/Renderer.cpp:86-137 | for a scene that is neither resident nor already deleted, any previous scene is released, and the new one is current with its camera, a fresh HDRI texture, acceleration structure and material buffers |
| Renderer.Renderer.KeyUp | src/Renderer.cpp:276-304 | the input state after a release follows the corrected release table |
| Renderer.Renderer.KeyDown | src/Renderer.cpp:229-274 | release first, then set the pressed key's axis or toggle the wind |
| Renderer.Renderer.MouseDragged | src/Renderer.cpp:306-311 | pitch moves by `0.01*dx`, yaw by `0.01*dy` clamped to `[-pi/2, pi/2]`, and the rest of the camera is kept |
| Renderer.Renderer.ScenePassDispatchesOnce | src/Renderer.cpp:185-201 | the scene-sampling pass dispatches exactly once |
| Renderer.Renderer.EncodeFrame | src/Renderer.cpp:170-201 | the frame opens with the motion pipeline, its compute part ends with the scene pass over the current geometry, and it dispatches once per object plus once |
| Renderer.Renderer.Draw | src/Renderer.cpp:139-227 | simulation then a geometry rebuild to the objects' descriptors, the compute part of the frame as above on the rebuilt list, and the history textures swapped |
| TestScene.MaterialIndicesInRange | src/TestScene.cpp:3-9 | the one geometry-material index names a material and fits a `uint16_t` |
| TestScene.InitialCamera | src/TestScene.cpp:26-33 | the camera starts at `(0, 2, -2)` with zero pitch and yaw |
| TestScene.InitialCameraFacesOrigin | src/TestScene.cpp:26-33 | the camera's forward axis points at the origin, and its three axes are pairwise perpendicular |
| TestScene.GeometryMaterials | src/TestScene.cpp:35-37 | a copy of the geometry-material table, each index naming a material |
| TestScene.Materials | src/TestScene.cpp:39-41 | a copy of the material table |
| TestScene.TestScene.constructor | src/TestScene.cpp:11-20 | the scene holds the floor plane as its only object, and the geometry list is the floor's descriptor |
| TestScene.TestScene.Update | src/TestScene.cpp:43-45 | records nothing |
| TestScene.NewTestSceneAsWritten | src/TestScene.cpp:11-20 | as written, the geometry list names the floor, but the scene's object list is empty |
| TestScene.FirstRebuildAsWritten | src/Renderer.cpp:168 | as written, the first frame's rebuild empties the one-geometry list |
| TestScene.FirstRebuild | src/Renderer.cpp:168 | with the floor as an object, the rebuild keeps the geometry list |
| Hdri.SkipSpace | src/Hdri.cpp:10 | skipping leading whitespace only moves forward and keeps the failbit |
| Hdri.WordEnd | src/Hdri.cpp:10 | a word read with `>>` ends at the first whitespace byte or at the end of the file |
| Hdri.DigitsEnd | src/Hdri.cpp:16 | an unsigned read takes the longest run of digits |
| Hdri.HeaderChecks | src/Hdri.cpp:10-22 | each header check in source order rejects with its own error; an accepted header has the magic, the format and a `Y` letter; `flipY` holds exactly when the sign is `-`, and the sizes are the numbers read |
| Hdri.LoadFailures | src/Hdri.cpp:3-22 | loading fails exactly when the file cannot be opened or its header is rejected, and with that reason; otherwise the image has the header's sizes and flips |
| Hdri.ZeroFill | src/Hdri.cpp:27-31 | the work buffer becomes all zeros |
| Hdri.ColumnShift | src/Hdri.cpp:40 | within a plane, the `j`-th step of the decoder writes column `j` |
| Hdri.RowAfterLanes | src/Hdri.cpp:39-53 | after `n` decoder steps on a row, each column's word is its decoded bytes shifted in, in order |
| Hdri.ScanlineWords | src/Hdri.cpp:35-53 | a scanline skips its 4-byte opening; then pixel `k`'s word is made of byte `k` of each of the four planes |
| Hdri.PassStep | src/Hdri.cpp:41-51 | one inner-loop pass shifts the next decoded byte into column `j` and advances the decoder |
| Hdri.NextByte | src/Hdri.cpp:41-50 | the imperative packet logic computes exactly one decoder step |
| Hdri.DecodePass | src/Hdri.cpp:41-51 | one column of one plane, written in place, agrees with the specification, and the rest of the buffer is unchanged |
| Hdri.DecodePlane | src/Hdri.cpp:40-52 | one plane of a row, written in place, agrees with the specification |
| Hdri.DecodePlanes | src/Hdri.cpp:39-53 | four planes turn a zeroed row into the specified words, and the rest of the buffer is unchanged |
| Hdri.DecodeScanline | src/Hdri.cpp:35-53 | the row is appended to the decoded prefix, and the rest stays zero |
| Hdri.DecodeRow | src/Hdri.cpp:34-54 | one iteration of the row loop extends the decoded prefix by one scanline |
| Hdri.DecodeScanlines | src/Hdri.cpp:34-54 | the work buffer holds exactly the specified decoding of all rows, and the stream is where the decoding leaves it |
| Hdri.ScanlinesStep | src/Hdri.cpp:34-54 | decoding `rows + 1` rows is decoding `rows` then one more scanline from where they leave the decoder |
| Hdri.UnpackPack | src/Hdri.cpp:58-61 | splitting a packed word returns the four bytes that went in |
| Hdri.PackUnpack | src/Hdri.cpp:58-61 | packing the four bytes split from a word returns the word |
| Hdri.ShiftFour | src/Hdri.cpp:48-50 | four shifts from zero pack `r, g, b, e` into one word, high byte first |
| Hdri.ShiftInByte | src/Hdri.cpp:49-50 | below 2^24 the `uint32_t` shift-in does not wrap |
| Hdri.SourceRow | src/Hdri.cpp:57 | the row read for output row `i` is in range |
| Hdri.SourceColumn | src/Hdri.cpp:57 | the column read for output column `j` is in range |
| Hdri.SourceIndex | src/Hdri.cpp:57 | the work index read for each output pixel is inside the buffer |
| Hdri.SourceInvolution | src/Hdri.cpp:57 | flipping twice is the identity on rows and on columns |
| Hdri.SourceInjective | src/Hdri.cpp:55-57 | distinct output pixels read distinct work words |
| Hdri.SourceSurjective | src/Hdri.cpp:55-57 | every work word is read for some output pixel: the read-back is a permutation |
| Hdri.TexelAt | src/Hdri.cpp:55-65 | output pixel `(i, j)` is the unpacked work word at the flipped position |
| Hdri.ExtractRow | src/Hdri.cpp:56-64 | one output row is appended after the rows before it |
| Hdri.ExtractTexels | src/Hdri.cpp:55-65 | the texture holds exactly the flipped, unpacked work buffer |
| Hdri.BufferHoldsEveryPixel | src/Hdri.cpp:25-26 | with an exact product length, every index of the zeroing, decoding and read-back loops is inside both buffers |
| Hdri.WorkLengthAsWritten | src/Hdri.cpp:25 | the `uint32_t` product length equals `sizeX * sizeY` exactly when that product is below 2^32, and never exceeds it |
| Hdri.WorkLengthWraps | src/Hdri.cpp:25 | a 65536 by 65536 header gets buffers of length 0, yet the loops address 2^32 entries |
| Hdri.LoadSpec | src/Hdri.cpp:3-72 | a loaded image has exactly `sizeX * sizeY` texels |
| Hdri.Load | src/Hdri.cpp:3-72 | the constructor's steps, run on arrays, compute exactly the specified load |
| RgbeFormat.ExpandPacket | src/Hdri.cpp:41-50 | a valid run or literal packet stands for at least one byte |
| RgbeFormat.StepsAdd | src/Hdri.cpp:39-53 | `a + b` decoder steps are `a` steps, then `b` steps from where those leave off |
| RgbeFormat.RunTail | src/Hdri.cpp:47-50 | inside a run, each step yields the run byte, reads nothing and counts down |
| RgbeFormat.LiteralTail | src/Hdri.cpp:47-50 | inside a literal run, the steps yield the next file bytes in order and count down |
| RgbeFormat.RunStart | src/Hdri.cpp:41-50 | a count byte `128 + c` followed by a value starts a run of `c` copies of the value |
| RgbeFormat.LiteralStart | src/Hdri.cpp:41-50 | a count byte `c <= 128` starts a literal run of the next `c` bytes |
| RgbeFormat.DecodeRun | src/Hdri.cpp:41-50 | a run packet decodes to `c` copies of its byte and consumes 2 bytes |
| RgbeFormat.DecodeLiteral | src/Hdri.cpp:41-50 | a literal packet decodes to its bytes and consumes `1 + c` bytes |
| RgbeFormat.DecodePacket | src/Hdri.cpp:41-50 | any valid packet decodes to its expansion, consumes its encoding and leaves the counter at 0 |
| RgbeFormat.DecodePackets | src/Hdri.cpp:41-50 | a sequence of encoded packets decodes to the concatenation of their expansions, consuming exactly their encoding |
| RgbeFormat.ZeroCount | src/Hdri.cpp:41-47 | a count byte of 0 wraps the counter and is read as a literal run of 256 bytes |
| RgbeHeader.Digits | src/Hdri.cpp:16 | the decimal spelling of `n` is a nonempty run of digits that reads back as `n` |
| RgbeHeader.SkipSpaceTo | src/Hdri.cpp:10 | whitespace skipping stops exactly at the first non-space byte |
| RgbeHeader.ReadWordAt | src/Hdri.cpp:10 | `>>` into a string reads the word written after the spaces and stops after it |
| RgbeHeader.ReadCharAt | src/Hdri.cpp:16 | `>>` into a `char` skips spaces and reads the one written byte |
| RgbeHeader.ReadUnsignedAt | src/Hdri.cpp:16 | `>>` into an unsigned reads back the written decimal number |
| RgbeHeader.AxisGroup | src/Hdri.cpp:16 | the written group `±L size` is three bytes plus the digits of the size |
| RgbeHeader.AxisSteps | src/Hdri.cpp:16-18 | reading a sign, the expected letter and a size yields that flip and size |
| RgbeHeader.ReadAxisAt | src/Hdri.cpp:16 | on a written axis group, the sign, the letter and the size read back in turn |
| RgbeHeader.ReadAxisLaidOut | src/Hdri.cpp:16-22 | a written axis group reads back as its flip and size and ends where the group ends |
| RgbeHeader.ReadWordsLaidOut | src/Hdri.cpp:10-14 | the written header's two words read back as the magic and the format |
| RgbeHeader.ReadAxesLaidOut | src/Hdri.cpp:16-22 | the written resolution line reads back as the Y group, then the X group |
| RgbeHeader.ReadsWritten | src/Hdri.cpp:10-22 | every read of the header parser returns what the writer put there |
| RgbeHeader.ParseSteps | src/Hdri.cpp:10-22 | when all four reads succeed with the expected words and letters, the header is accepted with those values |
| RgbeHeader.HeaderRoundTrip | src/Hdri.cpp:10-22 | any header written out, followed by anything, parses back to itself, stopping at the newline after the resolution line |
| RgbeFile.PlaneBytes | src/Hdri.cpp:39-53 | the four planes of a row hold the R, G, B and E bytes of each pixel at offsets `k`, `n+k`, `2n+k` and `3n+k` |
| RgbeFile.OpeningSkipped | src/Hdri.cpp:35-38 | the four `get()` calls skip exactly the scanline's opening bytes |
| RgbeFile.PlanesDecoded | src/Hdri.cpp:39-53 | the packets of a written scanline decode to its four planes and consume exactly their encoding |
| RgbeFile.PixelOfPlanes | src/Hdri.cpp:48-50 | shifting in a pixel's four plane bytes packs that pixel |
| RgbeFile.WordsOfPlanes | src/Hdri.cpp:35-53 | a scanline whose planes decode correctly yields the packed pixels of the row |
| RgbeFile.ScanlineRoundTrip | src/Hdri.cpp:35-53 | a written scanline decodes to its packed pixels and leaves the decoder idle after it |
| RgbeFile.WordsAt | src/Hdri.cpp:48 | word `i*width + j` of the packed rows is pixel `(i, j)` |
| RgbeFile.ScanlinesStep | src/Hdri.cpp:34-54 | if all but the last written row decode correctly, so do all rows |
| RgbeFile.ScanlinesRoundTrip | src/Hdri.cpp:34-54 | any number of written scanlines decode to the packed pixels of all rows |
| RgbeFile.FileHeader | src/Hdri.cpp:10-33 | a written image's header parses back, and the `get()` after it lands on the first scanline |
| RgbeFile.LoadSteps | src/Hdri.cpp:3-65 | a parsed header and the decoded words determine the loaded image |
| RgbeFile.TexelsOfRows | src/Hdri.cpp:55-65 | reading back packed rows through the flips puts pixel `(flipped i, flipped j)` at output `(i, j)` |
| RgbeFile.LoadRoundTrip | src/Hdri.cpp:3-65 | any image written as a header plus run-length scanlines loads with its sizes and flips, and output texel `(i, j)` is the written pixel at the flipped row and column |

## Left out

- The Metal API is modelled only as the objects and recorded commands the core hands to it. This covers devices, libraries, functions, pipelines, encoders, buffers and textures. Their effects on the GPU are not modelled, and neither are the shaders (`shaders/`) or the SVGF denoiser.
- Floating point is modelled as `real`. Out of scope:
  - the `pow(2, e - 128)` conversion of RGBE bytes to `float4`. The loaded image keeps the four bytes of each pixel.
  - the projection and camera matrices and their inverses;
  - particle positions, mass and spring lengths;
  - the camera's movement by `dt`.
- The wall clock (`std::chrono`), the `printf` of FPS and of iterations, and `rand()` are left out. The random seed of a frame is a parameter.
- The application delegate, the view delegate and `main.cpp` are not part of this model. They hold window and event plumbing.
- Renderer.Renderer.LoadScene gives the HDRI texture no size and copies nothing into it. src/Renderer.cpp:99-122 size the texture from `getHdri()` and blit the HDRI's buffer into it, but the scene's HDRI is set only by `Scene::loadHdri` (src/Scene.cpp:15-17), which nothing in the source calls, so those lines read a pointer that was never assigned.
- Dispatch.Create takes the error slot as the pipeline call leaves it. In src/ComputePipelineState.cpp:4 `pErr` is declared without an initial value, so if the call does not write it on success, `assertNSError` reads an indeterminate pointer.
- Destructors and `release()` calls are not modelled. `Renderer.Renderer.LoadScene` records the replaced scene in `retired` instead of deleting it.
- Uninitialised data is not modelled. The cloth's `vertices` array is copied into its vertex buffer uninitialised, and its contents are left unconstrained. `Hdri`'s `ctr`, which is uninitialised before the first scanline, starts at 0.
- A file is a byte sequence. The model has no locale, no text-mode newline translation and no `float` parsing.
- `TARGET_TIMESTEP` is a parameter (`target`): its definition is not part of this model.
- Hdri.ParseHeader rejects a header whose sign character cannot be read. The source would go on with an uninitialised `char` there.
- Hdri.LoadSpec and Hdri.Load size the work buffer and the texel buffer by the exact product `sizeX * sizeY`. The source takes that product in `uint32_t` (src/Hdri.cpp:25), so they agree with it only while the product is below 2^32; `Hdri.WorkLengthAsWritten` and `Hdri.WorkLengthWraps` state what happens beyond (see Findings).
- Hdri.Load reports a `throw` with no active exception, which terminates the process, as an `Err` result naming the failed check.
- Cloth.Cloth.constructor requires `particleCount >= 1`. For 0, the source's `uint32_t` sizes wrap: `indices` gets 6 entries and `primitiveData` 2 (src/Cloth.cpp:7-9), while the loops over `particleCount - 1`, which wraps to 2^32 - 1, write far past them.
- Cloth.Cloth.constructor computes the cloth's array and buffer sizes exactly. The source computes them in `uint32_t` (src/Cloth.cpp:7-9, 14-20, 66-69 and 80), so the model agrees with it only while `6 * (particleCount - 1)^2` and `3 * particleCount^2 * sizeof(float)` stay below 2^32.
- Cloth.Cloth.Update requires `dt / TARGET_TIMESTEP` to be below 2^31. A quotient that does not fit an `unsigned int` makes the conversion undefined, and one of 2^31 or more makes the signed loop counter `int i` of src/Cloth.cpp:109 overflow.
- Scene.Scene.Update does not forward the move direction or the wind flag to the cloth: `Cloth::update` in src/Cloth.cpp:99 takes neither.
- Renderer.Renderer.Draw stops its command list at the scene pass. The denoiser, the render pass that draws the denoised texture with `drawPrimitives`, and `presentDrawable` (src/Renderer.cpp:203-222) are not modelled; they are the SVGF denoiser and the view's drawable, outside this model.
- Renderer.Renderer.Draw does not model the pitch/yaw camera basis or the move direction applied to the camera position (src/Renderer.cpp:145-159). Both are floating-point matrix work.
- Renderer.Renderer.KeyUp follows the corrected release table, with L on key 37. The table as written is `Renderer.ReleasedAsWritten` (see Findings).
- Renderer.Renderer.KeyDown releases through the corrected table too. As written, `keyDown` first calls `keyUp` (src/Renderer.cpp:230), so pressing key 27 also zeroes the cloth's X direction (src/Renderer.cpp:300-301); that press is `Renderer.KeyDownStateAsWritten`.
- TestScene.TestScene.constructor adds the floor as a scene object. As written, the floor is never added (see Findings).
- Cube.Cube.constructor stores the corrected primitive-data table. The table as written is `Cube.PRIMITIVE_DATA_AS_WRITTEN` (see Findings).
- The mismatch between the number of geometry materials and the number of geometries is not checked, as in the source.

## Findings

| source | as written | input that shows it | evidently intended | confidence | as-written member | corrected member |
|---|---|---|---|---|---|---|
| src/Hdri.cpp:25 | the buffer length `_sizeX * _sizeY` is a `uint32_t` product and wraps modulo 2^32 | the header `-Y 65536 +X 65536`: both buffers get length 0, and the loops write 2^32 entries | a length equal to the true product, so every pixel the loops address is inside the buffers | high, not executed | Hdri.WorkLengthWraps | Hdri.BufferHoldsEveryPixel |
| src/Renderer.cpp:300 | `keyUp` releases key code 27 for L | press L (key 37), then release it: the cloth stays pushed along +X | `case 37`, matching `keyDown` at line 260 | high, not executed | Renderer.BindingsUnpairedAsWritten | Renderer.BindingsPaired |
| src/Cube.cpp:19 | the first record's first vertex normal is `{0, 0, 0}` | triangle 0 of the bottom face: its first normal is the zero vector | `{0, -1, 0}`, like the other two normals of that record | medium, not executed | Cube.CubeRecordZeroAsWritten | Cube.CubeNormalsFaceOutward |
| src/TestScene.cpp:11-20 | the floor's descriptor is put straight into the geometry list, but the floor is never added as a scene object | the first `draw` rebuilds the list from the objects (src/Renderer.cpp:168), and the floor disappears | the floor added through `addObject` | medium, not executed | TestScene.FirstRebuildAsWritten | TestScene.FirstRebuild |
