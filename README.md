# KernmoduleTechArt core, modelled in Dafny

The project models the gameplay and rendering core of a small Unity level.

- **The procedural grass renderer.** The host side sizes and fills four GPU buffers from a source mesh, instantiates private copies of a compute shader and a material, and pushes the grass settings as uniforms. Every frame it resets the append and indirect-argument buffers, dispatches the kernel and draws indirectly. It also has two unused filters: one keeps the painted vertices, the other keeps the triangles all of whose corners are painted.
- **The mesh subdivision helper.** It splits every triangle into four. Each edge gets a midpoint vertex, shared by the triangles on both sides of that edge.
- **The game progression.** A singleton records whether the scroll was taken and counts the monoliths that have been activated. It cues the timeline and three particle systems. The three interactables are:
  - the scroll, which sets the flag;
  - the monoliths, each of which counts once, and only after the scroll;
  - the mood switch, which sends the ending once the count is exactly three.

Modules:

- `Unity`: the engine types the core uses:
  - vectors, kept as symbolic terms;
  - colours;
  - colliders with tags;
  - a mesh class with 32-bit indices, whose vertex assignment resizes the other vertex channels the way Unity does;
  - C#'s 32-bit `int` as an explicit wrap-around.
- `Engine` and `Shader`: a GPU/engine abstraction.
  - It keeps live buffer handles, live instantiated objects and the next fresh id.
  - It logs every call, in order, as a `Command`.
- `ProceduralGrass`: the renderer.
  - The `ProceduralGrassRenderer` class has the component's fields.
  - Its sizing functions use C# `int` arithmetic.
  - Its command-sequence functions state what each lifecycle step issues.
- `SourceFilters`: the two filters as functions, and lemmas about them.
- `SubdivisionSpec`: the specification of one subdivision step, on values.
  - The undirected edge list.
  - The position of each edge's midpoint.
  - The refined index list.
- `MeshSubdivision`: the `MeshHelper` class.
  - Its fields are the helper's static working lists.
  - `GetNewVertex` and `Subdivide` are proved against `SubdivisionSpec`.
  - The packed 32-bit edge key is modelled as written.
- `Progress`: the `Singleton` class, and the `Registry` that stands for `Singleton.Instance`.
  - Each timeline or particle call is one `Effect` in a trace.
  - The trace is tied to the story the level tells.
- `Interactables`: the three interactable MonoBehaviours as classes.
  - A key press and the trigger callbacks are method calls with parameters.
- `Scene`: a closed level made of one singleton, one scroll, one mood switch and k monoliths.
  - The invariant `Level.Valid` holds: the count equals the number of monoliths that have fired, and the trace is the story so far.
  - Every frame callback of every object preserves it.

## Model

| member | source | states |
|---|---|---|
| ProceduralGrass.Strides | Assets/GrassShader/ProceduralGrassRenderer.cs:54-59 | The four strides are 28, 4, 60 and 16 bytes, and the args reset is [0, 1, 0, 0]. |
| ProceduralGrass.NumSourceTriangles | Assets/GrassShader/ProceduralGrassRenderer.cs:87 | The triangle count is the number of whole triples in the index list: 3n ≤ length < 3n + 3. |
| ProceduralGrass.MaxBladeSegments | Assets/GrassShader/ProceduralGrassRenderer.cs:88 | The segment count is at least 1 and at least the setting, and it is one of the two. |
| ProceduralGrass.MaxBladeTriangles | Assets/GrassShader/ProceduralGrassRenderer.cs:89 | The per-blade triangle count is a 32-bit value; see MaxBladeTrianglesOdd for its parity and range. |
| ProceduralGrass.MaxBladeTrianglesOdd | Assets/GrassShader/ProceduralGrassRenderer.cs:89 | Triangles per blade in 32-bit arithmetic: always odd. Positive exactly when maxSegments ≤ 2^30, and then 2·max(1, maxSegments) − 1. |
| ProceduralGrass.DrawCapacity | Assets/GrassShader/ProceduralGrassRenderer.cs:95 | The draw buffer's element count is a 32-bit value; see DrawCapacityProduct, DrawCapacitySingleSegment and DrawCapacityNeedsTriangle. |
| ProceduralGrass.DrawCapacitySingleSegment | Assets/GrassShader/ProceduralGrassRenderer.cs:87-95 | With at most one segment the draw buffer holds one record per source triangle. |
| ProceduralGrass.DrawCapacityProduct | Assets/GrassShader/ProceduralGrassRenderer.cs:87-95 | When the product fits in an int, the draw buffer's element count is triangles × (2·segments − 1). |
| ProceduralGrass.DispatchSize | Assets/GrassShader/ProceduralGrassRenderer.cs:124-125 | The group count times the group width covers every source triangle, and one group fewer would not. |
| ProceduralGrass.DispatchSizeIsCeiling | Assets/GrassShader/ProceduralGrassRenderer.cs:124-125 | The thread groups cover every source triangle and no group is wholly idle. For zero triangles the size is zero; activation itself needs at least one triangle (see `Ready`). |
| ProceduralGrass.DrawCapacityNeedsTriangle | Assets/GrassShader/ProceduralGrassRenderer.cs:87-95 | A draw buffer of positive size needs at least three indices, so the triangle buffer beside it is never empty. |
| ProceduralGrass.TwoTrianglesThreeSegments | Assets/GrassShader/ProceduralGrassRenderer.cs:87-95 | Two triangles with three segments need ten draw records, 600 bytes. |
| ProceduralGrass.ProceduralGrassRenderer.OnDisable | Assets/GrassShader/ProceduralGrassRenderer.cs:134-150 | When initialized, both instances are destroyed (immediately outside play mode) and the four buffers released, in that order. It always ends uninitialized with nothing live, and a repeated call issues nothing. |
| ProceduralGrass.ProceduralGrassRenderer.OnEnable | Assets/GrassShader/ProceduralGrassRenderer.cs:61-132 | Tears down any live activation, then builds a fresh one. Afterwards the only live buffers and objects are the six new ones, whose sizes and strides follow from the mesh and the settings. It issues exactly the teardown followed by the activation sequence. |
| ProceduralGrass.ProceduralGrassRenderer.Activate | Assets/GrassShader/ProceduralGrassRenderer.cs:68-125 | From nothing live, an activation allocates six fresh ids and issues the instantiations, the buffers and the configuration in source order. |
| ProceduralGrass.ProceduralGrassRenderer.InstantiateCopies | Assets/GrassShader/ProceduralGrassRenderer.cs:70-71 | The shader and material copies get the next two ids and become live objects. |
| ProceduralGrass.ProceduralGrassRenderer.BuildBuffers | Assets/GrassShader/ProceduralGrassRenderer.cs:76-125 | The four buffers get consecutive fresh handles with the source sizes and strides. The kernel is `Main` and the dispatch size is the ceiling of triangles over the group width. |
| ProceduralGrass.ProceduralGrassRenderer.AllocateBuffers | Assets/GrassShader/ProceduralGrassRenderer.cs:91-97 | Creates the vertex, triangle, draw and args buffers in order. The first two are filled and the append counter of the third is reset. |
| ProceduralGrass.ProceduralGrassRenderer.PackVertices | Assets/GrassShader/ProceduralGrassRenderer.cs:80-86 | The packed array holds, at each i, position i with colour i. |
| ProceduralGrass.ProceduralGrassRenderer.Configure | Assets/GrassShader/ProceduralGrassRenderer.cs:101-122 | Binds the four buffers, pushes the settings and gives the draw buffer to the material; buffers and objects are unchanged. |
| ProceduralGrass.ProceduralGrassRenderer.BindBuffers | Assets/GrassShader/ProceduralGrassRenderer.cs:101-104 | The four kernel slots are bound to the four buffers in source order. |
| ProceduralGrass.ProceduralGrassRenderer.PushSettings | Assets/GrassShader/ProceduralGrassRenderer.cs:105-120 | Every setting except `meshSubdivisions`, which the renderer never reads, is pushed once, shape settings before wind settings. |
| ProceduralGrass.ProceduralGrassRenderer.PushShape | Assets/GrassShader/ProceduralGrassRenderer.cs:105-112 | Pushes the triangle count and the clamped segment count as ints, and the six blade-shape settings as floats. |
| ProceduralGrass.ProceduralGrassRenderer.PushWind | Assets/GrassShader/ProceduralGrassRenderer.cs:113-120 | Binds the noise texture, then pushes the five wind floats and the LOD vector; the LOD factor is clamped at 0. |
| ProceduralGrass.ProceduralGrassRenderer.IssueFrame | Assets/GrassShader/ProceduralGrassRenderer.cs:176-188 | A frame resets the counter and the args, pushes time, matrix and camera, dispatches, then draws. Nothing is allocated or released. |
| ProceduralGrass.ProceduralGrassRenderer.LateUpdate | Assets/GrassShader/ProceduralGrassRenderer.cs:170-189 | In play mode the renderer state is unchanged and only the frame's calls are issued. Outside play mode there is a full teardown with immediate destruction and a fresh activation first. That branch only runs in the editor, and `[ExecuteInEditMode]` is commented out at line 8, so in this project it is unreachable; it is modelled as written. |
| ProceduralGrass.ProceduralGrassRenderer.GetVertices | Assets/GrassShader/ProceduralGrassRenderer.cs:191-213 | The index set holds exactly the vertices with red > 0, and the list holds those vertices in mesh order, one per index. |
| ProceduralGrass.ProceduralGrassRenderer.GetTriangles | Assets/GrassShader/ProceduralGrassRenderer.cs:215-237 | The result is `KeepCovered` of the mesh's triangles: the triples whose corners are all in the set, in order. |
| SourceFilters.PaintedIndicesExact | Assets/GrassShader/ProceduralGrassRenderer.cs:202-209 | An index is listed iff it is below n and its vertex is painted; the list is strictly increasing. |
| SourceFilters.FlattenTriples | Assets/GrassShader/ProceduralGrassRenderer.cs:220-224 | Cutting a whole-triangle index list into triples and flattening it again gives the list back. |
| SourceFilters.TriplesFlatten | Assets/GrassShader/ProceduralGrassRenderer.cs:220-224 | Flattening triangles and cutting the result into triples gives the triangles back. |
| SourceFilters.FilterCoveredExact | Assets/GrassShader/ProceduralGrassRenderer.cs:226-233 | A triangle is kept iff it is in the input and all three corners are in the set. |
| SourceFilters.KeepCoveredIsFilter | Assets/GrassShader/ProceduralGrassRenderer.cs:220-234 | The flat filter is the triangle filter seen through `Triples`. |
| SourceFilters.KeepCoveredMembership | Assets/GrassShader/ProceduralGrassRenderer.cs:226-233 | The output's triangles are exactly the input's fully covered ones, and every output index is in the set. |
| SourceFilters.KeepCoveredSound | Assets/GrassShader/ProceduralGrassRenderer.cs:226-233 | Every index in the output is in the set. |
| SourceFilters.KeepCoveredAll | Assets/GrassShader/ProceduralGrassRenderer.cs:226-233 | When every index is in the set, nothing is dropped. |
| SourceFilters.KeepCoveredIdempotent | Assets/GrassShader/ProceduralGrassRenderer.cs:220-236 | Filtering twice is filtering once. |
| SubdivisionSpec.AddEdge | Assets/Scripts/MeshHelper.cs:22-28 | Recording an edge leaves the list unchanged when the edge is there in either direction, and otherwise appends it in the direction met. |
| SubdivisionSpec.EdgesOfDistinct | Assets/Scripts/MeshHelper.cs:18-28 | No undirected edge of the mesh is recorded twice, in either direction. |
| SubdivisionSpec.EdgesOfExact | Assets/Scripts/MeshHelper.cs:49-57 | An undirected edge is recorded iff it is a side of some triangle. |
| SubdivisionSpec.MidSymmetric | Assets/Scripts/MeshHelper.cs:18-25 | (a, b) and (b, a) have the same midpoint vertex. |
| SubdivisionSpec.RefinedInRange | Assets/Scripts/MeshHelper.cs:55-69 | Every refined index is below the original vertex count plus the number of edges. |
| SubdivisionSpec.RefinedKeepsCorners | Assets/Scripts/MeshHelper.cs:58-66 | The four triangles of triangle t start at its three original corners, at offsets 0, 3 and 6 of block 12t. |
| MeshSubdivision.EdgeKeyAsWritten | Assets/Scripts/MeshHelper.cs:20-21 | The packed key as written; what its halves hold is stated by EdgeKeyHalves, and below 2^16 by EdgeKeyUnpack and EdgeKeyInjective. |
| MeshSubdivision.EdgeKeyHalves | Assets/Scripts/MeshHelper.cs:20-21 | For any indices, the key's lower 16 bits are i2's lower 16 bits, and its upper 16 bits are i1's lower 16 bits or-ed with i2's upper 16 bits. |
| MeshSubdivision.EdgeKeyCollision | Assets/Scripts/MeshHelper.cs:20-21 | The packed keys of the edges (0, 65536) and (1, 0) are equal. |
| MeshSubdivision.EdgeKeyInjective | Assets/Scripts/MeshHelper.cs:20-21 | Below 2^16 two edges share a packed key only if they are the same directed edge. |
| MeshSubdivision.EdgeKeyUnpack | Assets/Scripts/MeshHelper.cs:20-21 | Below 2^16 the key's upper half is i1 and its lower half i2, so keys are distinct per directed edge. |
| MeshSubdivision.CachedAsWritten | Assets/Scripts/MeshHelper.cs:20-25 | The packed-key lookup hits iff either direction's key is present. A reverse-key hit returns that entry; otherwise a forward-key hit returns its entry. |
| MeshSubdivision.SharedMidpointAsWritten | Assets/Scripts/MeshHelper.cs:20-25 | With the edge (0, 65536) cached, the uncached edge (1, 0) is answered with the same midpoint vertex. |
| MeshSubdivision.SubdividedKeepsOriginals | Assets/Scripts/MeshHelper.cs:43-44 | The original vertices and normals are an unchanged prefix of the result. |
| MeshSubdivision.CacheSize | Assets/Scripts/MeshHelper.cs:27-28 | The dictionary has one key per cached edge. |
| MeshSubdivision.RecordedOnceDistinct | Assets/Scripts/MeshHelper.cs:22-28 | An edge is only ever cached when it is absent in both directions, so the cache never holds an edge twice. |
| MeshSubdivision.MeshHelper.ListsAligned | Assets/Scripts/MeshHelper.cs:27-32 | The vertex and normal lists have equal length: the originals plus one per cached edge, which is also the dictionary's size. |
| MeshSubdivision.MeshHelper.GetNewVertex | Assets/Scripts/MeshHelper.cs:16-36 | A hit on the reverse key wins, then a hit on the forward key. On a miss, the new index is the old vertex count and the edge is cached under (i1, i2). In every case the result is the midpoint vertex of the undirected edge, and the cache invariant is kept. |
| MeshSubdivision.MeshHelper.SplitTriangle | Assets/Scripts/MeshHelper.cs:51-69 | The three sides' midpoints are taken in the order (i1,i2), (i2,i3), (i3,i1). The twelve indices (i1,a,c), (i2,b,a), (i3,c,b), (a,b,c) are appended. |
| MeshSubdivision.MeshHelper.Begin | Assets/Scripts/MeshHelper.cs:41-46 | Begins with an empty dictionary, copies of the vertices and normals, and empty indices. |
| MeshSubdivision.MeshHelper.RefineAll | Assets/Scripts/MeshHelper.cs:48-70 | After the loop, the lists are the subdivided vertices and normals, and the indices are the refined triangles. |
| MeshSubdivision.MeshHelper.Subdivide | Assets/Scripts/MeshHelper.cs:39-85 | The mesh gets the originals followed by one midpoint per undirected edge in order of first appearance, and the refined triangles. The colour channel follows the new vertex count: the old colours first, then zero padding, and a mesh without colours stays without. All working lists are cleared. |
| Unity.Resized | Assets/Scripts/MeshHelper.cs:72 | A vertex channel after the vertex count changes: a present channel has the new length and keeps its leading entries, with padding after them; an absent channel stays empty. |
| Unity.Mesh.SetVertices | Assets/Scripts/MeshHelper.cs:72 | Assigning the vertices replaces them and resizes the normal and colour channels to the new count; the triangles stay. |
| Progress.EventEffects | Assets/Scripts/Singleton.cs:47-57 | Counts 1, 2 and 3 each send exactly two cues: a timeline event, then the particle system of the same number. Every other count sends none. That count n sends the n-th step of the story is stated by StoryStep. |
| Progress.StoryStep | Assets/Scripts/Singleton.cs:47-57 | Going from n to n + 1 extends the story by step n + 1, and by nothing after step three. |
| Progress.EmittedIsStory | Assets/Scripts/Singleton.cs:47-57 | Any number of increments from zero sends the three steps once each, in order. |
| Progress.PlotMembership | Assets/Scripts/Singleton.cs:35-63 | Dropping the scroll cues keeps every other cue. |
| Progress.Singleton.HasGottenScroll | Assets/Scripts/Singleton.cs:30-33 | Returns the flag. |
| Progress.Singleton.ReceiveScroll | Assets/Scripts/Singleton.cs:35-40 | Sets the flag and cues the timeline, on every call; the count is unchanged. |
| Progress.Singleton.GetActivatedEvents | Assets/Scripts/Singleton.cs:42-45 | Returns the count. |
| Progress.Singleton.IncreaseEvents | Assets/Scripts/Singleton.cs:47-57 | The count rises by one with C# int wrap-around, and the cues for the new count are sent. |
| Progress.Singleton.MoodSwitch | Assets/Scripts/Singleton.cs:59-63 | Sends the ending cue, whatever the state. |
| Progress.Registry.Awake | Assets/Scripts/Singleton.cs:18-28 | The first singleton to wake registers itself. A different one waking later is destroyed and the registered instance stays. |
| Interactables.InRangeAfter | Assets/Scripts/MonolithInteractable.cs:22-36 | Only a collider tagged Player changes the range flag: entering sets it, leaving clears it. |
| Interactables.MonolithInteractable.Update | Assets/Scripts/MonolithInteractable.cs:10-20 | Fires iff the key is pressed in range, the monolith has not fired, and the scroll was taken. Firing marks it and raises the count once; otherwise the singleton is untouched. |
| Interactables.MonolithInteractable.OnTriggerEnter | Assets/Scripts/MonolithInteractable.cs:22-28 | The player entering puts the monolith in range. |
| Interactables.MonolithInteractable.OnTriggerExit | Assets/Scripts/MonolithInteractable.cs:30-36 | The player leaving takes it out of range. |
| Interactables.MoodSwitchInteractable.Update | Assets/Scripts/MoodSwitchInteractable.cs:10-20 | Fires iff the key is pressed in range, the switch has not fired, and the count is exactly 3. Firing marks it and sends the ending; otherwise the singleton is untouched. |
| Interactables.MoodSwitchInteractable.OnTriggerEnter | Assets/Scripts/MoodSwitchInteractable.cs:22-28 | The player entering puts the switch in range. |
| Interactables.MoodSwitchInteractable.OnTriggerExit | Assets/Scripts/MoodSwitchInteractable.cs:30-36 | The player leaving takes it out of range. |
| Interactables.ScrollInteractable.Update | Assets/Scripts/ScrollInteractable.cs:9-18 | A key press in range hands over the scroll on every press; otherwise nothing happens. |
| Interactables.ScrollInteractable.OnTriggerEnter | Assets/Scripts/ScrollInteractable.cs:20-26 | The player entering puts the scroll in range. |
| Interactables.ScrollInteractable.OnTriggerExit | Assets/Scripts/ScrollInteractable.cs:28-34 | The player leaving takes the scroll out of range. |
| Scene.MonolithStep | Assets/Scripts/MonolithInteractable.cs:14-17 | A monolith firing after the scroll raises the count exactly to n + 1 and tells the next step of the story. An ending already sent stays last. |
| Scene.EndingStep | Assets/Scripts/MoodSwitchInteractable.cs:14-17 | The mood switch firing at count three appends the ending to the full story. |
| Scene.ScrollStep | Assets/Scripts/ScrollInteractable.cs:14-16 | Taking the scroll, however often, adds nothing to the story. |
| Scene.EndingMeansStoryTold | Assets/Scripts/MoodSwitchInteractable.cs:14-17 | The ending is in the trace iff it was sent, and then all three events come before it. |
| Scene.Level.EventsBounded | Assets/Scripts/MonolithInteractable.cs:14-17 | The count is never negative and never exceeds the number of monoliths: each monolith counts once. |
| Scene.Level.EndComesLast | Assets/Scripts/MoodSwitchInteractable.cs:14-17 | In any reachable state the ending was sent exactly when the switch fired, after all three events. |
| Scene.Level.UpdateMonolith | Assets/Scripts/MonolithInteractable.cs:10-20 | A monolith's frame keeps the level invariant. |
| Scene.Level.UpdateMoodSwitch | Assets/Scripts/MoodSwitchInteractable.cs:10-20 | The mood switch's frame keeps the level invariant. |
| Scene.Level.UpdateScroll | Assets/Scripts/ScrollInteractable.cs:9-18 | The scroll's frame keeps the level invariant. |

## Left out

- The compute shader and the material. They are not part of this model: the kernel's work and the drawing are opaque engine calls in the log.
- Floating-point math is not modelled.
  - `TransformBounds` (ProceduralGrassRenderer.cs:153-168), the bounds expansion and the bounds passed to the draw call are left out.
  - `DrawProceduralIndirect` is logged without its bounds. Its two `null` arguments (no camera, no property block) are left out; shadow casting off, shadow receiving on and the layer are logged.
  - Settings values are reals, pushed unchanged.
  - A midpoint is the term `Midpoint(u, v)` and a normal the term `NormalizedSum(u, v)`, with no arithmetic.
- ProceduralGrass.DispatchSize: the float division under `Mathf.CeilToInt` is read as the exact integer ceiling. This differs only when the triangle count is too large to be exact in a float.
- Debug.Log output is not modelled.
- The two `Debug.Assert` checks in OnEnable become the precondition `Ready`, together with a colour per vertex and a positive thread-group width.
- Engine.Engine.NewBuffer demands a positive count: Unity's `ComputeBuffer` constructor throws on a count of zero or less. The exception is not modelled, nor the half-built activation it would leave (`initialized` already set, the earlier buffers live). So `Ready` also demands at least one vertex and a positive draw capacity. That rules out an empty mesh, fewer than three indices, and any `maxSegments` whose 32-bit draw capacity wraps to zero or below (for instance one just above 2^30 with a single triangle).
- Engine.Engine.Release and Engine.Engine.DestroyObject demand a live handle or object. The renderer only ever releases its own four distinct buffers and destroys its own two distinct instances (`Apart`).
- Engine inputs become parameters. `Application.isPlaying` is a parameter, and so are the frame's `Time.timeSinceLevelLoad`, `transform.localToWorldMatrix` and `Camera.main` position (`FrameInputs`). The layer passed to the draw call (`gameObject.layer`) is part of `FrameInputs` too. So are `Input.GetKeyDown("e")` (`keyDown`) and the trigger callbacks' `Collider`.
- Unity's frame loop is out of scope. It would call LateUpdate only after OnEnable, hence `isPlaying ==> initialized` on LateUpdate.
- `Destroy` in play mode is deferred by Unity to the end of the frame; the model removes the object at once and records whether destruction was immediate.
- TimelineManager.cs and ScrollManager.cs are not part of this model. Each call into the timeline and each `ParticleSystem.Play` is one `Effect` appended to the singleton's trace.
- The interactables and the level take the singleton as a parameter `game`. It stands for `Singleton.Instance`, the instance the `Registry` holds once the level's singleton has woken. The model does not tie the two: a caller can pass any singleton.
- `Destroy(this)` in `Awake` is recorded in `Registry.destroyed`; the destroyed component's later life is not modelled.
- Progress.Registry.Awake covers one scene's lifetime. `Instance != null` uses Unity's overloaded null test, so once the registered singleton is destroyed (by a scene load, since it is not kept with `DontDestroyOnLoad`) the next one to wake registers itself. The model keeps the first instance for good.
- MeshSubdivision.MeshHelper.GetNewVertex keys its dictionary by the index pair rather than the packed 32-bit word, and MeshSubdivision.MeshHelper.Subdivide inherits that key. The two agree while every index is below 2^16 (`EdgeKeyInjective`). The packed key is modelled separately: `EdgeKeyAsWritten` and `CachedAsWritten` (see Findings). No lemma ties `CachedAsWritten` to the pair-keyed cache.
- The helper's static fields become the fields of one `MeshHelper` object. Calls from several threads, or re-entrant ones, are not modelled.
- Unity.Mesh.SetVertices and MeshSubdivision.MeshHelper.Subdivide take the mesh to use 32-bit indices; the index format is not modelled. Under Unity's default 16-bit format, assigning more than 65535 vertices is refused with an error, the normal and triangle assignments after it fail too, and the mesh stays as it was.
- Unity.Mesh.SetVertices pads a resized channel with zeros, and its contract states those zeros. Unity guarantees only that the channel follows the new vertex count. Tangents, UVs and the other channels are not modelled.
- Each renderer is modelled with an engine of its own: the constructor demands an engine with nothing live, and `Valid` says the engine's live buffers and objects are exactly the renderer's. Several renderers sharing one scene are not modelled.
- MeshSubdivision.MeshHelper.Subdivide demands what the source would otherwise fail on with an exception:
  - a normal per triangle corner;
  - whole triangles;
  - indices within the vertex list.
  It does not model the half-done state such an exception leaves.
- MeshSubdivision.MeshHelper.Subdivide demands exactly one normal per vertex, which also excludes two cases the source handles without an exception: a mesh with no triangles whose normal count differs from its vertex count (the loop never runs and the arrays are written back as they were), and a mesh with more normals than vertices (the loop runs, and Unity refuses the longer normal array).
- The vertex list's growth is not bounded by C#'s `int` range.
- ProceduralGrass.ProceduralGrassRenderer.GetTriangles demands whole triangles; on a trailing partial triangle the source would index past the end.
- GetVertices demands a colour per vertex.
- GetVertices and GetTriangles are not called from OnEnable, since their call sites are commented out (lines 73-74); they are modelled on their own.
- The colours uploaded by OnEnable are indexed by vertex, so `Ready` demands at least as many colours as vertices.
- Scene.Level is a closed world: the only objects that call into the singleton are the level's own, and each frame callback is one method call. The order in which Unity runs the callbacks within a frame is left free.
- Scene.Level.UpdateMonolith, UpdateMoodSwitch and UpdateScroll state only that the level invariant is kept. What each frame does to its own object is stated by the interactables' Update contracts.

## Findings

| source | as written | input that shows it | evidently intended | confidence | as-written member | corrected member |
|---|---|---|---|---|---|---|
| Assets/Scripts/MeshHelper.cs:20-21 | The edge key is i1 shifted left by 16 bits, or-ed with i2, as 32-bit words. | A mesh with 32-bit indices (Unity's default 16-bit index format stops at 65535 vertices) and 65537 or more vertices, containing the edges (0, 65536) and then (1, 0). Both edges get key 0x10000, so (1, 0) reuses the midpoint of (0, 65536) instead of getting its own. | One dictionary key per directed edge, so that only the same undirected edge shares a midpoint. | not executed | MeshSubdivision.SharedMidpointAsWritten | MeshSubdivision.MeshHelper.GetNewVertex |
