# Marching-cubes terrain: chunk streaming and GPU result repackaging

This project is a Dafny model of the integer and sequence logic around a
Bevy marching-cubes terrain demo. It covers three source files, one module
each:

- `ChunkStreaming` (`chunk_streaming.dfy`) covers `src/terrain.rs`, the 2-D
  chunk streaming manager. Its `Terrain` class holds the view distance, the
  chunk size and the registry from chunk coordinates `(x, z)` to chunk
  entities. Each tick, `update_chunks` does three things:
  - it builds the set of coordinates visible from every camera, scanning each
    row outward from the camera's column and mirroring the scan;
  - it despawns and unregisters the chunk entities that are out of range, and
    removes the coordinates of the kept ones from the spawn list;
  - it spawns and registers one entity per remaining coordinate.
- `ComputeTerrain` (`compute_terrain.dfy`) covers `src/terrain/mod.rs`, the
  3-D variant of the same module. Meshing is offloaded to a compute kernel
  there. The module models:
  - the read-back buffer size, the dispatch size and the chunk's world origin;
  - the read-back buffer as a class with a map state and a log of its
    operations;
  - `create_mesh`, which flattens the per-cell cube records into a triangle
    soup and then derives the vertex, index, texture-coordinate and
    flat-normal lists;
  - the chunk lifecycle of `update_terrain`: a chunk holds its task until a
    poll finds the mapping complete, then gets a mesh and loses the task.
- `EdgePreview` (`edge_preview.dfy`) covers `src/main.rs`. It walks one row of
  the triangle table up to its `-1` sentinel. Then it colours the twelve
  edge-midpoint markers: red when that edge was collected, yellow otherwise.
- `Wrappers` (`wrappers.dfy`) holds the `Option` type that registry lookups
  return.

Entities are opaque ids. Spawning and despawning are recorded as the
sequence of events a pass issues. A query is a sequence in iteration order.
The order in which a `HashSet` is iterated is left open: the spawn loop
picks any pending coordinate. The host allocates entity ids, and the model
takes them as `firstId, firstId + 1, ...`. Whether a poll finds its task
ready depends on the buffer's map state, which the host advances through
`Buffer.CompleteMapping`.

## Model

| member | source | states |
|---|---|---|
| `ChunkStreaming.Disc` | src/terrain.rs:86-103 | the disc one camera sees holds exactly the coordinates whose row offset is within `d` and whose squared offset is at most `d * d` |
| `ChunkStreaming.ScanRow` | src/terrain.rs:87-103 | the outward, mirrored scan of row `z` adds exactly the in-view coordinates of that row; its loop ends for every row because `x` grows until `x * x + z * z > d * d` |
| `ChunkStreaming.RowExtent` | src/terrain.rs:91-103 | when the row scan stops at `x`, the offsets it inserted (`0` and `-x < dx < x`) are exactly those with `dx * dx + z * z <= d * d` |
| `ChunkStreaming.VisibleChunkCoords` | src/terrain.rs:79-105 | the camera loop and row loops build exactly the union of the cameras' discs |
| `ChunkStreaming.VisibleWitness` | src/terrain.rs:79-105 | every visible coordinate is in view of some camera, and the lemma names that camera |
| `ChunkStreaming.InViewVisible` | src/terrain.rs:79-105 | a coordinate in view of any camera is visible |
| `ChunkStreaming.VisibleIffSomeCamera` | src/terrain.rs:79-105 | visible if and only if some camera has the coordinate in view; so with no camera the set is empty |
| `ChunkStreaming.OffsetInView` | src/terrain.rs:86-103 | `(cx + dx, cz + dz)` is visible iff `-d <= dz <= d` and `dx*dx + dz*dz <= d*d`, and then also `-d <= dx <= d` |
| `ChunkStreaming.CameraChunkVisible` | src/terrain.rs:87-89 | every camera's own chunk is visible |
| `ChunkStreaming.ZeroViewDistance` | src/terrain.rs:86-103 | view distance 0 makes the visible set exactly `{(cx, cz)}` |
| `ChunkStreaming.DiscSymmetric` | src/terrain.rs:99-100 | one camera's visible set is symmetric about its chunk column and about its chunk row |
| `ChunkStreaming.VisibleMonotone` | src/terrain.rs:92-100 | increasing the view distance never removes a visible coordinate |
| `ChunkStreaming.VisibleUnion` | src/terrain.rs:81-105 | the visible set of two groups of cameras is the union of their visible sets |
| `ChunkStreaming.OutOfRange` | src/terrain.rs:107-111 | lists exactly the entities whose coordinate is not visible |
| `ChunkStreaming.NoCameraEvictsAll` | src/terrain.rs:79-114 | with no camera, every chunk entity is despawned in query order, every coordinate is removed and the spawn list is empty |
| `ChunkStreaming.DiffSpawnList` | src/terrain.rs:107-114 | after the diff pass the spawn list is the visible set minus every coordinate an existing entity has |
| `ChunkStreaming.DiffEvictsOutOfRange` | src/terrain.rs:107-111 | every entity whose coordinate is out of range is despawned and its coordinate removed from the registry |
| `ChunkStreaming.DiffDistinct` | src/terrain.rs:107-114 | with one entity per coordinate, the pass despawns exactly the out-of-range entities, in query order, and removes exactly their coordinates; chunks in range are kept |
| `ChunkStreaming.SpawnStep` | src/terrain.rs:116-137 | spawning and registering one more pending coordinate keeps the spawn loop's invariant: spawned and pending partition the spawn list, no coordinate is spawned twice |
| `ChunkStreaming.RegisterKeys` | src/terrain.rs:116-137 | registering the spawned chunks adds exactly their coordinates as keys and leaves every other entry unchanged |
| `ChunkStreaming.RegisterValues` | src/terrain.rs:116-137 | when no coordinate is spawned twice, each spawned coordinate maps to the entity spawned for it |
| `ChunkStreaming.TickRegistry` | src/terrain.rs:107-137 | after a tick the registry holds no evicted coordinate; if it held one key per chunk entity before, it holds exactly the visible set after |
| `ChunkStreaming.SurvivorsShape` | src/terrain.rs:107-113 | the chunk entities the diff pass keeps have distinct coordinates, namely the visible ones that left the spawn list, and each is one of the queried entities |
| `ChunkStreaming.TickAgreement` | src/terrain.rs:107-137 | a tick that starts with registry and chunk entities in agreement (one entity per coordinate, keys exactly their coordinates, each key mapped to its entity) ends in agreement with the next tick's entities, the kept ones followed by the spawned ones, whose coordinates are exactly the visible set; so the registry properties hold on every tick, not only the first |
| `ChunkStreaming.InitialAgreement` | src/terrain.rs:35-41 | the empty registry of a new terrain agrees with there being no chunk entity |
| `ChunkStreaming.Terrain.constructor` | src/terrain.rs:35-41 | view distance 5, chunk size 64, empty registry |
| `ChunkStreaming.Terrain.GetChunk` | src/terrain.rs:50-52 | `Some(entity)` exactly when the coordinate is registered, with the registered entity |
| `ChunkStreaming.Terrain.HasChunk` | src/terrain.rs:54-56 | true exactly when `GetChunk` finds an entity |
| `ChunkStreaming.Terrain.SetChunk` | src/terrain.rs:58-60 | afterwards `HasChunk` holds and `GetChunk` returns the inserted entity; no other key changes |
| `ChunkStreaming.Terrain.RemoveChunk` | src/terrain.rs:62-64 | afterwards `HasChunk` is false; no other key changes |
| `ChunkStreaming.Terrain.EvictOutOfRange` | src/terrain.rs:107-114 | the loop computes the diff pass: it returns the spawn list and the despawned entities, and the registry loses exactly the evicted coordinates |
| `ChunkStreaming.Terrain.SpawnChunks` | src/terrain.rs:116-137 | every coordinate of the spawn list is spawned exactly once with its plane at `(x * 64, z * 64)`, and is registered through `SetChunk` |
| `ChunkStreaming.Terrain.UpdateChunks` | src/terrain.rs:71-138 | one tick: visible set, then evictions, then spawns; the despawned entities, the spawned coordinates and the new registry are those of the specification functions; a registry that agreed with the chunk entities before the tick holds exactly the visible set after it and agrees with the next tick's entities |
| `ComputeTerrain.BufferSize` | src/terrain/mod.rs:128-129 | the read-back buffer holds exactly one cube record per cell of the 64³ chunk and fits a u32 |
| `ComputeTerrain.ChunkOrigin` | src/terrain/mod.rs:156-160 | the per-axis origin `position * 64 - 32` puts the chunk's cells centred on `position * 64` |
| `ComputeTerrain.OriginsTile` | src/terrain/mod.rs:156-160 | origins of two chunks differ by 64 per unit of position, so distinct chunks have distinct origins |
| `ComputeTerrain.ComputePlan` | src/terrain/mod.rs:154-202 | the kernel gets chunk size 64 and the chunk origin; the workgroups per axis times 8 cover the 64 cells exactly; the whole buffer is copied back |
| `ComputeTerrain.Buffer.constructor` | src/terrain/mod.rs:131-136 | a new buffer is unmapped and has no operation logged |
| `ComputeTerrain.Buffer.MapAsync` | src/terrain/mod.rs:208-210 | requesting the read mapping leaves the buffer pending and logs the request |
| `ComputeTerrain.Buffer.CompleteMapping` | src/terrain/mod.rs:202-221 | the copy and the mapping complete only on a pending buffer, which then holds exactly one cube record per cell (`buffer_size / stride`) |
| `ComputeTerrain.Buffer.GetMappedRange` | src/terrain/mod.rs:217-221 | reading is allowed only on a mapped buffer and yields its contents |
| `ComputeTerrain.Buffer.Unmap` | src/terrain/mod.rs:234 | only a mapped buffer is unmapped; the unmap is logged |
| `ComputeTerrain.Buffer.Destroy` | src/terrain/mod.rs:235 | a buffer is destroyed at most once; the destroy is logged |
| `ComputeTerrain.NewChunk` | src/terrain/mod.rs:127-143 | a new chunk owns a fresh, unmapped buffer of `BufferSize` bytes at the given position |
| `ComputeTerrain.CreateComputeTask` | src/terrain/mod.rs:145-214 | submits the dispatch plan of the chunk and leaves its buffer awaiting the mapping, its contents untouched |
| `ComputeTerrain.FlattenCubes` | src/terrain/mod.rs:223-231 | the nested push loops produce the in-order concatenation of each cube's first `triangle_count` triangles |
| `ComputeTerrain.FlattenAppend` | src/terrain/mod.rs:223-231 | flattening distributes over concatenation of the cube records |
| `ComputeTerrain.FlattenLength` | src/terrain/mod.rs:40-43 | the soup holds the sum of the triangle counts, at most five per cube |
| `ComputeTerrain.Vertices` | src/terrain/mod.rs:239-244 | three vertices per triangle: entries `3i`, `3i+1` and `3i+2` are `a`, `b` and `c` of triangle `i` |
| `ComputeTerrain.Indices` | src/terrain/mod.rs:245-247 | index `k` is `k`, for as many indices as vertices |
| `ComputeTerrain.Uvs` | src/terrain/mod.rs:248-250 | one texture coordinate per vertex, each `(0, 0)` |
| `ComputeTerrain.FaceNormals` | src/terrain/mod.rs:252-264 | one normal per vertex, and the three normals of each vertex triple are the triple's face normal |
| `ComputeTerrain.IndicesFitU32` | src/terrain/mod.rs:245-247 | a full chunk's mesh has fewer than 2^32 vertices, so the `as u32` index conversion does not truncate |
| `ComputeTerrain.ComputeNormals` | src/terrain/mod.rs:252-264 | the loop over index triples yields exactly the replicated face normals |
| `ComputeTerrain.CreateMesh` | src/terrain/mod.rs:216-273 | the mesh is built from the mapped records; the buffer is read, then unmapped, then destroyed, each exactly once, in that order; every index of the mesh fits the u32 it is cast to |
| `ComputeTerrain.ChunkEntity.constructor` | src/terrain/mod.rs:294 | a chunk entity starts holding its task, with no mesh |
| `ComputeTerrain.SetupTerrain` | src/terrain/mod.rs:283-297 | spawns exactly one chunk entity, at position (0, 0, 0), with the dispatch plan of the origin chunk submitted and its buffer awaiting the mapping |
| `ComputeTerrain.Poll` | src/terrain/mod.rs:306-327 | a poll drops the task exactly when it is ready; a ready chunk gets the mesh of its records at its origin and its buffer is read, unmapped and destroyed, and the mesh's indices fit a u32; a chunk not ready is unchanged |
| `ComputeTerrain.PollIdempotent` | src/terrain/mod.rs:306-327 | polling a second time changes nothing: a completed chunk is never polled again |
| `ComputeTerrain.PollMeshOnce` | src/terrain/mod.rs:306-327 | a chunk holds either its task or its mesh, and a mesh once attached is never replaced |
| `ComputeTerrain.UpdateChunkEntity` | src/terrain/mod.rs:307-326 | one chunk entity's new state is the poll of its old state |
| `ComputeTerrain.UpdateTerrain` | src/terrain/mod.rs:300-329 | every chunk entity is polled once and its new state is the poll of its old state |
| `EdgePreview.AsU32` | src/main.rs:79 | the `as u32` cast keeps the value modulo 2^32 and leaves non-negative values unchanged |
| `EdgePreview.PrefixBeforeSentinel` | src/main.rs:74-80 | the collected entries are a prefix of the row, contain no `-1`, and are followed by a `-1` unless they are the whole row; so the prefix is no longer than the row and keeps the row's order |
| `EdgePreview.PrefixUnique` | src/main.rs:74-80 | those three properties determine the prefix uniquely |
| `EdgePreview.CollectIndices` | src/main.rs:72-80 | the loop with its `break` collects, as u32, exactly the row's entries before the first `-1` |
| `EdgePreview.TableRowIndices` | src/main.rs:74-80 | for a row of edge indices 0 to 11 and sentinels, each collected index is the row's entry unchanged and names an edge |
| `EdgePreview.EdgeMarkers` | src/main.rs:82-95 | twelve markers, one per edge midpoint in order; marker `i` is red iff `i` was collected |
| `EdgePreview.Setup` | src/main.rs:51-114 | the preview mesh has the midpoints as positions and normals, twelve `(0, 0)` texture coordinates and the collected index list; markers are red exactly at the collected edges |

## Left out

- Chunk coordinates from a camera's translation (src/terrain.rs:43-48) divide and round floats. The model takes each camera's integer chunk coordinate as input.
- The i32 arithmetic of src/terrain.rs is modelled on unbounded integers. The model does not capture an i32 overflow of `center + x` for a camera chunk near the i32 limits.
- Bevy's `Commands`, `Query`, `Assets`, PBR bundles, materials and the plane meshes are host plumbing. Spawning is recorded as a `Spawned` event carrying its entity id, coordinate and plane origin. Despawning is recorded as the despawned entity.
- `HashSet` iteration order is left open. `SpawnChunks` may spawn the pending coordinates in any order.
- The shader module, pipeline, bind groups, command encoding and queue submission (src/terrain/mod.rs:66-117, 152-206) are device API. `ComputePlan` keeps only the values they carry.
- The compute kernel and the marching-cubes tables are not part of this model. The cube records the kernel writes are an input to `Buffer.CompleteMapping`. The triangle-table row of src/main.rs is a parameter of `Setup`.
- `map_async`, the task pool and `block_on(poll_once)` are async machinery. A poll is ready exactly when the buffer's mapping has completed, and the host completes the mapping.
- `ComputeTerrain.Poll`: the mapping-error value that `poll_once` returns is ignored by the source (`Some(_)`), and the model has no failed-mapping state. It does not capture what happens when a mapping fails.
- `Cube::std140_size_static()` is library code. The record stride is a parameter of `BufferSize` and `NewChunk`, which require the u32 product not to overflow.
- Vertex positions and normals are f32 vectors in the source. Here positions are triples of reals that are only copied. The face normal (`cross` then `normalize`) is an uninterpreted parameter `normalOf`. The render transform and the kernel's input origin are f32 in the source and exact integers here.
- `ComputeTerrain.UpdateTerrain` requires every ready buffer's records to have a triangle count of at most five. The source would index out of bounds on a larger count.
- The window, fly camera, ambient light, texture loading and the plugin wiring of src/main.rs and both terrain files have nothing to verify and are not modelled.
