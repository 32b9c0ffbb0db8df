/**
 * The three-dimensional, GPU-offloaded terrain variant: a chunk owns a
 * read-back buffer sized for one cube record per cell, a compute task
 * fills it, and once the read-back mapping completes the cube records are
 * repackaged into a flat-shaded triangle-soup mesh and the buffer is
 * released.
 *
 * Positions and normals are f32 vectors in the source; here they are
 * triples of reals that are only moved around, never computed with. The
 * face normal is a parameter (`normalOf`), left uninterpreted.
 */
module ComputeTerrain {
  import opened Wrappers

  /** Cells per chunk along each axis. */
  const CHUNK_SIZE: nat := 64
  /** Cells per compute workgroup along each axis: the divisor of the
      dispatch size. */
  const WORKGROUP_EDGE: nat := 8
  /** Triangle slots in one cube record. */
  const MAX_TRIANGLES: nat := 5
  /** Cells in one chunk, one cube record each. */
  const CELLS: nat := CHUNK_SIZE * CHUNK_SIZE * CHUNK_SIZE
  /** Buffer sizes and indices are u32 values. */
  const U32_LIMIT: nat := 0x1_0000_0000

  datatype Vec3 = Vec3(x: real, y: real, z: real)

  datatype IVec3 = IVec3(x: int, y: int, z: int)

  /** A triangle stored by value: its three corner positions. */
  datatype Triangle = Triangle(a: Vec3, b: Vec3, c: Vec3)

  /** The per-cell record the compute kernel writes: a triangle count and a
      fixed array of five triangle slots. */
  datatype Cube = Cube(triangleCount: nat, triangles: seq<Triangle>)

  /** A record the repackaging can read: five slots, and a count that does
      not run past them (a larger count would index out of bounds). */
  predicate ValidCube(cube: Cube) {
    |cube.triangles| == MAX_TRIANGLES && cube.triangleCount <= MAX_TRIANGLES
  }

  predicate ValidCubes(cubes: seq<Cube>) {
    forall k :: 0 <= k < |cubes| ==> ValidCube(cubes[k])
  }

  // ---------------------------------------------------------------------
  // Sizes and offsets
  // ---------------------------------------------------------------------

  /** The read-back buffer size of Chunk::new, for a cube record of
      `cubeStride` bytes: one record per cell. The product is a u32. */
  function BufferSize(cubeStride: nat): (size: nat)
    requires CELLS * cubeStride < U32_LIMIT
    ensures size < U32_LIMIT
    ensures cubeStride > 0 ==> size % cubeStride == 0 && size / cubeStride == CELLS
  {
    var size := CHUNK_SIZE * CHUNK_SIZE * CHUNK_SIZE * cubeStride;
    if cubeStride > 0 then
      DivExact(CELLS, cubeStride);
      size
    else size
  }

  lemma DivExact(n: nat, d: nat)
    requires d > 0
    ensures (n * d) % d == 0 && (n * d) / d == n
  {
    var q, r := (n * d) / d, (n * d) % d;
    assert q * d + r == n * d;
    assert (n - q) * d == n * d - q * d;
    if q < n {
      MulAtLeast(n - q, d);
    }
  }

  lemma MulAtLeast(a: nat, d: nat)
    requires a >= 1
    ensures a * d >= d
  {
    assert a * d == (a - 1) * d + d;
  }

  /** The world position of a chunk's first cell, per axis
      position * CHUNK_SIZE - CHUNK_SIZE / 2: the chunk's cells are centred
      on position * CHUNK_SIZE. */
  function ChunkOrigin(position: IVec3): (origin: IVec3)
    ensures origin.x + CHUNK_SIZE / 2 == position.x * CHUNK_SIZE
    ensures origin.y + CHUNK_SIZE / 2 == position.y * CHUNK_SIZE
    ensures origin.z + CHUNK_SIZE / 2 == position.z * CHUNK_SIZE
  {
    IVec3(position.x * CHUNK_SIZE - CHUNK_SIZE / 2,
          position.y * CHUNK_SIZE - CHUNK_SIZE / 2,
          position.z * CHUNK_SIZE - CHUNK_SIZE / 2)
  }

  /** Neighbouring chunks abut: origins differ by CHUNK_SIZE per unit of
      position, so distinct chunks have distinct origins. */
  lemma OriginsTile(p: IVec3, q: IVec3)
    ensures ChunkOrigin(q).x - ChunkOrigin(p).x == (q.x - p.x) * CHUNK_SIZE
    ensures ChunkOrigin(q).y - ChunkOrigin(p).y == (q.y - p.y) * CHUNK_SIZE
    ensures ChunkOrigin(q).z - ChunkOrigin(p).z == (q.z - p.z) * CHUNK_SIZE
    ensures ChunkOrigin(p) == ChunkOrigin(q) <==> p == q
  {
  }

  /** The uniform input of the compute kernel. */
  datatype ChunkInput = ChunkInput(chunkSize: nat, position: IVec3)

  /** What create_compute_task records and submits: the kernel input, the
      number of workgroups per axis and the bytes copied into the read-back
      buffer. */
  datatype DispatchPlan = DispatchPlan(input: ChunkInput, workgroups: IVec3, copySize: nat)

  function ComputePlan(position: IVec3, bufferSize: nat): (plan: DispatchPlan)
    ensures plan.input == ChunkInput(CHUNK_SIZE, ChunkOrigin(position))
    ensures plan.workgroups.x * WORKGROUP_EDGE == CHUNK_SIZE
    ensures plan.workgroups.y * WORKGROUP_EDGE == CHUNK_SIZE
    ensures plan.workgroups.z * WORKGROUP_EDGE == CHUNK_SIZE
    ensures plan.copySize == bufferSize
  {
    var groups := CHUNK_SIZE / WORKGROUP_EDGE;
    DispatchPlan(ChunkInput(CHUNK_SIZE, ChunkOrigin(position)), IVec3(groups, groups, groups), bufferSize)
  }

  // ---------------------------------------------------------------------
  // The read-back buffer
  // ---------------------------------------------------------------------

  datatype MapState = Unmapped | MapPending | Mapped | Destroyed

  /** Operations on a buffer, recorded in the order they happen. */
  datatype BufferOp = MapRequestOp | ReadOp | UnmapOp | DestroyOp

  /** A MAP_READ | COPY_DST device buffer. `contents` are the cube records
      the device copied in; they may be read only while the buffer is
      mapped. */
  class Buffer {
    const size: nat
    var state: MapState
    var contents: seq<Cube>
    ghost var ops: seq<BufferOp>

    constructor (size: nat)
      ensures this.size == size && state == Unmapped && ops == []
    {
      this.size := size;
      state := Unmapped;
      contents := [];
      ops := [];
    }

    /** map_async(MapMode::Read): the mapping completes later. */
    method MapAsync()
      requires state == Unmapped
      modifies this
      ensures state == MapPending && contents == old(contents)
      ensures ops == old(ops) + [MapRequestOp]
    {
      state := MapPending;
      ops := ops + [MapRequestOp];
    }

    /** The device finishing the submitted copy and the mapping: an event
        of the host, not of the modelled code. The copy fills the whole
        buffer, CELLS records of the record stride, and the byte cast of
        create_mesh reads it back as exactly CELLS records. */
    method CompleteMapping(cubes: seq<Cube>)
      requires state == MapPending && |cubes| == CELLS
      modifies this
      ensures state == Mapped && contents == cubes && ops == old(ops)
    {
      state := Mapped;
      contents := cubes;
    }

    /** get_mapped_range: defined only on a mapped buffer. */
    method GetMappedRange() returns (cubes: seq<Cube>)
      requires state == Mapped
      modifies this
      ensures cubes == contents && state == Mapped && contents == old(contents)
      ensures ops == old(ops) + [ReadOp]
    {
      cubes := contents;
      ops := ops + [ReadOp];
    }

    method Unmap()
      requires state == Mapped
      modifies this
      ensures state == Unmapped && contents == old(contents)
      ensures ops == old(ops) + [UnmapOp]
    {
      state := Unmapped;
      ops := ops + [UnmapOp];
    }

    method Destroy()
      requires state != Destroyed
      modifies this
      ensures state == Destroyed && contents == old(contents)
      ensures ops == old(ops) + [DestroyOp]
    {
      state := Destroyed;
      ops := ops + [DestroyOp];
    }
  }

  /** A chunk: its read-back buffer, the buffer's size and its position in
      chunk units. The struct is never changed; the buffer it holds is. */
  datatype Chunk = Chunk(buffer: Buffer, bufferSize: nat, position: IVec3)

  /** Chunk::new: a fresh, unmapped buffer of BufferSize bytes. */
  method NewChunk(position: IVec3, cubeStride: nat) returns (chunk: Chunk)
    requires CELLS * cubeStride < U32_LIMIT
    ensures fresh(chunk.buffer) && chunk.buffer.state == Unmapped && chunk.buffer.ops == []
    ensures chunk.bufferSize == BufferSize(cubeStride) == chunk.buffer.size
    ensures chunk.position == position
  {
    var size := BufferSize(cubeStride);
    var buffer := new Buffer(size);
    chunk := Chunk(buffer, size, position);
  }

  /** create_compute_task: submit the dispatch and the copy, then request
      the mapping whose completion the task awaits. */
  method CreateComputeTask(chunk: Chunk) returns (plan: DispatchPlan)
    requires chunk.buffer.state == Unmapped
    modifies chunk.buffer
    ensures plan == ComputePlan(chunk.position, chunk.bufferSize)
    ensures chunk.buffer.state == MapPending && chunk.buffer.contents == old(chunk.buffer.contents)
    ensures chunk.buffer.ops == old(chunk.buffer.ops) + [MapRequestOp]
  {
    plan := ComputePlan(chunk.position, chunk.bufferSize);
    chunk.buffer.MapAsync();
  }

  // ---------------------------------------------------------------------
  // Repackaging the cube records into a mesh
  // ---------------------------------------------------------------------

  /** The triangles a cube record holds: its first triangleCount slots. */
  function CubeTriangles(cube: Cube): seq<Triangle>
    requires ValidCube(cube)
  {
    cube.triangles[..cube.triangleCount]
  }

  /** The triangle soup: each cube's triangles, cube after cube. */
  function Flatten(cubes: seq<Cube>): seq<Triangle>
    requires ValidCubes(cubes)
  {
    if cubes == [] then []
    else Flatten(cubes[..|cubes| - 1]) + CubeTriangles(cubes[|cubes| - 1])
  }

  /** Total triangle count over the records. */
  function TriangleTotal(cubes: seq<Cube>): nat
  {
    if cubes == [] then 0 else TriangleTotal(cubes[..|cubes| - 1]) + cubes[|cubes| - 1].triangleCount
  }

  /** Flattening distributes over concatenation of the record sequence. */
  lemma {:induction false} FlattenAppend(first: seq<Cube>, rest: seq<Cube>)
    requires ValidCubes(first) && ValidCubes(rest)
    ensures ValidCubes(first + rest)
    ensures Flatten(first + rest) == Flatten(first) + Flatten(rest)
  {
    var whole := first + rest;
    forall k | 0 <= k < |whole|
      ensures ValidCube(whole[k])
    {
      if k < |first| {
        assert whole[k] == first[k];
      } else {
        assert whole[k] == rest[k - |first|];
      }
    }
    if rest == [] {
      assert whole == first;
    } else {
      var n := |rest| - 1;
      var init := rest[..n];
      assert forall k :: 0 <= k < n ==> init[k] == rest[k];
      FlattenAppend(first, init);
      assert whole[..|whole| - 1] == first + init;
      assert whole[|whole| - 1] == rest[n];
      assert Flatten(whole) == Flatten(first + init) + CubeTriangles(rest[n]);
      assert Flatten(rest) == Flatten(init) + CubeTriangles(rest[n]);
    }
  }

  /** The soup holds exactly the counted triangles, at most five per cell. */
  lemma {:induction false} FlattenLength(cubes: seq<Cube>)
    requires ValidCubes(cubes)
    ensures |Flatten(cubes)| == TriangleTotal(cubes) <= MAX_TRIANGLES * |cubes|
  {
    if cubes != [] {
      FlattenLength(cubes[..|cubes| - 1]);
    }
  }

  /** Vertex positions, three per triangle in the order a, b, c. */
  function Vertices(triangles: seq<Triangle>): (vs: seq<Vec3>)
    ensures |vs| == 3 * |triangles|
    ensures forall i :: 0 <= i < |triangles| ==>
      vs[3 * i] == triangles[i].a && vs[3 * i + 1] == triangles[i].b && vs[3 * i + 2] == triangles[i].c
  {
    if triangles == [] then []
    else
      var t := triangles[0];
      var vs := [t.a, t.b, t.c] + Vertices(triangles[1..]);
      assert forall i :: 1 <= i < |triangles| ==> triangles[1..][i - 1] == triangles[i];
      vs
  }

  /** The ascending index list 0, 1, ..., n - 1. */
  function Indices(n: nat): (ix: seq<nat>)
    ensures |ix| == n && forall k :: 0 <= k < n ==> ix[k] == k
  {
    if n == 0 then [] else Indices(n - 1) + [n - 1]
  }

  /** n placeholder texture coordinates, all (0, 0). */
  function Uvs(n: nat): (uvs: seq<(real, real)>)
    ensures |uvs| == n && forall k :: 0 <= k < n ==> uvs[k] == (0.0, 0.0)
  {
    if n == 0 then [] else Uvs(n - 1) + [(0.0, 0.0)]
  }

  /** One face normal per consecutive vertex triple, repeated on each of
      the triple's three vertices. */
  function FaceNormals(vertices: seq<Vec3>, normalOf: (Vec3, Vec3, Vec3) -> Vec3): (ns: seq<Vec3>)
    requires |vertices| % 3 == 0
    ensures |ns| == |vertices|
    ensures forall j :: 0 <= j < |vertices| / 3 ==>
      var n := normalOf(vertices[3 * j], vertices[3 * j + 1], vertices[3 * j + 2]);
      ns[3 * j] == n && ns[3 * j + 1] == n && ns[3 * j + 2] == n
  {
    if vertices == [] then []
    else
      var m := |vertices| - 3;
      var n := normalOf(vertices[m], vertices[m + 1], vertices[m + 2]);
      var ns := FaceNormals(vertices[..m], normalOf) + [n, n, n];
      assert forall k :: 0 <= k < m ==> vertices[..m][k] == vertices[k];
      ns
  }

  /** A triangle-list mesh: positions, normals, texture coordinates and
      the index list. */
  datatype Mesh = Mesh(positions: seq<Vec3>, normals: seq<Vec3>, uvs: seq<(real, real)>, indices: seq<nat>)

  /** The mesh create_mesh builds from the cube records. */
  function MeshOf(cubes: seq<Cube>, normalOf: (Vec3, Vec3, Vec3) -> Vec3): Mesh
    requires ValidCubes(cubes)
  {
    var vertices := Vertices(Flatten(cubes));
    Mesh(vertices, FaceNormals(vertices, normalOf), Uvs(|vertices|), Indices(|vertices|))
  }

  /** A full chunk's mesh has fewer than 2^32 vertices, so every index fits
      the u32 the source converts it to. */
  lemma IndicesFitU32(cubes: seq<Cube>, normalOf: (Vec3, Vec3, Vec3) -> Vec3)
    requires ValidCubes(cubes) && |cubes| == CELLS
    ensures |MeshOf(cubes, normalOf).indices| <= 3 * MAX_TRIANGLES * CELLS < U32_LIMIT
  {
    FlattenLength(cubes);
  }

  /** The flattening loops of create_mesh: push each cube's first
      triangleCount triangles, cube after cube. */
  method FlattenCubes(cubes: seq<Cube>) returns (triangles: seq<Triangle>)
    requires ValidCubes(cubes)
    ensures triangles == Flatten(cubes)
  {
    triangles := [];
    for k := 0 to |cubes|
      invariant triangles == Flatten(cubes[..k])
    {
      var cube := cubes[k];
      for i := 0 to cube.triangleCount
        invariant triangles == Flatten(cubes[..k]) + cube.triangles[..i]
      {
        triangles := triangles + [cube.triangles[i]];
      }
      assert cubes[..k + 1][..k] == cubes[..k];
    }
    assert cubes[..|cubes|] == cubes;
  }

  /** The normals loop of create_mesh: for each chunk of three indices, the
      normal of the triangle they index, pushed three times. */
  method ComputeNormals(vertices: seq<Vec3>, indices: seq<nat>, normalOf: (Vec3, Vec3, Vec3) -> Vec3)
    returns (normals: seq<Vec3>)
    requires |vertices| % 3 == 0 && indices == Indices(|vertices|)
    ensures normals == FaceNormals(vertices, normalOf)
  {
    normals := [];
    for t := 0 to |indices| / 3
      invariant normals == FaceNormals(vertices[..3 * t], normalOf)
    {
      var a := vertices[indices[3 * t]];
      var b := vertices[indices[3 * t + 1]];
      var c := vertices[indices[3 * t + 2]];
      var normal := normalOf(a, b, c);
      normals := normals + [normal, normal, normal];
      assert vertices[..3 * (t + 1)][..3 * t] == vertices[..3 * t];
    }
    assert vertices[..3 * (|indices| / 3)] == vertices;
  }

  /** create_mesh: read the mapped records, flatten them, release the
      buffer (unmap, then destroy), then derive the vertex, index, texture
      coordinate and normal lists. */
  method CreateMesh(chunk: Chunk, normalOf: (Vec3, Vec3, Vec3) -> Vec3) returns (mesh: Mesh)
    requires chunk.buffer.state == Mapped && ValidCubes(chunk.buffer.contents)
    requires |chunk.buffer.contents| == CELLS
    modifies chunk.buffer
    ensures mesh == MeshOf(old(chunk.buffer.contents), normalOf)
    ensures |mesh.indices| < U32_LIMIT
    ensures chunk.buffer.state == Destroyed && chunk.buffer.contents == old(chunk.buffer.contents)
    ensures chunk.buffer.ops == old(chunk.buffer.ops) + [ReadOp, UnmapOp, DestroyOp]
  {
    var cubes := chunk.buffer.GetMappedRange();
    var triangles := FlattenCubes(cubes);
    chunk.buffer.Unmap();
    chunk.buffer.Destroy();

    var vertices := Vertices(triangles);
    var indices := Indices(|vertices|);
    var uvs := Uvs(|vertices|);
    var normals := ComputeNormals(vertices, indices, normalOf);
    mesh := Mesh(vertices, normals, uvs, indices);
    IndicesFitU32(cubes, normalOf);
  }

  // ---------------------------------------------------------------------
  // The chunk task lifecycle
  // ---------------------------------------------------------------------

  /** A chunk entity: its chunk, whether it still holds its compute task,
      and the mesh and transform attached once the task completed. */
  class ChunkEntity {
    const chunk: Chunk
    var hasTask: bool
    var mesh: Option<Mesh>
    var transform: Option<IVec3>

    /** An entity spawned with a chunk and its task. */
    constructor (chunk: Chunk)
      ensures this.chunk == chunk && hasTask && mesh == None && transform == None
    {
      this.chunk := chunk;
      hasTask := true;
      mesh := None;
      transform := None;
    }
  }

  /** A freshly spawned chunk entity at the given position: it holds its
      task, no mesh yet, and its own new buffer awaiting the mapping. */
  ghost predicate Spawned(e: ChunkEntity, position: IVec3, cubeStride: nat)
    reads e, e.chunk.buffer
  {
    && e.chunk.position == position && e.hasTask && e.mesh == None && e.transform == None
    && e.chunk.buffer.state == MapPending && e.chunk.buffer.ops == [MapRequestOp]
    && CELLS * cubeStride < U32_LIMIT && e.chunk.bufferSize == BufferSize(cubeStride) == e.chunk.buffer.size
  }

  /** setup_terrain: for every position in [0, 1)^3, that is the chunk at
      the origin only, a new chunk whose compute task has been submitted,
      spawned as an entity holding the chunk and the task. */
  method SetupTerrain(cubeStride: nat) returns (entities: seq<ChunkEntity>, plans: seq<DispatchPlan>)
    requires CELLS * cubeStride < U32_LIMIT
    ensures |entities| == 1 && Spawned(entities[0], IVec3(0, 0, 0), cubeStride)
    ensures fresh(entities[0]) && fresh(entities[0].chunk.buffer)
    ensures plans == [ComputePlan(IVec3(0, 0, 0), BufferSize(cubeStride))]
  {
    entities, plans := [], [];
    for x := 0 to 1
      invariant |entities| == x && plans == seq(x, _ => ComputePlan(IVec3(0, 0, 0), BufferSize(cubeStride)))
      invariant forall i :: 0 <= i < x ==> Spawned(entities[i], IVec3(0, 0, 0), cubeStride)
      invariant forall i :: 0 <= i < x ==> fresh(entities[i]) && fresh(entities[i].chunk.buffer)
    {
      for y := 0 to 1
        invariant |entities| == x + y && plans == seq(x + y, _ => ComputePlan(IVec3(0, 0, 0), BufferSize(cubeStride)))
        invariant forall i :: 0 <= i < x + y ==> Spawned(entities[i], IVec3(0, 0, 0), cubeStride)
        invariant forall i :: 0 <= i < x + y ==> fresh(entities[i]) && fresh(entities[i].chunk.buffer)
      {
        for z := 0 to 1
          invariant |entities| == x + y + z && plans == seq(x + y + z, _ => ComputePlan(IVec3(0, 0, 0), BufferSize(cubeStride)))
          invariant forall i :: 0 <= i < x + y + z ==> Spawned(entities[i], IVec3(0, 0, 0), cubeStride)
          invariant forall i :: 0 <= i < x + y + z ==> fresh(entities[i]) && fresh(entities[i].chunk.buffer)
        {
          var chunk := NewChunk(IVec3(x, y, z), cubeStride);
          var plan := CreateComputeTask(chunk);
          var e := new ChunkEntity(chunk);
          entities, plans := entities + [e], plans + [plan];
        }
      }
    }
  }

  /** What one pass observes of a chunk entity: its components and the
      state of its chunk's buffer. */
  datatype EntityView = EntityView(hasTask: bool, mesh: Option<Mesh>, transform: Option<IVec3>,
                                   state: MapState, contents: seq<Cube>, ops: seq<BufferOp>)

  ghost function ViewOf(e: ChunkEntity): EntityView
    reads e, e.chunk.buffer
  {
    EntityView(e.hasTask, e.mesh, e.transform, e.chunk.buffer.state, e.chunk.buffer.contents, e.chunk.buffer.ops)
  }

  /** A poll of the task returns a value once the buffer's mapping has
      completed. */
  predicate Ready(v: EntityView) {
    v.hasTask && v.state == Mapped
  }

  /** The records a completed mapping exposes are ones the repackaging can
      read: one per cell, each with at most five triangles. */
  predicate Readable(v: EntityView) {
    Ready(v) ==> ValidCubes(v.contents) && |v.contents| == CELLS
  }

  /** One poll of a chunk entity at the given chunk position: a ready task
      is replaced by the mesh made from the buffer, placed at the chunk's
      origin, and the buffer is read, unmapped and destroyed; anything else
      is left as it was. The task is dropped exactly when it was ready. */
  ghost function Poll(v: EntityView, position: IVec3, normalOf: (Vec3, Vec3, Vec3) -> Vec3): (w: EntityView)
    requires Readable(v)
    ensures Readable(w)
    ensures (v.hasTask && !w.hasTask) <==> Ready(v)
    ensures Ready(v) ==> w.mesh == Some(MeshOf(v.contents, normalOf)) && w.transform == Some(ChunkOrigin(position))
    ensures Ready(v) ==> w.state == Destroyed && w.contents == v.contents && w.ops == v.ops + [ReadOp, UnmapOp, DestroyOp]
    ensures Ready(v) ==> |w.mesh.value.indices| < U32_LIMIT
    ensures !Ready(v) ==> w == v
  {
    if Ready(v) then
      IndicesFitU32(v.contents, normalOf);
      EntityView(false, Some(MeshOf(v.contents, normalOf)), Some(ChunkOrigin(position)),
                 Destroyed, v.contents, v.ops + [ReadOp, UnmapOp, DestroyOp])
    else v
  }

  /** Polling again right after a poll changes nothing: a completed entity
      no longer holds a task, and a pending one is still pending. */
  lemma PollIdempotent(v: EntityView, position: IVec3, normalOf: (Vec3, Vec3, Vec3) -> Vec3)
    requires Readable(v)
    ensures Poll(Poll(v, position, normalOf), position, normalOf) == Poll(v, position, normalOf)
  {
  }

  /** An entity is meshed at most once: a poll never replaces a mesh
      attached by an earlier poll, and an entity holds a task or a mesh. */
  lemma PollMeshOnce(v: EntityView, position: IVec3, normalOf: (Vec3, Vec3, Vec3) -> Vec3)
    requires Readable(v) && (v.hasTask <==> v.mesh == None)
    ensures var w := Poll(v, position, normalOf); w.hasTask <==> w.mesh == None
    ensures v.mesh.Some? ==> Poll(v, position, normalOf).mesh == v.mesh
  {
  }

  /** update_terrain's work on one chunk entity. */
  method UpdateChunkEntity(e: ChunkEntity, normalOf: (Vec3, Vec3, Vec3) -> Vec3)
    requires Readable(ViewOf(e))
    modifies e, e.chunk.buffer
    ensures ViewOf(e) == Poll(old(ViewOf(e)), e.chunk.position, normalOf)
  {
    if e.hasTask && e.chunk.buffer.state == Mapped {
      var mesh := CreateMesh(e.chunk, normalOf);
      e.mesh := Some(mesh);
      e.transform := Some(ChunkOrigin(e.chunk.position));
      e.hasTask := false;
    }
  }

  /** Each chunk entity names its own buffer. */
  predicate Separate(entities: seq<ChunkEntity>)
    reads set i | 0 <= i < |entities| :: entities[i]
  {
    forall i, j :: 0 <= i < j < |entities| ==>
      entities[i] != entities[j] && entities[i].chunk.buffer != entities[j].chunk.buffer
  }

  /** update_terrain: poll every chunk entity's task once, without
      blocking; attach the mesh of every ready one and drop its task. An
      entity without a task is not polled and stays as it was. */
  method UpdateTerrain(entities: seq<ChunkEntity>, normalOf: (Vec3, Vec3, Vec3) -> Vec3)
    requires Separate(entities)
    requires forall i :: 0 <= i < |entities| ==> Readable(ViewOf(entities[i]))
    modifies set i | 0 <= i < |entities| :: entities[i]
    modifies set i | 0 <= i < |entities| :: entities[i].chunk.buffer
    ensures forall i :: 0 <= i < |entities| ==>
      ViewOf(entities[i]) == Poll(old(ViewOf(entities[i])), entities[i].chunk.position, normalOf)
  {
    for i := 0 to |entities|
      invariant forall j :: 0 <= j < i ==>
        ViewOf(entities[j]) == Poll(old(ViewOf(entities[j])), entities[j].chunk.position, normalOf)
      invariant forall j :: i <= j < |entities| ==> unchanged(entities[j], entities[j].chunk.buffer)
    {
      var e := entities[i];
      assert forall j :: 0 <= j < |entities| && j != i ==> entities[j] != e && entities[j].chunk.buffer != e.chunk.buffer;
      UpdateChunkEntity(e, normalOf);
    }
  }
}
