/**
 * The two-dimensional chunk streaming manager: a registry from chunk
 * coordinates to entities, the scan that builds the set of chunk
 * coordinates visible from the cameras, and the per-tick pass that evicts
 * chunks out of range and spawns the newly visible ones.
 *
 * Entities are opaque ids; spawning and despawning are recorded as the
 * events the pass issues, in the order it issues them.
 */
module ChunkStreaming {
  import opened Wrappers

  /** A chunk coordinate (x, z) on the horizontal grid. */
  type Coord = (int, int)

  /** An entity id handed out by the host engine. */
  datatype Entity = Entity(id: nat)

  /** A chunk entity the pass spawns: its id, its chunk coordinate and the
      world position (x, z) of its plane. */
  datatype Spawned = Spawned(entity: Entity, coords: Coord, origin: (int, int))

  // ---------------------------------------------------------------------
  // Arithmetic facts about squares
  // ---------------------------------------------------------------------

  lemma SquareMonotone(a: int, b: int)
    requires 0 <= a <= b
    ensures a * a <= b * b
  {
    assert a * a <= a * b;
  }

  /** A square no larger than d * d has a root within [-d, d]. */
  lemma SquareBound(x: int, d: nat)
    requires x * x <= d * d
    ensures -(d as int) <= x <= d
  {
    if x > d {
      SquareMonotone(d + 1, x);
    } else if x < -(d as int) {
      SquareMonotone(d + 1, -x);
    }
  }

  // ---------------------------------------------------------------------
  // The visible set
  // ---------------------------------------------------------------------

  /** The chunk p is visible from the camera chunk center at view distance
      d: its row offset is at most d and its squared offset at most d * d. */
  predicate InView(center: Coord, d: nat, p: Coord) {
    var dx, dz := p.0 - center.0, p.1 - center.1;
    -(d as int) <= dz <= d && dx * dx + dz * dz <= d * d
  }

  /** The disc of chunk coordinates one camera sees. */
  ghost function Disc(center: Coord, d: nat): (s: set<Coord>)
    ensures forall p :: p in s <==> InView(center, d, p)
  {
    var s := set dx: int, dz: int | -(d as int) <= dx <= d && -(d as int) <= dz <= d && dx * dx + dz * dz <= d * d
                                   :: (center.0 + dx, center.1 + dz);
    assert forall p :: InView(center, d, p) ==> p in s by {
      forall p | InView(center, d, p) ensures p in s {
        var dx, dz := p.0 - center.0, p.1 - center.1;
        SquareBound(dx, d);
        assert (center.0 + dx, center.1 + dz) == p;
      }
    }
    s
  }

  /** The coordinates visible from any of the cameras: the union of their
      discs, empty when there is no camera. */
  ghost function VisibleSet(cameras: seq<Coord>, d: nat): set<Coord>
  {
    if cameras == [] then {}
    else VisibleSet(cameras[..|cameras| - 1], d) + Disc(cameras[|cameras| - 1], d)
  }

  /** The row z of one camera's disc, scanned from x = 0 outward and
      mirrored, until x * x + z * z exceeds d * d. The loop ends for every
      row because x grows and x * x + z * z > d * d once x > d. */
  method ScanRow(visible: set<Coord>, center: Coord, d: nat, z: int) returns (r: set<Coord>)
    requires -(d as int) <= z <= d
    ensures forall p :: p in r <==> p in visible || (p.1 == center.1 + z && InView(center, d, p))
  {
    var (cx, cz) := center;
    var x := 0;
    r := visible + {(cx + x, cz + z)};
    while true
      invariant 0 <= x <= d + 1
      invariant x == 0 || (x - 1) * (x - 1) + z * z <= d * d
      invariant forall p :: p in r <==> p in visible || p == (cx, cz + z) || (p.1 == cz + z && -x < p.0 - cx < x)
      decreases d + 1 - x
    {
      if z * z + x * x > d * d {
        break;
      }
      SquareBound(x, d);
      r := r + {(cx + x, cz + z)};
      r := r + {(cx - x, cz + z)};
      x := x + 1;
    }
    forall p: Coord | p.1 == cz + z
      ensures (p == (cx, cz + z) || -x < p.0 - cx < x) <==> InView(center, d, p)
    {
      RowExtent(d, z, x, p.0 - cx);
    }
  }

  /** When the row scan stops at x, the offsets it inserted are exactly the
      ones in view. */
  lemma RowExtent(d: nat, z: int, x: nat, dx: int)
    requires -(d as int) <= z <= d
    requires x * x + z * z > d * d
    requires x == 0 || (x - 1) * (x - 1) + z * z <= d * d
    ensures (dx == 0 || -(x as int) < dx < x) <==> dx * dx + z * z <= d * d
  {
    var adx := if dx < 0 then -dx else dx;
    assert adx * adx == dx * dx;
    var az := if z < 0 then -z else z;
    assert az * az == z * z;
    SquareMonotone(az, d);
    if adx < x {
      SquareMonotone(adx, x - 1);
    } else {
      SquareMonotone(x, adx);
    }
  }

  /** The scan of src/terrain.rs over all cameras: for each camera, each row
      z in [-d, d], the mirrored outward scan of that row. */
  method VisibleChunkCoords(cameras: seq<Coord>, d: nat) returns (visible: set<Coord>)
    ensures visible == VisibleSet(cameras, d)
  {
    visible := {};
    for i := 0 to |cameras|
      invariant visible == VisibleSet(cameras[..i], d)
    {
      var center := cameras[i];
      ghost var before := visible;
      for z := -(d as int) to d + 1
        invariant forall p :: p in visible <==> p in before || (InView(center, d, p) && p.1 < center.1 + z)
      {
        visible := ScanRow(visible, center, d, z);
      }
      assert forall p :: p in visible <==> p in before + Disc(center, d);
      assert cameras[..i + 1][..i] == cameras[..i];
    }
    assert cameras[..|cameras|] == cameras;
  }

  // ---------------------------------------------------------------------
  // Properties of the visible set
  // ---------------------------------------------------------------------

  /** Every visible chunk is in view of some camera; the lemma names it. */
  lemma {:induction false} VisibleWitness(cameras: seq<Coord>, d: nat, p: Coord) returns (i: nat)
    requires p in VisibleSet(cameras, d)
    ensures i < |cameras| && InView(cameras[i], d, p)
  {
    var n := |cameras| - 1;
    if p in Disc(cameras[n], d) {
      i := n;
    } else {
      var init := cameras[..n];
      i := VisibleWitness(init, d, p);
      assert init[i] == cameras[i];
    }
  }

  /** A chunk in view of one of the cameras is visible. */
  lemma {:induction false} InViewVisible(cameras: seq<Coord>, d: nat, i: nat, p: Coord)
    requires i < |cameras| && InView(cameras[i], d, p)
    ensures p in VisibleSet(cameras, d)
  {
    var n := |cameras| - 1;
    if i < n {
      var init := cameras[..n];
      assert init[i] == cameras[i];
      InViewVisible(init, d, i, p);
    } else {
      assert p in Disc(cameras[n], d);
    }
  }

  /** A chunk is visible exactly when some camera has it in view. */
  lemma VisibleIffSomeCamera(cameras: seq<Coord>, d: nat, p: Coord)
    ensures p in VisibleSet(cameras, d) <==> exists i :: 0 <= i < |cameras| && InView(cameras[i], d, p)
  {
    if p in VisibleSet(cameras, d) {
      var i := VisibleWitness(cameras, d, p);
    }
    if exists i :: 0 <= i < |cameras| && InView(cameras[i], d, p) {
      var i :| 0 <= i < |cameras| && InView(cameras[i], d, p);
      InViewVisible(cameras, d, i, p);
    }
  }

  /** The offset (dx, dz) from a camera's chunk is in view iff |dz| <= d
      and dx * dx + dz * dz <= d * d; in particular |dx| <= d as well. */
  lemma OffsetInView(center: Coord, d: nat, dx: int, dz: int)
    ensures (center.0 + dx, center.1 + dz) in VisibleSet([center], d)
            <==> -(d as int) <= dz <= d && dx * dx + dz * dz <= d * d
    ensures (center.0 + dx, center.1 + dz) in VisibleSet([center], d) ==> -(d as int) <= dx <= d
  {
    assert [center][..0] == [];
    if dx * dx + dz * dz <= d * d {
      assert dx * dx <= d * d;
      SquareBound(dx, d);
    }
  }

  /** Every camera's own chunk is visible. */
  lemma CameraChunkVisible(cameras: seq<Coord>, d: nat, i: nat)
    requires i < |cameras|
    ensures cameras[i] in VisibleSet(cameras, d)
  {
    assert InView(cameras[i], d, cameras[i]);
    InViewVisible(cameras, d, i, cameras[i]);
  }

  /** View distance 0 sees the camera's chunk and nothing else. */
  lemma ZeroViewDistance(center: Coord)
    ensures VisibleSet([center], 0) == {center}
  {
    assert [center][..0] == [];
    forall p | InView(center, 0, p) ensures p == center {
      SquareBound(p.0 - center.0, 0);
    }
  }

  /** A single camera's visible set is symmetric about its chunk column and
      about its chunk row. */
  lemma DiscSymmetric(center: Coord, d: nat, p: Coord)
    ensures p in VisibleSet([center], d) <==> (2 * center.0 - p.0, p.1) in VisibleSet([center], d)
    ensures p in VisibleSet([center], d) <==> (p.0, 2 * center.1 - p.1) in VisibleSet([center], d)
  {
    assert [center][..0] == [];
    assert VisibleSet([center], d) == Disc(center, d);
    var dx, dz := p.0 - center.0, p.1 - center.1;
    assert (-dx) * (-dx) == dx * dx;
    assert (-dz) * (-dz) == dz * dz;
    assert InView(center, d, p) <==> InView(center, d, (2 * center.0 - p.0, p.1));
    assert InView(center, d, p) <==> InView(center, d, (p.0, 2 * center.1 - p.1));
  }

  /** Increasing the view distance never removes a visible chunk. */
  lemma {:induction false} VisibleMonotone(cameras: seq<Coord>, d1: nat, d2: nat)
    requires d1 <= d2
    ensures VisibleSet(cameras, d1) <= VisibleSet(cameras, d2)
  {
    if cameras != [] {
      VisibleMonotone(cameras[..|cameras| - 1], d1, d2);
      SquareMonotone(d1, d2);
    }
  }

  /** The visible set of several cameras is the union of what each group of
      cameras sees. */
  lemma {:induction false} VisibleUnion(first: seq<Coord>, rest: seq<Coord>, d: nat)
    ensures VisibleSet(first + rest, d) == VisibleSet(first, d) + VisibleSet(rest, d)
  {
    if rest == [] {
      assert first + rest == first;
    } else {
      var n := |rest| - 1;
      VisibleUnion(first, rest[..n], d);
      assert (first + rest)[..|first + rest| - 1] == first + rest[..n];
      assert (first + rest)[|first + rest| - 1] == rest[n];
    }
  }

  // ---------------------------------------------------------------------
  // The diff pass over the chunk entities that exist
  // ---------------------------------------------------------------------

  /** The coordinates of the chunk entities the query yields, in order. */
  function CoordsOf(existing: seq<(Entity, Coord)>): (s: set<Coord>)
    ensures forall p :: p in s <==> exists i :: 0 <= i < |existing| && existing[i].1 == p
  {
    set i | 0 <= i < |existing| :: existing[i].1
  }

  /** No two chunk entities share a coordinate. */
  predicate DistinctCoords(existing: seq<(Entity, Coord)>) {
    forall i, j :: 0 <= i < j < |existing| ==> existing[i].1 != existing[j].1
  }

  /** What the diff pass has done after some prefix of the chunk entities:
      the visible coordinates not yet claimed by a kept chunk (the spawn
      list), the entities despawned so far, the registry keys removed. */
  datatype Diff = Diff(remaining: set<Coord>, despawned: seq<Entity>, removed: set<Coord>)

  /** The diff pass of src/terrain.rs, entity by entity: a chunk whose
      coordinate is no longer in the (shrinking) visible set is despawned
      and its key removed; otherwise its coordinate leaves the spawn list. */
  function DiffPass(existing: seq<(Entity, Coord)>, visible: set<Coord>): Diff
  {
    if existing == [] then Diff(visible, [], {})
    else
      var diff := DiffPass(existing[..|existing| - 1], visible);
      var (e, p) := existing[|existing| - 1];
      if p !in diff.remaining then Diff(diff.remaining, diff.despawned + [e], diff.removed + {p})
      else Diff(diff.remaining - {p}, diff.despawned, diff.removed)
  }

  /** The entities whose coordinates are out of range, in query order. */
  function OutOfRange(existing: seq<(Entity, Coord)>, visible: set<Coord>): (r: seq<Entity>)
    ensures forall e :: e in r <==> exists i :: 0 <= i < |existing| && existing[i] == (e, existing[i].1) && existing[i].1 !in visible
  {
    if existing == [] then []
    else
      var n := |existing| - 1;
      var r := OutOfRange(existing[..n], visible) + (if existing[n].1 in visible then [] else [existing[n].0]);
      assert forall i :: 0 <= i < n ==> existing[..n][i] == existing[i];
      r
  }

  /** The entities the query yields, in order. */
  function EntitiesOf(existing: seq<(Entity, Coord)>): (r: seq<Entity>)
    ensures |r| == |existing| && forall i :: 0 <= i < |existing| ==> r[i] == existing[i].0
  {
    seq(|existing|, i requires 0 <= i < |existing| => existing[i].0)
  }

  /** With no camera nothing is visible: every chunk entity is despawned, in
      query order, every coordinate is removed and nothing is spawned. */
  lemma {:induction false} NoCameraEvictsAll(existing: seq<(Entity, Coord)>, d: nat)
    ensures VisibleSet([], d) == {}
    ensures DiffPass(existing, VisibleSet([], d)).remaining == {}
    ensures DiffPass(existing, VisibleSet([], d)).despawned == EntitiesOf(existing)
    ensures DiffPass(existing, VisibleSet([], d)).removed == CoordsOf(existing)
  {
    if existing != [] {
      var n := |existing| - 1;
      var prefix := existing[..n];
      NoCameraEvictsAll(prefix, d);
      assert forall i :: 0 <= i < n ==> prefix[i] == existing[i];
      assert EntitiesOf(existing) == EntitiesOf(prefix) + [existing[n].0];
      assert CoordsOf(existing) == CoordsOf(prefix) + {existing[n].1};
    }
  }

  /** Whatever the entities, the spawn list is the visible set minus every
      coordinate an entity already has. */
  lemma {:induction false} DiffSpawnList(existing: seq<(Entity, Coord)>, visible: set<Coord>)
    ensures DiffPass(existing, visible).remaining == visible - CoordsOf(existing)
  {
    if existing != [] {
      var n := |existing| - 1;
      DiffSpawnList(existing[..n], visible);
      assert CoordsOf(existing) == CoordsOf(existing[..n]) + {existing[n].1} by {
        assert forall i :: 0 <= i < n ==> existing[..n][i] == existing[i];
      }
    }
  }

  /** Every chunk entity whose coordinate is out of range is despawned and
      its coordinate removed from the registry. */
  lemma {:induction false} DiffEvictsOutOfRange(existing: seq<(Entity, Coord)>, visible: set<Coord>, i: nat)
    requires i < |existing| && existing[i].1 !in visible
    ensures existing[i].0 in DiffPass(existing, visible).despawned
    ensures existing[i].1 in DiffPass(existing, visible).removed
  {
    var n := |existing| - 1;
    if i < n {
      DiffEvictsOutOfRange(existing[..n], visible, i);
    } else {
      DiffSpawnList(existing[..n], visible);
    }
  }

  /** With one entity per coordinate, the pass despawns exactly the
      out-of-range entities, in query order, and removes exactly their
      coordinates; chunks still in range are kept. */
  lemma {:induction false} DiffDistinct(existing: seq<(Entity, Coord)>, visible: set<Coord>)
    requires DistinctCoords(existing)
    ensures DiffPass(existing, visible).despawned == OutOfRange(existing, visible)
    ensures DiffPass(existing, visible).removed == CoordsOf(existing) - visible
  {
    if existing != [] {
      var n := |existing| - 1;
      var prefix := existing[..n];
      assert DistinctCoords(prefix) by {
        assert forall i :: 0 <= i < n ==> prefix[i] == existing[i];
      }
      DiffDistinct(prefix, visible);
      DiffSpawnList(prefix, visible);
      assert existing[n].1 !in CoordsOf(prefix) by {
        assert forall i :: 0 <= i < n ==> prefix[i] == existing[i];
      }
      assert CoordsOf(existing) == CoordsOf(prefix) + {existing[n].1} by {
        assert forall i :: 0 <= i < n ==> prefix[i] == existing[i];
      }
    }
  }

  // ---------------------------------------------------------------------
  // Spawning
  // ---------------------------------------------------------------------

  /** The coordinates of the spawned chunks. */
  function SpawnedCoords(spawned: seq<Spawned>): (s: set<Coord>)
    ensures forall p :: p in s <==> exists k :: 0 <= k < |spawned| && spawned[k].coords == p
  {
    set k | 0 <= k < |spawned| :: spawned[k].coords
  }

  /** The world position (x, z) of the plane of the chunk at p. */
  function PlaneOrigin(p: Coord, chunkSize: nat): (int, int) {
    (p.0 * chunkSize, p.1 * chunkSize)
  }

  /** The k-th spawned chunk got the entity id firstId + k and its plane
      sits at its coordinate scaled by the chunk size. */
  predicate AllocatedInOrder(spawned: seq<Spawned>, firstId: nat, chunkSize: nat) {
    forall k :: 0 <= k < |spawned| ==>
      spawned[k].entity == Entity(firstId + k) && spawned[k].origin == PlaneOrigin(spawned[k].coords, chunkSize)
  }

  /** No coordinate is spawned twice. */
  predicate SpawnedOnce(spawned: seq<Spawned>) {
    forall j, k :: 0 <= j < k < |spawned| ==> spawned[j].coords != spawned[k].coords
  }

  /** The registry after registering each spawned chunk in turn. */
  function Register(chunks: map<Coord, Entity>, spawned: seq<Spawned>): map<Coord, Entity>
  {
    if spawned == [] then chunks
    else
      var last := spawned[|spawned| - 1];
      Register(chunks, spawned[..|spawned| - 1])[last.coords := last.entity]
  }

  lemma RegisterOneMore(chunks: map<Coord, Entity>, spawned: seq<Spawned>, s: Spawned)
    ensures Register(chunks, spawned + [s]) == Register(chunks, spawned)[s.coords := s.entity]
  {
    assert (spawned + [s])[..|spawned|] == spawned;
  }

  /** Progress of the spawn loop: the spawned and the pending coordinates
      partition the spawn list, none is spawned twice, the registry is the
      initial one with the spawned chunks registered, and the ids and plane
      positions were handed out in order. */
  predicate SpawnProgress(initial: map<Coord, Entity>, registry: map<Coord, Entity>, spawned: seq<Spawned>,
                          pending: set<Coord>, spawnList: set<Coord>, firstId: nat, chunkSize: nat)
  {
    && SpawnedCoords(spawned) !! pending
    && SpawnedCoords(spawned) + pending == spawnList
    && SpawnedOnce(spawned)
    && registry == Register(initial, spawned)
    && AllocatedInOrder(spawned, firstId, chunkSize)
  }

  /** Spawning and registering one more pending coordinate keeps the spawn
      loop's progress. */
  lemma SpawnStep(initial: map<Coord, Entity>, registry: map<Coord, Entity>, spawned: seq<Spawned>,
                  pending: set<Coord>, spawnList: set<Coord>, firstId: nat, chunkSize: nat, p: Coord)
    requires SpawnProgress(initial, registry, spawned, pending, spawnList, firstId, chunkSize) && p in pending
    ensures var s := Spawned(Entity(firstId + |spawned|), p, PlaneOrigin(p, chunkSize));
      SpawnProgress(initial, registry[p := s.entity], spawned + [s], pending - {p}, spawnList, firstId, chunkSize)
  {
    var s := Spawned(Entity(firstId + |spawned|), p, PlaneOrigin(p, chunkSize));
    var longer := spawned + [s];
    assert forall k :: 0 <= k < |spawned| ==> longer[k] == spawned[k];
    assert longer[|spawned|] == s;
    assert SpawnedCoords(longer) == SpawnedCoords(spawned) + {p};
    RegisterOneMore(initial, spawned, s);
  }

  /** Registering adds exactly the spawned keys and leaves every other key
      as it was. */
  lemma {:induction false} RegisterKeys(chunks: map<Coord, Entity>, spawned: seq<Spawned>)
    ensures Register(chunks, spawned).Keys == chunks.Keys + SpawnedCoords(spawned)
    ensures forall p :: p in chunks && p !in SpawnedCoords(spawned) ==> Register(chunks, spawned)[p] == chunks[p]
  {
    if spawned != [] {
      var n := |spawned| - 1;
      var prefix := spawned[..n];
      RegisterKeys(chunks, prefix);
      assert spawned == prefix + [spawned[n]];
      assert SpawnedCoords(spawned) == SpawnedCoords(prefix) + {spawned[n].coords} by {
        assert forall k :: 0 <= k < n ==> prefix[k] == spawned[k];
      }
    }
  }

  /** When no coordinate is spawned twice, each maps to its spawned entity. */
  lemma {:induction false} RegisterValues(chunks: map<Coord, Entity>, spawned: seq<Spawned>, k: nat)
    requires SpawnedOnce(spawned) && k < |spawned|
    ensures spawned[k].coords in Register(chunks, spawned)
    ensures Register(chunks, spawned)[spawned[k].coords] == spawned[k].entity
  {
    var n := |spawned| - 1;
    var prefix := spawned[..n];
    if k < n {
      assert SpawnedOnce(prefix) by {
        assert forall j :: 0 <= j < n ==> prefix[j] == spawned[j];
      }
      assert prefix[k] == spawned[k];
      RegisterValues(chunks, prefix, k);
    }
  }

  /** After a tick the registry holds no coordinate that an out-of-range
      chunk entity had; when it held exactly one key per chunk entity
      before, it holds exactly the visible set after. */
  lemma TickRegistry(chunks: map<Coord, Entity>, existing: seq<(Entity, Coord)>, visible: set<Coord>, spawned: seq<Spawned>)
    requires SpawnedCoords(spawned) == DiffPass(existing, visible).remaining
    ensures forall i :: 0 <= i < |existing| && existing[i].1 !in visible ==>
      existing[i].1 !in Register(chunks - DiffPass(existing, visible).removed, spawned)
    ensures chunks.Keys == CoordsOf(existing) && DistinctCoords(existing) ==>
      Register(chunks - DiffPass(existing, visible).removed, spawned).Keys == visible
  {
    var diff := DiffPass(existing, visible);
    RegisterKeys(chunks - diff.removed, spawned);
    DiffSpawnList(existing, visible);
    forall i | 0 <= i < |existing| && existing[i].1 !in visible
      ensures existing[i].1 in diff.removed
    {
      DiffEvictsOutOfRange(existing, visible, i);
    }
    if chunks.Keys == CoordsOf(existing) && DistinctCoords(existing) {
      DiffDistinct(existing, visible);
    }
  }

  // ---------------------------------------------------------------------
  // From one tick to the next
  // ---------------------------------------------------------------------

  /** The registry and the chunk entities agree: one entity per coordinate,
      the registry's keys are exactly their coordinates, and each key maps
      to the entity at that coordinate. */
  ghost predicate Agrees(chunks: map<Coord, Entity>, existing: seq<(Entity, Coord)>) {
    && DistinctCoords(existing)
    && chunks.Keys == CoordsOf(existing)
    && forall i :: 0 <= i < |existing| ==> existing[i].1 in chunks && chunks[existing[i].1] == existing[i].0
  }

  /** The chunk entities the diff pass keeps, in query order: those whose
      coordinate was still in the shrinking visible set when reached. */
  function Survivors(existing: seq<(Entity, Coord)>, visible: set<Coord>): seq<(Entity, Coord)>
  {
    if existing == [] then []
    else
      var n := |existing| - 1;
      var kept := Survivors(existing[..n], visible);
      if existing[n].1 in DiffPass(existing[..n], visible).remaining then kept + [existing[n]] else kept
  }

  /** The spawned chunks as the (entity, coordinate) pairs the next tick's
      query yields. */
  function SpawnedEntities(spawned: seq<Spawned>): (r: seq<(Entity, Coord)>)
    ensures |r| == |spawned| && forall k :: 0 <= k < |spawned| ==> r[k] == (spawned[k].entity, spawned[k].coords)
  {
    seq(|spawned|, k requires 0 <= k < |spawned| => (spawned[k].entity, spawned[k].coords))
  }

  /** The kept entities have distinct coordinates, namely the visible ones
      that left the spawn list, and each is one of the queried entities. */
  lemma {:induction false} SurvivorsShape(existing: seq<(Entity, Coord)>, visible: set<Coord>)
    ensures DistinctCoords(Survivors(existing, visible))
    ensures CoordsOf(Survivors(existing, visible)) == visible - DiffPass(existing, visible).remaining
    ensures forall k :: 0 <= k < |Survivors(existing, visible)| ==> Survivors(existing, visible)[k] in existing
  {
    if existing != [] {
      var n := |existing| - 1;
      var prefix := existing[..n];
      var kept := Survivors(prefix, visible);
      SurvivorsShape(prefix, visible);
      DiffSpawnList(prefix, visible);
      assert forall k :: 0 <= k < |kept| ==> kept[k] in existing by {
        forall k | 0 <= k < |kept| ensures kept[k] in existing {
          var i :| 0 <= i < n && prefix[i] == kept[k];
          assert existing[i] == prefix[i];
        }
      }
      if existing[n].1 in DiffPass(prefix, visible).remaining {
        CoordsAppend(kept, existing[n]);
      }
    }
  }

  lemma CoordsAppend(existing: seq<(Entity, Coord)>, x: (Entity, Coord))
    ensures CoordsOf(existing + [x]) == CoordsOf(existing) + {x.1}
  {
    var longer := existing + [x];
    assert longer[|existing|] == x;
    forall p | p in CoordsOf(existing) ensures p in CoordsOf(longer) {
      var i :| 0 <= i < |existing| && existing[i].1 == p;
      assert longer[i] == existing[i];
    }
  }

  /** Concatenating two entity lists with disjoint coordinates keeps the
      coordinates distinct. */
  lemma DistinctConcat(first: seq<(Entity, Coord)>, rest: seq<(Entity, Coord)>)
    requires DistinctCoords(first) && DistinctCoords(rest) && CoordsOf(first) !! CoordsOf(rest)
    ensures DistinctCoords(first + rest)
    ensures CoordsOf(first + rest) == CoordsOf(first) + CoordsOf(rest)
  {
    var whole := first + rest;
    forall i, j | 0 <= i < j < |whole| ensures whole[i].1 != whole[j].1 {
      if j < |first| {
        assert whole[i] == first[i] && whole[j] == first[j];
      } else if i < |first| {
        assert whole[i] == first[i] && whole[j] == rest[j - |first|];
        assert whole[i].1 in CoordsOf(first) && whole[j].1 in CoordsOf(rest);
      } else {
        assert whole[i] == rest[i - |first|] && whole[j] == rest[j - |first|];
      }
    }
    forall p | p in CoordsOf(first) + CoordsOf(rest) ensures p in CoordsOf(whole) {
      if p in CoordsOf(first) {
        var i :| 0 <= i < |first| && first[i].1 == p;
        assert whole[i] == first[i];
      } else {
        var i :| 0 <= i < |rest| && rest[i].1 == p;
        assert whole[|first| + i] == rest[i];
      }
    }
  }

  /** A tick that starts with the registry and the chunk entities in
      agreement ends with them in agreement again: the next tick's query
      yields the kept entities, in order, followed by the spawned ones, and
      the new registry maps exactly the visible coordinates to them. So the
      properties of TickRegistry hold on every tick after Terrain(), whose
      empty registry agrees with the empty set of entities. */
  lemma TickAgreement(chunks: map<Coord, Entity>, existing: seq<(Entity, Coord)>, visible: set<Coord>, spawned: seq<Spawned>)
    requires Agrees(chunks, existing)
    requires SpawnedCoords(spawned) == DiffPass(existing, visible).remaining && SpawnedOnce(spawned)
    ensures var next := Survivors(existing, visible) + SpawnedEntities(spawned);
      && Agrees(Register(chunks - DiffPass(existing, visible).removed, spawned), next)
      && CoordsOf(next) == visible
  {
    var diff := DiffPass(existing, visible);
    var registry := Register(chunks - diff.removed, spawned);
    var kept := Survivors(existing, visible);
    var added := SpawnedEntities(spawned);
    var next := kept + added;
    SurvivorsShape(existing, visible);
    DiffSpawnList(existing, visible);
    DiffDistinct(existing, visible);
    TickRegistry(chunks, existing, visible, spawned);
    RegisterKeys(chunks - diff.removed, spawned);
    assert CoordsOf(added) == SpawnedCoords(spawned) by {
      forall p | p in SpawnedCoords(spawned) ensures p in CoordsOf(added) {
        var k :| 0 <= k < |spawned| && spawned[k].coords == p;
        assert added[k].1 == p;
      }
    }
    assert DistinctCoords(added);
    DistinctConcat(kept, added);
    forall i | 0 <= i < |next| ensures next[i].1 in registry && registry[next[i].1] == next[i].0 {
      if i < |kept| {
        assert next[i] == kept[i] && kept[i] in existing;
        var j :| 0 <= j < |existing| && existing[j] == kept[i];
        assert kept[i].1 in CoordsOf(kept);
      } else {
        var k := i - |kept|;
        assert next[i] == added[k];
        RegisterValues(chunks - diff.removed, spawned, k);
      }
    }
  }

  /** The empty registry of a new terrain agrees with there being no chunk
      entity yet. */
  lemma InitialAgreement()
    ensures Agrees(map[], [])
  {
  }

  // ---------------------------------------------------------------------
  // The terrain resource
  // ---------------------------------------------------------------------

  class Terrain {
    /** View distance in chunks (a u32 cast to i32 by the scan). */
    const chunkViewDistance: nat
    /** Side of a chunk's plane in world units. */
    const chunkSize: nat
    /** The registry: chunk coordinate to chunk entity. */
    var chunks: map<Coord, Entity>

    constructor ()
      ensures chunkViewDistance == 5 && chunkSize == 64 && chunks == map[]
    {
      chunkViewDistance := 5;
      chunkSize := 64;
      chunks := map[];
    }

    function GetChunk(x: int, z: int): (r: Option<Entity>)
      reads this
      ensures r.Some? <==> (x, z) in chunks
      ensures r.Some? ==> r.value == chunks[(x, z)]
    {
      if (x, z) in chunks then Some(chunks[(x, z)]) else None
    }

    predicate HasChunk(x: int, z: int)
      reads this
      ensures HasChunk(x, z) <==> GetChunk(x, z).Some?
    {
      (x, z) in chunks
    }

    method SetChunk(x: int, z: int, chunk: Entity)
      modifies this
      ensures chunks == old(chunks)[(x, z) := chunk]
      ensures HasChunk(x, z) && GetChunk(x, z) == Some(chunk)
      ensures chunks - {(x, z)} == old(chunks) - {(x, z)}
    {
      chunks := chunks[(x, z) := chunk];
    }

    method RemoveChunk(x: int, z: int)
      modifies this
      ensures chunks == old(chunks) - {(x, z)}
      ensures !HasChunk(x, z)
      ensures chunks - {(x, z)} == old(chunks) - {(x, z)}
    {
      chunks := chunks - {(x, z)};
    }

    /** The diff pass (src/terrain.rs:107-114): despawn and unregister the
        chunk entities out of range, and drop the coordinates of the kept
        ones from the visible set, which becomes the spawn list. */
    method EvictOutOfRange(visible: set<Coord>, existing: seq<(Entity, Coord)>)
      returns (spawnList: set<Coord>, despawned: seq<Entity>)
      modifies this
      ensures spawnList == DiffPass(existing, visible).remaining
      ensures despawned == DiffPass(existing, visible).despawned
      ensures chunks == old(chunks) - DiffPass(existing, visible).removed
    {
      spawnList := visible;
      despawned := [];
      ghost var removed: set<Coord> := {};
      for i := 0 to |existing|
        invariant DiffPass(existing[..i], visible) == Diff(spawnList, despawned, removed)
        invariant chunks == old(chunks) - removed
      {
        var (entity, coords) := existing[i];
        assert existing[..i + 1][..i] == existing[..i];
        if coords !in spawnList {
          RemoveChunk(coords.0, coords.1);
          despawned := despawned + [entity];
          removed := removed + {coords};
        } else {
          spawnList := spawnList - {coords};
        }
      }
      assert existing[..|existing|] == existing;
    }

    /** The spawn loop (src/terrain.rs:116-137): each coordinate of the
        spawn list, in an unspecified order, gets one new entity with its
        plane at (x * chunkSize, z * chunkSize), registered by SetChunk. */
    method SpawnChunks(spawnList: set<Coord>, firstId: nat) returns (spawned: seq<Spawned>)
      modifies this
      ensures SpawnedCoords(spawned) == spawnList && SpawnedOnce(spawned)
      ensures chunks == Register(old(chunks), spawned)
      ensures AllocatedInOrder(spawned, firstId, chunkSize)
    {
      ghost var initial := chunks;
      var pending := spawnList;
      spawned := [];
      while pending != {}
        invariant SpawnProgress(initial, chunks, spawned, pending, spawnList, firstId, chunkSize)
        decreases |pending|
      {
        var p :| p in pending;
        var entity := Entity(firstId + |spawned|);
        SpawnStep(initial, chunks, spawned, pending, spawnList, firstId, chunkSize, p);
        spawned := spawned + [Spawned(entity, p, PlaneOrigin(p, chunkSize))];
        SetChunk(p.0, p.1, entity);
        pending := pending - {p};
      }
    }

    /** One tick of the streaming manager (update_chunks). `cameras` are the
        cameras' chunk coordinates, `existing` the chunk entities the query
        yields, and the host allocates the spawned entities the ids
        firstId, firstId + 1, ... Every despawn is issued before any spawn. */
    method UpdateChunks(cameras: seq<Coord>, existing: seq<(Entity, Coord)>, firstId: nat)
      returns (despawned: seq<Entity>, spawned: seq<Spawned>)
      modifies this
      ensures var diff := DiffPass(existing, VisibleSet(cameras, chunkViewDistance));
        && despawned == diff.despawned
        && SpawnedCoords(spawned) == diff.remaining
        && SpawnedOnce(spawned)
        && chunks == Register(old(chunks) - diff.removed, spawned)
      ensures AllocatedInOrder(spawned, firstId, chunkSize)
      ensures var visible := VisibleSet(cameras, chunkViewDistance);
        Agrees(old(chunks), existing) ==>
          Agrees(chunks, Survivors(existing, visible) + SpawnedEntities(spawned))
          && chunks.Keys == visible
    {
      var visible := VisibleChunkCoords(cameras, chunkViewDistance);
      var spawnList;
      spawnList, despawned := EvictOutOfRange(visible, existing);
      spawned := SpawnChunks(spawnList, firstId);
      if Agrees(old(chunks), existing) {
        TickAgreement(old(chunks), existing, visible, spawned);
        TickRegistry(old(chunks), existing, visible, spawned);
      }
    }
  }
}
