/**
 * The edge preview of the demo scene: one row of the marching-cubes
 * triangle table is walked up to its -1 sentinel, the collected edge
 * indices become the index list of a preview mesh over the cube's twelve
 * edge midpoints, and each midpoint gets a marker that is red when its
 * edge was collected and yellow otherwise.
 *
 * The triangle table itself is not part of this model: the row is a
 * parameter.
 */
module EdgePreview {

  type I32 = x: int | -0x8000_0000 <= x < 0x8000_0000

  type U32 = x: int | 0 <= x < 0x1_0000_0000

  /** The sentinel that ends a triangle-table row. */
  const NO_EDGE: I32 := -1

  /** Rust's `as u32` on an i32: the same 32 bits read as unsigned. */
  function AsU32(v: I32): (r: U32)
    ensures r % 0x1_0000_0000 == v % 0x1_0000_0000
    ensures 0 <= v ==> r == v
  {
    if v < 0 then v + 0x1_0000_0000 else v
  }

  function AsU32s(vs: seq<I32>): (rs: seq<U32>)
    ensures |rs| == |vs| && forall k :: 0 <= k < |vs| ==> rs[k] == AsU32(vs[k])
  {
    if vs == [] then [] else [AsU32(vs[0])] + AsU32s(vs[1..])
  }

  /** The entries of a row before its first sentinel, or the whole row when
      it has none: a prefix of the row, free of the sentinel, and followed
      by the sentinel unless it is the whole row. */
  function PrefixBeforeSentinel(row: seq<I32>): (p: seq<I32>)
    ensures |p| <= |row| && p == row[..|p|]
    ensures NO_EDGE !in p
    ensures |p| < |row| ==> row[|p|] == NO_EDGE
  {
    if row == [] || row[0] == NO_EDGE then []
    else [row[0]] + PrefixBeforeSentinel(row[1..])
  }

  /** Those three properties determine the prefix: any sentinel-free prefix
      of the row that stops at a sentinel or at the end is it. */
  lemma {:induction false} PrefixUnique(row: seq<I32>, p: seq<I32>)
    requires |p| <= |row| && p == row[..|p|]
    requires NO_EDGE !in p
    requires |p| < |row| ==> row[|p|] == NO_EDGE
    ensures p == PrefixBeforeSentinel(row)
  {
    if p != [] {
      assert row[0] == p[0] && p[0] in p;
      assert p[1..] == row[1..][..|p| - 1];
      assert forall x :: x in p[1..] ==> x in p;
      PrefixUnique(row[1..], p[1..]);
      assert p == [p[0]] + p[1..];
    }
  }

  /** The index loop of setup: collect the row's entries, as u32, until the
      first sentinel. */
  method CollectIndices(row: seq<I32>) returns (indices: seq<U32>)
    ensures indices == AsU32s(PrefixBeforeSentinel(row))
  {
    indices := [];
    var k := 0;
    while k < |row|
      invariant 0 <= k <= |row|
      invariant NO_EDGE !in row[..k]
      invariant indices == AsU32s(row[..k])
    {
      if row[k] == NO_EDGE {
        break;
      }
      assert row[..k + 1] == row[..k] + [row[k]];
      indices := indices + [AsU32(row[k])];
      k := k + 1;
    }
    PrefixUnique(row, row[..k]);
  }

  /** A row of the triangle table holds edge indices 0 to 11 and sentinels;
      for such a row the u32 conversion changes nothing, so the collected
      indices are exactly the row's entries before its first sentinel. */
  lemma TableRowIndices(row: seq<I32>, k: nat)
    requires forall j :: 0 <= j < |row| ==> row[j] == NO_EDGE || 0 <= row[j] < |EDGE_MIDPOINTS|
    requires k < |PrefixBeforeSentinel(row)|
    ensures AsU32s(PrefixBeforeSentinel(row))[k] == PrefixBeforeSentinel(row)[k] == row[k]
    ensures 0 <= row[k] < |EDGE_MIDPOINTS|
  {
    var p := PrefixBeforeSentinel(row);
    assert p[k] in p;
  }

  // ---------------------------------------------------------------------
  // The markers and the preview mesh
  // ---------------------------------------------------------------------

  datatype Color = Red | Yellow

  type Point = (int, int, int)

  /** The midpoints of the twelve edges of the preview cube of side 10,
      in edge-index order. */
  const EDGE_MIDPOINTS: seq<Point> := [
    (0, -5, 5), (5, 0, 5), (0, 5, 5), (-5, 0, 5),
    (0, -5, -5), (5, 0, -5), (0, 5, -5), (-5, 0, -5),
    (-5, -5, 0), (5, -5, 0), (5, 5, 0), (-5, 5, 0)
  ]

  /** A sphere marker at an edge midpoint. */
  datatype Marker = Marker(position: Point, color: Color)

  /** The marker loop of setup: midpoint i is red iff i was collected. */
  method EdgeMarkers(indices: seq<U32>) returns (markers: seq<Marker>)
    ensures |markers| == |EDGE_MIDPOINTS|
    ensures forall i :: 0 <= i < |markers| ==>
      markers[i].position == EDGE_MIDPOINTS[i] && (markers[i].color == Red <==> i in indices)
  {
    markers := [];
    for i := 0 to |EDGE_MIDPOINTS|
      invariant |markers| == i
      invariant forall j :: 0 <= j < i ==>
        markers[j].position == EDGE_MIDPOINTS[j] && (markers[j].color == Red <==> j in indices)
    {
      var color := if i in indices then Red else Yellow;
      markers := markers + [Marker(EDGE_MIDPOINTS[i], color)];
    }
  }

  /** The preview mesh: the midpoints as positions and as normals, one
      (0, 0) texture coordinate each, and the collected index list. */
  datatype PreviewMesh = PreviewMesh(positions: seq<Point>, normals: seq<Point>, uvs: seq<(real, real)>, indices: seq<U32>)

  /** setup: walk the given triangle-table row, colour the markers and
      build the preview mesh. */
  method Setup(row: seq<I32>) returns (markers: seq<Marker>, mesh: PreviewMesh)
    ensures mesh.indices == AsU32s(PrefixBeforeSentinel(row))
    ensures mesh.positions == EDGE_MIDPOINTS && mesh.normals == EDGE_MIDPOINTS
    ensures |mesh.uvs| == |EDGE_MIDPOINTS| && forall k :: 0 <= k < |mesh.uvs| ==> mesh.uvs[k] == (0.0, 0.0)
    ensures |markers| == |EDGE_MIDPOINTS|
    ensures forall i :: 0 <= i < |markers| ==>
      markers[i].position == EDGE_MIDPOINTS[i] && (markers[i].color == Red <==> i in mesh.indices)
  {
    var indices := CollectIndices(row);
    markers := EdgeMarkers(indices);
    var uvs := seq(|EDGE_MIDPOINTS|, _ => (0.0, 0.0));
    mesh := PreviewMesh(EDGE_MIDPOINTS, EDGE_MIDPOINTS, uvs, indices);
  }
}
