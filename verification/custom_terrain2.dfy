/** `CustomTerrain2`: the earlier terrain class, whose midpoint displacement
    is hard-coded to the 33 x 33 corner of its height map. */
module Terrain2 {
  import opened Lattice
  import opened RandomSource
  import opened Subdivision
  import opened MidpointDisplacement
  import opened Mesh

  datatype Algorithm = MidpointDisplacement | DiamondSquare

  /** The side of the square grid the algorithm works on (`hgrid`, `vgrid`). */
  const HGRID: int := 33
  /** `sgrid`: the smaller side minus one, the size of the coarsest lattice. */
  const SGRID: int := 32
  /** The value the seeded corners are displaced from. */
  const CORNER_BASE: real := 10.0
  /** The range of the first pass; later passes shrink it by 0.7. */
  const FIRST_RANGE: real := 50.0

  /** The four seeded corners. */
  const CORNERS: set<Cell> := {(0, 0), (SGRID, 0), (0, SGRID), (SGRID, SGRID)}

  lemma SgridIsPow2()
    ensures IsPow2(SGRID)
  {
    assert IsPow2(2) && IsPow2(4) && IsPow2(8) && IsPow2(16);
  }

  /** The offsets of the five passes. */
  lemma FivePasses()
    ensures Halvings(SGRID / 2) == [16, 8, 4, 2, 1]
  {
    assert Halvings(0) == [];
    assert Halvings(1) == [1];
    assert Halvings(2) == [2, 1];
    assert Halvings(4) == [4, 2, 1];
    assert Halvings(8) == [8, 4, 2, 1];
  }

  /** Every write of the record so far came from the corner seeding, with a
      draw from [0, 2], or from a pass no finer than stride, with a draw from
      [0, r], r = PassRange(32, offset, 50.0). */
  ghost predicate Scheduled2(writes: map<Cell, Write>, stride: int) {
    && (forall c | c in CORNERS :: c in writes && writes[c].offset == SGRID)
    && (forall c | c in writes ::
          && writes[c].offset >= stride > 0 && writes[c].lo == 0.0
          && if writes[c].offset == SGRID then writes[c].hi == 2.0 && c in CORNERS
             else writes[c].hi == PassRange(SGRID, writes[c].offset, FIRST_RANGE))
  }

  /** min and max bound every value written by a pass. */
  ghost predicate Extremes(writes: map<Cell, Write>, min: real, max: real) {
    forall c | c in writes && writes[c].offset != SGRID :: min <= writes[c].value <= max
  }

  /** The seeding writes exactly the four corners, with draws from [0, 2]. */
  lemma SeededCorners(writes: map<Cell, Write>)
    requires forall c :: c in writes <==> InGrid(SGRID, SGRID, c) && OnLattice(c.0, c.1, SGRID)
    requires forall c | c in writes :: writes[c].offset == SGRID && writes[c].lo == 0.0 && writes[c].hi == 2.0
    ensures writes.Keys == CORNERS
    ensures Scheduled2(writes, SGRID)
  {
    SgridIsPow2();
    forall c
      ensures c in writes <==> c in CORNERS
    {
      SquareCorners(SGRID, c);
    }
  }

  /** A pass adds writes of offset o < 32 with the pass's range, and keeps
      the earlier ones: the schedule and the extremes carry over. */
  lemma PassKeeps(writes0: map<Cell, Write>, writes: map<Cell, Write>, stride: int, o: int, range: real,
                  min0: real, max0: real, min: real, max: real)
    requires Scheduled2(writes0, stride) && Extremes(writes0, min0, max0)
    requires 0 < o && 2 * o == stride && range == PassRange(SGRID, o, FIRST_RANGE)
    requires forall c | c in writes0 :: c in writes && writes[c] == writes0[c]
    requires forall c | c in writes && c !in writes0 :: writes[c].offset == o && writes[c].lo == 0.0 && writes[c].hi == range
    requires min <= min0 && max0 <= max && Bounded(writes, writes0, min, max)
    ensures Scheduled2(writes, o) && Extremes(writes, min, max)
  {
  }

  /** One iteration of the loop over passes: the pass with the current
      offset, then the range shrinks by 0.7 and the offset halves. */
  method DisplacementPass(terrainMap: array2<real>, offset: int, range: real, rand: Random, ghost d0: nat,
                          ghost writes0: map<Cell, Write>, ghost stride: int, ghost min0: real, ghost max0: real)
    returns (ghost writes: map<Cell, Write>, offset': int, range': real, ghost min: real, ghost max: real)
    requires SGRID < terrainMap.Length0 && SGRID < terrainMap.Length1
    requires IsPow2(stride) && stride <= SGRID && offset == stride / 2 && offset > 0
    requires range == PassRange(SGRID, offset, FIRST_RANGE)
    requires forall c :: c in writes0 <==> InGrid(SGRID, SGRID, c) && OnLattice(c.0, c.1, stride)
    requires Scheduled2(writes0, stride) && Extremes(writes0, min0, max0)
    requires Consistent(terrainMap, writes0, SGRID, CORNER_BASE, rand, d0)
    modifies terrainMap, rand
    ensures forall i, j | 0 <= i < terrainMap.Length0 && 0 <= j < terrainMap.Length1 && !InGrid(SGRID, SGRID, (i, j)) :: terrainMap[i, j] == old(terrainMap[i, j])
    ensures IsPow2(stride / 2) && offset' == offset / 2 && offset' == (stride / 2) / 2
    ensures offset' > 0 ==> range' == PassRange(SGRID, offset', FIRST_RANGE)
    ensures forall c :: c in writes <==> InGrid(SGRID, SGRID, c) && OnLattice(c.0, c.1, stride / 2)
    ensures Scheduled2(writes, stride / 2) && Extremes(writes, min, max) && min <= min0 && max0 <= max
    ensures Consistent(terrainMap, writes, SGRID, CORNER_BASE, rand, d0)
    ensures rand.drawn - old(rand.drawn) == |writes| - |writes0|
  {
    SgridIsPow2();
    HalveStride(SGRID, SGRID, SGRID, stride);
    writes, min, max := SweepPass(terrainMap, SGRID, SGRID, SGRID, offset, 0.0, range, CORNER_BASE, rand, d0, writes0, min0, max0);
    PassKeeps(writes0, writes, stride, offset, range, min0, max0, min, max);
    if 2 <= offset {
      NextRange(SGRID, offset, FIRST_RANGE);
    }
    range' := range * RANGE_MODIFIER;
    offset' := offset / 2;
  }

  /** `MidpointDisplacementAlgorithm2` on the 33 x 33 corner of map: the four
      corners get 10 plus a draw from [0, 2]; the passes with offsets 16, 8,
      4, 2, 1 give every other cell the mean of its neighbours plus a draw
      from [0, r], r starting at 50 and shrinking by 0.7 per pass. The
      running min and max, which the source computes but never reads, are
      ghost here. */
  method MidpointDisplacementAlgorithm2(terrainMap: array2<real>, rand: Random)
    returns (ghost writes: map<Cell, Write>, ghost passes: seq<int>, ghost min: real, ghost max: real)
    requires SGRID < terrainMap.Length0 && SGRID < terrainMap.Length1
    modifies terrainMap, rand
    ensures forall i, j | 0 <= i < terrainMap.Length0 && 0 <= j < terrainMap.Length1 && !InGrid(SGRID, SGRID, (i, j)) :: terrainMap[i, j] == old(terrainMap[i, j])
    ensures forall c :: c in writes <==> InGrid(SGRID, SGRID, c)
    ensures Consistent(terrainMap, writes, SGRID, CORNER_BASE, rand, old(rand.drawn))
    ensures rand.drawn - old(rand.drawn) == |writes|
    ensures Scheduled2(writes, 1)
    ensures passes == [16, 8, 4, 2, 1]
    ensures Extremes(writes, min, max) && min <= 10000.0 && 0.0 <= max
  {
    var hgrid := HGRID;
    var vgrid := hgrid;
    var sgrid := (if hgrid < vgrid then hgrid else vgrid) - 1;
    var offset := sgrid / 2;
    SgridIsPow2();
    writes := SeedCorners(terrainMap, sgrid, sgrid, sgrid, 0.0, 2.0, CORNER_BASE, rand);
    SeededCorners(writes);
    var range := FIRST_RANGE;
    min, max := 10000.0, 0.0;
    ghost var d0 := old(rand.drawn);
    ghost var stride := sgrid;
    passes := [];
    FivePasses();
    while offset > 0
      invariant IsPow2(stride) && stride <= SGRID && offset == stride / 2
      invariant offset > 0 ==> range == PassRange(SGRID, offset, FIRST_RANGE)
      invariant forall i, j | 0 <= i < terrainMap.Length0 && 0 <= j < terrainMap.Length1 && !InGrid(SGRID, SGRID, (i, j)) :: terrainMap[i, j] == old(terrainMap[i, j])
      invariant forall c :: c in writes <==> InGrid(SGRID, SGRID, c) && OnLattice(c.0, c.1, stride)
      invariant Scheduled2(writes, stride) && Extremes(writes, min, max) && min <= 10000.0 && 0.0 <= max
      invariant Consistent(terrainMap, writes, SGRID, CORNER_BASE, rand, d0)
      invariant rand.drawn - d0 == |writes|
      invariant passes + Halvings(offset) == Halvings(SGRID / 2)
      decreases offset
    {
      ScheduleStep(passes, offset, SGRID / 2);
      passes := passes + [offset];
      writes, offset, range, min, max := DisplacementPass(terrainMap, offset, range, rand, d0, writes, stride, min, max);
      stride := stride / 2;
    }
    forall c | InGrid(SGRID, SGRID, c) {
      OnUnitLattice(c);
    }
  }

  /** The copy-back loop of `update`: the vertex of each cell (x, z) takes
      heights[x, z] as its height; nothing else of any vertex changes. */
  method CopyHeights(vs: seq<Vertex>, heights: array2<real>, dx: int, dz: int) returns (vs': seq<Vertex>)
    requires 0 <= dx && 0 <= dz && heights.Length0 == dx + 1 && heights.Length1 == dz + 1
    requires |vs| == (dx + 1) * (dz + 1)
    ensures |vs'| == |vs|
    ensures forall x, z | 0 <= x <= dx && 0 <= z <= dz ::
              vs'[VertexIndex(x, z, dx, dz)] == vs[VertexIndex(x, z, dx, dz)].(height := heights[x, z])
  {
    vs' := vs;
    for x := 0 to dx + 1
      invariant |vs'| == |vs|
      invariant forall x', z | 0 <= x' < x && 0 <= z <= dz ::
                  vs'[VertexIndex(x', z, dx, dz)] == vs[VertexIndex(x', z, dx, dz)].(height := heights[x', z])
      invariant forall x', z | x <= x' <= dx && 0 <= z <= dz :: vs'[VertexIndex(x', z, dx, dz)] == vs[VertexIndex(x', z, dx, dz)]
    {
      for z := 0 to dz + 1
        invariant |vs'| == |vs|
        invariant forall x', z' | 0 <= x' < x && 0 <= z' <= dz ::
                    vs'[VertexIndex(x', z', dx, dz)] == vs[VertexIndex(x', z', dx, dz)].(height := heights[x', z'])
        invariant forall z' | 0 <= z' < z :: vs'[VertexIndex(x, z', dx, dz)] == vs[VertexIndex(x, z', dx, dz)].(height := heights[x, z'])
        invariant forall x', z' | 0 <= x' <= dx && 0 <= z' <= dz && (x' > x || (x' == x && z' >= z)) ::
                    vs'[VertexIndex(x', z', dx, dz)] == vs[VertexIndex(x', z', dx, dz)]
      {
        var i := VertexIndex(x, z, dx, dz);
        vs' := vs'[i := vs'[i].(height := heights[x, z])];
      }
    }
  }

  /** The copy-back loop run on the flat plane gives the vertex array of
      the map. */
  lemma RaisedPlane(vs: seq<Vertex>, vs': seq<Vertex>, heights: array2<real>, dx: int, dz: int)
    requires 0 <= dx && 0 <= dz && heights.Length0 == dx + 1 && heights.Length1 == dz + 1
    requires vs == FlatPlane(dx, dz) && |vs'| == |vs|
    requires forall x, z | 0 <= x <= dx && 0 <= z <= dz ::
               vs'[VertexIndex(x, z, dx, dz)] == vs[VertexIndex(x, z, dx, dz)].(height := heights[x, z])
    ensures Meshes(vs', heights, dx, dz)
  {
  }

  /** The corner midpoint displacement writes: every cell of the 33 x 33
      corner written once, consistently with the subdivision, one draw
      each, on the schedule of Scheduled2. */
  ghost predicate Subdivided(terrainMap: array2<real>, writes: map<Cell, Write>, rand: Random, d0: nat)
    reads terrainMap, rand
  {
    && (forall c :: c in writes <==> InGrid(SGRID, SGRID, c))
    && Consistent(terrainMap, writes, SGRID, CORNER_BASE, rand, d0)
    && rand.drawn - d0 == |writes|
    && Scheduled2(writes, 1)
  }

  /** What midpoint displacement leaves in the map: the corner Subdivided
      says; every other cell as before. */
  twostate predicate Displaced(terrainMap: array2<real>, new writes: map<Cell, Write>, rand: Random, d0: nat)
    reads terrainMap, rand
  {
    && (forall i, j | 0 <= i < terrainMap.Length0 && 0 <= j < terrainMap.Length1 && !InGrid(SGRID, SGRID, (i, j)) ::
          terrainMap[i, j] == old(terrainMap[i, j]))
    && Subdivided(terrainMap, writes, rand, d0)
  }

  /** vs is the vertex array of the (dx+1) x (dz+1) grid heights: the vertex
      of cell (x, z) stands on (x, z) at height heights[x, z], normal up. */
  ghost predicate Meshes(vs: seq<Vertex>, heights: array2<real>, dx: int, dz: int)
    requires 0 <= dx && 0 <= dz && heights.Length0 == dx + 1 && heights.Length1 == dz + 1
    reads heights
  {
    && |vs| == (dx + 1) * (dz + 1)
    && forall x, z | 0 <= x <= dx && 0 <= z <= dz :: vs[VertexIndex(x, z, dx, dz)] == Vertex(x, z, heights[x, z], UP)
  }

  /** The terrain mesh of `CustomTerrain2`: a (dx+1) x (dz+1) height map and
      the vertex array built from it. The map starts at 0 and only the
      midpoint displacement algorithm changes it (diamond square is
      switched off in this class). */
  class CustomTerrain2 {
    const rand: Random
    const dx: int
    const dz: int
    /** `map`, indexed [x][z]. */
    const terrainMap: array2<real>
    var algorithmType: Algorithm
    /** The vertices last handed to the mesh by `update`. */
    var vertices: seq<Vertex>
    /** The triangle indices last handed to the mesh by `update`. */
    var indices: seq<int>
    /** The write record of the midpoint displacement the constructor's
        `update` ran. */
    ghost var writes: map<Cell, Write>

    ghost predicate Valid()
      reads this
    {
      0 <= dx && 0 <= dz && terrainMap.Length0 == dx + 1 && terrainMap.Length1 == dz + 1
    }

    /** The algorithm can run on the map: midpoint displacement writes the
        33 x 33 corner of the map. */
    ghost predicate Runnable()
      reads this
    {
      algorithmType == MidpointDisplacement ==> SGRID < dx + 1 && SGRID < dz + 1
    }

    /** Allocate a zero map of (dx+1) x (dz+1) heights, then `update`. */
    constructor(dx: int, dz: int, algorithmType: Algorithm, rand: Random)
      requires 0 <= dx && 0 <= dz
      requires algorithmType == MidpointDisplacement ==> SGRID < dx + 1 && SGRID < dz + 1
      modifies rand
      ensures Valid() && Runnable()
      ensures this.dx == dx && this.dz == dz && this.algorithmType == algorithmType && this.rand == rand
      ensures fresh(terrainMap) && Meshes(vertices, terrainMap, dx, dz) && indices == PlaneQuads(dx, dx, dz)
      ensures algorithmType == DiamondSquare ==>
                rand.drawn == old(rand.drawn) && forall i, j | 0 <= i <= dx && 0 <= j <= dz :: terrainMap[i, j] == 0.0
      ensures algorithmType == MidpointDisplacement ==>
                && rand.drawn == old(rand.drawn) + HGRID * HGRID
                && Subdivided(terrainMap, writes, rand, old(rand.drawn))
                && forall i, j | 0 <= i <= dx && 0 <= j <= dz && !InGrid(SGRID, SGRID, (i, j)) :: terrainMap[i, j] == 0.0
    {
      this.algorithmType := algorithmType;
      this.dx := dx;
      this.dz := dz;
      this.rand := rand;
      terrainMap := new real[dx + 1, dz + 1]((_, _) => 0.0);
      new;
      ghost var w := Update();
      if algorithmType == MidpointDisplacement {
        WriteCount(w, SGRID, SGRID);
      }
      writes := w;
    }

    /** The `switch` of `update`: midpoint displacement fills the 33 x 33
        corner of the map; diamond square is switched off and changes
        nothing. */
    method RunAlgorithm() returns (ghost writes: map<Cell, Write>)
      requires Valid() && Runnable()
      modifies terrainMap, rand
      ensures algorithmType == DiamondSquare ==> unchanged(terrainMap) && rand.drawn == old(rand.drawn)
      ensures algorithmType == MidpointDisplacement ==> Displaced(terrainMap, writes, rand, old(rand.drawn))
    {
      match algorithmType {
        case MidpointDisplacement =>
          ghost var passes, min, max;
          writes, passes, min, max := MidpointDisplacementAlgorithm2(terrainMap, rand);
        case DiamondSquare =>
          writes := map[];
      }
    }

    /** The index loops of `update`: the two triangles of each quad of the
        grid, pushed onto an empty index array. */
    method BuildIndices()
      requires Valid() && Runnable()
      modifies this
      ensures Valid() && Runnable() && algorithmType == old(algorithmType) && vertices == old(vertices)
      ensures indices == PlaneQuads(dx, dx, dz)
    {
      var quads := AppendQuads([], dx, dz);
      assert quads == PlaneQuads(dx, dx, dz);
      indices := quads;
    }

    /** `update`: lay out the flat grid of vertices and the two triangles of
        each quad, run the algorithm on the map, then copy every height of
        the map into its vertex. */
    method Update() returns (ghost writes: map<Cell, Write>)
      requires Valid() && Runnable()
      modifies this, terrainMap, rand
      ensures Valid() && Runnable() && algorithmType == old(algorithmType)
      ensures Meshes(vertices, terrainMap, dx, dz) && indices == PlaneQuads(dx, dx, dz)
      ensures algorithmType == DiamondSquare ==> unchanged(terrainMap) && rand.drawn == old(rand.drawn)
      ensures algorithmType == MidpointDisplacement ==> Displaced(terrainMap, writes, rand, old(rand.drawn))
    {
      var vs := FlatPlane(dx, dz);
      writes := RunAlgorithm();
      vertices := CopyHeights(vs, terrainMap, dx, dz);
      RaisedPlane(vs, vertices, terrainMap, dx, dz);
      BuildIndices();
    }
  }
}
