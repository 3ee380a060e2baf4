/** `CustomTerrain`: a (dx+1) x (dz+1) height map filled by one of five
    algorithms, chosen through a dispatch map, then turned into a mesh whose
    vertices carry the scaled heights and a normal estimated from the
    neighbouring heights. */
module Terrain {
  import opened Lattice
  import opened RandomSource
  import opened Subdivision
  import opened MidpointDisplacement
  import opened DiamondSquare
  import opened PerlinNoise
  import opened NoiseFill
  import opened Mesh

  datatype Algorithm = MidpointDisplacement | DiamondSquare | PerlinNoise | FractionalBrownianMotion | MultiFractal

  /** The member functions the dispatch map points at. */
  datatype Handler = RunMidpointDisplacement | RunDiamondSquare | RunPerlinNoise | RunFractionalBrownianMotion | RunMultiFractal
  {
    /** The algorithm the member function implements. */
    function Target(): Algorithm {
      match this
      case RunMidpointDisplacement => MidpointDisplacement
      case RunDiamondSquare => DiamondSquare
      case RunPerlinNoise => PerlinNoise
      case RunFractionalBrownianMotion => FractionalBrownianMotion
      case RunMultiFractal => MultiFractal
    }
  }

  /** Every algorithm has an entry, and it calls that algorithm's function. */
  ghost predicate Dispatches(m: map<Algorithm, Handler>) {
    forall a: Algorithm :: a in m && m[a].Target() == a
  }

  /** What each algorithm demands of the dimensions: midpoint displacement
      a power-of-two lattice that divides both sides, diamond square
      power-of-two sides, and the Perlin fill, whose row loop is bounded by
      dx as well, no fewer rows than columns. */
  predicate Supports(algorithm: Algorithm, dx: int, dz: int) {
    match algorithm
    case MidpointDisplacement =>
      IsPow2(GridSize(dx, dz)) && dx % GridSize(dx, dz) == 0 && dz % GridSize(dx, dz) == 0
    case DiamondSquare => Dims(dx, dz)
    case PerlinNoise => dx <= dz
    case _ => true
  }

  /** The start values of the running minimum and maximum height. */
  const MIN_START: real := 999999.0
  const MAX_START: real := -999999.0

  /** The height scale the class starts with. */
  const HEIGHT_SCALE: real := 50.0

  /** The height `generate` gives the vertex of cell (x, z). */
  function ScaledHeight(heightMap: array2<real>, x: int, z: int, heightScale: real): real
    requires 0 <= x < heightMap.Length0 && 0 <= z < heightMap.Length1
    reads heightMap
  {
    heightMap[x, z] * heightScale
  }

  /** Cell (u, v) comes before (x, z) in a loop over x, then z. */
  predicate Before(u: int, v: int, x: int, z: int) {
    u < x || (u == x && v < z)
  }

  /** range bounds the scaled height of every cell, and each end is either
      its start value or the scaled height of some cell. */
  ghost predicate Spans(range: (real, real), heightMap: array2<real>, dx: int, dz: int, heightScale: real)
    requires heightMap.Length0 == dx + 1 && heightMap.Length1 == dz + 1
    reads heightMap
  {
    && (forall x, z | 0 <= x <= dx && 0 <= z <= dz :: range.0 <= ScaledHeight(heightMap, x, z, heightScale) <= range.1)
    && (range.0 == MIN_START || exists x, z | 0 <= x <= dx && 0 <= z <= dz :: range.0 == ScaledHeight(heightMap, x, z, heightScale))
    && (range.1 == MAX_START || exists x, z | 0 <= x <= dx && 0 <= z <= dz :: range.1 == ScaledHeight(heightMap, x, z, heightScale))
  }

  /** The vertices vs' are vs with the cells before (x, z) in the loop
      order given their scaled height, and nothing else changed. */
  ghost predicate ScaledBefore(vs': seq<Vertex>, vs: seq<Vertex>, heightMap: array2<real>, dx: int, dz: int, heightScale: real,
                               x: int, z: int)
    requires 0 <= dx && 0 <= dz && heightMap.Length0 == dx + 1 && heightMap.Length1 == dz + 1
    requires (dx + 1) * (dz + 1) <= |vs|
    reads heightMap
  {
    && |vs'| == |vs|
    && (forall i | (dx + 1) * (dz + 1) <= i < |vs| :: vs'[i] == vs[i])
    && (forall u, v | 0 <= u <= dx && 0 <= v <= dz && Before(u, v, x, z) ::
          vs'[VertexIndex(u, v, dx, dz)] == vs[VertexIndex(u, v, dx, dz)].(height := ScaledHeight(heightMap, u, v, heightScale)))
    && (forall u, v | 0 <= u <= dx && 0 <= v <= dz && !Before(u, v, x, z) ::
          vs'[VertexIndex(u, v, dx, dz)] == vs[VertexIndex(u, v, dx, dz)])
  }

  /** min and max bound the scaled heights of the cells before (x, z), and
      each is its start value or the scaled height of the cell recorded
      for it, which comes before (x, z). */
  ghost predicate Tracks(min: real, max: real, minAt: Cell, maxAt: Cell, heightMap: array2<real>, dx: int, dz: int,
                         heightScale: real, x: int, z: int)
    requires heightMap.Length0 == dx + 1 && heightMap.Length1 == dz + 1
    reads heightMap
  {
    && (forall u, v | 0 <= u <= dx && 0 <= v <= dz && Before(u, v, x, z) :: min <= ScaledHeight(heightMap, u, v, heightScale) <= max)
    && (min == MIN_START ||
        (0 <= minAt.0 <= dx && 0 <= minAt.1 <= dz && Before(minAt.0, minAt.1, x, z) && min == ScaledHeight(heightMap, minAt.0, minAt.1, heightScale)))
    && (max == MAX_START ||
        (0 <= maxAt.0 <= dx && 0 <= maxAt.1 <= dz && Before(maxAt.0, maxAt.1, x, z) && max == ScaledHeight(heightMap, maxAt.0, maxAt.1, heightScale)))
  }

  /** The end of column x in the loop order is the start of column x + 1. */
  lemma ColumnEnd(vs': seq<Vertex>, vs: seq<Vertex>, min: real, max: real, minAt: Cell, maxAt: Cell,
                  heightMap: array2<real>, dx: int, dz: int, heightScale: real, x: int)
    requires 0 <= dx && 0 <= dz && heightMap.Length0 == dx + 1 && heightMap.Length1 == dz + 1
    requires (dx + 1) * (dz + 1) <= |vs|
    requires ScaledBefore(vs', vs, heightMap, dx, dz, heightScale, x, dz + 1)
    requires Tracks(min, max, minAt, maxAt, heightMap, dx, dz, heightScale, x, dz + 1)
    ensures ScaledBefore(vs', vs, heightMap, dx, dz, heightScale, x + 1, 0)
    ensures Tracks(min, max, minAt, maxAt, heightMap, dx, dz, heightScale, x + 1, 0)
  {
  }

  /** One step of the inner loop keeps the loop's invariants: the vertex of
      (x, z) is scaled and the running minimum and maximum take its height
      into account. */
  lemma ScaleStep(vs0: seq<Vertex>, vs': seq<Vertex>, vs: seq<Vertex>, min0: real, max0: real, minAt0: Cell, maxAt0: Cell,
                  min: real, max: real, minAt: Cell, maxAt: Cell,
                  heightMap: array2<real>, dx: int, dz: int, heightScale: real, x: int, z: int)
    requires 0 <= dx && 0 <= dz && heightMap.Length0 == dx + 1 && heightMap.Length1 == dz + 1
    requires (dx + 1) * (dz + 1) <= |vs| && 0 <= x <= dx && 0 <= z <= dz
    requires ScaledBefore(vs0, vs, heightMap, dx, dz, heightScale, x, z)
    requires Tracks(min0, max0, minAt0, maxAt0, heightMap, dx, dz, heightScale, x, z)
    requires vs' == vs0[VertexIndex(x, z, dx, dz) := vs0[VertexIndex(x, z, dx, dz)].(height := ScaledHeight(heightMap, x, z, heightScale))]
    requires var y := ScaledHeight(heightMap, x, z, heightScale);
      && (min, minAt) == (if y < min0 then (y, (x, z)) else (min0, minAt0))
      && (max, maxAt) == (if y > max0 then (y, (x, z)) else (max0, maxAt0))
    ensures ScaledBefore(vs', vs, heightMap, dx, dz, heightScale, x, z + 1)
    ensures Tracks(min, max, minAt, maxAt, heightMap, dx, dz, heightScale, x, z + 1)
  {
    forall u, v | 0 <= u <= dx && 0 <= v <= dz
      ensures VertexIndex(u, v, dx, dz) == VertexIndex(x, z, dx, dz) <==> u == x && v == z
    {
    }
  }

  /** Every cell comes before (dx + 1, 0): once the loop is past the last
      column, every vertex is scaled and the range spans every height. */
  lemma AllScaled(vs': seq<Vertex>, vs: seq<Vertex>, min: real, max: real, minAt: Cell, maxAt: Cell,
                  heightMap: array2<real>, dx: int, dz: int, heightScale: real)
    requires 0 <= dx && 0 <= dz && heightMap.Length0 == dx + 1 && heightMap.Length1 == dz + 1
    requires (dx + 1) * (dz + 1) <= |vs|
    requires ScaledBefore(vs', vs, heightMap, dx, dz, heightScale, dx + 1, 0)
    requires Tracks(min, max, minAt, maxAt, heightMap, dx, dz, heightScale, dx + 1, 0)
    ensures |vs'| == |vs|
    ensures forall i | (dx + 1) * (dz + 1) <= i < |vs| :: vs'[i] == vs[i]
    ensures forall x, z | 0 <= x <= dx && 0 <= z <= dz ::
              vs'[VertexIndex(x, z, dx, dz)] == vs[VertexIndex(x, z, dx, dz)].(height := ScaledHeight(heightMap, x, z, heightScale))
    ensures Spans((min, max), heightMap, dx, dz, heightScale)
  {
  }

  /** The inner loop of the first loop of `generate`, over the cells of
      column x. */
  method ScaleColumn(vs0: seq<Vertex>, vs: seq<Vertex>, heightMap: array2<real>, dx: int, dz: int, heightScale: real, x: int,
                     min0: real, max0: real, ghost minAt0: Cell, ghost maxAt0: Cell)
    returns (vs': seq<Vertex>, min: real, max: real, ghost minAt: Cell, ghost maxAt: Cell)
    requires 0 <= dx && 0 <= dz && heightMap.Length0 == dx + 1 && heightMap.Length1 == dz + 1
    requires (dx + 1) * (dz + 1) <= |vs| && 0 <= x <= dx
    requires ScaledBefore(vs0, vs, heightMap, dx, dz, heightScale, x, 0)
    requires Tracks(min0, max0, minAt0, maxAt0, heightMap, dx, dz, heightScale, x, 0)
    ensures ScaledBefore(vs', vs, heightMap, dx, dz, heightScale, x, dz + 1)
    ensures Tracks(min, max, minAt, maxAt, heightMap, dx, dz, heightScale, x, dz + 1)
  {
    vs', min, max, minAt, maxAt := vs0, min0, max0, minAt0, maxAt0;
    for z := 0 to dz + 1
      invariant ScaledBefore(vs', vs, heightMap, dx, dz, heightScale, x, z)
      invariant Tracks(min, max, minAt, maxAt, heightMap, dx, dz, heightScale, x, z)
    {
      var index := VertexIndex(x, z, dx, dz);
      var y := ScaledHeight(heightMap, x, z, heightScale);
      ghost var vs1, min1, max1, minAt1, maxAt1 := vs', min, max, minAt, maxAt;
      vs' := vs'[index := vs'[index].(height := y)];
      min, minAt := if y < min then y else min, if y < min then (x, z) else minAt;
      max, maxAt := if y > max then y else max, if y > max then (x, z) else maxAt;
      ScaleStep(vs1, vs', vs, min1, max1, minAt1, maxAt1, min, max, minAt, maxAt, heightMap, dx, dz, heightScale, x, z);
    }
  }

  /** The first loop of `generate`: the vertex of each cell takes the cell's
      height times heightScale, and the smallest and largest scaled heights
      are tracked from 999999 and -999999. Vertices past the first
      (dx+1)(dz+1) are left alone. */
  method ScaleHeights(vs: seq<Vertex>, heightMap: array2<real>, dx: int, dz: int, heightScale: real)
    returns (vs': seq<Vertex>, min: real, max: real)
    requires 0 <= dx && 0 <= dz && heightMap.Length0 == dx + 1 && heightMap.Length1 == dz + 1
    requires (dx + 1) * (dz + 1) <= |vs|
    ensures |vs'| == |vs|
    ensures forall i | (dx + 1) * (dz + 1) <= i < |vs| :: vs'[i] == vs[i]
    ensures forall x, z | 0 <= x <= dx && 0 <= z <= dz ::
              vs'[VertexIndex(x, z, dx, dz)] == vs[VertexIndex(x, z, dx, dz)].(height := ScaledHeight(heightMap, x, z, heightScale))
    ensures Spans((min, max), heightMap, dx, dz, heightScale)
  {
    vs' := vs;
    min, max := MIN_START, MAX_START;
    ghost var minAt: Cell, maxAt: Cell := (0, 0), (0, 0);
    for x := 0 to dx + 1
      invariant ScaledBefore(vs', vs, heightMap, dx, dz, heightScale, x, 0)
      invariant Tracks(min, max, minAt, maxAt, heightMap, dx, dz, heightScale, x, 0)
    {
      vs', min, max, minAt, maxAt := ScaleColumn(vs', vs, heightMap, dx, dz, heightScale, x, min, max, minAt, maxAt);
      ColumnEnd(vs', vs, min, max, minAt, maxAt, heightMap, dx, dz, heightScale, x);
    }
    AllScaled(vs', vs, min, max, minAt, maxAt, heightMap, dx, dz, heightScale);
  }

  /** The difference of heights that `generate` puts in the x component of
      the normal at (x, z): the right neighbour minus the left one, each
      index clamped to the grid, doubled at either edge where one of the two
      is the cell itself. */
  function SlopeX(heightMap: array2<real>, dx: int, dz: int, x: int, z: int): real
    requires heightMap.Length0 == dx + 1 && heightMap.Length1 == dz + 1
    requires 0 <= x <= dx && 0 <= z <= dz
    reads heightMap
  {
    var d := heightMap[if x < dx then x + 1 else x, z] - heightMap[if x > 0 then x - 1 else x, z];
    if x == 0 || x == dx then 2.0 * d else d
  }

  /** The same along z. */
  function SlopeZ(heightMap: array2<real>, dx: int, dz: int, x: int, z: int): real
    requires heightMap.Length0 == dx + 1 && heightMap.Length1 == dz + 1
    requires 0 <= x <= dx && 0 <= z <= dz
    reads heightMap
  {
    var d := heightMap[x, if z < dz then z + 1 else z] - heightMap[x, if z > 0 then z - 1 else z];
    if z == 0 || z == dz then 2.0 * d else d
  }

  /** The normal of `generate` as written, before normalisation:
      (right - left, 2, up - down). */
  function NormalAsWritten(heightMap: array2<real>, dx: int, dz: int, x: int, z: int): Vec3
    requires heightMap.Length0 == dx + 1 && heightMap.Length1 == dz + 1
    requires 0 <= x <= dx && 0 <= z <= dz
    reads heightMap
  {
    Vec3(SlopeX(heightMap, dx, dz, x, z), 2.0, SlopeZ(heightMap, dx, dz, x, z))
  }

  /** The vertex normal, before normalisation, with the signs of the
      height-map normal: (left - right, 2, down - up). `generate` stores
      NormalAsWritten; this is the normal it evidently intends. */
  function Normal(heightMap: array2<real>, dx: int, dz: int, x: int, z: int): Vec3
    requires heightMap.Length0 == dx + 1 && heightMap.Length1 == dz + 1
    requires 0 <= x <= dx && 0 <= z <= dz
    reads heightMap
  {
    Vec3(-SlopeX(heightMap, dx, dz, x, z), 2.0, -SlopeZ(heightMap, dx, dz, x, z))
  }

  function Dot3(u: Vec3, v: Vec3): real {
    u.x * v.x + u.y * v.y + u.z * v.z
  }

  /** Every height of the map lies on the plane c + a x + b z. */
  ghost predicate Planar(heightMap: array2<real>, c: real, a: real, b: real)
    reads heightMap
  {
    forall x, z | 0 <= x < heightMap.Length0 && 0 <= z < heightMap.Length1 ::
      heightMap[x, z] == c + a * x as real + b * z as real
  }

  /** Two heights of a planar map one cell apart along x differ by a. */
  lemma PlanarStepX(heightMap: array2<real>, c: real, a: real, b: real, x: int, z: int)
    requires Planar(heightMap, c, a, b)
    requires 0 <= x && x + 1 < heightMap.Length0 && 0 <= z < heightMap.Length1
    ensures heightMap[x + 1, z] - heightMap[x, z] == a
  {
    assert a * (x + 1) as real == a * x as real + a;
  }

  /** Two heights of a planar map one cell apart along z differ by b. */
  lemma PlanarStepZ(heightMap: array2<real>, c: real, a: real, b: real, x: int, z: int)
    requires Planar(heightMap, c, a, b)
    requires 0 <= x < heightMap.Length0 && 0 <= z && z + 1 < heightMap.Length1
    ensures heightMap[x, z + 1] - heightMap[x, z] == b
  {
    assert b * (z + 1) as real == b * z as real + b;
  }

  /** On a planar map the slopes are twice the plane's gradient at every
      cell, edges included: doubling the one-sided difference at an edge
      matches the central difference inside. */
  lemma PlanarSlopes(heightMap: array2<real>, dx: int, dz: int, c: real, a: real, b: real, x: int, z: int)
    requires heightMap.Length0 == dx + 1 && heightMap.Length1 == dz + 1
    requires 1 <= dx && 1 <= dz && 0 <= x <= dx && 0 <= z <= dz
    requires Planar(heightMap, c, a, b)
    ensures SlopeX(heightMap, dx, dz, x, z) == 2.0 * a
    ensures SlopeZ(heightMap, dx, dz, x, z) == 2.0 * b
  {
    if x < dx {
      PlanarStepX(heightMap, c, a, b, x, z);
    }
    if x > 0 {
      PlanarStepX(heightMap, c, a, b, x - 1, z);
    }
    if z < dz {
      PlanarStepZ(heightMap, c, a, b, x, z);
    }
    if z > 0 {
      PlanarStepZ(heightMap, c, a, b, x, z - 1);
    }
  }

  /** On a planar map the normal is perpendicular, in grid units, to both
      of the plane's directions (1, a, 0) and (0, b, 1), at every cell. */
  lemma NormalPerpendicular(heightMap: array2<real>, dx: int, dz: int, c: real, a: real, b: real, x: int, z: int)
    requires heightMap.Length0 == dx + 1 && heightMap.Length1 == dz + 1
    requires 1 <= dx && 1 <= dz && 0 <= x <= dx && 0 <= z <= dz
    requires Planar(heightMap, c, a, b)
    ensures Dot3(Normal(heightMap, dx, dz, x, z), Vec3(1.0, a, 0.0)) == 0.0
    ensures Dot3(Normal(heightMap, dx, dz, x, z), Vec3(0.0, b, 1.0)) == 0.0
  {
    PlanarSlopes(heightMap, dx, dz, c, a, b, x, z);
  }

  /** As written, the normal on a planar map is not perpendicular to the
      plane: its product with the direction (1, a, 0) is 4a, with (0, b, 1)
      4b. On the map of height x (a = 1, b = 0) it is (2, 2, 0), parallel
      to the plane's direction (1, 1, 0). */
  lemma NormalAsWrittenTilted(heightMap: array2<real>, dx: int, dz: int, c: real, a: real, b: real, x: int, z: int)
    requires heightMap.Length0 == dx + 1 && heightMap.Length1 == dz + 1
    requires 1 <= dx && 1 <= dz && 0 <= x <= dx && 0 <= z <= dz
    requires Planar(heightMap, c, a, b)
    ensures Dot3(NormalAsWritten(heightMap, dx, dz, x, z), Vec3(1.0, a, 0.0)) == 4.0 * a
    ensures Dot3(NormalAsWritten(heightMap, dx, dz, x, z), Vec3(0.0, b, 1.0)) == 4.0 * b
    ensures a == 1.0 && b == 0.0 ==> NormalAsWritten(heightMap, dx, dz, x, z) == Vec3(2.0, 2.0, 0.0)
  {
    PlanarSlopes(heightMap, dx, dz, c, a, b, x, z);
  }

  /** The normal as written is the intended one mirrored in the vertical:
      the same height component, the two horizontal ones negated. */
  lemma NormalMirror(heightMap: array2<real>, dx: int, dz: int, x: int, z: int)
    requires heightMap.Length0 == dx + 1 && heightMap.Length1 == dz + 1
    requires 0 <= x <= dx && 0 <= z <= dz
    ensures NormalAsWritten(heightMap, dx, dz, x, z).y == Normal(heightMap, dx, dz, x, z).y == 2.0
    ensures NormalAsWritten(heightMap, dx, dz, x, z).x == -Normal(heightMap, dx, dz, x, z).x
    ensures NormalAsWritten(heightMap, dx, dz, x, z).z == -Normal(heightMap, dx, dz, x, z).z
  {
  }

  /** On a flat map, of any size, every normal points straight up, as
      written and as intended. */
  lemma FlatNormal(heightMap: array2<real>, dx: int, dz: int, c: real, x: int, z: int)
    requires heightMap.Length0 == dx + 1 && heightMap.Length1 == dz + 1
    requires 0 <= x <= dx && 0 <= z <= dz
    requires forall u, v | 0 <= u <= dx && 0 <= v <= dz :: heightMap[u, v] == c
    ensures NormalAsWritten(heightMap, dx, dz, x, z) == Vec3(0.0, 2.0, 0.0)
    ensures Normal(heightMap, dx, dz, x, z) == Vec3(0.0, 2.0, 0.0)
  {
  }

  /** The normal loop of `generate`, over z, then x: the vertex of each cell
      takes the cell's normal as written; vertices past the first
      (dx+1)(dz+1) are left alone. */
  method SetNormals(vs: seq<Vertex>, heightMap: array2<real>, dx: int, dz: int) returns (vs': seq<Vertex>)
    requires 0 <= dx && 0 <= dz && heightMap.Length0 == dx + 1 && heightMap.Length1 == dz + 1
    requires (dx + 1) * (dz + 1) <= |vs|
    ensures |vs'| == |vs|
    ensures forall i | (dx + 1) * (dz + 1) <= i < |vs| :: vs'[i] == vs[i]
    ensures forall x, z | 0 <= x <= dx && 0 <= z <= dz ::
              vs'[VertexIndex(x, z, dx, dz)] == vs[VertexIndex(x, z, dx, dz)].(normal := NormalAsWritten(heightMap, dx, dz, x, z))
  {
    vs' := vs;
    for z := 0 to dz + 1
      invariant |vs'| == |vs|
      invariant forall i | (dx + 1) * (dz + 1) <= i < |vs| :: vs'[i] == vs[i]
      invariant forall u, v | 0 <= u <= dx && 0 <= v < z ::
                  vs'[VertexIndex(u, v, dx, dz)] == vs[VertexIndex(u, v, dx, dz)].(normal := NormalAsWritten(heightMap, dx, dz, u, v))
      invariant forall u, v | 0 <= u <= dx && z <= v <= dz :: vs'[VertexIndex(u, v, dx, dz)] == vs[VertexIndex(u, v, dx, dz)]
    {
      for x := 0 to dx + 1
        invariant |vs'| == |vs|
        invariant forall i | (dx + 1) * (dz + 1) <= i < |vs| :: vs'[i] == vs[i]
        invariant forall u, v | 0 <= u <= dx && 0 <= v <= dz && Before(v, u, z, x) ::
                    vs'[VertexIndex(u, v, dx, dz)] == vs[VertexIndex(u, v, dx, dz)].(normal := NormalAsWritten(heightMap, dx, dz, u, v))
        invariant forall u, v | 0 <= u <= dx && 0 <= v <= dz && !Before(v, u, z, x) ::
                    vs'[VertexIndex(u, v, dx, dz)] == vs[VertexIndex(u, v, dx, dz)]
      {
        var index := VertexIndex(x, z, dx, dz);
        vs' := vs'[index := vs'[index].(normal := NormalAsWritten(heightMap, dx, dz, x, z))];
      }
    }
  }

  /** vs is what `generate` leaves on top of the vertices vs0: a flat plane
      appended by `buildPlane`, then the first (dx+1)(dz+1) vertices, which
      are vs0's own when vs0 is not empty, each taking its cell's scaled
      height and its normal as written. */
  ghost predicate Rendered(vs: seq<Vertex>, vs0: seq<Vertex>, heightMap: array2<real>, dx: nat, dz: nat, heightScale: real)
    requires heightMap.Length0 == dx + 1 && heightMap.Length1 == dz + 1
    reads heightMap
  {
    var built := vs0 + FlatPlane(dx, dz);
    && |vs| == |built|
    && (forall i | (dx + 1) * (dz + 1) <= i < |vs| :: vs[i] == built[i])
    && forall x, z | 0 <= x <= dx && 0 <= z <= dz ::
         vs[VertexIndex(x, z, dx, dz)] ==
           built[VertexIndex(x, z, dx, dz)].(height := ScaledHeight(heightMap, x, z, heightScale), normal := NormalAsWritten(heightMap, dx, dz, x, z))
  }

  /** After the first `generate`, on no vertices, the vertex of each cell
      stands on that cell at its scaled height with its normal as written. */
  lemma FirstRender(vs: seq<Vertex>, heightMap: array2<real>, dx: nat, dz: nat, heightScale: real, x: int, z: int)
    requires heightMap.Length0 == dx + 1 && heightMap.Length1 == dz + 1
    requires Rendered(vs, [], heightMap, dx, dz, heightScale)
    requires 0 <= x <= dx && 0 <= z <= dz
    ensures |vs| == (dx + 1) * (dz + 1)
    ensures vs[VertexIndex(x, z, dx, dz)] == Vertex(x, z, ScaledHeight(heightMap, x, z, heightScale), NormalAsWritten(heightMap, dx, dz, x, z))
  {
    assert [] + FlatPlane(dx, dz) == FlatPlane(dx, dz);
  }

  /** What midpoint displacement leaves in the map: every cell written
      once, by the pass of the coarsest lattice it lies on, from cells
      written before it and one draw of its own (Subdivision.Consistent,
      with draws counted from d0), so one draw per cell. */
  ghost predicate MidpointFilled(heightMap: array2<real>, dx: int, dz: int, writes: map<Cell, Write>, rand: Random, d0: nat)
    reads heightMap, rand
  {
    && (forall c :: c in writes <==> InGrid(dx, dz, c))
    && Subdivision.Consistent(heightMap, writes, GridSize(dx, dz), 0.0, rand, d0)
    && rand.drawn == d0 + (dx + 1) * (dz + 1)
  }

  /** Every cell of the (dx+1) x (dz+1) map is at height 0. */
  ghost predicate Level(heightMap: array2<real>, dx: int, dz: int)
    requires dx < heightMap.Length0 && dz < heightMap.Length1
    reads heightMap
  {
    forall x, z | 0 <= x <= dx && 0 <= z <= dz :: heightMap[x, z] == 0.0
  }

  /** What diamond square leaves in the map: a tile whose last column
      repeats its first and whose last row repeats its first. */
  ghost predicate Seamless(heightMap: array2<real>, dx: int, dz: int)
    requires 0 <= dx && 0 <= dz && heightMap.Length0 == dx + 1 && heightMap.Length1 == dz + 1
    reads heightMap
  {
    && (forall z | 0 <= z <= dz :: heightMap[dx, z] == heightMap[0, z])
    && (forall x | 0 <= x <= dx :: heightMap[x, dz] == heightMap[x, 0])
  }

  /** What diamond square leaves in the map: the W x H torus it computed
      from draws d0, d0 + 1, ... (W = dx, H = dz), every slot of it written,
      each holding what its last write computes from the final torus with
      a draw of its own (DiamondSquare.Consistent); the writes shaped as a
      refinement of lattice G (DiamondSquare.Structured: seeds exactly on
      lattice G, centres of their step's class, each reading coarser
      writes); and the map sampling the torus, so that it is a seamless
      tile. */
  ghost predicate DiamondFilled(heightMap: array2<real>, dx: int, dz: int, torus: seq<real>, entries: map<int, Entry>,
                                rand: Random, d0: nat)
    requires 0 <= dx && 0 <= dz && heightMap.Length0 == dx + 1 && heightMap.Length1 == dz + 1
    reads heightMap, rand
  {
    && Dims(dx, dz) && |torus| == dx * dz && GridSize(dx, dz) > 0
    && (forall k | 0 <= k < dx * dz :: k in entries)
    && DiamondSquare.Consistent(entries, torus, GridSize(dx, dz), -1.0, 1.0, rand, dx, dz, d0, rand.drawn)
    && Stamped(entries, entries.Keys, {Seeded, SquareCentre, DiamondCentre}, 1, GridSize(dx, dz), d0)
    && Structured(entries, GridSize(dx, dz), dx, dz)
    && (forall x, z | 0 <= x <= dx && 0 <= z <= dz :: heightMap[x, z] == DiamondSquare.Sample(torus, x, z, dx, dz))
    && Seamless(heightMap, dx, dz)
  }

  /** The square the Perlin fill writes: a generator built from the
      gradients and the shuffle choices, whose noise at (x, z) scaled by
      5 / (dx + 1) fills the (dx+1) x (dx+1) square. */
  ghost predicate PerlinSquare(heightMap: array2<real>, dx: int, dz: int, generator: PerlinNoiseGenerator?,
                               gradientTable: GradientTable, choices: seq<int>)
    requires heightMap.Length0 == dx + 1 && heightMap.Length1 == dz + 1
    requires |choices| == TABLE_SIZE && forall i | 0 <= i < |choices| :: 0 <= choices[i] < TABLE_SIZE
    reads heightMap
  {
    && generator != null && generator.gradients == gradientTable
    && generator.permutations == Shuffled(choices, TABLE_SIZE)
    && (forall x, z | 0 <= x <= dx && 0 <= z <= dx && z <= dz ::
          heightMap[x, z] == NoiseFill.Sample(generator.GenerateNoise, x as real, z as real, PERLIN_CELLS / (dx + 1) as real))
  }

  /** What the Perlin fill leaves in the map: its square, while the rows
      above dx keep their heights. */
  twostate predicate PerlinFilled(heightMap: array2<real>, dx: int, dz: int, new generator: PerlinNoiseGenerator?,
                                  gradientTable: GradientTable, choices: seq<int>)
    requires heightMap.Length0 == dx + 1 && heightMap.Length1 == dz + 1
    requires |choices| == TABLE_SIZE && forall i | 0 <= i < |choices| :: 0 <= choices[i] < TABLE_SIZE
    reads heightMap
  {
    && PerlinSquare(heightMap, dx, dz, generator, gradientTable, choices)
    && (forall x, z | 0 <= x <= dx && dx < z <= dz :: heightMap[x, z] == old(heightMap[x, z]))
  }

  /** What the fBm fill leaves in the map: a generator built from the
      gradients and the shuffle choices, whose 16-octave sum at (x, z)
      fills every cell. */
  ghost predicate FbmFilled(heightMap: array2<real>, dx: int, dz: int, generator: PerlinNoiseGenerator?,
                            gradientTable: GradientTable, choices: seq<int>)
    requires 0 <= dx && heightMap.Length0 == dx + 1 && heightMap.Length1 == dz + 1
    requires |choices| == TABLE_SIZE && forall i | 0 <= i < |choices| :: 0 <= choices[i] < TABLE_SIZE
    reads heightMap
  {
    && generator != null && generator.gradients == gradientTable
    && generator.permutations == Shuffled(choices, TABLE_SIZE)
    && forall x, z | 0 <= x <= dx && 0 <= z <= dz ::
         heightMap[x, z] == OctaveSum(generator.GenerateNoise, x as real, z as real, dx, OCTAVES)
  }

  /** Call the member function handler stands for on the height map. The
      noise algorithms draw their permutations from choices, not from
      rand. */
  method Run(handler: Handler, heightMap: array2<real>, dx: int, dz: int, rand: Random,
             gradientTable: GradientTable, choices: seq<int>)
    returns (ghost writes: map<Cell, Write>, ghost torus: seq<real>, ghost entries: map<int, Entry>,
             ghost generator: PerlinNoiseGenerator?)
    requires 0 <= dx && 0 <= dz && heightMap.Length0 == dx + 1 && heightMap.Length1 == dz + 1
    requires Supports(handler.Target(), dx, dz)
    requires |choices| == TABLE_SIZE && forall i | 0 <= i < |choices| :: 0 <= choices[i] < TABLE_SIZE
    modifies heightMap, rand
    ensures handler == RunMidpointDisplacement ==> MidpointFilled(heightMap, dx, dz, writes, rand, old(rand.drawn))
    ensures handler == RunDiamondSquare ==> DiamondFilled(heightMap, dx, dz, torus, entries, rand, old(rand.drawn))
    ensures handler == RunPerlinNoise ==> PerlinFilled(heightMap, dx, dz, generator, gradientTable, choices)
    ensures handler == RunFractionalBrownianMotion ==> FbmFilled(heightMap, dx, dz, generator, gradientTable, choices)
    ensures handler == RunMultiFractal ==> unchanged(heightMap)
    ensures handler !in {RunMidpointDisplacement, RunDiamondSquare} ==> rand.drawn == old(rand.drawn)
  {
    writes, torus, entries, generator := map[], [], map[], null;
    match handler {
      case RunMidpointDisplacement =>
        ghost var passes;
        writes, passes := MidpointDisplacementAlgorithm(heightMap, dx, dz, rand);
        WriteCount(writes, dx, dz);
      case RunDiamondSquare =>
        ghost var steps;
        torus, entries, steps := DiamondSquareAlgorithm(heightMap, dx, dz, rand);
      case RunPerlinNoise =>
        generator := PerlinNoiseAlgorithm(heightMap, dx, gradientTable, choices);
      case RunFractionalBrownianMotion =>
        generator := FractionalBrownianMotionAlgorithm(heightMap, dx, dz, gradientTable, choices);
      case RunMultiFractal =>
        MultiFractalAlgorithm(heightMap);
    }
  }

  /** Where the heights of a `generate` came from: the write record of
      midpoint displacement, the torus of diamond square and its write
      record, or the generator of a Perlin fill. */
  datatype Provenance = Provenance(writes: map<Cell, Write>, torus: seq<real>, entries: map<int, Entry>,
                                   generator: PerlinNoiseGenerator?)

  class CustomTerrain {
    const rand: Random
    /** dimensions.x and dimensions.z. */
    const dx: int
    const dz: int
    /** `heightMap`, indexed [x][z]. */
    const heightMap: array2<real>
    var algorithmToFunction: map<Algorithm, Handler>
    var algorithmType: Algorithm
    var heightScale: real
    /** The vertex and index buffers, which every `generate` extends. */
    var vertices: seq<Vertex>
    var indices: seq<int>
    /** The `heightRange` uniform: the smallest and largest scaled height. */
    var heightRange: (real, real)
    /** Where the heights of the last `generate` came from. */
    ghost var source: Provenance

    ghost predicate Valid()
      reads this
    {
      0 <= dx && 0 <= dz && heightMap.Length0 == dx + 1 && heightMap.Length1 == dz + 1 && Dispatches(algorithmToFunction)
    }

    /** `InitialiseAlgorithmDispatchMap`: every algorithm gets the member
        function that implements it. */
    method InitialiseAlgorithmDispatchMap()
      modifies this
      ensures Dispatches(algorithmToFunction)
      ensures algorithmType == old(algorithmType) && heightScale == old(heightScale) && heightRange == old(heightRange)
      ensures vertices == old(vertices) && indices == old(indices)
    {
      algorithmToFunction := algorithmToFunction[MidpointDisplacement := RunMidpointDisplacement];
      algorithmToFunction := algorithmToFunction[DiamondSquare := RunDiamondSquare];
      algorithmToFunction := algorithmToFunction[PerlinNoise := RunPerlinNoise];
      algorithmToFunction := algorithmToFunction[FractionalBrownianMotion := RunFractionalBrownianMotion];
      algorithmToFunction := algorithmToFunction[MultiFractal := RunMultiFractal];
      forall a: Algorithm
        ensures a in algorithmToFunction && algorithmToFunction[a].Target() == a
      {
        match a
        case MidpointDisplacement =>
        case DiamondSquare =>
        case PerlinNoise =>
        case FractionalBrownianMotion =>
        case MultiFractal =>
      }
    }

    /** Build the dispatch map, allocate a zero map of (dx+1) x (dz+1)
        heights, then `generate`. */
    constructor (dx: int, dz: int, algorithmType: Algorithm, rand: Random, gradientTable: GradientTable, choices: seq<int>)
      requires 0 <= dx && 0 <= dz && Supports(algorithmType, dx, dz)
      requires |choices| == TABLE_SIZE && forall i | 0 <= i < |choices| :: 0 <= choices[i] < TABLE_SIZE
      modifies rand
      ensures Valid() && fresh(heightMap)
      ensures this.dx == dx && this.dz == dz && this.algorithmType == algorithmType && this.rand == rand
      ensures heightScale == HEIGHT_SCALE
      ensures Rendered(vertices, [], heightMap, dx, dz, heightScale)
      ensures indices == PlaneQuads(dx, dx, dz)
      ensures Spans(heightRange, heightMap, dx, dz, heightScale)
      ensures algorithmType == MidpointDisplacement ==> MidpointFilled(heightMap, dx, dz, source.writes, rand, old(rand.drawn))
      ensures algorithmType == DiamondSquare ==> DiamondFilled(heightMap, dx, dz, source.torus, source.entries, rand, old(rand.drawn))
      ensures algorithmType == PerlinNoise ==>
                && PerlinSquare(heightMap, dx, dz, source.generator, gradientTable, choices)
                && forall x, z | 0 <= x <= dx && dx < z <= dz :: heightMap[x, z] == 0.0
      ensures algorithmType == FractionalBrownianMotion ==> FbmFilled(heightMap, dx, dz, source.generator, gradientTable, choices)
      ensures algorithmType == MultiFractal ==> Level(heightMap, dx, dz)
      ensures algorithmType !in {MidpointDisplacement, DiamondSquare} ==> rand.drawn == old(rand.drawn)
    {
      this.rand := rand;
      this.dx := dx;
      this.dz := dz;
      heightMap := new real[dx + 1, dz + 1]((_, _) => 0.0);
      this.algorithmType := algorithmType;
      heightScale := HEIGHT_SCALE;
      vertices := [];
      indices := [];
      new;
      InitialiseAlgorithmDispatchMap();
      assert Level(heightMap, dx, dz);
      Generate(gradientTable, choices);
      assert indices == [] + PlaneQuads(dx, dx, dz) == PlaneQuads(dx, dx, dz);
    }

    /** `buildPlane`: append the vertices of a flat plane and the two
        triangles of each of its quads. */
    method BuildPlane()
      requires Valid()
      modifies this
      ensures Valid() && algorithmType == old(algorithmType) && heightScale == old(heightScale)
      ensures algorithmToFunction == old(algorithmToFunction) && heightRange == old(heightRange)
      ensures vertices == old(vertices) + FlatPlane(dx, dz)
      ensures indices == old(indices) + PlaneQuads(dx, dx, dz)
    {
      vertices := vertices + FlatPlane(dx, dz);
      indices := AppendQuads(indices, dx, dz);
    }

    /** The dispatch of `generate`: call the member function the map holds
        for algorithmType on the height map. */
    method RunAlgorithm(gradientTable: GradientTable, choices: seq<int>)
      returns (ghost writes: map<Cell, Write>, ghost torus: seq<real>, ghost entries: map<int, Entry>,
               ghost generator: PerlinNoiseGenerator?)
      requires Valid() && Supports(algorithmType, dx, dz)
      requires |choices| == TABLE_SIZE && forall i | 0 <= i < |choices| :: 0 <= choices[i] < TABLE_SIZE
      modifies heightMap, rand
      ensures algorithmType == MidpointDisplacement ==> MidpointFilled(heightMap, dx, dz, writes, rand, old(rand.drawn))
      ensures algorithmType == DiamondSquare ==> DiamondFilled(heightMap, dx, dz, torus, entries, rand, old(rand.drawn))
      ensures algorithmType == PerlinNoise ==> PerlinFilled(heightMap, dx, dz, generator, gradientTable, choices)
      ensures algorithmType == FractionalBrownianMotion ==> FbmFilled(heightMap, dx, dz, generator, gradientTable, choices)
      ensures algorithmType == MultiFractal ==> unchanged(heightMap)
      ensures algorithmType !in {MidpointDisplacement, DiamondSquare} ==> rand.drawn == old(rand.drawn)
    {
      writes, torus, entries, generator := Run(algorithmToFunction[algorithmType], heightMap, dx, dz, rand, gradientTable, choices);
    }

    /** The two vertex loops of `generate` and the `heightRange` uniform:
        the first (dx+1)(dz+1) vertices take their cell's scaled height and
        normal as written, and the range of the scaled heights is published. */
    method Render()
      requires Valid() && (dx + 1) * (dz + 1) <= |vertices|
      modifies this
      ensures Valid() && algorithmType == old(algorithmType) && heightScale == old(heightScale)
      ensures algorithmToFunction == old(algorithmToFunction) && indices == old(indices)
      ensures |vertices| == |old(vertices)|
      ensures forall i | (dx + 1) * (dz + 1) <= i < |vertices| :: vertices[i] == old(vertices[i])
      ensures forall x, z | 0 <= x <= dx && 0 <= z <= dz ::
                vertices[VertexIndex(x, z, dx, dz)] ==
                  old(vertices[VertexIndex(x, z, dx, dz)]).(height := ScaledHeight(heightMap, x, z, heightScale), normal := NormalAsWritten(heightMap, dx, dz, x, z))
      ensures Spans(heightRange, heightMap, dx, dz, heightScale)
      ensures source == old(source)
    {
      var min, max;
      vertices, min, max := ScaleHeights(vertices, heightMap, dx, dz, heightScale);
      vertices := SetNormals(vertices, heightMap, dx, dz);
      heightRange := (min, max);
    }

    /** `generate`: `buildPlane`, the algorithm the dispatch map gives for
        algorithmType, then the vertex loops; `source` keeps where the new
        heights came from. */
    method Generate(gradientTable: GradientTable, choices: seq<int>)
      requires Valid() && Supports(algorithmType, dx, dz)
      requires |choices| == TABLE_SIZE && forall i | 0 <= i < |choices| :: 0 <= choices[i] < TABLE_SIZE
      modifies this, heightMap, rand
      ensures Valid() && algorithmType == old(algorithmType) && heightScale == old(heightScale)
      ensures algorithmToFunction == old(algorithmToFunction)
      ensures Rendered(vertices, old(vertices), heightMap, dx, dz, heightScale)
      ensures indices == old(indices) + PlaneQuads(dx, dx, dz)
      ensures Spans(heightRange, heightMap, dx, dz, heightScale)
      ensures algorithmType == MidpointDisplacement ==> MidpointFilled(heightMap, dx, dz, source.writes, rand, old(rand.drawn))
      ensures algorithmType == DiamondSquare ==> DiamondFilled(heightMap, dx, dz, source.torus, source.entries, rand, old(rand.drawn))
      ensures algorithmType == PerlinNoise ==> PerlinFilled(heightMap, dx, dz, source.generator, gradientTable, choices)
      ensures algorithmType == FractionalBrownianMotion ==> FbmFilled(heightMap, dx, dz, source.generator, gradientTable, choices)
      ensures algorithmType == MultiFractal ==> unchanged(heightMap)
      ensures algorithmType !in {MidpointDisplacement, DiamondSquare} ==> rand.drawn == old(rand.drawn)
    {
      BuildPlane();
      ghost var w, t, e, g := RunAlgorithm(gradientTable, choices);
      source := Provenance(w, t, e, g);
      Render();
    }
  }
}
