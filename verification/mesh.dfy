/** The vertex array both terrain classes hand to the GPU: one vertex per
    cell of the (dx+1) x (dz+1) grid, laid out column by column, cell (x, z)
    at index x * (dz + 1) + z. */
module Mesh {
  import opened Lattice

  datatype Vec3 = Vec3(x: real, y: real, z: real)

  const UP: Vec3 := Vec3(0.0, 1.0, 0.0)

  /** A vertex of the terrain mesh: the grid column x and row z it stands
      on, its height pos.y, and its normal. */
  datatype Vertex = Vertex(x: int, z: int, height: real, normal: Vec3)

  /** The index `x * (dz + 1) + z` of the vertex of grid cell (x, z): it lies
      in the vertex array, and the cell is recovered from it, so no two
      cells share a vertex. */
  function VertexIndex(x: int, z: int, dx: int, dz: int): (i: int)
    requires 0 <= x <= dx && 0 <= z <= dz
    ensures 0 <= i < (dx + 1) * (dz + 1)
    ensures i / (dz + 1) == x && i % (dz + 1) == z
  {
    var i := x * (dz + 1) + z;
    assert i == (dz + 1) * x + z;
    assert (dz + 1) * x <= (dz + 1) * dx by {
      MulMonotone(dz + 1, x, dx);
    }
    DivModUnique(i, dz + 1, x, z);
    i
  }

  /** Every index of the vertex array is the vertex of a cell of the grid:
      the layout is onto. */
  lemma VertexIndexOnto(dx: int, dz: int, i: int)
    requires 0 <= dx && 0 <= dz && 0 <= i < (dx + 1) * (dz + 1)
    ensures 0 <= i / (dz + 1) <= dx && 0 <= i % (dz + 1) <= dz
    ensures VertexIndex(i / (dz + 1), i % (dz + 1), dx, dz) == i
  {
    DivBelow(i, dz + 1, dx + 1);
  }

  /** The vertices `buildPlane` appends: every cell of the grid at height 0
      with an upward normal, in the layout of VertexIndex. */
  function FlatPlane(dx: nat, dz: nat): (vs: seq<Vertex>)
    ensures |vs| == (dx + 1) * (dz + 1)
    ensures forall x, z | 0 <= x <= dx && 0 <= z <= dz :: vs[VertexIndex(x, z, dx, dz)] == Vertex(x, z, 0.0, UP)
  {
    seq((dx + 1) * (dz + 1), i => Vertex(i / (dz + 1), i % (dz + 1), 0.0, UP))
  }

  /** `GetVertexIndex(pos)` as written: x * dz + z, one less per column than
      the layout's x * (dz + 1) + z. */
  function GetVertexIndexAsWritten(x: int, z: int, dz: int): int {
    x * dz + z
  }

  /** As written, the last cell (0, dz) of column 0 and the first cell (1, 0)
      of column 1 get the same index, while the layout gives them two. */
  lemma GetVertexIndexCollides(dx: int, dz: int)
    requires 1 <= dx && 1 <= dz
    ensures GetVertexIndexAsWritten(0, dz, dz) == GetVertexIndexAsWritten(1, 0, dz)
    ensures VertexIndex(0, dz, dx, dz) != VertexIndex(1, 0, dx, dz)
  {
  }

  /** The grid cell a vertex index stands for in the layout of VertexIndex. */
  function CellOf(i: int, dz: int): (c: Cell)
    requires 0 <= dz
    ensures 0 <= i ==> 0 <= c.0 && 0 <= c.1 <= dz && c.0 * (dz + 1) + c.1 == i
  {
    (i / (dz + 1), i % (dz + 1))
  }

  /** Three cells on one line of the grid: a triangle on them has no area. */
  predicate Collinear(a: Cell, b: Cell, c: Cell) {
    (b.0 - a.0) * (c.1 - a.1) == (b.1 - a.1) * (c.0 - a.0)
  }

  /** The six indices `buildPlane` pushes for the quad with lower corner
      (x, z), as written: cell (u, v) is numbered u + v * (dx + 1), row by
      row, while the vertices are laid out column by column. */
  function QuadAsWritten(x: int, z: int, dx: int): (q: seq<int>)
    ensures |q| == 6 && q[2] == q[3] && q[1] == q[4]
  {
    var stride := dx + 1;
    [x + z * stride, x + (z + 1) * stride, (x + 1) + z * stride,
     (x + 1) + z * stride, x + (z + 1) * stride, (x + 1) + (z + 1) * stride]
  }

  /** On a 1 x 2 grid the first triangle pushed, [0, 2, 1], joins the cells
      (0, 0), (0, 2) and (0, 1) of the vertex layout: three cells of one
      column, a triangle with no area. */
  lemma QuadAsWrittenDegenerate()
    ensures QuadAsWritten(0, 0, 1)[..3] == [0, 2, 1]
    ensures CellOf(0, 2) == (0, 0) && CellOf(2, 2) == (0, 2) && CellOf(1, 2) == (0, 1)
    ensures Collinear(CellOf(0, 2), CellOf(2, 2), CellOf(1, 2))
  {
  }

  /** The two triangles of the quad with lower corner (x, z) numbered in
      the vertex layout, as the loops evidently intend: (x, z), (x, z+1), (x+1, z) and (x+1, z), (x, z+1), (x+1, z+1). */
  function Quad(x: int, z: int, dx: int, dz: int): (q: seq<int>)
    requires 0 <= x < dx && 0 <= z < dz
    ensures |q| == 6 && forall k | 0 <= k < 6 :: 0 <= q[k] < (dx + 1) * (dz + 1)
  {
    [VertexIndex(x, z, dx, dz), VertexIndex(x, z + 1, dx, dz), VertexIndex(x + 1, z, dx, dz),
     VertexIndex(x + 1, z, dx, dz), VertexIndex(x, z + 1, dx, dz), VertexIndex(x + 1, z + 1, dx, dz)]
  }

  /** Each triangle of a quad joins three of its corners, and no two of them
      on one line: the two triangles tile the quad. */
  lemma QuadTriangles(x: int, z: int, dx: int, dz: int)
    requires 0 <= x < dx && 0 <= z < dz
    ensures var q := Quad(x, z, dx, dz);
      && CellOf(q[0], dz) == (x, z) && CellOf(q[1], dz) == (x, z + 1) && CellOf(q[2], dz) == (x + 1, z)
      && CellOf(q[3], dz) == (x + 1, z) && CellOf(q[4], dz) == (x, z + 1) && CellOf(q[5], dz) == (x + 1, z + 1)
      && !Collinear(CellOf(q[0], dz), CellOf(q[1], dz), CellOf(q[2], dz))
      && !Collinear(CellOf(q[3], dz), CellOf(q[4], dz), CellOf(q[5], dz))
  {
  }

  /** Every index of an as-written quad of the dx x dz grid lies in the
      vertex array: the largest, (x + 1) + (z + 1) * (dx + 1), is at most
      dx + dz * (dx + 1), the last index. */
  lemma QuadAsWrittenInRange(x: int, z: int, dx: int, dz: int)
    requires 0 <= x < dx && 0 <= z < dz
    ensures forall k | 0 <= k < 6 :: 0 <= QuadAsWritten(x, z, dx)[k] < (dx + 1) * (dz + 1)
  {
    var q := QuadAsWritten(x, z, dx);
    var low, high, last := z * (dx + 1), (z + 1) * (dx + 1), dz * (dx + 1);
    MulMonotone(dx + 1, 0, z);
    MulMonotone(dx + 1, z + 1, dz);
    assert high == low + dx + 1 && (dx + 1) * (dz + 1) == last + dx + 1;
    assert q == [x + low, x + high, x + 1 + low, x + 1 + low, x + high, x + 1 + high];
    assert 0 <= low && high <= last;
  }

  /** On a square grid the as-written quad (x, z) is the quad (z, x) of the
      vertex layout: each triangle joins three of its corners, no two on one
      line, so the as-written indices still tile a square grid, transposed. */
  lemma QuadAsWrittenTransposed(x: int, z: int, d: int)
    requires 0 <= x < d && 0 <= z < d
    ensures var q := QuadAsWritten(x, z, d);
      && CellOf(q[0], d) == (z, x) && CellOf(q[1], d) == (z + 1, x) && CellOf(q[2], d) == (z, x + 1)
      && CellOf(q[5], d) == (z + 1, x + 1)
      && !Collinear(CellOf(q[0], d), CellOf(q[1], d), CellOf(q[2], d))
      && !Collinear(CellOf(q[3], d), CellOf(q[4], d), CellOf(q[5], d))
  {
    var q := QuadAsWritten(x, z, d);
    assert q[0] == z * (d + 1) + x;
    assert q[1] == (z + 1) * (d + 1) + x;
    assert q[2] == z * (d + 1) + (x + 1);
    assert q[5] == (z + 1) * (d + 1) + (x + 1);
    DivModUnique(q[0], d + 1, z, x);
    DivModUnique(q[1], d + 1, z + 1, x);
    DivModUnique(q[2], d + 1, z, x + 1);
    DivModUnique(q[5], d + 1, z + 1, x + 1);
  }

  /** The indices pushed for the quads (x, 0), ..., (x, z-1) of column x,
      in the order the inner loop pushes them: two triangles per quad, as
      written. */
  function ColumnQuads(x: int, z: int, dx: int, dz: int): (c: seq<int>)
    requires 0 <= x < dx && 0 <= z <= dz
    ensures |c| == 6 * z
  {
    if z == 0 then [] else ColumnQuads(x, z - 1, dx, dz) + QuadAsWritten(x, z - 1, dx)
  }

  /** The indices pushed for all quads of columns 0, ..., x-1, in the order
      the loops push them: two triangles per quad, as written. */
  function PlaneQuads(x: int, dx: int, dz: int): (p: seq<int>)
    requires 0 <= x <= dx && 0 <= dz
    ensures |p| == 6 * x * dz
  {
    if x == 0 then [] else PlaneQuads(x - 1, dx, dz) + ColumnQuads(x - 1, dz, dx, dz)
  }

  /** Every index of a column's quads names a vertex of the grid. */
  lemma {:induction false} ColumnQuadsInRange(x: int, z: int, dx: int, dz: int)
    requires 0 <= x < dx && 0 <= z <= dz
    ensures forall i | 0 <= i < |ColumnQuads(x, z, dx, dz)| :: 0 <= ColumnQuads(x, z, dx, dz)[i] < (dx + 1) * (dz + 1)
  {
    if z > 0 {
      ColumnQuadsInRange(x, z - 1, dx, dz);
      QuadAsWrittenInRange(x, z - 1, dx, dz);
    }
  }

  /** Every index `buildPlane` pushes names a vertex of the grid. */
  lemma {:induction false} PlaneQuadsInRange(x: int, dx: int, dz: int)
    requires 0 <= x <= dx && 0 <= dz
    ensures forall i | 0 <= i < |PlaneQuads(x, dx, dz)| :: 0 <= PlaneQuads(x, dx, dz)[i] < (dx + 1) * (dz + 1)
  {
    if x > 0 {
      PlaneQuadsInRange(x - 1, dx, dz);
      ColumnQuadsInRange(x - 1, dz, dx, dz);
    }
  }

  /** The inner index loop of `buildPlane`: the two triangles of each quad
      of column x, appended to indices. */
  method AppendColumn(indices: seq<int>, x: int, dx: int, dz: int) returns (indices': seq<int>)
    requires 0 <= x < dx && 0 <= dz
    ensures indices' == indices + ColumnQuads(x, dz, dx, dz)
  {
    indices' := indices;
    for z := 0 to dz
      invariant indices' == indices + ColumnQuads(x, z, dx, dz)
    {
      indices' := indices' + QuadAsWritten(x, z, dx);
    }
  }

  /** The index loops of `buildPlane`: two triangles per quad of the
      dx x dz grid, appended to indices. */
  method AppendQuads(indices: seq<int>, dx: int, dz: int) returns (indices': seq<int>)
    requires 0 <= dx && 0 <= dz
    ensures indices' == indices + PlaneQuads(dx, dx, dz)
  {
    indices' := indices;
    for x := 0 to dx
      invariant indices' == indices + PlaneQuads(x, dx, dz)
    {
      assert PlaneQuads(x + 1, dx, dz) == PlaneQuads(x, dx, dz) + ColumnQuads(x, dz, dx, dz);
      indices' := AppendColumn(indices', x, dx, dz);
    }
  }
}
