/** `CustomTerrain::MidpointDisplacementAlgorithm`: seed the corners of the
    largest square lattice that fits the grid, then run one subdivision pass
    per halving of the offset, shrinking the random range by 0.7 each time. */
module MidpointDisplacement {
  import opened Lattice
  import opened RandomSource
  import opened Subdivision
  import opened Bits

  /** The factor applied to the random range after every pass. */
  const RANGE_MODIFIER: real := 0.7

  /** `gridSize`: one less than the smaller side of the (W+1) x (H+1) grid. */
  function GridSize(W: int, H: int): (g: int)
    ensures g <= W && g <= H && (g == W || g == H)
  {
    (if W + 1 < H + 1 then W + 1 else H + 1) - 1
  }

  /** The offsets of the passes of a loop that starts at offset o and halves
      it while it is positive. */
  function Halvings(o: int): (s: seq<int>)
    ensures forall i | 0 <= i < |s| :: s[i] > 0
    decreases o
  {
    if o <= 0 then [] else [o] + Halvings(o / 2)
  }

  /** A grid of size G = 2^n takes n passes: offsets G/2, G/4, ..., 1. */
  lemma {:induction false} HalvingsCount(G: int)
    requires IsPow2(G)
    ensures PowerOfTwo(|Halvings(G / 2)|) == G
    decreases G
  {
    if G > 1 {
      HalvingsCount(G / 2);
    }
  }

  /** Recording a pass with offset o moves it from the passes still to run
      to the passes run. */
  lemma ScheduleStep(passes: seq<int>, o: int, first: int)
    requires o > 0 && passes + Halvings(o) == Halvings(first)
    ensures (passes + [o]) + Halvings(o / 2) == Halvings(first)
  {
    assert Halvings(o) == [o] + Halvings(o / 2);
    assert (passes + [o]) + Halvings(o / 2) == passes + ([o] + Halvings(o / 2));
  }

  /** Every cell lies on lattice 1. */
  lemma OnUnitLattice(c: Cell)
    ensures OnLattice(c.0, c.1, 1)
  {
  }

  /** The range of the pass after the one with offset o is 0.7 times its own. */
  lemma NextRange(G: int, o: int, first: real)
    requires IsPow2(o) && 2 <= o && 2 * o <= G
    ensures o / 2 > 0 && PassRange(G, o / 2, first) == RANGE_MODIFIER * PassRange(G, o, first)
  {
    assert 2 * (o / 2) == o;
  }

  /** Halving a stride s >= 2 of the lattice of G keeps a power of two that
      divides both sides of the grid. */
  lemma HalveStride(W: int, H: int, G: int, s: int)
    requires IsPow2(G) && W % G == 0 && H % G == 0
    requires IsPow2(s) && 2 <= s <= G
    ensures s == 2 * (s / 2) && IsPow2(s / 2) && W % (s / 2) == 0 && H % (s / 2) == 0
  {
    Pow2Divides(s / 2, G);
    ModOfMod(W, G, s / 2);
    ModOfMod(H, G, s / 2);
  }

  /** Every recorded write was made by a pass no finer than stride, with the
      range that pass used: [-r, r] with r = PassRange(G, offset, 1.0). */
  ghost predicate Scheduled(writes: map<Cell, Write>, G: int, stride: int) {
    forall c | c in writes ::
      writes[c].offset >= stride > 0 && writes[c].hi == PassRange(G, writes[c].offset, 1.0) && writes[c].lo == -writes[c].hi
  }

  /** One iteration of the loop over passes: the pass with the current
      offset, then the range shrinks by 0.7 and the offset halves. */
  method RunPass(grid: array2<real>, W: int, H: int, G: int, offset: int, lo: real, hi: real,
                 rand: Random, ghost d0: nat, ghost writes0: map<Cell, Write>, ghost stride: int)
    returns (ghost writes: map<Cell, Write>, offset': int, lo': real, hi': real)
    requires 0 <= W < grid.Length0 && 0 <= H < grid.Length1
    requires IsPow2(G) && W % G == 0 && H % G == 0
    requires IsPow2(stride) && stride <= G && offset == stride / 2 && offset > 0
    requires W % stride == 0 && H % stride == 0
    requires hi == PassRange(G, offset, 1.0) && lo == -hi
    requires forall c :: c in writes0 <==> InGrid(W, H, c) && OnLattice(c.0, c.1, stride)
    requires Scheduled(writes0, G, stride)
    requires Consistent(grid, writes0, G, 0.0, rand, d0)
    modifies grid, rand
    ensures IsPow2(stride / 2) && offset' == offset / 2 && offset' == (stride / 2) / 2
    ensures W % (stride / 2) == 0 && H % (stride / 2) == 0
    ensures offset' > 0 ==> hi' == PassRange(G, offset', 1.0) && lo' == -hi'
    ensures forall c :: c in writes <==> InGrid(W, H, c) && OnLattice(c.0, c.1, stride / 2)
    ensures Scheduled(writes, G, stride / 2)
    ensures Consistent(grid, writes, G, 0.0, rand, d0)
    ensures rand.drawn - old(rand.drawn) == |writes| - |writes0|
  {
    HalveStride(W, H, G, stride);
    ghost var lowest, highest;
    writes, lowest, highest := SweepPass(grid, W, H, G, offset, lo, hi, 0.0, rand, d0, writes0, 0.0, 0.0);
    if 2 <= offset {
      NextRange(G, offset, 1.0);
    }
    lo', hi' := lo * RANGE_MODIFIER, hi * RANGE_MODIFIER;
    offset' := offset / 2;
  }

  /** Fill the (W+1) x (H+1) grid: the corners of lattice G get a draw from
      [-1, 1]; the pass with offset o gives each cell of lattice o that is
      off lattice 2o the mean of its neighbours plus a draw from
      [-r, r], r = PassRange(G, o, 1.0). Every cell ends up written exactly
      once, by the pass of the coarsest lattice it lies on, consuming one
      draw, after every cell it reads. */
  method MidpointDisplacementAlgorithm(grid: array2<real>, W: int, H: int, rand: Random)
    returns (ghost writes: map<Cell, Write>, ghost passes: seq<int>)
    requires grid.Length0 == W + 1 && grid.Length1 == H + 1
    requires IsPow2(GridSize(W, H)) && W % GridSize(W, H) == 0 && H % GridSize(W, H) == 0
    modifies grid, rand
    ensures forall c :: c in writes <==> InGrid(W, H, c)
    ensures Consistent(grid, writes, GridSize(W, H), 0.0, rand, old(rand.drawn))
    ensures rand.drawn - old(rand.drawn) == |writes|
    ensures forall c | c in writes ::
              writes[c].offset > 0 && writes[c].hi == PassRange(GridSize(W, H), writes[c].offset, 1.0) && writes[c].lo == -writes[c].hi
    ensures passes == Halvings(GridSize(W, H) / 2)
  {
    var gridSize := GridSize(W, H);
    var offset := gridSize / 2;
    var lo, hi := -1.0, 1.0;
    writes := SeedCorners(grid, W, H, gridSize, lo, hi, 0.0, rand);
    ghost var d0 := old(rand.drawn);
    ghost var stride := gridSize;
    passes := [];
    while offset > 0
      invariant IsPow2(stride) && stride <= gridSize && offset == stride / 2
      invariant W % stride == 0 && H % stride == 0
      invariant offset > 0 ==> hi == PassRange(gridSize, offset, 1.0) && lo == -hi
      invariant forall c :: c in writes <==> InGrid(W, H, c) && OnLattice(c.0, c.1, stride)
      invariant Scheduled(writes, gridSize, stride)
      invariant Consistent(grid, writes, gridSize, 0.0, rand, d0)
      invariant rand.drawn - d0 == |writes|
      invariant passes + Halvings(offset) == Halvings(gridSize / 2)
      decreases offset
    {
      ScheduleStep(passes, offset, gridSize / 2);
      passes := passes + [offset];
      writes, offset, lo, hi := RunPass(grid, W, H, gridSize, offset, lo, hi, rand, d0, writes, stride);
      stride := stride / 2;
    }
    forall c | InGrid(W, H, c) {
      OnUnitLattice(c);
    }
  }

  /** On a square grid of side 2^n the seeding writes exactly the four
      corners (0, 0), (W, 0), (0, W) and (W, W). */
  lemma SquareCorners(W: int, c: Cell)
    requires IsPow2(W)
    ensures InGrid(W, W, c) && OnLattice(c.0, c.1, GridSize(W, W)) <==> c in {(0, 0), (W, 0), (0, W), (W, W)}
  {
    if InGrid(W, W, c) && OnLattice(c.0, c.1, W) {
      LowMultiple(c.0, W);
      LowMultiple(c.1, W);
    }
  }

  /** The multiples of m in [0, m] are 0 and m. */
  lemma LowMultiple(v: int, m: int)
    requires m > 0 && 0 <= v <= m && v % m == 0
    ensures v == 0 || v == m
  {
    if 0 < v < m {
      DivModUnique(v, m, 0, v);
    }
  }
}
