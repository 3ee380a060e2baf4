/** The midpoint-displacement traversal shared by MidpointDisplacementAlgorithm
    (CustomTerrain.h) and MidpointDisplacementAlgorithm2 (CustomTerrain2.h):
    seed the cells on the coarsest lattice, then sweep the grid once per pass
    with a halving offset, giving every cell of the finer lattice the mean of
    its neighbours on the coarser lattice plus one random draw.

    Each write is recorded in a ghost map from cell to `Write`, so that the
    contracts can say which pass wrote a cell, which draw it consumed, what it
    read and what it stored. */
module Subdivision {
  import opened Lattice
  import opened RandomSource

  /** One store into the grid: the offset of the pass that made it (the
      grid size for a seeded corner), the index of the oracle sample it
      consumed, the range [lo, hi] that sample was drawn from, and the value
      stored. */
  datatype Write = Write(offset: nat, draw: nat, lo: real, hi: real, value: real)

  predicate InGrid(W: int, H: int, c: Cell) {
    0 <= c.0 <= W && 0 <= c.1 <= H
  }

  /** The cells a cell of pass o averages: its four diagonal neighbours when
      both coordinates are odd multiples of o (a centre), its left and right
      neighbours when only x is (a horizontal side), and its upper and lower
      neighbours otherwise (a vertical side). */
  function Neighbours(c: Cell, o: int): (ns: seq<Cell>)
    requires o > 0
    ensures |ns| == 2 || |ns| == 4
  {
    var (x, y) := c;
    if IsOdd(x, o) && IsOdd(y, o) then [(x - o, y - o), (x + o, y - o), (x - o, y + o), (x + o, y + o)]
    else if IsOdd(x, o) then [(x - o, y), (x + o, y)]
    else [(x, y - o), (x, y + o)]
  }

  /** The mean of the values recorded for the cells ns. */
  function Mean(writes: map<Cell, Write>, ns: seq<Cell>): real
    requires |ns| == 2 || |ns| == 4
    requires forall n | n in ns :: n in writes
  {
    if |ns| == 4 then
      (writes[ns[0]].value + writes[ns[1]].value + writes[ns[2]].value + writes[ns[3]].value) / 4.0
    else
      (writes[ns[0]].value + writes[ns[1]].value) / 2.0
  }

  /** The recorded write of cell c is one the algorithm can make: a seeded
      corner holds base plus its draw; any other cell was written by the
      pass whose offset is the coarsest stride on which it lies, after all of
      its neighbours had been written by earlier passes, and holds their mean
      plus its draw. */
  ghost predicate Sound(writes: map<Cell, Write>, c: Cell, G: int, base: real, rand: Random)
    requires c in writes
  {
    var w := writes[c];
    IsPow2(w.offset) && w.offset <= G && OnLattice(c.0, c.1, w.offset) &&
    if w.offset == G then
      w.value == base + rand.Sample(w.draw, w.lo, w.hi)
    else
      && !OnLattice(c.0, c.1, 2 * w.offset)
      && (forall n | n in Neighbours(c, w.offset) :: n in writes && writes[n].offset > w.offset)
      && w.value == Mean(writes, Neighbours(c, w.offset)) + rand.Sample(w.draw, w.lo, w.hi)
  }

  /** Every recorded write is sound. */
  ghost predicate Record(writes: map<Cell, Write>, G: int, base: real, rand: Random) {
    && (forall c {:trigger Sound(writes, c, G, base, rand)} | c in writes :: Sound(writes, c, G, base, rand))
  }

  /** The draw the write of cell c consumed. */
  ghost function DrawOf(writes: map<Cell, Write>, c: Cell): nat
    requires c in writes
  {
    writes[c].draw
  }

  /** Every recorded draw lies in [d0, d1), and no two writes share one:
      each write consumed a draw of its own. */
  ghost predicate DrawsIn(writes: map<Cell, Write>, d0: nat, d1: nat) {
    && (forall c | c in writes :: d0 <= writes[c].draw < d1)
    && (forall c, c' {:trigger DrawOf(writes, c), DrawOf(writes, c')} | c in writes && c' in writes && c != c' ::
          DrawOf(writes, c) != DrawOf(writes, c'))
  }

  /** Recording a fresh cell with the next draw d1 keeps the draws distinct
      and extends their range to [d0, d1 + 1). */
  lemma DrawsAdd(writes: map<Cell, Write>, d0: nat, d1: nat, c: Cell, w: Write)
    requires DrawsIn(writes, d0, d1) && d0 <= d1 && c !in writes && w.draw == d1
    ensures DrawsIn(writes[c := w], d0, d1 + 1)
  {
    var writes' := writes[c := w];
    forall e, e' | e in writes' && e' in writes' && e != e'
      ensures DrawOf(writes', e) != DrawOf(writes', e')
    {
      if e != c && e' != c {
        assert DrawOf(writes, e) != DrawOf(writes, e');
      }
    }
  }

  /** The grid holds the recorded value of every written cell. */
  ghost predicate Stored(grid: array2<real>, writes: map<Cell, Write>)
    reads grid
  {
    forall c | c in writes :: 0 <= c.0 < grid.Length0 && 0 <= c.1 < grid.Length1 && grid[c.0, c.1] == writes[c].value
  }

  /** The record is sound, its draws were all consumed since d0, and the
      grid agrees with it. */
  ghost predicate Consistent(grid: array2<real>, writes: map<Cell, Write>, G: int, base: real, rand: Random, d0: nat)
    reads grid, rand
  {
    Record(writes, G, base, rand) && d0 <= rand.drawn && DrawsIn(writes, d0, rand.drawn) && Stored(grid, writes)
  }

  /** With a draw of zero a displaced cell holds exactly the mean of its
      neighbours: the four diagonal corners of a centre, the left and right
      neighbours of a horizontal side, the upper and lower neighbours of a
      vertical side, all written by coarser passes. */
  lemma ZeroDrawMean(writes: map<Cell, Write>, G: int, base: real, rand: Random, c: Cell)
    requires Record(writes, G, base, rand) && c in writes && writes[c].offset != G
    requires rand.Sample(writes[c].draw, writes[c].lo, writes[c].hi) == 0.0
    ensures var o, x, y := writes[c].offset, c.0, c.1;
      && o > 0
      && (IsOdd(x, o) && IsOdd(y, o) ==>
            && (x - o, y - o) in writes && (x + o, y - o) in writes && (x - o, y + o) in writes && (x + o, y + o) in writes
            && writes[c].value == (writes[(x - o, y - o)].value + writes[(x + o, y - o)].value
                                   + writes[(x - o, y + o)].value + writes[(x + o, y + o)].value) / 4.0)
      && (IsOdd(x, o) && !IsOdd(y, o) ==>
            && (x - o, y) in writes && (x + o, y) in writes
            && writes[c].value == (writes[(x - o, y)].value + writes[(x + o, y)].value) / 2.0)
      && (!IsOdd(x, o) ==>
            && (x, y - o) in writes && (x, y + o) in writes
            && writes[c].value == (writes[(x, y - o)].value + writes[(x, y + o)].value) / 2.0)
  {
    assert Sound(writes, c, G, base, rand);
    var ns := Neighbours(c, writes[c].offset);
    assert ns[0] in ns && ns[1] in ns;
    if |ns| == 4 {
      assert ns[2] in ns && ns[3] in ns;
    }
  }

  /** lowest and highest bound every value recorded in writes but not in
      writes0. */
  ghost predicate Bounded(writes: map<Cell, Write>, writes0: map<Cell, Write>, lowest: real, highest: real) {
    forall c | c in writes && c !in writes0 :: lowest <= writes[c].value <= highest
  }

  /** Two extensions of a record, each adding writes of offset o from
      [lo, hi] bounded by lowest and highest, make one. */
  lemma ExtendTrans(w0: map<Cell, Write>, w1: map<Cell, Write>, w2: map<Cell, Write>, o: int, lo: real, hi: real,
                    lowest1: real, highest1: real, lowest2: real, highest2: real)
    requires forall c | c in w0 :: c in w1 && w1[c] == w0[c]
    requires forall c | c in w1 :: c in w2 && w2[c] == w1[c]
    requires forall c | c in w1 && c !in w0 :: w1[c].offset == o && w1[c].lo == lo && w1[c].hi == hi
    requires forall c | c in w2 && c !in w1 :: w2[c].offset == o && w2[c].lo == lo && w2[c].hi == hi
    requires Bounded(w1, w0, lowest1, highest1) && Bounded(w2, w1, lowest2, highest2)
    requires lowest2 <= lowest1 && highest1 <= highest2
    ensures forall c | c in w0 :: c in w2 && w2[c] == w0[c]
    ensures forall c | c in w2 && c !in w0 :: w2[c].offset == o && w2[c].lo == lo && w2[c].hi == hi
    ensures Bounded(w2, w0, lowest2, highest2)
  {
    forall c | c in w2 && c !in w0
      ensures w2[c].offset == o && w2[c].lo == lo && w2[c].hi == hi && lowest2 <= w2[c].value <= highest2
    {
      if c in w1 {
        assert w2[c] == w1[c];
      }
    }
  }

  /** Adding a write of offset o from [lo, hi] for a fresh cell keeps every
      earlier write, grows the record by one, and widens the running bounds
      to cover the new value. */
  lemma FreshWrite(writes: map<Cell, Write>, writes': map<Cell, Write>, c: Cell, w: Write, o: int, lo: real, hi: real,
                   lowest: real, highest: real, lowest': real, highest': real)
    requires c !in writes && writes' == writes[c := w]
    requires w.offset == o && w.lo == lo && w.hi == hi
    requires lowest' == (if w.value < lowest then w.value else lowest)
    requires highest' == (if w.value > highest then w.value else highest)
    ensures lowest' <= lowest && highest <= highest' && Bounded(writes', writes, lowest', highest')
    ensures forall d | d in writes :: d in writes' && writes'[d] == writes[d]
    ensures forall d | d in writes' && d !in writes :: writes'[d].offset == o && writes'[d].lo == lo && writes'[d].hi == hi
    ensures forall d :: d in writes' <==> d in writes || d == c
    ensures |writes'| == |writes| + 1
  {
  }

  /** Recording a sound write of a fresh cell keeps the record sound. */
  lemma ExtendRecord(writes: map<Cell, Write>, writes': map<Cell, Write>, G: int, base: real, rand: Random, c: Cell, w: Write)
    requires Record(writes, G, base, rand)
    requires c !in writes && writes' == writes[c := w]
    requires Sound(writes', c, G, base, rand)
    ensures Record(writes', G, base, rand)
  {
    forall e | e in writes'
      ensures Sound(writes', e, G, base, rand)
    {
      if e != c {
        assert Sound(writes, e, G, base, rand);
        var v := writes[e];
        if v.offset != G {
          var ns := Neighbours(e, v.offset);
          assert forall n | n in ns :: n in writes && writes'[n] == writes[n];
          assert Mean(writes', ns) == Mean(writes, ns);
        }
      }
    }
  }

  /** The cells written when the sweep of pass o is at (x, y): the coarser
      lattice, written by the seeding and the earlier passes, and the cells
      pass o has swept. */
  predicate Done(c: Cell, o: int, y: int, x: int)
    requires o > 0
  {
    OnLattice(c.0, c.1, 2 * o) || Swept(c, o, y, x)
  }

  /** The cells written when the sweep of pass o is at (x, y) are exactly
      the cells of the grid that are Done. */
  ghost predicate Covers(writes: map<Cell, Write>, W: int, H: int, o: int, y: int, x: int)
    requires o > 0
  {
    forall c :: c in writes <==> InGrid(W, H, c) && Done(c, o, y, x)
  }

  /** Moving the seeding cursor one step along row i adds exactly the
      corner under it to the written cells. */
  lemma AdvanceSeed(W: int, H: int, G: int, i: int, j: int, j': int, writes: map<Cell, Write>, writes': map<Cell, Write>)
    requires G > 0 && i % G == 0 && j % G == 0 && j' == j + G
    requires 0 <= j <= W && 0 <= i <= H
    requires forall c :: c in writes <==> InGrid(W, H, c) && Swept(c, G, i, j)
    requires forall c :: c in writes' <==> c in writes || c == (j, i)
    ensures j' % G == 0
    ensures forall c :: c in writes' <==> InGrid(W, H, c) && Swept(c, G, i, j')
  {
    forall c
      ensures c in writes' <==> InGrid(W, H, c) && Swept(c, G, i, j')
    {
      SweptStep(c, G, i, j, j');
    }
    StepFlips(j, j', G);
  }

  /** Moving the cursor of pass o one step along row y adds exactly the cell
      under it to the written cells. */
  lemma AdvanceColumn(W: int, H: int, o: int, x: int, x': int, y: int, writes: map<Cell, Write>, writes': map<Cell, Write>)
    requires o > 0 && x % o == 0 && y % o == 0 && x' == x + o
    requires 0 <= x <= W && 0 <= y <= H
    requires Covers(writes, W, H, o, y, x)
    requires forall c :: c in writes' <==> c in writes || c == (x, y)
    ensures Covers(writes', W, H, o, y, x')
  {
    forall c
      ensures c in writes' <==> InGrid(W, H, c) && Done(c, o, y, x')
    {
      SweptStep(c, o, y, x, x');
    }
  }

  /** Once the cursor of pass o has passed column W, the written cells are
      those of a cursor at the start of the next row. */
  lemma AdvanceRow(W: int, H: int, o: int, x: int, y: int, y': int, writes: map<Cell, Write>)
    requires o > 0 && y % o == 0 && y' == y + o && W < x
    requires Covers(writes, W, H, o, y, x)
    ensures Covers(writes, W, H, o, y', 0)
  {
    forall c | InGrid(W, H, c)
      ensures Done(c, o, y, x) <==> Done(c, o, y', 0)
    {
      SweptRowEnd(c, o, y, y', x, W);
    }
  }

  /** Once the cursor has passed the end of row y, the sweep moves to row
      y + o at column 0 and the row toggle flips. */
  lemma FinishRow(W: int, H: int, o: int, x: int, y: int, y': int, isOddY: bool, writes: map<Cell, Write>)
    requires o > 0 && y % o == 0 && isOddY == IsOdd(y, o) && W < x && y' == y + o
    requires Covers(writes, W, H, o, y, x)
    ensures y' % o == 0 && !isOddY == IsOdd(y', o)
    ensures Covers(writes, W, H, o, y', 0)
  {
    StepFlips(y, y', o);
    AdvanceRow(W, H, o, x, y, y', writes);
  }

  /** A cell of pass o lies off the coarser lattice, and every neighbour it
      reads lies inside the grid on the coarser lattice. */
  lemma CellNeighbours(W: int, H: int, o: int, x: int, y: int)
    requires 0 < o && W % (2 * o) == 0 && H % (2 * o) == 0
    requires 0 <= x <= W && 0 <= y <= H && x % o == 0 && y % o == 0
    requires IsOdd(x, o) || IsOdd(y, o)
    ensures IsOdd(x, o) ==> o <= x && x + o <= W
    ensures IsOdd(y, o) ==> o <= y && y + o <= H
    ensures !OnLattice(x, y, 2 * o)
    ensures forall n | n in Neighbours((x, y), o) :: InGrid(W, H, n) && OnLattice(n.0, n.1, 2 * o)
  {
    EvenMultiple(x, o);
    EvenMultiple(y, o);
    if IsOdd(x, o) {
      OddMultiple(x, o);
      if x + o > W {
        NextMultiple(W, x + o, 2 * o);
      }
    }
    if IsOdd(y, o) {
      OddMultiple(y, o);
      if y + o > H {
        NextMultiple(H, y + o, 2 * o);
      }
    }
  }

  /** The mean of the recorded values of ns is the mean of the grid at ns. */
  lemma StoredAt(grid: array2<real>, writes: map<Cell, Write>, ns: seq<Cell>)
    requires Stored(grid, writes)
    requires forall n | n in ns :: n in writes
    ensures forall i | 0 <= i < |ns| :: 0 <= ns[i].0 < grid.Length0 && 0 <= ns[i].1 < grid.Length1 && grid[ns[i].0, ns[i].1] == writes[ns[i]].value
  {
    forall i | 0 <= i < |ns|
      ensures 0 <= ns[i].0 < grid.Length0 && 0 <= ns[i].1 < grid.Length1 && grid[ns[i].0, ns[i].1] == writes[ns[i]].value
    {
      assert ns[i] in ns;
    }
  }

  /** Read the neighbours of cell (x, y) of pass o from the grid and
      average them: the centre, horizontal and vertical cases of the sweep. */
  method NeighbourMean(grid: array2<real>, o: int, x: int, y: int, ghost writes: map<Cell, Write>)
    returns (mean: real)
    requires o > 0 && Stored(grid, writes)
    requires forall n | n in Neighbours((x, y), o) :: n in writes
    ensures mean == Mean(writes, Neighbours((x, y), o))
  {
    ghost var ns := Neighbours((x, y), o);
    StoredAt(grid, writes, ns);
    if IsOdd(x, o) && IsOdd(y, o) {
      // centre: the four diagonal corners
      mean := (grid[x - o, y - o] + grid[x + o, y - o] + grid[x - o, y + o] + grid[x + o, y + o]) / 4.0;
    } else if IsOdd(x, o) {
      // horizontal side: left and right
      mean := (grid[x - o, y] + grid[x + o, y]) / 2.0;
    } else {
      // vertical side: above and below
      mean := (grid[x, y - o] + grid[x, y + o]) / 2.0;
    }
  }

  /** A write of cell (x, y) in pass o, made after all of its neighbours,
      storing their mean plus a draw, keeps the record sound. */
  lemma RecordCell(writes: map<Cell, Write>, G: int, base: real, rand: Random, o: int, x: int, y: int, w: Write)
    requires Record(writes, G, base, rand)
    requires IsPow2(o) && 2 * o <= G && x % o == 0 && y % o == 0 && !OnLattice(x, y, 2 * o)
    requires (x, y) !in writes
    requires forall n | n in Neighbours((x, y), o) :: n in writes && writes[n].offset > o
    requires w.offset == o && w.value == Mean(writes, Neighbours((x, y), o)) + rand.Sample(w.draw, w.lo, w.hi)
    ensures Record(writes[(x, y) := w], G, base, rand)
  {
    var writes' := writes[(x, y) := w];
    var ns := Neighbours((x, y), o);
    assert Mean(writes', ns) == Mean(writes, ns);
    assert Sound(writes', (x, y), G, base, rand);
    ExtendRecord(writes, writes', G, base, rand, (x, y), w);
  }

  /** A seeded corner storing base plus a draw keeps the record sound. */
  lemma RecordCorner(writes: map<Cell, Write>, G: int, base: real, rand: Random, x: int, y: int, w: Write)
    requires Record(writes, G, base, rand)
    requires IsPow2(G) && x % G == 0 && y % G == 0 && (x, y) !in writes
    requires w.offset == G && w.value == base + rand.Sample(w.draw, w.lo, w.hi)
    ensures Record(writes[(x, y) := w], G, base, rand)
  {
    assert Sound(writes[(x, y) := w], (x, y), G, base, rand);
    ExtendRecord(writes, writes[(x, y) := w], G, base, rand, (x, y), w);
  }

  /** Displace one cell of pass o: read the cell's neighbours on the coarser
      lattice, draw from [lo, hi], and store their mean plus the draw. */
  method DisplaceCell(grid: array2<real>, W: int, H: int, G: int, o: int, x: int, y: int,
                      lo: real, hi: real, base: real, rand: Random, ghost d0: nat,
                      ghost writes: map<Cell, Write>)
    returns (ghost w: Write)
    requires 0 <= W < grid.Length0 && H < grid.Length1
    requires IsPow2(o) && 2 * o <= G && W % (2 * o) == 0 && H % (2 * o) == 0
    requires 0 <= x <= W && 0 <= y <= H && x % o == 0 && y % o == 0
    requires IsOdd(x, o) || IsOdd(y, o)
    requires forall c | InGrid(W, H, c) && OnLattice(c.0, c.1, 2 * o) :: c in writes && writes[c].offset > o
    requires (x, y) !in writes
    requires Consistent(grid, writes, G, base, rand, d0)
    modifies grid, rand
    ensures forall i, j | 0 <= i < grid.Length0 && 0 <= j < grid.Length1 && !InGrid(W, H, (i, j)) :: grid[i, j] == old(grid[i, j])
    ensures w.offset == o && w.lo == lo && w.hi == hi
    ensures Consistent(grid, writes[(x, y) := w], G, base, rand, d0)
    ensures rand.drawn == old(rand.drawn) + 1
  {
    CellNeighbours(W, H, o, x, y);
    var mean := NeighbourMean(grid, o, x, y, writes);
    ghost var k := rand.drawn;
    var r := rand.Get(lo, hi);
    var height := mean + r;
    w := Write(o, k, lo, hi, height);
    RecordCell(writes, G, base, rand, o, x, y, w);
    DrawsAdd(writes, d0, k, (x, y), w);
    grid[x, y] := height;
  }

  /** One step of the sweep along row y of pass o: the cell under the
      cursor (x, y) is displaced when it is a centre or a side, and the
      cursor and its parity flag advance by o. */
  method VisitCell(grid: array2<real>, W: int, H: int, G: int, o: int, x: int, y: int, isOddX: bool, isOddY: bool,
                   lo: real, hi: real, base: real, rand: Random, ghost d0: nat,
                   ghost writes: map<Cell, Write>, ghost lowest: real, ghost highest: real)
    returns (ghost writes': map<Cell, Write>, x': int, isOddX': bool, ghost lowest': real, ghost highest': real)
    requires 0 <= W < grid.Length0 && H < grid.Length1
    requires IsPow2(o) && 2 * o <= G && W % (2 * o) == 0 && H % (2 * o) == 0
    requires 0 <= y <= H && y % o == 0 && isOddY == IsOdd(y, o)
    requires 0 <= x <= W && x % o == 0 && isOddX == IsOdd(x, o)
    requires Covers(writes, W, H, o, y, x)
    requires forall c | InGrid(W, H, c) && OnLattice(c.0, c.1, 2 * o) :: c in writes && writes[c].offset > o
    requires Consistent(grid, writes, G, base, rand, d0)
    modifies grid, rand
    ensures forall i, j | 0 <= i < grid.Length0 && 0 <= j < grid.Length1 && !InGrid(W, H, (i, j)) :: grid[i, j] == old(grid[i, j])
    ensures x' == x + o && x' % o == 0 && isOddX' == IsOdd(x', o)
    ensures lowest' <= lowest && highest <= highest' && Bounded(writes', writes, lowest', highest')
    ensures Covers(writes', W, H, o, y, x')
    ensures forall c | c in writes :: c in writes' && writes'[c] == writes[c]
    ensures forall c | c in writes' && c !in writes :: writes'[c].offset == o && writes'[c].lo == lo && writes'[c].hi == hi
    ensures Consistent(grid, writes', G, base, rand, d0)
    ensures rand.drawn - old(rand.drawn) == |writes'| - |writes|
  {
    writes', lowest', highest' := writes, lowest, highest;
    if isOddX || isOddY {
      CellNeighbours(W, H, o, x, y);
      assert (x, y) !in writes;  // no cell is written twice
      ghost var w := DisplaceCell(grid, W, H, G, o, x, y, lo, hi, base, rand, d0, writes);
      writes' := writes[(x, y) := w];
      highest' := if w.value > highest then w.value else highest;
      lowest' := if w.value < lowest then w.value else lowest;
      FreshWrite(writes, writes', (x, y), w, o, lo, hi, lowest, highest, lowest', highest');
    } else {
      EvenMultiple(x, o);
      EvenMultiple(y, o);
    }
    x', isOddX' := x + o, !isOddX;
    AdvanceColumn(W, H, o, x, x', y, writes, writes');
    StepFlips(x, x', o);
  }

  /** One iteration of a row sweep: visit cell (x, y) and fold the new
      writes into what the sweep has recorded since it started from writes0. */
  method SweepCell(grid: array2<real>, W: int, H: int, G: int, o: int, x: int, y: int, isOddX: bool, isOddY: bool,
                   lo: real, hi: real, base: real, rand: Random, ghost d0: nat,
                   ghost writes0: map<Cell, Write>, ghost lowest0: real, ghost highest0: real,
                   ghost writes: map<Cell, Write>, ghost lowest: real, ghost highest: real)
    returns (ghost writes': map<Cell, Write>, x': int, isOddX': bool, ghost lowest': real, ghost highest': real)
    requires 0 <= W < grid.Length0 && H < grid.Length1
    requires IsPow2(o) && 2 * o <= G && W % (2 * o) == 0 && H % (2 * o) == 0
    requires 0 <= y <= H && y % o == 0 && isOddY == IsOdd(y, o)
    requires 0 <= x <= W && x % o == 0 && isOddX == IsOdd(x, o)
    requires Covers(writes, W, H, o, y, x)
    requires forall c | c in writes0 :: c in writes && writes[c] == writes0[c]
    requires forall c | c in writes && c !in writes0 :: writes[c].offset == o && writes[c].lo == lo && writes[c].hi == hi
    requires forall c | InGrid(W, H, c) && OnLattice(c.0, c.1, 2 * o) :: c in writes && writes[c].offset > o
    requires Consistent(grid, writes, G, base, rand, d0)
    requires lowest <= lowest0 && highest0 <= highest && Bounded(writes, writes0, lowest, highest)
    modifies grid, rand
    ensures forall i, j | 0 <= i < grid.Length0 && 0 <= j < grid.Length1 && !InGrid(W, H, (i, j)) :: grid[i, j] == old(grid[i, j])
    ensures x' == x + o && 0 <= x' <= W + o && x' % o == 0 && isOddX' == IsOdd(x', o)
    ensures Covers(writes', W, H, o, y, x')
    ensures forall c | c in writes0 :: c in writes' && writes'[c] == writes0[c]
    ensures forall c | c in writes' && c !in writes0 :: writes'[c].offset == o && writes'[c].lo == lo && writes'[c].hi == hi
    ensures forall c | InGrid(W, H, c) && OnLattice(c.0, c.1, 2 * o) :: c in writes' && writes'[c].offset > o
    ensures Consistent(grid, writes', G, base, rand, d0)
    ensures rand.drawn - old(rand.drawn) == |writes'| - |writes|
    ensures lowest' <= lowest0 && highest0 <= highest' && Bounded(writes', writes0, lowest', highest')
  {
    writes', x', isOddX', lowest', highest' := VisitCell(grid, W, H, G, o, x, y, isOddX, isOddY, lo, hi, base, rand, d0, writes, lowest, highest);
    ExtendTrans(writes0, writes, writes', o, lo, hi, lowest, highest, lowest', highest');
  }

  /** The inner loop of one pass: sweep row y with step o from x = 0 until
      x passes W, writing every cell that is a centre or a side. */
  method SweepColumns(grid: array2<real>, W: int, H: int, G: int, o: int, y: int, isOddY: bool,
                      lo: real, hi: real, base: real, rand: Random, ghost d0: nat,
                      ghost writes0: map<Cell, Write>, ghost lowest0: real, ghost highest0: real)
    returns (ghost writes: map<Cell, Write>, x: int, ghost lowest: real, ghost highest: real)
    requires 0 <= W < grid.Length0 && H < grid.Length1
    requires IsPow2(o) && 2 * o <= G && W % (2 * o) == 0 && H % (2 * o) == 0
    requires 0 <= y <= H && y % o == 0 && isOddY == IsOdd(y, o)
    requires Covers(writes0, W, H, o, y, 0)
    requires forall c | InGrid(W, H, c) && OnLattice(c.0, c.1, 2 * o) :: c in writes0 && writes0[c].offset > o
    requires Consistent(grid, writes0, G, base, rand, d0)
    modifies grid, rand
    ensures forall i, j | 0 <= i < grid.Length0 && 0 <= j < grid.Length1 && !InGrid(W, H, (i, j)) :: grid[i, j] == old(grid[i, j])
    ensures W < x && Covers(writes, W, H, o, y, x)
    ensures lowest <= lowest0 && highest0 <= highest && Bounded(writes, writes0, lowest, highest)
    ensures forall c | c in writes0 :: c in writes && writes[c] == writes0[c]
    ensures forall c | c in writes && c !in writes0 :: writes[c].offset == o && writes[c].lo == lo && writes[c].hi == hi
    ensures Consistent(grid, writes, G, base, rand, d0)
    ensures rand.drawn - old(rand.drawn) == |writes| - |writes0|
  {
    writes, lowest, highest := writes0, lowest0, highest0;
    x := 0;
    var isOddX := false;
    assert x % o == 0 && !IsOdd(x, o) by {
      DivModUnique(0, o, 0, 0);
    }
    while x < W + 1
      invariant 0 <= x <= W + o && x % o == 0 && isOddX == IsOdd(x, o)
      invariant Covers(writes, W, H, o, y, x)
      invariant forall c | c in writes0 :: c in writes && writes[c] == writes0[c]
      invariant forall c | c in writes && c !in writes0 :: writes[c].offset == o && writes[c].lo == lo && writes[c].hi == hi
      invariant forall c | InGrid(W, H, c) && OnLattice(c.0, c.1, 2 * o) :: c in writes && writes[c].offset > o
      invariant Consistent(grid, writes, G, base, rand, d0)
      invariant forall i, j | 0 <= i < grid.Length0 && 0 <= j < grid.Length1 && !InGrid(W, H, (i, j)) :: grid[i, j] == old(grid[i, j])
      invariant rand.drawn - old(rand.drawn) == |writes| - |writes0|
      invariant lowest <= lowest0 && highest0 <= highest && Bounded(writes, writes0, lowest, highest)
    {
      writes, x, isOddX, lowest, highest := SweepCell(grid, W, H, G, o, x, y, isOddX, isOddY, lo, hi, base, rand, d0,
                                                      writes0, lowest0, highest0, writes, lowest, highest);
    }
  }

  /** One row of a pass: sweep row y with step o, then advance to the next row. */
  method SweepRow(grid: array2<real>, W: int, H: int, G: int, o: int, y: int, isOddY: bool,
                  lo: real, hi: real, base: real, rand: Random, ghost d0: nat,
                  ghost writes0: map<Cell, Write>, ghost lowest0: real, ghost highest0: real)
    returns (ghost writes: map<Cell, Write>, y': int, isOddY': bool, ghost lowest: real, ghost highest: real)
    requires 0 <= W < grid.Length0 && H < grid.Length1
    requires IsPow2(o) && 2 * o <= G && W % (2 * o) == 0 && H % (2 * o) == 0
    requires 0 <= y <= H && y % o == 0 && isOddY == IsOdd(y, o)
    requires Covers(writes0, W, H, o, y, 0)
    requires forall c | InGrid(W, H, c) && OnLattice(c.0, c.1, 2 * o) :: c in writes0 && writes0[c].offset > o
    requires Consistent(grid, writes0, G, base, rand, d0)
    modifies grid, rand
    ensures forall i, j | 0 <= i < grid.Length0 && 0 <= j < grid.Length1 && !InGrid(W, H, (i, j)) :: grid[i, j] == old(grid[i, j])
    ensures y' == y + o && y' % o == 0 && isOddY' == IsOdd(y', o)
    ensures lowest <= lowest0 && highest0 <= highest && Bounded(writes, writes0, lowest, highest)
    ensures Covers(writes, W, H, o, y', 0)
    ensures forall c | c in writes0 :: c in writes && writes[c] == writes0[c]
    ensures forall c | c in writes && c !in writes0 :: writes[c].offset == o && writes[c].lo == lo && writes[c].hi == hi
    ensures Consistent(grid, writes, G, base, rand, d0)
    ensures rand.drawn - old(rand.drawn) == |writes| - |writes0|
  {
    var x;
    writes, x, lowest, highest := SweepColumns(grid, W, H, G, o, y, isOddY, lo, hi, base, rand, d0, writes0, lowest0, highest0);
    y', isOddY' := y + o, !isOddY;
    FinishRow(W, H, o, x, y, y', isOddY, writes);
  }

  /** Once the last row of pass o is finished, the written cells are exactly
      the cells of lattice o. */
  lemma FinishPass(W: int, H: int, o: int, y: int, writes: map<Cell, Write>)
    requires o > 0 && H < y
    requires Covers(writes, W, H, o, y, 0)
    ensures forall c :: c in writes <==> InGrid(W, H, c) && OnLattice(c.0, c.1, o)
  {
    forall c | InGrid(W, H, c)
      ensures Done(c, o, y, 0) <==> OnLattice(c.0, c.1, o)
    {
      EvenMultiple(c.0, o);
      EvenMultiple(c.1, o);
    }
  }

  /** One pass of the subdivision with offset o: sweep the rows 0, o, 2o, ...
      of the grid, giving every cell of lattice o that is not on lattice 2o
      the mean of its neighbours plus a draw from [lo, hi]. */
  method SweepPass(grid: array2<real>, W: int, H: int, G: int, o: int,
                   lo: real, hi: real, base: real, rand: Random, ghost d0: nat,
                   ghost writes0: map<Cell, Write>, ghost lowest0: real, ghost highest0: real)
    returns (ghost writes: map<Cell, Write>, ghost lowest: real, ghost highest: real)
    requires 0 <= W < grid.Length0 && 0 <= H < grid.Length1
    requires IsPow2(o) && 2 * o <= G && W % (2 * o) == 0 && H % (2 * o) == 0
    requires forall c :: c in writes0 <==> InGrid(W, H, c) && OnLattice(c.0, c.1, 2 * o)
    requires forall c | c in writes0 :: writes0[c].offset > o
    requires Consistent(grid, writes0, G, base, rand, d0)
    modifies grid, rand
    ensures forall i, j | 0 <= i < grid.Length0 && 0 <= j < grid.Length1 && !InGrid(W, H, (i, j)) :: grid[i, j] == old(grid[i, j])
    ensures forall c :: c in writes <==> InGrid(W, H, c) && OnLattice(c.0, c.1, o)
    ensures lowest <= lowest0 && highest0 <= highest && Bounded(writes, writes0, lowest, highest)
    ensures forall c | c in writes0 :: c in writes && writes[c] == writes0[c]
    ensures forall c | c in writes && c !in writes0 :: writes[c].offset == o && writes[c].lo == lo && writes[c].hi == hi
    ensures Consistent(grid, writes, G, base, rand, d0)
    ensures rand.drawn - old(rand.drawn) == |writes| - |writes0|
  {
    writes, lowest, highest := writes0, lowest0, highest0;
    var y := 0;
    var isOddY := false;
    assert y % o == 0 && !IsOdd(y, o) by {
      DivModUnique(0, o, 0, 0);
    }
    while y < H + 1
      invariant 0 <= y <= H + o && y % o == 0 && isOddY == IsOdd(y, o)
      invariant Covers(writes, W, H, o, y, 0)
      invariant forall c | c in writes0 :: c in writes && writes[c] == writes0[c]
      invariant forall c | c in writes && c !in writes0 :: writes[c].offset == o && writes[c].lo == lo && writes[c].hi == hi
      invariant Consistent(grid, writes, G, base, rand, d0)
      invariant forall i, j | 0 <= i < grid.Length0 && 0 <= j < grid.Length1 && !InGrid(W, H, (i, j)) :: grid[i, j] == old(grid[i, j])
      invariant rand.drawn - old(rand.drawn) == |writes| - |writes0|
      invariant lowest <= lowest0 && highest0 <= highest && Bounded(writes, writes0, lowest, highest)
    {
      ghost var writes1, lowest1, highest1 := writes, lowest, highest;
      writes, y, isOddY, lowest, highest := SweepRow(grid, W, H, G, o, y, isOddY, lo, hi, base, rand, d0, writes, lowest, highest);
      ExtendTrans(writes0, writes1, writes, o, lo, hi, lowest1, highest1, lowest, highest);
    }
    FinishPass(W, H, o, y, writes);
  }

  /** One step of the seeding along row i: store base plus a draw from
      [lo, hi] in the corner (j, i), then advance the cursor by G. */
  method SeedCell(grid: array2<real>, W: int, H: int, G: int, i: int, j: int,
                  lo: real, hi: real, base: real, rand: Random, ghost d0: nat,
                  ghost writes: map<Cell, Write>)
    returns (ghost writes': map<Cell, Write>, j': int)
    requires 0 <= W < grid.Length0 && H < grid.Length1
    requires IsPow2(G) && 0 <= i <= H && i % G == 0 && 0 <= j <= W && j % G == 0
    requires forall c :: c in writes <==> InGrid(W, H, c) && Swept(c, G, i, j)
    requires forall c | c in writes :: writes[c].offset == G && writes[c].lo == lo && writes[c].hi == hi
    requires Consistent(grid, writes, G, base, rand, d0)
    modifies grid, rand
    ensures forall i, j | 0 <= i < grid.Length0 && 0 <= j < grid.Length1 && !InGrid(W, H, (i, j)) :: grid[i, j] == old(grid[i, j])
    ensures j' == j + G && j' % G == 0
    ensures forall c :: c in writes' <==> InGrid(W, H, c) && Swept(c, G, i, j')
    ensures forall c | c in writes' :: writes'[c].offset == G && writes'[c].lo == lo && writes'[c].hi == hi
    ensures Consistent(grid, writes', G, base, rand, d0)
    ensures rand.drawn - old(rand.drawn) == |writes'| - |writes|
  {
    assert (j, i) !in writes;  // no corner is written twice
    ghost var k := rand.drawn;
    var r := rand.Get(lo, hi);
    grid[j, i] := base + r;
    var w := Write(G, k, lo, hi, base + r);
    RecordCorner(writes, G, base, rand, j, i, w);
    DrawsAdd(writes, d0, k, (j, i), w);
    writes' := writes[(j, i) := w];
    j' := j + G;
    AdvanceSeed(W, H, G, i, j, j', writes, writes');
  }

  /** One row of the seeding: every corner (j, i) of row i, left to right;
      then advance to the next row of corners. */
  method SeedRow(grid: array2<real>, W: int, H: int, G: int, i: int,
                 lo: real, hi: real, base: real, rand: Random, ghost d0: nat,
                 ghost writes0: map<Cell, Write>)
    returns (ghost writes: map<Cell, Write>, i': int)
    requires 0 <= W < grid.Length0 && H < grid.Length1
    requires IsPow2(G) && 0 <= i <= H && i % G == 0
    requires forall c :: c in writes0 <==> InGrid(W, H, c) && Swept(c, G, i, 0)
    requires forall c | c in writes0 :: writes0[c].offset == G && writes0[c].lo == lo && writes0[c].hi == hi
    requires Consistent(grid, writes0, G, base, rand, d0)
    modifies grid, rand
    ensures forall i, j | 0 <= i < grid.Length0 && 0 <= j < grid.Length1 && !InGrid(W, H, (i, j)) :: grid[i, j] == old(grid[i, j])
    ensures i' == i + G && i' % G == 0
    ensures forall c :: c in writes <==> InGrid(W, H, c) && Swept(c, G, i', 0)
    ensures forall c | c in writes :: writes[c].offset == G && writes[c].lo == lo && writes[c].hi == hi
    ensures Consistent(grid, writes, G, base, rand, d0)
    ensures rand.drawn - old(rand.drawn) == |writes| - |writes0|
  {
    writes := writes0;
    var j := 0;
    assert j % G == 0 by {
      DivModUnique(0, G, 0, 0);
    }
    while j < W + 1
      invariant 0 <= j <= W + G && j % G == 0
      invariant forall c :: c in writes <==> InGrid(W, H, c) && Swept(c, G, i, j)
      invariant forall c | c in writes :: writes[c].offset == G && writes[c].lo == lo && writes[c].hi == hi
      invariant Consistent(grid, writes, G, base, rand, d0)
      invariant forall i, j | 0 <= i < grid.Length0 && 0 <= j < grid.Length1 && !InGrid(W, H, (i, j)) :: grid[i, j] == old(grid[i, j])
      invariant rand.drawn - old(rand.drawn) == |writes| - |writes0|
    {
      writes, j := SeedCell(grid, W, H, G, i, j, lo, hi, base, rand, d0, writes);
    }
    i' := i + G;
    StepFlips(i, i', G);
    forall c | InGrid(W, H, c)
      ensures Swept(c, G, i, j) <==> Swept(c, G, i', 0)
    {
      SweptRowEnd(c, G, i, i', j, W);
    }
  }

  /** Seed the coarsest lattice: every cell (j, i) with both coordinates
      multiples of G gets base plus a draw from [lo, hi], row by row. */
  method SeedCorners(grid: array2<real>, W: int, H: int, G: int,
                     lo: real, hi: real, base: real, rand: Random)
    returns (ghost writes: map<Cell, Write>)
    requires 0 <= W < grid.Length0 && 0 <= H < grid.Length1 && IsPow2(G)
    modifies grid, rand
    ensures forall i, j | 0 <= i < grid.Length0 && 0 <= j < grid.Length1 && !InGrid(W, H, (i, j)) :: grid[i, j] == old(grid[i, j])
    ensures forall c :: c in writes <==> InGrid(W, H, c) && OnLattice(c.0, c.1, G)
    ensures forall c | c in writes :: writes[c].offset == G && writes[c].lo == lo && writes[c].hi == hi
    ensures Consistent(grid, writes, G, base, rand, old(rand.drawn))
    ensures rand.drawn - old(rand.drawn) == |writes|
  {
    writes := map[];
    var i := 0;
    assert i % G == 0 by {
      DivModUnique(0, G, 0, 0);
    }
    while i < H + 1
      invariant 0 <= i <= H + G && i % G == 0
      invariant forall c :: c in writes <==> InGrid(W, H, c) && Swept(c, G, i, 0)
      invariant forall c | c in writes :: writes[c].offset == G && writes[c].lo == lo && writes[c].hi == hi
      invariant Consistent(grid, writes, G, base, rand, old(rand.drawn))
      invariant forall i, j | 0 <= i < grid.Length0 && 0 <= j < grid.Length1 && !InGrid(W, H, (i, j)) :: grid[i, j] == old(grid[i, j])
      invariant rand.drawn - old(rand.drawn) == |writes|
    {
      writes, i := SeedRow(grid, W, H, G, i, lo, hi, base, rand, old(rand.drawn), writes);
    }
  }

  /** The half-width of the random range in the pass with offset o, when the
      first pass (offset G / 2) uses `first` and every later pass multiplies
      the range by 0.7. */
  function PassRange(G: int, o: int, first: real): (r: real)
    requires 0 < o
    ensures 0.0 < first ==> 0.0 < r <= first
    decreases G - o
  {
    if 2 * o >= G then first else 0.7 * PassRange(G, 2 * o, first)
  }

  /** A record that covers the (W+1) x (H+1) grid holds (W+1) * (H+1)
      writes, one draw each. */
  lemma WriteCount(writes: map<Cell, Write>, W: int, H: int)
    requires 0 <= W && 0 <= H
    requires forall c :: c in writes <==> InGrid(W, H, c)
    ensures |writes| == (W + 1) * (H + 1)
  {
    CellsCount(W, H);
    assert writes.Keys == Cells(W, H);
  }
}
