/** `CustomTerrain::DiamondSquareAlgorithm`: refine a W x H buffer that wraps
    around in both directions (a torus), with a square step and a diamond
    step per halving of the step size, then copy it out into the
    (W+1) x (H+1) height map, whose last column and row repeat the first.

    The slots of the buffer that have been written are tracked in a ghost
    set: the buffer the source allocates is uninitialised, and the contracts
    show that no slot is read before it has been written. */
module DiamondSquare {
  import opened Lattice
  import opened Bits
  import opened RandomSource
  import opened MidpointDisplacement

  /** The sides for which the addressing wraps: powers of two that fit in
      the 32 bits the mask works on. */
  predicate Dims(W: int, H: int) {
    IsPow2(W) && IsPow2(H) && W <= TWO_POW_32 && H <= TWO_POW_32
  }

  lemma SlotBelow(a: int, b: int, W: int, H: int)
    requires 0 <= a < W && 0 <= b < H
    ensures 0 <= a + b * W < W * H
  {
    MulMonotone(W, 0, b);
    MulMonotone(W, b, H - 1);
  }

  /** The buffer index `(x & (W-1)) + (y & (H-1)) * W` of `Sample` and
      `SetSample`: in the W * H buffer for every x and y, negative ones
      included. */
  function Slot(x: int, y: int, W: int, H: int): (k: int)
    requires W >= 1 && H >= 1
    ensures 0 <= k < W * H
  {
    SlotBelow(Mask(x, W - 1), Mask(y, H - 1), W, H);
    Mask(x, W - 1) + Mask(y, H - 1) * W
  }

  /** For powers of two the masks are Euclidean remainders: x wraps mod W
      and y mod H. */
  lemma SlotWrap(x: int, y: int, W: int, H: int)
    requires Dims(W, H)
    ensures Slot(x, y, W, H) == x % W + (y % H) * W
  {
    MaskIsMod(x, W);
    MaskIsMod(y, H);
  }

  /** Two positions share a slot exactly when they are congruent mod W and
      mod H. */
  lemma SlotCongruent(x: int, y: int, x': int, y': int, W: int, H: int)
    requires Dims(W, H)
    ensures Slot(x, y, W, H) == Slot(x', y', W, H) <==> x % W == x' % W && y % H == y' % H
  {
    SlotWrap(x, y, W, H);
    SlotWrap(x', y', W, H);
    PlaceValue(x % W, y % H, x' % W, y' % H, W);
  }

  /** a + b * W determines a and b when both a and a' lie in [0, W). */
  lemma PlaceValue(a: int, b: int, a': int, b': int, W: int)
    requires 0 <= a < W && 0 <= a' < W
    ensures a + b * W == a' + b' * W <==> a == a' && b == b'
  {
    if a + b * W == a' + b' * W {
      DivModUnique(a + b * W, W, b, a);
      DivModUnique(a' + b' * W, W, b', a');
    }
  }

  /** The addressing is periodic: shifting x by W or y by H gives the same
      slot. */
  lemma SlotPeriodic(x: int, y: int, W: int, H: int)
    requires Dims(W, H)
    ensures Slot(x + W, y, W, H) == Slot(x, y, W, H)
    ensures Slot(x, y + H, W, H) == Slot(x, y, W, H)
  {
    ModAddMultiple(x, 1, W);
    ModAddMultiple(y, 1, H);
    SlotCongruent(x + W, y, x, y, W, H);
    SlotCongruent(x, y + H, x, y, W, H);
  }

  /** Every slot is the slot of exactly the cell (k % W, k / W) of the
      W x H torus. */
  lemma SlotOnto(k: int, W: int, H: int)
    requires Dims(W, H) && 0 <= k < W * H
    ensures 0 <= k % W < W && 0 <= k / W < H && Slot(k % W, k / W, W, H) == k
  {
    DivBelow(k, W, H);
    DivModUnique(k % W, W, 0, k % W);
    DivModUnique(k / W, H, 0, k / W);
    SlotWrap(k % W, k / W, W, H);
  }

  /** The seeded corners (0, 0), (W, 0), (0, H) and (W, H) all share slot 0. */
  lemma CornersAlias(W: int, H: int)
    requires Dims(W, H)
    ensures Slot(0, 0, W, H) == 0 && Slot(W, 0, W, H) == 0 && Slot(0, H, W, H) == 0 && Slot(W, H, W, H) == 0
  {
    SlotWrap(0, 0, W, H);
    SlotWrap(W, 0, W, H);
    SlotWrap(0, H, W, H);
    SlotWrap(W, H, W, H);
  }

  /** `Sample`: the value of the buffer at (x, y). */
  function Sample(buffer: seq<real>, x: int, y: int, W: int, H: int): real
    requires W >= 1 && H >= 1 && |buffer| == W * H
  {
    buffer[Slot(x, y, W, H)]
  }

  /** Sample is periodic in both directions. */
  lemma SamplePeriodic(buffer: seq<real>, x: int, y: int, W: int, H: int)
    requires Dims(W, H) && |buffer| == W * H
    ensures Sample(buffer, x + W, y, W, H) == Sample(buffer, x, y, W, H)
    ensures Sample(buffer, x, y + H, W, H) == Sample(buffer, x, y, W, H)
  {
    SlotPeriodic(x, y, W, H);
  }

  /** After SetSample at (x, y), Sample reads the new value at every
      position congruent to (x, y), and the old value everywhere else. */
  lemma SampleAfterSet(buffer: seq<real>, x: int, y: int, v: real, x': int, y': int, W: int, H: int)
    requires Dims(W, H) && |buffer| == W * H
    ensures Sample(buffer[Slot(x, y, W, H) := v], x', y', W, H)
            == if x % W == x' % W && y % H == y' % H then v else Sample(buffer, x', y', W, H)
  {
    SlotCongruent(x, y, x', y', W, H);
  }

  /** `SetSample`: store value in the slot of (x, y), and nowhere else. */
  method SetSample(buffer: array<real>, x: int, y: int, value: real, W: int, H: int)
    requires W >= 1 && H >= 1 && buffer.Length == W * H
    modifies buffer
    ensures buffer[..] == old(buffer[..])[Slot(x, y, W, H) := value]
  {
    buffer[Slot(x, y, W, H)] := value;
  }

  /** `SampleSquare`: the centre (x, y) of the square of side size gets the
      mean of the samples at the square's four corners plus value. The
      corners must have been written. */
  method SampleSquare(buffer: array<real>, x: int, y: int, size: int, value: real, W: int, H: int,
                      ghost written: set<int>)
    requires W >= 1 && H >= 1 && buffer.Length == W * H
    requires Slot(x - size / 2, y - size / 2, W, H) in written && Slot(x + size / 2, y - size / 2, W, H) in written
    requires Slot(x - size / 2, y + size / 2, W, H) in written && Slot(x + size / 2, y + size / 2, W, H) in written
    modifies buffer
    ensures buffer[..] == old(buffer[..])[Slot(x, y, W, H) :=
              (Sample(old(buffer[..]), x - size / 2, y - size / 2, W, H) + Sample(old(buffer[..]), x + size / 2, y - size / 2, W, H)
               + Sample(old(buffer[..]), x - size / 2, y + size / 2, W, H) + Sample(old(buffer[..]), x + size / 2, y + size / 2, W, H))
              / 4.0 + value]
  {
    var halfSize := size / 2;
    var topLeft := Sample(buffer[..], x - halfSize, y - halfSize, W, H);
    var topRight := Sample(buffer[..], x + halfSize, y - halfSize, W, H);
    var bottomLeft := Sample(buffer[..], x - halfSize, y + halfSize, W, H);
    var bottomRight := Sample(buffer[..], x + halfSize, y + halfSize, W, H);
    SetSample(buffer, x, y, (topLeft + topRight + bottomLeft + bottomRight) / 4.0 + value, W, H);
  }

  /** `SampleDiamond`: the centre (x, y) of the diamond of diagonal size
      gets the mean of the samples at the diamond's four tips plus value.
      The tips must have been written. */
  method SampleDiamond(buffer: array<real>, x: int, y: int, size: int, value: real, W: int, H: int,
                       ghost written: set<int>)
    requires W >= 1 && H >= 1 && buffer.Length == W * H
    requires Slot(x - size / 2, y, W, H) in written && Slot(x + size / 2, y, W, H) in written
    requires Slot(x, y - size / 2, W, H) in written && Slot(x, y + size / 2, W, H) in written
    modifies buffer
    ensures buffer[..] == old(buffer[..])[Slot(x, y, W, H) :=
              (Sample(old(buffer[..]), x - size / 2, y, W, H) + Sample(old(buffer[..]), x + size / 2, y, W, H)
               + Sample(old(buffer[..]), x, y - size / 2, W, H) + Sample(old(buffer[..]), x, y + size / 2, W, H))
              / 4.0 + value]
  {
    var halfSize := size / 2;
    var left := Sample(buffer[..], x - halfSize, y, W, H);
    var right := Sample(buffer[..], x + halfSize, y, W, H);
    var top := Sample(buffer[..], x, y - halfSize, W, H);
    var bottom := Sample(buffer[..], x, y + halfSize, W, H);
    SetSample(buffer, x, y, (left + right + top + bottom) / 4.0 + value, W, H);
  }

  /** The cell (x, y) has been written: its slot is in written. */
  ghost predicate Written(written: set<int>, x: int, y: int, W: int, H: int)
    requires W >= 1 && H >= 1
  {
    Slot(x, y, W, H) in written
  }

  /** The cells of the torus [0, W) x [0, H) with x = rx and y = ry mod s,
      in the rows below yEnd, have all been written. */
  ghost predicate RowsWritten(written: set<int>, s: int, rx: int, ry: int, yEnd: int, W: int, H: int)
    requires W >= 1 && H >= 1 && s > 0
  {
    forall a, b | 0 <= a < W && 0 <= b < H && a % s == rx && b % s == ry && b < yEnd :: Written(written, a, b, W, H)
  }

  /** The cells (a, y) of row y of the torus with a = rx mod s and a < xEnd
      have all been written. */
  ghost predicate ColumnsWritten(written: set<int>, s: int, rx: int, y: int, xEnd: int, W: int, H: int)
    requires W >= 1 && H >= 1 && s > 0
  {
    forall a | 0 <= a < W && a % s == rx && a < xEnd :: Written(written, a, y, W, H)
  }

  /** Every cell of the torus with x = rx and y = ry mod s has been written. */
  ghost predicate ClassWritten(written: set<int>, s: int, rx: int, ry: int, W: int, H: int)
    requires W >= 1 && H >= 1 && s > 0
  {
    RowsWritten(written, s, rx, ry, H, W, H)
  }

  /** A class written on the torus is written at every position of the
      plane in the class, however far outside [0, W) x [0, H). */
  lemma ClassRead(written: set<int>, s: int, rx: int, ry: int, W: int, H: int, a: int, b: int)
    requires Dims(W, H) && s > 0 && W % s == 0 && H % s == 0
    requires ClassWritten(written, s, rx, ry, W, H) && a % s == rx && b % s == ry
    ensures Slot(a, b, W, H) in written
  {
    SlotWrap(a, b, W, H);
    SlotWrap(a % W, b % H, W, H);
    ModOfMod(a, W, s);
    ModOfMod(b, H, s);
    DivModUnique(a % W, W, 0, a % W);
    DivModUnique(b % H, H, 0, b % H);
    assert Written(written, a % W, b % H, W, H);
  }

  /** Finishing row y extends the finished rows past it. */
  lemma RowDone(written: set<int>, s: int, rx: int, ry: int, y: int, W: int, H: int)
    requires W >= 1 && H >= 1 && s > 0 && y % s == ry
    requires RowsWritten(written, s, rx, ry, y, W, H)
    requires ColumnsWritten(written, s, rx, y, W, W, H)
    ensures RowsWritten(written, s, rx, ry, y + s, W, H)
  {
    forall a, b | 0 <= a < W && 0 <= b < H && a % s == rx && b % s == ry && y <= b < y + s
      ensures Written(written, a, b, W, H)
    {
      CongruentClose(b, y, s);
    }
  }

  /** Writing the cell x + rx of row y, x a multiple of s, finishes the
      period [x, x + s) of the row. */
  lemma ColumnStep(written: set<int>, s: int, rx: int, y: int, x: int, W: int, H: int)
    requires W >= 1 && H >= 1 && s > 0 && 0 <= rx < s && x % s == 0
    requires ColumnsWritten(written, s, rx, y, x, W, H) && Slot(x + rx, y, W, H) in written
    ensures ColumnsWritten(written, s, rx, y, x + s, W, H)
  {
    forall a | 0 <= a < W && a % s == rx && x <= a < x + s
      ensures Written(written, a, y, W, H)
    {
      ResidueStep(a, x, s, rx);
    }
  }

  /** Around a multiple x of s = 2h, the cells h away have residue h and
      the next multiple is x + s. */
  lemma AroundMultiple(x: int, s: int, h: int)
    requires h > 0 && s == 2 * h && x % s == 0
    ensures (x + h) % s == h && (x - h) % s == h && (x + s) % s == 0
  {
    var q := x / s;
    assert x == s * q;
    DivModUnique(x + h, s, q, h);
    DivModUnique(x - h, s, q - 1, h);
    DivModUnique(x + s, s, q + 1, 0);
  }

  /** Around a cell x of residue h mod s = 2h, the cells h away are
      multiples of s, and so is x + s - h. */
  lemma AroundCentre(x: int, s: int, h: int)
    requires h > 0 && s == 2 * h && x % s == h
    ensures (x - h) % s == 0 && (x + h) % s == 0 && (x + s) % s == h
  {
    var q := x / s;
    assert x == s * q + h;
    DivModUnique(x - h, s, q, 0);
    DivModUnique(x + h, s, q + 1, 0);
    DivModUnique(x + s, s, q + 1, h);
  }

  /** A multiple of h is congruent to 0 or to h mod 2h. */
  lemma HalfResidue(a: int, h: int)
    requires h > 0 && a % h == 0
    ensures a % (2 * h) == 0 || a % (2 * h) == h
  {
    if IsOdd(a, h) {
      OddMultiple(a, h);
    } else {
      EvenMultiple(a, h);
    }
  }

  /** Once the four classes of step s are written, so is lattice s / 2. */
  lemma Refined(written: set<int>, s: int, W: int, H: int)
    requires W >= 1 && H >= 1 && s >= 2 && s % 2 == 0
    requires ClassWritten(written, s, 0, 0, W, H) && ClassWritten(written, s, s / 2, 0, W, H)
    requires ClassWritten(written, s, 0, s / 2, W, H) && ClassWritten(written, s, s / 2, s / 2, W, H)
    ensures ClassWritten(written, s / 2, 0, 0, W, H)
  {
    forall a, b | 0 <= a < W && 0 <= b < H && a % (s / 2) == 0 && b % (s / 2) == 0
      ensures Written(written, a, b, W, H)
    {
      HalfResidue(a, s / 2);
      HalfResidue(b, s / 2);
    }
  }

  /** Once lattice 1 is written, so is every slot of the buffer. */
  lemma AllWritten(written: set<int>, W: int, H: int)
    requires Dims(W, H) && ClassWritten(written, 1, 0, 0, W, H)
    ensures forall k | 0 <= k < W * H :: k in written
  {
    forall k | 0 <= k < W * H
      ensures k in written
    {
      SlotOnto(k, W, H);
      assert Written(written, k % W, k / W, W, H);
    }
  }

  /** The corners of a square of the step s centred on a cell with both
      coordinates h = s / 2 mod s are on lattice s, so they have been
      written. */
  lemma SquareReads(written: set<int>, s: int, x: int, y: int, W: int, H: int)
    requires Dims(W, H) && IsPow2(s) && s >= 2 && W % s == 0 && H % s == 0
    requires x % s == s / 2 && y % s == s / 2
    requires ClassWritten(written, s, 0, 0, W, H)
    ensures Slot(x - s / 2, y - s / 2, W, H) in written && Slot(x + s / 2, y - s / 2, W, H) in written
    ensures Slot(x - s / 2, y + s / 2, W, H) in written && Slot(x + s / 2, y + s / 2, W, H) in written
  {
    var h := s / 2;
    AroundCentre(x, s, h);
    AroundCentre(y, s, h);
    ClassRead(written, s, 0, 0, W, H, x - h, y - h);
    ClassRead(written, s, 0, 0, W, H, x + h, y - h);
    ClassRead(written, s, 0, 0, W, H, x - h, y + h);
    ClassRead(written, s, 0, 0, W, H, x + h, y + h);
  }

  /** The tips of a diamond of the step s centred on a cell with one
      coordinate h = s / 2 mod s and the other a multiple of s are on
      lattice s or are square centres, so they have been written. */
  lemma DiamondReads(written: set<int>, s: int, x: int, y: int, W: int, H: int)
    requires Dims(W, H) && IsPow2(s) && s >= 2 && W % s == 0 && H % s == 0
    requires (x % s == s / 2 && y % s == 0) || (x % s == 0 && y % s == s / 2)
    requires ClassWritten(written, s, 0, 0, W, H) && ClassWritten(written, s, s / 2, s / 2, W, H)
    ensures Slot(x - s / 2, y, W, H) in written && Slot(x + s / 2, y, W, H) in written
    ensures Slot(x, y - s / 2, W, H) in written && Slot(x, y + s / 2, W, H) in written
  {
    var h := s / 2;
    if x % s == h {
      AroundCentre(x, s, h);
      AroundMultiple(y, s, h);
      ClassRead(written, s, 0, 0, W, H, x - h, y);
      ClassRead(written, s, 0, 0, W, H, x + h, y);
      ClassRead(written, s, h, h, W, H, x, y - h);
      ClassRead(written, s, h, h, W, H, x, y + h);
    } else {
      AroundMultiple(x, s, h);
      AroundCentre(y, s, h);
      ClassRead(written, s, h, h, W, H, x - h, y);
      ClassRead(written, s, h, h, W, H, x + h, y);
      ClassRead(written, s, 0, 0, W, H, x, y - h);
      ClassRead(written, s, 0, 0, W, H, x, y + h);
    }
  }

  /** How a slot of the buffer was last written: as a seed of the lattice,
      as the centre of a square, or as the centre of a diamond. */
  datatype Kind = Seeded | SquareCentre | DiamondCentre

  /** The last write of a slot: how it was made, the cell (x, y) it
      addressed before wrapping, the step size of its square or diamond,
      and the index of the draw it consumed. */
  datatype Entry = Entry(kind: Kind, x: int, y: int, size: int, draw: nat)

  /** The cells a write read: the corners of its square or the tips of its
      diamond, size / 2 away from (x, y); a seed reads nothing. */
  function Reads(e: Entry): (ps: seq<Cell>)
    ensures |ps| == if e.kind == Seeded then 0 else 4
  {
    var h := e.size / 2;
    match e.kind
    case Seeded => []
    case SquareCentre => [(e.x - h, e.y - h), (e.x + h, e.y - h), (e.x - h, e.y + h), (e.x + h, e.y + h)]
    case DiamondCentre => [(e.x - h, e.y), (e.x + h, e.y), (e.x, e.y - h), (e.x, e.y + h)]
  }

  /** The value write e stores, given the buffer it reads: a seed stores
      its draw from [lo, hi]; a square or diamond centre stores the mean of
      the four cells it reads plus its draw scaled by size / G, the scale of
      its step. */
  function Expected(buffer: seq<real>, e: Entry, G: int, lo: real, hi: real, rand: Random, W: int, H: int): real
    requires W >= 1 && H >= 1 && |buffer| == W * H && G > 0
  {
    if e.kind == Seeded then rand.Sample(e.draw, lo, hi)
    else
      var ps := Reads(e);
      (Sample(buffer, ps[0].0, ps[0].1, W, H) + Sample(buffer, ps[1].0, ps[1].1, W, H)
       + Sample(buffer, ps[2].0, ps[2].1, W, H) + Sample(buffer, ps[3].0, ps[3].1, W, H)) / 4.0
      + Displacement(rand.Sample(e.draw, lo, hi), G, e.size)
  }

  /** What a square centre computes: the mean of the corners of its
      square plus its draw scaled for its step. */
  lemma ExpectedSquare(buffer: seq<real>, e: Entry, G: int, lo: real, hi: real, rand: Random, W: int, H: int)
    requires W >= 1 && H >= 1 && |buffer| == W * H && G > 0 && e.kind == SquareCentre
    ensures Expected(buffer, e, G, lo, hi, rand, W, H)
            == (Sample(buffer, e.x - e.size / 2, e.y - e.size / 2, W, H) + Sample(buffer, e.x + e.size / 2, e.y - e.size / 2, W, H)
                + Sample(buffer, e.x - e.size / 2, e.y + e.size / 2, W, H) + Sample(buffer, e.x + e.size / 2, e.y + e.size / 2, W, H))
               / 4.0 + Displacement(rand.Sample(e.draw, lo, hi), G, e.size)
  {
    var h := e.size / 2;
    assert Reads(e) == [(e.x - h, e.y - h), (e.x + h, e.y - h), (e.x - h, e.y + h), (e.x + h, e.y + h)];
  }

  /** What a diamond centre computes: the mean of the tips of its diamond
      plus its draw scaled for its step. */
  lemma ExpectedDiamond(buffer: seq<real>, e: Entry, G: int, lo: real, hi: real, rand: Random, W: int, H: int)
    requires W >= 1 && H >= 1 && |buffer| == W * H && G > 0 && e.kind == DiamondCentre
    ensures Expected(buffer, e, G, lo, hi, rand, W, H)
            == (Sample(buffer, e.x - e.size / 2, e.y, W, H) + Sample(buffer, e.x + e.size / 2, e.y, W, H)
                + Sample(buffer, e.x, e.y - e.size / 2, W, H) + Sample(buffer, e.x, e.y + e.size / 2, W, H))
               / 4.0 + Displacement(rand.Sample(e.draw, lo, hi), G, e.size)
  {
    var h := e.size / 2;
    assert Reads(e) == [(e.x - h, e.y), (e.x + h, e.y), (e.x, e.y - h), (e.x, e.y + h)];
  }

  /** The last write of slot k. */
  ghost function EntryAt(rec: map<int, Entry>, k: int): Entry
    requires k in rec
  {
    rec[k]
  }

  /** The draw the last write of slot k consumed. */
  ghost function EntryDraw(rec: map<int, Entry>, k: int): nat
    requires k in rec
  {
    rec[k].draw
  }

  /** The record of the last write of each written slot agrees with the
      buffer: every entry addresses its own slot, the buffer holds in that
      slot what the entry computes from the buffer as it now is, and the
      draws are distinct and were all consumed in [d0, d1). */
  ghost predicate Consistent(rec: map<int, Entry>, buffer: seq<real>, G: int, lo: real, hi: real, rand: Random,
                             W: int, H: int, d0: nat, d1: nat)
    requires W >= 1 && H >= 1 && |buffer| == W * H && G > 0
  {
    && d0 <= d1
    && (forall k {:trigger EntryAt(rec, k)} | k in rec ::
          && Slot(EntryAt(rec, k).x, EntryAt(rec, k).y, W, H) == k
          && 0 <= k < W * H && buffer[k] == Expected(buffer, EntryAt(rec, k), G, lo, hi, rand, W, H)
          && d0 <= EntryAt(rec, k).draw < d1)
    && (forall k, k' {:trigger EntryDraw(rec, k), EntryDraw(rec, k')} | k in rec && k' in rec && k != k' ::
          EntryDraw(rec, k) != EntryDraw(rec, k'))
  }

  /** No recorded write read slot k. */
  ghost predicate Unread(rec: map<int, Entry>, k: int, W: int, H: int)
    requires W >= 1 && H >= 1
  {
    forall j, i | j in rec && 0 <= i < |Reads(rec[j])| :: Slot(Reads(rec[j])[i].0, Reads(rec[j])[i].1, W, H) != k
  }

  /** Cell c is on lattice s or, when centres holds, a centre of step s
      (both coordinates s / 2 mod s). */
  predicate Coarse(c: Cell, s: int, centres: bool)
    requires s > 0
  {
    (c.0 % s == 0 && c.1 % s == 0) || (centres && c.0 % s == s / 2 && c.1 % s == s / 2)
  }

  /** Every recorded write read only cells that are Coarse for s. */
  ghost predicate ReadsOn(rec: map<int, Entry>, s: int, centres: bool)
    requires s > 0
  {
    forall j, i | j in rec && 0 <= i < |Reads(rec[j])| :: Coarse(Reads(rec[j])[i], s, centres)
  }

  /** The value the buffer holds in slot k. */
  ghost function Held(buffer: seq<real>, k: int): real
    requires 0 <= k < |buffer|
  {
    buffer[k]
  }

  /** Between two states of the buffer and its record, exactly the slots in
      touched were written: every other slot keeps its value and its entry. */
  ghost predicate Framed(buffer0: seq<real>, buffer: seq<real>, rec0: map<int, Entry>, rec: map<int, Entry>, touched: set<int>) {
    && |buffer| == |buffer0|
    && rec.Keys == rec0.Keys + touched
    && (forall k {:trigger EntryAt(rec, k)} | k in rec0 && k !in touched :: EntryAt(rec, k) == EntryAt(rec0, k))
    && (forall k {:trigger Held(buffer, k)} | 0 <= k < |buffer| && k !in touched :: Held(buffer, k) == Held(buffer0, k))
  }

  /** Where a write of each kind lies: a seed on the lattice of its step;
      the centre of a square of step s, a power of two s >= 2, at s / 2 mod
      s in both coordinates; the centre of a diamond at s / 2 mod s in one
      coordinate and at 0 mod s in the other. */
  predicate Placed(e: Entry) {
    match e.kind
    case Seeded => e.size > 0 && e.x % e.size == 0 && e.y % e.size == 0
    case SquareCentre =>
      IsPow2(e.size) && e.size >= 2 && e.x % e.size == e.size / 2 && e.y % e.size == e.size / 2
    case DiamondCentre =>
      && IsPow2(e.size) && e.size >= 2
      && ((e.x % e.size == e.size / 2 && e.y % e.size == 0) || (e.x % e.size == 0 && e.y % e.size == e.size / 2))
  }

  /** Every slot in touched was last written by a write of one of kinds,
      placed as its kind demands, with a step size in [smallest, largest],
      using a draw from d on. */
  ghost predicate Stamped(rec: map<int, Entry>, touched: set<int>, kinds: set<Kind>, smallest: int, largest: int, d: nat) {
    && touched <= rec.Keys
    && forall k {:trigger EntryAt(rec, k)} | k in touched && k in rec ::
         && EntryAt(rec, k).kind in kinds && Placed(EntryAt(rec, k))
         && smallest <= EntryAt(rec, k).size <= largest && d <= EntryAt(rec, k).draw
  }

  /** Two cells that share a slot are congruent mod every s dividing W and H. */
  lemma SlotResidue(a: int, b: int, c: int, d: int, s: int, W: int, H: int)
    requires Dims(W, H) && s > 0 && W % s == 0 && H % s == 0
    ensures Slot(a, b, W, H) == Slot(c, d, W, H) ==> a % s == c % s && b % s == d % s
  {
    SlotCongruent(a, b, c, d, W, H);
    ModOfMod(a, W, s);
    ModOfMod(c, W, s);
    ModOfMod(b, H, s);
    ModOfMod(d, H, s);
  }

  /** A cell that is not Coarse for s shares its slot with no cell a write
      that reads only Coarse cells has read. */
  lemma Unreached(rec: map<int, Entry>, s: int, centres: bool, x: int, y: int, W: int, H: int)
    requires Dims(W, H) && s > 0 && W % s == 0 && H % s == 0
    requires ReadsOn(rec, s, centres) && !Coarse((x, y), s, centres)
    ensures Unread(rec, Slot(x, y, W, H), W, H)
  {
    forall j, i | j in rec && 0 <= i < |Reads(rec[j])|
      ensures Slot(Reads(rec[j])[i].0, Reads(rec[j])[i].1, W, H) != Slot(x, y, W, H)
    {
      var p := Reads(rec[j])[i];
      assert Coarse(p, s, centres);
      SlotResidue(p.0, p.1, x, y, s, W, H);
    }
  }

  /** What a write computes does not depend on slots it does not read. */
  lemma ExpectedFrame(buffer: seq<real>, e: Entry, k: int, v: real, G: int, lo: real, hi: real, rand: Random, W: int, H: int)
    requires W >= 1 && H >= 1 && |buffer| == W * H && G > 0 && 0 <= k < W * H
    requires forall i | 0 <= i < |Reads(e)| :: Slot(Reads(e)[i].0, Reads(e)[i].1, W, H) != k
    ensures Expected(buffer[k := v], e, G, lo, hi, rand, W, H) == Expected(buffer, e, G, lo, hi, rand, W, H)
  {
    if e.kind != Seeded {
      var ps := Reads(e);
      assert Slot(ps[0].0, ps[0].1, W, H) != k && Slot(ps[1].0, ps[1].1, W, H) != k;
      assert Slot(ps[2].0, ps[2].1, W, H) != k && Slot(ps[3].0, ps[3].1, W, H) != k;
    }
  }

  /** Storing in slot k = Slot(e.x, e.y) the value v that write e computes,
      with the next draw d1, keeps the record consistent, provided no
      write, e included, reads slot k. The entry e replaces the one k had. */
  lemma Put(rec: map<int, Entry>, buffer: seq<real>, e: Entry, v: real, G: int, lo: real, hi: real, rand: Random,
            W: int, H: int, d0: nat, d1: nat)
    requires W >= 1 && H >= 1 && |buffer| == W * H && G > 0
    requires Consistent(rec, buffer, G, lo, hi, rand, W, H, d0, d1)
    requires e.draw == d1 && Unread(rec[Slot(e.x, e.y, W, H) := e], Slot(e.x, e.y, W, H), W, H)
    requires v == Expected(buffer, e, G, lo, hi, rand, W, H)
    ensures Consistent(rec[Slot(e.x, e.y, W, H) := e], buffer[Slot(e.x, e.y, W, H) := v], G, lo, hi, rand, W, H, d0, d1 + 1)
  {
    var k := Slot(e.x, e.y, W, H);
    var rec', buffer' := rec[k := e], buffer[k := v];
    forall j | j in rec'
      ensures Slot(EntryAt(rec', j).x, EntryAt(rec', j).y, W, H) == j && d0 <= EntryAt(rec', j).draw < d1 + 1
      ensures 0 <= j < W * H && buffer'[j] == Expected(buffer', EntryAt(rec', j), G, lo, hi, rand, W, H)
    {
      if j != k {
        assert EntryAt(rec, j) == EntryAt(rec', j);
      }
      ExpectedFrame(buffer, rec'[j], k, v, G, lo, hi, rand, W, H);
    }
    forall j, j' | j in rec' && j' in rec' && j != j'
      ensures EntryDraw(rec', j) != EntryDraw(rec', j')
    {
      if j != k && j' != k {
        assert EntryDraw(rec, j) != EntryDraw(rec, j');
      } else if j == k {
        assert EntryAt(rec, j').draw < d1;
      } else {
        assert EntryAt(rec, j).draw < d1;
      }
    }
  }

  /** The centre (x, y) of a square of step s, both coordinates s / 2 mod
      s, reads lattice s only; with every other write reading lattice s
      only, no write reads its slot. */
  lemma SquareEntry(rec: map<int, Entry>, e: Entry, W: int, H: int)
    requires Dims(W, H) && e.size >= 2 && e.size % 2 == 0 && W % e.size == 0 && H % e.size == 0
    requires e.kind == SquareCentre && e.x % e.size == e.size / 2 && e.y % e.size == e.size / 2
    requires ReadsOn(rec, e.size, false)
    ensures ReadsOn(rec[Slot(e.x, e.y, W, H) := e], e.size, false)
    ensures Unread(rec[Slot(e.x, e.y, W, H) := e], Slot(e.x, e.y, W, H), W, H)
  {
    var s, h := e.size, e.size / 2;
    AroundCentre(e.x, s, h);
    AroundCentre(e.y, s, h);
    var ps := Reads(e);
    assert Coarse(ps[0], s, false) && Coarse(ps[1], s, false) && Coarse(ps[2], s, false) && Coarse(ps[3], s, false);
    Unreached(rec[Slot(e.x, e.y, W, H) := e], s, false, e.x, e.y, W, H);
  }

  /** The centre (x, y) of a diamond of step s, one coordinate s / 2 mod s
      and the other a multiple of s, reads lattice s and centres of step s
      only; with every other write reading those only, no write reads its
      slot. */
  lemma DiamondEntry(rec: map<int, Entry>, e: Entry, W: int, H: int)
    requires Dims(W, H) && e.size >= 2 && e.size % 2 == 0 && W % e.size == 0 && H % e.size == 0
    requires e.kind == DiamondCentre
    requires (e.x % e.size == e.size / 2 && e.y % e.size == 0) || (e.x % e.size == 0 && e.y % e.size == e.size / 2)
    requires ReadsOn(rec, e.size, true)
    ensures ReadsOn(rec[Slot(e.x, e.y, W, H) := e], e.size, true)
    ensures Unread(rec[Slot(e.x, e.y, W, H) := e], Slot(e.x, e.y, W, H), W, H)
  {
    var s, h := e.size, e.size / 2;
    if e.x % s == h {
      AroundCentre(e.x, s, h);
      AroundMultiple(e.y, s, h);
    } else {
      AroundMultiple(e.x, s, h);
      AroundCentre(e.y, s, h);
    }
    var ps := Reads(e);
    assert Coarse(ps[0], s, true) && Coarse(ps[1], s, true) && Coarse(ps[2], s, true) && Coarse(ps[3], s, true);
    Unreached(rec[Slot(e.x, e.y, W, H) := e], s, true, e.x, e.y, W, H);
  }

  /** While only seeds are recorded, nothing has been read. */
  lemma SeedEntry(rec: map<int, Entry>, e: Entry, W: int, H: int, G: int, d: nat)
    requires W >= 1 && H >= 1 && e.kind == Seeded
    requires Stamped(rec, rec.Keys, {Seeded}, G, G, d)
    ensures Unread(rec[Slot(e.x, e.y, W, H) := e], Slot(e.x, e.y, W, H), W, H)
  {
    var rec' := rec[Slot(e.x, e.y, W, H) := e];
    forall j | j in rec'
      ensures |Reads(rec'[j])| == 0
    {
      if j in rec && j != Slot(e.x, e.y, W, H) {
        assert EntryAt(rec, j).kind in {Seeded};
      }
    }
  }

  /** Seeds read nothing, so they read only lattice G. */
  lemma SeedsReadNothing(rec: map<int, Entry>, G: int, d: nat)
    requires G > 0 && Stamped(rec, rec.Keys, {Seeded}, G, G, d)
    ensures ReadsOn(rec, G, false)
  {
    forall j | j in rec
      ensures |Reads(rec[j])| == 0
    {
      assert EntryAt(rec, j).kind in {Seeded};
    }
  }

  /** A seed stamped like the seeds before it keeps the whole record
      stamped as seeds. */
  lemma SeedStamped(rec: map<int, Entry>, k: int, e: Entry, G: int, d: nat)
    requires Stamped(rec, rec.Keys, {Seeded}, G, G, d)
    requires e.kind == Seeded && e.size == G && d <= e.draw && Placed(e)
    ensures Stamped(rec[k := e], rec[k := e].Keys, {Seeded}, G, G, d)
  {
    var rec' := rec[k := e];
    forall j | j in rec'
      ensures EntryAt(rec', j).kind in {Seeded} && Placed(EntryAt(rec', j))
      ensures G <= EntryAt(rec', j).size <= G && d <= EntryAt(rec', j).draw
    {
      if j != k {
        assert EntryAt(rec, j).kind in {Seeded};
      }
    }
  }

  /** Reading only lattice s and the centres of step s is reading only
      lattice s / 2. */
  lemma ReadsHalve(rec: map<int, Entry>, s: int)
    requires s >= 2 && s % 2 == 0 && ReadsOn(rec, s, true)
    ensures ReadsOn(rec, s / 2, false)
  {
    forall j, i | j in rec && 0 <= i < |Reads(rec[j])|
      ensures Coarse(Reads(rec[j])[i], s / 2, false)
    {
      var p := Reads(rec[j])[i];
      assert Coarse(p, s, true);
      HalfOfResidue(p.0, s / 2);
      HalfOfResidue(p.1, s / 2);
    }
  }

  /** A residue 0 or h mod 2h is a multiple of h. */
  lemma HalfOfResidue(a: int, h: int)
    requires h > 0 && (a % (2 * h) == 0 || a % (2 * h) == h)
    ensures a % h == 0
  {
    var q := a / (2 * h);
    if a % (2 * h) == 0 {
      assert a == h * (2 * q);
      DivModUnique(a, h, 2 * q, 0);
    } else {
      assert a == h * (2 * q + 1);
      DivModUnique(a, h, 2 * q + 1, 0);
    }
  }

  /** Reading only lattice s is reading only lattice s and its centres. */
  lemma ReadsWiden(rec: map<int, Entry>, s: int)
    requires s > 0 && ReadsOn(rec, s, false)
    ensures ReadsOn(rec, s, true)
  {
  }

  /** Two frames in a row make one, touching the slots of both. */
  lemma FramedTrans(buffer0: seq<real>, buffer1: seq<real>, buffer2: seq<real>,
                    rec0: map<int, Entry>, rec1: map<int, Entry>, rec2: map<int, Entry>, touched1: set<int>, touched2: set<int>)
    requires Framed(buffer0, buffer1, rec0, rec1, touched1) && Framed(buffer1, buffer2, rec1, rec2, touched2)
    ensures Framed(buffer0, buffer2, rec0, rec2, touched1 + touched2)
  {
    forall k | k in rec0 && k !in touched1 + touched2
      ensures EntryAt(rec2, k) == EntryAt(rec0, k)
    {
      assert EntryAt(rec2, k) == EntryAt(rec1, k) == EntryAt(rec0, k);
    }
    forall k | 0 <= k < |buffer2| && k !in touched1 + touched2
      ensures Held(buffer2, k) == Held(buffer0, k)
    {
      assert Held(buffer2, k) == Held(buffer1, k) == Held(buffer0, k);
    }
  }

  /** Stamps survive a later frame that stamps the slots it touches alike. */
  lemma StampedTrans(rec1: map<int, Entry>, rec2: map<int, Entry>, touched1: set<int>, touched2: set<int>,
                     buffer1: seq<real>, buffer2: seq<real>, kinds: set<Kind>, smallest: int, largest: int, d: nat)
    requires Stamped(rec1, touched1, kinds, smallest, largest, d) && Framed(buffer1, buffer2, rec1, rec2, touched2)
    requires Stamped(rec2, touched2, kinds, smallest, largest, d)
    ensures Stamped(rec2, touched1 + touched2, kinds, smallest, largest, d)
  {
    forall k | k in touched1 + touched2
      ensures EntryAt(rec2, k).kind in kinds && Placed(EntryAt(rec2, k))
      ensures smallest <= EntryAt(rec2, k).size <= largest && d <= EntryAt(rec2, k).draw
    {
      if k !in touched2 {
        assert EntryAt(rec1, k).kind in kinds;
        assert EntryAt(rec2, k) == EntryAt(rec1, k);
      } else {
        assert EntryAt(rec2, k).kind in kinds;
      }
    }
  }

  /** Stamps can be read with more kinds, a wider range of sizes and an
      earlier first draw. */
  lemma StampedWeaken(rec: map<int, Entry>, touched: set<int>, kinds: set<Kind>, smallest: int, largest: int, d: nat,
                      kinds': set<Kind>, smallest': int, largest': int, d': nat)
    requires Stamped(rec, touched, kinds, smallest, largest, d)
    requires kinds <= kinds' && smallest' <= smallest && largest <= largest' && d' <= d
    ensures Stamped(rec, touched, kinds', smallest', largest', d')
  {
    forall k | k in touched
      ensures EntryAt(rec, k).kind in kinds' && Placed(EntryAt(rec, k))
      ensures smallest' <= EntryAt(rec, k).size <= largest' && d' <= EntryAt(rec, k).draw
    {
      assert EntryAt(rec, k).kind in kinds;
    }
  }

  /** A stretch of the algorithm: exactly the slots in touched were
      written, each last by a write of one of kinds with a step size in
      [smallest, largest] and a draw from d on. */
  ghost predicate Stretch(buffer0: seq<real>, buffer: seq<real>, rec0: map<int, Entry>, rec: map<int, Entry>, touched: set<int>,
                          kinds: set<Kind>, smallest: int, largest: int, d: nat) {
    Framed(buffer0, buffer, rec0, rec, touched) && Stamped(rec, touched, kinds, smallest, largest, d)
  }

  /** Nothing written is a stretch. */
  lemma StretchEmpty(buffer: seq<real>, rec: map<int, Entry>, kinds: set<Kind>, smallest: int, largest: int, d: nat)
    ensures Stretch(buffer, buffer, rec, rec, {}, kinds, smallest, largest, d)
  {
    assert rec.Keys + {} == rec.Keys;
  }

  /** Writing the value v and entry e to slot k is a stretch touching k. */
  lemma StretchPut(buffer: seq<real>, rec: map<int, Entry>, k: int, e: Entry, v: real, kinds: set<Kind>, d: nat)
    requires 0 <= k < |buffer| && e.kind in kinds && Placed(e) && d <= e.draw
    ensures Stretch(buffer, buffer[k := v], rec, rec[k := e], {k}, kinds, e.size, e.size, d)
  {
    forall j | j in rec && j !in {k}
      ensures EntryAt(rec[k := e], j) == EntryAt(rec, j)
    {
    }
    forall j | 0 <= j < |buffer| && j !in {k}
      ensures Held(buffer[k := v], j) == Held(buffer, j)
    {
    }
    assert EntryAt(rec[k := e], k) == e;
  }

  /** Two stretches in a row make one, touching the slots of both, under
      stamps that cover the stamps of both. */
  lemma StretchTrans(buffer0: seq<real>, buffer1: seq<real>, buffer2: seq<real>,
                     rec0: map<int, Entry>, rec1: map<int, Entry>, rec2: map<int, Entry>, touched1: set<int>, touched2: set<int>,
                     kinds: set<Kind>, smallest: int, largest: int, d: nat,
                     kinds1: set<Kind>, smallest1: int, largest1: int, d1: nat,
                     kinds2: set<Kind>, smallest2: int, largest2: int, d2: nat)
    requires Stretch(buffer0, buffer1, rec0, rec1, touched1, kinds1, smallest1, largest1, d1)
    requires Stretch(buffer1, buffer2, rec1, rec2, touched2, kinds2, smallest2, largest2, d2)
    requires kinds1 <= kinds && smallest <= smallest1 && largest1 <= largest && d <= d1
    requires kinds2 <= kinds && smallest <= smallest2 && largest2 <= largest && d <= d2
    ensures Stretch(buffer0, buffer2, rec0, rec2, touched1 + touched2, kinds, smallest, largest, d)
  {
    FramedTrans(buffer0, buffer1, buffer2, rec0, rec1, rec2, touched1, touched2);
    StampedWeaken(rec1, touched1, kinds1, smallest1, largest1, d1, kinds, smallest, largest, d);
    StampedWeaken(rec2, touched2, kinds2, smallest2, largest2, d2, kinds, smallest, largest, d);
    StampedTrans(rec1, rec2, touched1, touched2, buffer1, buffer2, kinds, smallest, largest, d);
  }
  /** Two stretches of the same kinds and sizes, the second drawing from
      d2 >= d, make one. */
  lemma StretchChain(buffer0: seq<real>, buffer1: seq<real>, buffer2: seq<real>,
                     rec0: map<int, Entry>, rec1: map<int, Entry>, rec2: map<int, Entry>, touched1: set<int>, touched2: set<int>,
                     kinds: set<Kind>, smallest: int, largest: int, d: nat, d2: nat)
    requires Stretch(buffer0, buffer1, rec0, rec1, touched1, kinds, smallest, largest, d)
    requires Stretch(buffer1, buffer2, rec1, rec2, touched2, kinds, smallest, largest, d2) && d <= d2
    ensures Stretch(buffer0, buffer2, rec0, rec2, touched1 + touched2, kinds, smallest, largest, d)
  {
    StretchTrans(buffer0, buffer1, buffer2, rec0, rec1, rec2, touched1, touched2,
                 kinds, smallest, largest, d, kinds, smallest, largest, d, kinds, smallest, largest, d2);
  }


  /** The n-th round of a loop over the multiples of s is a multiple of s. */
  lemma {:induction false} RoundsMultiple(s: int, n: nat)
    requires s > 0
    ensures Rounds(s, n) % s == 0
  {
    RoundsIsProduct(s, n);
    DivModUnique(s * n, s, n, 0);
  }

  /** A loop over the multiples of s, shifted by a fixed residue, while
      n * s <= W, stops after W / s + 1 rounds. */
  lemma RoundCount(n: nat, s: int, W: int)
    requires s > 0 && W >= 0 && W % s == 0 && W < Rounds(s, n) <= W + s
    ensures n == W / s + 1
  {
    RoundsIsProduct(s, n);
    var m := W / s;
    assert W == s * m;
    if n <= m {
      MulMonotone(s, n, m);
    }
    if n >= m + 2 {
      MulMonotone(s, m + 2, n);
    }
  }

  /** The number of cells (x, y) of the (W+1) x (H+1) map with x and y
      multiples of s: the draws of the seeding with step s, and a third of
      those of one DiamondSquareCore of step s. */
  function Positions(s: int, W: int, H: int): int
    requires s > 0 && W >= 0 && H >= 0
  {
    Rounds(W / s + 1, H / s + 1)
  }

  /** The draws of n rounds of a draws each, counted round by round. */
  function Rounds(a: int, n: nat): int
  {
    if n == 0 then 0 else Rounds(a, n - 1) + a
  }

  /** n rounds of a draws are a * n draws. */
  lemma {:induction false} RoundsIsProduct(a: int, n: nat)
    ensures Rounds(a, n) == a * n
  {
    if n > 0 {
      RoundsIsProduct(a, n - 1);
    }
  }

  /** A loop over the rows y = r, r + s, ... while y < H + 1 + r, drawing
      once per column of the step, has drawn once per cell of the step. */
  lemma RoundsDone(n: nat, s: int, W: int, H: int)
    requires s > 0 && W >= 0 && H >= 0 && H % s == 0 && H < Rounds(s, n) <= H + s
    ensures Rounds(W / s + 1, n) == Positions(s, W, H)
  {
    RoundCount(n, s, H);
  }

  /** One seeding pass, or each of the three passes of a step s, draws once
      per cell of the (W+1) x (H+1) map with both coordinates multiples of
      s, and so at least once. */
  lemma PositionsIsProduct(s: int, W: int, H: int)
    requires s > 0 && W >= 0 && H >= 0
    ensures Positions(s, W, H) == (W / s + 1) * (H / s + 1) >= 1
  {
    RoundsIsProduct(W / s + 1, H / s + 1);
    MulMonotone(W / s + 1, 1, H / s + 1);
  }

  /** Every pass draws at least once. */
  lemma PositionsPositive(s: int, W: int, H: int)
    requires s > 0 && W >= 0 && H >= 0
    ensures Positions(s, W, H) >= 1
  {
    PositionsIsProduct(s, W, H);
  }

  /** The draws consumed by DiamondSquareCore over the steps in steps. */
  function StepDraws(steps: seq<int>, W: int, H: int): int
    requires W >= 0 && H >= 0 && forall i | 0 <= i < |steps| :: steps[i] > 0
  {
    if |steps| == 0 then 0 else StepDraws(steps[..|steps| - 1], W, H) + 3 * Positions(steps[|steps| - 1], W, H)
  }

  /** One more step adds its three passes of draws. */
  lemma StepDrawsAppend(steps: seq<int>, s: int, W: int, H: int)
    requires W >= 0 && H >= 0 && (forall i | 0 <= i < |steps| :: steps[i] > 0) && s > 0
    ensures StepDraws(steps + [s], W, H) == StepDraws(steps, W, H) + 3 * Positions(s, W, H)
  {
    assert (steps + [s])[..|steps|] == steps;
  }

  /** Writing the centre of the square e: the slot of (e.x, e.y) gets the
      mean of the square's corners plus the draw r times the scale of the
      step, which keeps the record consistent with e as the slot's entry. */
  lemma SquareWrite(rec: map<int, Entry>, before: seq<real>, after: seq<real>, e: Entry, r: real, scale: real,
                    G: int, lo: real, hi: real, rand: Random, W: int, H: int, d0: nat)
    requires Dims(W, H) && |before| == W * H && G > 0
    requires e.kind == SquareCentre && IsPow2(e.size) && e.size >= 2 && e.size % 2 == 0 && W % e.size == 0 && H % e.size == 0
    requires e.x % e.size == e.size / 2 && e.y % e.size == e.size / 2
    requires Consistent(rec, before, G, lo, hi, rand, W, H, d0, e.draw) && ReadsOn(rec, e.size, false)
    requires r == rand.Sample(e.draw, lo, hi) && scale == StepScale(G, e.size)
    requires after == before[Slot(e.x, e.y, W, H) :=
              (Sample(before, e.x - e.size / 2, e.y - e.size / 2, W, H) + Sample(before, e.x + e.size / 2, e.y - e.size / 2, W, H)
               + Sample(before, e.x - e.size / 2, e.y + e.size / 2, W, H) + Sample(before, e.x + e.size / 2, e.y + e.size / 2, W, H))
              / 4.0 + r * scale]
    ensures Consistent(rec[Slot(e.x, e.y, W, H) := e], after, G, lo, hi, rand, W, H, d0, e.draw + 1)
    ensures ReadsOn(rec[Slot(e.x, e.y, W, H) := e], e.size, false)
    ensures Stretch(before, after, rec, rec[Slot(e.x, e.y, W, H) := e], {Slot(e.x, e.y, W, H)}, {SquareCentre}, e.size, e.size, e.draw)
  {
    var k := Slot(e.x, e.y, W, H);
    SquareEntry(rec, e, W, H);
    ScaledDraw(r, scale, G, e.size);
    ExpectedSquare(before, e, G, lo, hi, rand, W, H);
    Put(rec, before, e, after[k], G, lo, hi, rand, W, H, d0, e.draw);
    StretchPut(before, rec, k, e, after[k], {SquareCentre}, e.draw);
  }

  /** Writing the centre of the diamond e: the slot of (e.x, e.y) gets the
      mean of the diamond's tips plus the draw r times the scale of the
      step, which keeps the record consistent with e as the slot's entry. */
  lemma DiamondWrite(rec: map<int, Entry>, before: seq<real>, after: seq<real>, e: Entry, r: real, scale: real,
                     G: int, lo: real, hi: real, rand: Random, W: int, H: int, d0: nat)
    requires Dims(W, H) && |before| == W * H && G > 0
    requires e.kind == DiamondCentre && IsPow2(e.size) && e.size >= 2 && e.size % 2 == 0 && W % e.size == 0 && H % e.size == 0
    requires (e.x % e.size == e.size / 2 && e.y % e.size == 0) || (e.x % e.size == 0 && e.y % e.size == e.size / 2)
    requires Consistent(rec, before, G, lo, hi, rand, W, H, d0, e.draw) && ReadsOn(rec, e.size, true)
    requires r == rand.Sample(e.draw, lo, hi) && scale == StepScale(G, e.size)
    requires after == before[Slot(e.x, e.y, W, H) :=
              (Sample(before, e.x - e.size / 2, e.y, W, H) + Sample(before, e.x + e.size / 2, e.y, W, H)
               + Sample(before, e.x, e.y - e.size / 2, W, H) + Sample(before, e.x, e.y + e.size / 2, W, H))
              / 4.0 + r * scale]
    ensures Consistent(rec[Slot(e.x, e.y, W, H) := e], after, G, lo, hi, rand, W, H, d0, e.draw + 1)
    ensures ReadsOn(rec[Slot(e.x, e.y, W, H) := e], e.size, true)
    ensures Stretch(before, after, rec, rec[Slot(e.x, e.y, W, H) := e], {Slot(e.x, e.y, W, H)}, {DiamondCentre}, e.size, e.size, e.draw)
  {
    var k := Slot(e.x, e.y, W, H);
    DiamondEntry(rec, e, W, H);
    ScaledDraw(r, scale, G, e.size);
    ExpectedDiamond(before, e, G, lo, hi, rand, W, H);
    Put(rec, before, e, after[k], G, lo, hi, rand, W, H, d0, e.draw);
    StretchPut(before, rec, k, e, after[k], {DiamondCentre}, e.draw);
  }

  /** The body of the square row loop: the centre (x, y) of the square
      of step s, both coordinates s / 2 mod s, stores the mean of the
      square's corners plus its own draw times scale. The corners, on
      lattice s, are in written. */
  method SquareCell(buffer: array<real>, x: int, y: int, stepSize: int, scale: real, lo: real, hi: real, rand: Random,
                    G: int, W: int, H: int, ghost d0: nat, ghost written: set<int>, ghost rec0: map<int, Entry>)
    returns (ghost rec: map<int, Entry>)
    requires Dims(W, H) && buffer.Length == W * H && G > 0
    requires IsPow2(stepSize) && stepSize >= 2 && W % stepSize == 0 && H % stepSize == 0
    requires x % stepSize == stepSize / 2 && y % stepSize == stepSize / 2 && scale == StepScale(G, stepSize)
    requires ClassWritten(written, stepSize, 0, 0, W, H) && written <= rec0.Keys
    requires Consistent(rec0, buffer[..], G, lo, hi, rand, W, H, d0, rand.drawn) && ReadsOn(rec0, stepSize, false)
    modifies buffer, rand
    ensures Consistent(rec, buffer[..], G, lo, hi, rand, W, H, d0, rand.drawn) && ReadsOn(rec, stepSize, false)
    ensures Stretch(old(buffer[..]), buffer[..], rec0, rec, {Slot(x, y, W, H)}, {SquareCentre}, stepSize, stepSize, old(rand.drawn))
    ensures rand.drawn == old(rand.drawn) + 1
  {
    ghost var e := Entry(SquareCentre, x, y, stepSize, rand.drawn);
    var r := rand.Get(lo, hi);
    ghost var before := buffer[..];
    assert before == old(buffer[..]);
    SquareReads(written, stepSize, x, y, W, H);
    SampleSquare(buffer, x, y, stepSize, r * scale, W, H, written);
    SquareWrite(rec0, before, buffer[..], e, r, scale, G, lo, hi, rand, W, H, d0);
    rec := rec0[Slot(x, y, W, H) := e];
  }

  /** One row of the square step, y = h mod s: the centres (x, y) for
      x = h, h + s, ... while x < W + 1 + h, h = s / 2. */
  method SquareRow(buffer: array<real>, y: int, stepSize: int, scale: real, lo: real, hi: real, rand: Random,
                   G: int, W: int, H: int, ghost d0: nat, ghost written: set<int>, ghost rec0: map<int, Entry>)
    returns (ghost rec: map<int, Entry>, ghost touched: set<int>)
    requires Dims(W, H) && buffer.Length == W * H && G > 0
    requires IsPow2(stepSize) && stepSize >= 2 && W % stepSize == 0 && H % stepSize == 0
    requires y % stepSize == stepSize / 2 && scale == StepScale(G, stepSize)
    requires ClassWritten(written, stepSize, 0, 0, W, H) && written <= rec0.Keys
    requires Consistent(rec0, buffer[..], G, lo, hi, rand, W, H, d0, rand.drawn) && ReadsOn(rec0, stepSize, false)
    modifies buffer, rand
    ensures Consistent(rec, buffer[..], G, lo, hi, rand, W, H, d0, rand.drawn) && ReadsOn(rec, stepSize, false)
    ensures Stretch(old(buffer[..]), buffer[..], rec0, rec, touched, {SquareCentre}, stepSize, stepSize, old(rand.drawn))
    ensures ColumnsWritten(touched, stepSize, stepSize / 2, y, W, W, H)
    ensures rand.drawn == old(rand.drawn) + W / stepSize + 1
  {
    var halfStep := stepSize / 2;
    rec, touched := rec0, {};
    StretchEmpty(buffer[..], rec0, {SquareCentre}, stepSize, stepSize, rand.drawn);
    var x := halfStep;
    ghost var n: nat := 0;
    DivModUnique(x, stepSize, 0, halfStep);
    while x < W + 1 + halfStep
      invariant x == halfStep + Rounds(stepSize, n) && Rounds(stepSize, n) <= W + stepSize
      invariant x % stepSize == halfStep
      invariant rand.drawn == old(rand.drawn) + n
      invariant written <= rec.Keys
      invariant Consistent(rec, buffer[..], G, lo, hi, rand, W, H, d0, rand.drawn) && ReadsOn(rec, stepSize, false)
      invariant Stretch(old(buffer[..]), buffer[..], rec0, rec, touched, {SquareCentre}, stepSize, stepSize, old(rand.drawn))
      invariant ColumnsWritten(touched, stepSize, halfStep, y, x - halfStep, W, H)
    {
      ghost var before, recBefore, drawnBefore := buffer[..], rec, rand.drawn;
      ghost var k := Slot(x, y, W, H);
      rec := SquareCell(buffer, x, y, stepSize, scale, lo, hi, rand, G, W, H, d0, written, rec);
      StretchChain(old(buffer[..]), before, buffer[..], rec0, recBefore, rec, touched, {k},
                 {SquareCentre}, stepSize, stepSize, old(rand.drawn), drawnBefore);
      ColumnsGrow(touched, touched + {k}, stepSize, halfStep, y, x - halfStep, W, H);
      touched := touched + {k};
      AroundCentre(x, stepSize, halfStep);
      ColumnStep(touched, stepSize, halfStep, y, x - halfStep, W, H);
      n := n + 1;
      x := x + stepSize;
    }
    RoundCount(n, stepSize, W);
  }

  /** One diamond of step s: the centre (x, y), one coordinate s / 2 mod s
      and the other a multiple of s, stores the mean of the diamond's tips
      plus its own draw times scale. The tips, on lattice s or square
      centres, are in written. */
  method DiamondCell(buffer: array<real>, x: int, y: int, stepSize: int, scale: real, lo: real, hi: real, rand: Random,
                     G: int, W: int, H: int, ghost d0: nat, ghost written: set<int>, ghost rec0: map<int, Entry>)
    returns (ghost rec: map<int, Entry>)
    requires Dims(W, H) && buffer.Length == W * H && G > 0
    requires IsPow2(stepSize) && stepSize >= 2 && W % stepSize == 0 && H % stepSize == 0
    requires (x % stepSize == stepSize / 2 && y % stepSize == 0) || (x % stepSize == 0 && y % stepSize == stepSize / 2)
    requires scale == StepScale(G, stepSize)
    requires Slot(x - stepSize / 2, y, W, H) in written && Slot(x + stepSize / 2, y, W, H) in written
    requires Slot(x, y - stepSize / 2, W, H) in written && Slot(x, y + stepSize / 2, W, H) in written
    requires Consistent(rec0, buffer[..], G, lo, hi, rand, W, H, d0, rand.drawn) && ReadsOn(rec0, stepSize, true)
    modifies buffer, rand
    ensures Consistent(rec, buffer[..], G, lo, hi, rand, W, H, d0, rand.drawn) && ReadsOn(rec, stepSize, true)
    ensures Stretch(old(buffer[..]), buffer[..], rec0, rec, {Slot(x, y, W, H)}, {DiamondCentre}, stepSize, stepSize, old(rand.drawn))
    ensures rand.drawn == old(rand.drawn) + 1
  {
    ghost var e := Entry(DiamondCentre, x, y, stepSize, rand.drawn);
    var r := rand.Get(lo, hi);
    ghost var before := buffer[..];
    assert before == old(buffer[..]);
    SampleDiamond(buffer, x, y, stepSize, r * scale, W, H, written);
    DiamondWrite(rec0, before, buffer[..], e, r, scale, G, lo, hi, rand, W, H, d0);
    rec := rec0[Slot(x, y, W, H) := e];
  }

  /** The body of the diamond row loop at x = 0 mod s: the diamonds
      centred at (x + h, y) and at (x, y + h), h = s / 2. */
  method DiamondPair(buffer: array<real>, x: int, y: int, stepSize: int, scale: real, lo: real, hi: real, rand: Random,
                     G: int, W: int, H: int, ghost d0: nat, ghost written: set<int>, ghost rec0: map<int, Entry>)
    returns (ghost rec: map<int, Entry>)
    requires Dims(W, H) && buffer.Length == W * H && G > 0
    requires IsPow2(stepSize) && stepSize >= 2 && W % stepSize == 0 && H % stepSize == 0
    requires x % stepSize == 0 && y % stepSize == 0 && scale == StepScale(G, stepSize)
    requires ClassWritten(written, stepSize, 0, 0, W, H) && ClassWritten(written, stepSize, stepSize / 2, stepSize / 2, W, H)
    requires written <= rec0.Keys
    requires Consistent(rec0, buffer[..], G, lo, hi, rand, W, H, d0, rand.drawn) && ReadsOn(rec0, stepSize, true)
    modifies buffer, rand
    ensures Consistent(rec, buffer[..], G, lo, hi, rand, W, H, d0, rand.drawn) && ReadsOn(rec, stepSize, true)
    ensures Stretch(old(buffer[..]), buffer[..], rec0, rec, {Slot(x + stepSize / 2, y, W, H), Slot(x, y + stepSize / 2, W, H)},
                    {DiamondCentre}, stepSize, stepSize, old(rand.drawn))
    ensures rand.drawn == old(rand.drawn) + 2
  {
    var halfStep := stepSize / 2;
    AroundMultiple(x, stepSize, halfStep);
    AroundMultiple(y, stepSize, halfStep);
    ghost var k, k' := Slot(x + halfStep, y, W, H), Slot(x, y + halfStep, W, H);
    ghost var between;
    DiamondReads(written, stepSize, x + halfStep, y, W, H);
    DiamondReads(written, stepSize, x, y + halfStep, W, H);
    ghost var mid := DiamondCell(buffer, x + halfStep, y, stepSize, scale, lo, hi, rand, G, W, H, d0, written, rec0);
    between := buffer[..];
    rec := DiamondCell(buffer, x, y + halfStep, stepSize, scale, lo, hi, rand, G, W, H, d0, written, mid);
    StretchChain(old(buffer[..]), between, buffer[..], rec0, mid, rec, {k}, {k'},
                 {DiamondCentre}, stepSize, stepSize, old(rand.drawn), old(rand.drawn) + 1);
    assert {k} + {k'} == {k, k'};
  }

  /** One round of the diamond row's loop: the pair at column x is
      written, extending the stretch begun at `buffer0`. */
  method DiamondColumn(buffer: array<real>, x: int, y: int, stepSize: int, scale: real, lo: real, hi: real, rand: Random,
                       G: int, W: int, H: int, ghost n: nat, ghost d0: nat, ghost drawn0: nat, ghost buffer0: seq<real>,
                       ghost written: set<int>, ghost rec0: map<int, Entry>, ghost recIn: map<int, Entry>, ghost touchedIn: set<int>)
    returns (ghost rec: map<int, Entry>, ghost touched: set<int>)
    requires Dims(W, H) && buffer.Length == W * H && G > 0
    requires IsPow2(stepSize) && stepSize >= 2 && W % stepSize == 0 && H % stepSize == 0
    requires x == Rounds(stepSize, n) && y % stepSize == 0 && scale == StepScale(G, stepSize) && drawn0 <= rand.drawn
    requires ClassWritten(written, stepSize, 0, 0, W, H) && ClassWritten(written, stepSize, stepSize / 2, stepSize / 2, W, H)
    requires written <= recIn.Keys
    requires Consistent(recIn, buffer[..], G, lo, hi, rand, W, H, d0, rand.drawn) && ReadsOn(recIn, stepSize, true)
    requires Stretch(buffer0, buffer[..], rec0, recIn, touchedIn, {DiamondCentre}, stepSize, stepSize, drawn0)
    requires ColumnsWritten(touchedIn, stepSize, stepSize / 2, y, x, W, H)
    requires ColumnsWritten(touchedIn, stepSize, 0, y + stepSize / 2, x, W, H)
    modifies buffer, rand
    ensures rand.drawn == old(rand.drawn) + 2 && written <= rec.Keys
    ensures Consistent(rec, buffer[..], G, lo, hi, rand, W, H, d0, rand.drawn) && ReadsOn(rec, stepSize, true)
    ensures Stretch(buffer0, buffer[..], rec0, rec, touched, {DiamondCentre}, stepSize, stepSize, drawn0)
    ensures ColumnsWritten(touched, stepSize, stepSize / 2, y, x + stepSize, W, H)
    ensures ColumnsWritten(touched, stepSize, 0, y + stepSize / 2, x + stepSize, W, H)
  {
    var halfStep := stepSize / 2;
    RoundsMultiple(stepSize, n);
    ghost var before, drawnBefore := buffer[..], rand.drawn;
    ghost var pair := {Slot(x + halfStep, y, W, H), Slot(x, y + halfStep, W, H)};
    rec := DiamondPair(buffer, x, y, stepSize, scale, lo, hi, rand, G, W, H, d0, written, recIn);
    StretchChain(buffer0, before, buffer[..], rec0, recIn, rec, touchedIn, pair,
                 {DiamondCentre}, stepSize, stepSize, drawn0, drawnBefore);
    touched := touchedIn + pair;
    ColumnsGrow(touchedIn, touched, stepSize, halfStep, y, x, W, H);
    ColumnsGrow(touchedIn, touched, stepSize, 0, y + halfStep, x, W, H);
    ColumnStep(touched, stepSize, halfStep, y, x, W, H);
    ColumnStep(touched, stepSize, 0, y + halfStep, x, W, H);
  }

  /** One row of the diamond step, y = 0 mod s: for x = 0, s, ... while
      x < W + 1, the diamonds centred at (x + h, y) and at (x, y + h). */
  method DiamondRow(buffer: array<real>, y: int, stepSize: int, scale: real, lo: real, hi: real, rand: Random,
                    G: int, W: int, H: int, ghost d0: nat, ghost written: set<int>, ghost rec0: map<int, Entry>)
    returns (ghost rec: map<int, Entry>, ghost touched: set<int>)
    requires Dims(W, H) && buffer.Length == W * H && G > 0
    requires IsPow2(stepSize) && stepSize >= 2 && W % stepSize == 0 && H % stepSize == 0
    requires y % stepSize == 0 && scale == StepScale(G, stepSize)
    requires ClassWritten(written, stepSize, 0, 0, W, H) && ClassWritten(written, stepSize, stepSize / 2, stepSize / 2, W, H)
    requires written <= rec0.Keys
    requires Consistent(rec0, buffer[..], G, lo, hi, rand, W, H, d0, rand.drawn) && ReadsOn(rec0, stepSize, true)
    modifies buffer, rand
    ensures Consistent(rec, buffer[..], G, lo, hi, rand, W, H, d0, rand.drawn) && ReadsOn(rec, stepSize, true)
    ensures Stretch(old(buffer[..]), buffer[..], rec0, rec, touched, {DiamondCentre}, stepSize, stepSize, old(rand.drawn))
    ensures ColumnsWritten(touched, stepSize, stepSize / 2, y, W, W, H)
    ensures ColumnsWritten(touched, stepSize, 0, y + stepSize / 2, W, W, H)
    ensures rand.drawn == old(rand.drawn) + 2 * (W / stepSize + 1)
  {
    var halfStep := stepSize / 2;
    rec, touched := rec0, {};
    StretchEmpty(buffer[..], rec0, {DiamondCentre}, stepSize, stepSize, rand.drawn);
    var x := 0;
    ghost var n: nat := 0;
    while x < W + 1
      invariant x == Rounds(stepSize, n) && Rounds(stepSize, n) <= W + stepSize
      invariant rand.drawn == old(rand.drawn) + 2 * n
      invariant written <= rec.Keys
      invariant Consistent(rec, buffer[..], G, lo, hi, rand, W, H, d0, rand.drawn) && ReadsOn(rec, stepSize, true)
      invariant Stretch(old(buffer[..]), buffer[..], rec0, rec, touched, {DiamondCentre}, stepSize, stepSize, old(rand.drawn))
      invariant ColumnsWritten(touched, stepSize, halfStep, y, x, W, H)
      invariant ColumnsWritten(touched, stepSize, 0, y + halfStep, x, W, H)
    {
      rec, touched := DiamondColumn(buffer, x, y, stepSize, scale, lo, hi, rand, G, W, H, n, d0, old(rand.drawn), old(buffer[..]),
                                    written, rec0, rec, touched);
      n := n + 1;
      x := x + stepSize;
    }
    RoundCount(n, stepSize, W);
  }

  /** No row of residue r lies below r: nothing needs to be written yet. */
  lemma NoRowsYet(written: set<int>, s: int, rx: int, r: int, W: int, H: int)
    requires W >= 1 && H >= 1 && 0 <= r < s
    ensures RowsWritten(written, s, rx, r, r, W, H)
  {
    forall a, b | 0 <= a < W && 0 <= b < H && a % s == rx && b % s == r && b < r
      ensures false
    {
      DivModUnique(b, s, 0, b);
    }
  }

  /** Writing more slots keeps the finished rows finished. */
  lemma RowsGrow(written0: set<int>, written: set<int>, s: int, rx: int, ry: int, yEnd: int, W: int, H: int)
    requires W >= 1 && H >= 1 && s > 0 && written0 <= written
    requires RowsWritten(written0, s, rx, ry, yEnd, W, H)
    ensures RowsWritten(written, s, rx, ry, yEnd, W, H)
  {
    forall a, b | 0 <= a < W && 0 <= b < H && a % s == rx && b % s == ry && b < yEnd
      ensures Written(written, a, b, W, H)
    {
      assert Written(written0, a, b, W, H);
    }
  }

  /** Rows finished past the last row of the torus finish the class, in
      every larger set of written slots. */
  lemma RowsFinish(written0: set<int>, written: set<int>, s: int, rx: int, ry: int, yEnd: int, W: int, H: int)
    requires W >= 1 && H >= 1 && s > 0 && written0 <= written && H <= yEnd
    requires RowsWritten(written0, s, rx, ry, yEnd, W, H)
    ensures ClassWritten(written, s, rx, ry, W, H)
  {
    forall a, b | 0 <= a < W && 0 <= b < H && a % s == rx && b % s == ry && b < H
      ensures Written(written, a, b, W, H)
    {
      assert Written(written0, a, b, W, H);
    }
  }

  /** Writing more slots keeps the finished part of a row finished. */
  lemma ColumnsGrow(written0: set<int>, written: set<int>, s: int, rx: int, y: int, xEnd: int, W: int, H: int)
    requires W >= 1 && H >= 1 && s > 0 && written0 <= written
    requires ColumnsWritten(written0, s, rx, y, xEnd, W, H)
    ensures ColumnsWritten(written, s, rx, y, xEnd, W, H)
  {
    forall a | 0 <= a < W && a % s == rx && a < xEnd
      ensures Written(written, a, y, W, H)
    {
      assert Written(written0, a, y, W, H);
    }
  }


  /** A finished row of square centres extends the finished rows of
      centres by one period. */
  lemma SquareRowDone(written: set<int>, row: set<int>, s: int, y: int, W: int, H: int)
    requires W >= 1 && H >= 1 && s >= 2 && s % 2 == 0 && y % s == s / 2
    requires RowsWritten(written, s, s / 2, s / 2, y, W, H)
    requires ColumnsWritten(row, s, s / 2, y, W, W, H)
    ensures RowsWritten(written + row, s, s / 2, s / 2, y + s, W, H) && (y + s) % s == s / 2
  {
    RowsGrow(written, written + row, s, s / 2, s / 2, y, W, H);
    ColumnsGrow(row, written + row, s, s / 2, y, W, W, H);
    RowDone(written + row, s, s / 2, s / 2, y, W, H);
    AroundCentre(y, s, s / 2);
  }

  /** A finished row of diamond centres, y a multiple of s, extends by one
      period the finished rows of both classes of diamond centres. */
  lemma DiamondRowDone(written: set<int>, row: set<int>, s: int, y: int, W: int, H: int)
    requires W >= 1 && H >= 1 && s >= 2 && s % 2 == 0 && y % s == 0
    requires RowsWritten(written, s, s / 2, 0, y, W, H) && RowsWritten(written, s, 0, s / 2, y + s / 2, W, H)
    requires ColumnsWritten(row, s, s / 2, y, W, W, H) && ColumnsWritten(row, s, 0, y + s / 2, W, W, H)
    ensures RowsWritten(written + row, s, s / 2, 0, y + s, W, H)
    ensures RowsWritten(written + row, s, 0, s / 2, y + s + s / 2, W, H) && (y + s) % s == 0
  {
    var h := s / 2;
    RowsGrow(written, written + row, s, h, 0, y, W, H);
    RowsGrow(written, written + row, s, 0, h, y + h, W, H);
    ColumnsGrow(row, written + row, s, h, y, W, W, H);
    ColumnsGrow(row, written + row, s, 0, y + h, W, W, H);
    AroundMultiple(y, s, h);
    RowDone(written + row, s, h, 0, y, W, H);
    RowDone(written + row, s, 0, h, y + h, W, H);
    assert y + h + s == y + s + h;
  }

  /** The square step of `DiamondSquareCore`: rows y = h, h + s, ... while
      y < H + 1 + h; afterwards every centre of step s has been written,
      from the corners on lattice s, and nothing else. */
  method SquareStep(buffer: array<real>, stepSize: int, scale: real, lo: real, hi: real, rand: Random,
                    G: int, W: int, H: int, ghost d0: nat, ghost rec0: map<int, Entry>)
    returns (ghost rec: map<int, Entry>, ghost touched: set<int>)
    requires Dims(W, H) && buffer.Length == W * H && G > 0
    requires IsPow2(stepSize) && stepSize >= 2 && W % stepSize == 0 && H % stepSize == 0
    requires scale == StepScale(G, stepSize) && ClassWritten(rec0.Keys, stepSize, 0, 0, W, H)
    requires Consistent(rec0, buffer[..], G, lo, hi, rand, W, H, d0, rand.drawn) && ReadsOn(rec0, stepSize, false)
    modifies buffer, rand
    ensures Consistent(rec, buffer[..], G, lo, hi, rand, W, H, d0, rand.drawn) && ReadsOn(rec, stepSize, false)
    ensures Stretch(old(buffer[..]), buffer[..], rec0, rec, touched, {SquareCentre}, stepSize, stepSize, old(rand.drawn))
    ensures ClassWritten(touched, stepSize, stepSize / 2, stepSize / 2, W, H)
    ensures rand.drawn == old(rand.drawn) + Positions(stepSize, W, H)
  {
    var halfStep := stepSize / 2;
    rec, touched := rec0, {};
    var y := halfStep;
    ghost var n: nat := 0;
    DivModUnique(y, stepSize, 0, halfStep);
    NoRowsYet(touched, stepSize, halfStep, halfStep, W, H);
    StretchEmpty(buffer[..], rec0, {SquareCentre}, stepSize, stepSize, rand.drawn);
    while y < H + 1 + halfStep
      invariant y == halfStep + Rounds(stepSize, n) && Rounds(stepSize, n) <= H + stepSize
      invariant y % stepSize == halfStep
      invariant rand.drawn == old(rand.drawn) + Rounds(W / stepSize + 1, n) && old(rand.drawn) <= rand.drawn
      invariant rec0.Keys <= rec.Keys
      invariant Consistent(rec, buffer[..], G, lo, hi, rand, W, H, d0, rand.drawn) && ReadsOn(rec, stepSize, false)
      invariant Stretch(old(buffer[..]), buffer[..], rec0, rec, touched, {SquareCentre}, stepSize, stepSize, old(rand.drawn))
      invariant RowsWritten(touched, stepSize, halfStep, halfStep, y, W, H)
    {
      ghost var before, recBefore, drawnBefore := buffer[..], rec, rand.drawn;
      ghost var row;
      rec, row := SquareRow(buffer, y, stepSize, scale, lo, hi, rand, G, W, H, d0, rec0.Keys, rec);
      StretchChain(old(buffer[..]), before, buffer[..], rec0, recBefore, rec, touched, row,
                 {SquareCentre}, stepSize, stepSize, old(rand.drawn), drawnBefore);
      SquareRowDone(touched, row, stepSize, y, W, H);
      touched := touched + row;
      n := n + 1;
      y := y + stepSize;
    }
    RoundsDone(n, stepSize, W, H);
    RowsFinish(touched, touched, stepSize, halfStep, halfStep, y, W, H);
  }

  /** One round of the diamond step's loop: row y's midpoints between
      horizontal neighbours and row y + s / 2's midpoints between vertical
      neighbours are written, extending the stretch begun at `buffer0`. */
  method DiamondRound(buffer: array<real>, y: int, stepSize: int, scale: real, lo: real, hi: real, rand: Random,
                      G: int, W: int, H: int, ghost n: nat, ghost d0: nat, ghost drawn0: nat, ghost buffer0: seq<real>,
                      ghost rec0: map<int, Entry>, ghost recIn: map<int, Entry>, ghost touchedIn: set<int>)
    returns (ghost rec: map<int, Entry>, ghost touched: set<int>)
    requires Dims(W, H) && buffer.Length == W * H && G > 0
    requires IsPow2(stepSize) && stepSize >= 2 && W % stepSize == 0 && H % stepSize == 0
    requires y == Rounds(stepSize, n) && scale == StepScale(G, stepSize) && drawn0 <= rand.drawn
    requires ClassWritten(rec0.Keys, stepSize, 0, 0, W, H) && ClassWritten(rec0.Keys, stepSize, stepSize / 2, stepSize / 2, W, H)
    requires rec0.Keys <= recIn.Keys
    requires Consistent(recIn, buffer[..], G, lo, hi, rand, W, H, d0, rand.drawn) && ReadsOn(recIn, stepSize, true)
    requires Stretch(buffer0, buffer[..], rec0, recIn, touchedIn, {DiamondCentre}, stepSize, stepSize, drawn0)
    requires RowsWritten(touchedIn, stepSize, stepSize / 2, 0, y, W, H)
    requires RowsWritten(touchedIn, stepSize, 0, stepSize / 2, y + stepSize / 2, W, H)
    modifies buffer, rand
    ensures rand.drawn == old(rand.drawn) + 2 * (W / stepSize + 1) > old(rand.drawn) && rec0.Keys <= rec.Keys
    ensures Consistent(rec, buffer[..], G, lo, hi, rand, W, H, d0, rand.drawn) && ReadsOn(rec, stepSize, true)
    ensures Stretch(buffer0, buffer[..], rec0, rec, touched, {DiamondCentre}, stepSize, stepSize, drawn0)
    ensures RowsWritten(touched, stepSize, stepSize / 2, 0, y + stepSize, W, H)
    ensures RowsWritten(touched, stepSize, 0, stepSize / 2, y + stepSize + stepSize / 2, W, H)
  {
    RoundsMultiple(stepSize, n);
    ghost var before, drawnBefore := buffer[..], rand.drawn;
    ghost var row;
    rec, row := DiamondRow(buffer, y, stepSize, scale, lo, hi, rand, G, W, H, d0, rec0.Keys, recIn);
    StretchChain(buffer0, before, buffer[..], rec0, recIn, rec, touchedIn, row,
                 {DiamondCentre}, stepSize, stepSize, drawn0, drawnBefore);
    DiamondRowDone(touchedIn, row, stepSize, y, W, H);
    touched := touchedIn + row;
  }

  /** The diamond step of `DiamondSquareCore`: rows y = 0, s, ... while
      y < H + 1; afterwards every cell with one coordinate h mod s and the
      other a multiple of s has been written, from lattice s and the
      centres, and nothing else. */
  method DiamondStep(buffer: array<real>, stepSize: int, scale: real, lo: real, hi: real, rand: Random,
                     G: int, W: int, H: int, ghost d0: nat, ghost rec0: map<int, Entry>)
    returns (ghost rec: map<int, Entry>, ghost touched: set<int>)
    requires Dims(W, H) && buffer.Length == W * H && G > 0
    requires IsPow2(stepSize) && stepSize >= 2 && W % stepSize == 0 && H % stepSize == 0
    requires scale == StepScale(G, stepSize)
    requires ClassWritten(rec0.Keys, stepSize, 0, 0, W, H) && ClassWritten(rec0.Keys, stepSize, stepSize / 2, stepSize / 2, W, H)
    requires Consistent(rec0, buffer[..], G, lo, hi, rand, W, H, d0, rand.drawn) && ReadsOn(rec0, stepSize, true)
    modifies buffer, rand
    ensures Consistent(rec, buffer[..], G, lo, hi, rand, W, H, d0, rand.drawn) && ReadsOn(rec, stepSize, true)
    ensures Stretch(old(buffer[..]), buffer[..], rec0, rec, touched, {DiamondCentre}, stepSize, stepSize, old(rand.drawn))
    ensures ClassWritten(touched, stepSize, stepSize / 2, 0, W, H) && ClassWritten(touched, stepSize, 0, stepSize / 2, W, H)
    ensures rand.drawn == old(rand.drawn) + 2 * Positions(stepSize, W, H)
  {
    var halfStep := stepSize / 2;
    rec, touched := rec0, {};
    var y := 0;
    ghost var n: nat := 0;
    NoRowsYet(touched, stepSize, 0, halfStep, W, H);
    StretchEmpty(buffer[..], rec0, {DiamondCentre}, stepSize, stepSize, rand.drawn);
    while y < H + 1
      invariant y == Rounds(stepSize, n) && Rounds(stepSize, n) <= H + stepSize
      invariant rand.drawn == old(rand.drawn) + 2 * Rounds(W / stepSize + 1, n) && old(rand.drawn) <= rand.drawn
      invariant rec0.Keys <= rec.Keys
      invariant Consistent(rec, buffer[..], G, lo, hi, rand, W, H, d0, rand.drawn) && ReadsOn(rec, stepSize, true)
      invariant Stretch(old(buffer[..]), buffer[..], rec0, rec, touched, {DiamondCentre}, stepSize, stepSize, old(rand.drawn))
      invariant RowsWritten(touched, stepSize, halfStep, 0, y, W, H)
      invariant RowsWritten(touched, stepSize, 0, halfStep, y + halfStep, W, H)
    {
      rec, touched := DiamondRound(buffer, y, stepSize, scale, lo, hi, rand, G, W, H, n, d0, old(rand.drawn), old(buffer[..]), rec0, rec, touched);
      n := n + 1;
      y := y + stepSize;
    }
    RoundsDone(n, stepSize, W, H);
    RowsFinish(touched, touched, stepSize, halfStep, 0, y, W, H);
    RowsFinish(touched, touched, stepSize, 0, halfStep, y + halfStep, W, H);
  }

  /** `DiamondSquareCore` for step s: the square step writes every centre
      (both coordinates h = s / 2 mod s) from the corners on lattice s,
      then the diamond step writes every cell with one coordinate h mod s
      from lattice s and the centres; afterwards lattice h is written, and
      only lattice h has been read. */
  method DiamondSquareCore(buffer: array<real>, stepSize: int, scale: real, lo: real, hi: real, rand: Random,
                           G: int, W: int, H: int, ghost d0: nat, ghost rec0: map<int, Entry>)
    returns (ghost rec: map<int, Entry>, ghost touched: set<int>)
    requires Dims(W, H) && buffer.Length == W * H && G > 0
    requires IsPow2(stepSize) && stepSize >= 2 && W % stepSize == 0 && H % stepSize == 0
    requires scale == StepScale(G, stepSize) && ClassWritten(rec0.Keys, stepSize, 0, 0, W, H)
    requires Consistent(rec0, buffer[..], G, lo, hi, rand, W, H, d0, rand.drawn) && ReadsOn(rec0, stepSize, false)
    modifies buffer, rand
    ensures Consistent(rec, buffer[..], G, lo, hi, rand, W, H, d0, rand.drawn) && ReadsOn(rec, stepSize / 2, false)
    ensures ClassWritten(rec.Keys, stepSize / 2, 0, 0, W, H)
    ensures Stretch(old(buffer[..]), buffer[..], rec0, rec, touched, {SquareCentre, DiamondCentre}, stepSize, stepSize, old(rand.drawn))
    ensures rand.drawn == old(rand.drawn) + 3 * Positions(stepSize, W, H)
  {
    var halfStep := stepSize / 2;
    ghost var squared, centres := SquareStep(buffer, stepSize, scale, lo, hi, rand, G, W, H, d0, rec0);
    ghost var between, drawnBetween := buffer[..], rand.drawn;
    PositionsPositive(stepSize, W, H);
    RowsGrow(rec0.Keys, squared.Keys, stepSize, 0, 0, H, W, H);
    RowsGrow(centres, squared.Keys, stepSize, halfStep, halfStep, H, W, H);
    ReadsWiden(squared, stepSize);
    ghost var sides;
    rec, sides := DiamondStep(buffer, stepSize, scale, lo, hi, rand, G, W, H, d0, squared);
    touched := centres + sides;
    StepsCombine(old(buffer[..]), between, buffer[..], rec0, squared, rec, centres, sides, stepSize, W, H,
                 old(rand.drawn), drawnBetween);
  }

  /** The square step, then the diamond step, of step s: the two passes make
      one stretch, and lattice s / 2 is written and is all that was read. */
  lemma StepsCombine(buffer0: seq<real>, buffer1: seq<real>, buffer2: seq<real>,
                     rec0: map<int, Entry>, squared: map<int, Entry>, rec: map<int, Entry>, centres: set<int>, sides: set<int>,
                     s: int, W: int, H: int, d: nat, d1: nat)
    requires W >= 1 && H >= 1 && s >= 2 && s % 2 == 0 && d <= d1
    requires Stretch(buffer0, buffer1, rec0, squared, centres, {SquareCentre}, s, s, d)
    requires Stretch(buffer1, buffer2, squared, rec, sides, {DiamondCentre}, s, s, d1)
    requires ClassWritten(squared.Keys, s, 0, 0, W, H) && ClassWritten(squared.Keys, s, s / 2, s / 2, W, H)
    requires ClassWritten(sides, s, s / 2, 0, W, H) && ClassWritten(sides, s, 0, s / 2, W, H)
    requires ReadsOn(rec, s, true)
    ensures ReadsOn(rec, s / 2, false) && ClassWritten(rec.Keys, s / 2, 0, 0, W, H)
    ensures Stretch(buffer0, buffer2, rec0, rec, centres + sides, {SquareCentre, DiamondCentre}, s, s, d)
  {
    StretchTrans(buffer0, buffer1, buffer2, rec0, squared, rec, centres, sides,
                 {SquareCentre, DiamondCentre}, s, s, d,
                 {SquareCentre}, s, s, d,
                 {DiamondCentre}, s, s, d1);
    RowsGrow(squared.Keys, rec.Keys, s, 0, 0, H, W, H);
    RowsGrow(squared.Keys, rec.Keys, s, s / 2, s / 2, H, W, H);
    RowsGrow(sides, rec.Keys, s, s / 2, 0, H, W, H);
    RowsGrow(sides, rec.Keys, s, 0, s / 2, H, W, H);
    Refined(rec.Keys, s, W, H);
    ReadsHalve(rec, s);
  }

  /** The body of the seeding loop: the cell (x, y) gets a draw from
      [lo, hi]. */
  method SeedCell(buffer: array<real>, x: int, y: int, lo: real, hi: real, rand: Random,
                  G: int, W: int, H: int, ghost d0: nat, ghost rec0: map<int, Entry>)
    returns (ghost rec: map<int, Entry>)
    requires W >= 1 && H >= 1 && buffer.Length == W * H && G > 0 && x % G == 0 && y % G == 0
    requires Consistent(rec0, buffer[..], G, lo, hi, rand, W, H, d0, rand.drawn)
    requires Stamped(rec0, rec0.Keys, {Seeded}, G, G, d0)
    modifies buffer, rand
    ensures Consistent(rec, buffer[..], G, lo, hi, rand, W, H, d0, rand.drawn) && Stamped(rec, rec.Keys, {Seeded}, G, G, d0)
    ensures Stretch(old(buffer[..]), buffer[..], rec0, rec, {Slot(x, y, W, H)}, {Seeded}, G, G, old(rand.drawn))
    ensures rand.drawn == old(rand.drawn) + 1
  {
    ghost var e := Entry(Seeded, x, y, G, rand.drawn);
    ghost var k := Slot(x, y, W, H);
    var r := rand.Get(lo, hi);
    ghost var before := buffer[..];
    assert before == old(buffer[..]);
    SetSample(buffer, x, y, r, W, H);
    SeedEntry(rec0, e, W, H, G, d0);
    Put(rec0, before, e, r, G, lo, hi, rand, W, H, d0, e.draw);
    StretchPut(before, rec0, k, e, r, {Seeded}, e.draw);
    SeedStamped(rec0, k, e, G, d0);
    rec := rec0[k := e];
  }

  /** One row of the seeding, y a multiple of G: the cells (x, y) for
      x = 0, G, ... while x < W + 1 each get a draw from [lo, hi]. */
  method SeedRow(buffer: array<real>, y: int, lo: real, hi: real, rand: Random,
                 G: int, W: int, H: int, ghost d0: nat, ghost rec0: map<int, Entry>)
    returns (ghost rec: map<int, Entry>, ghost touched: set<int>)
    requires W >= 1 && H >= 1 && buffer.Length == W * H && G > 0 && W % G == 0 && y % G == 0
    requires Consistent(rec0, buffer[..], G, lo, hi, rand, W, H, d0, rand.drawn)
    requires Stamped(rec0, rec0.Keys, {Seeded}, G, G, d0)
    modifies buffer, rand
    ensures Consistent(rec, buffer[..], G, lo, hi, rand, W, H, d0, rand.drawn) && Stamped(rec, rec.Keys, {Seeded}, G, G, d0)
    ensures Stretch(old(buffer[..]), buffer[..], rec0, rec, touched, {Seeded}, G, G, old(rand.drawn))
    ensures ColumnsWritten(touched, G, 0, y, W, W, H)
    ensures rand.drawn == old(rand.drawn) + W / G + 1
  {
    rec, touched := rec0, {};
    StretchEmpty(buffer[..], rec0, {Seeded}, G, G, rand.drawn);
    var x := 0;
    ghost var n: nat := 0;
    while x < W + 1
      invariant x == Rounds(G, n) && Rounds(G, n) <= W + G
      invariant x % G == 0
      invariant rand.drawn == old(rand.drawn) + n
      invariant Consistent(rec, buffer[..], G, lo, hi, rand, W, H, d0, rand.drawn) && Stamped(rec, rec.Keys, {Seeded}, G, G, d0)
      invariant Stretch(old(buffer[..]), buffer[..], rec0, rec, touched, {Seeded}, G, G, old(rand.drawn))
      invariant ColumnsWritten(touched, G, 0, y, x, W, H)
    {
      ghost var before, recBefore, drawnBefore := buffer[..], rec, rand.drawn;
      ghost var k := Slot(x, y, W, H);
      rec := SeedCell(buffer, x, y, lo, hi, rand, G, W, H, d0, rec);
      StretchChain(old(buffer[..]), before, buffer[..], rec0, recBefore, rec, touched, {k},
                   {Seeded}, G, G, old(rand.drawn), drawnBefore);
      ColumnsGrow(touched, touched + {k}, G, 0, y, x, W, H);
      touched := touched + {k};
      ColumnStep(touched, G, 0, y, x, W, H);
      ModAddMultiple(x, 1, G);
      n := n + 1;
      x := x + G;
    }
    RoundCount(n, G, W);
  }

  /** The copy-out: every cell (x, y) of the (W+1) x (H+1) map gets the
      buffer's sample at (x, y). Every slot must have been written. */
  method CopyOut(buffer: array<real>, vectorMap: array2<real>, W: int, H: int, ghost written: set<int>)
    requires Dims(W, H) && buffer.Length == W * H
    requires vectorMap.Length0 == W + 1 && vectorMap.Length1 == H + 1
    requires forall k | 0 <= k < W * H :: k in written
    modifies vectorMap
    ensures forall x, y | 0 <= x <= W && 0 <= y <= H :: vectorMap[x, y] == Sample(buffer[..], x, y, W, H)
  {
    for x := 0 to W + 1
      invariant forall x', y | 0 <= x' < x && 0 <= y <= H :: vectorMap[x', y] == Sample(buffer[..], x', y, W, H)
    {
      for y := 0 to H + 1
        invariant forall x', y' | 0 <= x' < x && 0 <= y' <= H :: vectorMap[x', y'] == Sample(buffer[..], x', y', W, H)
        invariant forall y' | 0 <= y' < y :: vectorMap[x, y'] == Sample(buffer[..], x, y', W, H)
      {
        vectorMap[x, y] := Sample(buffer[..], x, y, W, H);
      }
    }
  }

  /** The copied-out map is seamless: its last column repeats its first,
      and its last row repeats its first. */
  lemma Seam(buffer: seq<real>, W: int, H: int)
    requires Dims(W, H) && |buffer| == W * H
    ensures forall y :: Sample(buffer, W, y, W, H) == Sample(buffer, 0, y, W, H)
    ensures forall x :: Sample(buffer, x, H, W, H) == Sample(buffer, x, 0, W, H)
  {
    forall y
      ensures Sample(buffer, W, y, W, H) == Sample(buffer, 0, y, W, H)
    {
      SamplePeriodic(buffer, 0, y, W, H);
    }
    forall x
      ensures Sample(buffer, x, H, W, H) == Sample(buffer, x, 0, W, H)
    {
      SamplePeriodic(buffer, x, 0, W, H);
    }
  }

  /** The factor applied to the draws of the step s when the first step
      is G: 1 for the first step, halved with every later one. */
  function StepScale(G: int, s: int): real
    decreases G - s
  {
    if s <= 0 || s >= G then 1.0 else StepScale(G, 2 * s) / 2.0
  }

  /** The draw v as it displaces a cell in the step s: halved once for
      every step after the first. */
  function Displacement(v: real, G: int, s: int): real
    decreases G - s
  {
    if s <= 0 || s >= G then v else Displacement(v, G, 2 * s) / 2.0
  }

  /** The displacement is the draw times the scale of its step. */
  lemma {:induction false} DisplacementIsScaled(v: real, G: int, s: int)
    ensures Displacement(v, G, s) == v * StepScale(G, s)
    decreases G - s
  {
    if !(s <= 0 || s >= G) {
      DisplacementIsScaled(v, G, 2 * s);
    }
  }

  /** A draw times the scale of its step is its displacement. */
  lemma ScaledDraw(v: real, scale: real, G: int, s: int)
    requires scale == StepScale(G, s)
    ensures v * scale == Displacement(v, G, s)
  {
    DisplacementIsScaled(v, G, s);
  }

  /** For power-of-two steps the scale of step s is s / G. */
  lemma ScaleIsRatio(G: int, s: int)
    requires IsPow2(G) && IsPow2(s) && s <= G
    ensures StepScale(G, s) * G as real == s as real
  {
    Pow2Doubles(G, s);
    DoublingScale(G, s);
  }

  /** G is s doubled some number of times. */
  predicate Doubles(s: int, G: int)
    requires s > 0
    decreases G - s
  {
    s == G || (s < G && Doubles(2 * s, G))
  }

  /** A power of two is reached from every smaller one by doubling. */
  lemma {:induction false} Pow2Doubles(G: int, s: int)
    requires IsPow2(G) && IsPow2(s) && s <= G
    ensures s > 0 && Doubles(s, G)
    decreases G - s
  {
    if s < G {
      DoubleWithin(G, s);
      Pow2Doubles(G, 2 * s);
    }
  }

  /** The scale of step s is s / G when G is s doubled. */
  lemma {:induction false} DoublingScale(G: int, s: int)
    requires s > 0 && Doubles(s, G)
    ensures StepScale(G, s) * G as real == s as real
    decreases G - s
  {
    if s < G {
      DoublingScale(G, 2 * s);
      HalveFactor(StepScale(G, 2 * s), G as real, s as real);
    }
  }

  /** Halving one factor of a product halves the product. */
  lemma HalveFactor(a: real, b: real, c: real)
    requires a * b == 2.0 * c
    ensures (a / 2.0) * b == c
  {
  }

  /** Below a power of two G, the next power of two up from s is still at
      most G. */
  lemma DoubleWithin(G: int, s: int)
    requires IsPow2(G) && IsPow2(s) && s < G
    ensures IsPow2(2 * s) && 2 * s <= G
  {
    Pow2Divides(s, G);
    var q := G / s;
    assert G == s * q;
    if q <= 1 {
      MulMonotone(s, q, 1);
      assert false;
    }
    MulMonotone(s, 2, q);
    assert IsPow2(2 * s);
  }

  /** The seeding loop of `DiamondSquareAlgorithm`: rows y = 0, G, ...
      while y < H + 1, each seeded by SeedRow; afterwards every slot of
      lattice G holds a seed, its draw from [lo, hi], and no other slot has
      been written. */
  method SeedLattice(buffer: array<real>, G: int, lo: real, hi: real, rand: Random, W: int, H: int)
    returns (ghost rec: map<int, Entry>)
    requires W >= 1 && H >= 1 && buffer.Length == W * H && G > 0 && W % G == 0 && H % G == 0
    modifies buffer, rand
    ensures Consistent(rec, buffer[..], G, lo, hi, rand, W, H, old(rand.drawn), rand.drawn)
    ensures Stamped(rec, rec.Keys, {Seeded}, G, G, old(rand.drawn))
    ensures ClassWritten(rec.Keys, G, 0, 0, W, H)
    ensures forall k | 0 <= k < W * H && k !in rec :: buffer[k] == old(buffer[k])
    ensures rand.drawn == old(rand.drawn) + Positions(G, W, H)
  {
    rec := map[];
    ghost var touched: set<int> := {};
    StretchEmpty(buffer[..], map[], {Seeded}, G, G, rand.drawn);
    var y := 0;
    ghost var n: nat := 0;
    while y < H + 1
      invariant y == Rounds(G, n) && Rounds(G, n) <= H + G
      invariant y % G == 0
      invariant rand.drawn == old(rand.drawn) + Rounds(W / G + 1, n) && old(rand.drawn) <= rand.drawn
      invariant Consistent(rec, buffer[..], G, lo, hi, rand, W, H, old(rand.drawn), rand.drawn)
      invariant Stamped(rec, rec.Keys, {Seeded}, G, G, old(rand.drawn))
      invariant Stretch(old(buffer[..]), buffer[..], map[], rec, touched, {Seeded}, G, G, old(rand.drawn))
      invariant RowsWritten(touched, G, 0, 0, y, W, H)
    {
      ghost var before, recBefore, drawnBefore := buffer[..], rec, rand.drawn;
      ghost var row;
      rec, row := SeedRow(buffer, y, lo, hi, rand, G, W, H, old(rand.drawn), rec);
      StretchChain(old(buffer[..]), before, buffer[..], map[], recBefore, rec, touched, row,
                   {Seeded}, G, G, old(rand.drawn), drawnBefore);
      RowsGrow(touched, touched + row, G, 0, 0, y, W, H);
      ColumnsGrow(row, touched + row, G, 0, y, W, W, H);
      touched := touched + row;
      RowDone(touched, G, 0, 0, y, W, H);
      ModAddMultiple(y, 1, G);
      n := n + 1;
      y := y + G;
    }
    RoundsDone(n, G, W, H);
    RowsFinish(touched, rec.Keys, G, 0, 0, y, W, H);
    forall k | 0 <= k < W * H && k !in rec
      ensures buffer[k] == old(buffer[k])
    {
      assert Held(buffer[..], k) == Held(old(buffer[..]), k);
    }
  }

  /** The refinement loop of `DiamondSquareAlgorithm`: one
      `DiamondSquareCore` per step s = G, G/2, ..., 2, with the draws of
      step s scaled by s / G; afterwards every slot of the buffer has been
      written, each by a square or diamond centre of one of the steps
      unless it kept its seed. */
  method Refine(buffer: array<real>, G: int, lo: real, hi: real, rand: Random, W: int, H: int,
                ghost d0: nat, ghost rec0: map<int, Entry>)
    returns (ghost rec: map<int, Entry>, ghost touched: set<int>, ghost steps: seq<int>)
    requires Dims(W, H) && buffer.Length == W * H
    requires IsPow2(G) && W % G == 0 && H % G == 0
    requires ClassWritten(rec0.Keys, G, 0, 0, W, H)
    requires Consistent(rec0, buffer[..], G, lo, hi, rand, W, H, d0, rand.drawn) && ReadsOn(rec0, G, false)
    modifies buffer, rand
    ensures Consistent(rec, buffer[..], G, lo, hi, rand, W, H, d0, rand.drawn)
    ensures ClassWritten(rec.Keys, 1, 0, 0, W, H)
    ensures Stretch(old(buffer[..]), buffer[..], rec0, rec, touched, {SquareCentre, DiamondCentre}, 2, G, old(rand.drawn))
    ensures steps + [1] == Halvings(G)
    ensures (forall i | 0 <= i < |steps| :: steps[i] > 0) && rand.drawn == old(rand.drawn) + StepDraws(steps, W, H)
  {
    var sampleSize := G;
    var scale := 1.0;
    rec, touched := rec0, {};
    steps := [];
    StretchEmpty(buffer[..], rec0, {SquareCentre, DiamondCentre}, 2, G, rand.drawn);
    while sampleSize > 1
      invariant IsPow2(sampleSize) && sampleSize <= G
      invariant W % sampleSize == 0 && H % sampleSize == 0
      invariant scale == StepScale(G, sampleSize)
      invariant Consistent(rec, buffer[..], G, lo, hi, rand, W, H, d0, rand.drawn) && ReadsOn(rec, sampleSize, false)
      invariant ClassWritten(rec.Keys, sampleSize, 0, 0, W, H)
      invariant Stretch(old(buffer[..]), buffer[..], rec0, rec, touched, {SquareCentre, DiamondCentre}, 2, G, old(rand.drawn))
      invariant steps + Halvings(sampleSize) == Halvings(G)
      invariant (forall i | 0 <= i < |steps| :: steps[i] > 0) && rand.drawn == old(rand.drawn) + StepDraws(steps, W, H)
      invariant old(rand.drawn) <= rand.drawn
      decreases sampleSize
    {
      ghost var before, recBefore, drawnBefore := buffer[..], rec, rand.drawn;
      ghost var step;
      rec, step := DiamondSquareCore(buffer, sampleSize, scale, lo, hi, rand, G, W, H, d0, rec);
      StretchTrans(old(buffer[..]), before, buffer[..], rec0, recBefore, rec, touched, step,
                   {SquareCentre, DiamondCentre}, 2, G, old(rand.drawn),
                   {SquareCentre, DiamondCentre}, 2, G, old(rand.drawn),
                   {SquareCentre, DiamondCentre}, sampleSize, sampleSize, drawnBefore);
      touched := touched + step;
      PositionsPositive(sampleSize, W, H);
      HalveStride(W, H, G, sampleSize);
      ScheduleStep(steps, sampleSize, G);
      StepDrawsAppend(steps, sampleSize, W, H);
      steps := steps + [sampleSize];
      assert StepScale(G, sampleSize / 2) == StepScale(G, sampleSize) / 2.0 by {
        assert 2 * (sampleSize / 2) == sampleSize;
      }
      sampleSize := sampleSize / 2;
      scale := scale / 2.0;
    }
  }

  /** `DiamondSquareAlgorithm` on the (W+1) x (H+1) map, W = dimensions.x
      and H = dimensions.z: seed lattice G = min(W, H) of a W x H torus with
      draws from [-1, 1], refine it with steps G, G/2, ..., 2 whose draws
      are scaled by 1, 1/2, ..., then copy the torus out. Every slot of the
      torus is written; each holds what its last write computes from the
      final torus (its seed's draw, or the mean of the four cells its square
      or diamond read plus its scaled draw), every draw is used by at most
      one slot, and the map's far edges repeat its near ones. */
  method DiamondSquareAlgorithm(vectorMap: array2<real>, W: int, H: int, rand: Random)
    returns (ghost buffer: seq<real>, ghost rec: map<int, Entry>, ghost steps: seq<int>)
    requires Dims(W, H) && vectorMap.Length0 == W + 1 && vectorMap.Length1 == H + 1
    modifies vectorMap, rand
    ensures |buffer| == W * H && GridSize(W, H) > 0 && forall k | 0 <= k < W * H :: k in rec
    ensures Consistent(rec, buffer, GridSize(W, H), -1.0, 1.0, rand, W, H, old(rand.drawn), rand.drawn)
    ensures Stamped(rec, rec.Keys, {Seeded, SquareCentre, DiamondCentre}, 1, GridSize(W, H), old(rand.drawn))
    ensures Structured(rec, GridSize(W, H), W, H)
    ensures forall x, y | 0 <= x <= W && 0 <= y <= H :: vectorMap[x, y] == Sample(buffer, x, y, W, H)
    ensures forall y | 0 <= y <= H :: vectorMap[W, y] == vectorMap[0, y]
    ensures forall x | 0 <= x <= W :: vectorMap[x, H] == vectorMap[x, 0]
    ensures steps + [1] == Halvings(GridSize(W, H))
    ensures (forall i | 0 <= i < |steps| :: steps[i] > 0)
    ensures rand.drawn == old(rand.drawn) + Positions(GridSize(W, H), W, H) + StepDraws(steps, W, H)
  {
    var gridSize := GridSize(W, H);
    var lo, hi := -1.0, 1.0;
    var torus := new real[W * H];
    Pow2Divides(gridSize, W);
    Pow2Divides(gridSize, H);
    ghost var seeds := SeedLattice(torus, gridSize, lo, hi, rand, W, H);
    SeedsReadNothing(seeds, gridSize, old(rand.drawn));
    ghost var touched;
    ghost var seeded := torus[..];
    rec, touched, steps := Refine(torus, gridSize, lo, hi, rand, W, H, old(rand.drawn), seeds);
    AllWritten(rec.Keys, W, H);
    CopyOut(torus, vectorMap, W, H, rec.Keys);
    buffer := torus[..];
    Seam(buffer, W, H);
    SeedsAndSteps(seeds, rec, touched, seeded, buffer, gridSize, old(rand.drawn));
    RefinedShape(rec, buffer, gridSize, lo, hi, rand, W, H, old(rand.drawn), rand.drawn);
  }

  /** Seeds kept and centres written by the steps make one stamped record. */
  lemma SeedsAndSteps(seeds: map<int, Entry>, rec: map<int, Entry>, touched: set<int>, seeded: seq<real>, buffer: seq<real>, G: int, d: nat)
    requires G >= 1 && Stamped(seeds, seeds.Keys, {Seeded}, G, G, d)
    requires Stretch(seeded, buffer, seeds, rec, touched, {SquareCentre, DiamondCentre}, 2, G, d)
    ensures Stamped(rec, rec.Keys, {Seeded, SquareCentre, DiamondCentre}, 1, G, d) && SeedsOf(rec, G)
  {
    forall k | k in rec
      ensures EntryAt(rec, k).kind in {Seeded, SquareCentre, DiamondCentre} && Placed(EntryAt(rec, k))
      ensures 1 <= EntryAt(rec, k).size <= G && d <= EntryAt(rec, k).draw
      ensures EntryAt(rec, k).kind == Seeded ==> EntryAt(rec, k).size == G
    {
      if k in touched {
        assert EntryAt(rec, k).kind in {SquareCentre, DiamondCentre};
      } else {
        assert EntryAt(seeds, k).kind in {Seeded};
      }
    }
  }

  /** Every seed of the record has the lattice's own step G. */
  ghost predicate SeedsOf(rec: map<int, Entry>, G: int) {
    forall k {:trigger EntryAt(rec, k)} | k in rec && EntryAt(rec, k).kind == Seeded :: EntryAt(rec, k).size == G
  }

  /** The class of write e in a torus refined from lattice G: e is a seed
      exactly when its cell is on lattice G, and then its step is G;
      otherwise its step s is a power of two in [2, G], its cell is on
      lattice s / 2 but not on lattice s, and e is a square centre exactly
      when both coordinates are s / 2 mod s. */
  ghost predicate Classed(e: Entry, G: int)
    requires G > 0
  {
    && (e.kind == Seeded <==> e.x % G == 0 && e.y % G == 0)
    && (e.kind == Seeded ==> e.size == G)
    && (e.kind != Seeded ==>
          && IsPow2(e.size) && 2 <= e.size <= G
          && !(e.x % e.size == 0 && e.y % e.size == 0)
          && e.x % (e.size / 2) == 0 && e.y % (e.size / 2) == 0
          && (e.kind == SquareCentre <==> e.x % e.size == e.size / 2 && e.y % e.size == e.size / 2))
  }

  /** Slot j, read by write e, holds a coarser write: a seed, a write of a
      larger step, or, when e is a diamond centre, a square centre of e's
      own step. */
  ghost predicate Feeds(rec: map<int, Entry>, j: int, e: Entry) {
    && j in rec
    && (|| EntryAt(rec, j).kind == Seeded
        || EntryAt(rec, j).size > e.size
        || (e.kind == DiamondCentre && EntryAt(rec, j).kind == SquareCentre && EntryAt(rec, j).size == e.size))
  }

  /** The shape of a torus refined from lattice G: every write is of its
      class, and every cell a write reads holds a coarser write, so values
      flow from the seeds down the steps and no write depends on itself. */
  ghost predicate Structured(rec: map<int, Entry>, G: int, W: int, H: int)
    requires W >= 1 && H >= 1 && G > 0
  {
    && (forall k {:trigger EntryAt(rec, k)} | k in rec :: Classed(EntryAt(rec, k), G))
    && (forall k, i | k in rec && 0 <= i < |Reads(EntryAt(rec, k))| ::
          Feeds(rec, Slot(Reads(EntryAt(rec, k))[i].0, Reads(EntryAt(rec, k))[i].1, W, H), EntryAt(rec, k)))
  }

  /** A smaller power of two is at most half a larger one. */
  lemma Pow2Below(t: int, s: int)
    requires IsPow2(t) && IsPow2(s) && t < s
    ensures 2 * t <= s
  {
    Pow2Divides(t, s);
    var q := s / t;
    assert s == t * q;
    if q < 2 {
      MulMonotone(t, q, 1);
    }
    MulMonotone(t, 2, q);
  }

  /** A placed write within lattice G, seeds of step G, is of its class. */
  lemma ClassOf(e: Entry, G: int)
    requires IsPow2(G) && Placed(e) && 1 <= e.size <= G && (e.kind == Seeded ==> e.size == G)
    ensures Classed(e, G)
  {
    if e.kind != Seeded {
      var s, h := e.size, e.size / 2;
      assert s == 2 * h;
      Pow2Divides(s, G);
      LatticeCoarser(e.x, e.y, G, s);
      HalfOfResidue(e.x, h);
      HalfOfResidue(e.y, h);
    }
  }

  /** A cell on lattice G is on every lattice s that divides G. */
  lemma LatticeCoarser(a: int, b: int, G: int, s: int)
    requires s > 0 && G > 0 && G % s == 0
    ensures a % G == 0 && b % G == 0 ==> a % s == 0 && b % s == 0
  {
    ModOfMod(a, G, s);
    ModOfMod(b, G, s);
  }

  /** The cells a placed centre of step s reads are on lattice s, or, for
      a diamond, centres of squares of step s. */
  lemma ReadCoarse(e: Entry, i: int)
    requires Placed(e) && e.kind != Seeded && 0 <= i < 4
    ensures Coarse(Reads(e)[i], e.size, e.kind == DiamondCentre)
  {
    var s, h := e.size, e.size / 2;
    if e.kind == SquareCentre {
      AroundCentre(e.x, s, h);
      AroundCentre(e.y, s, h);
    } else if e.x % s == h {
      AroundCentre(e.x, s, h);
      AroundMultiple(e.y, s, h);
    } else {
      AroundMultiple(e.x, s, h);
      AroundCentre(e.y, s, h);
    }
  }

  /** A placed write f sharing its slot with a cell p that a centre e of
      step s reads, p on lattice s or (for a diamond) a square centre of
      step s, is a seed, of a larger step, or a square centre of step s. */
  lemma CoarseFeeds(e: Entry, f: Entry, p: Cell, W: int, H: int)
    requires Dims(W, H) && Placed(e) && Placed(f) && e.kind != Seeded && W % e.size == 0 && H % e.size == 0
    requires Coarse(p, e.size, e.kind == DiamondCentre) && Slot(f.x, f.y, W, H) == Slot(p.0, p.1, W, H)
    ensures || f.kind == Seeded || f.size > e.size
            || (e.kind == DiamondCentre && f.kind == SquareCentre && f.size == e.size)
  {
    var s, t := e.size, f.size;
    SlotResidue(f.x, f.y, p.0, p.1, s, W, H);
    if f.kind != Seeded && t <= s {
      Pow2Divides(t, s);
      ModOfMod(f.x, s, t);
      ModOfMod(f.y, s, t);
      if t < s {
        Pow2Below(t, s);
        Pow2Divides(t, s / 2);
      }
    }
  }

  /** A torus whose every slot is recorded, consistently, by placed writes
      within lattice G whose seeds have step G, has the refined shape. */
  lemma RefinedShape(rec: map<int, Entry>, buffer: seq<real>, G: int, lo: real, hi: real, rand: Random,
                     W: int, H: int, d0: nat, d1: nat)
    requires Dims(W, H) && |buffer| == W * H && IsPow2(G) && G <= W && G <= H
    requires forall k | 0 <= k < W * H :: k in rec
    requires Consistent(rec, buffer, G, lo, hi, rand, W, H, d0, d1)
    requires Stamped(rec, rec.Keys, {Seeded, SquareCentre, DiamondCentre}, 1, G, d0) && SeedsOf(rec, G)
    ensures Structured(rec, G, W, H)
  {
    forall k | k in rec
      ensures Classed(EntryAt(rec, k), G)
    {
      ClassOf(EntryAt(rec, k), G);
    }
    forall k, i | k in rec && 0 <= i < |Reads(EntryAt(rec, k))|
      ensures Feeds(rec, Slot(Reads(EntryAt(rec, k))[i].0, Reads(EntryAt(rec, k))[i].1, W, H), EntryAt(rec, k))
    {
      var e := EntryAt(rec, k);
      var p := Reads(e)[i];
      var j := Slot(p.0, p.1, W, H);
      assert j in rec;
      ReadCoarse(e, i);
      Pow2Divides(e.size, W);
      Pow2Divides(e.size, H);
      CoarseFeeds(e, EntryAt(rec, j), p, W, H);
    }
  }
}
