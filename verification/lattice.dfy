/** Integer facts shared by the grid algorithms: powers of two, lattices of
    cells whose coordinates are multiples of a stride, and the Euclidean
    division identities the strided loops rely on. */
module Lattice {

  /** n is a positive power of two: 1, 2, 4, 8, ... */
  predicate IsPow2(n: int)
    decreases if n > 0 then n else 0
  {
    n == 1 || (n >= 2 && n % 2 == 0 && IsPow2(n / 2))
  }

  /** Division by a positive divisor is determined by quotient and remainder. */
  lemma DivModUnique(n: int, d: int, q: int, r: int)
    requires d > 0 && n == d * q + r && 0 <= r < d
    ensures n / d == q && n % d == r
  {
    var q', r' := n / d, n % d;
    assert n == d * q' + r';
    if q > q' {
      MulAtLeast(d, q - q');
    } else if q < q' {
      MulAtLeast(d, q' - q);
    }
  }

  lemma MulAtLeast(d: int, k: int)
    requires d > 0 && k >= 1
    ensures d * k >= d
    decreases k
  {
    if k > 1 {
      MulAtLeast(d, k - 1);
      assert d * k == d * (k - 1) + d;
    }
  }

  /** Adding a multiple of d does not change the remainder and shifts the quotient. */
  lemma ModAddMultiple(a: int, k: int, d: int)
    requires d > 0
    ensures (a + d * k) % d == a % d
    ensures (a + d * k) / d == a / d + k
  {
    DivModUnique(a + d * k, d, a / d + k, a % d);
  }

  /** Reducing modulo a multiple of d first does not change the remainder modulo d. */
  lemma ModOfMod(a: int, m: int, d: int)
    requires d > 0 && m > 0 && m % d == 0
    ensures (a % m) % d == a % d
  {
    var t := m / d;
    assert m == d * t;
    assert a == a % m + m * (a / m);
    assert a == a % m + d * (t * (a / m));
    ModAddMultiple(a % m, t * (a / m), d);
  }

  /** A smaller power of two divides a larger one. */
  lemma Pow2Divides(p: int, q: int)
    requires IsPow2(p) && IsPow2(q) && p <= q
    ensures q % p == 0
    decreases p
  {
    if p > 1 {
      assert q != 1;
      Pow2Divides(p / 2, q / 2);
      var t := (q / 2) / (p / 2);
      assert q / 2 == (p / 2) * t;
      assert q == p * t;
      ModAddMultiple(0, t, p);
    }
  }

  /** Multiplication by a positive factor is monotone. */
  lemma MulMonotone(m: int, p: int, q: int)
    requires m > 0 && p <= q
    ensures m * p <= m * q
  {
    if p < q {
      MulAtLeast(m, q - p);
    }
  }

  /** Two multiples of m that differ are at least m apart. */
  lemma NextMultiple(a: int, b: int, m: int)
    requires m > 0 && a % m == 0 && b % m == 0 && a < b
    ensures a + m <= b
  {
    assert a == m * (a / m) && b == m * (b / m);
    if a / m >= b / m {
      MulMonotone(m, b / m, a / m);
    }
    MulMonotone(m, a / m + 1, b / m);
  }

  /** Cells of the lattice with stride s: both coordinates are multiples of s. */
  predicate OnLattice(x: int, y: int, s: int)
    requires s > 0
  {
    x % s == 0 && y % s == 0
  }

  /** v is an odd multiple of o: the loops' odd/even toggle after v / o steps. */
  predicate IsOdd(v: int, o: int)
    requires o > 0
  {
    (v / o) % 2 == 1
  }

  /** One step of o along a row flips the toggle. */
  lemma StepFlips(v: int, w: int, o: int)
    requires o > 0 && w == v + o
    ensures w / o == v / o + 1 && w % o == v % o
    ensures IsOdd(w, o) <==> !IsOdd(v, o)
  {
    ModAddMultiple(v, 1, o);
  }

  /** An odd multiple of o sits halfway between two multiples of 2o. */
  lemma OddMultiple(v: int, o: int)
    requires o > 0 && v % o == 0 && IsOdd(v, o)
    ensures v % (2 * o) == o && (v >= 0 ==> o <= v)
    ensures (v - o) % (2 * o) == 0 && (v + o) % (2 * o) == 0
  {
    var q := v / o;
    var t := q / 2;
    assert q == 2 * t + 1;
    assert v == o * q;
    assert v == (2 * o) * t + o;
    DivModUnique(v, 2 * o, t, o);
    DivModUnique(v - o, 2 * o, t, 0);
    DivModUnique(v + o, 2 * o, t + 1, 0);
    if q >= 1 {
      MulMonotone(o, 1, q);
    } else {
      MulMonotone(o, q, -1);
    }
  }

  /** An even multiple of o is a multiple of 2o, and conversely. */
  lemma EvenMultiple(v: int, o: int)
    requires o > 0
    ensures (v % o == 0 && !IsOdd(v, o)) <==> v % (2 * o) == 0
  {
    if v % o == 0 && !IsOdd(v, o) {
      var q := v / o;
      assert v == o * q;
      assert v == (2 * o) * (q / 2);
      DivModUnique(v, 2 * o, q / 2, 0);
    }
    if v % (2 * o) == 0 {
      var t := v / (2 * o);
      assert v == o * (2 * t);
      DivModUnique(v, o, 2 * t, 0);
    }
  }

  /** A grid position (x, y); y is the terrain's z axis. */
  type Cell = (int, int)

  /** The cells of lattice s that a row-by-row sweep with step s has passed
      when its cursor is at (x, y): all of the earlier rows, and row y left
      of x. */
  predicate Swept(c: Cell, s: int, y: int, x: int)
    requires s > 0
  {
    OnLattice(c.0, c.1, s) && (c.1 < y || (c.1 == y && c.0 < x))
  }

  /** Moving the cursor one step along row y sweeps exactly the cell under it. */
  lemma SweptStep(c: Cell, s: int, y: int, x: int, x': int)
    requires s > 0 && x % s == 0 && y % s == 0 && x' == x + s
    ensures Swept(c, s, y, x') <==> Swept(c, s, y, x) || c == (x, y)
  {
    if OnLattice(c.0, c.1, s) && c.1 == y && x < c.0 {
      NextMultiple(x, c.0, s);
    }
  }

  /** Once the cursor has passed column W, row y is finished. */
  lemma SweptRowEnd(c: Cell, s: int, y: int, y': int, x: int, W: int)
    requires s > 0 && y % s == 0 && y' == y + s && 0 <= c.0 <= W < x
    ensures Swept(c, s, y, x) <==> Swept(c, s, y', 0)
  {
    if OnLattice(c.0, c.1, s) && y < c.1 {
      NextMultiple(y, c.1, s);
    }
  }

  /** The cells of the (W+1) x (H+1) grid. */
  ghost function Cells(W: int, H: int): set<Cell> {
    set x, y | 0 <= x <= W && 0 <= y <= H :: (x, y)
  }

  /** The cells (x, 0) .. (x, H) of column x. */
  ghost function Column(x: int, H: int): set<Cell> {
    set y | 0 <= y <= H :: (x, y)
  }

  /** A column has H + 1 cells. */
  lemma {:induction false} ColumnCount(x: int, H: int)
    requires H >= -1
    ensures |Column(x, H)| == H + 1
    decreases H + 1
  {
    if H >= 0 {
      ColumnCount(x, H - 1);
      assert Column(x, H) == Column(x, H - 1) + {(x, H)};
    } else {
      assert Column(x, H) == {};
    }
  }

  /** The (W+1) x (H+1) grid has (W+1) * (H+1) cells. */
  lemma {:induction false} CellsCount(W: int, H: int)
    requires W >= -1 && H >= 0
    ensures |Cells(W, H)| == (W + 1) * (H + 1)
    decreases W + 1
  {
    if W >= 0 {
      CellsCount(W - 1, H);
      ColumnCount(W, H);
      CellsSplit(W, H);
      calc {
        |Cells(W, H)|;
        |Cells(W - 1, H)| + |Column(W, H)|;
        W * (H + 1) + (H + 1);
        { MulAddOne(W, H + 1); }
        (W + 1) * (H + 1);
      }
    } else {
      assert Cells(W, H) == {};
    }
  }

  /** The grid up to column W is the grid up to column W - 1 and column W. */
  lemma CellsSplit(W: int, H: int)
    requires W >= 0
    ensures Cells(W, H) == Cells(W - 1, H) + Column(W, H)
    ensures Cells(W - 1, H) !! Column(W, H)
  {
    forall c | c in Cells(W, H)
      ensures c in Cells(W - 1, H) || c in Column(W, H)
    {
      if c.0 < W {
        assert c in Cells(W - 1, H);
      } else {
        assert c in Column(W, H);
      }
    }
  }

  /** A number below k * d, divided by d, gives a quotient below k and
      is recovered from quotient and remainder. */
  lemma DivBelow(n: int, d: int, k: int)
    requires d > 0 && 0 <= n < k * d
    ensures 0 <= n / d < k && 0 <= n % d < d && n == n / d * d + n % d
  {
    var q := n / d;
    assert n == d * q + n % d;
    if q < 0 {
      MulMonotone(d, q, -1);
    }
    if q >= k {
      MulMonotone(d, k, q);
    }
  }

  /** Within one period [x, x + s) above a multiple x of s, the only number
      with residue r mod s is x + r. */
  lemma ResidueStep(a: int, x: int, s: int, r: int)
    requires s > 0 && 0 <= r < s && x % s == 0 && a % s == r && x <= a < x + s
    ensures a == x + r
  {
    var qx := x / s;
    assert x == s * qx;
    DivModUnique(a, s, qx, a - x);
  }

  /** Two numbers congruent mod s less than s apart are equal. */
  lemma CongruentClose(a: int, x: int, s: int)
    requires s > 0 && a % s == x % s && x <= a < x + s
    ensures a == x
  {
    var qx, r := x / s, x % s;
    assert x == s * qx + r;
    if a - x + r < s {
      DivModUnique(a, s, qx, a - x + r);
    } else {
      DivModUnique(a, s, qx + 1, a - x + r - s);
    }
  }

  lemma MulAddOne(a: int, b: int)
    ensures a * b + b == (a + 1) * b
  {
  }
}
