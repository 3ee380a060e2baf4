/** `PerlinNoiseGenerator`: 2D gradient noise over a 256-entry permutation
    table and 8 gradient vectors. The vectors are abstract here (the source
    builds them with cos and sin of multiples of 45 degrees), and the
    uniform choices of the shuffle are a parameter. */
module PerlinNoise {
  import opened Bits

  datatype Vec2 = Vec2(x: real, y: real)

  const TABLE_SIZE: int := 256
  const GRADIENT_COUNT: int := 8

  /** `lerp`: the point a fraction t of the way from a0 to a1. */
  function Lerp(a0: real, a1: real, t: real): (r: real)
    ensures t == 0.0 ==> r == a0
    ensures t == 1.0 ==> r == a1
    ensures a0 == a1 ==> r == a0
  {
    a0 + t * (a1 - a0)
  }

  /** `fade`: the smoothstep 6t^5 - 15t^4 + 10t^3, flat at both ends. */
  function Fade(t: real): (r: real)
    ensures t == 0.0 ==> r == 0.0
    ensures t == 1.0 ==> r == 1.0
  {
    t * t * t * (t * (t * 6.0 - 15.0) + 10.0)
  }

  /** `dotProduct` of a gradient with the offset (x, y). */
  function Dot(grad: Vec2, x: real, y: real): (r: real)
    ensures x == 0.0 && y == 0.0 ==> r == 0.0
  {
    grad.x * x + grad.y * y
  }

  /** The C++ conversion `(int)x`: truncation toward zero. */
  function Trunc(x: real): (n: int)
    ensures x >= 0.0 ==> n as real <= x < n as real + 1.0
    ensures x < 0.0 ==> n as real - 1.0 < x <= n as real
  {
    if x >= 0.0 then x.Floor else -((-x).Floor)
  }

  /** x0 of `GenerateNoise`: `(int)x` for positive x, `(int)x - 1` otherwise. */
  function CellOrigin(x: real): int {
    if x > 0.0 then Trunc(x) else Trunc(x) - 1
  }

  /** x lies in the cell [x0, x0 + 1]; the offset x - x0 is 0 exactly at
      the positive integers and 1 exactly at the other integers, so x0 is
      the floor of x except at 0 and the negative integers. */
  lemma CellOffset(x: real)
    ensures var f := x - CellOrigin(x) as real; 0.0 <= f <= 1.0
    ensures x - CellOrigin(x) as real == 0.0 <==> x > 0.0 && x == x.Floor as real
    ensures x - CellOrigin(x) as real == 1.0 <==> x <= 0.0 && x == x.Floor as real
    ensures x != x.Floor as real ==> CellOrigin(x) == x.Floor
  {
    if x < 0.0 {
      var n := -((-x).Floor);
      assert -x - 1.0 < (-x).Floor as real <= -x;
      if x == x.Floor as real {
        assert (-x).Floor == -x.Floor;
      } else {
        assert x.Floor == n - 1;
      }
    }
  }

  /** The table index `v & 255`, in [0, 255] for every v. */
  function TableIndex(v: int): (i: int)
    ensures 0 <= i < TABLE_SIZE
  {
    Mask(v, 255)
  }

  /** The gradient index `v & 7`, in [0, 7] for every v. */
  function GradientIndex(v: int): (i: int)
    ensures 0 <= i < GRADIENT_COUNT
  {
    Mask(v, 7)
  }

  /** The identity table 0, 1, ..., n - 1. */
  function Identity(n: nat): (s: seq<int>)
    ensures |s| == n && forall i | 0 <= i < n :: s[i] == i
  {
    seq(n, i => i)
  }

  /** p with the entries at i and j exchanged. */
  function Swap(p: seq<int>, i: int, j: int): (q: seq<int>)
    requires 0 <= i < |p| && 0 <= j < |p|
    ensures |q| == |p| && multiset(q) == multiset(p)
  {
    p[i := p[j]][j := p[i]]
  }

  /** The table after the first n swaps of the shuffle: swap i exchanges
      entries i and choices[i]. */
  function Shuffled(choices: seq<int>, n: nat): (p: seq<int>)
    requires n <= |choices| == TABLE_SIZE && forall i | 0 <= i < |choices| :: 0 <= choices[i] < TABLE_SIZE
    ensures |p| == TABLE_SIZE
  {
    if n == 0 then Identity(TABLE_SIZE) else Swap(Shuffled(choices, n - 1), n - 1, choices[n - 1])
  }

  /** p holds every number 0..255 exactly once. */
  predicate IsPermutation(p: seq<int>) {
    && |p| == TABLE_SIZE
    && (forall i | 0 <= i < |p| :: 0 <= p[i] < TABLE_SIZE)
    && (forall i, j | 0 <= i < j < |p| :: p[i] != p[j])
    && multiset(p) == multiset(Identity(TABLE_SIZE))
  }

  lemma SwapKeepsPermutation(p: seq<int>, i: int, j: int)
    requires IsPermutation(p) && 0 <= i < |p| && 0 <= j < |p|
    ensures IsPermutation(Swap(p, i, j))
  {
  }

  /** The identity table is a permutation of 0..255. */
  lemma IdentityIsPermutation()
    ensures IsPermutation(Identity(TABLE_SIZE))
  {
  }

  /** Whatever the choices, every stage of the shuffle is a permutation of
      0..255: no entry leaves the range, is duplicated or is lost. */
  lemma {:induction false} ShuffledIsPermutation(choices: seq<int>, n: nat)
    requires n <= |choices| == TABLE_SIZE && forall i | 0 <= i < |choices| :: 0 <= choices[i] < TABLE_SIZE
    ensures IsPermutation(Shuffled(choices, n))
  {
    if n == 0 {
      IdentityIsPermutation();
    } else {
      ShuffledIsPermutation(choices, n - 1);
      var previous := Shuffled(choices, n - 1);
      SwapKeepsPermutation(previous, n - 1, choices[n - 1]);
      assert Shuffled(choices, n) == Swap(previous, n - 1, choices[n - 1]);
    }
  }

  /** The 8 gradient vectors. */
  type GradientTable = g: seq<Vec2> | |g| == GRADIENT_COUNT witness seq(GRADIENT_COUNT, i => Vec2(0.0, 0.0))

  /** The 256-entry permutation table. */
  type PermutationTable = p: seq<int> | |p| == TABLE_SIZE witness Identity(TABLE_SIZE)

  /** The first loop of `RandomisePermutations`: entry i becomes i. */
  method FillIdentity(permutations: array<int>)
    requires permutations.Length == TABLE_SIZE
    modifies permutations
    ensures permutations[..] == Identity(TABLE_SIZE)
  {
    for i := 0 to TABLE_SIZE
      invariant forall k | 0 <= k < i :: permutations[k] == k
    {
      permutations[i] := i;
    }
  }

  /** One step of the second loop: exchange entries i and j through a
      temporary. */
  method SwapEntries(permutations: array<int>, i: int, j: int)
    requires 0 <= i < permutations.Length && 0 <= j < permutations.Length
    modifies permutations
    ensures permutations[..] == Swap(old(permutations[..]), i, j)
  {
    var k := permutations[i];
    permutations[i] := permutations[j];
    permutations[j] := k;
  }

  /** `RandomisePermutations`: set the table to the identity, then for each
      i swap entries i and choices[i], in place. */
  method RandomisePermutations(permutations: array<int>, choices: seq<int>)
    requires permutations.Length == TABLE_SIZE
    requires |choices| == TABLE_SIZE && forall i | 0 <= i < |choices| :: 0 <= choices[i] < TABLE_SIZE
    modifies permutations
    ensures permutations[..] == Shuffled(choices, TABLE_SIZE)
    ensures IsPermutation(permutations[..])
  {
    FillIdentity(permutations);
    for i := 0 to TABLE_SIZE
      invariant permutations[..] == Shuffled(choices, i)
    {
      SwapEntries(permutations, i, choices[i]);
      assert Shuffled(choices, i + 1) == Swap(Shuffled(choices, i), i, choices[i]);
    }
    ShuffledIsPermutation(choices, TABLE_SIZE);
  }

  /** A generator: the gradient table and the permutation table, both
      fixed once the constructor has filled them. */
  class PerlinNoiseGenerator {
    const gradients: GradientTable
    const permutations: PermutationTable

    /** The default constructor: take the gradient table, then shuffle the
        permutation table with the 256 choices of `GetRandom(0, 255)`. */
    constructor (gradientTable: GradientTable, choices: seq<int>)
      requires |choices| == TABLE_SIZE && forall i | 0 <= i < |choices| :: 0 <= choices[i] < TABLE_SIZE
      ensures gradients == gradientTable && permutations == Shuffled(choices, TABLE_SIZE)
      ensures IsPermutation(permutations)
    {
      gradients := gradientTable;
      var table := new int[TABLE_SIZE];
      RandomisePermutations(table, choices);
      permutations := table[..];
    }

    /** The gradient index of the lattice corner (a, b). */
    function Corner(a: int, b: int): (g: int)
      ensures 0 <= g < GRADIENT_COUNT
    {
      GradientIndex(permutations[TableIndex(a + permutations[TableIndex(b)])])
    }

    /** `GenerateNoise(x, y)`: blend the four corner gradients' dot products
        with the offset of (x, y) from each corner of its cell, with faded
        weights. */
    function GenerateNoise(x: real, y: real): (v: real)
    {
      var x0 := CellOrigin(x);
      var x1 := x0 + 1;
      var y0 := CellOrigin(y);
      var y1 := y0 + 1;
      var fx := x - x0 as real;
      var fy := y - y0 as real;
      var noise11 := Dot(gradients[Corner(x0, y0)], fx, fy);
      var noise12 := Dot(gradients[Corner(x1, y0)], fx - 1.0, fy);
      var noise21 := Dot(gradients[Corner(x0, y1)], fx, fy - 1.0);
      var noise22 := Dot(gradients[Corner(x1, y1)], fx - 1.0, fy - 1.0);
      var ix1 := Lerp(noise11, noise12, Fade(fx));
      var ix2 := Lerp(noise21, noise22, Fade(fx));
      Lerp(ix1, ix2, Fade(fy))
    }

    /** The noise vanishes at every integer lattice point: the offsets there
        are 0 or 1, the faded weights select a single corner, and the offset
        from that corner is (0, 0). */
    lemma LatticeZero(a: int, b: int)
      ensures GenerateNoise(a as real, b as real) == 0.0
    {
      CellOffset(a as real);
      CellOffset(b as real);
    }
  }
}
