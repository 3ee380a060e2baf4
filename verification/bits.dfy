/** The C++ bitwise `&` used for table hashing and toroidal wrap. A 32-bit
    `int` is a two's-complement bit pattern; `And` computes the bitwise
    conjunction of two such patterns bit by bit. */
module Bits {
  import opened Lattice

  const TWO_POW_32: nat := 0x1_0000_0000

  /** The unsigned bit pattern of a 32-bit two's-complement integer. */
  function Unsigned32(n: int): (u: nat)
    ensures u < TWO_POW_32
  {
    n % TWO_POW_32
  }

  /** Bitwise AND of two bit patterns, least significant bit first. */
  function And(a: nat, b: nat): (r: nat)
    ensures r <= a && r <= b
    decreases a
  {
    if a == 0 || b == 0 then 0
    else 2 * And(a / 2, b / 2) + (if a % 2 == 1 && b % 2 == 1 then 1 else 0)
  }

  /** `n & m` on a 32-bit int n and a non-negative mask m. */
  function Mask(n: int, m: nat): (r: nat)
    ensures r <= m
  {
    And(Unsigned32(n), m)
  }

  /** Masking with p - 1 keeps the low bits: the remainder modulo p. */
  lemma {:induction false} AndLowMask(a: nat, p: nat)
    requires IsPow2(p)
    ensures And(a, p - 1) == a % p
    decreases p
  {
    if p > 1 && a != 0 {
      var h := HalfPow2(p);
      AndOddMask(a, p - 1);
      AndLowMask(a / 2, h);
      HalfMod(a, h);
    }
  }

  /** A power of two above one is twice a smaller power of two. */
  lemma HalfPow2(p: nat) returns (h: nat)
    requires IsPow2(p) && p > 1
    ensures IsPow2(h) && p == 2 * h && (p - 1) / 2 == h - 1 && (p - 1) % 2 == 1
  {
    h := p / 2;
  }

  /** With an odd mask the low bit of a survives. */
  lemma AndOddMask(a: nat, m: nat)
    requires a != 0 && m % 2 == 1
    ensures And(a, m) == 2 * And(a / 2, m / 2) + a % 2
  {
  }

  /** The remainder modulo 2h, from the remainder of a / 2 modulo h and the low bit. */
  lemma HalfMod(a: nat, h: nat)
    requires h > 0
    ensures a % (2 * h) == 2 * ((a / 2) % h) + a % 2
  {
    var q, s := (a / 2) / h, (a / 2) % h;
    assert a / 2 == h * q + s;
    assert a == 2 * (a / 2) + a % 2;
    assert a == (2 * h) * q + (2 * s + a % 2);
    DivModUnique(a, 2 * h, q, 2 * s + a % 2);
  }

  /** For a power of two p that fits 32 bits, `n & (p - 1)` is the Euclidean
      remainder n % p, negative n included. */
  lemma MaskIsMod(n: int, p: nat)
    requires IsPow2(p) && p <= TWO_POW_32
    ensures Mask(n, p - 1) == n % p
  {
    AndLowMask(Unsigned32(n), p);
    PowerOfTwoIsPow2(32);
    TwoPow32();
    Pow2Divides(p, TWO_POW_32);
    ModOfMod(n, TWO_POW_32, p);
  }

  function PowerOfTwo(k: nat): nat
  {
    if k == 0 then 1 else 2 * PowerOfTwo(k - 1)
  }

  lemma PowerOfTwoIsPow2(k: nat)
    ensures IsPow2(PowerOfTwo(k))
  {
  }

  lemma TwoPow32()
    ensures PowerOfTwo(32) == TWO_POW_32
  {
    assert PowerOfTwo(4) == 16;
    PowerOfTwoAdd(4, 4);
    PowerOfTwoAdd(8, 8);
    PowerOfTwoAdd(16, 16);
  }

  lemma {:induction false} PowerOfTwoAdd(a: nat, b: nat)
    ensures PowerOfTwo(a + b) == PowerOfTwo(a) * PowerOfTwo(b)
  {
    if a > 0 {
      PowerOfTwoAdd(a - 1, b);
      var x: int, y: int := PowerOfTwo(a - 1), PowerOfTwo(b);
      assert PowerOfTwo(a + b) == 2 * PowerOfTwo(a - 1 + b) == 2 * (x * y);
      assert PowerOfTwo(a) == 2 * x;
      Double(x, y);
    }
  }

  lemma Double(x: int, y: int)
    ensures 2 * (x * y) == (2 * x) * y
  {
  }
}
