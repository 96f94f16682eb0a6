/**
  Exact integer stand-ins for the bit arithmetic the simulator does on
  32-bit C integers: powers of two, floor and ceiling base-2 logarithms,
  bitwise AND and 32-bit complement, all on natural numbers.
 */
module Bits {

  /** 2 raised to n. */
  function Pow2(n: nat): (r: nat)
    ensures r >= 1
  {
    if n == 0 then 1 else 2 * Pow2(n - 1)
  }

  /** Floor of the base-2 logarithm (0 for 0 and 1). */
  function Log2(x: nat): (r: nat)
    ensures x >= 1 ==> Pow2(r) <= x < 2 * Pow2(r)
  {
    if x <= 1 then 0 else 1 + Log2(x / 2)
  }

  predicate IsPow2(x: nat) {
    x >= 1 && Pow2(Log2(x)) == x
  }

  /** Ceiling of the base-2 logarithm: the least r with n <= 2^r. */
  function CeilLog2(n: nat): (r: nat)
    ensures n <= Pow2(r)
    ensures r > 0 ==> Pow2(r - 1) < n
  {
    if n <= 1 then 0 else 1 + CeilLog2((n + 1) / 2)
  }

  /** Bitwise AND of two naturals, one binary digit at a time. */
  function BitAnd(a: nat, b: nat): nat
    decreases a
  {
    if a == 0 || b == 0 then 0
    else 2 * BitAnd(a / 2, b / 2) + (if a % 2 == 1 && b % 2 == 1 then 1 else 0)
  }

  const WORD_RANGE: nat := 0x1_0000_0000

  /** `~x` on a 32-bit word. */
  function Not32(x: nat): nat
    requires x < WORD_RANGE
  {
    WORD_RANGE - 1 - x
  }

  // ---------------------------------------------------------------------
  // Arithmetic facts about powers of two

  lemma {:induction false} Pow2Add(a: nat, b: nat)
    ensures Pow2(a + b) == Pow2(a) * Pow2(b)
  {
    if a > 0 {
      Pow2Add(a - 1, b);
    }
  }

  lemma {:induction false} Pow2Monotone(a: nat, b: nat)
    requires a <= b
    ensures Pow2(a) <= Pow2(b)
  {
    if a < b {
      Pow2Monotone(a, b - 1);
    }
  }

  /** A power of two is its own exact logarithm's power: both logarithms agree on it. */
  lemma {:induction false} LogOfPow2(k: nat)
    ensures Log2(Pow2(k)) == k && CeilLog2(Pow2(k)) == k
  {
    if k > 0 {
      LogOfPow2(k - 1);
      assert Pow2(k) / 2 == Pow2(k - 1);
      assert (Pow2(k) + 1) / 2 == Pow2(k - 1);
    }
  }

  /** For a power of two, the ceiling logarithm the geometry uses is the exact one. */
  lemma CeilLog2OfPow2(x: nat)
    requires IsPow2(x)
    ensures CeilLog2(x) == Log2(x) && Pow2(CeilLog2(x)) == x
  {
    LogOfPow2(Log2(x));
  }

  /** Rounding up to a power of two less than doubles a positive number. */
  lemma CeilLog2Below(n: nat)
    requires n >= 1
    ensures Pow2(CeilLog2(n)) < 2 * n
  {
  }

  lemma MulLeft(x: nat, y: nat, d: nat)
    requires x <= y
    ensures x * d <= y * d
  {
    assert y * d == x * d + (y - x) * d;
  }

  lemma Distribute(x: nat, y: nat, d: nat)
    ensures (x + y) * d == x * d + y * d
  {
  }

  lemma DistributeLeft(d: nat, x: nat, y: nat)
    ensures d * (x + y) == d * x + d * y
  {
  }

  /** The quotient and remainder of a natural by a positive divisor are naturals in range. */
  lemma DivModBounds(a: nat, d: nat)
    requires d >= 1
    ensures 0 <= a / d <= a && 0 <= a % d < d
  {
    DivModSplit(a, d);
    MulAtLeast(a / d, d);
  }

  lemma DivModSplit(a: nat, d: nat)
    requires d > 0
    ensures a == (a / d) * d + a % d
  {
  }

  lemma TwiceLess(n: nat, b: nat)
    requires n >= 1
    ensures (2 * n - 1) * b == 2 * (n * b) - b
  {
    Distribute(n, n - 1, b);
    Distribute(n - 1, 1, b);
  }

  lemma MulAtLeast(x: int, d: nat)
    ensures x >= 1 ==> x * d >= d
  {
    if x >= 1 {
      MulLeft(1, x, d);
    }
  }

  /** q and r are the quotient and remainder of a by d. */
  lemma DivModUnique(a: nat, d: nat, q: nat, r: nat)
    requires d > 0 && r < d && a == q * d + r
    ensures a / d == q && a % d == r
  {
    var q', r' := a / d, a % d;
    assert (q - q') * d == r' - r;
    assert (q' - q) * d == r - r';
    MulAtLeast(q - q', d);
    MulAtLeast(q' - q, d);
  }

  lemma DivDiv(a: nat, b: nat, c: nat)
    requires b > 0 && c > 0
    ensures a / b / c == a / (b * c)
  {
    var q1, r1 := a / b, a % b;
    var q2, r2 := q1 / c, q1 % c;
    DivModSplit(a, b);
    DivModSplit(q1, c);
    NestedRemainder(q2, r2, r1, b, c);
    DivModUnique(a, b * c, q2, r2 * b + r1);
  }

  lemma NestedRemainder(q2: nat, r2: nat, r1: nat, b: nat, c: nat)
    requires r1 < b && r2 < c
    ensures (q2 * c + r2) * b + r1 == q2 * (b * c) + (r2 * b + r1)
    ensures r2 * b + r1 < b * c
  {
    Distribute(q2 * c, r2, b);
    assert q2 * c * b == q2 * (b * c);
    MulLeft(r2, c - 1, b);
    Distribute(c - 1, 1, b);
  }

  /** Splitting a remainder modulo 2P into its low bit and the rest. */
  lemma ModDouble(a: nat, p: nat, q: nat)
    requires p > 0 && q == 2 * p
    ensures a % q == 2 * ((a / 2) % p) + a % 2
  {
    var h := a / 2;
    var k, s := h / p, h % p;
    assert h == k * p + s;
    assert a == 2 * h + a % 2;
    assert 2 * h == k * q + 2 * s by {
      assert 2 * (k * p) == k * (2 * p);
    }
    DivModUnique(a, q, k, 2 * s + a % 2);
  }

  lemma HalveDiv(x: nat, p: nat)
    requires p > 0
    ensures (2 * x) / (2 * p) == x / p
  {
    var q, r := x / p, x % p;
    assert x == q * p + r;
    assert 2 * (q * p) == q * (2 * p);
    DivModUnique(2 * x, 2 * p, q, 2 * r);
  }

  /** The mask of the bits from o up to k - 1. */
  function RangeMask(o: nat, k: nat): (m: nat)
    requires o <= k
  {
    Pow2Monotone(o, k);
    Pow2(k) - Pow2(o)
  }

  // ---------------------------------------------------------------------
  // Bitwise AND against the masks the cache builds

  /** AND with 2^n - 1 keeps the low n bits. */
  lemma {:induction false} BitAndLowOnes(a: nat, n: nat)
    ensures BitAnd(a, Pow2(n) - 1) == a % Pow2(n)
  {
    if n > 0 && a > 0 {
      BitAndLowOnes(a / 2, n - 1);
      BitAndLowOnesStep(a, Pow2(n - 1), Pow2(n));
    } else if n == 0 {
      DivModUnique(a, 1, a, 0);
    } else {
      DivModUnique(0, Pow2(n), 0, 0);
    }
  }

  /** The inductive step of BitAndLowOnes, from p = 2^(n-1) to q = 2^n. */
  lemma BitAndLowOnesStep(a: nat, p: nat, q: nat)
    requires p >= 1 && a > 0 && q == 2 * p
    requires BitAnd(a / 2, p - 1) == (a / 2) % p
    ensures BitAnd(a, q - 1) == a % q
  {
    BitAndOddMask(a, p, q);
    ModDouble(a, p, q);
  }

  /** One binary digit of BitAnd against an odd mask 2p - 1: the low bit of a survives. */
  lemma BitAndOddMask(a: nat, p: nat, q: nat)
    requires p >= 1 && a > 0 && q == 2 * p
    ensures BitAnd(a, q - 1) == 2 * BitAnd(a / 2, p - 1) + a % 2
  {
    var b := q - 1;
    assert b / 2 == p - 1 && b % 2 == 1;
  }

  /** The low k bits, ANDed with the bits from o up to m (o <= k <= m), are the bits from o up to k. */
  lemma {:induction false} BitAndOnesRange(k: nat, m: nat, o: nat)
    requires o <= k <= m
    ensures BitAnd(Pow2(k) - 1, RangeMask(o, m)) == RangeMask(o, k)
  {
    if k > 0 {
      BitAndOnesRange(k - 1, m - 1, if o > 0 then o - 1 else 0);
      BitAndOnesRangeStep(k, m, o);
    }
  }

  /** One binary digit of BitAndOnesRange. */
  lemma BitAndOnesRangeStep(k: nat, m: nat, o: nat)
    requires 0 < k <= m && o <= k
    requires var o' := if o > 0 then o - 1 else 0;
      BitAnd(Pow2(k - 1) - 1, RangeMask(o', m - 1)) == RangeMask(o', k - 1)
    ensures BitAnd(Pow2(k) - 1, RangeMask(o, m)) == RangeMask(o, k)
  {
    var a := Pow2(k) - 1;
    DivModUnique(a, 2, Pow2(k - 1) - 1, 1);
    if o > 0 {
      var b := RangeMask(o, m);
      DivModUnique(b, 2, RangeMask(o - 1, m - 1), 0);
    } else {
      var b := Pow2(m) - 1;
      DivModUnique(b, 2, Pow2(m - 1) - 1, 1);
    }
  }

  /** AND with the mask of bits o..k-1, shifted down by o, is the field of k - o bits above bit o. */
  lemma {:induction false} BitAndField(a: nat, k: nat, o: nat)
    requires o <= k
    ensures BitAnd(a, RangeMask(o, k)) / Pow2(o) == (a / Pow2(o)) % Pow2(k - o)
  {
    if o == 0 || k == o || a == 0 {
      BitAndFieldBase(a, k, o);
    } else {
      BitAndField(a / 2, k - 1, o - 1);
      BitAndFieldStep(a, k, o);
    }
  }

  lemma BitAndFieldBase(a: nat, k: nat, o: nat)
    requires o <= k && (o == 0 || k == o || a == 0)
    ensures BitAnd(a, RangeMask(o, k)) / Pow2(o) == (a / Pow2(o)) % Pow2(k - o)
  {
    if o == 0 {
      BitAndLowOnes(a, k);
      DivModUnique(BitAnd(a, RangeMask(o, k)), 1, BitAnd(a, RangeMask(o, k)), 0);
    } else if k == o {
      assert RangeMask(o, k) == 0;
      DivModUnique(0, Pow2(o), 0, 0);
      DivModUnique(a / Pow2(o), 1, a / Pow2(o), 0);
    } else {
      DivModUnique(0, Pow2(o), 0, 0);
      DivModUnique(0, Pow2(k - o), 0, 0);
    }
  }

  /** One binary digit of BitAndField: an even mask drops the low bit of a. */
  lemma BitAndFieldStep(a: nat, k: nat, o: nat)
    requires 0 < o < k && a > 0
    requires BitAnd(a / 2, RangeMask(o - 1, k - 1)) / Pow2(o - 1) == (a / 2 / Pow2(o - 1)) % Pow2(k - o)
    ensures BitAnd(a, RangeMask(o, k)) / Pow2(o) == (a / Pow2(o)) % Pow2(k - o)
  {
    var p := Pow2(o - 1);
    var m := RangeMask(o, k);
    var m' := RangeMask(o - 1, k - 1);
    assert m == 2 * m';
    DivModUnique(m, 2, m', 0);
    var x := BitAnd(a / 2, m');
    assert BitAnd(a, m) == 2 * x;
    HalveDiv(x, p);
    DivDiv(a, 2, p);
  }
}
