/**
  Java's fixed-width integers and the few bit-level operations the ring
  buffer relies on (`Integer.bitCount`, `&` on `long`, the `(int)` cast),
  written out over Dafny's unbounded integers.
 */
module Numerics {

  const TWO_32: int := 0x1_0000_0000
  const TWO_64: int := 0x1_0000_0000_0000_0000
  const INT_MIN: int := -0x8000_0000
  const INT_MAX: int := 0x7FFF_FFFF
  const LONG_MIN: int := -0x8000_0000_0000_0000
  const LONG_MAX: int := 0x7FFF_FFFF_FFFF_FFFF

  /** Java `int`. */
  type Int = x: int | -0x8000_0000 <= x <= 0x7FFF_FFFF

  /** Java `long`. */
  type Long = x: int | -0x8000_0000_0000_0000 <= x <= 0x7FFF_FFFF_FFFF_FFFF

  /** Two's-complement wrap-around of an exact result into a `long`. */
  function Wrap64(x: int): (r: Long)
    ensures (x - r) % TWO_64 == 0
    ensures LONG_MIN <= x <= LONG_MAX ==> r == x
  {
    var r := (x - LONG_MIN) % TWO_64 + LONG_MIN;
    ModUnique(x - LONG_MIN, TWO_64, (x - LONG_MIN) / TWO_64, r - LONG_MIN);
    assert x - r == ((x - LONG_MIN) / TWO_64) * TWO_64;
    if LONG_MIN <= x <= LONG_MAX then
      ModUnique(x - LONG_MIN, TWO_64, 0, x - LONG_MIN);
      r
    else
      r
  }

  /** The narrowing `(int)` cast of a `long`: its low 32 bits, read as signed. */
  function Wrap32(x: int): (r: Int)
    ensures (x - r) % TWO_32 == 0
    ensures INT_MIN <= x <= INT_MAX ==> r == x
  {
    var r := (x - INT_MIN) % TWO_32 + INT_MIN;
    ModUnique(x - INT_MIN, TWO_32, (x - INT_MIN) / TWO_32, r - INT_MIN);
    assert x - r == ((x - INT_MIN) / TWO_32) * TWO_32;
    if INT_MIN <= x <= INT_MAX then
      ModUnique(x - INT_MIN, TWO_32, 0, x - INT_MIN);
      r
    else
      r
  }

  /** Euclidean division is determined by its quotient and remainder. */
  lemma ModUnique(a: int, d: int, q: int, r: int)
    requires 0 < d && 0 <= r < d && a == q * d + r
    ensures a % d == r && a / d == q
  {
    var t := q - a / d;
    assert t * d == a % d - r;
  }

  /** Adding a multiple of the divisor leaves the remainder alone. */
  lemma ModAddMultiple(x: int, c: int, p: int)
    requires 0 < p
    ensures (x + c * p) % p == x % p
  {
    assert x == (x / p) * p + x % p;
    assert x + c * p == (x / p + c) * p + x % p;
    ModUnique(x + c * p, p, x / p + c, x % p);
  }

  function Pow2(k: nat): (p: nat)
    ensures p >= 1
  {
    if k == 0 then 1 else 2 * Pow2(k - 1)
  }

  lemma {:induction false} Pow2Add(a: nat, b: nat)
    ensures Pow2(a + b) == Pow2(a) * Pow2(b)
  {
    if a > 0 {
      Pow2Add(a - 1, b);
      assert Pow2(a + b) == 2 * Pow2(a - 1 + b);
    }
  }

  lemma {:induction false} Pow2StrictlyIncreasing(a: nat, b: nat)
    requires a < b
    ensures Pow2(a) < Pow2(b)
  {
    if b > a + 1 {
      Pow2StrictlyIncreasing(a, b - 1);
    }
  }

  lemma Pow2Constants()
    ensures Pow2(31) == 0x8000_0000 && Pow2(32) == TWO_32 && Pow2(64) == TWO_64
  {
    assert Pow2(2) == 4;
    Pow2Add(2, 2);
    assert Pow2(4) == 16;
    Pow2Add(4, 4);
    assert Pow2(8) == 0x100;
    Pow2Add(8, 8);
    assert Pow2(16) == 0x1_0000;
    Pow2Add(16, 16);
    assert Pow2(32) == TWO_32;
    Pow2Add(32, 32);
    assert Pow2(32) == 2 * Pow2(31);
  }

  /** A positive power of two, as `Integer.bitCount(n) == 1` is meant to detect. */
  ghost predicate IsPowerOfTwo(n: int)
  {
    exists k: nat :: Pow2(k) == n
  }

  /** The number of one bits of a non-negative number. */
  function BitCount(n: nat): nat
  {
    if n == 0 then 0 else n % 2 + BitCount(n / 2)
  }

  /** `Integer.bitCount`: the one bits of the 32-bit two's-complement pattern. */
  function BitCount32(x: Int): (r: nat)
    ensures 0 <= x ==> r == BitCount(x)
    ensures x < 0 ==> r == BitCount(x + TWO_32)
  {
    ModUnique(x, TWO_32, if 0 <= x then 0 else -1, if 0 <= x then x else x + TWO_32);
    BitCount(x % TWO_32)
  }

  lemma {:induction false} BitCountZero(n: nat)
    ensures BitCount(n) == 0 <==> n == 0
  {
    if n > 0 && n % 2 == 0 {
      BitCountZero(n / 2);
    }
  }

  lemma {:induction false} BitCountOneIffPowerOfTwo(n: nat)
    ensures BitCount(n) == 1 <==> IsPowerOfTwo(n)
    decreases n
  {
    if n % 2 == 1 {
      BitCountZero(n / 2);
      if n == 1 {
        assert Pow2(0) == 1;
      } else {
        forall k: nat ensures Pow2(k) != n {
          if k > 0 {
            assert Pow2(k) == 2 * Pow2(k - 1);
          }
        }
      }
    } else if n > 0 {
      BitCountOneIffPowerOfTwo(n / 2);
      if IsPowerOfTwo(n) {
        var k: nat :| Pow2(k) == n;
        assert k > 0 && Pow2(k - 1) == n / 2;
      }
      if IsPowerOfTwo(n / 2) {
        var k: nat :| Pow2(k) == n / 2;
        assert Pow2(k + 1) == n;
      }
    }
  }

  /** The only powers of two below 2^32 are Pow2(0) .. Pow2(31). */
  lemma PowerOfTwoBelow(n: int, bound: nat) returns (k: nat)
    requires IsPowerOfTwo(n) && n < Pow2(bound)
    ensures Pow2(k) == n && k < bound
  {
    k :| Pow2(k) == n;
    if k >= bound {
      if k > bound {
        Pow2StrictlyIncreasing(bound, k);
      }
      assert false;
    }
  }

  /**
    `Integer.bitCount(x) == 1` holds exactly for the positive powers of two
    and for `Integer.MIN_VALUE`, whose pattern is a lone sign bit.
   */
  lemma BitCount32OneIff(x: Int)
    ensures BitCount32(x) == 1 <==> (0 < x && IsPowerOfTwo(x)) || x == INT_MIN
  {
    Pow2Constants();
    if x >= 0 {
      ModUnique(x, TWO_32, 0, x);
      BitCountOneIffPowerOfTwo(x);
      if IsPowerOfTwo(x) {
        var k: nat :| Pow2(k) == x;
      }
    } else {
      var u := x + TWO_32;
      ModUnique(x, TWO_32, -1, u);
      BitCountOneIffPowerOfTwo(u);
      if IsPowerOfTwo(u) {
        var k := PowerOfTwoBelow(u, 32);
        if k < 31 {
          Pow2StrictlyIncreasing(k, 31);
        }
        assert u == 0x8000_0000;
      }
      if x == INT_MIN {
        assert Pow2(31) == u;
      }
    }
  }

  /** Bitwise AND of two non-negative numbers. */
  function And(a: nat, b: nat): (r: nat)
    ensures r <= a && r <= b
  {
    if a == 0 || b == 0 then 0
    else 2 * And(a / 2, b / 2) + (if a % 2 == 1 && b % 2 == 1 then 1 else 0)
  }

  lemma HalveStep(a: nat, m: nat)
    requires m > 0
    ensures 2 * ((a / 2) % m) + a % 2 == a % (2 * m)
  {
    var q := a / 2;
    assert q == (q / m) * m + q % m;
    assert a == (q / m) * (2 * m) + (2 * (q % m) + a % 2);
    ModUnique(a, 2 * m, q / m, 2 * (q % m) + a % 2);
  }

  lemma AndOddMask(a: nat, m: nat)
    requires a > 0 && m > 0 && And(a / 2, m - 1) == (a / 2) % m
    ensures And(a, 2 * m - 1) == a % (2 * m)
  {
    assert (2 * m - 1) / 2 == m - 1 && (2 * m - 1) % 2 == 1;
    assert And(a, 2 * m - 1) == 2 * And(a / 2, m - 1) + a % 2;
    HalveStep(a, m);
  }

  /** AND with a mask of k low one bits keeps the remainder modulo 2^k. */
  lemma {:induction false} AndLowMask(a: nat, k: nat)
    ensures And(a, Pow2(k) - 1) == a % Pow2(k)
  {
    if k > 0 && a > 0 {
      var m := Pow2(k - 1);
      assert Pow2(k) == 2 * m;
      AndLowMask(a / 2, k - 1);
      AndOddMask(a, m);
    } else if k == 0 {
      assert Pow2(k) - 1 == 0;
    } else {
      assert a == 0;
    }
  }

  /** The 64-bit two's-complement pattern of a `long`. */
  function Unsigned64(x: Long): (u: nat)
    ensures u < TWO_64
    ensures 0 <= x ==> u == x
  {
    if x >= 0 then x else x + TWO_64
  }

  /** The `long` whose two's-complement pattern is `u`. */
  function Signed64(u: nat): (x: Long)
    requires u < TWO_64
    ensures Unsigned64(x) == u
  {
    if u <= LONG_MAX then u else u - TWO_64
  }

  /** Java's `a & b` on `long`. */
  function LongAnd(a: Long, b: Long): (r: Long)
    ensures 0 <= b ==> 0 <= r <= b
  {
    Signed64(And(Unsigned64(a), Unsigned64(b)))
  }

  /** Java's `%` on integers: truncating, so the remainder takes the sign of the dividend. */
  function JavaRem(a: int, d: int): (r: int)
    requires d != 0
    ensures a >= 0 && d > 0 ==> r == a % d
    ensures a < 0 && d > 0 ==> -d < r <= 0
  {
    if a >= 0 then a % (if d > 0 then d else -d)
    else -((-a) % (if d > 0 then d else -d))
  }
}
