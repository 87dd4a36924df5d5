/** Fixed-width machine integers as used by the C and Python sources:
    uint32 / int32 wrap-around, C's truncating division and arithmetic
    right shift, all stated over Dafny's unbounded `int`. */
module Ints {

  const TWO_8: int := 0x100
  const TWO_16: int := 0x1_0000
  const TWO_31: int := 0x8000_0000
  const TWO_32: int := 0x1_0000_0000
  const TWO_63: int := 0x8000_0000_0000_0000
  const TWO_64: int := 0x1_0000_0000_0000_0000

  predicate IsU32(x: int) { 0 <= x < TWO_32 }
  predicate IsI32(x: int) { -TWO_31 <= x < TWO_31 }
  predicate IsU64(x: int) { 0 <= x < TWO_64 }

  /** 2^n. */
  function Pow2(n: nat): (r: nat)
    ensures r >= 1
  {
    if n == 0 then 1 else 2 * Pow2(n - 1)
  }

  lemma {:induction false} Pow2Add(a: nat, b: nat)
    ensures Pow2(a + b) == Pow2(a) * Pow2(b)
  {
    if a > 0 {
      Pow2Add(a - 1, b);
      assert Pow2(a + b) == 2 * Pow2(a - 1 + b);
    }
  }

  lemma {:induction false} Pow2Values()
    ensures Pow2(8) == TWO_8 && Pow2(16) == TWO_16 && Pow2(24) == 0x100_0000
    ensures Pow2(31) == TWO_31 && Pow2(32) == TWO_32
  {
    assert Pow2(4) == 16;
    assert Pow2(8) == 256;
    Pow2Add(8, 8);
    Pow2Add(16, 8);
    Pow2Add(16, 15);
    Pow2Add(16, 16);
    assert Pow2(15) == 0x8000 by { Pow2Add(8, 7); assert Pow2(7) == 128; }
  }

  /** Reduction into uint32, as C does on every uint32 assignment. */
  function U32(x: int): (r: int)
    ensures IsU32(r) && (x - r) % TWO_32 == 0
    ensures IsU32(x) ==> r == x
  {
    x % TWO_32
  }

  /** Reduction into uint64. */
  function U64(x: int): (r: int)
    ensures IsU64(r) && (x - r) % TWO_64 == 0
    ensures IsU64(x) ==> r == x
  {
    x % TWO_64
  }

  /** Two's complement reinterpretation of the low 32 bits as int32. */
  function I32(x: int): (r: int)
    ensures IsI32(r) && (x - r) % TWO_32 == 0
    ensures IsI32(x) ==> r == x
  {
    var u := x % TWO_32;
    if u < TWO_31 then u else u - TWO_32
  }

  /** C's `/` for a positive divisor: the quotient truncated toward zero. */
  function CDiv(n: int, d: int): (q: int)
    requires d > 0
    ensures n >= 0 ==> q * d <= n < q * d + d
    ensures n < 0 ==> q * d - d < n <= q * d
  {
    if n >= 0 then n / d else -((-n) / d)
  }

  /** C's `%` for a positive divisor: the remainder takes the sign of `n`. */
  function CMod(n: int, d: int): (m: int)
    requires d > 0
    ensures n == CDiv(n, d) * d + m
    ensures n >= 0 ==> 0 <= m < d
    ensures n < 0 ==> -d < m <= 0
  {
    n - CDiv(n, d) * d
  }

  /** Python's `int(x)` on a float: truncation toward zero. */
  function Trunc(x: real): (r: int)
    ensures x >= 0.0 ==> r as real <= x < r as real + 1.0
    ensures x < 0.0 ==> r as real - 1.0 < x <= r as real
  {
    if x >= 0.0 then x.Floor else -((-x).Floor)
  }

  /** Python's `math.ceil`. */
  function Ceil(x: real): (r: int)
    ensures r as real - 1.0 < x <= r as real
  {
    -((-x).Floor)
  }

  /** Arithmetic right shift (`>>` on a signed or unsigned integer): floor division by 2^n. */
  function Shr(x: int, n: nat): (r: int)
    ensures r * Pow2(n) <= x < r * Pow2(n) + Pow2(n)
  {
    x / Pow2(n)
  }

  /** The low `n` bits of `x` (`x & ((1 << n) - 1)`). */
  function LowBits(x: int, n: nat): (r: int)
    ensures 0 <= r < Pow2(n)
    ensures x == Shr(x, n) * Pow2(n) + r
  {
    x % Pow2(n)
  }

  /** Euclidean remainder is determined by any quotient/remainder split. */
  lemma {:induction false} ModUnique(n: int, m: int, k: int, r: int)
    requires m > 0 && 0 <= r < m && n == k * m + r
    ensures n % m == r && n / m == k
  {
    var q, r0 := n / m, n % m;
    var d := q - k;
    assert q * m - k * m == d * m;
    assert d * m == r - r0;
    if d >= 1 {
      MulAtLeast(d, m);
    } else if d <= -1 {
      MulAtLeast(-d, m);
    }
  }

  lemma {:induction false} MulAtLeast(d: int, m: int)
    requires d >= 1 && m > 0
    ensures d * m >= m
  {
    assert d * m == (d - 1) * m + m;
  }

  /** Reducing one summand first does not change the remainder. */
  lemma {:induction false} ModAdd(a: int, b: int, m: int)
    requires m > 0
    ensures (a % m + b) % m == (a + b) % m
  {
    var k := (a % m + b) / m;
    var r := (a % m + b) % m;
    assert a % m + b == k * m + r;
    assert a + b == (k + a / m) * m + r;
    ModUnique(a + b, m, k + a / m, r);
  }

  lemma {:induction false} U32Add(a: int, b: int)
    ensures U32(U32(a) + b) == U32(a + b)
  {
    ModAdd(a, b, TWO_32);
  }

  lemma {:induction false} U32AddBoth(a: int, b: int)
    ensures U32(U32(a) + U32(b)) == U32(a + b)
  {
    U32Add(a, U32(b));
    U32Add(b, a);
  }

  lemma {:induction false} U64Add(a: int, b: int)
    ensures U64(U64(a) + b) == U64(a + b)
  {
    ModAdd(a, b, TWO_64);
  }

  /** Reading a value back as int32 only depends on it modulo 2^32. */
  lemma {:induction false} I32OfU32(x: int)
    ensures I32(U32(x)) == I32(x)
  {
  }
}
