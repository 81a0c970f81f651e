/** Fixed-width integer arithmetic of the target (taken to be an ESP8266, as
    the pin names A0 and D3 suggest: `unsigned int`,
    `unsigned long` and `long` are all 32 bits wide). */
module U32 {

  const MOD: int := 0x1_0000_0000
  const MAX: int := MOD - 1
  const LONG_MIN: int := -0x8000_0000
  const LONG_MAX: int := 0x7FFF_FFFF

  /** An `unsigned int` / `unsigned long` value. */
  type u32 = x: int | 0 <= x < MOD

  /** Unsigned subtraction `a - b`, which wraps around modulo 2^32. */
  function Sub(a: u32, b: u32): (r: u32)
    ensures b <= a ==> r == a - b
    ensures a < b ==> r == MOD - (b - a)
  {
    (a - b) % MOD
  }

  /** Unsigned addition `a + b`, which wraps around modulo 2^32. */
  function Add(a: u32, b: u32): (r: u32)
    ensures a + b < MOD ==> r == a + b
    ensures a + b >= MOD ==> r == a + b - MOD
  {
    (a + b) % MOD
  }

  /** A signed 32-bit `long` can hold `x`. */
  predicate FitsLong(x: int) {
    LONG_MIN <= x <= LONG_MAX
  }

  /** Conversion of an unsigned 32-bit value to `long` (two's complement). */
  function ToSigned(a: u32): (r: int)
    ensures FitsLong(r)
    ensures (r - a) % MOD == 0
  {
    if a <= LONG_MAX then a else a - MOD
  }

  /** Conversion of a `long` to an unsigned 32-bit value (reduction modulo 2^32). */
  function FromSigned(x: int): (r: u32)
    ensures 0 <= x < MOD ==> r == x
    ensures -MOD <= x < 0 ==> r == x + MOD
  {
    x % MOD
  }

  function Abs(x: int): nat {
    if x < 0 then -x else x
  }

  /** C's integer division, which truncates toward zero: the magnitude of
      the quotient is the floor of the magnitudes' quotient and its sign is
      the product of the operands' signs. */
  function DivTrunc(a: int, b: int): (q: int)
    requires b != 0
    ensures Abs(q) == Abs(a) / Abs(b)
    ensures q > 0 ==> (a > 0) == (b > 0)
    ensures q < 0 ==> (a > 0) != (b > 0)
  {
    var m := Abs(a) / Abs(b);
    assert a == 0 ==> m == 0;
    if (a < 0) == (b < 0) then m else -m
  }

  /** The partner of `DivTrunc`: C's division identity. The remainder
      `a - q * b` is smaller than the divisor in magnitude, and it is 0 or
      has the sign of the dividend. */
  lemma DivTruncRemainder(a: int, b: int)
    requires b != 0
    ensures var r := a - DivTrunc(a, b) * b;
      Abs(r) < Abs(b) && (r == 0 || (r > 0) == (a > 0))
  {
    var A: int, B: int := Abs(a), Abs(b);
    var m: int, rr: int := A / B, A % B;
    var p := m * B;
    assert A == p + rr && 0 <= rr < B;
    var q := DivTrunc(a, b);
    var qb := q * b;
    if a >= 0 && b > 0 {
      SignedProduct(q, b, m, B, false, false);
      assert qb == p && a == A;
    } else if a >= 0 {
      SignedProduct(q, b, m, B, true, true);
      assert qb == p && a == A;
    } else if b > 0 {
      SignedProduct(q, b, m, B, true, false);
      assert qb == -p && a == -A;
    } else {
      SignedProduct(q, b, m, B, false, true);
      assert qb == -p && a == -A;
    }
  }

  lemma SignedProduct(x: int, y: int, m: int, n: int, negX: bool, negY: bool)
    requires x == (if negX then -m else m) && y == (if negY then -n else n)
    ensures x * y == (if negX == negY then m * n else -(m * n))
  {
  }
}
