/** Go's 64-bit signed integers: wrap-around and truncating division, written out. */
module Int64 {

  const TWO64: int := 0x1_0000_0000_0000_0000
  const MIN64: int := -0x8000_0000_0000_0000
  const MAX64: int := 0x7FFF_FFFF_FFFF_FFFF

  predicate InRange(x: int) {
    MIN64 <= x <= MAX64
  }

  type int64 = x: int | MIN64 <= x <= MAX64

  /** What a Go int64 operation stores when its exact result is x. */
  function Wrap(x: int): (r: int64)
    ensures InRange(x) ==> r == x
    ensures exists k: int :: r == x - k * TWO64
  {
    var m := x % TWO64;
    if m > MAX64 then
      assert m - TWO64 == x - (x / TWO64 + 1) * TWO64;
      m - TWO64
    else
      assert m == x - (x / TWO64) * TWO64;
      m
  }

  /** Division rounded toward zero, on unbounded integers. */
  function TruncDiv(a: int, b: int): (q: int)
    requires b != 0
  {
    if a >= 0 && b > 0 then a / b
    else if a >= 0 then -(a / -b)
    else if b > 0 then -(-a / b)
    else -a / -b
  }

  /** Go's a / b: MinInt64 / -1 wraps to MinInt64. */
  function Quot(a: int64, b: int64): int64
    requires b != 0
  {
    Wrap(TruncDiv(a, b))
  }

  /** Go's a % b, which takes the sign of a. */
  function Rem(a: int64, b: int64): int
    requires b != 0
  {
    a - TruncDiv(a, b) * b
  }

  lemma DivisionRemainder(n: nat, d: nat)
    requires d > 0
    ensures 0 <= n - (n / d) * d < d
  {
    assert n == (n / d) * d + n % d;
  }

  lemma SignMoves(q: int, b: int)
    ensures -q * b == -(q * b) && q * -b == -(q * b)
  {
  }

  /** Truncation leaves a remainder smaller than the divisor, with the dividend's sign. */
  lemma TruncDivBounds(a: int, b: int)
    requires b != 0
    ensures var r := a - TruncDiv(a, b) * b;
            && (b > 0 ==> -b < r < b)
            && (b < 0 ==> b < r < -b)
            && (a >= 0 ==> r >= 0)
            && (a <= 0 ==> r <= 0)
  {
    var n := if a >= 0 then a else -a;
    var d := if b > 0 then b else -b;
    DivisionRemainder(n, d);
    SignMoves(n / d, b);
  }

  /** A running total that wraps at every step is the wrapped exact total. */
  lemma WrapAbsorbs(a: int, b: int)
    ensures Wrap(Wrap(a) + b) == Wrap(a + b)
  {
    var k: int :| Wrap(a) == a - k * TWO64;
    WrapUnique(Wrap(a) + b, a + b, k);
  }

  lemma WrapUnique(x: int, y: int, k: int)
    requires x == y - k * TWO64
    ensures Wrap(x) == Wrap(y)
  {
    assert x % TWO64 == y % TWO64;
  }
}
