/**
 Fixed-width C++ integers, written out over Dafny's unbounded `int`.
 */
module MachineInt {

  const TWO_16: int := 0x1_0000
  const TWO_32: int := 0x1_0000_0000
  const TWO_63: int := 0x8000_0000_0000_0000
  const TWO_64: int := 0x1_0000_0000_0000_0000

  type Byte = b: int | 0 <= b < 256

  /** The value a `uint64_t` holds after being assigned `x`. */
  function ToUint64(x: int): int {
    x % TWO_64
  }

  /** The value an `int64_t` holds after being assigned `x` (two's complement). */
  function ToInt64(x: int): int {
    var u := x % TWO_64;
    if u < TWO_63 then u else u - TWO_64
  }

  /** C++ `a % b` for a positive divisor: the remainder takes the sign of the dividend. */
  function RemTrunc(a: int, b: int): int
    requires b > 0
  {
    if a >= 0 then a % b else -((-a) % b)
  }

  function Max(a: int, b: int): int {
    if a >= b then a else b
  }

  /** The least integer not below `a / b`. */
  function CeilDiv(a: int, b: int): int
    requires b > 0
  {
    -((-a) / b)
  }

  /** An unsigned difference read back as a signed number is the true difference. */
  lemma SignedDifference(a: int, b: int)
    requires -TWO_63 <= a - b < TWO_63
    ensures ToInt64(ToUint64(a - b)) == a - b
  {
  }

  /** Wrapping early or late makes no difference to a sum. */
  lemma WrappedSum(a: int, b: int)
    ensures ToUint64(ToUint64(a) + b) == ToUint64(a + b)
  {
  }

  lemma Unwrapped(a: int)
    requires 0 <= a < TWO_64
    ensures ToUint64(a) == a
  {
  }

  /** A non-zero multiple of `b` is at least `b` away from zero. */
  lemma MultipleGap(k: int, b: int)
    requires b > 0
    ensures k >= 1 ==> k * b >= b
    ensures k <= -1 ==> k * b <= -b
    ensures k <= 0 ==> k * b <= 0
    ensures k >= 0 ==> k * b >= 0
  {
  }

  /** A quotient and a remainder that fit are the quotient and the remainder. */
  lemma DivModUnique(a: int, b: int, q: int, r: int)
    requires b > 0
    requires 0 <= r < b
    requires a == q * b + r
    ensures a / b == q
    ensures a % b == r
  {
    var q', r' := a / b, a % b;
    assert (q - q') * b == r' - r;
    MultipleGap(q - q', b);
  }
}
