/** The integer rules of C and of the Arduino core that the sketch relies on:
    narrowing to `uint8_t`, signed division that truncates toward zero, and
    the core's `map` re-scaling function (computed over `long`). */
module Arduino {

  /** A value of C's `uint8_t`. */
  type Byte = x: int | 0 <= x < 256

  /** Conversion of an integer to `uint8_t`: C keeps the value modulo 2^8. */
  function Narrow(x: int): (b: Byte)
    ensures 0 <= x < 256 ==> b == x
    ensures (x - b) % 256 == 0
  {
    x % 256
  }

  function Abs(x: int): nat
  {
    if x < 0 then -x else x
  }

  /** C's `/` on signed integers. Dafny's own `/` on `int` is Euclidean
      (it rounds a negative quotient down), C's rounds toward zero. */
  function TruncDiv(a: int, b: int): int
    requires b != 0
  {
    if (a < 0) == (b < 0) then Abs(a) / Abs(b) else -(Abs(a) / Abs(b))
  }

  /** Truncating division rounds toward zero: its magnitude is the floor of
      |a| / b, its sign is that of a, and negating the numerator negates it. */
  lemma TruncDivTowardZero(a: int, b: int)
    requires b > 0
    ensures Abs(TruncDiv(a, b)) * b <= Abs(a) < (Abs(TruncDiv(a, b)) + 1) * b
    ensures TruncDiv(a, b) == 0 || ((TruncDiv(a, b) < 0) == (a < 0))
    ensures TruncDiv(-a, b) == -TruncDiv(a, b)
    ensures a >= 0 ==> TruncDiv(a, b) == a / b
  {
    var q := Abs(a) / b;
    assert Abs(a) == q * b + Abs(a) % b;
  }

  /** Arduino's `map(x, inMin, inMax, outMin, outMax)`. */
  function Map(x: int, inMin: int, inMax: int, outMin: int, outMax: int): int
    requires inMin != inMax
  {
    TruncDiv((x - inMin) * (outMax - outMin), inMax - inMin) + outMin
  }

  /** A multiple of d that lies strictly between -d and d is zero. */
  lemma {:induction false} SmallMultiple(m: int, d: int)
    requires d > 0 && -d < m * d < d
    ensures m == 0
  {
    if m >= 1 {
      assert m * d == (m - 1) * d + d;
      NonNegProduct(m - 1, d);
    } else if m <= -1 {
      assert m * d == -((-m - 1) * d) - d;
      NonNegProduct(-m - 1, d);
    }
  }

  lemma NonNegProduct(x: nat, y: nat)
    ensures x * y >= 0
  {}

  /** Dividing an exact multiple gives the multiplier back. */
  lemma ExactDiv(k: int, d: int)
    requires d > 0
    ensures (d * k) / d == k
  {
    var q, r := (d * k) / d, (d * k) % d;
    assert d * k == d * q + r;
    assert (k - q) * d == r;
    SmallMultiple(k - q, d);
  }

  /** `map` sends the ends of the input range to the ends of the output range. */
  lemma MapEndpoints(inMin: int, inMax: int, outMin: int, outMax: int)
    requires inMin < inMax
    ensures Map(inMin, inMin, inMax, outMin, outMax) == outMin
    ensures Map(inMax, inMin, inMax, outMin, outMax) == outMax
  {
    var d := inMax - inMin;
    var k := outMax - outMin;
    assert (inMin - inMin) * k == 0;
    if k >= 0 {
      ExactDiv(k, d);
      NonNegProduct(d, k);
    } else {
      ExactDiv(-k, d);
      NonNegProduct(d, -k);
      assert d * k == -(d * -k);
    }
  }

  lemma DivBound(x: nat, y: nat, d: nat)
    requires 0 < d && x <= d
    ensures 0 <= x * y / d <= y
  {
    NonNegProduct(x, y);
    assert x * y <= d * y;
    ExactDiv(y, d);
    DivMonotone(x * y, d * y, d);
  }

  lemma DivMonotone(a: nat, b: nat, d: nat)
    requires 0 < d && a <= b
    ensures a / d <= b / d
  {
    var qa, qb := a / d, b / d;
    assert a == qa * d + a % d;
    assert b == qb * d + b % d;
    if qa > qb {
      MulMonotone(qb + 1, qa, d);
    }
  }

  lemma MulMonotone(x: nat, y: nat, n: nat)
    requires x <= y
    ensures x * n <= y * n
  {
    NonNegProduct(y - x, n);
    assert y * n == x * n + (y - x) * n;
  }

  lemma DivStrict(a: nat, k: nat, d: nat)
    requires 0 < d && a < d * k
    ensures a / d < k
  {
    var q := a / d;
    assert a == q * d + a % d;
    if q >= k {
      MulMonotone(k, q, d);
    }
  }
}
