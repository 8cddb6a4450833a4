/** Integer division facts with a positive divisor, used by the week and day arithmetic. */
module Arith {
  lemma {:induction false} MulAtLeast(n: int, k: int)
    requires n > 0 && k >= 1
    ensures n * k >= n
    decreases k
  {
    if k > 1 {
      MulAtLeast(n, k - 1);
      assert n * k == n * (k - 1) + n;
    }
  }

  lemma MulSign(n: int, k: int)
    requires n > 0
    ensures k >= 1 ==> n * k >= n
    ensures k <= -1 ==> n * k <= -n
  {
    if k >= 1 {
      MulAtLeast(n, k);
    } else if k <= -1 {
      MulAtLeast(n, -k);
      assert n * k == -(n * -k);
    }
  }

  /** Quotient and remainder are unique. */
  lemma DivUnique(x: int, n: int, q: int, r: int)
    requires n > 0 && 0 <= r < n && x == n * q + r
    ensures x / n == q && x % n == r
  {
    var q2, r2 := x / n, x % n;
    assert x == n * q2 + r2;
    MulSign(n, q2 - q);
    assert n * q2 == n * q + n * (q2 - q);
  }

  /** Adding the modulus leaves the remainder unchanged. */
  lemma ModAddModulus(x: int, n: int)
    requires n > 0
    ensures (x + n) % n == x % n
  {
    assert x + n == n * (x / n + 1) + x % n;
    DivUnique(x + n, n, x / n + 1, x % n);
  }

  /** Numbers closer than the modulus have equal remainders only when they are equal. */
  lemma ModInjective(a: int, b: int, n: int)
    requires n > 0 && -n < a - b < n
    ensures a % n == b % n <==> a == b
  {
    var k := a / n - b / n;
    MulSign(n, k);
    assert n * (a / n) - n * (b / n) == n * k;
    assert a - b == n * k + (a % n - b % n);
  }

  /** Subtracting a multiple of the modulus from a remainder gives it back. */
  lemma ModMultiple(x: int, q: int, n: int)
    requires n > 0 && 0 <= x < n
    ensures (x - n * q) % n == x
  {
    assert n * (-q) == -(n * q);
    DivUnique(x - n * q, n, -q, x);
  }

  /** Adding `(y - a) % n` to `a` reaches `y` modulo `n`, for `y` a remainder. */
  lemma ModInverse(a: int, y: int, n: int)
    requires n > 0 && 0 <= y < n
    ensures 0 <= (y - a) % n < n && (a + (y - a) % n) % n == y
  {
    var x := y - a;
    assert x == n * (x / n) + x % n;
    ModMultiple(y, x / n, n);
    assert a + x % n == y - n * (x / n);
  }

  /** The quotient reaches `k` exactly when the dividend reaches `k` multiples of the divisor. */
  lemma DivBounds(x: int, n: int, k: int)
    requires n > 0
    ensures x / n >= k <==> x >= n * k
  {
    var q := x / n;
    assert x == n * q + x % n;
    MulSign(n, q - k);
    assert n * q - n * k == n * (q - k);
  }

  /** `math.ceil(a / b)` for a positive divisor, computed exactly: the least `r` with `a <= r * b`. */
  function CeilDiv(a: int, b: int): (r: int)
    requires b > 0
    ensures a <= r * b && (r - 1) * b < a
  {
    var q := (-a) / b;
    assert -a == b * q + (-a) % b;
    -q
  }

  /** Ceiling division by a fixed positive divisor is monotone in the dividend. */
  lemma CeilDivMonotone(a1: int, a2: int, b: int)
    requires b > 0 && a1 <= a2
    ensures CeilDiv(a1, b) <= CeilDiv(a2, b)
  {
    var r1, r2 := CeilDiv(a1, b), CeilDiv(a2, b);
    if r1 > r2 {
      // then (r1 - 1) * b >= r2 * b >= a2 >= a1, against the minimality of r1
      assert (r1 - 1) * b - r2 * b == b * (r1 - 1 - r2);
      MulSign(b, r1 - 1 - r2);
    }
  }

  /** A multiple of the divisor divides exactly. */
  lemma CeilDivExact(k: int, b: int)
    requires b > 0
    ensures CeilDiv(k * b, b) == k
  {
    var r := CeilDiv(k * b, b);
    assert r * b - k * b == b * (r - k);
    assert (r - 1) * b - k * b == b * (r - 1 - k);
    MulSign(b, r - k);
    MulSign(b, r - 1 - k);
  }

  /** Multiplying by a non-negative factor keeps the order. */
  lemma MulLeq(a: int, x: int, y: int)
    requires a >= 0 && x <= y
    ensures a * x <= a * y
  {
    assert a * y - a * x == a * (y - x);
    if a > 0 && y - x >= 1 {
      MulAtLeast(a, y - x);
    }
  }
}
