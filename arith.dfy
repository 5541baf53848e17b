/** Facts about Euclidean division used by the seat and deck arithmetic. */
module Arith {

  lemma {:induction false} MulAtLeast(k: int, n: int)
    requires n > 0 && k >= 1
    ensures k * n >= n
  {
    if k > 1 {
      MulAtLeast(k - 1, n);
      assert k * n == (k - 1) * n + n;
    }
  }

  /** Euclidean division is unique: y == c * n + d with 0 <= d < n fixes y / n and y % n. */
  lemma DivUnique(y: int, n: int, c: int, d: int)
    requires n > 0 && y == c * n + d && 0 <= d < n
    ensures y / n == c && y % n == d
  {
    var a, b := y / n, y % n;
    var k := c - a;
    assert k * n == c * n - a * n;
    if k >= 1 {
      MulAtLeast(k, n);
    } else if k <= -1 {
      MulAtLeast(-k, n);
    }
  }

  /** Counting one further: the remainder steps up, or wraps to 0 as the quotient steps up. */
  lemma DivStep(m: nat, n: nat)
    requires n > 0
    ensures m % n + 1 < n ==> (m + 1) / n == m / n && (m + 1) % n == m % n + 1
    ensures m % n + 1 == n ==> (m + 1) / n == m / n + 1 && (m + 1) % n == 0
  {
    var q, r := m / n, m % n;
    if r + 1 < n {
      DivUnique(m + 1, n, q, r + 1);
    } else {
      assert (q + 1) * n == q * n + n;
      DivUnique(m + 1, n, q + 1, 0);
    }
  }

  /** One more factor adds one more copy. */
  lemma MulSucc(i: int, c: int)
    ensures (i + 1) * c == i * c + c
  {
  }

  /** Multiplication by a natural number is monotone. */
  lemma MulMono(k: nat, p: nat, c: nat)
    requires k <= p
    ensures 0 <= k * c <= p * c
  {
    assert p * c - k * c == (p - k) * c;
  }

  lemma MulComm(a: int, b: int)
    ensures a * b == b * a
  {
  }
}
