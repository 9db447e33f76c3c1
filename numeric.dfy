/** Python's `int()` on a float (truncation toward zero) and counting the
    multiples of a number, on exact reals and unbounded integers. */
module Numeric {

  /** `int(x)` for a float `x`: truncation toward zero (not the floor). */
  function Trunc(x: real): (n: int)
    ensures 0.0 <= x ==> 0 <= n && n as real <= x < n as real + 1.0
    ensures x < 0.0 ==> n <= 0 && n as real - 1.0 < x <= n as real
  {
    if x >= 0.0 then x.Floor else -((-x).Floor)
  }

  /** On a whole number truncation changes nothing. */
  lemma TruncOfInteger(n: int)
    ensures Trunc(n as real) == n
  {
  }

  /** Truncation is odd: it commutes with negation, which the floor does not. */
  lemma TruncNegate(x: real)
    ensures Trunc(-x) == -Trunc(x)
  {
  }

  /** Truncation is monotone. */
  lemma TruncMonotone(x: real, y: real)
    requires x <= y
    ensures Trunc(x) <= Trunc(y)
  {
  }

  /** A positive multiple of a non-negative number is at least that number. */
  lemma {:induction false} MulAtLeast(x: int, k: int)
    requires x >= 1 && k >= 0
    ensures x * k >= k
    decreases x
  {
    if x > 1 {
      MulAtLeast(x - 1, k);
      assert x * k == (x - 1) * k + k;
    }
  }

  lemma MulSign(x: int, k: int)
    requires k >= 0
    ensures x >= 1 ==> x * k >= k
    ensures x <= -1 ==> x * k <= -k
  {
    if x >= 1 {
      MulAtLeast(x, k);
    } else if x <= -1 {
      MulAtLeast(-x, k);
      assert x * k == -((-x) * k);
    }
  }

  /** Quotient and remainder are the only such pair. */
  lemma DivModUnique(a: int, k: int, q: int, r: int)
    requires k >= 1 && 0 <= r < k && a == q * k + r
    ensures a / k == q && a % k == r
  {
    var q', r' := a / k, a % k;
    assert (q' - q) * k == r - r';
    MulSign(q' - q, k);
  }

  /** Counting up by one: the quotient grows by one exactly when the new
      number is a multiple of `k`, and is then that multiple's factor. */
  lemma DivStep(n: nat, k: int)
    requires k >= 1
    ensures (n + 1) % k == 0 ==> (n + 1) / k == n / k + 1 && n + 1 == (n / k + 1) * k
    ensures (n + 1) % k != 0 ==> (n + 1) / k == n / k
  {
    var q, r := n / k, n % k;
    if r + 1 == k {
      DivModUnique(n + 1, k, q + 1, 0);
    } else {
      DivModUnique(n + 1, k, q, r + 1);
    }
  }

  lemma DivMonotone(a: nat, b: nat, k: int)
    requires k >= 1 && a <= b
    ensures a / k <= b / k
  {
    var qa, qb := a / k, b / k;
    assert (qb - qa) * k == (b - b % k) - (a - a % k);
    MulSign(qb - qa, k);
  }

  /** The `j`-th multiple of `k` (counting from zero) lies within `n` when
      `j` is below `n / k`. */
  lemma MultipleWithin(n: nat, k: int, j: nat)
    requires k >= 1 && j < n / k
    ensures (j + 1) * k <= n
  {
    MulSign(n / k - (j + 1), k);
    assert n / k * k - (j + 1) * k == (n / k - (j + 1)) * k;
  }

  /** How many of 1, 2, ..., n are multiples of `k`. */
  function CountMultiples(n: nat, k: int): nat
    requires k >= 1
  {
    if n == 0 then 0 else CountMultiples(n - 1, k) + (if n % k == 0 then 1 else 0)
  }

  /** Of 1, 2, ..., n exactly `n / k` are multiples of `k`. */
  lemma {:induction false} CountMultiplesQuotient(n: nat, k: int)
    requires k >= 1
    ensures CountMultiples(n, k) == n / k
  {
    if n > 0 {
      CountMultiplesQuotient(n - 1, k);
      DivStep(n - 1, k);
    }
  }
}
