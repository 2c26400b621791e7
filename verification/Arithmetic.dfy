/**
The few facts about products, quotients and remainders that counters, indices
and times need.
*/
module Arithmetic {

  lemma MulMonotone(a: int, b: int, n: nat)
    requires a <= b
    ensures a * n <= b * n
  {
  }

  lemma MulAtLeast(k: int, n: nat)
    ensures k >= 1 ==> k * n >= n
    ensures k <= -1 ==> k * n + n <= 0
  {
    if k >= 1 {
      MulMonotone(1, k, n);
    } else if k <= -1 {
      MulMonotone(1, -k, n);
    }
  }

  /** Quotient and remainder are unique. */
  lemma DivModUnique(a: int, n: nat, q: int, r: int)
    requires n > 0 && a == q * n + r && 0 <= r < n
    ensures a / n == q && a % n == r
  {
    assert (a / n - q) * n == r - a % n;
    MulAtLeast(a / n - q, n);
  }

  /** Multiples of the modulus do not matter. */
  lemma ModMultiple(a: int, n: nat, k: int)
    requires n > 0
    ensures (a + k * n) % n == a % n
  {
    assert a + k * n == (a / n + k) * n + a % n;
    DivModUnique(a + k * n, n, a / n + k, a % n);
  }

  lemma MultipleMod(k: int, n: nat)
    requires n > 0
    ensures k * n % n == 0
  {
    DivModUnique(k * n, n, k, 0);
  }

  /** Two numbers less than the modulus apart have different remainders. */
  lemma ModDiffers(a: int, b: int, n: nat)
    requires a < b < a + n
    ensures a % n != b % n
  {
    assert (b / n - a / n) * n == b - a - (b % n - a % n);
    MulAtLeast(b / n - a / n, n);
  }
}
