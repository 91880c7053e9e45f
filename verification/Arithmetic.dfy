/** Minimum, maximum, and division with remainder as the circular indices and the timer wheel use it. */
module Arithmetic {

  function Min(a: int, b: int): int { if a < b then a else b }

  function Max(a: int, b: int): int { if a < b then b else a }

  lemma MultipleSize(m: int, k: int)
    requires 0 < m
    ensures k >= 1 ==> m * k >= m
    ensures k <= -1 ==> m * k <= -m
  {}

  /** Quotient and remainder are determined by the equation between them. */
  lemma ModUnique(a: int, m: int, r: int, k: int)
    requires 0 < m && 0 <= r < m && a == m * k + r
    ensures a % m == r && a / m == k
  {
    MultipleSize(m, k - a / m);
    assert m * (k - a / m) == a % m - r;
  }

  /** Reducing first changes nothing. */
  lemma ModShift(a: int, d: int, m: int)
    requires 0 < m
    ensures (a % m + d) % m == (a + d) % m
  {
    var x := a % m + d;
    assert a + d == (a / m + x / m) * m + x % m by {
      assert m * (a / m) + m * (x / m) == (a / m + x / m) * m;
    }
    ModUnique(a + d, m, x % m, a / m + x / m);
  }

  /** Numbers less than m apart have different remainders. */
  lemma ModDistinct(a: int, b: int, m: int)
    requires 0 < m && 0 < b - a < m
    ensures a % m != b % m
  {
    MultipleSize(m, b / m - a / m);
    assert b - a == m * (b / m - a / m) + (b % m - a % m);
  }
}
