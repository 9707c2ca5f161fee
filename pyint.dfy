/** Python's integer floor division `//`, which Dafny's Euclidean `/` matches only for positive divisors. */
module PyInt {

  function FloorDiv(a: int, b: int): (q: int)
    requires b != 0
    ensures b > 0 ==> b * q <= a < b * q + b
    ensures b < 0 ==> b * q >= a > b * q + b
  {
    if b > 0 then a / b else (-a) / (-b)
  }

  function Max(a: int, b: int): int { if a >= b then a else b }

  function Min(a: int, b: int): int { if a <= b then a else b }

  /** `max(lo, min(x, hi))`, the clamp the source writes out by hand. */
  function Clamp(x: int, lo: int, hi: int): (r: int)
    ensures lo <= hi ==> lo <= r <= hi
    ensures lo <= x <= hi ==> r == x
  {
    Max(lo, Min(x, hi))
  }

  /** Euclidean division is unique: a quotient and remainder in range are the ones `/` and `%` give. */
  lemma ModUnique(x: int, n: int, q: int, r: int)
    requires n > 0 && 0 <= r < n && x == q * n + r
    ensures x % n == r && x / n == q
  {
    var q0, r0 := x / n, x % n;
    assert x == q0 * n + r0 && 0 <= r0 < n;
    SameDivision(n, q, r, q0, r0);
  }

  lemma SameDivision(n: int, q: int, r: int, q0: int, r0: int)
    requires n > 0 && 0 <= r < n && 0 <= r0 < n && q * n + r == q0 * n + r0
    ensures q == q0 && r == r0
  {
    if q > q0 {
      assert (q - q0) * n == q * n - q0 * n;
      MulAtLeast(q - q0, n);
    } else if q < q0 {
      assert (q0 - q) * n == q0 * n - q * n;
      MulAtLeast(q0 - q, n);
    }
  }

  lemma MulAtLeast(k: int, n: int)
    requires k >= 1 && n > 0
    ensures k * n >= n
    decreases k
  {
    if k > 1 {
      MulAtLeast(k - 1, n);
      assert k * n == (k - 1) * n + n;
    }
  }

  /** Floor division undoes multiplication by a nonzero divisor. */
  lemma FloorDivMul(k: int, n: int)
    requires n != 0
    ensures FloorDiv(k * n, n) == k
  {
    if n > 0 {
      ModUnique(k * n, n, k, 0);
    } else {
      assert -(k * n) == k * (-n);
      ModUnique(k * (-n), -n, k, 0);
    }
  }
}
