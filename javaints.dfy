/** Java's integer remainder next to Dafny's, and the one fact about remainders the other modules need. */
module JavaInts {
  /** Java's `%` on `int`: the remainder takes the sign of the dividend. */
  function JavaRem(a: int, n: int): (r: int)
    requires n > 0
    ensures -n < r < n
    ensures a >= 0 ==> r == a % n
    ensures a < 0 ==> r == -((-a) % n)
  {
    if a >= 0 then a % n else -((-a) % n)
  }

  /** The Euclidean remainder is the only remainder in `[0, n)`. */
  lemma ModUnique(a: int, n: int, k: int, r: int)
    requires n > 0 && 0 <= r < n && a == k * n + r
    ensures a % n == r
  {
    var d := k - a / n;
    assert d * n == a % n - r;
    assert d >= 1 ==> d * n == (d - 1) * n + n && (d - 1) * n >= 0;
    assert d <= -1 ==> d * n == (d + 1) * n - n && (d + 1) * n <= 0;
  }
}
