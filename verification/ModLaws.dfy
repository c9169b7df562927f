/** The remainder facts that the round-robin laws need. */
module ModLaws {
  lemma MultipleLeavesRange(d: int, n: int)
    requires n > 0
    ensures d >= 1 ==> d * n >= n
    ensures d <= -1 ==> d * n <= -n
  {
  }

  /** A remainder is determined by any decomposition q * n + r with 0 <= r < n. */
  lemma RemainderUnique(x: int, q: int, n: int, r: int)
    requires 0 <= r < n && x == q * n + r
    ensures x % n == r && x / n == q
  {
    var d := q - x / n;
    assert d * n == x % n - r;
    MultipleLeavesRange(d, n);
  }

  lemma RemainderShift(x: int, k: int, n: int)
    requires n > 0
    ensures (x + k * n) % n == x % n
  {
    assert x + k * n == (x / n + k) * n + x % n;
    RemainderUnique(x + k * n, x / n + k, n, x % n);
  }

  lemma DivisorForgotten(x: int, m: int, n: int)
    requires n > 0 && m % n == 0
    ensures (x + m) % n == x % n
  {
    assert m == (m / n) * n;
    RemainderShift(x, m / n, n);
  }
}
