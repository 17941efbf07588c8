/** Products and quotients of integers that are not constants. */
module Numbers {
  lemma MulSign(a: int, p: int)
    requires p > 0
    ensures a >= 1 ==> a * p >= p
    ensures a <= -1 ==> a * p <= -p
    ensures a >= 0 ==> a * p >= 0
  {
    if a >= 1 {
      assert (a - 1) * p >= 0;
    } else if a <= -1 {
      assert (-a - 1) * p >= 0;
    }
  }

  lemma DivModUnique(q: int, m: int, p: int)
    requires 0 <= m < p
    ensures (q * p + m) / p == q && (q * p + m) % p == m
  {
    var n := q * p + m;
    assert n == n / p * p + n % p;
    MulSign(n / p - q, p);
  }

  lemma Division(n: int, p: int)
    requires p > 0
    ensures n == n / p * p + n % p && 0 <= n % p < p
  {
  }

  lemma MulOrder(a: int, b: int, f: int)
    requires a <= b && f >= 0
    ensures a * f <= b * f
  {
    assert (b - a) * f >= 0;
    assert (b - a) * f == b * f - a * f;
  }
}
