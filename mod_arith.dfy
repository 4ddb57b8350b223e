/** Facts about Euclidean `%` that the pattern proofs use. */
module ModArith {

  /** y % n is determined by any decomposition y == m * n + r with 0 <= r < n. */
  lemma {:induction false} ModUnique(y: int, m: int, r: int, n: int)
    requires n > 0 && 0 <= r < n && y == m * n + r
    ensures y % n == r
  {
    var q := y / n;
    assert y == q * n + y % n;
    var d := q - m;
    assert d * n == r - y % n by {
      assert q * n - m * n == (q - m) * n;
    }
    MulSign(d, n);
  }

  lemma {:induction false} MulSign(d: int, n: int)
    requires n > 0
    ensures d >= 1 ==> d * n >= n
    ensures d <= -1 ==> d * n <= -n
  {
    if d >= 1 {
      MulAtLeast(d, n);
    } else if d <= -1 {
      MulAtLeast(-d, n);
      assert d * n == -((-d) * n);
    }
  }

  lemma {:induction false} MulAtLeast(d: int, n: int)
    requires d >= 1 && n > 0
    ensures d * n >= n
  {
    assert d * n == (d - 1) * n + n;
    assert (d - 1) * n >= 0;
  }

  lemma {:induction false} ModAddMultiple(x: int, q: int, n: int)
    requires n > 0
    ensures (x + q * n) % n == x % n
  {
    assert x == (x / n) * n + x % n;
    assert x + q * n == (x / n + q) * n + x % n;
    ModUnique(x + q * n, x / n + q, x % n, n);
  }

  lemma {:induction false} ModAddLeft(a: int, b: int, n: int)
    requires n > 0
    ensures (a % n + b) % n == (a + b) % n
  {
    assert a == (a / n) * n + a % n;
    ModAddMultiple(a % n + b, a / n, n);
    assert a % n + b + (a / n) * n == a + b;
  }

  lemma {:induction false} MultipleModIsZero(q: int, n: int)
    requires n > 0
    ensures (q * n) % n == 0
  {
    ModUnique(q * n, q, 0, n);
  }
}
