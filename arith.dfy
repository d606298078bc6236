/** Facts about Euclidean division used by the bit encoder and the cyclic broadcast. */
module Arith {

  /** Division by m > 0 is determined by any decomposition v == q * m + r with 0 <= r < m. */
  lemma DivModUnique(v: int, m: int, q: int, r: int)
    requires m > 0 && 0 <= r < m && v == q * m + r
    ensures v / m == q && v % m == r
  {
    var q', r' := v / m, v % m;
    var d := q - q';
    assert d * m == r' - r by {
      assert v == q' * m + r';
      assert q * m - q' * m == d * m;
    }
    if d > 0 {
      AtLeastOnce(d, m);
    } else if d < 0 {
      AtLeastOnce(-d, m);
    }
  }

  lemma AtLeastOnce(d: int, m: int)
    requires d >= 1 && m > 0
    ensures d * m >= m
  {
    assert d * m == m + (d - 1) * m;
  }

  /** Stepping a counter by one moves its remainder by one, wrapping at m. */
  lemma ModNext(i: int, m: int)
    requires m > 0
    ensures (i + 1) % m == if i % m + 1 == m then 0 else i % m + 1
  {
    var q, r := i / m, i % m;
    assert i == q * m + r;
    if r + 1 == m {
      DivModUnique(i + 1, m, q + 1, 0);
    } else {
      DivModUnique(i + 1, m, q, r + 1);
    }
  }

  /** Taking m away from i does not change its remainder modulo m. */
  lemma ModSub(i: int, m: int)
    requires m > 0
    ensures (i - m) % m == i % m
  {
    var q, r := i / m, i % m;
    assert i == q * m + r;
    DivModUnique(i - m, m, q - 1, r);
  }

  /** The remainder modulo 2p splits into bit p of the quotient by p and the remainder modulo p. */
  lemma ModDouble(v: int, p: int)
    requires p > 0
    ensures v % (2 * p) == ((v / p) % 2) * p + v % p
  {
    var q, r := v / p, v % p;
    var h, b := q / 2, q % 2;
    assert v == q * p + r;
    assert q == 2 * h + b;
    assert v == h * (2 * p) + (b * p + r) by {
      assert q * p == h * (2 * p) + b * p;
    }
    assert 0 <= b * p + r < 2 * p by {
      assert b == 0 || b == 1;
    }
    DivModUnique(v, 2 * p, h, b * p + r);
  }
}
