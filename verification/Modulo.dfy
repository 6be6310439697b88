/**
 Positions on a ring of n places, and quotients.
 */
module Modulo {

  lemma Multiple(n: int, k: int)
    requires n > 0 && k >= 1
    ensures n * k >= n
  {
  }

  lemma Unique(x: int, n: int, q: int, r: int)
    requires n > 0 && x == n * q + r && 0 <= r < n
    ensures x % n == r
  {
    var q', r' := x / n, x % n;
    assert x == n * q' + r';
    assert n * (q - q') == n * q - n * q' && n * (q' - q) == n * q' - n * q;
    if q > q' {
      Multiple(n, q - q');
    } else if q < q' {
      Multiple(n, q' - q);
    }
  }

  lemma Shift(a: nat, d: nat, n: nat)
    requires n > 0
    ensures (a + d) % n == (a % n + d) % n
  {
    var x := a % n + d;
    assert a + d == n * (a / n) + x && x == n * (x / n) + x % n;
    assert n * (a / n + x / n) == n * (a / n) + n * (x / n);
    Unique(a + d, n, a / n + x / n, x % n);
  }

  // Adding the same to numbers that agree modulo n.
  lemma SameOffset(a: nat, b: nat, d: nat, n: nat)
    requires n > 0 && a % n == b % n
    ensures (a + d) % n == (b + d) % n
  {
    Shift(a, d, n);
    Shift(b, d, n);
  }

  // Positions below n, and n itself, modulo n.
  lemma Small(a: nat, n: nat)
    requires a < n
    ensures a % n == a && (a + n) % n == a
  {
    Unique(a, n, 0, a);
    Unique(a + n, n, 1, a);
  }

  lemma Quotient(a: nat, d: nat, w: nat)
    requires d > 0 && a <= w * d
    ensures 0 <= a / d <= w
  {
    var q := a / d;
    assert a == d * q + a % d;
    assert d * (q - w) == d * q - w * d;
    if q > w {
      Multiple(d, q - w);
    }
  }

  lemma QuotientIs(a: nat, d: nat)
    requires d > 0
    ensures d * (a / d) <= a < d * (a / d + 1)
  {
    assert a == d * (a / d) + a % d;
  }

  lemma Below(a: nat, d: nat, k: nat)
    requires d > 0 && a / d <= k
    ensures a < (k + 1) * d
  {
    var q := a / d;
    assert a == d * q + a % d;
    assert d * (k - q) == d * k - d * q && (k + 1) * d == d * k + d;
    if q < k {
      Multiple(d, k - q);
    }
  }

  lemma Between(a: nat, d: nat, lo: nat, hi: nat)
    requires d > 0 && lo * d <= a < hi * d
    ensures lo <= a / d < hi
  {
    var q := a / d;
    assert a == d * q + a % d;
    assert d * (lo - q) == lo * d - d * q && d * (q - hi) == d * q - hi * d;
    if q < lo {
      Multiple(d, lo - q);
    } else if q > hi {
      Multiple(d, q - hi);
    }
  }

  // Division as the integer division of Go does it: towards zero.
  function Truncated(a: int, b: nat): int
    requires b > 0
  {
    if a >= 0 then a / b else -((-a) / b)
  }

  lemma TruncatedMonotone(x: int, y: int, b: nat)
    requires b > 0 && x <= y
    ensures Truncated(x, b) <= Truncated(y, b)
  {
    if x >= 0 {
      DivMonotone(x, y, b);
    } else if y < 0 {
      DivMonotone(-y, -x, b);
    } else {
      DivMonotone(0, y, b);
      DivMonotone(0, -x, b);
    }
  }

  lemma DivMonotone(x: int, y: int, b: nat)
    requires b > 0 && 0 <= x <= y
    ensures 0 <= x / b <= y / b
  {
    assert x == b * (x / b) + x % b && y == b * (y / b) + y % b;
    assert b * (x / b - y / b) == b * (x / b) - b * (y / b);
    if x / b > y / b {
      Multiple(b, x / b - y / b);
    }
  }
}
