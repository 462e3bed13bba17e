// Division with remainder by a positive number.
module Modulo {
  lemma AtLeast(n: int, d: int)
    requires n > 0 && d >= 1
    ensures n * d >= n
  {
  }

  lemma SmallMultiple(n: int, d: int)
    requires n > 0 && -n < n * d < n
    ensures d == 0
  {
    if d >= 1 { AtLeast(n, d); }
    if d <= -1 { AtLeast(n, -d); }
  }

  lemma Unique(n: int, q: int, r: int, p: int, t: int)
    requires n > 0 && 0 <= r < n && 0 <= t < n
    requires n * q + r == n * p + t
    ensures q == p && r == t
  {
    assert n * (q - p) == t - r;
    SmallMultiple(n, q - p);
  }

  lemma ModuloIs(a: int, n: int, q: int, r: int)
    requires 0 <= r < n && a == n * q + r
    ensures a % n == r && a / n == q
  {
    assert a == n * (a / n) + a % n;
    Unique(n, q, r, a / n, a % n);
  }

  // Numbers less than n apart are distinct modulo n.
  lemma DistinctModulo(a: nat, b: nat, n: nat)
    requires a < b < a + n
    ensures a % n != b % n
  {
    if a % n == b % n {
      assert a == n * (a / n) + a % n;
      assert b == n * (b / n) + b % n;
      assert n * (b / n - a / n) == b - a;
      SmallMultiple(n, b / n - a / n);
    }
  }

  lemma NextModulo(a: nat, n: nat)
    requires n > 1
    ensures (a % n + 1) % n == (a + 1) % n
  {
    var q, r := a / n, a % n;
    assert a == n * q + r;
    if r + 1 == n {
      assert n * (q + 1) == n * q + n;
      ModuloIs(a + 1, n, q + 1, 0);
      ModuloIs(n, n, 1, 0);
    } else {
      ModuloIs(a + 1, n, q, r + 1);
      ModuloIs(r + 1, n, 0, r + 1);
    }
  }
}
