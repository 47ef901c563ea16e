/** Division and remainder by a variable, in the few forms the models need. */
module Arithmetic {

  lemma MulGrows(d: nat, n: nat)
    requires d > 0
    ensures d * n >= n
  {
    assert d * n == n + (d - 1) * n;
  }

  lemma MulMonotone(a: int, b: int, c: nat)
    requires a <= b
    ensures a * c <= b * c
  {
    assert b * c == a * c + (b - a) * c;
  }

  /** Quotient and remainder are unique. */
  lemma DivModUnique(x: int, q: int, r: nat, n: nat)
    requires r < n && x == q * n + r
    ensures x / n == q && x % n == r
  {
    assert (q - x / n) * n + r == x % n;
    if q > x / n {
      MulGrows(q - x / n, n);
    } else if q < x / n {
      MulGrows(x / n - q, n);
    }
  }

  /** One place on and one place back in a circle of `n`. */
  lemma Around(k: nat, n: nat)
    requires k < n
    ensures (k + 1) % n == (if k + 1 >= n then 0 else k + 1)
    ensures (k + n - 1) % n == (if k == 0 then n - 1 else k - 1)
  {
    if k + 1 < n { DivModUnique(k + 1, 0, k + 1, n); } else { DivModUnique(k + 1, 1, 0, n); }
    if k == 0 { DivModUnique(k + n - 1, 0, n - 1, n); } else { DivModUnique(k + n - 1, 1, k - 1, n); }
  }

  lemma NextRemainder(x: nat, q: int, r: nat, n: nat)
    requires r < n && n > 1 && x == q * n + r
    ensures (r + 1) % n == (x + 1) % n
  {
    if r + 1 == n {
      assert (q + 1) * n == q * n + n;
      DivModUnique(x + 1, q + 1, 0, n);
      DivModUnique(n, 1, 0, n);
    } else {
      DivModUnique(x + 1, q, r + 1, n);
      DivModUnique(r + 1, 0, r + 1, n);
    }
  }

  lemma ModNext(x: nat, n: nat)
    requires n > 1
    ensures (x % n + 1) % n == (x + 1) % n
  {
    NextRemainder(x, x / n, x % n, n);
  }

  lemma DivDouble(b: nat, p: nat)
    requires p > 0
    ensures b / (2 * p) == b / 2 / p
  {
    var q, r := b / 2 / p, b / 2 % p;
    assert b / 2 == q * p + r;
    assert b == q * (2 * p) + (2 * r + b % 2);
    DivModUnique(b, q, 2 * r + b % 2, 2 * p);
  }
}
