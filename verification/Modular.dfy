/** Quotients and remainders by a positive number. */
module Modular {

  /** Quotient and remainder are the only ones there are. */
  lemma DivUnique(x: int, n: nat, q: int, r: int)
    requires n > 0 && x == n * q + r && 0 <= r < n
    ensures x / n == q && x % n == r
  {
    var d := x / n;
    assert x == n * d + x % n;
    assert n * (d - q) == n * d - n * q && n * (q - d) == n * q - n * d;
    if d > q {
      Scaled(n, d - q);
    } else if d < q {
      Scaled(n, q - d);
    }
  }

  lemma Scaled(n: nat, k: int)
    requires k >= 1
    ensures n * k >= n
  {
  }

  lemma ModAdd(x: int, n: nat)
    requires n > 0
    ensures (n + x) % n == x % n && (n + x) / n == x / n + 1
  {
    assert x == n * (x / n) + x % n;
    assert n * (x / n + 1) == n * (x / n) + n;
    DivUnique(n + x, n, x / n + 1, x % n);
  }

  lemma Difference(a: nat, b: nat, n: nat)
    requires a < n && b < n
    ensures (a - b) % n == if a >= b then a - b else a - b + n
  {
    if a >= b {
      DivUnique(a - b, n, 0, a - b);
    } else {
      DivUnique(a - b, n, -1, a - b + n);
    }
  }

  lemma CountUp(k: nat, n: nat)
    requires n > 0 && k > 0
    ensures var (q, r) := ((k - 1) / n, (k - 1) % n);
            if r + 1 < n then k / n == q && k % n == r + 1 else k / n == q + 1 && k % n == 0
  {
    var (q, r) := ((k - 1) / n, (k - 1) % n);
    assert k - 1 == n * q + r;
    if r + 1 < n {
      DivUnique(k, n, q, r + 1);
    } else {
      assert n * (q + 1) == n * q + n;
      DivUnique(k, n, q + 1, 0);
    }
  }
}
