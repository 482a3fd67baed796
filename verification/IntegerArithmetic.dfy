/** Facts about quotients and remainders of whole numbers. */
module IntegerArithmetic {

  lemma Cycle(n: nat, total: nat)
    requires n > 0 && total > 0
    ensures var p := n - 1;
            if p % total + 1 < total then n / total == p / total && n % total == p % total + 1
            else n / total == p / total + 1 && n % total == 0
  {
    var q, r := (n - 1) / total, (n - 1) % total;
    assert n - 1 == total * q + r;
    if r + 1 < total {
      Quotient(n, total, q, r + 1);
    } else {
      assert total * (q + 1) == total * q + total;
      Quotient(n, total, q + 1, 0);
    }
  }

  lemma Quotient(n: nat, d: nat, q: nat, r: nat)
    requires n == d * q + r && r < d
    ensures n / d == q && n % d == r
  {
    var e, s := n / d, n % d;
    assert n == d * e + s;
    assert d * (q - e) == s - r;
    assert d * (e - q) == r - s;
    Grow(d, q - e);
    Grow(d, e - q);
  }

  lemma Grow(d: nat, k: int)
    ensures k >= 1 ==> d * k >= d
  {
    assert d * k == d + d * (k - 1);
  }
}
