/** Quotients and remainders by a variable, shared by the models that need them. */
module Arithmetic {
  lemma Multiple(c: nat, d: int)
    ensures d >= 1 ==> c * d >= c
    ensures d <= 0 ==> c * d <= 0
    ensures d <= -1 ==> c * d + c <= 0
  {}

  /** Quotient and remainder are unique. */
  lemma ModIs(n: nat, c: nat, k: nat, r: nat)
    requires c >= 1 && r < c && n == c * k + r
    ensures n % c == r
  {
    var d := n / c - k;
    assert n % c == n - c * (n / c) == r - c * d;
    Multiple(c, d);
  }

  lemma NextMultiple(n: nat, c: nat)
    requires c >= 1 && n % c == 0
    ensures (n + c) % c == 0
  {
    assert n + c == c * (n / c + 1);
    ModIs(n + c, c, n / c + 1, 0);
  }

  /** Two multiples are a whole multiple apart. */
  lemma MultiplesApart(m: nat, n: nat, c: nat)
    requires c >= 1 && m % c == 0 && n % c == 0 && m < n
    ensures m + c <= n
  {
    var d := n / c - m / c;
    assert n - m == c * (n / c) - c * (m / c) == c * d;
    Multiple(c, d);
  }

  /** Fewer than c apart, different remainders. */
  lemma ModApart(m: nat, n: nat, c: nat)
    requires c >= 1 && m < n < m + c
    ensures m % c != n % c
  {
    var d := n / c - m / c;
    assert n - m == c * (n / c) - c * (m / c) + n % c - m % c == c * d + n % c - m % c;
    Multiple(c, d);
  }

  lemma ModStep(n: nat, c: nat)
    requires c >= 1
    ensures (n % c + 1) % c == (n + 1) % c && (n + c) % c == n % c
  {
    var r, k := n % c, n / c;
    assert n == c * k + r;
    if r + 1 < c {
      ModIs(n + 1, c, k, r + 1);
      ModIs(r + 1, c, 0, r + 1);
    } else {
      assert n + 1 == c * (k + 1);
      ModIs(n + 1, c, k + 1, 0);
      ModIs(r + 1, c, 1, 0);
    }
    assert n + c == c * (k + 1) + r;
    ModIs(n + c, c, k + 1, r);
  }

  lemma DivMonotone(a: nat, b: nat, m: nat)
    requires m >= 1 && a <= b
    ensures a / m <= b / m
  {
    assert m * (a / m - b / m) == m * (a / m) - m * (b / m) < m;
    Multiple(m, a / m - b / m);
  }
}
