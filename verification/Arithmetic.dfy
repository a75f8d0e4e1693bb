/** Division and remainder facts behind the index arithmetic of the buffers and tables. */
module Arithmetic {

  lemma MulMono(a: int, b: int, n: int)
    requires a <= b && 0 <= n
    ensures a * n <= b * n
  {
    assert (b - a) * n >= 0;
  }

  // The quotient and remainder of a are the only q and r with a == q * n + r, 0 <= r < n.
  lemma DivModUnique(a: int, q: int, r: int, n: int)
    requires 0 <= r < n
    requires a == q * n + r
    ensures a / n == q && a % n == r
  {
    var q', r' := a / n, a % n;
    var d := q' - q;
    assert a == q' * n + r';
    assert d * n == r - r' by { assert d * n == q' * n - q * n; }
    if d >= 1 { MulMono(1, d, n); }
    if d <= -1 { MulMono(d, -1, n); }
  }

  lemma ModPeriod(e: int, c: int, n: int)
    requires n > 0
    ensures (e + c * n) % n == e % n
  {
    var q, r := e / n, e % n;
    assert e + c * n == (q + c) * n + r by { assert (q + c) * n == q * n + c * n; }
    DivModUnique(e + c * n, q + c, r, n);
  }

  lemma ModAdd(a: int, b: int, n: int)
    requires n > 0
    ensures (a % n + b % n) % n == (a + b) % n
  {
    DivMod(a, n);
    DivMod(b, n);
    ModAddParts(a, b, a / n, a % n, b / n, b % n, n);
  }

  lemma DivMod(a: int, n: int)
    requires n > 0
    ensures a == (a / n) * n + a % n
  {}

  lemma ModAddParts(a: int, b: int, q: int, r: int, t: int, s: int, n: int)
    requires n > 0 && a == q * n + r && b == t * n + s
    ensures (r + s) % n == (a + b) % n
  {
    assert (q + t) * n == q * n + t * n;
    ModPeriod(r + s, q + t, n);
  }

  lemma PositiveFactors(a: nat, b: nat)
    requires a * b > 0
    ensures a > 0 && b > 0
  {}

  lemma CancelFactor(q: int, a: int, b: int)
    requires q > 0 && q * a == q * b
    ensures a == b
  {}

  lemma ProperCofactor(c: nat, d: nat, n: nat)
    requires c * d == n && 0 < d < n
    ensures c >= 2
  {}

  // Row-major and column-major positions u + q * m with u < m and q < p.
  lemma Position(u: int, q: int, m: int, p: int)
    requires 0 <= u < m && 0 <= q < p
    ensures 0 <= u + q * m < p * m
    ensures (u + q * m) % m == u && (u + q * m) / m == q
  {
    MulMono(q + 1, p, m);
    assert (q + 1) * m == q * m + m;
    assert 0 <= q * m by { MulMono(0, q, m); }
    DivModUnique(u + q * m, q, u, m);
  }

  lemma Unposition(k: int, m: int, p: int)
    requires 0 < m && 0 <= k < p * m
    ensures k == k % m + (k / m) * m
    ensures 0 <= k % m < m && 0 <= k / m < p
  {
    if k / m >= p { MulMono(p, k / m, m); }
    if k / m < 0 { MulMono(k / m, -1, m); }
  }
}
