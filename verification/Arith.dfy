/** Integer facts shared by the models: quotients, remainders, powers of two. */
module Arith {

  lemma MulAtLeast(a: int, d: nat)
    requires a >= 1
    ensures a * d >= d
  {
  }

  lemma QuotientUnique(d: nat, q: int, r: nat, q': int, r': nat)
    requires q * d + r == q' * d + r' && r < d && r' < d
    ensures q == q' && r == r'
  {
    assert (q - q') * d == r' - r;
    assert (q' - q) * d == r - r';
    if q > q' {
      MulAtLeast(q - q', d);
    } else if q < q' {
      MulAtLeast(q' - q, d);
    }
  }

  lemma DivModUnique(n: int, d: nat, q: int, r: nat)
    requires d > 0 && n == q * d + r && r < d
    ensures n / d == q && n % d == r
  {
    QuotientUnique(d, q, r, n / d, n % d);
  }

  lemma AddMultiple(r: int, q: int, d: nat)
    requires d > 0
    ensures (q * d + r) % d == r % d && (q * d + r) / d == q + r / d
  {
    assert r == (r / d) * d + r % d;
    assert q * d + r == (q + r / d) * d + r % d;
    DivModUnique(q * d + r, d, q + r / d, r % d);
  }

  /** Remainders modulo a multiple keep the smaller remainder. */
  lemma ModOfMultiple(n: nat, cap: nat, m: nat)
    requires 0 < cap && 0 < m && m % cap == 0
    ensures (n % m) % cap == n % cap
  {
    var q, k := n / m, m / cap;
    assert m == k * cap;
    assert q * m == (q * k) * cap by { MulAssoc(q, k, cap); }
    assert n == q * m + n % m;
    AddMultiple(n % m, q * k, cap);
  }

  lemma MulAssoc(a: int, b: int, c: int)
    ensures a * (b * c) == (a * b) * c
  {
  }

  /** Numbers less than d apart differ modulo d. */
  lemma DistinctMods(i: nat, j: nat, d: nat)
    requires i < j < i + d
    ensures i % d != j % d
  {
    if i % d == j % d {
      assert i == (i / d) * d + i % d && j == (j / d) * d + j % d;
      assert j - i == (j / d - i / d) * d;
      QuotientUnique(d, j / d - i / d, 0, 0, j - i);
    }
  }

  /** Two numbers less than d apart and congruent to the same y are equal. */
  lemma CongruentEqual(e: int, f: int, y: int, d: nat)
    requires d > 0 && (e - y) % d == 0 && (f - y) % d == 0 && e - f < d && f - e < d
    ensures e == f
  {
    var m, k := (e - y) / d, (f - y) / d;
    assert e - y == m * d && f - y == k * d;
    assert e - f == (m - k) * d && f - e == (k - m) * d;
    if m > k {
      MulAtLeast(m - k, d);
    } else if k > m {
      MulAtLeast(k - m, d);
    }
  }

  function Pow2(n: nat): (r: nat)
    ensures r > 0
  {
    if n == 0 then 1 else 2 * Pow2(n - 1)
  }

  /** The successor of a counter that wraps at m. */
  function Bump(n: nat, m: nat): (r: nat)
    requires n < m
    ensures r < m
  {
    if n + 1 == m then 0 else n + 1
  }

  lemma BumpIsSuccessor(n: nat, m: nat)
    requires m > 0
    ensures Bump(n % m, m) == (n + 1) % m
  {
    var q, r := n / m, n % m;
    assert n == q * m + r;
    if r + 1 == m {
      assert n + 1 == (q + 1) * m + 0;
      DivModUnique(n + 1, m, q + 1, 0);
    } else {
      DivModUnique(n + 1, m, q, r + 1);
    }
  }
}
