/** Division facts: power-of-two loops and wrapping counters. */
module Arith {

  lemma MulAtLeast(m: int, k: int)
    requires m > 0 && k >= 1
    ensures m * k >= m
  {
    assert m * k == m * (k - 1) + m;
    assert m * (k - 1) >= 0;
  }

  /** Quotient and remainder are unique. */
  lemma DivModUnique(a: nat, m: nat, q: nat, r: nat)
    requires a == m * q + r && r < m
    ensures a / m == q && a % m == r
  {
    var d, e := a / m, a % m;
    assert a == m * d + e;
    assert m * (q - d) == e - r by { assert m * (q - d) == m * q - m * d; }
    if q > d {
      MulAtLeast(m, q - d);
    } else if d > q {
      MulAtLeast(m, d - q);
    }
  }

  /** The low bits of n below 2l, from those below l and bit l. */
  lemma NextBit(n: nat, l: nat)
    requires l > 0
    ensures n % (2 * l) == n % l + (if n / l % 2 == 1 then l else 0)
    ensures n / l % 2 == 1 ==> n % l + l <= n
    ensures n < l ==> n % l == n
  {
    NextBitOf(n, l, n / l, n % l);
    if n < l { DivModUnique(n, l, 0, n); }
  }

  lemma NextBitOf(n: nat, l: nat, q: nat, r: nat)
    requires n == l * q + r && r < l
    ensures n % (2 * l) == r + (if q % 2 == 1 then l else 0)
    ensures q % 2 == 1 ==> r + l <= n
  {
    DoubleParts(l, q, q / 2, q % 2);
    if q % 2 == 1 {
      DivModUnique(n, 2 * l, q / 2, l + r);
      MulAtLeast(l, q);
    } else {
      DivModUnique(n, 2 * l, q / 2, r);
    }
  }

  lemma DoubleParts(l: nat, q: nat, c: nat, b: nat)
    requires q == 2 * c + b && b < 2
    ensures l * q == 2 * l * c + (if b == 1 then l else 0)
  {
    assert l * (2 * c + b) == l * (2 * c) + l * b;
    assert l * (2 * c) == 2 * l * c;
  }

  /** Residues may be added before reducing. */
  lemma ModAdd(a: nat, k: nat, m: nat)
    requires m > 0
    ensures (a % m + k) % m == (a + k) % m
  {
    Regroup(a, m, a / m, a % m, k, (a % m + k) / m, (a % m + k) % m);
    DivModUnique(a + k, m, a / m + (a % m + k) / m, (a % m + k) % m);
  }

  lemma Regroup(a: nat, m: nat, q: nat, r: nat, k: nat, q2: nat, r2: nat)
    requires a == m * q + r && r + k == m * q2 + r2
    ensures a + k == m * (q + q2) + r2
  {
    assert m * (q + q2) == m * q + m * q2;
  }

  /** The difference of two residues is that of the numbers. */
  lemma ModDiff(a: nat, b: nat, m: nat)
    requires 0 < m && b <= a
    ensures (a % m - b % m) % m == (a - b) % m <= a - b
  {
    Subtract(m, a, a / m, a % m, b, b / m, b % m);
    DiffMod(a - b, m, a / m - b / m, a % m - b % m);
    ModSmaller(a - b, m);
  }

  lemma Subtract(m: nat, a: nat, qa: nat, ra: nat, b: nat, qb: nat, rb: nat)
    requires a == m * qa + ra && b == m * qb + rb
    ensures a - b == m * (qa - qb) + (ra - rb)
  {
    assert m * (qa - qb) == m * qa - m * qb;
  }

  lemma NotNegative(m: nat, d: int, u: int)
    requires m * d + u >= 0 && u < m
    ensures d >= 0
  {
    assert m * -d == -(m * d);
    if d < 0 { MulAtLeast(m, -d); }
  }

  lemma DiffMod(n: nat, m: nat, d: int, u: int)
    requires n == m * d + u && 0 - m < u < m
    ensures u % m == n % m
  {
    assert d >= 0 by { NotNegative(m, d, u); }
    if u >= 0 {
      DivModUnique(n, m, d, u);
      DivModUnique(u, m, 0, u);
    } else {
      assert d == 0 ==> m * d == 0;
      assert m * (d - 1) == m * d - m;
      DivModUnique(n, m, d - 1, u + m);
      WrapOnce(u, m);
    }
  }

  lemma WrapOnce(u: int, m: int)
    requires -m < u < 0
    ensures u % m == u + m
  {}

  lemma ModSmaller(a: nat, m: nat)
    requires m > 0
    ensures a % m <= a
    ensures a < m ==> a % m == a
  {
    assert a == m * (a / m) + a % m;
    if a < m { DivModUnique(a, m, 0, a); }
  }
}
