/** Products and quotients, one step at a time. */
module Arithmetic {
  function Max(a: int, b: int): (m: int)
    ensures a <= m && b <= m && (m == a || m == b)
  {
    if a >= b then a else b
  }

  function Min(a: int, b: int): (m: int)
    ensures m <= a && m <= b && (m == a || m == b)
  {
    if a <= b then a else b
  }

  function Quo(t: nat, m: nat): nat
    requires m > 0
  {
    t / m
  }

  function Rem(t: nat, m: nat): (r: nat)
    requires m > 0
    ensures r < m
  {
    t % m
  }

  lemma MulAtLeast(x: int, m: nat)
    requires x >= 1
    ensures x * m >= m
  {
  }

  lemma Minus(p: int, q: int, m: int)
    ensures (q - p) * m == q * m - p * m
  {
  }

  /** Quotient and remainder are unique. */
  lemma Unique(p: int, s: nat, q: int, r: nat, m: nat)
    requires s < m && r < m && p * m + s == q * m + r
    ensures p == q
  {
    Minus(p, q, m);
    Minus(q, p, m);
    if p < q {
      MulAtLeast(q - p, m);
    }
    if q < p {
      MulAtLeast(p - q, m);
    }
  }

  lemma DivMod(t: nat, m: nat)
    requires m > 0
    ensures t / m * m + t % m == t && 0 <= t % m < m
  {
  }

  lemma Quotient(t: nat, m: nat, q: nat, r: nat)
    requires m > 0 && r < m && t == q * m + r
    ensures t / m == q
  {
    DivMod(t, m);
    Unique(t / m, t % m, q, r, m);
  }

  lemma DivOrder(t: nat, u: nat, d: nat)
    requires d > 0 && t <= u
    ensures t / d <= u / d
  {
    DivMod(t, d);
    DivMod(u, d);
    if t / d > u / d {
      Minus(u / d, t / d, d);
      MulAtLeast(t / d - u / d, d);
    }
  }

  lemma MulOrder(a: int, b: int, d: nat)
    requires a <= b
    ensures a * d <= b * d
  {
  }
}
