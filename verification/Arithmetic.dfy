/** Facts about multiplication, division and remainder that the other modules share. */
module Arithmetic {

  lemma MulAtLeast(a: int, n: nat)
    requires a >= 1
    ensures a * n >= n
  {
  }

  /** Quotient and remainder are the only ones. */
  lemma DivUnique(x: int, n: nat, q: int, r: nat)
    requires n > 0 && x == q * n + r && r < n
    ensures x / n == q && x % n == r
  {
    var d := x / n - q;
    assert x == (x / n) * n + x % n;
    assert d * n == (x / n) * n - q * n;
    assert (-d) * n == -(d * n);
    if d >= 1 {
      MulAtLeast(d, n);
    } else if d <= -1 {
      MulAtLeast(-d, n);
    }
  }

  lemma MultipleDiv(n: nat, m: nat)
    requires n > 0
    ensures (n * m) % n == 0 && (n * m) / n == m
  {
    DivUnique(n * m, n, m, 0);
  }

  lemma MulMono(a: nat, b: nat, c: nat)
    requires b <= c
    ensures a * b <= a * c
  {
    assert a * c == a * b + a * (c - b);
  }

  lemma Recombine(r: nat, p: nat)
    requires p > 0
    ensures r / p * p + r % p == r && r % p < p
  {
  }

  lemma QuotientBelow(r: nat, n: nat, p: nat)
    requires p > 0 && r < n * p
    ensures r / p < n
  {
    var q := r / p;
    assert r == q * p + r % p;
    assert (q - n + 1) * p == q * p - n * p + p;
    if q >= n { MulAtLeast(q - n + 1, p); }
  }

  function Div(a: nat, b: nat): nat
    requires b > 0
  {
    a / b
  }

  function Mod(a: nat, b: nat): (r: nat)
    requires b > 0
    ensures r < b
  {
    a % b
  }

  /** Moving on within a block of `b`. */
  lemma SameBlock(a: nat, k: nat, b: nat)
    requires b > 0 && Mod(a, b) + k < b
    ensures Div(a + k, b) == Div(a, b) && Mod(a + k, b) == Mod(a, b) + k
  {
    Recombine(a, b);
    DivUnique(a + k, b, a / b, a % b + k);
  }

  lemma QuotientAtLeast(r: nat, n: nat, p: nat)
    requires p > 0
    ensures r < n * p <==> Div(r, p) < n
  {
    Recombine(r, p);
    var q := Div(r, p);
    assert p * (q + 1) == q * p + p && p * n == n * p;
    if r < n * p {
      QuotientBelow(r, n, p);
    } else if q < n {
      MulMono(p, q + 1, n);
    }
  }
}
