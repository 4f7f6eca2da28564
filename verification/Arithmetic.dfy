/** Facts about products and quotients that the solver needs spelled out. */
module Arithmetic {

  function Min(a: nat, b: nat): nat { if a <= b then a else b }

  function Max(a: nat, b: nat): nat { if a >= b then a else b }

  lemma DivBounds(x: nat, b: nat)
    requires b >= 1
    ensures x / b * b <= x < (x / b + 1) * b
  {}

  lemma MulMonotone(x: nat, y: nat, b: nat)
    requires x <= y
    ensures x * b <= y * b
  {}

  lemma OneMore(g: nat, b: nat)
    ensures (g + 1) * b == g * b + b
  {}

  lemma DivUnique(x: nat, b: nat, q: nat)
    requires b >= 1 && q * b <= x < (q + 1) * b
    ensures x / b == q
  {
    DivBounds(x, b);
    if x / b < q { MulMonotone(x / b + 1, q, b); }
    if x / b > q { MulMonotone(q + 1, x / b, b); }
  }

  lemma DivMonotone(x: nat, y: nat, b: nat)
    requires b >= 1 && x <= y
    ensures x / b <= y / b
  {
    DivBounds(x, b);
    DivBounds(y, b);
    if x / b > y / b { MulMonotone(y / b + 1, x / b, b); }
  }

  lemma ModUnique(x: nat, m: nat, q: nat, r: nat)
    requires x == q * m + r && r < m
    ensures x % m == r
  {
    DivUnique(x, m, q);
    assert x == x / m * m + x % m;
  }

  /** Least number of units of size `q` that cover `x`. */
  function CeilDiv(x: nat, q: nat): nat
    requires q >= 1
  {
    (x + q - 1) / q
  }

  lemma CeilDivStep(x: nat, q: nat)
    requires q >= 1 && x >= 1
    ensures CeilDiv(x, q) >= 1
    ensures CeilDiv(x, q) == 1 + (if x <= q then 0 else CeilDiv(x - q, q))
  {
    DivBounds(x - 1, q);
    assert ((x - 1) / q + 2) * q == ((x - 1) / q + 1) * q + q;
    assert ((x - 1) / q + 1) * q == (x - 1) / q * q + q;
    DivUnique(x - 1 + q, q, (x - 1) / q + 1);
    if x <= q {
      DivUnique(x - 1, q, 0);
    } else {
      assert x - q + q - 1 == x - 1;
    }
  }
}
