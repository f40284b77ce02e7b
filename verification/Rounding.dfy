/** Division facts, and rounding up to a multiple. */
module Rounding {

  lemma DivisionIsUnique(x: nat, d: nat, q: nat, r: nat)
    requires x == q * d + r && r < d
    ensures x / d == q && x % d == r
  {
    var p := x / d;
    assert x == p * d + x % d;
    ProductGap(p, q, d);
    ProductGap(q, p, d);
  }

  lemma ProductGap(p: nat, q: nat, d: nat)
    ensures p < q ==> p * d + d <= q * d
  {
    if p < q {
      Distribute(p + 1, q - p - 1, d);
      Distribute(p, 1, d);
    }
  }

  lemma Distribute(a: nat, b: nat, d: nat)
    ensures (a + b) * d == a * d + b * d
  {
  }

  lemma MultipleHasNoRemainder(q: nat, d: nat)
    requires d >= 1
    ensures q * d % d == 0
  {
    DivisionIsUnique(q * d, d, q, 0);
  }

  /** ⌈x ÷ d⌉ ∙ d */
  function RoundUp(x: nat, d: nat): nat
    requires d >= 1
  {
    x + (d - x % d) % d
  }

  lemma RoundUpQuotient(x: nat, d: nat) returns (q: nat)
    requires d >= 1
    ensures RoundUp(x, d) == q * d && x <= q * d < x + d
  {
    var p, r := x / d, x % d;
    assert x == p * d + r;
    Distribute(p, 1, d);
    Padding(r, d);
    q := if r == 0 then p else p + 1;
  }

  lemma Padding(r: nat, d: nat)
    requires r < d
    ensures (d - r) % d == if r == 0 then 0 else d - r
  {
    if r == 0 {
      DivisionIsUnique(d, d, 1, 0);
    } else {
      DivisionIsUnique(d - r, d, 0, d - r);
    }
  }

  /** `RoundUp(x, d)` is the least multiple of `d` from `x` onwards. */
  lemma RoundUpIsLeast(x: nat, d: nat, y: nat)
    requires d >= 1
    ensures RoundUp(x, d) % d == 0 && x <= RoundUp(x, d) < x + d
    ensures x <= y && y % d == 0 ==> RoundUp(x, d) <= y
  {
    var q := RoundUpQuotient(x, d);
    MultipleHasNoRemainder(q, d);
    var z := y / d;
    assert y == z * d + y % d;
    ProductGap(z, q, d);
    ProductGap(q, z, d);
  }

  lemma DivideTwice(x: nat, a: nat, b: nat)
    requires a >= 1 && b >= 1
    ensures a * b >= 1 && x / a / b == x / (a * b)
  {
    var y, u := Divide(x, a);
    var q, r := Divide(y, b);
    CombineDivisions(x, a, b, y, u, q, r);
    DivisionIsUnique(x, a * b, q, r * a + u);
  }

  lemma Divide(x: nat, d: nat) returns (q: nat, r: nat)
    requires d >= 1
    ensures q == x / d && x == q * d + r && r < d
  {
    q, r := x / d, x % d;
  }

  lemma CombineDivisions(x: nat, a: nat, b: nat, y: nat, u: nat, q: nat, r: nat)
    requires x == y * a + u && u < a && y == q * b + r && r < b
    ensures x == q * (a * b) + (r * a + u) && r * a + u < a * b
  {
    Distribute(q * b, r, a);
    ProductGap(r, b, a);
  }

}
