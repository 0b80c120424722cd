/**
 * Rounding up to a multiple (GRALLOC_ALIGN) and the arithmetic the layout proofs need.
 *
 * Products and quotients of two variables are written Mul and Div, so that a proof can hide them and keep
 * non-linear terms away from the solver; the lemmas below are the only ones that look inside.
 */
module Alignment {

  function Mul(a: nat, b: nat): nat {
    a * b
  }

  function Div(a: nat, d: nat): nat
    requires d > 0
  {
    a / d
  }

  predicate Divides(d: nat, x: nat) {
    d > 0 && x % d == 0
  }

  function Max(a: nat, b: nat): nat {
    if a > b then a else b
  }

  function CeilDiv(a: nat, d: nat): nat
    requires d > 0
  {
    Div(a + d - 1, d)
  }

  /** GRALLOC_ALIGN: the least multiple of `base` that is not below `value`. */
  function Align(value: nat, base: nat): (r: nat)
    requires base > 0
    ensures value <= r < value + base
  {
    DivBounds(value + base - 1, base);
    Mul(CeilDiv(value, base), base)
  }

  // ----- products -----

  lemma MulFacts(a: nat, b: nat)
    ensures Mul(a, b) == Mul(b, a)
    ensures Mul(0, b) == 0 && Mul(1, b) == b
    ensures Mul(a + 1, b) == Mul(a, b) + b
    ensures a > 0 && b > 0 ==> Mul(a, b) >= a && Mul(a, b) >= b
  {
  }

  lemma MulAdd(a: nat, b: nat, c: nat)
    ensures Mul(a + b, c) == Mul(a, c) + Mul(b, c)
  {
  }

  lemma MulAssoc(a: nat, b: nat, c: nat)
    ensures Mul(Mul(a, b), c) == Mul(a, Mul(b, c))
  {
  }

  lemma EightTimes(k: nat, unit: nat)
    ensures 8 * Mul(k, unit) == Mul(k, 8 * unit)
  {
    MulAssoc(8, k, unit);
    MulAssoc(k, 8, unit);
    MulFacts(8, k);
  }

  lemma MulMono(a: nat, b: nat, c: nat, d: nat)
    requires a <= b && c <= d
    ensures Mul(a, c) <= Mul(b, d)
  {
    MulAdd(a, b - a, c);
    MulAdd(c, d - c, b);
    MulFacts(b, c);
    MulFacts(b, d);
  }

  lemma MulStrict(a: nat, b: nat, d: nat)
    requires a < b && d > 0
    ensures Mul(a, d) + d <= Mul(b, d)
  {
    MulMono(a + 1, b, d, d);
    MulFacts(a, d);
  }

  // ----- quotients -----

  lemma DivBounds(x: nat, d: nat)
    requires d > 0
    ensures x == Mul(Div(x, d), d) + x % d
    ensures Mul(Div(x, d), d) <= x < Mul(Div(x, d), d) + d
  {
  }

  /** The quotient is the only number of whole steps of d below x. */
  lemma DivUnique(x: nat, d: nat, q: nat)
    requires d > 0 && Mul(q, d) <= x < Mul(q, d) + d
    ensures Div(x, d) == q
  {
    hide Mul, Div;
    var p := Div(x, d);
    DivBounds(x, d);
    if p < q {
      MulStrict(p, q, d);
    } else if q < p {
      MulStrict(q, p, d);
    }
  }

  lemma DivMono(a: nat, b: nat, d: nat)
    requires a <= b && d > 0
    ensures Div(a, d) <= Div(b, d)
  {
    hide Mul, Div;
    DivBounds(a, d);
    DivBounds(b, d);
    if Div(b, d) < Div(a, d) {
      MulStrict(Div(b, d), Div(a, d), d);
    }
  }

  lemma DivOfProduct(k: nat, d: nat)
    requires d > 0
    ensures Div(Mul(k, d), d) == k
  {
    DivUnique(Mul(k, d), d, k);
  }

  /** Dividing at most k whole steps gives at most k. */
  lemma DivAtMost(x: nat, k: nat, d: nat)
    requires d > 0 && x <= Mul(k, d)
    ensures Div(x, d) <= k
  {
    DivMono(x, Mul(k, d), d);
    DivOfProduct(k, d);
  }

  /** A rest is recognised by writing the number as a multiple and what is left. */
  lemma Rest(x: nat, d: nat, q: nat, r: nat)
    requires r < d && x == Mul(q, d) + r
    ensures x % d == r
  {
    hide Mul, Div;
    DivUnique(x, d, q);
    DivBounds(x, d);
  }

  // ----- divisibility -----

  lemma ProductDivides(k: nat, d: nat)
    requires d > 0
    ensures Divides(d, Mul(k, d))
  {
    DivBounds(Mul(k, d), d);
    DivOfProduct(k, d);
  }

  lemma Quotient(d: nat, x: nat)
    requires Divides(d, x)
    ensures x == Mul(Div(x, d), d)
  {
    DivBounds(x, d);
  }

  lemma DividesSum(d: nat, a: nat, b: nat)
    requires Divides(d, a) && Divides(d, b)
    ensures Divides(d, a + b)
  {
    hide Mul, Div, Divides;
    Quotient(d, a);
    Quotient(d, b);
    DividesPositive(d, a);
    MulAdd(Div(a, d), Div(b, d), d);
    ProductDivides(Div(a, d) + Div(b, d), d);
  }

  lemma DividesPositive(d: nat, x: nat)
    requires Divides(d, x)
    ensures d > 0
  {
  }

  lemma DividesProduct(d: nat, a: nat, k: nat)
    requires Divides(d, a)
    ensures Divides(d, Mul(k, a)) && Divides(d, Mul(a, k))
  {
    hide Mul, Div, Divides;
    DividesPositive(d, a);
    Quotient(d, a);
    MulAssoc(k, Div(a, d), d);
    ProductDivides(Mul(k, Div(a, d)), d);
    MulFacts(k, a);
  }

  lemma DividesTransitive(small: nat, big: nat, x: nat)
    requires Divides(small, big) && Divides(big, x)
    ensures Divides(small, x)
  {
    Quotient(big, x);
    DividesProduct(small, big, Div(x, big));
  }

  lemma DoubleDivides(u: nat, x: nat)
    requires u > 0 && Divides(2 * u, x)
    ensures Divides(u, x) && Divides(u, x / 2) && x == 2 * (x / 2)
  {
    hide Divides;
    Quotient(2 * u, x);
    var k := Div(x, 2 * u);
    MulAssoc(2, u, k);
    MulFacts(2 * u, k);
    MulFacts(u, k);
    DoubleProduct(u);
    DoubleProduct(Mul(u, k));
    ProductDivides(k, u);
    ProductDivides(2, u);
    DividesTransitive(u, 2 * u, x);
  }

  lemma DoubleProduct(x: nat)
    ensures Mul(2, x) == 2 * x
  {
  }

  // ----- Align -----

  lemma AlignDivides(value: nat, base: nat)
    requires base > 0
    ensures Divides(base, Align(value, base))
  {
    ProductDivides(CeilDiv(value, base), base);
  }

  lemma AlignLeast(value: nat, base: nat, m: nat)
    requires Divides(base, m) && value <= m
    ensures Align(value, base) <= m
  {
    hide Mul, Div, Divides, Align;
    DividesPositive(base, m);
    AlignDivides(value, base);
    var r := Align(value, base);
    var p, q := Div(m, base), Div(r, base);
    Quotient(base, m);
    Quotient(base, r);
    if p < q {
      MulStrict(p, q, base);
    } else {
      MulMono(q, p, base, base);
    }
  }

  lemma AlignMonotone(a: nat, b: nat, base: nat)
    requires base > 0 && a <= b
    ensures Align(a, base) <= Align(b, base)
  {
    hide Mul, Div, Divides;
    AlignDivides(b, base);
    AlignLeast(a, base, Align(b, base));
  }

  lemma AlignFixed(value: nat, base: nat)
    requires Divides(base, value)
    ensures Align(value, base) == value
  {
    AlignLeast(value, base, value);
  }

  /** The rounded value is the only multiple less than one step above. */
  lemma AlignUnique(value: nat, base: nat, m: nat)
    requires Divides(base, m) && value <= m < value + base
    ensures Align(value, base) == m
  {
    hide Mul, Div, Divides, Align;
    AlignLeast(value, base, m);
    AlignDivides(value, base);
    var r := Align(value, base);
    Quotient(base, m);
    Quotient(base, r);
    if Div(r, base) < Div(m, base) {
      MulStrict(Div(r, base), Div(m, base), base);
    } else {
      MulMono(Div(m, base), Div(r, base), base, base);
    }
  }

  /** Rounding to a fine grid first does not change the rounding to a coarser grid it divides. */
  lemma AlignNested(value: nat, fine: nat, coarse: nat)
    requires coarse > 0 && Divides(fine, coarse)
    ensures Align(Align(value, fine), coarse) == Align(value, coarse)
  {
    hide Mul, Div, Align;
    var direct := Align(value, coarse);
    AlignDivides(value, coarse);
    AlignDivides(Align(value, fine), coarse);
    DividesTransitive(fine, coarse, direct);
    AlignLeast(value, fine, direct);
    AlignLeast(Align(value, fine), coarse, direct);
    AlignLeast(value, coarse, Align(Align(value, fine), coarse));
  }

  /** Subsampling an aligned size still covers every sample site of the requested size. */
  lemma SubsampleCovers(value: nat, base: nat, sub: nat)
    requires base > 0 && Divides(sub, base)
    ensures CeilDiv(value, sub) <= Div(Align(value, base), sub)
    ensures Divides(sub, Align(value, base))
  {
    hide Mul, Div, Align;
    var r := Align(value, base);
    AlignDivides(value, base);
    DividesTransitive(sub, base, r);
    Quotient(sub, r);
    CeilDivAtMost(value, Div(r, sub), sub);
  }

  lemma CeilDivAtMost(value: nat, k: nat, d: nat)
    requires d > 0 && value <= Mul(k, d)
    ensures CeilDiv(value, d) <= k
  {
    hide Mul, Div;
    DivMono(value + d - 1, Mul(k, d) + (d - 1), d);
    DivUnique(Mul(k, d) + (d - 1), d, k);
  }
}
