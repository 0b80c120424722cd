/** The greatest common divisor loop and the least common multiple of buffer_allocation.cpp. */
module Euclid {
  import opened Alignment

  function Gcd(a: nat, b: nat): (g: nat)
    ensures a > 0 || b > 0 ==> g > 0
    decreases b
  {
    if b == 0 then a else Gcd(b, a % b)
  }

  function Lcm(a: nat, b: nat): nat {
    if a != 0 && b != 0 then Div(Mul(a, b), Gcd(a, b)) else Max(a, b)
  }

  lemma {:induction false} GcdDividesBoth(a: nat, b: nat)
    requires a > 0 || b > 0
    ensures Divides(Gcd(a, b), a) && Divides(Gcd(a, b), b)
    decreases b
  {
    if b == 0 {
      SelfAndZero(a);
    } else {
      hide Mul, Div, Divides;
      var g := Gcd(b, a % b);
      GcdDividesBoth(b, a % b);
      DivBounds(a, b);
      DividesProduct(g, b, Div(a, b));
      DividesSum(g, Mul(Div(a, b), b), a % b);
    }
  }

  lemma SelfAndZero(a: nat)
    requires a > 0
    ensures Divides(a, a) && Divides(a, 0)
  {
    ProductDivides(1, a);
    ProductDivides(0, a);
  }

  /** Bezout coefficients: the gcd is an integer combination of its arguments. */
  lemma {:induction false} Bezout(a: nat, b: nat) returns (s: int, t: int)
    ensures s * a + t * b == Gcd(a, b)
    decreases b
  {
    if b == 0 {
      s, t := 1, 0;
    } else {
      var s', t' := Bezout(b, a % b);
      s, t := t', s' - t' * Div(a, b);
      DivBounds(a, b);
      BezoutStep(s', t', a, b, Div(a, b), a % b);
    }
  }

  lemma BezoutStep(s: int, t: int, a: nat, b: nat, q: nat, r: nat)
    requires a == Mul(q, b) + r
    ensures t * a + (s - t * q) * b == s * b + t * r
  {
    assert t * a == t * (q * b) + t * r;
  }

  lemma Combination(s: int, t: int, a: nat, b: nat, x: nat, y: nat, c: nat)
    requires a == Mul(x, c) && b == Mul(y, c)
    ensures s * a + t * b == (s * x + t * y) * c
  {
  }

  lemma PositiveFactor(k: int, c: nat)
    requires k * c > 0
    ensures k > 0 && k * c == Mul(k, c)
  {
  }

  /** Every common divisor divides the gcd, so the gcd is the greatest one. */
  lemma GcdGreatest(a: nat, b: nat, c: nat)
    requires a > 0 || b > 0
    requires Divides(c, a) && Divides(c, b)
    ensures Divides(c, Gcd(a, b)) && c <= Gcd(a, b)
  {
    hide Mul, Div, Divides;
    DividesPositive(c, a);
    var s, t := Bezout(a, b);
    Quotient(c, a);
    Quotient(c, b);
    var k := s * Div(a, c) + t * Div(b, c);
    Combination(s, t, a, b, Div(a, c), Div(b, c), c);
    PositiveFactor(k, c);
    ProductDivides(k, c);
    MulFacts(k, c);
  }

  lemma GcdSymmetric(a: nat, b: nat)
    ensures Gcd(a, b) == Gcd(b, a)
  {
    if a < b {
      RemainderOfSmaller(a, b);
    } else if b < a {
      RemainderOfSmaller(b, a);
    }
  }

  lemma RemainderOfSmaller(a: nat, b: nat)
    requires a < b
    ensures a % b == a
  {
  }

  /** The source's loop: an early exit on equal arguments, a swap, then Euclid's algorithm. */
  method ComputeGcd(a0: nat, b0: nat) returns (g: nat)
    ensures g == Gcd(a0, b0)
    ensures a0 > 0 || b0 > 0 ==>
      Divides(g, a0) && Divides(g, b0) && forall c: nat :: Divides(c, a0) && Divides(c, b0) ==> c <= g
  {
    hide Mul, Div, Divides;
    if a0 > 0 || b0 > 0 {
      GcdDividesBoth(a0, b0);
      forall c: nat | Divides(c, a0) && Divides(c, b0)
        ensures c <= Gcd(a0, b0)
      {
        GcdGreatest(a0, b0, c);
      }
    }
    var a: nat, b: nat := a0, b0;
    if a == b {
      GcdOfEqual(a);
      return a;
    } else if a < b {
      GcdSymmetric(a, b);
      a, b := b, a;
    }
    while b != 0
      invariant Gcd(a, b) == Gcd(a0, b0)
      decreases b
    {
      a, b := b, a % b;
    }
    return a;
  }

  lemma GcdOfEqual(a: nat)
    ensures Gcd(a, a) == a
  {
    if a > 0 {
      SelfAndZero(a);
    }
  }

  /** a = x g and b = y g: the lcm is x b = y a. */
  lemma LcmByQuotients(a: nat, b: nat) returns (x: nat, y: nat, g: nat)
    requires a > 0 && b > 0
    ensures g == Gcd(a, b) > 0
    ensures Lcm(a, b) == Mul(x, b) == Mul(y, a)
    ensures Mul(Lcm(a, b), g) == Mul(a, b)
    ensures x > 0 && y > 0
  {
    hide Mul, Div, Divides;
    g := Gcd(a, b);
    GcdDividesBoth(a, b);
    x, y := Div(a, g), Div(b, g);
    Quotient(g, a);
    Quotient(g, b);
    // a b = (x g) b = (x b) g
    MulAssoc(x, g, b);
    MulFacts(g, b);
    MulAssoc(x, b, g);
    DivOfProduct(Mul(x, b), g);
    // x b = x (y g) = y (x g)
    MulAssoc(x, y, g);
    MulFacts(x, y);
    MulAssoc(y, x, g);
    MulFacts(x, g);
    MulFacts(y, g);
  }

  /** With two non-zero arguments lcm is a common multiple and divides every other one. */
  lemma LcmIsLeastCommonMultiple(a: nat, b: nat)
    requires a > 0 && b > 0
    ensures Lcm(a, b) > 0
    ensures Divides(a, Lcm(a, b)) && Divides(b, Lcm(a, b))
    ensures forall m: nat :: Divides(a, m) && Divides(b, m) ==> Divides(Lcm(a, b), m)
  {
    hide Mul, Div, Divides, Lcm, Gcd;
    var x, y, g := LcmByQuotients(a, b);
    MulFacts(y, a);
    ProductDivides(y, a);
    ProductDivides(x, b);
    forall m: nat | Divides(a, m) && Divides(b, m)
      ensures Divides(Lcm(a, b), m)
    {
      LcmDividesCommonMultiple(a, b, g, Lcm(a, b), m);
    }
  }

  lemma LcmDividesCommonMultiple(a: nat, b: nat, g: nat, l: nat, m: nat)
    requires a > 0 && b > 0 && g == Gcd(a, b) && l > 0
    requires Mul(l, g) == Mul(a, b)
    requires Divides(a, m) && Divides(b, m)
    ensures Divides(l, m)
  {
    hide Mul, Div, Divides, Gcd;
    var s, t := Bezout(a, b);
    Quotient(a, m);
    Quotient(b, m);
    var k := s * Div(m, b) + t * Div(m, a);
    CommonMultipleFactor(s, t, a, b, g, l, m, Div(m, a), Div(m, b));
    if m == 0 {
      SelfAndZero(l);
    } else {
      PositiveFactor(k, l);
      ProductDivides(k, l);
    }
  }

  lemma CommonMultipleFactor(s: int, t: int, a: nat, b: nat, g: nat, l: nat, m: nat, u: nat, v: nat)
    requires g > 0 && s * a + t * b == g && Mul(l, g) == Mul(a, b)
    requires m == Mul(u, a) && m == Mul(v, b)
    ensures m == (s * v + t * u) * l
  {
    calc {
      m * g;
      m * (s * a + t * b);
      s * a * m + t * b * m;
      s * a * (v * b) + t * b * (u * a);
      (s * v + t * u) * (a * b);
      (s * v + t * u) * (l * g);
      ((s * v + t * u) * l) * g;
    }
    CancelFactor(m, (s * v + t * u) * l, g);
  }

  lemma CancelFactor(x: int, y: int, g: nat)
    requires g > 0 && x * g == y * g
    ensures x == y
  {
    assert (x - y) * g == x * g - y * g;
    if x < y {
      PositiveProduct(y - x, g);
    } else if y < x {
      PositiveProduct(x - y, g);
    }
  }

  lemma PositiveProduct(k: int, g: int)
    requires k > 0 && g > 0
    ensures k * g > 0 && (-k) * g < 0
  {
  }

  method ComputeLcm(a: nat, b: nat) returns (l: nat)
    ensures l == Lcm(a, b)
    ensures a > 0 && b > 0 ==>
      Divides(a, l) && Divides(b, l) && forall m: nat :: Divides(a, m) && Divides(b, m) ==> Divides(l, m)
    ensures a == 0 || b == 0 ==> l == Max(a, b)
  {
    hide Mul, Div, Divides;
    if a != 0 && b != 0 {
      LcmIsLeastCommonMultiple(a, b);
      var g := ComputeGcd(a, b);
      return Div(Mul(a, b), g);
    }
    return Max(a, b);
  }

  lemma LcmBound(a: nat, b: nat)
    requires a > 0 && b > 0
    ensures Lcm(a, b) <= Mul(a, b)
  {
    hide Mul, Div, Lcm, Gcd;
    var x, y, g := LcmByQuotients(a, b);
    MulMono(1, g, Lcm(a, b), Lcm(a, b));
    MulFacts(Lcm(a, b), g);
    MulFacts(1, Lcm(a, b));
  }
}
