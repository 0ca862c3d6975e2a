/** Products and quotients of reals, in the small steps the solver can follow. */
module Reals {

  /** A product the solver can be told not to look into. */
  function Times(a: real, b: real): real {
    a * b
  }

  // The product is returned as a value of its own, since the solver loses sight of x*x.
  lemma PositiveProduct(p: real, q: real) returns (r: real)
    requires (p > 0.0 && q > 0.0) || (p < 0.0 && q < 0.0)
    ensures r == p * q && r > 0.0
  {
    r := p * q;
  }

  lemma NonNegativeProduct(p: real, q: real) returns (r: real)
    requires p >= 0.0 && q >= 0.0
    ensures r == p * q && r >= 0.0
  {
    r := p * q;
  }

  lemma DivideBound(d: real, p: real, c: real)
    requires p > 0.0 && p * d <= c
    ensures d <= c / p
  {
    var q := c / p;
    assert p * q == c;
    if d > q { var r := PositiveProduct(p, d - q); }
  }

  lemma DivideNonNegative(c: real, p: real)
    requires c >= 0.0 && p > 0.0
    ensures c / p >= 0.0
  {
  }

  function Abs(x: real): (r: real)
    ensures r >= 0.0
  {
    if x < 0.0 then -x else x
  }

  lemma AbsTimes(x: real, t: real)
    requires t >= 0.0
    ensures Abs(Times(x, t)) == Times(Abs(x), t)
  {
    if x < 0.0 {
      var r := NonNegativeProduct(-x, t);
    } else {
      var r := NonNegativeProduct(x, t);
    }
  }

  lemma TimesZero(c: real)
    ensures Times(c, 0.0) == 0.0 && Times(0.0, c) == 0.0
  {
  }

  lemma TimesAdds(a: real, b: real, t: real)
    ensures Times(a + b, t) == Times(a, t) + Times(b, t)
  {
  }

  /** Multiplying by a fraction shrinks towards zero. */
  lemma TimesFraction(x: real, t: real)
    requires 0.0 <= t <= 1.0
    ensures x >= 0.0 ==> 0.0 <= Times(x, t) <= x
    ensures x <= 0.0 ==> x <= Times(x, t) <= 0.0
  {
    if x >= 0.0 {
      var r1 := NonNegativeProduct(x, t);
      var r2 := NonNegativeProduct(x, 1.0 - t);
    } else {
      var r1 := NonNegativeProduct(-x, t);
      var r2 := NonNegativeProduct(-x, 1.0 - t);
    }
  }

  /** int(): truncation towards zero. */
  function Trunc(x: real): int {
    if x >= 0.0 then x.Floor else -((-x).Floor)
  }

  lemma TimesOne(x: real)
    ensures Times(1.0, x) == x && Times(x, 1.0) == x
  {
  }

  lemma AddQuotients(x: real, y: real, d: real)
    requires d != 0.0
    ensures x / d + y / d == (x + y) / d
  {
    var q, r, s := x / d, y / d, (x + y) / d;
    assert q * d == x && r * d == y && s * d == x + y;
    assert (q + r - s) * d == 0.0;
  }

  lemma TimesSum(c: real, a: real, b: real)
    ensures Times(c, a + b) == Times(c, a) + Times(c, b)
  {
  }

  lemma TimesMonotone(c: real, a: real, b: real)
    requires c >= 0.0 && a <= b
    ensures Times(c, a) <= Times(c, b)
  {
    var r := NonNegativeProduct(c, b - a);
  }

  lemma FactorNotPositive(p: real, q: real)
    requires p > 0.0 && Times(p, q) <= 0.0
    ensures q <= 0.0
  {
    if q > 0.0 { var r := PositiveProduct(p, q); }
  }

  function Power(x: real, n: nat): real {
    if n == 0 then 1.0 else Times(Power(x, n - 1), x)
  }

  lemma {:induction false} PowerPositive(x: real, n: nat)
    requires x > 0.0
    ensures Power(x, n) > 0.0
  {
    if n > 0 {
      PowerPositive(x, n - 1);
      var r := PositiveProduct(Power(x, n - 1), x);
    }
  }

  /** Powers of a fraction never grow. */
  lemma {:induction false} PowerFraction(x: real, n: nat)
    requires 0.0 <= x <= 1.0
    ensures 0.0 <= Power(x, n) <= 1.0 && (n > 0 ==> Power(x, n) <= x)
  {
    if n > 0 {
      PowerFraction(x, n - 1);
      TimesFraction(x, Power(x, n - 1));
      TimesCommute(x, Power(x, n - 1));
    }
  }

  lemma TimesCommute(a: real, b: real)
    ensures Times(a, b) == Times(b, a)
  {
  }

  lemma TimesNonNegative(a: real, b: real)
    requires a >= 0.0 && b >= 0.0
    ensures Times(a, b) >= 0.0
  {
  }

  /** They fall below every bound: x^n * (1 + n (1 - x)) is at most 1. */
  lemma {:induction false} PowerDecays(x: real, n: nat)
    requires 0.0 <= x <= 1.0
    ensures Times(Power(x, n), 1.0 + Times(n as real, 1.0 - x)) <= 1.0
  {
    hide Times;
    if n == 0 {
      TimesZero(1.0 - x);
      TimesOne(1.0);
    } else {
      PowerDecays(x, n - 1);
      PowerFraction(x, n - 1);
      var k, d := (n - 1) as real, 1.0 - x;
      TimesAdds(k, 1.0, d);
      TimesOne(d);
      TimesNonNegative(k, d);
      DecayStep(x, Power(x, n - 1), Times(k, d), Times(n as real, d));
    }
  }

  lemma DecayStep(x: real, p: real, m: real, l: real)
    requires 0.0 <= x <= 1.0 && 0.0 <= p && m >= 0.0 && l == m + (1.0 - x) && Times(p, 1.0 + m) <= 1.0
    ensures Times(Times(p, x), 1.0 + l) <= 1.0
  {
    var d := 1.0 - x;
    var k := NonNegativeProduct(d, d + m);
    var e := NonNegativeProduct(p, k);
    assert x * (1.0 + l) == 1.0 + m - k;
    assert (p * x) * (1.0 + l) == p * (x * (1.0 + l));
    assert p * (1.0 + m - k) == p * (1.0 + m) - e;
  }

  /** From some exponent on, the powers of a proper fraction times c stay within eps. */
  lemma PowerVanishes(x: real, c: real, eps: real) returns (n: nat)
    requires 0.0 <= x < 1.0 && c >= 0.0 && eps > 0.0
    ensures forall k: nat :: k >= n ==> Times(Power(x, k), c) <= eps
  {
    hide Times, Power;
    var d := PositiveProduct(eps, 1.0 - x);
    DivideNonNegative(c, d);
    n := (c / d).Floor + 1;
    forall k: nat | k >= n ensures Times(Power(x, k), c) <= eps {
      PowerFraction(x, k);
      PowerDecays(x, k);
      DecayedBelow(Power(x, k), c, eps, 1.0 - x, d, k as real);
    }
  }

  lemma DecayedBelow(p: real, c: real, eps: real, t: real, d: real, k: real)
    requires p >= 0.0 && eps > 0.0 && t > 0.0 && d == eps * t && d > 0.0 && k >= c / d
    requires Times(p, 1.0 + Times(k, t)) <= 1.0
    ensures Times(p, c) <= eps
  {
    var q := c / d;
    assert q * d == c;
    var e := NonNegativeProduct(k - q, d);
    var f := NonNegativeProduct(p, e + eps);
    assert k * d - c == e;
    assert k * d == eps * (k * t);
    assert eps * (p * (1.0 + k * t)) == p * (eps + k * d);
    var g := NonNegativeProduct(eps, 1.0 - p * (1.0 + k * t));
  }
}
