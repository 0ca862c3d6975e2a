/** Risk parity for two names at every correlation: exactly when a run from equal weights gets nearer to equal
    risk contributions, and exactly when it reaches them. */
module RiskParityRuns {
  import opened Reals
  import opened Vectors
  import opened Sizing
  import opened RiskParityPair
  import Rate = RiskParityRate

  // ---- every correlation: exactly when a run gets nearer to parity ----

  /** The imbalance between the squared risks as a fraction of both, between -1 and 1. */
  function Tilt(u: real): real {
    Gap(u) / (u * u + 1.0)
  }

  /** The product of the risks as a fraction of both squares: at most a half, and a half at parity. */
  function Overlap(u: real): real {
    u / (u * u + 1.0)
  }

  lemma TiltOverlap(u: real)
    requires u > 0.0
    ensures Overlap(u) > 0.0
    ensures Times(Tilt(u), Tilt(u)) + 4.0 * Times(Overlap(u), Overlap(u)) == 1.0
    ensures Tilt(u) == 0.0 <==> u == 1.0
  {
    hide Gap, Times, Tilt, Overlap;
    var uu := TiltParts(u);
    GapZeroIff(u);
    UnitCircle(Tilt(u), Overlap(u), u, uu);
  }

  lemma UnitCircle(t: real, h: real, u: real, uu: real)
    requires u > 0.0 && uu == u * u && Times(t, uu + 1.0) == uu - 1.0 && Times(h, uu + 1.0) == u
    ensures h > 0.0 && Times(t, t) + 4.0 * Times(h, h) == 1.0 && (t == 0.0 <==> uu - 1.0 == 0.0)
  {
    var p := PositiveProduct(u, u);
    var d := uu + 1.0;
    var dd := PositiveProduct(d, d);
    if h <= 0.0 { var n := NonNegativeProduct(-h, d); }
    assert (t * t) * dd == (uu - 1.0) * (uu - 1.0) && (h * h) * dd == uu;
    assert (t * t + 4.0 * (h * h)) * dd == 1.0 * dd;
    CancelPositive(t * t + 4.0 * (h * h), 1.0, dd);
    if t != 0.0 && uu == 1.0 { CancelPositive(t, 0.0, d); }
  }

  /** The law of one step for the tilt: t'(2h + r) = r t. */
  lemma TiltLaw(u: real, v: real, r: real)
    requires u > 0.0 && v > 0.0 && u + r > 0.0 && Times(Gap(v), u + r) == Times(r, Gap(u))
    ensures 2.0 * Overlap(u) + r > 0.0
    ensures Times(Tilt(v), 2.0 * Overlap(u) + r) == Times(r, Tilt(u))
  {
    hide Gap, Times, Tilt, Overlap;
    var uu := TiltParts(u);
    var vv := TiltParts(v);
    TiltAlgebra(Tilt(v), Tilt(u), Overlap(u), r, u, uu, vv);
  }

  lemma TiltParts(u: real) returns (uu: real)
    requires u > 0.0
    ensures uu > 0.0 && uu == u * u && Gap(u) == uu - 1.0
    ensures Times(Tilt(u), uu + 1.0) == uu - 1.0 && Times(Overlap(u), uu + 1.0) == u
  {
    uu := PositiveProduct(u, u);
  }

  lemma TiltAlgebra(t1: real, t0: real, h: real, r: real, u: real, uu: real, vv: real)
    requires uu > 0.0 && vv > 0.0 && u + r > 0.0 && Times(vv - 1.0, u + r) == Times(r, uu - 1.0)
    requires Times(t1, vv + 1.0) == vv - 1.0
    requires Times(t0, uu + 1.0) == uu - 1.0 && Times(h, uu + 1.0) == u
    ensures 2.0 * h + r > 0.0 && Times(t1, 2.0 * h + r) == Times(r, t0)
  {
    var d, e, g := uu + 1.0, vv + 1.0, 2.0 * h + r;
    var l := PositiveProduct(e, u + r);
    TiltScale(u, uu, vv, r, h, d, l);
    if g <= 0.0 { var n := NonNegativeProduct(d, -g); }
    TiltCancel(t1, t0, r, d, e, g, u + r, uu, vv);
  }

  lemma TiltScale(u: real, uu: real, vv: real, r: real, h: real, d: real, l: real)
    requires (vv - 1.0) * (u + r) == r * (uu - 1.0) && h * d == u && d == uu + 1.0
    requires l == (vv + 1.0) * (u + r)
    ensures l == d * (2.0 * h + r)
  {
    assert l == (vv - 1.0) * (u + r) + 2.0 * (u + r);
    assert d * (2.0 * h + r) == 2.0 * (h * d) + r * uu + r;
  }

  lemma TiltCancel(t1: real, t0: real, r: real, d: real, e: real, g: real, s: real, uu: real, vv: real)
    requires d > 0.0 && t1 * e == vv - 1.0 && t0 * d == uu - 1.0 && e * s == d * g
    requires (vv - 1.0) * s == r * (uu - 1.0)
    ensures Times(t1, g) == Times(r, t0)
  {
    assert (t1 * g) * d == t1 * (e * s);
    assert t1 * (e * s) == (t1 * e) * s;
    assert (r * t0) * d == r * (t0 * d);
    CancelPositive(t1 * g, r * t0, d);
  }

  lemma OverlapOrder(u: real, v: real)
    requires u > 0.0 && v > 0.0
    ensures Abs(Tilt(v)) <= Abs(Tilt(u)) ==> Overlap(v) >= Overlap(u)
    ensures Abs(Tilt(v)) >= Abs(Tilt(u)) ==> Overlap(v) <= Overlap(u)
  {
    hide Tilt, Overlap, Times;
    TiltOverlap(u);
    TiltOverlap(v);
    SquareOrder(Tilt(u), Tilt(v));
    SquareOrder(Tilt(v), Tilt(u));
    SquareOrder(Overlap(u), Overlap(v));
    SquareOrder(Overlap(v), Overlap(u));
  }

  lemma SquareOrder(p: real, q: real)
    ensures Abs(p) <= Abs(q) <==> Times(p, p) <= Times(q, q)
  {
    var x, y := Abs(p), Abs(q);
    assert p * p == x * x && q * q == y * y;
    if x > y { var n := PositiveProduct(x, x - y); var k := NonNegativeProduct(y, x - y); }
    if x <= y { var n := NonNegativeProduct(x, y - x); var k := NonNegativeProduct(y, y - x); }
  }

  lemma TiltStep(a: real, b: real, r: real, w: Vec, sqrt: real -> real) returns (u: real, v: real)
    requires a > 0.0 && b > 0.0 && Long(w) && IsSqrt(sqrt) && FloorsInactive(Pair(a, b, r), w, sqrt)
    ensures Long(ParityStep(Pair(a, b, r), w, sqrt))
    ensures u == Lean(a, b, w) > 0.0 && v == Lean(a, b, ParityStep(Pair(a, b, r), w, sqrt)) > 0.0
    ensures 2.0 * Overlap(u) + r > 0.0
    ensures Times(Abs(Tilt(v)), 2.0 * Overlap(u) + r) == Times(Abs(r), Abs(Tilt(u)))
  {
    hide FloorsInactive, IsSqrt, ParityStep, Pair, Lean, Times, Gap, Tilt, Overlap;
    StepLaw(a, b, r, w, sqrt);
    u, v := Lean(a, b, w), Lean(a, b, ParityStep(Pair(a, b, r), w, sqrt));
    TiltLaw(u, v, r);
    AbsProduct(Tilt(v), 2.0 * Overlap(u) + r, r, Tilt(u));
  }

  /** Above the threshold -h, where h is the overlap at the start, every step shrinks the tilt by a fixed
      factor. */
  lemma {:induction false} RunTilt(a: real, b: real, r: real, sqrt: real -> real, k: nat)
    requires a > 0.0 && b > 0.0 && IsSqrt(sqrt) && Clear(Pair(a, b, r), sqrt, k)
    requires Overlap(a / b) + r > 0.0 && 2.0 * Overlap(a / b) + r > 0.0
    ensures Long(ParityIterate(Pair(a, b, r), sqrt, k))
    ensures var u := Lean(a, b, ParityIterate(Pair(a, b, r), sqrt, k));
            u > 0.0 && Abs(Tilt(u)) <= Times(Power(Factor(Abs(r), 2.0 * Overlap(a / b) + r), k), Abs(Tilt(a / b)))
  {
    hide FloorsInactive, IsSqrt, ParityStep, Pair, Lean, Times, Tilt, Overlap, Factor;
    var m, h, start := Pair(a, b, r), Overlap(a / b), Abs(Tilt(a / b));
    IterateLong(m, sqrt, k);
    StartLean(a, b, r, sqrt);
    if k == 0 {
      TimesOne(start);
    } else {
      RunTilt(a, b, r, sqrt, k - 1);
      var w, rate := ParityIterate(m, sqrt, k - 1), Factor(Abs(r), 2.0 * h + r);
      var u, v := TiltStep(a, b, r, w, sqrt);
      TiltOverlap(a / b);
      FactorFraction(Abs(r), 2.0 * h + r);
      PowerFraction(rate, k - 1);
      TimesFraction(start, Power(rate, k - 1));
      TimesCommute(start, Power(rate, k - 1));
      OverlapOrder(a / b, u);
      Shrinks(Abs(Tilt(u)), Abs(Tilt(v)), 2.0 * Overlap(u) + r, Abs(r), 2.0 * h + r, Power(rate, k - 1), start);
    }
  }

  /** At the threshold or below no step ever brings the tilt under its start, and at the threshold it stays. */
  lemma {:induction false} RunStuck(a: real, b: real, r: real, sqrt: real -> real, k: nat)
    requires a > 0.0 && b > 0.0 && IsSqrt(sqrt) && Clear(Pair(a, b, r), sqrt, k)
    requires Overlap(a / b) + r <= 0.0
    ensures Long(ParityIterate(Pair(a, b, r), sqrt, k))
    ensures var u := Lean(a, b, ParityIterate(Pair(a, b, r), sqrt, k));
            u > 0.0 && Abs(Tilt(u)) >= Abs(Tilt(a / b))
  {
    hide FloorsInactive, IsSqrt, ParityStep, Pair, Lean, Times, Tilt, Overlap;
    var m := Pair(a, b, r);
    IterateLong(m, sqrt, k);
    StartLean(a, b, r, sqrt);
    if k > 0 {
      RunStuck(a, b, r, sqrt, k - 1);
      var w := ParityIterate(m, sqrt, k - 1);
      var u, v := TiltStep(a, b, r, w, sqrt);
      OverlapOrder(a / b, u);
      ProductOrder(Abs(Tilt(v)), 2.0 * Overlap(u) + r, Abs(r), Abs(Tilt(u)));
    }
  }

  /** Equal volatilities start at parity and stay there. */
  lemma {:induction false} RunLevel(a: real, r: real, sqrt: real -> real, k: nat)
    requires a > 0.0 && IsSqrt(sqrt) && Clear(Pair(a, a, r), sqrt, k)
    ensures Long(ParityIterate(Pair(a, a, r), sqrt, k))
    ensures var u := Lean(a, a, ParityIterate(Pair(a, a, r), sqrt, k));
            u > 0.0 && Abs(Tilt(u)) == 0.0
  {
    hide FloorsInactive, IsSqrt, ParityStep, Pair, Lean, Times, Tilt, Overlap;
    var m := Pair(a, a, r);
    IterateLong(m, sqrt, k);
    if k == 0 {
      StartLean(a, a, r, sqrt);
      SelfRatio(a);
      TiltOverlap(1.0);
    } else {
      RunLevel(a, r, sqrt, k - 1);
      var u, v := TiltStep(a, a, r, ParityIterate(m, sqrt, k - 1), sqrt);
      ProductOrder(Abs(Tilt(v)), 2.0 * Overlap(u) + r, Abs(r), Abs(Tilt(u)));
    }
  }

  /** m01 (m00 + m11) + m00 m11, for the entries of the covariance, over the product of the volatilities: above 0
      the run gets nearer to parity. */
  function Margin(a: real, b: real, r: real): real {
    r * (a * a + b * b) + a * b
  }

  lemma ThresholdForm(a: real, b: real, r: real)
    requires a > 0.0 && b > 0.0
    ensures Margin(a, b, r) > 0.0 <==> Overlap(a / b) + r > 0.0
    ensures Margin(a, b, r) < 0.0 <==> Overlap(a / b) + r < 0.0
    ensures Overlap(a / b) > 0.0
  {
    var u := a / b;
    DividePositive(a, b);
    assert u * b == a;
    hide Gap, Tilt;
    TiltOverlap(u);
    var h, d := Overlap(u), u * u + 1.0;
    assert h * d == u;
    ThresholdScale(a, b, r, u, h, d);
  }

  lemma ThresholdScale(a: real, b: real, r: real, u: real, h: real, d: real)
    requires a > 0.0 && b > 0.0 && u > 0.0 && u * b == a && d == u * u + 1.0 && h * d == u
    ensures Margin(a, b, r) > 0.0 <==> h + r > 0.0
    ensures Margin(a, b, r) < 0.0 <==> h + r < 0.0
  {
    var bb := PositiveProduct(b, b);
    var uu := PositiveProduct(u, u);
    var e := PositiveProduct(d, bb);
    assert a * a == uu * bb && a * b == u * bb;
    assert r * (a * a + b * b) + a * b == (h + r) * e;
    if h + r > 0.0 { var p := PositiveProduct(h + r, e); }
    if h + r < 0.0 { var p := PositiveProduct(-(h + r), e); }
  }

  /** Exactly when a run from equal weights is nearer to parity than it started: as long as the floors are
      inactive, after one step and after any number of steps, if and only if the correlation is above the
      threshold. */
  lemma NearerIff(a: real, b: real, r: real, sqrt: real -> real, k: nat)
    requires a > 0.0 && b > 0.0 && a != b && k > 0 && IsSqrt(sqrt) && Clear(Pair(a, b, r), sqrt, k)
    ensures Long(ParityIterate(Pair(a, b, r), sqrt, k))
    ensures Abs(Tilt(Lean(a, b, ParityIterate(Pair(a, b, r), sqrt, k)))) < Abs(Tilt(a / b)) <==>
            Margin(a, b, r) > 0.0
  {
    hide FloorsInactive, IsSqrt, ParityStep, Pair, Lean, Times, Tilt, Overlap, Factor, Margin;
    ThresholdForm(a, b, r);
    if Margin(a, b, r) > 0.0 {
      RunTilt(a, b, r, sqrt, k);
      var q := Factor(Abs(r), 2.0 * Overlap(a / b) + r);
      FactorFraction(Abs(r), 2.0 * Overlap(a / b) + r);
      PowerFraction(q, k);
      RatioNotOne(a, b);
      TiltOverlap(a / b);
      ShrunkStrictly(Power(q, k), Abs(Tilt(a / b)));
    } else {
      RunStuck(a, b, r, sqrt, k);
    }
  }

  lemma RatioNotOne(a: real, b: real)
    requires a > 0.0 && b > 0.0 && a != b
    ensures a / b > 0.0 && a / b != 1.0
  {
    assert a / b * b == a;
    DividePositive(a, b);
  }

  lemma ShrunkStrictly(p: real, t: real)
    requires p < 1.0 && t > 0.0
    ensures Times(p, t) < t
  {
    var n := PositiveProduct(1.0 - p, t);
  }

  lemma Grows(t: real, next: real, g: real, s: real, l: real, p: real, start: real)
    requires 0.0 < g <= l && t >= 0.0 && next >= 0.0 && p >= 0.0 && s > 0.0
    requires Times(next, g) == Times(s, t) && start <= Times(p, t)
    ensures start <= Times(Times(p, Factor(l, s)), next)
  {
    var q := Factor(l, s);
    assert q * s == l;
    var d := NonNegativeProduct(next, l - g);
    assert (q * next) * s >= t * s;
    if q * next < t { var k := PositiveProduct(t - q * next, s); }
    var e := NonNegativeProduct(p, q * next - t);
  }

  /** Below the threshold every step enlarges the tilt by a fixed factor ... */
  lemma {:induction false} RunGrows(a: real, b: real, r: real, sqrt: real -> real, k: nat)
    requires a > 0.0 && b > 0.0 && IsSqrt(sqrt) && Clear(Pair(a, b, r), sqrt, k)
    requires Overlap(a / b) + r < 0.0 && r < 0.0
    ensures Long(ParityIterate(Pair(a, b, r), sqrt, k))
    ensures var u := Lean(a, b, ParityIterate(Pair(a, b, r), sqrt, k));
            u > 0.0 && Abs(Tilt(a / b)) <= Times(Power(Factor(2.0 * Overlap(a / b) + r, -r), k), Abs(Tilt(u)))
  {
    hide FloorsInactive, IsSqrt, ParityStep, Pair, Lean, Times, Tilt, Overlap, Factor;
    var m, h, start := Pair(a, b, r), Overlap(a / b), Abs(Tilt(a / b));
    IterateLong(m, sqrt, k);
    StartLean(a, b, r, sqrt);
    if k == 0 {
      TimesOne(start);
    } else {
      RunGrows(a, b, r, sqrt, k - 1);
      var w, rate := ParityIterate(m, sqrt, k - 1), Factor(2.0 * h + r, -r);
      var u, v := TiltStep(a, b, r, w, sqrt);
      RunStuck(a, b, r, sqrt, k - 1);
      OverlapOrder(a / b, u);
      FactorFraction(2.0 * h + r, -r);
      PowerFraction(rate, k - 1);
      Grows(Abs(Tilt(u)), Abs(Tilt(v)), 2.0 * Overlap(u) + r, -r, 2.0 * h + r, Power(rate, k - 1), start);
    }
  }

  lemma TiltAtMostOne(u: real)
    requires u > 0.0
    ensures Abs(Tilt(u)) <= 1.0
  {
    hide Tilt, Overlap;
    TiltOverlap(u);
    var t, h := Tilt(u), Overlap(u);
    assert t * t >= 0.0 && h * h >= 0.0;
    if Abs(t) > 1.0 { var p := PositiveProduct(Abs(t) - 1.0, Abs(t) + 1.0); }
  }

  /** ... so that some iterate has a contribution or a weight at its floor. */
  lemma BelowThreshold(a: real, b: real, r: real, sqrt: real -> real)
    requires a > 0.0 && b > 0.0 && a != b && Margin(a, b, r) < 0.0 && IsSqrt(sqrt)
    ensures exists k: nat :: !FloorsInactive(Pair(a, b, r), ParityIterate(Pair(a, b, r), sqrt, k), sqrt)
  {
    hide FloorsInactive, IsSqrt, Pair, ParityIterate, Margin, Lean, Tilt, Overlap, Times, Factor, Power;
    if forall k: nat :: FloorsInactive(Pair(a, b, r), ParityIterate(Pair(a, b, r), sqrt, k), sqrt) {
      ThresholdForm(a, b, r);
      RatioNotOne(a, b);
      TiltOverlap(a / b);
      var start, rate := Abs(Tilt(a / b)), Factor(2.0 * Overlap(a / b) + r, -r);
      RunGrows(a, b, r, sqrt, 1);
      GrowthFraction(a, b, r, sqrt);
      var n := PowerVanishes(rate, 1.0, start / 2.0);
      RunGrows(a, b, r, sqrt, n);
      var t := Abs(Tilt(Lean(a, b, ParityIterate(Pair(a, b, r), sqrt, n))));
      TiltAtMostOne(Lean(a, b, ParityIterate(Pair(a, b, r), sqrt, n)));
      PowerFraction(rate, n);
      HalfTooSmall(Power(rate, n), t, start);
    }
  }

  lemma GrowthFraction(a: real, b: real, r: real, sqrt: real -> real)
    requires a > 0.0 && b > 0.0 && IsSqrt(sqrt) && Clear(Pair(a, b, r), sqrt, 1)
    requires Overlap(a / b) + r < 0.0
    ensures 0.0 <= Factor(2.0 * Overlap(a / b) + r, -r) < 1.0
  {
    hide FloorsInactive, IsSqrt, ParityStep, Pair, Lean, Times, Tilt, Overlap, Factor;
    StartLean(a, b, r, sqrt);
    var u, v := TiltStep(a, b, r, ParityIterate(Pair(a, b, r), sqrt, 0), sqrt);
    FactorFraction(2.0 * Overlap(a / b) + r, -r);
  }

  lemma HalfTooSmall(p: real, t: real, start: real)
    requires start > 0.0 && p >= 0.0 && 0.0 <= t <= 1.0 && Times(p, 1.0) <= start / 2.0
    ensures Times(p, t) < start
  {
    var n := NonNegativeProduct(p, 1.0 - t);
  }

  // ---- in terms of risk contributions ----

  /** The difference of the contributions, as a fraction of the variance, is the tilt over 1 + 2 r h. */
  lemma ContributionTilt(x: real, y: real, r: real, u: real)
    requires x > 0.0 && y > 0.0 && u > 0.0 && x == u * y
    ensures var p, q := Share(x, y, r), Share(y, x, r);
            Times(p - q, 1.0 + 2.0 * r * Overlap(u)) == Times(Tilt(u), p + q)
  {
    var p, q := Share(x, y, r), Share(y, x, r);
    var xy := x * y;
    assert p == x * x + r * xy && q == y * y + r * xy;
    var yy := PositiveProduct(y, y);
    hide Share, Tilt, Overlap, Gap, Times;
    var uu := TiltParts(u);
    TiltedShares(u, uu, yy, r, Tilt(u), Overlap(u), p - q, p + q);
  }

  lemma TiltedShares(u: real, uu: real, yy: real, r: real, t: real, h: real, d: real, s: real)
    requires uu > 0.0 && Times(t, uu + 1.0) == uu - 1.0 && Times(h, uu + 1.0) == u
    requires d == (uu - 1.0) * yy && s == (uu + 1.0 + 2.0 * r * u) * yy
    ensures Times(d, 1.0 + 2.0 * r * h) == Times(t, s)
  {
    var e := uu + 1.0;
    assert d == t * e * yy;
    assert s == (1.0 + 2.0 * r * h) * e * yy;
  }

  /** 1 + 2 r h lies between c and 1 + |r|, where c is 1 for r >= 0 and 1 + r below. */
  function Slack(r: real): real {
    if r >= 0.0 then 1.0 else 1.0 + r
  }

  lemma SlackBounds(r: real, u: real)
    requires r > -1.0 && u > 0.0
    ensures 0.0 < Slack(r) <= 1.0 + 2.0 * r * Overlap(u) <= 1.0 + Abs(r)
  {
    hide Tilt, Overlap;
    TiltOverlap(u);
    var h, t := Overlap(u), Tilt(u);
    assert t * t >= 0.0;
    if h > 0.5 { var p := PositiveProduct(h - 0.5, h + 0.5); }
    var q := NonNegativeProduct(Abs(r), 1.0 - 2.0 * h);
    var l := NonNegativeProduct(Abs(r), h);
  }

  lemma ClearCorrelation(a: real, b: real, r: real, w: Vec, sqrt: real -> real)
    requires a > 0.0 && b > 0.0 && Long(w) && IsSqrt(sqrt) && FloorsInactive(Pair(a, b, r), w, sqrt)
    ensures r > -1.0
  {
    if r <= -1.0 { PerfectHedge(a, b, r, w, sqrt); }
  }

  /** The difference of the contributions lies between the tilt over 1 + |r| and the tilt over the slack. */
  lemma UnevenBounds(a: real, b: real, r: real, w: Vec, sqrt: real -> real)
    requires a > 0.0 && b > 0.0 && Long(w) && IsSqrt(sqrt) && FloorsInactive(Pair(a, b, r), w, sqrt)
    ensures var rc, t := Contributions(Pair(a, b, r), w), Abs(Tilt(Lean(a, b, w)));
            && rc[0] > 0.0 && rc[1] > 0.0
            && Times(Abs(rc[0] - rc[1]), Slack(r)) <= Times(t, rc[0] + rc[1])
            && Times(t, rc[0] + rc[1]) <= Times(Abs(rc[0] - rc[1]), 1.0 + Abs(r))
  {
    hide FloorsInactive, IsSqrt, ParityStep, Pair, Lean, Times, Tilt, Overlap, Share, Slack, Contributions;
    var x, y := w[0] * a, w[1] * b;
    var s, f, total := PairFactors(a, b, r, w, sqrt, x, y);
    var u := LeanOf(a, b, w, x, y);
    PairContributions(a, b, r, w, x, y);
    ContributionTilt(x, y, r, u);
    ClearCorrelation(a, b, r, w, sqrt);
    SlackBounds(r, u);
    var d, g, v := Share(x, y, r) - Share(y, x, r), 1.0 + 2.0 * r * Overlap(u), Share(x, y, r) + Share(y, x, r);
    UnevenOrder(d, g, Tilt(u), v, Slack(r), 1.0 + Abs(r));
  }

  lemma UnevenOrder(d: real, g: real, t: real, v: real, lo: real, hi: real)
    requires 0.0 < lo <= g <= hi && v > 0.0 && Times(d, g) == Times(t, v)
    ensures Times(Abs(d), lo) <= Times(Abs(t), v) <= Times(Abs(d), hi)
  {
    AbsTimes(d, g);
    AbsTimes(t, v);
    var p := NonNegativeProduct(Abs(d), g - lo);
    var q := NonNegativeProduct(Abs(d), hi - g);
  }

  lemma EvenBelow(d: real, v: real, t: real, c: real, eps: real)
    requires c > 0.0 && v > 0.0 && Times(d, c) <= Times(t, v) && t <= Times(eps, c)
    ensures d <= Times(eps, v)
  {
    var p := NonNegativeProduct(eps * c - t, v);
    assert eps * c * v == (eps * v) * c;
    if d > eps * v { var q := PositiveProduct(d - eps * v, c); }
  }

  /** Two contributions are within the factor s once they differ by at most (s - 1)/(s + 1) of their sum. */
  lemma EvenFromDifference(m: Mat, w: Vec, s: real, eps: real)
    requires Square(m) && |w| == |m| == 2 && s > 1.0 && Times(eps, s + 1.0) == s - 1.0
    requires var rc := Contributions(m, w);
             rc[0] > 0.0 && rc[1] > 0.0 && Abs(rc[0] - rc[1]) <= Times(eps, rc[0] + rc[1])
    ensures Rate.EvenWithin(m, w, s)
  {
    hide Contributions, Times;
    var rc := Contributions(m, w);
    FactorFromDifference(rc[0], rc[1], s, eps);
    FactorFromDifference(rc[1], rc[0], s, eps);
  }

  lemma FactorFromDifference(p: real, q: real, s: real, eps: real)
    requires p > 0.0 && q > 0.0 && s > 1.0 && Times(eps, s + 1.0) == s - 1.0 && Abs(p - q) <= Times(eps, p + q)
    ensures p <= Times(s, q) && p <= Times(s, p)
  {
    var k := NonNegativeProduct(eps * (p + q) - (p - q), s + 1.0);
    assert (eps * (p + q)) * (s + 1.0) == (eps * (s + 1.0)) * (p + q);
    var l := NonNegativeProduct(s - 1.0, p);
  }

  /** Within the factor 1 + eps they differ by at most eps of their sum. */
  lemma DifferenceFromEven(m: Mat, w: Vec, eps: real)
    requires Square(m) && |w| == |m| == 2 && eps > 0.0 && Rate.EvenWithin(m, w, 1.0 + eps)
    requires Contributions(m, w)[0] > 0.0 && Contributions(m, w)[1] > 0.0
    ensures var rc := Contributions(m, w); Abs(rc[0] - rc[1]) <= Times(eps, rc[0] + rc[1])
  {
    hide Contributions;
    var p, q := Contributions(m, w)[0], Contributions(m, w)[1];
    var k := NonNegativeProduct(eps, p);
    var l := NonNegativeProduct(eps, q);
  }

  /** With the floors inactive along the run: two names converge to equal risk contributions if and only if
      their volatilities are equal or their correlation is above the threshold. */
  lemma ReachesParityIff(a: real, b: real, r: real, sqrt: real -> real)
    requires a > 0.0 && b > 0.0 && IsSqrt(sqrt)
    requires forall k: nat :: FloorsInactive(Pair(a, b, r), ParityIterate(Pair(a, b, r), sqrt, k), sqrt)
    ensures Rate.ReachesParity(Pair(a, b, r), sqrt) <==> a == b || Margin(a, b, r) > 0.0
  {
    hide FloorsInactive, IsSqrt, ParityIterate, Pair, Margin, Rate.EvenEventually;
    if a == b || Margin(a, b, r) > 0.0 {
      forall s: real | s > 1.0 ensures Rate.EvenEventually(Pair(a, b, r), sqrt, s) {
        Converges(a, b, r, sqrt, s);
      }
    } else {
      StaysUneven(a, b, r, sqrt);
    }
  }

  lemma Converges(a: real, b: real, r: real, sqrt: real -> real, s: real)
    requires a > 0.0 && b > 0.0 && s > 1.0 && IsSqrt(sqrt) && (a == b || Margin(a, b, r) > 0.0)
    requires forall k: nat :: FloorsInactive(Pair(a, b, r), ParityIterate(Pair(a, b, r), sqrt, k), sqrt)
    ensures Rate.EvenEventually(Pair(a, b, r), sqrt, s)
  {
    hide FloorsInactive, IsSqrt, ParityIterate, Pair, Margin, Lean, Tilt, Times, Contributions, Slack;
    hide Overlap, Factor, Rate.EvenWithin;
    var m := Pair(a, b, r);
    StartLean(a, b, r, sqrt);
    ClearCorrelation(a, b, r, ParityIterate(m, sqrt, 0), sqrt);
    SlackBounds(r, 1.0);
    var eps, bound := DifferenceBound(s, Slack(r));
    var n := TiltVanishes(a, b, r, sqrt, bound);
    forall k: nat | k >= n ensures Rate.EvenWithin(m, ParityIterate(m, sqrt, k), s) {
      var w := ParityIterate(m, sqrt, k);
      UnevenBounds(a, b, r, w, sqrt);
      var rc := Contributions(m, w);
      EvenBelow(Abs(rc[0] - rc[1]), rc[0] + rc[1], Abs(Tilt(Lean(a, b, w))), Slack(r), eps);
      EvenFromDifference(m, w, s, eps);
    }
    assert Rate.EvenFrom(m, sqrt, s, n);
  }

  lemma DifferenceBound(s: real, c: real) returns (eps: real, p: real)
    requires s > 1.0 && c > 0.0
    ensures Times(eps, s + 1.0) == s - 1.0 && p == Times(eps, c) > 0.0
  {
    eps := (s - 1.0) / (s + 1.0);
    DividePositive(s - 1.0, s + 1.0);
    p := PositiveProduct(eps, c);
  }

  lemma TiltVanishes(a: real, b: real, r: real, sqrt: real -> real, bound: real) returns (n: nat)
    requires a > 0.0 && b > 0.0 && bound > 0.0 && IsSqrt(sqrt) && (a == b || Margin(a, b, r) > 0.0)
    requires forall k: nat :: FloorsInactive(Pair(a, b, r), ParityIterate(Pair(a, b, r), sqrt, k), sqrt)
    ensures forall k: nat :: k >= n ==> Long(ParityIterate(Pair(a, b, r), sqrt, k))
                                        && Abs(Tilt(Lean(a, b, ParityIterate(Pair(a, b, r), sqrt, k)))) <= bound
  {
    hide FloorsInactive, IsSqrt, ParityIterate, Pair, Margin, Lean, Tilt, Times, Overlap, Factor, Power;
    if a == b {
      n := 0;
      forall k: nat ensures Long(ParityIterate(Pair(a, b, r), sqrt, k))
                            && Abs(Tilt(Lean(a, b, ParityIterate(Pair(a, b, r), sqrt, k)))) <= bound
      {
        RunLevel(a, r, sqrt, k);
      }
    } else {
      ThresholdForm(a, b, r);
      var l := 2.0 * Overlap(a / b) + r;
      FactorFraction(Abs(r), l);
      n := PowerVanishes(Factor(Abs(r), l), Abs(Tilt(a / b)), bound);
      forall k: nat | k >= n ensures Long(ParityIterate(Pair(a, b, r), sqrt, k))
                                     && Abs(Tilt(Lean(a, b, ParityIterate(Pair(a, b, r), sqrt, k)))) <= bound
      {
        RunTilt(a, b, r, sqrt, k);
      }
    }
  }

  lemma StaysUneven(a: real, b: real, r: real, sqrt: real -> real)
    requires a > 0.0 && b > 0.0 && IsSqrt(sqrt) && a != b && Margin(a, b, r) <= 0.0
    requires forall k: nat :: FloorsInactive(Pair(a, b, r), ParityIterate(Pair(a, b, r), sqrt, k), sqrt)
    ensures !Rate.ReachesParity(Pair(a, b, r), sqrt)
  {
    hide FloorsInactive, IsSqrt, ParityIterate, Pair, Margin, Lean, Tilt, Times, Contributions, Overlap;
    hide Rate.EvenWithin;
    var m, t := Pair(a, b, r), Abs(Tilt(a / b));
    ThresholdForm(a, b, r);
    RatioNotOne(a, b);
    TiltOverlap(a / b);
    var eps := HalfBound(t, 1.0 + Abs(r));
    if Rate.EvenEventually(m, sqrt, 1.0 + eps) {
      var k: nat :| Rate.EvenFrom(m, sqrt, 1.0 + eps, k);
      var w := ParityIterate(m, sqrt, k);
      RunStuck(a, b, r, sqrt, k);
      UnevenBounds(a, b, r, w, sqrt);
      assert Rate.EvenWithin(m, w, 1.0 + eps);
      DifferenceFromEven(m, w, eps);
      var rc := Contributions(m, w);
      NotEven(Abs(rc[0] - rc[1]), rc[0] + rc[1], Abs(Tilt(Lean(a, b, w))), t, 1.0 + Abs(r), eps);
    }
  }

  lemma HalfBound(t: real, c: real) returns (eps: real)
    requires t > 0.0 && c > 0.0
    ensures eps > 0.0 && Times(eps, c) == t / 2.0
  {
    eps := (t / 2.0) / c;
    DividePositive(t / 2.0, c);
  }

  lemma NotEven(d: real, v: real, u: real, t: real, c: real, eps: real)
    requires c > 0.0 && v > 0.0 && t > 0.0 && u >= t && Times(u, v) <= Times(d, c) && Times(eps, c) == t / 2.0
    ensures d > Times(eps, v)
  {
    var p := NonNegativeProduct(u - t, v);
    var q := PositiveProduct(t, v);
    assert (eps * v) * c == (eps * c) * v;
    if d <= eps * v { var k := NonNegativeProduct(eps * v - d, c); }
  }

  lemma SwingingUneven(sqrt: real -> real, k: nat)
    requires IsSqrt(sqrt)
    ensures !Rate.EvenWithin(Swinging(), ParityIterate(Swinging(), sqrt, 2 * k), 2.0)
  {
    hide IsSqrt, Contributions, ParityIterate, Swinging;
    SwingsForEver(sqrt, k);
    var rc := Contributions(Swinging(), ParityIterate(Swinging(), sqrt, 2 * k));
    assert rc[1] > Times(2.0, rc[0]);
  }

  /** The well-conditioned covariance of the swinging run is never brought to equal contributions. */
  lemma SwingingNeverEven(sqrt: real -> real)
    requires IsSqrt(sqrt)
    ensures !Rate.ReachesParity(Swinging(), sqrt)
  {
    hide IsSqrt, ParityIterate, Swinging, Rate.EvenWithin;
    if Rate.EvenEventually(Swinging(), sqrt, 2.0) {
      var n: nat :| Rate.EvenFrom(Swinging(), sqrt, 2.0, n);
      SwingingUneven(sqrt, n);
    }
  }

  // ---- two names without negative correlation ----

  /** Weights inverse to the volatilities give two names equal contributions, at every correlation. */
  lemma PairParity(a: real, b: real, r: real, x: Vec, y: real)
    requires a > 0.0 && b > 0.0 && x == [b / (a + b), a / (a + b)] && y == a * b / (a + b)
    ensures x[0] > 0.0 && x[1] > 0.0 && x[0] + x[1] == 1.0 && x[0] * a == y && x[1] * b == y
    ensures Contributions(Pair(a, b, r), x) == [Share(y, y, r), Share(y, y, r)]
  {
    var p, q, d := x[0], x[1], a + b;
    DividePositive(a, d);
    DividePositive(b, d);
    InverseShares(a, b, d, p, q, y);
    PairContributions(a, b, r, x, p * a, q * b);
  }

  lemma InverseShares(a: real, b: real, d: real, p: real, q: real, y: real)
    requires d == a + b && d > 0.0 && p == b / d && q == a / d && y == a * b / d
    ensures p + q == 1.0 && p * a == y && q * b == y
  {
    assert p * d == b && q * d == a && y * d == a * b;
    CancelPositive(p + q, 1.0, d);
    CancelPositive(p * a, y, d) by { assert (p * a) * d == (p * d) * a; }
    CancelPositive(q * b, y, d) by { assert (q * b) * d == (q * d) * b; }
  }

  lemma PairTame(a: real, b: real, r: real, s: real, x: Vec, y: real, c: real, delta: real)
    requires a > 0.0 && b > 0.0 && r >= 0.0 && a * a <= s * (b * b) && b * b <= s * (a * a)
    requires x == [b / (a + b), a / (a + b)] && y == a * b / (a + b)
    requires x[0] >= MIN_WEIGHT * s && x[1] >= MIN_WEIGHT * s && y * y >= MIN_CONTRIBUTION * s
    requires c == Share(y, y, r) && delta == 1.0 / (1.0 + r)
    ensures Rate.Tame(Pair(a, b, r), x, s, c, delta)
  {
    PairParity(a, b, r, x, y);
    OwnPart(y, r, c, delta);
    PairEntries(a, b, r, x, y);
    SumOfTwo(x);
    SquaredRatio(a, b, s, x[0], x[1], a + b);
    hide Contributions, Share, Sum;
    assert Rate.Roomy(x, c, s);
  }

  lemma OwnPart(y: real, r: real, c: real, delta: real)
    requires y > 0.0 && r >= 0.0 && c == Share(y, y, r) && delta == 1.0 / (1.0 + r)
    ensures c >= y * y > 0.0 && 0.0 < delta <= 1.0 && Times(delta, c) == y * y
  {
    var yy := PositiveProduct(y, y);
    var n := NonNegativeProduct(r, yy);
    DividePositive(1.0, 1.0 + r);
    assert delta * (1.0 + r) == 1.0;
    if delta > 1.0 { var k := NonNegativeProduct(delta - 1.0, 1.0 + r); }
    assert c == (1.0 + r) * yy;
    assert delta * ((1.0 + r) * yy) == (delta * (1.0 + r)) * yy;
  }

  lemma PairEntries(a: real, b: real, r: real, x: Vec, y: real)
    requires a > 0.0 && b > 0.0 && r >= 0.0 && |x| == 2 && x[0] > 0.0 && x[0] * a == y && x[1] * b == y
    ensures Rate.NonNegative(Pair(a, b, r)) && y > 0.0
    ensures Times(Pair(a, b, r)[0][0], Times(x[0], x[0])) == y * y
    ensures Times(Pair(a, b, r)[1][1], Times(x[1], x[1])) == y * y
  {
    var p := PositiveProduct(x[0], a);
    var aa := PositiveProduct(a, a);
    var bb := PositiveProduct(b, b);
    var ra := NonNegativeProduct(r, a);
    var rab := NonNegativeProduct(ra, b);
    OwnSquare(a, x[0], y);
    OwnSquare(b, x[1], y);
  }

  lemma OwnSquare(a: real, x: real, y: real)
    requires x * a == y
    ensures Times(a * a, Times(x, x)) == y * y
  {
    assert (a * a) * (x * x) == (x * a) * (x * a);
  }

  lemma SquaredRatio(a: real, b: real, s: real, p: real, q: real, d: real)
    requires a > 0.0 && b > 0.0 && a * a <= s * (b * b) && b * b <= s * (a * a)
    requires d > 0.0 && p == b / d && q == a / d
    ensures Rate.Comparable([p, q], s)
  {
    assert p * d == b && q * d == a;
    var dd := PositiveProduct(d, d);
    var aa := PositiveProduct(a, a);
    var bb := PositiveProduct(b, b);
    AtLeastOne(aa, bb, s);
    ScaledRatio(p, q, a, b, d, dd, s);
    ScaledRatio(q, p, b, a, d, dd, s);
  }

  lemma AtLeastOne(p: real, q: real, s: real)
    requires p > 0.0 && q > 0.0 && p <= s * q && q <= s * p
    ensures s >= 1.0
  {
    if s < 1.0 {
      if s <= 0.0 { var k := NonNegativeProduct(-s, q); }
      var l := PositiveProduct(1.0 - s, p);
      var m := PositiveProduct(1.0 - s, q);
    }
  }

  lemma ScaledRatio(p: real, q: real, a: real, b: real, d: real, dd: real, s: real)
    requires p * d == b && q * d == a && dd == d * d && dd > 0.0 && b * b <= s * (a * a) && s >= 1.0
    ensures Times(p, p) <= Times(s, Times(q, q)) && Times(p, p) <= Times(s, Times(p, p))
  {
    assert (p * p) * dd == b * b && (s * (q * q)) * dd == s * (a * a);
    if p * p > s * (q * q) { var k := PositiveProduct(p * p - s * (q * q), dd); }
    var pp := p * p;
    assert pp >= 0.0;
    var l := NonNegativeProduct(s - 1.0, pp);
  }

  /** So two names without negative correlation always converge, clear of the floors, once their volatilities
      are neither too small nor too far apart. */
  lemma PairConverges(a: real, b: real, r: real, s: real, sqrt: real -> real, x: Vec, y: real)
    requires a > 0.0 && b > 0.0 && r >= 0.0 && IsSqrt(sqrt)
    requires a * a <= s * (b * b) && b * b <= s * (a * a)
    requires x == [b / (a + b), a / (a + b)] && y == a * b / (a + b)
    requires x[0] >= MIN_WEIGHT * s && x[1] >= MIN_WEIGHT * s && y * y >= MIN_CONTRIBUTION * s
    ensures Rate.ReachesParity(Pair(a, b, r), sqrt)
  {
    PairParity(a, b, r, x, y);
    var c, delta := Share(y, y, r), 1.0 / (1.0 + r);
    PairTame(a, b, r, s, x, y, c, delta);
    Rate.RiskParityConverges(Pair(a, b, r), x, s, c, delta, sqrt);
  }
}
