/** Risk parity for two names: what one step of the iteration does to their imbalance, exactly when a run
    from equal weights reaches equal risk contributions, and a run that never does. */
module RiskParityPair {
  import opened Reals
  import opened Vectors
  import opened Sizing

  /** The covariance of two names with volatilities a and b and correlation r. */
  function Pair(a: real, b: real, r: real): (m: Mat)
    ensures Square(m) && |m| == 2
  {
    [[a * a, r * a * b], [r * a * b, b * b]]
  }

  /** A long book of two names. */
  ghost predicate Long(w: Vec) {
    |w| == 2 && w[0] > 0.0 && w[1] > 0.0
  }

  /** By how much the first name's stand-alone risk outweighs the second's; parity is at 1. */
  function Lean(a: real, b: real, w: Vec): real
    requires Long(w) && b > 0.0
  {
    w[0] * a / (w[1] * b)
  }

  /** What a name of stand-alone risk x contributes beside one of y, at correlation r. */
  function Share(x: real, y: real, r: real): real {
    x * (x + r * y)
  }

  lemma PairContributions(a: real, b: real, r: real, w: Vec, x: real, y: real)
    requires |w| == 2 && x == w[0] * a && y == w[1] * b
    ensures Contributions(Pair(a, b, r), w) == [Share(x, y, r), Share(y, x, r)]
  {
    hide Dot, Share, Times;
    var d, e := Dot([a * a, r * a * b], w), Dot([r * a * b, b * b], w);
    DotOfTwo(a * a, r * a * b, w);
    DotOfTwo(r * a * b, b * b, w);
    FirstContribution(a, b, r, w[0], w[1], d, x, y);
    SecondContribution(a, b, r, w[0], w[1], e, x, y);
    assert Contributions(Pair(a, b, r), w) == [Times(w[0], d), Times(w[1], e)];
  }

  lemma FirstContribution(a: real, b: real, r: real, p: real, q: real, d: real, x: real, y: real)
    requires d == a * a * p + r * a * b * q && x == p * a && y == q * b
    ensures Times(p, d) == Share(x, y, r)
  {
    assert d == a * (x + r * y);
  }

  lemma SecondContribution(a: real, b: real, r: real, p: real, q: real, d: real, x: real, y: real)
    requires d == r * a * b * p + b * b * q && x == p * a && y == q * b
    ensures Times(q, d) == Share(y, x, r)
  {
    assert d == b * (y + r * x);
  }

  lemma FirstSide(x: real, y: real, r: real, s: real, u: real, k: real)
    requires x == u * y && k == x * s
    ensures k * k * (u + r) == u * (s * s * Share(x, y, r))
  {
    var g := u + r;
    assert x + r * y == y * g;
    assert s * s * (x * (y * g)) == k * (y * s) * g;
    assert k == u * (y * s);
  }

  lemma SecondSide(x: real, y: real, r: real, t: real, u: real, z: real)
    requires x == u * y && z == y * t
    ensures z * z * (1.0 + r * u) == t * t * Share(y, x, r)
  {
    assert y + r * x == y * (1.0 + r * u);
  }

  lemma CancelPositive(p: real, q: real, z: real)
    requires z > 0.0 && p * z == q * z
    ensures p == q
  {
    if p > q { var r := PositiveProduct(p - q, z); }
    if p < q { var r := PositiveProduct(q - p, z); }
  }

  /** One step, in terms of the lean u before it and v after it. */
  lemma StepRatio(x: real, y: real, r: real, s: real, t: real, u: real, v: real)
    requires y > 0.0 && t > 0.0 && x == u * y && x * s == v * (y * t)
    requires s * s * Share(x, y, r) == t * t * Share(y, x, r)
    ensures v * v * (u + r) == u + r * (u * u)
  {
    hide Share;
    var k := x * s;
    var z := PositiveProduct(y, t);
    FirstSide(x, y, r, s, u, k);
    SecondSide(x, y, r, t, u, z);
    var zz := PositiveProduct(z, z);
    Balance(v, z, k, zz, u + r, u, 1.0 + r * u);
  }

  lemma Balance(v: real, z: real, k: real, zz: real, g: real, u: real, h: real)
    requires k == v * z && zz == z * z && zz > 0.0 && k * k * g == u * (zz * h)
    ensures v * v * g == u * h
  {
    assert k * k * g == (v * v * g) * zz;
    CancelPositive(v * v * g, u * h, zz);
  }

  /** With the floors inactive both weights are multiplied by factors that even out the contributions. */
  lemma PairFactors(a: real, b: real, r: real, w: Vec, sqrt: real -> real, x: real, y: real)
    returns (s: real, t: real, total: real)
    requires Long(w) && x == w[0] * a && y == w[1] * b && IsSqrt(sqrt)
    requires FloorsInactive(Pair(a, b, r), w, sqrt)
    ensures s > 0.0 && t > 0.0 && total > 0.0 && Share(x, y, r) > 0.0 && Share(y, x, r) > 0.0
    ensures s * s * Share(x, y, r) == t * t * Share(y, x, r)
    ensures ParityStep(Pair(a, b, r), w, sqrt) == [Times(w[0], s) / total, Times(w[1], t) / total]
  {
    hide Share, Times, FloorsInactive, IsSqrt, Pushed, ParityStep, Contributions, Sum, Pair;
    var m := Pair(a, b, r);
    PairContributions(a, b, r, w, x, y);
    s := StepFactor(m, w, sqrt, 0);
    t := StepFactor(m, w, sqrt, 1);
    total := Sum(Pushed(m, w, sqrt));
  }

  lemma LeanOf(a: real, b: real, w: Vec, x: real, y: real) returns (u: real)
    requires a > 0.0 && b > 0.0 && Long(w) && x == w[0] * a && y == w[1] * b
    ensures u == Lean(a, b, w) && u > 0.0 && x == u * y && x > 0.0 && y > 0.0
  {
    var p := PositiveProduct(w[0], a);
    var q := PositiveProduct(w[1], b);
    u := x / y;
    DividePositive(x, y);
  }

  /** The stand-alone risk of a name after the step, times the total, is its risk before times the factor. */
  lemma NextRisk(w: real, s: real, a: real, total: real, x: real, next: real, z: real)
    requires w > 0.0 && s > 0.0 && total > 0.0
    requires x == w * a && next == Times(w, s) / total && z == next * a
    ensures next > 0.0 && z * total == x * s
  {
    var p := PositiveProduct(w, s);
    DividePositive(p, total);
    assert next * total == w * s;
    assert z * total == (next * total) * a;
  }

  lemma NextRatio(x: real, s: real, y: real, t: real, total: real, p: real, q: real, v: real)
    requires p * total == x * s && q * total == y * t && p == v * q
    ensures x * s == v * (y * t)
  {
    assert v * (q * total) == (v * q) * total;
  }

  /** Lean before and after a step with inactive floors. */
  lemma LeanStep(a: real, b: real, r: real, w: Vec, sqrt: real -> real) returns (u: real, v: real)
    requires a > 0.0 && b > 0.0 && Long(w) && IsSqrt(sqrt) && FloorsInactive(Pair(a, b, r), w, sqrt)
    ensures var next := ParityStep(Pair(a, b, r), w, sqrt);
            Long(next) && u == Lean(a, b, w) && v == Lean(a, b, next)
    ensures u > 0.0 && v > 0.0 && u + r > 0.0 && v * v * (u + r) == u + r * (u * u)
  {
    hide Times, FloorsInactive, IsSqrt, ParityStep, Pair, Lean, Share;
    var x, y, next := w[0] * a, w[1] * b, ParityStep(Pair(a, b, r), w, sqrt);
    var s, t, total := PairFactors(a, b, r, w, sqrt, x, y);
    var p, q := next[0] * a, next[1] * b;
    NextRisk(w[0], s, a, total, x, next[0], p);
    NextRisk(w[1], t, b, total, y, next[1], q);
    u := LeanOf(a, b, w, x, y);
    v := LeanOf(a, b, next, p, q);
    NextRatio(x, s, y, t, total, p, q, v);
    StepRatio(x, y, r, s, t, u, v);
    ShareSign(x, y, r, u);
  }

  lemma ShareSign(x: real, y: real, r: real, u: real)
    requires x > 0.0 && y > 0.0 && x == u * y && Share(x, y, r) > 0.0
    ensures u + r > 0.0
  {
    var xy := PositiveProduct(x, y);
    assert x + r * y == y * (u + r);
    assert Share(x, y, r) == xy * (u + r);
    if u + r <= 0.0 { var n := NonNegativeProduct(xy, -(u + r)); }
  }

  /** How far the squared lean is from parity. */
  function Gap(u: real): real {
    u * u - 1.0
  }

  /** The law of one step: (u'^2 - 1)(u + r) = r(u^2 - 1), where u + r is positive. */
  lemma StepLaw(a: real, b: real, r: real, w: Vec, sqrt: real -> real)
    requires a > 0.0 && b > 0.0 && Long(w) && IsSqrt(sqrt) && FloorsInactive(Pair(a, b, r), w, sqrt)
    ensures Long(ParityStep(Pair(a, b, r), w, sqrt))
    ensures var u, v := Lean(a, b, w), Lean(a, b, ParityStep(Pair(a, b, r), w, sqrt));
            u > 0.0 && v > 0.0 && u + r > 0.0 && Times(Gap(v), u + r) == Times(r, Gap(u))
  {
    hide FloorsInactive, IsSqrt, ParityStep, Pair, Lean, Times, Gap;
    var u, v := LeanStep(a, b, r, w, sqrt);
    GapLaw(u, v, r);
  }

  lemma GapLaw(u: real, v: real, r: real)
    requires v * v * (u + r) == u + r * (u * u)
    ensures Times(Gap(v), u + r) == Times(r, Gap(u))
  {
  }

  // ---- no step leads away from parity exactly when the correlation is not negative ----

  /** The step takes the book no further from parity. */
  ghost predicate NotAway(a: real, b: real, w: Vec, next: Vec)
    requires Long(w) && b > 0.0
  {
    Long(next) && Abs(Gap(Lean(a, b, next))) <= Abs(Gap(Lean(a, b, w)))
  }

  /** For all volatilities and all books with inactive floors. */
  ghost predicate NeverAway(r: real, sqrt: real -> real) {
    forall a: real, b: real, w: Vec ::
      a > 0.0 && b > 0.0 && Long(w) && Simplex(w) && FloorsInactive(Pair(a, b, r), w, sqrt) ==>
        NotAway(a, b, w, ParityStep(Pair(a, b, r), w, sqrt))
  }

  lemma AbsProduct(p: real, g: real, r: real, q: real)
    requires g > 0.0 && Times(p, g) == Times(r, q)
    ensures Times(Abs(p), g) == Times(Abs(r), Abs(q))
  {
    assert p * g == r * q;
    if p >= 0.0 { var n := NonNegativeProduct(p, g); } else { var n := NonNegativeProduct(-p, g); }
    if r >= 0.0 {
      if q >= 0.0 { var n := NonNegativeProduct(r, q); } else { var n := NonNegativeProduct(r, -q); }
    } else {
      if q >= 0.0 { var n := NonNegativeProduct(-r, q); } else { var n := NonNegativeProduct(-r, -q); }
    }
  }

  /** From p * g = r * q: p is no larger than q if g is no smaller than r, and larger if g is smaller. */
  lemma ProductOrder(p: real, g: real, r: real, q: real)
    requires p >= 0.0 && q >= 0.0 && g > 0.0 && Times(p, g) == Times(r, q)
    ensures r <= g ==> p <= q
    ensures r >= g ==> p >= q
    ensures r > g && q > 0.0 ==> p > q
    ensures q == 0.0 ==> p == 0.0
  {
    assert p * g == r * q;
    if q == 0.0 && p > 0.0 { var n := PositiveProduct(p, g); }
    if r <= g && p > q {
      var n := PositiveProduct(p - q, g);
      var k := NonNegativeProduct(g - r, q);
    }
    if r >= g && p <= q {
      var n := NonNegativeProduct(q - p, g);
      var k := NonNegativeProduct(r - g, q);
      if p < q { var l := PositiveProduct(q - p, g); }
      if r > g && q > 0.0 { var l := PositiveProduct(r - g, q); }
    }
  }

  /** A step leads away from parity exactly when the lean is not at parity and u + r is less than the size of r:
      never for r >= 0, and for r < 0 at every u below -2r other than 1. */
  lemma AwayIff(a: real, b: real, r: real, w: Vec, sqrt: real -> real)
    requires a > 0.0 && b > 0.0 && Long(w) && IsSqrt(sqrt) && FloorsInactive(Pair(a, b, r), w, sqrt)
    ensures NotAway(a, b, w, ParityStep(Pair(a, b, r), w, sqrt)) <==>
            Lean(a, b, w) == 1.0 || Lean(a, b, w) + r >= Abs(r)
  {
    hide FloorsInactive, IsSqrt, ParityStep, Pair, Lean, Times, Gap;
    StepLaw(a, b, r, w, sqrt);
    var u, v := Lean(a, b, w), Lean(a, b, ParityStep(Pair(a, b, r), w, sqrt));
    GapZeroIff(u);
    AbsProduct(Gap(v), u + r, r, Gap(u));
    ProductOrder(Abs(Gap(v)), u + r, Abs(r), Abs(Gap(u)));
  }

  lemma GapZeroIff(u: real)
    requires u > 0.0
    ensures Gap(u) == 0.0 <==> u == 1.0
  {
    if u > 1.0 { var p := PositiveProduct(u - 1.0, u + 1.0); }
    if u < 1.0 { var p := PositiveProduct(1.0 - u, u + 1.0); }
  }

  lemma RootAtLeastHalf(sqrt: real -> real, total: real, rc: real)
    requires IsSqrt(sqrt) && rc > 0.0 && total >= rc
    ensures sqrt((total / 2.0) / rc) >= 0.5
  {
    RootOf(sqrt, total / 2.0, rc);
    var s := sqrt((total / 2.0) / rc);
    if s < 0.5 {
      var p := PositiveProduct(0.5 - s, 0.5 + s);
      var q := PositiveProduct(0.25 - s * s, rc);
    }
  }

  lemma ClearOfFloors(m: Mat, w: Vec, sqrt: real -> real)
    requires Square(m) && |m| == |w| == 2 && w[0] >= 0.1 && w[1] >= 0.1 && IsSqrt(sqrt)
    requires Contributions(m, w)[0] >= MIN_CONTRIBUTION && Contributions(m, w)[1] >= MIN_CONTRIBUTION
    ensures FloorsInactive(m, w, sqrt)
  {
    hide Contributions, Sum, IsSqrt;
    var rc := Contributions(m, w);
    SumOfTwo(rc);
    forall i | 0 <= i < 2 ensures Times(w[i], sqrt((Sum(rc) / 2.0) / rc[i])) >= MIN_WEIGHT {
      RootAtLeastHalf(sqrt, Sum(rc), rc[i]);
      var p := NonNegativeProduct(w[i] - 0.1, sqrt((Sum(rc) / 2.0) / rc[i]));
    }
  }

  lemma ScaledShare(c: real, d: real, g: real, p: real)
    requires 0.0 < d <= g && c == 1.0 / d + 1.0 && p == c * c * g
    ensures p >= 1.0
  {
    var e := 1.0 / d;
    DividePositive(1.0, d);
    assert e * d == 1.0;
    var k := NonNegativeProduct(c * c, g - d);
    assert c * c * d == (e + 1.0) * (1.0 + d);
    var l := PositiveProduct(e, d);
  }

  /** A book with the lean u, scaled so that the floors are out of play. */
  lemma LeaningBook(r: real, u: real, sqrt: real -> real) returns (a: real, b: real, w: Vec)
    requires IsSqrt(sqrt) && u > 0.0 && u + r > 0.0 && 1.0 + r * u > 0.0
    ensures a > 0.0 && b > 0.0 && Long(w) && Simplex(w) && Lean(a, b, w) == u
    ensures FloorsInactive(Pair(a, b, r), w, sqrt)
  {
    hide IsSqrt, FloorsInactive, Contributions, Share, Sum, Pair, Lean;
    var p := PositiveProduct(u, u + r);
    var q := 1.0 + r * u;
    var d := if p < q then p else q;
    DividePositive(1.0, d);
    var c := 1.0 / d + 1.0;
    b := 2.0 * c;
    a := PositiveProduct(u, b);
    w := [0.5, 0.5];
    SumOfTwo(w);
    EvenLean(a, b, u, w);
    EvenShares(u, r, c, u * c);
    ScaledShare(c, d, p, Share(u * c, c, r));
    ScaledShare(c, d, q, Share(c, u * c, r));
    PairContributions(a, b, r, w, u * c, c);
    ClearOfFloors(Pair(a, b, r), w, sqrt);
  }

  lemma EvenLean(a: real, b: real, u: real, w: Vec)
    requires b > 0.0 && a > 0.0 && a == u * b && w == [0.5, 0.5]
    ensures Lean(a, b, w) == u
  {
    var x, y := 0.5 * a, 0.5 * b;
    assert x == u * y;
    assert x / y == u;
  }

  lemma EvenShares(u: real, r: real, c: real, x: real)
    requires x == u * c
    ensures Share(x, c, r) == c * c * (u * (u + r)) && Share(c, x, r) == c * c * (1.0 + r * u)
  {
    assert x + r * c == c * (u + r) && c + r * x == c * (1.0 + r * u);
  }

  /** Between -1 and 0: a book that the step leads away. */
  lemma NegativeLeadsAway(r: real, sqrt: real -> real)
    requires -1.0 < r < 0.0 && IsSqrt(sqrt)
    ensures !NeverAway(r, sqrt)
  {
    hide IsSqrt, FloorsInactive, ParityStep, Pair, Lean, NotAway;
    var u := if r > -0.5 then -1.5 * r else (1.0 - r) / 2.0;
    assert 1.0 + r * u > 0.0 by { var p := PositiveProduct(-r, 1.0 - u); }
    var a, b, w := LeaningBook(r, u, sqrt);
    AwayIff(a, b, r, w, sqrt);
    assert !NotAway(a, b, w, ParityStep(Pair(a, b, r), w, sqrt));
  }

  /** At a correlation of -1 or below a contribution is never positive for both names. */
  lemma PerfectHedge(a: real, b: real, r: real, w: Vec, sqrt: real -> real)
    requires r <= -1.0 && IsSqrt(sqrt) && a > 0.0 && b > 0.0 && Long(w)
    ensures !FloorsInactive(Pair(a, b, r), w, sqrt)
  {
    if FloorsInactive(Pair(a, b, r), w, sqrt) {
      hide IsSqrt, FloorsInactive, ParityStep, Pair, Lean, Times, Share;
      var u, v := LeanStep(a, b, r, w, sqrt);
      SecondSign(u, v, r);
    }
  }

  lemma SecondSign(u: real, v: real, r: real)
    requires u > 0.0 && v > 0.0 && u + r > 0.0 && v * v * (u + r) == u + r * (u * u)
    ensures r > -1.0
  {
    var p := PositiveProduct(v, v);
    var q := PositiveProduct(p, u + r);
    assert q == u * (1.0 + r * u);
    if r <= -1.0 {
      var k := NonNegativeProduct(-1.0 - r, u);
      var l := PositiveProduct(u, -(1.0 + r * u));
    }
  }

  /** No step of any book of any two names leads away from parity exactly when their correlation is not
      negative; at -1 and below no book is clear of the floors. */
  lemma NeverAwayIff(r: real, sqrt: real -> real)
    requires IsSqrt(sqrt)
    ensures NeverAway(r, sqrt) <==> r >= 0.0 || r <= -1.0
  {
    hide IsSqrt, FloorsInactive, ParityStep, Pair, NotAway, Simplex;
    if r >= 0.0 || r <= -1.0 {
      forall a: real, b: real, w: Vec |
        a > 0.0 && b > 0.0 && Long(w) && Simplex(w) && FloorsInactive(Pair(a, b, r), w, sqrt)
        ensures NotAway(a, b, w, ParityStep(Pair(a, b, r), w, sqrt))
      {
        if r >= 0.0 {
          var u, v := LeanStep(a, b, r, w, sqrt);
          AwayIff(a, b, r, w, sqrt);
        } else {
          PerfectHedge(a, b, r, w, sqrt);
        }
      }
    } else {
      NegativeLeadsAway(r, sqrt);
    }
  }

  // ---- runs from equal weights ----

  /** The floors are inactive at the first k iterates. */
  ghost predicate Clear(m: Mat, sqrt: real -> real, k: nat)
    requires Square(m) && |m| > 0
  {
    forall j: nat :: j < k ==> FloorsInactive(m, ParityIterate(m, sqrt, j), sqrt)
  }

  lemma IterateLong(m: Mat, sqrt: real -> real, k: nat)
    requires Square(m) && |m| == 2
    ensures Long(ParityIterate(m, sqrt, k))
  {
    IteratesOnSimplex(m, sqrt, k);
  }

  lemma StartLean(a: real, b: real, r: real, sqrt: real -> real)
    requires a > 0.0 && b > 0.0
    ensures ParityIterate(Pair(a, b, r), sqrt, 0) == [0.5, 0.5] && Lean(a, b, [0.5, 0.5]) == a / b > 0.0
  {
    var u := a / b;
    DividePositive(a, b);
    assert u * b == a;
    EvenLean(a, b, u, [0.5, 0.5]);
    assert ParityIterate(Pair(a, b, r), sqrt, 0) == [0.5, 0.5];
  }

  /** By how much a step shrinks a distance that it multiplies by s/g with g at least l. */
  function Factor(s: real, l: real): real
    requires l > 0.0
  {
    s / l
  }

  lemma FactorFraction(s: real, l: real)
    requires 0.0 <= s < l
    ensures 0.0 <= Factor(s, l) < 1.0
  {
    var q := Factor(s, l);
    assert q * l == s;
    DivideNonNegative(s, l);
    if q >= 1.0 { var p := NonNegativeProduct(q - 1.0, l); }
  }

  lemma Shrinks(t: real, next: real, g: real, s: real, l: real, p: real, start: real)
    requires 0.0 < l <= g && t >= 0.0 && next >= 0.0 && start >= 0.0 && p >= 0.0 && s >= 0.0
    requires Times(next, g) == Times(s, t) && t <= Times(p, start)
    ensures next <= Times(Times(p, Factor(s, l)), start)
  {
    var q := Factor(s, l);
    assert q * l == s;
    var d := NonNegativeProduct(next, g - l);
    var e := NonNegativeProduct(s, p * start - t);
    assert next * l <= s * (p * start);
    assert s * (p * start) == (p * q * start) * l;
    if next > p * q * start { var k := PositiveProduct(next - p * q * start, l); }
  }

  /** A step with r >= 0 stays on its side of parity and takes the smaller of lean and 1 no lower. */
  lemma LeanKept(u: real, v: real, r: real, least: real)
    requires r >= 0.0 && u >= least && 0.0 < least <= 1.0 && v > 0.0
    requires Times(Gap(v), u + r) == Times(r, Gap(u))
    ensures v >= least
  {
    var g, d := 1.0 - v * v, u * u - v * v;
    assert -g * u == r * d;
    if v < least {
      var p := PositiveProduct(1.0 - v, 1.0 + v);
      var q := PositiveProduct(u - v, u + v);
      var k := PositiveProduct(g, u);
      var l := NonNegativeProduct(r, d);
    }
  }

  /** For r >= 0 the gap shrinks over the whole run by the factor r / (min(1, a/b) + r) a step. */
  lemma {:induction false} RunRate(a: real, b: real, r: real, sqrt: real -> real, k: nat, least: real)
    requires a > 0.0 && b > 0.0 && r >= 0.0 && IsSqrt(sqrt) && Clear(Pair(a, b, r), sqrt, k)
    requires least == if a / b < 1.0 then a / b else 1.0
    ensures least > 0.0 && Long(ParityIterate(Pair(a, b, r), sqrt, k))
    ensures var u := Lean(a, b, ParityIterate(Pair(a, b, r), sqrt, k));
            u >= least && Abs(Gap(u)) <= Times(Power(Factor(r, least + r), k), Abs(Gap(a / b)))
  {
    hide FloorsInactive, IsSqrt, ParityStep, Pair, Lean, Times, Gap, Factor;
    var m := Pair(a, b, r);
    IterateLong(m, sqrt, k);
    StartLean(a, b, r, sqrt);
    if k == 0 {
      TimesOne(Abs(Gap(a / b)));
    } else {
      RunRate(a, b, r, sqrt, k - 1, least);
      var w := ParityIterate(m, sqrt, k - 1);
      StepLaw(a, b, r, w, sqrt);
      var u, v := Lean(a, b, w), Lean(a, b, ParityStep(m, w, sqrt));
      LeanKept(u, v, r, least);
      AbsProduct(Gap(v), u + r, r, Gap(u));
      FactorFraction(r, least + r);
      var power := Power(Factor(r, least + r), k - 1);
      PowerFraction(Factor(r, least + r), k - 1);
      Shrinks(Abs(Gap(u)), Abs(Gap(v)), u + r, r, least + r, power, Abs(Gap(a / b)));
    }
  }

  // ---- a run that swings for ever ----

  /** Volatilities 1 and 2, correlation -0.4. */
  function Swinging(): (m: Mat)
    ensures Square(m) && |m| == 2
  {
    [[1.0, -0.8], [-0.8, 4.0]]
  }

  /** It is symmetric and well conditioned: its quadratic form lies between 0.8 and 4.2 times the squared
      length. */
  lemma SwingingWellConditioned(d: Vec)
    requires |d| == 2
    ensures Symmetric(Swinging())
    ensures 0.8 * Dot(d, d) <= Quad(Swinging(), d) <= 4.2 * Dot(d, d)
  {
    var m, x, y := Swinging(), d[0], d[1];
    DotOfTwo(1.0, -0.8, d);
    DotOfTwo(-0.8, 4.0, d);
    DotOfTwo(x, y, d);
    var e, f := x - 0.8 * y, -0.8 * x + 4.0 * y;
    assert MatVec(m, d) == [e, f];
    DotOfTwo(x, y, [e, f]);
    hide Dot, MatVec;
    assert d == [x, y];
    SwingingForm(x, y, e, f);
  }

  lemma SwingingForm(x: real, y: real, e: real, f: real)
    requires e == x - 0.8 * y && f == -0.8 * x + 4.0 * y
    ensures 0.8 * (x * x + y * y) <= x * e + y * f <= 4.2 * (x * x + y * y)
  {
    var p, q := x - 4.0 * y, 4.0 * x + y;
    var xx, xy, yy := x * x, x * y, y * y;
    assert x * e + y * f == xx - 1.6 * xy + 4.0 * yy;
    assert p * p == xx - 8.0 * xy + 16.0 * yy;
    assert q * q == 16.0 * xx + 8.0 * xy + yy;
  }

  /** The two books of the run, told apart by the ratio of their factors. */
  function SwingBook(c: real): (w: Vec)
    ensures |w| == 2
  {
    if c == 4.0 then [0.5, 0.5] else [0.8, 0.2]
  }

  lemma SwingContributions(c: real)
    ensures Contributions(Swinging(), SwingBook(c)) == if c == 4.0 then [0.05, 0.8] else [0.512, 0.032]
  {
    assert Swinging() == Pair(1.0, 2.0, -0.4);
    var w := SwingBook(c);
    PairContributions(1.0, 2.0, -0.4, w, w[0], 2.0 * w[1]);
  }

  /** If the root of one contribution's factor is c times the other's, the weights are in the ratio
      w0 c to w1 after the step. */
  lemma SwingRatio(s: real, t: real, p: real, q: real, target: real, c: real)
    requires s > 0.0 && t > 0.0 && c > 0.0 && q > 0.0 && s * s * p == target && t * t * q == target && q == c * c * p
    ensures s == c * t
  {
    var r := c * t;
    assert (s * s - r * r) * p == 0.0;
    if s > r { var k := PositiveProduct(s - r, s + r); }
    if s < r { var k := PositiveProduct(r - s, r + s); }
  }

  lemma SwingStep(sqrt: real -> real, k: nat, c: real)
    requires IsSqrt(sqrt) && (c == 4.0 || c == 0.25) && ParityIterate(Swinging(), sqrt, k) == SwingBook(c)
    ensures ParityIterate(Swinging(), sqrt, k + 1) == SwingBook(1.0 / c)
  {
    hide IsSqrt, Contributions, Swinging, ParityStep, FloorsInactive, Pushed, Sum, Times;
    var m, w := Swinging(), SwingBook(c);
    SwingContributions(c);
    ClearOfFloors(m, w, sqrt);
    var s := StepFactor(m, w, sqrt, 0);
    var t := StepFactor(m, w, sqrt, 1);
    var rc, next, total := Contributions(m, w), ParityIterate(m, sqrt, k + 1), Sum(Pushed(m, w, sqrt));
    SwingRatio(s, t, rc[0], rc[1], Sum(rc) / 2.0, c);
    SwingWeights(w[0], w[1], s, t, total, c);
    IteratesOnSimplex(m, sqrt, k + 1);
    SumOfTwo(next);
    assert next == [next[0], next[1]];
    SwingNext(c, t / total, next[0], next[1]);
  }

  lemma SwingNext(c: real, u: real, x: real, y: real)
    requires c == 4.0 || c == 0.25
    requires x == SwingBook(c)[0] * c * u && y == SwingBook(c)[1] * u && x + y == 1.0
    ensures SwingBook(1.0 / c) == [x, y]
  {
    assert 1.0 / 4.0 == 0.25 && 1.0 / 0.25 == 4.0;
  }

  lemma SwingWeights(p: real, q: real, s: real, t: real, total: real, c: real)
    requires total > 0.0 && s == c * t
    ensures Times(p, s) / total == p * c * (t / total) && Times(q, t) / total == q * (t / total)
  {
    assert p * s == p * c * t;
    assert t / total * total == t;
    assert (p * c * (t / total)) * total == p * c * t;
    assert (q * (t / total)) * total == q * t;
  }

  /** The run from equal weights never settles: every even iterate has 94 percent of its risk in the second
      name, every odd one 94 percent in the first. */
  lemma {:induction false} SwingsForEver(sqrt: real -> real, k: nat)
    requires IsSqrt(sqrt)
    ensures var w, v := ParityIterate(Swinging(), sqrt, 2 * k), ParityIterate(Swinging(), sqrt, 2 * k + 1);
            && w == [0.5, 0.5] && Contributions(Swinging(), w) == [0.05, 0.8]
            && v == [0.8, 0.2] && Contributions(Swinging(), v) == [0.512, 0.032]
  {
    hide IsSqrt, Contributions, Swinging, ParityStep;
    assert 1.0 / 4.0 == 0.25 && 1.0 / 0.25 == 4.0;
    if k == 0 {
      assert ParityIterate(Swinging(), sqrt, 0) == SwingBook(4.0);
    } else {
      SwingsForEver(sqrt, k - 1);
      SwingStep(sqrt, 2 * k - 1, 0.25);
    }
    SwingStep(sqrt, 2 * k, 4.0);
    SwingContributions(4.0);
    SwingContributions(0.25);
  }
}
