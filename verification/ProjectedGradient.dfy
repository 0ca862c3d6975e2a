/** Projected-gradient minimisation of w'Mw over {lo <= w_i <= hi, sum w = 1}.
    The convergence rate is proved for the bisection projection as it is, which hits the sum 1 only
    approximately: `slip` bounds what one inexact projection can cost. */
module ProjectedGradient {
  import opened Dicts
  import opened Reals
  import opened Vectors
  import opened Projection

  /** w - step * 2 * (M w) */
  function GradientStep(m: Mat, w: Vec, step: real): (v: Vec)
    requires Square(m) && |w| == |m|
    ensures |v| == |w|
  {
    Lin(w, -(2.0 * step), MatVec(m, w))
  }

  /** The covariances and steps for which the solver's convergence is claimed. */
  ghost predicate Convex(m: Mat, lam: real, step: real) {
    Square(m) && Symmetric(m) && Psd(m) && BoundedBy(m, lam) && step > 0.0 && 2.0 * step * lam <= 1.0
  }

  /** w' is an approximate projection of v, as seen from x: (v - w').(x - w') <= slip. */
  ghost predicate ProjectsPast(v: Vec, w': Vec, x: Vec, slip: real)
    requires |v| == |w'| == |x|
  {
    Dot(Lin(v, -1.0, w'), Lin(x, -1.0, w')) <= slip
  }

  /** The variance after moving from w to w', to second order. */
  lemma VarianceAfterMove(m: Mat, w: Vec, w': Vec)
    requires Square(m) && Symmetric(m) && |w| == |w'| == |m|
    ensures var p := Lin(w, -1.0, w');
            Quad(m, w') == Quad(m, w) - 2.0 * Dot(p, MatVec(m, w)) + Quad(m, p)
  {
    var p := Lin(w, -1.0, w');
    assert Lin(w, -1.0, p) == w';
    QuadLinear(m, w, -1.0, p);
  }

  /** The step goes against the gradient: in every direction d it moves by the step size times half the central
      difference of the variance, which for a quadratic is its derivative. */
  lemma GradientIsSlope(m: Mat, w: Vec, step: real, d: Vec)
    requires Square(m) && Symmetric(m) && |w| == |d| == |m|
    ensures var rise := Quad(m, Lin(w, 1.0, d)) - Quad(m, Lin(w, -1.0, d));
            Dot(Lin(w, -1.0, GradientStep(m, w, step)), d) == Times(step, rise) / 2.0
  {
    hide Dot, DotN, Quad, MatVec, Times, Lin, GradientStep;
    var g, zero := MatVec(m, w), Lin(w, -1.0, w);
    QuadLinear(m, w, 1.0, d);
    QuadLinear(m, w, -1.0, d);
    StepTaken(m, w, step);
    DotLinear(zero, 2.0 * step, g, d);
    DotLinear(w, -1.0, w, d);
    Commuted(g, d);
    var rise := Quad(m, Lin(w, 1.0, d)) - Quad(m, Lin(w, -1.0, d));
    SlopeAlgebra(step, 2.0 * step, Dot(g, d), rise);
  }

  lemma StepTaken(m: Mat, w: Vec, step: real)
    requires Square(m) && |w| == |m|
    ensures Lin(w, -1.0, GradientStep(m, w, step)) == Lin(Lin(w, -1.0, w), 2.0 * step, MatVec(m, w))
  {
  }

  lemma Commuted(x: Vec, y: Vec)
    requires |x| == |y|
    ensures Dot(x, y) == Dot(y, x)
  {
    DotNSymmetric(x, y, |x|);
  }

  lemma SlopeAlgebra(step: real, c: real, slope: real, rise: real)
    requires c == 2.0 * step && rise == 4.0 * slope
    ensures c * slope == Times(step, rise) / 2.0
  {
  }

  /** Smoothness: the second-order term is bounded. The bound is returned as a value of its own. */
  lemma Curvature(m: Mat, lam: real, p: Vec) returns (bound: real)
    requires Square(m) && BoundedBy(m, lam) && |p| == |m|
    ensures bound == Times(lam, Dot(p, p)) && Quad(m, p) <= bound
  {
    bound := lam * Dot(p, p);
  }

  /** Convexity: the variance lies above its tangent. */
  lemma VarianceAboveTangent(m: Mat, w: Vec, x: Vec)
    requires Square(m) && Symmetric(m) && Psd(m) && |w| == |x| == |m|
    ensures Quad(m, x) >= Quad(m, w) + 2.0 * Dot(Lin(x, -1.0, w), MatVec(m, w))
  {
    var r := Lin(x, -1.0, w);
    assert Lin(w, 1.0, r) == x;
    QuadLinear(m, w, 1.0, r);
    assert Quad(m, r) >= 0.0;
  }

  /** The projection inequality in terms of p = w - w' and q = x - w'. */
  lemma ProjectionInequality(m: Mat, step: real, w: Vec, w': Vec, x: Vec, slip: real)
    returns (descent: real)
    requires Square(m) && |w| == |w'| == |x| == |m|
    requires ProjectsPast(GradientStep(m, w, step), w', x, slip)
    ensures var p, q, g := Lin(w, -1.0, w'), Lin(x, -1.0, w'), MatVec(m, w);
            descent == Times(2.0 * step, Dot(q, g)) && Dot(p, q) - descent <= slip
  {
    var p, q, g := Lin(w, -1.0, w'), Lin(x, -1.0, w'), MatVec(m, w);
    assert Lin(p, -(2.0 * step), g) == Lin(GradientStep(m, w, step), -1.0, w');
    DotLinear(p, -(2.0 * step), g, q);
    DotNSymmetric(g, q, |m|);
    descent := 2.0 * step * Dot(q, g);
  }

  /** Twice the step size times the excess of the variance of w over that of x. */
  function Excess(m: Mat, step: real, w: Vec, x: Vec): real
    requires Square(m) && |w| == |x| == |m|
  {
    Times(2.0 * step, Quad(m, w) - Quad(m, x))
  }

  lemma StepVectors(w: Vec, w': Vec, x: Vec, p: Vec, q: Vec)
    requires |w| == |w'| == |x| && p == Lin(w, -1.0, w') && q == Lin(x, -1.0, w')
    ensures Lin(q, -1.0, p) == Lin(x, -1.0, w) && Dot(p, q) == Dot(q, p) && Dot(p, p) >= 0.0
    ensures DistSq(x, w') == Dot(q, q) && DistSq(x, w) == Dot(Lin(q, -1.0, p), Lin(q, -1.0, p))
  {
    assert Lin(q, -1.0, p) == Lin(x, -1.0, w);
    hide Lin;
    DotNSymmetric(p, q, |w|);
    DotNSelfNonNegative(p, |w|);
  }

  /** One step: twice the step size times the excess variance over x is paid for by the decrease of
      the squared distance to x, up to twice the slip. */
  lemma StepProgress(m: Mat, lam: real, step: real, w: Vec, w': Vec, x: Vec, slip: real)
    requires Convex(m, lam, step)
    requires |w| == |w'| == |x| == |m|
    requires ProjectsPast(GradientStep(m, w, step), w', x, slip)
    ensures Excess(m, step, w', x) + DistSq(x, w') <= DistSq(x, w) + 2.0 * slip
  {
    hide Quad, Dot, DistSq, MatVec, Lin, Times;
    var p, q, g := Lin(w, -1.0, w'), Lin(x, -1.0, w'), MatVec(m, w);
    StepVectors(w, w', x, p, q);
    VarianceAfterMove(m, w, w');
    var curvature := Curvature(m, lam, p);
    VarianceAboveTangent(m, w, x);
    var descent := ProjectionInequality(m, step, w, w', x, slip);
    DotLinear(q, -1.0, p, g);
    DotSelfLinear(q, -1.0, p);
    StepAlgebra(step, lam, Dot(p, p), Dot(p, q), Dot(q, q), Dot(p, g), Dot(q, g),
                Quad(m, w), Quad(m, w'), Quad(m, x), DistSq(x, w), curvature, descent, slip);
  }

  lemma StepAlgebra(step: real, lam: real, pp: real, pq: real, qq: real, pg: real, qg: real,
                    fw: real, fw': real, fx: real, dist: real,
                    curvature: real, descent: real, slip: real)
    requires step > 0.0 && 2.0 * step * lam <= 1.0 && pp >= 0.0
    requires curvature == Times(lam, pp) && descent == Times(2.0 * step, qg)
    requires fw' <= fw - 2.0 * pg + curvature
    requires fx >= fw + 2.0 * (qg - pg)
    requires pq - descent <= slip
    requires dist == qq - 2.0 * pq + pp
    ensures Times(2.0 * step, fw' - fx) + qq <= dist + 2.0 * slip
  {
    var gain := fw' - fx;
    assert gain <= lam * pp - 2.0 * qg;
    assert 2.0 * step * gain <= 2.0 * step * (lam * pp - 2.0 * qg);
    assert 2.0 * step * (lam * pp - 2.0 * qg) == (2.0 * step * lam) * pp - 2.0 * (2.0 * step * qg);
    assert (2.0 * step * lam) * pp <= pp;
  }

  // ---- the rate over a run ----

  function Pairs(k: nat): real {
    (k * (k + 1)) as real
  }

  /** After k steps from w0, the excess of w over x, times k, is at most the squared distance from
      x to w0, less that from x to w, plus k(k+1) slips. */
  ghost predicate WithinRate(m: Mat, step: real, slip: real, w0: Vec, w: Vec, x: Vec, k: nat)
    requires Square(m) && |w0| == |w| == |x| == |m|
  {
    Times(Excess(m, step, w, x), k as real) + DistSq(x, w)
      <= DistSq(x, w0) + Times(slip, Pairs(k))
  }

  lemma RateAlgebra(a: real, b: real, d: real, d': real, d0: real, slip: real, k: nat)
    requires a + d' <= d + 2.0 * slip && a <= b + 2.0 * slip
    requires Times(b, k as real) + d <= d0 + Times(slip, Pairs(k))
    ensures Times(a, (k + 1) as real) + d' <= d0 + Times(slip, Pairs(k + 1))
  {
    var n, q := k as real, Pairs(k);
    assert Pairs(k + 1) == q + 2.0 * n + 2.0 by {
      assert (k + 1) * (k + 2) == k * (k + 1) + 2 * k + 2;
    }
    RateAlgebraReal(a, b, d, d', d0, slip, n, q);
  }

  lemma RateAlgebraReal(a: real, b: real, d: real, d': real, d0: real, slip: real, n: real, q: real)
    requires a + d' <= d + 2.0 * slip && a <= b + 2.0 * slip && n >= 0.0
    requires b * n + d <= d0 + slip * q
    ensures a * (n + 1.0) + d' <= d0 + slip * (q + 2.0 * n + 2.0)
  {
    assert (b + 2.0 * slip - a) * n >= 0.0;
    assert (b + 2.0 * slip - a) * n == b * n + 2.0 * (slip * n) - a * n;
    assert a * (n + 1.0) == a * n + a;
    assert slip * (q + 2.0 * n + 2.0) == slip * q + 2.0 * (slip * n) + 2.0 * slip;
  }

  lemma SelfDistance(w: Vec)
    ensures DistSq(w, w) == 0.0
  {
    DotNZero(Lin(w, -1.0, w), Lin(w, -1.0, w), |w|);
  }

  lemma LengthNonNegative(x: Vec)
    ensures Dot(x, x) >= 0.0
  {
    DotNSelfNonNegative(x, |x|);
  }

  lemma DistanceNonNegative(x: Vec, y: Vec)
    requires |x| == |y|
    ensures DistSq(x, y) >= 0.0
  {
    DotNSelfNonNegative(Lin(x, -1.0, y), |x|);
  }

  lemma ExcessAdds(m: Mat, step: real, w': Vec, w: Vec, x: Vec)
    requires Square(m) && |w'| == |w| == |x| == |m|
    ensures Excess(m, step, w', x) == Excess(m, step, w', w) + Excess(m, step, w, x)
  {
  }

  /** One more step keeps the rate, and does not raise the variance by more than the slip. */
  lemma RateStep(m: Mat, lam: real, step: real, slip: real, w0: Vec, w: Vec, w': Vec, x: Vec, k: nat)
    requires Convex(m, lam, step)
    requires |w0| == |w| == |w'| == |x| == |m|
    requires ProjectsPast(GradientStep(m, w, step), w', x, slip)
    requires ProjectsPast(GradientStep(m, w, step), w', w, slip)
    requires WithinRate(m, step, slip, w0, w, x, k)
    ensures WithinRate(m, step, slip, w0, w', x, k + 1)
    ensures Excess(m, step, w', w) <= 2.0 * slip
  {
    hide Excess, DistSq, Times, Pairs;
    StepProgress(m, lam, step, w, w', x, slip);
    StepProgress(m, lam, step, w, w', w, slip);
    SelfDistance(w);
    DistanceNonNegative(w, w');
    ExcessAdds(m, step, w', w, x);
    RateAlgebra(Excess(m, step, w', x), Excess(m, step, w, x), DistSq(x, w), DistSq(x, w'),
                DistSq(x, w0), slip, k);
  }

  // ---- a run with exact projections ----

  ghost predicate Nearest(v: Vec, w: Vec, lo: real, hi: real) {
    && Feasible(w, |v|, lo, hi)
    && forall x :: Feasible(x, |v|, lo, hi) ==> DistSq(v, w) <= DistSq(v, x)
  }

  lemma Blend(w: Vec, t: real, x: Vec, lo: real, hi: real)
    requires Feasible(w, |x|, lo, hi) && Feasible(x, |x|, lo, hi) && 0.0 <= t <= 1.0
    ensures Feasible(Lin(w, t, Lin(x, -1.0, w)), |x|, lo, hi)
  {
    hide SumN;
    var q := Lin(x, -1.0, w);
    forall i | 0 <= i < |x| ensures lo <= Lin(w, t, q)[i] <= hi {
      BlendEntry(w[i], x[i], t, lo, hi);
    }
    BlendSum(w, t, x, q);
  }

  lemma BlendSum(w: Vec, t: real, x: Vec, q: Vec)
    requires |w| == |x| && q == Lin(x, -1.0, w) && Sum(w) == Sum(x)
    ensures Sum(Lin(w, t, q)) == Sum(w)
  {
    hide SumN, Lin;
    SumNLinear(w, t, q, |x|);
    SumNLinear(x, -1.0, w, |x|);
    var d := SumN(q, |x|);
    assert d == 0.0;
  }

  lemma BlendEntry(a: real, b: real, t: real, lo: real, hi: real)
    requires lo <= a <= hi && lo <= b <= hi && 0.0 <= t <= 1.0
    ensures lo <= a + t * (b + -1.0 * a) <= hi
  {
    var u := 1.0 - t;
    var r1 := NonNegativeProduct(u, a - lo);
    var r2 := NonNegativeProduct(t, b - lo);
    var r3 := NonNegativeProduct(u, hi - a);
    var r4 := NonNegativeProduct(t, hi - b);
    assert a + t * (b + -1.0 * a) == u * a + t * b;
    assert r1 + r2 == (u * a + t * b) - lo;
    assert r3 + r4 == hi - (u * a + t * b);
  }

  lemma BlendVector(v: Vec, w: Vec, t: real, q: Vec)
    requires |v| == |w| == |q|
    ensures Lin(Lin(v, -1.0, w), -t, q) == Lin(v, -1.0, Lin(w, t, q))
  {
    forall i | 0 <= i < |v| ensures v[i] + -1.0 * w[i] + -t * q[i] == v[i] + -1.0 * (w[i] + t * q[i]) {}
  }

  /** Moving from the nearest point w a fraction t of the way to x does not come closer to v. */
  lemma BlendNoCloser(v: Vec, w: Vec, x: Vec, t: real, lo: real, hi: real)
    requires Nearest(v, w, lo, hi) && Feasible(x, |v|, lo, hi) && 0.0 <= t <= 1.0
    ensures var p, q := Lin(v, -1.0, w), Lin(x, -1.0, w);
            2.0 * Times(-t, Dot(p, q)) + Times(-t, Times(-t, Dot(q, q))) >= 0.0
  {
    var p, q := Lin(v, -1.0, w), Lin(x, -1.0, w);
    Blend(w, t, x, lo, hi);
    var y := Lin(w, t, q);
    BlendVector(v, w, t, q);
    hide Times, Dot, Lin;
    assert DistSq(v, w) <= DistSq(v, y);
    assert DistSq(v, w) == Dot(p, p) && DistSq(v, y) == Dot(Lin(p, -t, q), Lin(p, -t, q));
    DotSelfTimes(p, -t, q);
    hide *;
  }

  lemma DotSelfTimes(x: Vec, c: real, y: Vec)
    requires |x| == |y|
    ensures Dot(Lin(x, c, y), Lin(x, c, y))
         == Dot(x, x) + 2.0 * Times(c, Dot(x, y)) + Times(c, Times(c, Dot(y, y)))
  {
    DotSelfLinear(x, c, y);
    hide Dot, Lin;
    assert 2.0 * c * Dot(x, y) == 2.0 * (c * Dot(x, y));
    assert c * c * Dot(y, y) == c * (c * Dot(y, y));
  }

  /** The nearest feasible point satisfies the projection inequality without slip. */
  lemma NearestProjects(v: Vec, w: Vec, x: Vec, lo: real, hi: real)
    requires Nearest(v, w, lo, hi) && Feasible(x, |v|, lo, hi)
    ensures ProjectsPast(v, w, x, 0.0)
  {
    hide Dot, Lin, Times;
    var p, q := Lin(v, -1.0, w), Lin(x, -1.0, w);
    LengthNonNegative(q);
    if Dot(p, q) > 0.0 {
      var t := if Dot(q, q) <= Dot(p, q) then 1.0 else Dot(p, q) / Dot(q, q);
      FractionAtMostOne(Dot(p, q), Dot(q, q));
      BlendNoCloser(v, w, x, t, lo, hi);
      TooLong(Dot(p, q), Dot(q, q), t);
    }
  }

  lemma FractionAtMostOne(c: real, d: real)
    requires c > 0.0 && d >= 0.0
    ensures d > c ==> 0.0 < c / d <= 1.0
  {
  }

  lemma TooLong(c: real, d: real, t: real)
    requires c > 0.0 && d >= 0.0 && t == if d <= c then 1.0 else c / d
    ensures 2.0 * Times(-t, c) + Times(-t, Times(-t, d)) < 0.0
  {
    assert t > 0.0;
    assert t * d <= c;
    assert t * c > 0.0;
    assert t * (t * d) <= t * c;
    assert -t * -t * d == t * (t * d);
  }

  lemma RateStart(m: Mat, step: real, slip: real, w0: Vec, x: Vec)
    requires Square(m) && |w0| == |x| == |m|
    ensures WithinRate(m, step, slip, w0, w0, x, 0)
  {
    hide Quad, DistSq, Excess;
  }

  lemma ExactStep(m: Mat, lam: real, step: real, lo: real, hi: real,
                  w0: Vec, w: Vec, w': Vec, x: Vec, k: nat)
    requires Convex(m, lam, step)
    requires |w0| == |w| == |w'| == |x| == |m|
    requires Feasible(w, |m|, lo, hi) && Feasible(x, |m|, lo, hi)
    requires Nearest(GradientStep(m, w, step), w', lo, hi)
    requires WithinRate(m, step, 0.0, w0, w, x, k)
    ensures WithinRate(m, step, 0.0, w0, w', x, k + 1)
    ensures Quad(m, w') <= Quad(m, w)
  {
    NearestProjects(GradientStep(m, w, step), w', x, lo, hi);
    NearestProjects(GradientStep(m, w, step), w', w, lo, hi);
    RateStep(m, lam, step, 0.0, w0, w, w', x, k);
    hide Quad, Times;
    FactorNotPositive(2.0 * step, Quad(m, w') - Quad(m, w));
  }

  /** Gradient steps followed by exact projections: the excess falls like 1/k and the variance
      never rises. */
  lemma {:induction false} ExactRun(m: Mat, lam: real, step: real, lo: real, hi: real,
                                    run: seq<Vec>, x: Vec, k: nat)
    requires Convex(m, lam, step)
    requires k < |run| && Feasible(run[0], |m|, lo, hi) && Feasible(x, |m|, lo, hi)
    requires forall i :: 0 <= i < |run| ==> |run[i]| == |m|
    requires forall i :: 0 < i < |run| ==> Nearest(GradientStep(m, run[i - 1], step), run[i], lo, hi)
    ensures WithinRate(m, step, 0.0, run[0], run[k], x, k)
    ensures k > 0 ==> Quad(m, run[k]) <= Quad(m, run[k - 1])
  {
    hide Quad, WithinRate, Psd, BoundedBy, GradientStep;
    if k == 0 {
      RateStart(m, step, 0.0, run[0], x);
    } else {
      ExactRun(m, lam, step, lo, hi, run, x, k - 1);
      assert Feasible(run[k - 1], |m|, lo, hi) by {
        if k > 1 { assert Nearest(GradientStep(m, run[k - 2], step), run[k - 1], lo, hi); }
      }
      ExactStep(m, lam, step, lo, hi, run[0], run[k - 1], run[k], x, k - 1);
    }
  }

  /** The rate in plain form, for the step 1/(2 lam): k (f(w) - f(x)) <= lam (|x - w0|^2 + slips). */
  lemma RateInPlainForm(m: Mat, lam: real, step: real, slip: real, w0: Vec, w: Vec, x: Vec, k: nat)
    requires Square(m) && |w0| == |w| == |x| == |m| && lam > 0.0 && 2.0 * step * lam == 1.0
    requires WithinRate(m, step, slip, w0, w, x, k)
    ensures Times(k as real, Quad(m, w) - Quad(m, x)) <= Times(lam, DistSq(x, w0) + Times(slip, Pairs(k)))
  {
    DistanceNonNegative(x, w);
    hide Quad, DistSq, Times, Pairs;
    PlainAlgebra(lam, step, Quad(m, w) - Quad(m, x), DistSq(x, w0), slip, k as real, Pairs(k));
  }

  lemma PlainAlgebra(lam: real, step: real, gap: real, d0: real, slip: real, n: real, pairs: real)
    requires lam > 0.0 && 2.0 * step * lam == 1.0
    requires Times(Times(2.0 * step, gap), n) <= d0 + Times(slip, pairs)
    ensures Times(n, gap) <= Times(lam, d0 + Times(slip, pairs))
  {
    var room := NonNegativeProduct(lam, d0 + slip * pairs - 2.0 * step * gap * n);
    assert lam * (2.0 * step * gap * n) == (2.0 * step * lam) * (n * gap);
    assert room == lam * (d0 + slip * pairs) - lam * (2.0 * step * gap * n);
  }

  // ---- what one bisection projection can cost ----

  function Unit(n: nat, i: nat): (e: Vec)
    ensures |e| == n
  {
    seq(n, j => if j == i then 1.0 else 0.0)
  }

  lemma {:induction false} DotNUnit(n: nat, i: nat, y: Vec, k: nat)
    requires |y| == n && k <= n
    ensures DotN(Unit(n, i), y, k) == if i < k then y[i] else 0.0
  {
    if k > 0 { DotNUnit(n, i, y, k - 1); }
  }

  lemma CurvatureTimes(m: Mat, lam: real, p: Vec)
    requires Square(m) && BoundedBy(m, lam) && |p| == |m|
    ensures Quad(m, p) <= Times(lam, Dot(p, p))
  {
    var bound := Curvature(m, lam, p);
  }

  /** Twice an entry of the half-gradient, up to sign, is at most the variance of w plus that of the
      unit vector, since moving along the unit vector cannot make the variance negative. */
  lemma EntryBelowVariances(m: Mat, w: Vec, i: nat)
    requires Square(m) && Symmetric(m) && Psd(m) && |w| == |m| && i < |m|
    ensures var total := Quad(m, w) + Quad(m, Unit(|m|, i));
            -total <= 2.0 * MatVec(m, w)[i] <= total
  {
    var e, g := Unit(|m|, i), MatVec(m, w);
    DotNUnit(|m|, i, g, |m|);
    assert Dot(e, g) == g[i];
    assert Quad(m, Lin(w, 1.0, e)) >= 0.0 && Quad(m, Lin(w, -1.0, e)) >= 0.0;
    QuadLinear(m, w, 1.0, e);
    QuadLinear(m, w, -1.0, e);
  }

  lemma GradientAlgebra(g: real, step: real, lam: real, ww: real, total: real)
    requires step > 0.0 && 2.0 * step * lam <= 1.0 && ww >= 0.0
    requires -total <= 2.0 * g <= total && total <= Times(lam, ww) + lam
    ensures -(1.0 + ww) / 2.0 <= Times(2.0 * step, g) <= (1.0 + ww) / 2.0
  {
    var u, c := 1.0 + ww, lam * (1.0 + ww);
    assert total <= c;
    var r1 := NonNegativeProduct(step, c - 2.0 * g);
    var r2 := NonNegativeProduct(step, c + 2.0 * g);
    var r3 := NonNegativeProduct(1.0 - 2.0 * step * lam, u);
    assert r3 == u - 2.0 * (step * c);
  }

  /** A gradient step moves no entry by more than (1 + |w|^2)/2, whatever the covariance. */
  lemma GradientBounded(m: Mat, lam: real, step: real, w: Vec, i: nat)
    requires Convex(m, lam, step) && |w| == |m| && i < |m|
    ensures -(1.0 + Dot(w, w)) / 2.0 <= Times(2.0 * step, MatVec(m, w)[i]) <= (1.0 + Dot(w, w)) / 2.0
  {
    var e := Unit(|m|, i);
    DotNUnit(|m|, i, e, |m|);
    assert Dot(e, e) == 1.0;
    LengthNonNegative(w);
    hide Quad, Dot, MatVec;
    CurvatureTimes(m, lam, w);
    CurvatureTimes(m, lam, e);
    assert Times(lam, 1.0) == lam;
    EntryBelowVariances(m, w, i);
    hide Times;
    GradientAlgebra(MatVec(m, w)[i], step, lam, Dot(w, w), Quad(m, w) + Quad(m, e));
  }

  /** The largest square of an entry of the box. */
  function LargestSquare(lo: real, hi: real): (r: real)
    ensures r >= 0.0
  {
    if lo * lo > hi * hi then lo * lo else hi * hi
  }

  lemma SquareBelow(x: real, lo: real, hi: real)
    requires lo <= x <= hi
    ensures x * x <= LargestSquare(lo, hi)
  {
    if x >= 0.0 {
      var r := NonNegativeProduct(hi - x, hi + x);
      assert r == hi * hi - x * x;
    } else {
      var r := NonNegativeProduct(x - lo, -(x + lo));
      assert r == lo * lo - x * x;
    }
  }

  lemma {:induction false} LengthInBox(w: Vec, lo: real, hi: real, cap: real, n: nat)
    requires n <= |w| && InBox(w, lo, hi) && cap == LargestSquare(lo, hi)
    ensures DotN(w, w, n) <= Times(n as real, cap)
  {
    hide Times, LargestSquare;
    if n > 0 {
      LengthInBox(w, lo, hi, cap, n - 1);
      SquareBelow(w[n - 1], lo, hi);
      TimesAdds((n - 1) as real, 1.0, cap);
      TimesOne(cap);
    } else {
      TimesZero(cap);
    }
  }

  /** No end of a bisection bracket is further from 0 than this, for a step taken inside the box. */
  function Reach(n: nat, lo: real, hi: real): real {
    hi - lo + (1.0 + Times(n as real, LargestSquare(lo, hi))) / 2.0
  }

  lemma StepEntry(m: Mat, w: Vec, step: real, i: nat)
    requires Square(m) && |w| == |m| && i < |m|
    ensures GradientStep(m, w, step)[i] == w[i] - Times(2.0 * step, MatVec(m, w)[i])
  {
    hide MatVec, Dot;
  }

  lemma BracketReach(m: Mat, lam: real, step: real, w: Vec, lo: real, hi: real)
    requires Convex(m, lam, step) && |w| == |m| > 0 && InBox(w, lo, hi)
    ensures var v := GradientStep(m, w, step);
            -Reach(|m|, lo, hi) <= Low(v, hi) && High(v, lo) <= Reach(|m|, lo, hi)
  {
    var v, half := GradientStep(m, w, step), (1.0 + Dot(w, w)) / 2.0;
    LengthInBox(w, lo, hi, LargestSquare(lo, hi), |w|);
    forall i | 0 <= i < |m| ensures lo - half <= v[i] <= hi + half {
      GradientBounded(m, lam, step, w, i);
      StepEntry(m, w, step, i);
      hide Times, Dot, MatVec, GradientStep, Lin;
    }
    hide Times, Dot, GradientStep;
  }

  /** How far from 1 the sum of a bisection projection may be after k halvings. */
  function Drift(n: nat, lo: real, hi: real, k: nat): real {
    Times(n as real, Reach(n, lo, hi)) / Pow2(k)
  }

  /** What one bisection projection can cost: the largest shift times the largest gap of sums. */
  function Slip(n: nat, lo: real, hi: real, k: nat): real {
    2.0 * Times(Reach(n, lo, hi), Drift(n, lo, hi, k))
  }

  ghost predicate NearOne(w: Vec, lo: real, hi: real, k: nat) {
    -Drift(|w|, lo, hi, k) <= Sum(w) - 1.0 <= Drift(|w|, lo, hi, k)
  }

  lemma DriftAlgebra(d: real, p: real, n: real, width: real, reach: real)
    requires p > 0.0 && n >= 0.0 && width <= 2.0 * reach && (2.0 * p) * d <= n * width
    ensures d <= Times(n, reach) / p
  {
    var room := NonNegativeProduct(n, 2.0 * reach - width);
    var c := n * reach;
    assert p * d <= c;
    DivideBound(d, p, c);
  }

  lemma SumNearOne(s: real, n: nat, lo: real, hi: real, a0: real, b0: real, k: nat)
    requires MeetsSimplex(n, lo, hi)
    requires SumAccurate(s, n, lo, hi, a0, b0, k) && b0 - a0 <= 2.0 * Reach(n, lo, hi)
    ensures -Drift(n, lo, hi, k) <= s - 1.0 <= Drift(n, lo, hi, k)
  {
    hide Reach, Times;
    assert Pow2(k + 1) == 2.0 * Pow2(k);
    DriftAlgebra(s - 1.0, Pow2(k), n as real, b0 - a0, Reach(n, lo, hi));
    DriftAlgebra(1.0 - s, Pow2(k), n as real, b0 - a0, Reach(n, lo, hi));
  }

  lemma ShiftTimesGap(tau: real, gap: real, reach: real, drift: real)
    requires -reach <= tau <= reach && -2.0 * drift <= gap <= 2.0 * drift && drift >= 0.0
    ensures Times(tau, gap) <= 2.0 * Times(reach, drift)
  {
    var t, g := if tau < 0.0 then -tau else tau, if gap < 0.0 then -gap else gap;
    var r1 := NonNegativeProduct(reach - t, g);
    var r2 := NonNegativeProduct(reach, 2.0 * drift - g);
    assert tau * gap <= t * g by {
      var r3 := NonNegativeProduct(t, g);
    }
  }

  /** The bisection projection of a gradient step has a sum of 1 up to the drift ... */
  lemma BisectionNearOne(m: Mat, lam: real, step: real, w: Vec, w': Vec, lo: real, hi: real, k: nat)
    requires Convex(m, lam, step) && |w| == |w'| == |m| > 0
    requires InBox(w, lo, hi) && MeetsSimplex(|m|, lo, hi)
    requires var v := GradientStep(m, w, step);
             SumAccurate(Sum(w'), |m|, lo, hi, Low(v, hi), High(v, lo), k)
    ensures NearOne(w', lo, hi, k)
  {
    var v := GradientStep(m, w, step);
    BracketReach(m, lam, step, w, lo, hi);
    hide Reach, GradientStep, Convex, MeetsSimplex, Drift, Low, High, SumAccurate, Sum;
    SumNearOne(Sum(w'), |m|, lo, hi, Low(v, hi), High(v, lo), k);
  }

  lemma VariationalTimes(v: Vec, tau: real, lo: real, hi: real, x: Vec)
    requires |x| == |v| && InBox(x, lo, hi)
    ensures var w := Shifted(v, tau, lo, hi);
            Dot(Lin(v, -1.0, w), Lin(x, -1.0, w)) <= Times(tau, Sum(x) - Sum(w))
  {
    hide Shifted, Dot, Sum, Lin;
    Variational(v, tau, lo, hi, x);
  }

  /** ... and is an approximate projection as seen from every point of the box whose sum is too. */
  lemma BisectionProjects(m: Mat, lam: real, step: real, w: Vec, tau: real, x: Vec,
                          lo: real, hi: real, k: nat)
    requires Convex(m, lam, step) && |w| == |x| == |m| > 0
    requires InBox(w, lo, hi) && InBox(x, lo, hi) && NearOne(x, lo, hi, k)
    requires var v := GradientStep(m, w, step);
             Low(v, hi) <= tau <= High(v, lo) && NearOne(Shifted(v, tau, lo, hi), lo, hi, k)
    ensures var v := GradientStep(m, w, step);
            ProjectsPast(v, Shifted(v, tau, lo, hi), x, Slip(|m|, lo, hi, k))
  {
    hide Reach, GradientStep, Drift, Low, High, Shifted, Dot, Sum, Times, InBox, Lin, Symmetric, Psd, BoundedBy;
    var v := GradientStep(m, w, step);
    BracketReach(m, lam, step, w, lo, hi);
    VariationalTimes(v, tau, lo, hi, x);
    ShiftTimesGap(tau, Sum(x) - Sum(Shifted(v, tau, lo, hi)), Reach(|m|, lo, hi), Drift(|m|, lo, hi, k));
  }

  // ---- the solver ----

  /** The default step is 1/(2 lam) for the largest eigenvalue lam, and 1 when that is not positive. */
  function StepSize(step: Option<real>, lam: real): real {
    match step
    case Some(s) => s
    case None => if lam > 0.0 then 1.0 / (2.0 * lam) else 1.0
  }

  /** The largest eigenvalue of a covariance bounds its quadratic form; with it the default step is
      always admissible. */
  lemma DefaultStepAdmissible(lam: real)
    ensures StepSize(None, lam) > 0.0 && 2.0 * StepSize(None, lam) * lam <= 1.0
    ensures lam > 0.0 ==> 2.0 * StepSize(None, lam) * lam == 1.0
    ensures lam <= 0.0 ==> StepSize(None, lam) == 1.0
  {
    if lam > 0.0 {
      var d := 2.0 * lam;
      assert (1.0 / d) * d == 1.0;
      assert 1.0 / d > 0.0;
    }
  }

  /** What the iterate after k steps satisfies, for a box that meets the simplex. */
  ghost predicate Converging(m: Mat, step: real, w: Vec, lo: real, hi: real, k: nat)
    requires Square(m) && |m| > 0
  {
    && |w| == |m|
    && InBox(w, lo, hi)
    && NearOne(w, lo, hi, BISECTIONS)
    && forall x :: Feasible(x, |m|, lo, hi) ==>
         WithinRate(m, step, Slip(|m|, lo, hi, BISECTIONS), Uniform(|m|), w, x, k)
  }

  /** The equal-weight start is in the box and sums to 1. */
  lemma StartConverges(m: Mat, step: real, lo: real, hi: real)
    requires Square(m) && |m| > 0 && MeetsSimplex(|m|, lo, hi) && lo <= hi
    ensures Converging(m, step, Uniform(|m|), lo, hi, 0)
  {
    var w := Uniform(|m|);
    SumNConstant(w, |m|, 1.0 / |m| as real);
    UniformInBox(|m| as real, lo, hi);
    assert InBox(w, lo, hi) && Sum(w) == 1.0;
    DriftNonNegative(|m|, lo, hi, BISECTIONS);
    hide WithinRate, Drift, InBox, Sum;
    forall x | Feasible(x, |m|, lo, hi)
      ensures WithinRate(m, step, Slip(|m|, lo, hi, BISECTIONS), w, w, x, 0)
    {
      RateStart(m, step, Slip(|m|, lo, hi, BISECTIONS), w, x);
    }
  }

  lemma DriftNonNegative(n: nat, lo: real, hi: real, k: nat)
    requires lo <= hi
    ensures Drift(n, lo, hi, k) >= 0.0
  {
    var cap := LargestSquare(lo, hi);
    var r1 := NonNegativeProduct(n as real, cap);
    var r2 := NonNegativeProduct(n as real, Reach(n, lo, hi));
    DivideNonNegative(r2, Pow2(k));
  }

  lemma StepConverges(m: Mat, lam: real, step: real, w: Vec, tau: real, lo: real, hi: real, k: nat)
    requires Convex(m, lam, step) && |m| > 0 && MeetsSimplex(|m|, lo, hi) && lo <= hi
    requires Converging(m, step, w, lo, hi, k)
    requires var v := GradientStep(m, w, step);
             var w' := Shifted(v, tau, lo, hi);
             && Low(v, hi) <= tau <= High(v, lo) && InBox(w', lo, hi)
             && SumAccurate(Sum(w'), |m|, lo, hi, Low(v, hi), High(v, lo), BISECTIONS)
    ensures Converging(m, step, Shifted(GradientStep(m, w, step), tau, lo, hi), lo, hi, k + 1)
  {
    hide WithinRate, Drift, Sum, Shifted, GradientStep, Slip, SumAccurate, Low, High, ProjectsPast;
    hide Symmetric, Psd, BoundedBy;
    var n, v := |m|, GradientStep(m, w, step);
    var w', slip := Shifted(v, tau, lo, hi), Slip(|m|, lo, hi, BISECTIONS);
    BisectionNearOne(m, lam, step, w, w', lo, hi, BISECTIONS);
    DriftNonNegative(n, lo, hi, BISECTIONS);
    BisectionProjects(m, lam, step, w, tau, w, lo, hi, BISECTIONS);
    forall x | Feasible(x, n, lo, hi) ensures WithinRate(m, step, slip, Uniform(n), w', x, k + 1) {
      BisectionProjects(m, lam, step, w, tau, x, lo, hi, BISECTIONS);
      RateStep(m, lam, step, slip, Uniform(n), w, w', x, k);
    }
  }

  /** The iterates: from equal weights, a gradient step of 2Mw and its projection at a time. */
  function Descended(m: Mat, lo: real, hi: real, step: real, k: nat): (w: Vec)
    requires Square(m) && |m| > 0
    ensures |w| == |m|
  {
    if k == 0 then Uniform(|m|) else Projected(GradientStep(m, Descended(m, lo, hi, step, k - 1), step), lo, hi)
  }

  /** Minimise w'Mw over the box and sum w = 1 by projected gradient descent. `lam` is the largest
      eigenvalue of the covariance, computed by the linear-algebra library.
      For a convex problem whose box has room for a sum of 1, the result after any number of
      iterations is in the box, sums to 1 up to the drift, and is within the stated rate of every
      feasible portfolio, hence of the optimum. An infeasible box gives equal weights. */
  method ConstrainedMinVariance(cov: Mat, lo: real, hi: real, iters: nat, step: Option<real>, lam: real)
    returns (w: Vec)
    requires Square(cov) && |cov| > 0
    ensures w == Descended(cov, lo, hi, StepSize(step, lam), iters)
    ensures Infeasible(|cov|, lo, hi) ==> w == Uniform(|cov|)
    ensures !Infeasible(|cov|, lo, hi) && lo <= hi && iters > 0 ==> InBox(w, lo, hi)
    ensures Convex(cov, lam, StepSize(step, lam)) && MeetsSimplex(|cov|, lo, hi) && lo <= hi ==>
              Converging(cov, StepSize(step, lam), w, lo, hi, iters)
  {
    hide Converging, Shifted, GradientStep, Symmetric, Psd, BoundedBy, Projected;
    w := Uniform(|cov|);
    var s := match step
      case Some(given) => given
      case None => if lam > 0.0 then 1.0 / (2.0 * lam) else 1.0;
    ghost var converges := Convex(cov, lam, s) && MeetsSimplex(|cov|, lo, hi) && lo <= hi;
    if converges { StartConverges(cov, s, lo, hi); }
    for k := 0 to iters
      invariant w == Descended(cov, lo, hi, s, k)
      invariant Infeasible(|cov|, lo, hi) ==> w == Uniform(|cov|)
      invariant !Infeasible(|cov|, lo, hi) && lo <= hi && k > 0 ==> InBox(w, lo, hi)
      invariant converges ==> Converging(cov, s, w, lo, hi, k)
    {
      var v := GradientStep(cov, w, s);
      var w' := ProjectBoxSimplex(v, lo, hi);
      if converges {
        NotInfeasible(|cov|, lo, hi);
        ghost var tau :| Low(v, hi) <= tau <= High(v, lo) && w' == Shifted(v, tau, lo, hi);
        StepConverges(cov, lam, s, w, tau, lo, hi, k);
      }
      w := w';
    }
  }
}
