/** The step a caller may choose: projected gradient steps never raise the variance exactly up to 1/lam, twice
    the default. */
module StepSizes {
  import opened Reals
  import opened Vectors
  import opened Projection
  import opened ProjectedGradient

  /** One step of at most 1/lam, projected up to the slip, does not raise the variance by more than slip/step. */
  lemma StepDescends(m: Mat, lam: real, step: real, w: Vec, w': Vec, slip: real)
    requires Square(m) && Symmetric(m) && BoundedBy(m, lam) && |w| == |w'| == |m|
    requires step > 0.0 && step * lam <= 1.0
    requires ProjectsPast(GradientStep(m, w, step), w', w, slip)
    ensures Times(step, Quad(m, w') - Quad(m, w)) <= slip
  {
    hide Quad, MatVec, Lin, Times;
    var p, g := Lin(w, -1.0, w'), MatVec(m, w);
    DotNSelfNonNegative(p, |m|);
    VarianceAfterMove(m, w, w');
    var curvature := Curvature(m, lam, p);
    var descent := ProjectionInequality(m, step, w, w', w, slip);
    DescentAlgebra(step, lam, Dot(p, p), Dot(p, g), Quad(m, w), Quad(m, w'), curvature, descent, slip);
  }

  lemma DescentAlgebra(step: real, lam: real, pp: real, pg: real, f: real, f': real, curvature: real,
                       descent: real, slip: real)
    requires step > 0.0 && step * lam <= 1.0 && pp >= 0.0
    requires curvature == Times(lam, pp) && descent == Times(2.0 * step, pg)
    requires f' <= f - 2.0 * pg + curvature && pp - descent <= slip
    ensures Times(step, f' - f) <= slip
  {
    var k := NonNegativeProduct(step, f - 2.0 * pg + lam * pp - f');
    var l := NonNegativeProduct(1.0 - step * lam, pp);
  }

  /** No step of this size, projected exactly, raises the variance: of any covariance bounded by lam, on any
      box, from any feasible portfolio. */
  ghost predicate NeverRises(step: real, lam: real) {
    forall m: Mat, lo: real, hi: real, w: Vec, w': Vec ::
      Square(m) && Symmetric(m) && Psd(m) && BoundedBy(m, lam) && Moves(m, step, lo, hi, w, w') ==>
        Quad(m, w') <= Quad(m, w)
  }

  ghost predicate Moves(m: Mat, step: real, lo: real, hi: real, w: Vec, w': Vec)
    requires Square(m)
  {
    && |w| == |w'| == |m| && Feasible(w, |m|, lo, hi)
    && Nearest(GradientStep(m, w, step), w', lo, hi)
  }

  lemma Descends(m: Mat, lam: real, step: real, lo: real, hi: real, w: Vec, w': Vec)
    requires Square(m) && Symmetric(m) && BoundedBy(m, lam) && Moves(m, step, lo, hi, w, w')
    requires step > 0.0 && step * lam <= 1.0
    ensures Quad(m, w') <= Quad(m, w)
  {
    hide Quad, Nearest, GradientStep, Times, BoundedBy;
    NearestProjects(GradientStep(m, w, step), w', w, lo, hi);
    StepDescends(m, lam, step, w, w', 0.0);
    FactorNotPositive(step, Quad(m, w') - Quad(m, w));
  }

  // ---- beyond 1/lam ----

  /** Two opposed names: the variance is lam/2 times the squared difference of their weights. */
  function Opposed(lam: real): (m: Mat)
    ensures Square(m) && |m| == 2
  {
    var h := lam / 2.0;
    [[h, -h], [-h, h]]
  }

  lemma OpposedForm(lam: real, d: Vec, q: real)
    requires |d| == 2 && q == lam / 2.0 * (d[0] - d[1])
    ensures MatVec(Opposed(lam), d) == [q, -q]
    ensures Quad(Opposed(lam), d) == Times(q, d[0] - d[1])
  {
    var h := lam / 2.0;
    OpposedDots(h, d[0], d[1], d, q);
    hide Dot, Times;
    assert MatVec(Opposed(lam), d) == [Dot([h, -h], d), Dot([-h, h], d)];
  }

  lemma OpposedDots(h: real, x: real, y: real, d: Vec, q: real)
    requires d == [x, y] && q == h * (x - y)
    ensures Dot([h, -h], d) == q && Dot([-h, h], d) == -q && Dot(d, [q, -q]) == Times(q, x - y)
  {
    DotOfTwo(h, -h, d);
    DotOfTwo(-h, h, d);
    DotOfTwo(x, y, [q, -q]);
  }

  lemma OpposedBounded(lam: real)
    requires lam > 0.0
    ensures Symmetric(Opposed(lam)) && Psd(Opposed(lam)) && BoundedBy(Opposed(lam), lam)
  {
    hide Quad, Dot;
    forall d: Vec | |d| == 2
      ensures 0.0 <= Quad(Opposed(lam), d) <= lam * Dot(d, d)
    {
      var q := lam / 2.0 * (d[0] - d[1]);
      OpposedForm(lam, d, q);
      DotOfTwo(d[0], d[1], d);
      assert d == [d[0], d[1]];
      DifferenceWithin(d[0], d[1], lam, q);
    }
  }

  lemma DifferenceWithin(x: real, y: real, lam: real, q: real)
    requires lam > 0.0 && q == lam / 2.0 * (x - y)
    ensures 0.0 <= Times(q, x - y) <= lam * (x * x + y * y)
  {
    var t, u := x - y, x + y;
    Squares(x, y, t, u);
    var k := NonNegativeProduct(lam / 2.0, t * t);
    var l := NonNegativeProduct(lam / 2.0, u * u);
  }

  lemma Squares(x: real, y: real, t: real, u: real)
    requires t == x - y && u == x + y
    ensures t * t >= 0.0 && u * u >= 0.0 && t * t + u * u == 2.0 * (x * x + y * y)
  {
  }

  /** A step beyond 1/lam overshoots to the other side of even weights, further away than it started. */
  lemma Overshoots(step: real, lam: real)
    requires step > 0.0 && lam > 0.0 && step * lam > 1.0
    ensures !NeverRises(step, lam)
  {
    hide Quad, Psd, BoundedBy, MatVec, Dot, Sum, Nearest, Times, GradientStep;
    var s := step * lam;
    var d := 1.0 / (2.0 + 4.0 * s);
    var e := d * (1.0 - 2.0 * s);
    OvershootSize(s, d, e);
    var m, w, w' := Opposed(lam), [0.5 + d, 0.5 - d], [0.5 + e, 0.5 - e];
    OpposedBounded(lam);
    var g, g' := lam / 2.0 * (d + d), lam / 2.0 * (e + e);
    OpposedForm(lam, w, g);
    OpposedForm(lam, w', g');
    SumOfTwo(w);
    SumOfTwo(w');
    OvershootStep(step, lam, d, e, g, MatVec(m, w)[0], MatVec(m, w)[1]);
    GradientEntry(m, w, step, 0);
    GradientEntry(m, w, step, 1);
    assert GradientStep(m, w, step) == w';
    StandsStill(w');
    assert Moves(m, step, 0.0, 1.0, w, w');
    OvershootRises(lam, d, e, g, g');
  }

  lemma StandsStill(v: Vec)
    requires Feasible(v, |v|, 0.0, 1.0)
    ensures Nearest(v, v, 0.0, 1.0)
  {
    hide DistSq;
    SelfDistance(v);
    forall x | Feasible(x, |v|, 0.0, 1.0) ensures DistSq(v, v) <= DistSq(v, x) { DistanceNonNegative(v, x); }
  }

  lemma OvershootSize(s: real, d: real, e: real)
    requires s > 1.0 && d == 1.0 / (2.0 + 4.0 * s) && e == d * (1.0 - 2.0 * s)
    ensures 0.0 < d <= 0.5 && -0.5 <= e < -d
  {
    assert d * (2.0 + 4.0 * s) == 1.0;
    if d <= 0.0 { var r := NonNegativeProduct(-d, 2.0 + 4.0 * s); }
    var k := PositiveProduct(d, s - 1.0);
    assert d * s == k + d;
  }

  lemma GradientEntry(m: Mat, w: Vec, step: real, i: nat)
    requires Square(m) && |w| == |m| && i < |m|
    ensures GradientStep(m, w, step)[i] == w[i] + Times(-(2.0 * step), MatVec(m, w)[i])
  {
  }

  lemma OvershootStep(step: real, lam: real, d: real, e: real, g: real, x: real, y: real)
    requires e == d * (1.0 - 2.0 * (step * lam)) && g == lam / 2.0 * (d + d) && x == g && y == -g
    ensures d + Times(-(2.0 * step), x) == e && -d + Times(-(2.0 * step), y) == -e
  {
    assert g == lam * d;
    assert step * g == d * (step * lam);
  }

  lemma OvershootRises(lam: real, d: real, e: real, g: real, g': real)
    requires lam > 0.0 && 0.0 < d && e < -d && g == lam / 2.0 * (d + d) && g' == lam / 2.0 * (e + e)
    ensures Times(g', e + e) > Times(g, d + d)
  {
    var p := PositiveProduct(-e - d, d - e);
    var q := PositiveProduct(lam, p);
    assert Times(g', e + e) == 2.0 * (lam * (e * e)) && Times(g, d + d) == 2.0 * (lam * (d * d));
  }

  /** Exactly projected steps never raise the variance if and only if they are at most 1/lam. */
  lemma NeverRisesIff(step: real, lam: real)
    requires step > 0.0 && lam > 0.0
    ensures NeverRises(step, lam) <==> step * lam <= 1.0
  {
    hide Quad, Moves, Symmetric, Psd, BoundedBy;
    if step * lam <= 1.0 {
      forall m: Mat, lo: real, hi: real, w: Vec, w': Vec |
        Square(m) && Symmetric(m) && Psd(m) && BoundedBy(m, lam) && Moves(m, step, lo, hi, w, w')
        ensures |w| == |w'| == |m| && Quad(m, w') <= Quad(m, w)
      {
        MovesSized(m, step, lo, hi, w, w');
        Descends(m, lam, step, lo, hi, w, w');
      }
    } else {
      Overshoots(step, lam);
    }
  }

  lemma MovesSized(m: Mat, step: real, lo: real, hi: real, w: Vec, w': Vec)
    requires Square(m) && Moves(m, step, lo, hi, w, w')
    ensures |w| == |w'| == |m|
  {
  }
}
