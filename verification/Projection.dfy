/** The bisection projection onto the box-constrained simplex {lo <= w_i <= hi, sum w = 1}. */
module Projection {
  import opened Reals
  import opened Vectors

  const TOLERANCE: real := 0.000000001
  const BISECTIONS: nat := 100

  /** numpy.clip: the lower bound is applied first, so the upper one wins when they cross. */
  function Clip(x: real, lo: real, hi: real): real {
    var y := if x < lo then lo else x;
    if y > hi then hi else y
  }

  /** Every entry of v shifted down by tau and clipped. */
  function Shifted(v: Vec, tau: real, lo: real, hi: real): (w: Vec)
    ensures |w| == |v|
  {
    seq(|v|, i requires 0 <= i < |v| => Clip(v[i] - tau, lo, hi))
  }

  function Uniform(n: nat): (w: Vec)
    requires n > 0
    ensures |w| == n
  {
    seq(n, _ => 1.0 / n as real)
  }

  /** The guard under which the solver gives up on the box. */
  predicate Infeasible(n: nat, lo: real, hi: real) {
    n as real * lo > 1.0 + TOLERANCE || n as real * hi < 1.0 - TOLERANCE
  }

  /** The box has room for a vector of sum 1. */
  predicate MeetsSimplex(n: nat, lo: real, hi: real) {
    n as real * lo <= 1.0 <= n as real * hi
  }

  predicate InBox(w: Vec, lo: real, hi: real) {
    forall i :: 0 <= i < |w| ==> lo <= w[i] <= hi
  }

  ghost predicate Feasible(x: Vec, n: nat, lo: real, hi: real) {
    |x| == n && InBox(x, lo, hi) && Sum(x) == 1.0
  }

  function MinOf(v: Vec): (r: real)
    requires |v| > 0
    ensures forall i :: 0 <= i < |v| ==> r <= v[i]
    ensures r in v
  {
    if |v| == 1 then v[0] else
    var m := MinOf(v[..|v| - 1]);
    if v[|v| - 1] < m then v[|v| - 1] else m
  }

  function MaxOf(v: Vec): (r: real)
    requires |v| > 0
    ensures forall i :: 0 <= i < |v| ==> v[i] <= r
    ensures r in v
  {
    if |v| == 1 then v[0] else
    var m := MaxOf(v[..|v| - 1]);
    if v[|v| - 1] > m then v[|v| - 1] else m
  }

  function Pow2(k: nat): (r: real)
    ensures r >= 1.0
  {
    if k == 0 then 1.0 else 2.0 * Pow2(k - 1)
  }

  /** Ends of the bracket that bisection starts from. */
  function Low(v: Vec, hi: real): real
    requires |v| > 0
  {
    MinOf(v) - hi
  }

  function High(v: Vec, lo: real): real
    requires |v| > 0
  {
    MaxOf(v) - lo
  }

  // ---- sums of clipped entries ----

  lemma ClipLipschitz(x: real, s: real, t: real, lo: real, hi: real)
    requires lo <= hi && s <= t
    ensures 0.0 <= Clip(x - s, lo, hi) - Clip(x - t, lo, hi) <= t - s
  {
  }

  /** Raising the shift lowers the clipped sum, by at most n times as much. */
  lemma ShiftedSumLipschitz(v: Vec, s: real, t: real, gap: real, lo: real, hi: real)
    requires lo <= hi && s <= t && gap == t - s
    ensures Sum(Shifted(v, t, lo, hi)) <= Sum(Shifted(v, s, lo, hi))
    ensures Sum(Shifted(v, s, lo, hi)) - Sum(Shifted(v, t, lo, hi)) <= |v| as real * gap
  {
    var drop := Lin(Shifted(v, s, lo, hi), -1.0, Shifted(v, t, lo, hi));
    forall i | 0 <= i < |v| ensures 0.0 <= drop[i] <= gap {
      ClipLipschitz(v[i], s, t, lo, hi);
    }
    SumNBetween(drop, |v|, 0.0, gap);
    SumNLinear(Shifted(v, s, lo, hi), -1.0, Shifted(v, t, lo, hi), |v|);
  }

  /** The sums around 1 that the box leaves room for. */
  function Ceiling(n: nat, lo: real): real {
    var least := n as real * lo;
    if least > 1.0 then least else 1.0
  }

  function Floor(n: nat, hi: real): real {
    var most := n as real * hi;
    if most < 1.0 then most else 1.0
  }

  /** [a, b] lies in the first bracket [a0, b0] and is 2^k times narrower. */
  predicate Bracket(a0: real, b0: real, a: real, b: real, k: nat) {
    a0 <= a <= b <= b0 && Pow2(k) * (b - a) == b0 - a0
  }

  lemma BracketStep(a0: real, b0: real, a: real, b: real, k: nat)
    requires Bracket(a0, b0, a, b, k)
    ensures Bracket(a0, b0, (a + b) / 2.0, b, k + 1)
    ensures Bracket(a0, b0, a, (a + b) / 2.0, k + 1)
  {
    var p, half := Pow2(k), (b - a) / 2.0;
    assert (2.0 * p) * half == p * (2.0 * half);
    assert b - (a + b) / 2.0 == half && (a + b) / 2.0 - a == half;
  }

  /** At the low end every entry is at hi, at the high end every entry is at lo. */
  lemma BracketEnds(v: Vec, lo: real, hi: real)
    requires |v| > 0 && lo <= hi
    ensures forall i :: 0 <= i < |v| ==> Shifted(v, Low(v, hi), lo, hi)[i] == hi
    ensures forall i :: 0 <= i < |v| ==> Shifted(v, High(v, lo), lo, hi)[i] == lo
  {
  }

  lemma BracketStart(v: Vec, lo: real, hi: real)
    requires |v| > 0 && lo <= hi
    ensures Sum(Shifted(v, Low(v, hi), lo, hi)) == |v| as real * hi
    ensures Sum(Shifted(v, High(v, lo), lo, hi)) == |v| as real * lo
  {
    hide Shifted, SumN, Low, High;
    BracketEnds(v, lo, hi);
    var least, most := Shifted(v, High(v, lo), lo, hi), Shifted(v, Low(v, hi), lo, hi);
    SumNConstant(most, |v|, hi);
    SumNConstant(least, |v|, lo);
  }

  // ---- the algorithm ----

  /** After k halvings of [a0, b0], s is 1 up to n half-widths, as far as the box allows. */
  ghost predicate SumAccurate(s: real, n: nat, lo: real, hi: real, a0: real, b0: real, k: nat) {
    && Pow2(k + 1) * (s - Ceiling(n, lo)) <= n as real * (b0 - a0)
    && Pow2(k + 1) * (Floor(n, hi) - s) <= n as real * (b0 - a0)
  }

  lemma ScaleBound(p: real, excess: real, n: real, half: real, width: real)
    requires p >= 0.0 && excess <= n * half && p * half == width
    ensures p * excess <= n * width
  {
    assert p * excess <= p * (n * half);
    assert p * (n * half) == n * (p * half);
  }

  /** A bracket pins the clipped sum s at its midpoint between the sums at its two ends. */
  lemma Pinned(s: real, sa: real, sb: real, n: nat, half: real, lo: real, hi: real,
               a0: real, b0: real, a: real, b: real, k: nat)
    requires Bracket(a0, b0, a, b, k) && half == (b - a) / 2.0
    requires sa - s <= n as real * half && s - sb <= n as real * half
    requires sa >= Floor(n, hi) && sb <= Ceiling(n, lo)
    ensures SumAccurate(s, n, lo, hi, a0, b0, k)
  {
    var p, ceiling, floor := Pow2(k), Ceiling(n, lo), Floor(n, hi);
    assert Pow2(k + 1) == 2.0 * p;
    hide Ceiling, Floor, Pow2;
    assert (2.0 * p) * half == p * (b - a);
    ScaleBound(2.0 * p, s - ceiling, n as real, half, b0 - a0);
    ScaleBound(2.0 * p, floor - s, n as real, half, b0 - a0);
  }

  /** The clipped sum straddles 1 between a and b, as far as the box allows. */
  ghost predicate Straddles(v: Vec, lo: real, hi: real, a: real, b: real) {
    Sum(Shifted(v, a, lo, hi)) >= Floor(|v|, hi) && Sum(Shifted(v, b, lo, hi)) <= Ceiling(|v|, lo)
  }

  lemma RoomAroundOne(n: nat, lo: real, hi: real)
    ensures Floor(n, hi) <= 1.0 <= Ceiling(n, lo)
  {
  }

  lemma BracketBegins(v: Vec, lo: real, hi: real)
    requires |v| > 0 && lo <= hi
    ensures Bracket(Low(v, hi), High(v, lo), Low(v, hi), High(v, lo), 0)
    ensures Straddles(v, lo, hi, Low(v, hi), High(v, lo))
  {
    hide Shifted, Sum;
    BracketStart(v, lo, hi);
  }

  lemma Midpoint(v: Vec, lo: real, hi: real, a0: real, b0: real, a: real, b: real, k: nat)
    requires lo <= hi && Bracket(a0, b0, a, b, k) && Straddles(v, lo, hi, a, b)
    ensures InBox(Shifted(v, (a + b) / 2.0, lo, hi), lo, hi)
    ensures SumAccurate(Sum(Shifted(v, (a + b) / 2.0, lo, hi)), |v|, lo, hi, a0, b0, k)
  {
    var mid, half := (a + b) / 2.0, (b - a) / 2.0;
    ShiftedSumLipschitz(v, a, mid, half, lo, hi);
    ShiftedSumLipschitz(v, mid, b, half, lo, hi);
    Pinned(Sum(Shifted(v, mid, lo, hi)), Sum(Shifted(v, a, lo, hi)), Sum(Shifted(v, b, lo, hi)), |v|,
           half, lo, hi, a0, b0, a, b, k);
  }

  /** The shift after k more halvings of the bracket from a to b: its middle in the end, and on the way the upper
      half wherever the clipped sum at the middle is above 1. */
  function Bisected(v: Vec, lo: real, hi: real, a: real, b: real, k: nat): real
    decreases k
  {
    var mid := (a + b) / 2.0;
    if k == 0 then mid
    else if Sum(Shifted(v, mid, lo, hi)) > 1.0 then Bisected(v, lo, hi, mid, b, k - 1)
    else Bisected(v, lo, hi, a, mid, k - 1)
  }

  function Projected(v: Vec, lo: real, hi: real): (w: Vec)
    requires |v| > 0
    ensures |w| == |v|
  {
    if Infeasible(|v|, lo, hi) then Uniform(|v|)
    else Shifted(v, Bisected(v, lo, hi, Low(v, hi), High(v, lo), BISECTIONS), lo, hi)
  }

  /** Project v onto {lo <= w <= hi, sum w = 1} by bisecting on the shift.
      The result is always a clipped shift of v whose sum is 1 up to the last bracket width,
      unless the box is declared infeasible, when it is the equal-weight vector. */
  method ProjectBoxSimplex(v: Vec, lo: real, hi: real) returns (w: Vec)
    requires |v| > 0
    ensures w == Projected(v, lo, hi)
    ensures Infeasible(|v|, lo, hi) ==> w == Uniform(|v|)
    ensures lo <= hi ==> (InBox(w, lo, hi) <==> !Infeasible(|v|, lo, hi))
    ensures !Infeasible(|v|, lo, hi) && lo <= hi ==>
              && InBox(w, lo, hi)
              && SumAccurate(Sum(w), |v|, lo, hi, Low(v, hi), High(v, lo), BISECTIONS)
              && exists tau :: Low(v, hi) <= tau <= High(v, lo) && w == Shifted(v, tau, lo, hi)
  {
    hide Shifted, Sum, SumAccurate, InBox, Pow2, Floor, Ceiling;
    RoomAroundOne(|v|, lo, hi);
    if Infeasible(|v|, lo, hi) {
      FallbackOutsideBox(|v|, lo, hi);
      return Uniform(|v|);
    }
    var a, b := MinOf(v) - hi, MaxOf(v) - lo;
    ghost var a0, b0 := Low(v, hi), High(v, lo);
    if lo <= hi { BracketBegins(v, lo, hi); }
    for k := 0 to BISECTIONS
      invariant Bisected(v, lo, hi, a, b, BISECTIONS - k)
             == Bisected(v, lo, hi, Low(v, hi), High(v, lo), BISECTIONS)
      invariant lo <= hi ==> Bracket(a0, b0, a, b, k) && Straddles(v, lo, hi, a, b)
    {
      if lo <= hi { BracketStep(a0, b0, a, b, k); }
      var tau := (a + b) / 2.0;
      var s := Sum(Shifted(v, tau, lo, hi));
      if s > 1.0 {
        a := tau;
      } else {
        b := tau;
      }
    }
    var mid := (a + b) / 2.0;
    w := Shifted(v, mid, lo, hi);
    if lo <= hi {
      Midpoint(v, lo, hi, a0, b0, a, b, BISECTIONS);
      assert Low(v, hi) <= mid <= High(v, lo);
    }
  }

  /** How near 1 the sum gets, in halvings of the first bracket: whatever v and the box are, as long as the box
      has room for a sum of 1, the projection is in the box, and the error of its sum is at most n brackets
      divided by 2 to the power of 101. */
  lemma ProjectedAccuracy(v: Vec, lo: real, hi: real, halvings: nat)
    requires |v| > 0 && lo <= hi && MeetsSimplex(|v|, lo, hi) && halvings == 101
    ensures var w := Projected(v, lo, hi);
            && InBox(w, lo, hi)
            && Times(Pow2(halvings), Abs(Sum(w) - 1.0)) <= Times(|v| as real, High(v, lo) - Low(v, hi))
  {
    hide Pow2, Shifted, Sum, InBox, Bisected, Bracket, Straddles, SumAccurate, Low, High, Times, MeetsSimplex;
    NotInfeasible(|v|, lo, hi);
    var a0, b0 := Low(v, hi), High(v, lo);
    BracketBegins(v, lo, hi);
    BisectedAccurate(v, lo, hi, a0, b0, a0, b0, 0);
    NearOneBy(Sum(Projected(v, lo, hi)), |v|, lo, hi, a0, b0, BISECTIONS, Pow2(halvings));
  }

  lemma NotInfeasible(n: nat, lo: real, hi: real)
    requires MeetsSimplex(n, lo, hi)
    ensures !Infeasible(n, lo, hi)
  {
  }

  lemma NearOneBy(s: real, n: nat, lo: real, hi: real, a0: real, b0: real, k: nat, p: real)
    requires MeetsSimplex(n, lo, hi) && SumAccurate(s, n, lo, hi, a0, b0, k) && p == Pow2(k + 1)
    ensures Times(p, Abs(s - 1.0)) <= Times(n as real, b0 - a0)
  {
    hide Pow2;
    assert Ceiling(n, lo) == 1.0 && Floor(n, hi) == 1.0;
  }

  lemma {:induction false} BisectedAccurate(v: Vec, lo: real, hi: real, a0: real, b0: real, a: real, b: real, k: nat)
    requires lo <= hi && k <= BISECTIONS && Bracket(a0, b0, a, b, k) && Straddles(v, lo, hi, a, b)
    ensures var w := Shifted(v, Bisected(v, lo, hi, a, b, BISECTIONS - k), lo, hi);
            InBox(w, lo, hi) && SumAccurate(Sum(w), |v|, lo, hi, a0, b0, BISECTIONS)
    decreases BISECTIONS - k
  {
    hide Shifted, Sum, SumAccurate, InBox, Pow2, Floor, Ceiling;
    RoomAroundOne(|v|, lo, hi);
    if k == BISECTIONS {
      Midpoint(v, lo, hi, a0, b0, a, b, k);
    } else {
      var mid := (a + b) / 2.0;
      BracketStep(a0, b0, a, b, k);
      if Sum(Shifted(v, mid, lo, hi)) > 1.0 {
        BisectedAccurate(v, lo, hi, a0, b0, mid, b, k + 1);
      } else {
        BisectedAccurate(v, lo, hi, a0, b0, a, mid, k + 1);
      }
    }
  }

  // ---- nearest point ----

  lemma OppositeSigns(p: real, q: real)
    requires p == 0.0 || (p <= 0.0 && q >= 0.0) || (p >= 0.0 && q <= 0.0)
    ensures p * q <= 0.0
  {
  }

  lemma ClipVariational(x: real, lo: real, hi: real, y: real)
    requires lo <= y <= hi
    ensures (x - Clip(x, lo, hi)) * (y - Clip(x, lo, hi)) <= 0.0
  {
    var p, q := x - Clip(x, lo, hi), y - Clip(x, lo, hi);
    OppositeSigns(p, q);
  }

  /** Entry by entry, what clipping took off points away from every point of the box. */
  lemma ClippedOpposite(v: Vec, tau: real, lo: real, hi: real, x: Vec)
    requires |x| == |v| && InBox(x, lo, hi)
    ensures var w := Shifted(v, tau, lo, hi);
            Dot(Lin(Lin(v, -1.0, w), -tau, Ones(|v|)), Lin(x, -1.0, w)) <= 0.0
  {
    var w := Shifted(v, tau, lo, hi);
    var r, q := Lin(Lin(v, -1.0, w), -tau, Ones(|v|)), Lin(x, -1.0, w);
    forall i | 0 <= i < |v| ensures r[i] * q[i] <= 0.0 {
      ClipVariational(v[i] - tau, lo, hi, x[i]);
      assert r[i] == v[i] - tau - w[i] && q[i] == x[i] - w[i];
    }
    DotNOpposite(r, q, |v|);
  }

  /** A clipped shift satisfies the variational inequality of its box against every point of the
      box, up to tau times the difference of the sums. */
  lemma Variational(v: Vec, tau: real, lo: real, hi: real, x: Vec)
    requires |x| == |v| && InBox(x, lo, hi)
    ensures var w := Shifted(v, tau, lo, hi);
            Dot(Lin(v, -1.0, w), Lin(x, -1.0, w)) <= tau * (Sum(x) - Sum(w))
  {
    hide Shifted, DotN, SumN, Lin, Ones;
    var w := Shifted(v, tau, lo, hi);
    var p, q := Lin(v, -1.0, w), Lin(x, -1.0, w);
    ClippedOpposite(v, tau, lo, hi, x);
    DotLinear(p, -tau, Ones(|v|), q);
    DotNOnes(q, |v|);
    SumNLinear(x, -1.0, w, |v|);
    ShiftTimes(tau, Dot(Ones(|v|), q), Sum(x) - Sum(w));
  }

  lemma ShiftTimes(tau: real, a: real, b: real)
    requires a == b
    ensures (-tau) * a == -(tau * b)
  {
  }

  /** The projection is the nearest point: nothing in the box with the same sum is closer to v,
      and a point equally close is the projection itself. */
  lemma NearestPoint(v: Vec, tau: real, lo: real, hi: real, x: Vec)
    requires |x| == |v| && lo <= hi && InBox(x, lo, hi)
    requires Sum(x) == Sum(Shifted(v, tau, lo, hi))
    ensures var w := Shifted(v, tau, lo, hi);
            DistSq(v, w) + DistSq(x, w) <= DistSq(v, x)
    ensures DistSq(v, x) <= DistSq(v, Shifted(v, tau, lo, hi)) ==> x == Shifted(v, tau, lo, hi)
  {
    var w := Shifted(v, tau, lo, hi);
    Variational(v, tau, lo, hi, x);
    var p, q := Lin(v, -1.0, w), Lin(x, -1.0, w);
    assert Lin(p, -1.0, q) == Lin(v, -1.0, x);
    DotSelfLinear(p, -1.0, q);
    forall i | 0 <= i < |x| && x[i] != w[i] ensures DistSq(v, x) > DistSq(v, w) {
      NonZeroLength(q, |q|, i);
    }
  }

  lemma {:induction false} NonZeroLength(q: Vec, n: nat, i: nat)
    requires i < n <= |q| && q[i] != 0.0
    ensures DotN(q, q, n) > 0.0
  {
    DotNSelfNonNegative(q, n - 1);
    if i == n - 1 {
      var last := PositiveProduct(q[i], q[i]);
    } else {
      NonZeroLength(q, n - 1, i);
      assert q[n - 1] * q[n - 1] >= 0.0;
    }
  }

  /** The equal-weight fallback is taken only when no vector of the box sums to 1, and it is then
      itself outside the box. */
  lemma FallbackOutsideBox(n: nat, lo: real, hi: real)
    requires n > 0 && Infeasible(n, lo, hi)
    ensures !InBox(Uniform(n), lo, hi)
    ensures forall x :: |x| == n && InBox(x, lo, hi) ==> Sum(x) != 1.0
  {
    forall x | |x| == n && InBox(x, lo, hi) ensures Sum(x) != 1.0 {
      SumNBetween(x, n, lo, hi);
    }
    if InBox(Uniform(n), lo, hi) {
      SumNConstant(Uniform(n), n, 1.0 / n as real);
    }
  }

  /** A box holds a vector of sum 1 exactly when n*lo <= 1 <= n*hi. */
  lemma FeasibleIff(n: nat, lo: real, hi: real)
    requires n > 0
    ensures (exists x :: Feasible(x, n, lo, hi)) <==> MeetsSimplex(n, lo, hi)
  {
    if MeetsSimplex(n, lo, hi) {
      SumNConstant(Uniform(n), n, 1.0 / n as real);
      assert Feasible(Uniform(n), n, lo, hi) by {
        UniformInBox(n as real, lo, hi);
      }
    }
    forall x | Feasible(x, n, lo, hi) ensures MeetsSimplex(n, lo, hi) {
      SumNBetween(x, n, lo, hi);
    }
  }

  /** When the fallback is taken: the projection is in the box exactly when n*lo and n*hi leave room for 1 up to the
      tolerance of the guard; otherwise it is 1/n throughout. */
  lemma ProjectedInBoxIff(v: Vec, lo: real, hi: real)
    requires |v| > 0 && lo <= hi
    ensures var w, n := Projected(v, lo, hi), |v| as real;
            var room := Times(n, lo) <= 1.0 + 1e-9 && Times(n, hi) >= 1.0 - 1e-9;
            && (InBox(w, lo, hi) <==> room)
            && (!room ==> forall i :: 0 <= i < |w| ==> w[i] == 1.0 / n)
  {
    hide Bisected, Low, High;
    if Infeasible(|v|, lo, hi) { FallbackOutsideBox(|v|, lo, hi); }
  }

  lemma UniformInBox(n: real, lo: real, hi: real)
    requires n > 0.0 && n * lo <= 1.0 <= n * hi
    ensures lo <= 1.0 / n <= hi
  {
    var u := 1.0 / n;
    assert n * u == 1.0;
    assert n * (u - lo) >= 0.0 && n * (hi - u) >= 0.0;
  }
}
