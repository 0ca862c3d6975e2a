/** Risk parity for any number of names, none of them negatively correlated: how fast the iteration
    approaches a parity portfolio x and equal risk contributions. */
module RiskParityRate {
  import opened Reals
  import opened Vectors
  import opened Sizing

  ghost predicate NonNegative(m: Mat)
    requires Square(m)
  {
    forall i, j :: 0 <= i < |m| && 0 <= j < |m| ==> m[i][j] >= 0.0
  }

  /** w lies between lo and hi times x, name by name. */
  ghost predicate Between(w: Vec, x: Vec, lo: real, hi: real)
    requires |w| == |x|
  {
    forall i :: 0 <= i < |w| ==> Times(lo, x[i]) <= w[i] <= Times(hi, x[i])
  }

  /** The proportions of w to x differ by no more than the square root of s. */
  ghost predicate Spread(w: Vec, x: Vec, s: real)
    requires |w| == |x|
  {
    exists lo, hi :: 0.0 < lo <= hi && Times(hi, hi) <= Times(s, Times(lo, lo)) && Between(w, x, lo, hi)
  }

  /** x is long with equal contributions c, of which at least the fraction delta is a name's own variance. */
  ghost predicate Parity(m: Mat, x: Vec, c: real, delta: real)
    requires Square(m) && |x| == |m|
  {
    && c > 0.0 && 0.0 <= delta <= 1.0
    && forall i :: 0 <= i < |m| ==>
         && x[i] > 0.0 && Contributions(m, x)[i] == c
         && Times(m[i][i], Times(x[i], x[i])) >= Times(delta, c)
  }

  // ---- one name ----

  /** What the first n names add to a name's marginal risk, its own variance apart. */
  function Others(row: Vec, w: Vec, i: nat, n: nat): real
    requires n <= |row| && n <= |w| && i < |row| && i < |w|
  {
    DotN(row, w, n) - if i < n then row[i] * w[i] else 0.0
  }

  lemma {:induction false} OthersBetween(row: Vec, w: Vec, x: Vec, lo: real, hi: real, i: nat, n: nat)
    requires |row| == |w| == |x| && i < |row| && n <= |row| && Between(w, x, lo, hi)
    requires forall k :: 0 <= k < |row| ==> row[k] >= 0.0
    ensures Times(lo, Others(row, x, i, n)) <= Others(row, w, i, n) <= Times(hi, Others(row, x, i, n))
  {
    hide Times;
    if n == 0 {
      TimesZero(lo);
      TimesZero(hi);
    } else {
      OthersBetween(row, w, x, lo, hi, i, n - 1);
      var aw, ax := row[n - 1] * w[n - 1], row[n - 1] * x[n - 1];
      TermBetween(Others(row, x, i, n - 1), Others(row, w, i, n - 1), row[n - 1], w[n - 1], x[n - 1], aw, ax, lo, hi);
    }
  }

  lemma TermBetween(p: real, q: real, a: real, w: real, x: real, aw: real, ax: real, lo: real, hi: real)
    requires a >= 0.0 && aw == a * w && ax == a * x
    requires Times(lo, x) <= w <= Times(hi, x) && Times(lo, p) <= q <= Times(hi, p)
    ensures Times(lo, p + ax) <= q + aw <= Times(hi, p + ax)
  {
    var k := NonNegativeProduct(a, w - lo * x);
    var l := NonNegativeProduct(a, hi * x - w);
  }

  // ---- what a step makes of the bounds ----

  /** The mean of p and q with weight delta on p. */
  function Mixed(p: real, q: real, delta: real): real {
    delta * p + (1.0 - delta) * q
  }

  lemma MixedPositive(p: real, q: real, delta: real)
    requires p > 0.0 && q > 0.0 && 0.0 <= delta <= 1.0
    ensures Mixed(p, q, delta) > 0.0
  {
    var k := NonNegativeProduct(delta, p);
    var l := NonNegativeProduct(1.0 - delta, q);
    if delta > 0.0 { var m := PositiveProduct(delta, p); } else { assert Mixed(p, q, delta) == q; }
  }

  /** The marginal risk e of a name at v times its weight in x, where d of its contribution c to x is its own
      and o the part of the others: over hi at least v times a mean of hi and lo ... */
  lemma MarginalAtLeast(e: real, o: real, d: real, c: real, delta: real, v: real, lo: real, hi: real)
    requires c > 0.0 && 0.0 <= delta <= 1.0 && 0.0 < lo <= v <= hi
    requires e == d * v + o && Times(lo, c - d) <= o && d >= Times(delta, c)
    ensures Times(hi, e) >= Times(v, Times(c, Mixed(hi, lo, delta)))
  {
    hide Times, Mixed;
    var base, n := d * v + Times(lo, c - d), d - Times(delta, c);
    var slack := TwoParts(n, hi, v - lo, 1.0 - delta, c, lo, hi - v);
    MarginalIdentity(n, d, c, delta, v, lo, hi, base, slack);
    TimesMonotone(hi, base, e);
  }

  lemma TwoParts(n: real, h: real, p: real, d: real, c: real, g: real, q: real) returns (slack: real)
    requires n >= 0.0 && h >= 0.0 && p >= 0.0 && d >= 0.0 && c >= 0.0 && g >= 0.0 && q >= 0.0
    ensures slack == Times(Times(n, h), p) + Times(Times(Times(d, c), g), q) >= 0.0
  {
    var nh := NonNegativeProduct(n, h);
    var k := NonNegativeProduct(nh, p);
    var dc := NonNegativeProduct(d, c);
    var dcg := NonNegativeProduct(dc, g);
    var l := NonNegativeProduct(dcg, q);
    slack := k + l;
  }

  lemma MarginalIdentity(n: real, d: real, c: real, delta: real, v: real, lo: real, hi: real,
                         base: real, slack: real)
    requires d == n + Times(delta, c) && base == d * v + Times(lo, c - d)
    requires slack == Times(Times(n, hi), v - lo) + Times(Times(Times(1.0 - delta, c), lo), hi - v)
    ensures Times(hi, base) == Times(v, Times(c, Mixed(hi, lo, delta))) + slack
  {
  }

  /** ... and over lo at most v times the mean the other way round. */
  lemma MarginalAtMost(e: real, o: real, d: real, c: real, delta: real, v: real, lo: real, hi: real)
    requires c > 0.0 && 0.0 <= delta <= 1.0 && 0.0 < lo <= v <= hi
    requires e == d * v + o && o <= Times(hi, c - d) && d >= Times(delta, c)
    ensures Times(lo, e) <= Times(v, Times(c, Mixed(lo, hi, delta)))
  {
    hide Times, Mixed;
    var base, n := d * v + Times(hi, c - d), d - Times(delta, c);
    var slack := TwoParts(n, lo, hi - v, 1.0 - delta, c, hi, v - lo);
    SlackTurned(n, lo, hi, v, 1.0 - delta, c, slack);
    MarginalIdentity(n, d, c, delta, v, hi, lo, base, -slack);
    TimesMonotone(lo, e, base);
  }

  lemma SlackTurned(n: real, lo: real, hi: real, v: real, d: real, c: real, slack: real)
    requires slack == Times(Times(n, lo), hi - v) + Times(Times(Times(d, c), hi), v - lo)
    ensures -slack == Times(Times(n, lo), v - hi) + Times(Times(Times(d, c), hi), lo - v)
  {
  }

  /** A name's new weight z, before normalising: its square times its marginal risk is target times its weight. */
  lemma BelowRoot(z: real, x: real, v: real, e: real, target: real, h: real, hi: real, k: real)
    requires z >= 0.0 && x > 0.0 && v > 0.0 && e > 0.0 && h >= 0.0 && hi > 0.0
    requires z * z * e == target * v * (x * x) && Times(Times(h, h), k) == Times(target, hi) && Times(hi, e) >= Times(v, k)
    ensures z <= Times(h, x)
  {
    var y := NonNegativeProduct(h, x);
    var zz := NonNegativeProduct(z, z);
    var yy := NonNegativeProduct(y, y);
    var he := PositiveProduct(hi, e);
    assert yy * (v * k) == (h * h * k) * v * (x * x);
    assert zz * he == (target * v * (x * x)) * hi;
    var n := NonNegativeProduct(yy, he - v * k);
    assert zz * he <= yy * he;
    if z > y {
      var p := PositiveProduct(z - y, z + y);
      var q := PositiveProduct(p, he);
    }
  }

  lemma AboveRoot(z: real, x: real, v: real, e: real, target: real, h: real, lo: real, k: real)
    requires z >= 0.0 && x > 0.0 && v > 0.0 && e > 0.0 && h >= 0.0 && lo > 0.0
    requires z * z * e == target * v * (x * x) && Times(Times(h, h), k) == Times(target, lo) && Times(lo, e) <= Times(v, k)
    ensures Times(h, x) <= z
  {
    var y := NonNegativeProduct(h, x);
    var zz := NonNegativeProduct(z, z);
    var yy := NonNegativeProduct(y, y);
    var le := PositiveProduct(lo, e);
    assert yy * (v * k) == (h * h * k) * v * (x * x);
    assert zz * le == (target * v * (x * x)) * lo;
    var n := NonNegativeProduct(yy, v * k - le);
    assert zz * le >= yy * le;
    if z < y {
      var p := PositiveProduct(y - z, z + y);
      var q := PositiveProduct(p, le);
    }
  }

  /** The new spread: 1 + (1 - delta)(s - 1). */
  function Next(s: real, delta: real): real {
    1.0 + (1.0 - delta) * (s - 1.0)
  }

  lemma SpreadShrinks(lo: real, hi: real, s: real, delta: real)
    requires 0.0 < lo <= hi && Times(hi, hi) <= Times(s, Times(lo, lo)) && 0.0 <= delta <= 1.0
    ensures Times(hi, Mixed(lo, hi, delta)) <= Times(Next(s, delta), Times(lo, Mixed(hi, lo, delta)))
  {
    hide Mixed, Next, Times;
    MixedPositive(hi, lo, delta);
    var m := MixOrder(lo, hi, delta);
    NextAtLeast(Times(lo, lo), Times(hi, hi), s, delta, m);
    ScaleOut(Times(hi, Mixed(lo, hi, delta)), m, Mixed(hi, lo, delta), Next(s, delta), lo);
  }

  lemma ScaleOut(p: real, m: real, a: real, t: real, lo: real)
    requires lo > 0.0 && a > 0.0 && Times(t, Times(lo, lo)) >= m && Times(m, a) >= Times(p, lo)
    ensures p <= Times(t, Times(lo, a))
  {
    var ll, q := lo * lo, t * (lo * a);
    var j := NonNegativeProduct(a, t * ll - m);
    assert q * lo == a * (t * ll);
    if p > q { var r := PositiveProduct(p - q, lo); }
  }

  lemma NextAtLeast(ll: real, hh: real, s: real, delta: real, m: real)
    requires hh <= Times(s, ll) && 0.0 <= delta <= 1.0 && m == delta * ll + (1.0 - delta) * hh
    ensures Times(Next(s, delta), ll) >= m
  {
    var g := NonNegativeProduct(1.0 - delta, s * ll - hh);
  }

  lemma MixOrder(lo: real, hi: real, delta: real) returns (m: real)
    requires 0.0 < lo <= hi && 0.0 <= delta <= 1.0
    ensures m == delta * Times(lo, lo) + (1.0 - delta) * Times(hi, hi)
    ensures Times(m, Mixed(hi, lo, delta)) >= Times(Times(hi, Mixed(lo, hi, delta)), lo)
  {
    hide Mixed, Times;
    m := delta * Times(lo, lo) + (1.0 - delta) * Times(hi, hi);
    var n := MixSlack(lo, hi, delta);
    MixIdentity(lo, hi, delta, m, n);
  }

  lemma MixSlack(lo: real, hi: real, delta: real) returns (n: real)
    requires 0.0 < lo <= hi && 0.0 <= delta <= 1.0
    ensures n == delta * (1.0 - delta) * ((hi - lo) * ((hi - lo) * (hi + lo))) >= 0.0
  {
    var d := NonNegativeProduct(delta, 1.0 - delta);
    var p := NonNegativeProduct(hi - lo, hi + lo);
    var q := NonNegativeProduct(hi - lo, p);
    n := NonNegativeProduct(d, q);
  }

  lemma MixIdentity(lo: real, hi: real, delta: real, m: real, n: real)
    requires m == delta * Times(lo, lo) + (1.0 - delta) * Times(hi, hi)
    requires n == delta * (1.0 - delta) * ((hi - lo) * ((hi - lo) * (hi + lo)))
    ensures Times(m, Mixed(hi, lo, delta)) == Times(Times(hi, Mixed(lo, hi, delta)), lo) + n
  {
  }

  /** A name's contribution to w, by its weight v in units of x: v times its marginal risk e, of which d v is
      its own and o, that of the others, lies within their bounds. */
  lemma NameParts(m: Mat, w: Vec, x: Vec, lo: real, hi: real, c: real, delta: real, i: nat)
    returns (v: real, e: real, d: real, o: real)
    requires Square(m) && |w| == |x| == |m| && i < |m| && NonNegative(m) && Parity(m, x, c, delta)
    requires 0.0 < lo <= hi && Between(w, x, lo, hi)
    ensures lo <= v <= hi && w[i] == v * x[i] && e == d * v + o && Contributions(m, w)[i] == Times(v, e)
    ensures d >= Times(delta, c) && Times(lo, c - d) <= o <= Times(hi, c - d)
  {
    hide Others, Times, Contributions;
    var a, q, g := m[i][i], Others(m[i], w, i, |m|), Others(m[i], x, i, |m|);
    OthersBetween(m[i], w, x, lo, hi, i, |m|);
    OwnAndOthers(m, w, i);
    OwnAndOthers(m, x, i);
    v, e, d, o := PartsAlgebra(w[i], x[i], a, q, g, c, lo, hi, Contributions(m, w)[i]);
  }

  lemma OwnAndOthers(m: Mat, w: Vec, i: nat)
    requires Square(m) && |w| == |m| && i < |m|
    ensures Contributions(m, w)[i] == Times(w[i], Others(m[i], w, i, |m|) + Times(m[i][i], w[i]))
  {
    hide DotN;
  }

  lemma PartsAlgebra(w: real, x: real, a: real, q: real, g: real, c: real, lo: real, hi: real, rc: real)
    returns (v: real, e: real, d: real, o: real)
    requires x > 0.0 && Times(lo, x) <= w <= Times(hi, x) && Times(lo, g) <= q <= Times(hi, g)
    requires rc == Times(w, q + Times(a, w)) && c == Times(x, g + Times(a, x))
    ensures lo <= v <= hi && w == v * x && e == d * v + o && rc == Times(v, e)
    ensures d == Times(a, Times(x, x)) && Times(lo, c - d) <= o <= Times(hi, c - d)
  {
    v := Quotient(w, x, lo, hi);
    d, o := Times(a, Times(x, x)), Times(x, q);
    e := d * v + o;
    OthersBounds(x, g, q, lo, hi, c, d, a);
    ContributionParts(w, x, v, a, q, d, o, e);
  }

  lemma Quotient(w: real, x: real, lo: real, hi: real) returns (v: real)
    requires x > 0.0 && Times(lo, x) <= w <= Times(hi, x)
    ensures lo <= v <= hi && w == v * x
  {
    v := w / x;
    if v < lo { var k := PositiveProduct(lo - v, x); }
    if v > hi { var k := PositiveProduct(v - hi, x); }
  }

  lemma OthersBounds(x: real, g: real, q: real, lo: real, hi: real, c: real, d: real, a: real)
    requires x > 0.0 && Times(lo, g) <= q <= Times(hi, g)
    requires c == Times(x, g + Times(a, x)) && d == Times(a, Times(x, x))
    ensures Times(lo, c - d) <= Times(x, q) <= Times(hi, c - d)
  {
    var k := NonNegativeProduct(x, q - lo * g);
    var l := NonNegativeProduct(x, hi * g - q);
    assert c - d == x * g;
    assert lo * (x * g) == x * (lo * g) && hi * (x * g) == x * (hi * g);
  }

  lemma ContributionParts(w: real, x: real, v: real, a: real, q: real, d: real, o: real, e: real)
    requires w == v * x && d == Times(a, Times(x, x)) && o == Times(x, q) && e == d * v + o
    ensures Times(w, q + Times(a, w)) == Times(v, e)
  {
    assert x * (q + a * w) == o + a * (x * x) * v;
  }

  /** With the floors inactive: the new weight before normalising lies between bounds l and h times x. */
  lemma NameStep(m: Mat, w: Vec, x: Vec, lo: real, hi: real, c: real, delta: real, sqrt: real -> real, i: nat,
                 l: real, h: real)
    requires Square(m) && |w| == |x| == |m| && i < |m| && NonNegative(m) && Parity(m, x, c, delta)
    requires 0.0 < lo <= hi && Between(w, x, lo, hi) && IsSqrt(sqrt) && FloorsInactive(m, w, sqrt)
    requires l >= 0.0 && h >= 0.0
    requires var target := Sum(Contributions(m, w)) / |m| as real;
             && Times(Times(l, l), Times(c, Mixed(lo, hi, delta))) == Times(target, lo)
             && Times(Times(h, h), Times(c, Mixed(hi, lo, delta))) == Times(target, hi)
    ensures var total := Sum(Pushed(m, w, sqrt));
            && total > 0.0
            && Times(l, x[i]) / total <= ParityStep(m, w, sqrt)[i] <= Times(h, x[i]) / total
  {
    hide Contributions, Sum, Pushed, ParityStep, FloorsInactive, IsSqrt, Times, Mixed, Between, NonNegative;
    var v, e, d, o := NameParts(m, w, x, lo, hi, c, delta, i);
    var s := StepFactor(m, w, sqrt, i);
    var target, total := Sum(Contributions(m, w)) / |m| as real, Sum(Pushed(m, w, sqrt));
    var z := PushedSquare(w[i], x[i], s, v, e, target, Contributions(m, w)[i]);
    MarginalAtLeast(e, o, d, c, delta, v, lo, hi);
    MarginalAtMost(e, o, d, c, delta, v, lo, hi);
    BelowRoot(z, x[i], v, e, target, h, hi, Times(c, Mixed(hi, lo, delta)));
    AboveRoot(z, x[i], v, e, target, l, lo, Times(c, Mixed(lo, hi, delta)));
    DivideOrder(Times(l, x[i]), z, total);
    DivideOrder(z, Times(h, x[i]), total);
  }

  lemma PushedSquare(w: real, x: real, s: real, v: real, e: real, target: real, rc: real) returns (z: real)
    requires w == v * x && x > 0.0 && v > 0.0 && s > 0.0 && rc == Times(v, e) && s * s * rc == target && rc > 0.0
    ensures z == Times(w, s) && z >= 0.0 && e > 0.0 && z * z * e == target * v * (x * x)
  {
    if e <= 0.0 { var n := NonNegativeProduct(v, -e); }
    var p := PositiveProduct(v, x);
    z := PositiveProduct(p, s);
    assert z * z * e == (s * s * (v * e)) * v * (x * x);
  }

  lemma DivideOrder(p: real, q: real, d: real)
    requires p <= q && d > 0.0
    ensures p / d <= q / d
  {
    var a, b := p / d, q / d;
    assert a * d == p && b * d == q;
    if a > b { var r := PositiveProduct(a - b, d); }
  }

  lemma RootsShrink(l: real, h: real, lo: real, hi: real, a: real, b: real, c: real, t: real, target: real)
    requires c > 0.0 && a > 0.0 && lo > 0.0
    requires Times(Times(l, l), Times(c, b)) == Times(target, lo) && Times(Times(h, h), Times(c, a)) == Times(target, hi)
    requires Times(hi, b) <= Times(t, Times(lo, a))
    ensures Times(h, h) <= Times(t, Times(l, l))
  {
    var d := ThreeFactors(c, a, lo);
    var ll := SquareNonNegative(l);
    Crossed(Times(h, h), ll, lo, hi, a, b, c, target);
    var n := ThreeParts(ll, c, Times(t, Times(lo, a)) - Times(hi, b));
    hide Times;
    ScaledThrough(Times(h, h), ll, lo, hi, a, b, c, t, d, n);
  }

  lemma ThreeFactors(c: real, a: real, lo: real) returns (d: real)
    requires c > 0.0 && a > 0.0 && lo > 0.0
    ensures d == Times(Times(c, a), lo) > 0.0
  {
    d := PositiveProduct(c, a);
    d := PositiveProduct(d, lo);
  }

  lemma SquareNonNegative(l: real) returns (ll: real)
    ensures ll == Times(l, l) >= 0.0
  {
    ll := l * l;
  }

  lemma ThreeParts(p: real, q: real, r: real) returns (n: real)
    requires p >= 0.0 && q >= 0.0 && r >= 0.0
    ensures n == Times(Times(p, q), r) >= 0.0
  {
    n := NonNegativeProduct(p, q);
    n := NonNegativeProduct(n, r);
  }

  lemma Crossed(hh: real, ll: real, lo: real, hi: real, a: real, b: real, c: real, target: real)
    requires Times(ll, Times(c, b)) == Times(target, lo) && Times(hh, Times(c, a)) == Times(target, hi)
    ensures Times(hh, Times(Times(c, a), lo)) == Times(Times(ll, c), Times(hi, b))
  {
    assert (hh * (c * a)) * lo == (target * hi) * lo;
    assert (ll * (c * b)) * hi == (target * lo) * hi;
    assert hh * ((c * a) * lo) == (hh * (c * a)) * lo;
    assert (ll * c) * (hi * b) == (ll * (c * b)) * hi;
  }

  lemma ScaledThrough(hh: real, ll: real, lo: real, hi: real, a: real, b: real, c: real, t: real, d: real, n: real)
    requires d == Times(Times(c, a), lo) && d > 0.0 && Times(hh, d) == Times(Times(ll, c), Times(hi, b))
    requires n == Times(Times(ll, c), Times(t, Times(lo, a)) - Times(hi, b)) && n >= 0.0
    ensures hh <= Times(t, ll)
  {
    assert (t * ll) * d == (ll * c) * (t * (lo * a));
    if hh > t * ll { var p := PositiveProduct(hh - t * ll, d); }
  }

  lemma ScaledBounds(l: real, h: real, total: real, t: real)
    requires total > 0.0 && l > 0.0 && Times(h, h) <= Times(t, Times(l, l))
    ensures l / total > 0.0 && Times(h / total, h / total) <= Times(t, Times(l / total, l / total))
  {
    DividePositive(l, total);
    var p, q := l / total, h / total;
    assert p * total == l && q * total == h;
    var tt := PositiveProduct(total, total);
    assert (q * q) * tt == h * h && (t * (p * p)) * tt == t * (l * l);
    if q * q > t * (p * p) { var r := PositiveProduct(q * q - t * (p * p), tt); }
  }

  lemma TimesQuotient(l: real, x: real, total: real)
    requires total > 0.0
    ensures Times(l, x) / total == Times(l / total, x)
  {
    var p := l / total;
    assert p * total == l;
    assert (p * x) * total == l * x;
  }

  lemma LessFactor(l: real, h: real, x: real)
    requires x > 0.0 && Times(l, x) <= Times(h, x)
    ensures l <= h
  {
    if l > h { var r := PositiveProduct(l - h, x); }
  }

  lemma PositiveRoot(sqrt: real -> real, p: real, q: real, c: real, m: real) returns (l: real)
    requires IsSqrt(sqrt) && p > 0.0 && q > 0.0 && c > 0.0 && m > 0.0
    ensures l > 0.0 && Times(Times(l, l), Times(c, m)) == Times(p, q)
  {
    var pq := PositiveProduct(p, q);
    var cm := PositiveProduct(c, m);
    RootOf(sqrt, pq, cm);
    l := sqrt(pq / cm);
  }

  lemma TargetPositive(m: Mat, w: Vec, sqrt: real -> real)
    requires Square(m) && |w| == |m| > 0 && FloorsInactive(m, w, sqrt)
    ensures Sum(Contributions(m, w)) / |m| as real > 0.0
  {
    hide Sum, Contributions;
    SumPositive(Contributions(m, w), MIN_CONTRIBUTION);
    DividePositive(Sum(Contributions(m, w)), |m| as real);
  }

  /** A step with inactive floors takes the excess of the spread over 1 down to at most 1 - delta of itself; with
      delta = 0, which always serves, the spread never grows. */
  lemma StepShrinks(m: Mat, w: Vec, x: Vec, s: real, c: real, delta: real, sqrt: real -> real)
    requires Square(m) && |w| == |x| == |m| > 0 && NonNegative(m) && Parity(m, x, c, delta)
    requires Spread(w, x, s) && IsSqrt(sqrt) && FloorsInactive(m, w, sqrt)
    ensures Spread(ParityStep(m, w, sqrt), x, Next(s, delta))
  {
    hide Contributions, Sum, Pushed, ParityStep, FloorsInactive, IsSqrt, Times, Mixed, NonNegative, Next;
    var lo, hi :| 0.0 < lo <= hi && Times(hi, hi) <= Times(s, Times(lo, lo)) && Between(w, x, lo, hi);
    var target, total := Sum(Contributions(m, w)) / |m| as real, Sum(Pushed(m, w, sqrt));
    TargetPositive(m, w, sqrt);
    MixedPositive(lo, hi, delta);
    MixedPositive(hi, lo, delta);
    var l := PositiveRoot(sqrt, target, lo, c, Mixed(lo, hi, delta));
    var h := PositiveRoot(sqrt, target, hi, c, Mixed(hi, lo, delta));
    SpreadShrinks(lo, hi, s, delta);
    RootsShrink(l, h, lo, hi, Mixed(hi, lo, delta), Mixed(lo, hi, delta), c, Next(s, delta), target);
    StepBetween(m, w, x, lo, hi, c, delta, sqrt, l, h);
    ScaledBounds(l, h, total, Next(s, delta));
  }

  lemma StepBetween(m: Mat, w: Vec, x: Vec, lo: real, hi: real, c: real, delta: real, sqrt: real -> real,
                    l: real, h: real)
    requires Square(m) && |w| == |x| == |m| > 0 && NonNegative(m) && Parity(m, x, c, delta)
    requires 0.0 < lo <= hi && Between(w, x, lo, hi) && IsSqrt(sqrt) && FloorsInactive(m, w, sqrt)
    requires l >= 0.0 && h >= 0.0
    requires var target := Sum(Contributions(m, w)) / |m| as real;
             && Times(Times(l, l), Times(c, Mixed(lo, hi, delta))) == Times(target, lo)
             && Times(Times(h, h), Times(c, Mixed(hi, lo, delta))) == Times(target, hi)
    ensures var total := Sum(Pushed(m, w, sqrt));
            && total > 0.0 && l / total <= h / total
            && Between(ParityStep(m, w, sqrt), x, l / total, h / total)
  {
    hide Contributions, Sum, Pushed, ParityStep, FloorsInactive, IsSqrt, Times, Mixed, NonNegative;
    var next, total := ParityStep(m, w, sqrt), Sum(Pushed(m, w, sqrt));
    forall i | 0 <= i < |m|
      ensures total > 0.0 && Times(l / total, x[i]) <= next[i] <= Times(h / total, x[i])
    {
      NameStep(m, w, x, lo, hi, c, delta, sqrt, i, l, h);
      TimesQuotient(l, x[i], total);
      TimesQuotient(h, x[i], total);
    }
    LessFactor(l / total, h / total, x[0]);
  }

  // ---- contributions, floors and the run ----

  lemma ContributionBounds(m: Mat, w: Vec, x: Vec, lo: real, hi: real, c: real, delta: real, i: nat)
    requires Square(m) && |w| == |x| == |m| && i < |m| && NonNegative(m) && Parity(m, x, c, delta)
    requires 0.0 < lo <= hi && Between(w, x, lo, hi)
    ensures Times(Times(lo, lo), c) <= Contributions(m, w)[i] <= Times(Times(hi, hi), c)
  {
    hide Contributions, Times, NonNegative, Between;
    var v, e, d, o := NameParts(m, w, x, lo, hi, c, delta, i);
    TimesNonNegative(delta, c);
    MarginalBounds(v, e, d, o, c, lo, hi);
  }

  lemma MarginalBounds(v: real, e: real, d: real, o: real, c: real, lo: real, hi: real)
    requires 0.0 < lo <= v <= hi && c > 0.0 && d >= 0.0 && e == d * v + o
    requires Times(lo, c - d) <= o <= Times(hi, c - d)
    ensures Times(Times(lo, lo), c) <= Times(v, e) <= Times(Times(hi, hi), c)
  {
    hide Times;
    MarginalRange(v, e, d, o, c, lo, hi);
    SquareBelow(lo, v, c, e);
    SquareAbove(hi, v, c, e);
  }

  lemma MarginalRange(v: real, e: real, d: real, o: real, c: real, lo: real, hi: real)
    requires 0.0 < lo <= v <= hi && c > 0.0 && d >= 0.0 && e == d * v + o
    requires Times(lo, c - d) <= o <= Times(hi, c - d)
    ensures Times(lo, c) <= e <= Times(hi, c)
  {
    var p := NonNegativeProduct(d, v - lo);
    var q := NonNegativeProduct(d, hi - v);
  }

  lemma SquareBelow(lo: real, v: real, c: real, e: real)
    requires 0.0 < lo <= v && c > 0.0 && Times(lo, c) <= e
    ensures Times(Times(lo, lo), c) <= Times(v, e)
  {
    var p := PositiveProduct(lo, c);
    var k := NonNegativeProduct(v, e - p);
    var l := NonNegativeProduct(v - lo, p);
    assert lo * lo * c == lo * p;
  }

  lemma SquareAbove(hi: real, v: real, c: real, e: real)
    requires 0.0 < v <= hi && c > 0.0 && e <= Times(hi, c)
    ensures Times(v, e) <= Times(Times(hi, hi), c)
  {
    var p := PositiveProduct(hi, c);
    var k := NonNegativeProduct(v, p - e);
    var l := NonNegativeProduct(hi - v, p);
    assert hi * hi * c == hi * p;
  }

  /** No contribution is more than s times another. */
  ghost predicate EvenWithin(m: Mat, w: Vec, s: real)
    requires Square(m) && |w| == |m|
  {
    forall i, j :: 0 <= i < |m| && 0 <= j < |m| ==> Contributions(m, w)[i] <= Times(s, Contributions(m, w)[j])
  }

  lemma SpreadIsEven(m: Mat, w: Vec, x: Vec, s: real, c: real, delta: real)
    requires Square(m) && |w| == |x| == |m| && NonNegative(m) && Parity(m, x, c, delta) && Spread(w, x, s)
    ensures EvenWithin(m, w, s)
  {
    hide Contributions, Times, NonNegative, Between, Parity;
    var lo, hi :| 0.0 < lo <= hi && Times(hi, hi) <= Times(s, Times(lo, lo)) && Between(w, x, lo, hi);
    forall i, j | 0 <= i < |m| && 0 <= j < |m|
      ensures Contributions(m, w)[i] <= Times(s, Contributions(m, w)[j])
    {
      ContributionBounds(m, w, x, lo, hi, c, delta, i);
      ContributionBounds(m, w, x, lo, hi, c, delta, j);
      ParityPositive(m, x, c, delta);
      RatioBound(Contributions(m, w)[i], Contributions(m, w)[j], Times(lo, lo), Times(hi, hi), s, c, lo, hi);
    }
  }

  lemma ParityPositive(m: Mat, x: Vec, c: real, delta: real)
    requires Square(m) && |x| == |m| && Parity(m, x, c, delta)
    ensures c > 0.0
  {
    hide Contributions, Times;
  }

  lemma SpreadAtLeastOne(lo: real, hi: real, s: real)
    requires 0.0 < lo <= hi && Times(hi, hi) <= Times(s, Times(lo, lo))
    ensures s >= 1.0
  {
    var ll := PositiveProduct(lo, lo);
    var p := NonNegativeProduct(hi - lo, hi + lo);
    if s < 1.0 { var q := PositiveProduct(1.0 - s, ll); }
  }

  lemma RatioBound(p: real, q: real, ll: real, hh: real, s: real, c: real, lo: real, hi: real)
    requires 0.0 < lo <= hi && ll == Times(lo, lo) && hh == Times(hi, hi) && hh <= Times(s, ll) && c > 0.0
    requires p <= Times(hh, c) && q >= Times(ll, c)
    ensures p <= Times(s, q)
  {
    SpreadAtLeastOne(lo, hi, s);
    var k := NonNegativeProduct(s * ll - hh, c);
    var l := NonNegativeProduct(s, q - ll * c);
  }

  lemma {:induction false} SumBelow(w: Vec, x: Vec, hi: real, n: nat)
    requires |w| == |x| && n <= |w| && forall i :: 0 <= i < |w| ==> w[i] <= Times(hi, x[i])
    ensures SumN(w, n) <= Times(hi, SumN(x, n))
  {
    hide Times;
    if n == 0 {
      TimesZero(hi);
    } else {
      SumBelow(w, x, hi, n - 1);
      TimesSum(hi, SumN(x, n - 1), x[n - 1]);
    }
  }

  /** A parity portfolio large enough for the floors to stay out of play at the spread s. */
  ghost predicate Roomy(x: Vec, c: real, s: real) {
    && Sum(x) == 1.0 && c >= Times(MIN_CONTRIBUTION, s)
    && forall i :: 0 <= i < |x| ==> x[i] >= Times(MIN_WEIGHT, s)
  }

  lemma RoomyClear(m: Mat, w: Vec, x: Vec, s: real, c: real, delta: real, sqrt: real -> real)
    requires Square(m) && |w| == |x| == |m| > 0 && NonNegative(m) && Parity(m, x, c, delta) && IsSqrt(sqrt)
    requires Spread(w, x, s) && Simplex(w) && Roomy(x, c, s)
    ensures FloorsInactive(m, w, sqrt)
  {
    hide Contributions, Times, NonNegative, IsSqrt, SumN;
    var lo, hi :| 0.0 < lo <= hi && Times(hi, hi) <= Times(s, Times(lo, lo)) && Between(w, x, lo, hi);
    SumBelow(w, x, hi, |w|);
    TimesOne(hi);
    var rc := Contributions(m, w);
    var ll, hh := Times(Times(lo, lo), c), Times(Times(hi, hi), c);
    forall i | 0 <= i < |w| ensures ll <= rc[i] <= hh { ContributionBounds(m, w, x, lo, hi, c, delta, i); }
    MeanAtLeast(rc, ll, hh);
    var target := Sum(rc) / |w| as real;
    forall i | 0 <= i < |w|
      ensures rc[i] >= MIN_CONTRIBUTION && Times(w[i], sqrt(target / rc[i])) >= MIN_WEIGHT
    {
      RoomForContribution(lo, hi, s, c, rc[i]);
      RootRoom(sqrt, target, rc[i], lo, hi, s, c, w[i], x[i]);
    }
  }

  lemma MeanAtLeast(v: Vec, lo: real, hi: real)
    requires |v| > 0 && forall i :: 0 <= i < |v| ==> lo <= v[i] <= hi
    ensures Sum(v) / |v| as real >= lo
  {
    SumNBetween(v, |v|, lo, hi);
    var n, total := |v| as real, Sum(v);
    hide Sum, SumN;
    assert n * lo <= total;
    DivideBound(lo, n, total);
  }

  lemma RoomForContribution(lo: real, hi: real, s: real, c: real, rc: real)
    requires 0.0 < lo <= hi && Times(hi, hi) <= Times(s, Times(lo, lo)) && hi >= 1.0
    requires c >= Times(MIN_CONTRIBUTION, s) && rc >= Times(Times(lo, lo), c)
    ensures rc >= MIN_CONTRIBUTION
  {
    SpreadAtLeastOne(lo, hi, s);
    var ll := PositiveProduct(lo, lo);
    var n := NonNegativeProduct(hi - 1.0, hi + 1.0);
    var k := NonNegativeProduct(ll, c - MIN_CONTRIBUTION * s);
    assert ll * (MIN_CONTRIBUTION * s) == MIN_CONTRIBUTION * (s * ll);
  }

  lemma RootRoom(sqrt: real -> real, target: real, rc: real, lo: real, hi: real, s: real, c: real, w: real, x: real)
    requires IsSqrt(sqrt) && 0.0 < lo <= hi && Times(hi, hi) <= Times(s, Times(lo, lo)) && hi >= 1.0
    requires 0.0 < rc <= Times(Times(hi, hi), c) && target >= Times(Times(lo, lo), c) && c > 0.0
    requires w >= Times(lo, x) && x >= Times(MIN_WEIGHT, s)
    ensures Times(w, sqrt(target / rc)) >= MIN_WEIGHT
  {
    hide IsSqrt, Times;
    SpreadAtLeastOne(lo, hi, s);
    PositiveTarget(lo, c, target);
    RootOf(sqrt, target, rc);
    var r := sqrt(target / rc);
    RootAtLeast(r, target, rc, Times(lo, lo), Times(hi, hi), s, c, lo);
    PushedRoom(r, lo, hi, s, w, x);
  }

  lemma PositiveTarget(lo: real, c: real, target: real)
    requires lo > 0.0 && c > 0.0 && target >= Times(Times(lo, lo), c)
    ensures target > 0.0
  {
    var p := PositiveProduct(lo, lo);
    var q := PositiveProduct(p, c);
  }

  /** s r^2 >= 1 for the root r of target / rc. */
  lemma RootAtLeast(r: real, target: real, rc: real, ll: real, hh: real, s: real, c: real, lo: real)
    requires r > 0.0 && r * r * rc == target && s >= 1.0 && c > 0.0 && lo > 0.0 && ll == Times(lo, lo)
    requires hh <= Times(s, ll) && 0.0 < rc <= Times(hh, c) && target >= Times(ll, c)
    ensures Times(s, r * r) >= 1.0
  {
    var rr := PositiveProduct(r, r);
    var t := PositiveProduct(s, rr);
    var k := NonNegativeProduct(s, target - ll * c);
    var l := NonNegativeProduct(s * ll - hh, c);
    assert t * rc == s * target;
    if t < 1.0 { var n := PositiveProduct(1.0 - t, rc); }
  }

  lemma PushedRoom(r: real, lo: real, hi: real, s: real, w: real, x: real)
    requires r > 0.0 && 0.0 < lo <= hi && Times(hi, hi) <= Times(s, Times(lo, lo)) && hi >= 1.0 && s >= 1.0
    requires Times(s, r * r) >= 1.0 && w >= Times(lo, x) && x >= Times(MIN_WEIGHT, s)
    ensures Times(w, r) >= MIN_WEIGHT
  {
    var g := NonNegativeProduct(hi - 1.0, hi + 1.0);
    var lr := PositiveProduct(lo, r);
    var t := PositiveProduct(lr, s);
    SquareAboveOne(t, s, lo, r);
    var k := NonNegativeProduct(r, w - lo * x);
    var l := NonNegativeProduct(lr, x - MIN_WEIGHT * s);
    assert lr * (MIN_WEIGHT * s) == MIN_WEIGHT * t;
  }

  lemma SquareAboveOne(t: real, s: real, lo: real, r: real)
    requires t == lo * r * s && t > 0.0 && s * (lo * lo) >= 1.0 && s * (r * r) >= 1.0
    ensures t >= 1.0
  {
    var p := NonNegativeProduct(s * (lo * lo) - 1.0, s * (r * r));
    assert t * t == (s * (lo * lo)) * (s * (r * r));
    if t < 1.0 { var q := PositiveProduct(1.0 - t, 1.0 + t); }
  }

  /** No two weights of x differ by more than the square root of s. */
  ghost predicate Comparable(x: Vec, s: real) {
    forall i, j :: 0 <= i < |x| && 0 <= j < |x| ==> Times(x[i], x[i]) <= Times(s, Times(x[j], x[j]))
  }

  lemma {:induction false} Extremes(x: Vec, n: nat) returns (least: nat, most: nat)
    requires 0 < n <= |x|
    ensures least < n && most < n && forall i :: 0 <= i < n ==> x[least] <= x[i] <= x[most]
  {
    least, most := 0, 0;
    if n > 1 {
      least, most := Extremes(x, n - 1);
      if x[n - 1] < x[least] { least := n - 1; }
      if x[n - 1] > x[most] { most := n - 1; }
    }
  }

  /** Equal weights have the spread s. */
  lemma EvenStart(w: Vec, x: Vec, s: real)
    requires |w| == |x| > 0 && forall i :: 0 <= i < |w| ==> w[i] == 1.0 / |w| as real && x[i] > 0.0
    requires Comparable(x, s)
    ensures Spread(w, x, s)
  {
    hide Times;
    var least, most := Extremes(x, |x|);
    var u := 1.0 / |w| as real;
    DividePositive(1.0, |w| as real);
    EvenBounds(u, x[least], x[most], s);
    var lo, hi := u / x[most], u / x[least];
    forall i | 0 <= i < |w| ensures Times(lo, x[i]) <= w[i] <= Times(hi, x[i]) {
      EvenEntry(u, x[least], x[i], x[most]);
    }
    assert Between(w, x, lo, hi);
  }

  lemma EvenBounds(u: real, p: real, q: real, s: real)
    requires u > 0.0 && 0.0 < p <= q && Times(q, q) <= Times(s, Times(p, p))
    ensures 0.0 < u / q <= u / p && Times(u / p, u / p) <= Times(s, Times(u / q, u / q))
  {
    DividePositive(u, q);
    DividePositive(u, p);
    var lo, hi := u / q, u / p;
    assert lo * q == u && hi * p == u;
    hide Times;
    QuotientOrder(lo, hi, p, q, u);
    QuotientSquares(lo, hi, p, q, u, s);
  }

  lemma QuotientOrder(lo: real, hi: real, p: real, q: real, u: real)
    requires 0.0 < p <= q && lo > 0.0 && hi > 0.0 && lo * q == u && hi * p == u
    ensures lo <= hi
  {
    if lo > hi { var r := PositiveProduct(lo - hi, q); var k := NonNegativeProduct(hi, q - p); }
  }

  lemma QuotientSquares(lo: real, hi: real, p: real, q: real, u: real, s: real)
    requires 0.0 < p && 0.0 < q && lo > 0.0 && lo * q == u && hi * p == u
    requires Times(q, q) <= Times(s, Times(p, p))
    ensures Times(hi, hi) <= Times(s, Times(lo, lo))
  {
    var ll := PositiveProduct(lo, lo);
    var pp := PositiveProduct(p, p);
    var n := NonNegativeProduct(ll, s * pp - q * q);
    assert ll * (q * q) == u * u && (hi * hi) * pp == u * u;
    if hi * hi > s * ll { var r := PositiveProduct(hi * hi - s * ll, pp); }
  }

  lemma EvenEntry(u: real, p: real, x: real, q: real)
    requires u > 0.0 && 0.0 < p <= x <= q
    ensures Times(u / q, x) <= u <= Times(u / p, x)
  {
    DividePositive(u, q);
    DividePositive(u, p);
    var k := NonNegativeProduct(u / q, q - x);
    var l := NonNegativeProduct(u / p, x - p);
    assert u / q * q == u && u / p * p == u;
  }

  /** What is left of the spread after k steps. */
  function After(s: real, delta: real, k: nat): real {
    1.0 + Times(Power(1.0 - delta, k), s - 1.0)
  }

  lemma AfterStep(s: real, delta: real, k: nat)
    requires k > 0
    ensures Next(After(s, delta, k - 1), delta) == After(s, delta, k)
  {
    var p, e, t := Power(1.0 - delta, k - 1), 1.0 - delta, s - 1.0;
    assert Power(1.0 - delta, k) == Times(p, e);
    hide Power;
    assert e * (p * t) == p * e * t;
  }

  /** What the theorems ask of the covariance and its parity portfolio x: no negative entry, weights and
      contributions clear of the floors at the spread s of equal weights. */
  ghost predicate Tame(m: Mat, x: Vec, s: real, c: real, delta: real) {
    && Square(m) && |x| == |m| > 0 && NonNegative(m)
    && Parity(m, x, c, delta) && Comparable(x, s) && Roomy(x, c, s)
  }

  /** Over the whole run of the iteration the spread to x is at most 1 + (1 - delta)^k (s - 1), and with it every
      ratio of two risk contributions. */
  lemma {:induction false} RunShrinks(m: Mat, x: Vec, s: real, c: real, delta: real, sqrt: real -> real, k: nat)
    requires Tame(m, x, s, c, delta) && IsSqrt(sqrt)
    ensures Spread(ParityIterate(m, sqrt, k), x, After(s, delta, k))
    ensures EvenWithin(m, ParityIterate(m, sqrt, k), After(s, delta, k))
  {
    hide Contributions, Times, NonNegative, IsSqrt, Spread, Roomy, EvenWithin, Simplex, Power, FloorsInactive;
    var w := ParityIterate(m, sqrt, k);
    if k == 0 {
      EvenStart(w, x, s);
      AfterZero(s, delta);
    } else {
      RunShrinks(m, x, s, c, delta, sqrt, k - 1);
      var before := ParityIterate(m, sqrt, k - 1);
      IteratesOnSimplex(m, sqrt, k - 1);
      AfterWithin(s, delta, k - 1, x);
      SpreadGrows(before, x, After(s, delta, k - 1), s);
      RoomyClear(m, before, x, s, c, delta, sqrt);
      StepShrinks(m, before, x, After(s, delta, k - 1), c, delta, sqrt);
      AfterStep(s, delta, k);
    }
    SpreadIsEven(m, w, x, After(s, delta, k), c, delta);
  }

  lemma AfterZero(s: real, delta: real)
    ensures After(s, delta, 0) == s
  {
    TimesOne(s - 1.0);
  }

  lemma AfterWithin(s: real, delta: real, k: nat, x: Vec)
    requires 0.0 <= delta <= 1.0 && |x| > 0 && x[0] > 0.0 && Comparable(x, s)
    ensures 1.0 <= s && After(s, delta, k) <= s
  {
    SpreadAtLeastOne(x[0], x[0], s);
    PowerFraction(1.0 - delta, k);
    hide Power;
    var n := NonNegativeProduct(1.0 - Power(1.0 - delta, k), s - 1.0);
  }

  lemma SpreadGrows(w: Vec, x: Vec, s: real, t: real)
    requires |w| == |x| && Spread(w, x, s) && s <= t
    ensures Spread(w, x, t)
  {
    hide Between, Times;
    var lo, hi :| 0.0 < lo <= hi && Times(hi, hi) <= Times(s, Times(lo, lo)) && Between(w, x, lo, hi);
    MoreTimes(s, t, lo);
  }

  lemma MoreTimes(s: real, t: real, lo: real)
    requires s <= t
    ensures Times(s, Times(lo, lo)) <= Times(t, Times(lo, lo))
  {
    var ll := lo * lo;
    assert ll >= 0.0;
    var n := NonNegativeProduct(t - s, ll);
  }

  ghost predicate EvenFrom(m: Mat, sqrt: real -> real, s: real, n: nat)
    requires Square(m) && |m| > 0
  {
    forall k: nat :: k >= n ==> EvenWithin(m, ParityIterate(m, sqrt, k), s)
  }

  ghost predicate EvenEventually(m: Mat, sqrt: real -> real, s: real)
    requires Square(m) && |m| > 0
  {
    exists n: nat :: EvenFrom(m, sqrt, s, n)
  }

  /** The run from equal weights converges to equal risk contributions: for every s > 1 they are, from some
      iterate on, within the factor s of each other. */
  ghost predicate ReachesParity(m: Mat, sqrt: real -> real)
    requires Square(m) && |m| > 0
  {
    forall s: real :: s > 1.0 ==> EvenEventually(m, sqrt, s)
  }

  /** The documented promise, for covariances without negative entries: the iteration converges. */
  lemma RiskParityConverges(m: Mat, x: Vec, s: real, c: real, delta: real, sqrt: real -> real)
    requires Tame(m, x, s, c, delta) && delta > 0.0 && IsSqrt(sqrt)
    ensures ReachesParity(m, sqrt)
  {
    hide Contributions, Times, NonNegative, IsSqrt, Spread, Roomy, EvenWithin, Power;
    AfterWithin(s, delta, 0, x);
    forall t: real | t > 1.0 ensures EvenEventually(m, sqrt, t) {
      var n := PowerVanishes(1.0 - delta, s - 1.0, t - 1.0);
      forall k: nat | k >= n ensures EvenWithin(m, ParityIterate(m, sqrt, k), t) {
        RunShrinks(m, x, s, c, delta, sqrt, k);
        SpreadGrows(ParityIterate(m, sqrt, k), x, After(s, delta, k), t);
        SpreadIsEven(m, ParityIterate(m, sqrt, k), x, t, c, delta);
      }
      assert EvenFrom(m, sqrt, t, n);
    }
  }
}
