/** Position sizing: alpha sets the sign of a weight, a risk estimate sets its size.
    The square root is a parameter, known only by what it promises. */
module Sizing {
  import opened Dicts
  import opened Reals
  import opened Vectors
  import opened Exposure

  const MIN_CONTRIBUTION: real := 0.000000000001
  const MIN_WEIGHT: real := 0.000000001

  ghost predicate IsSqrt(sqrt: real -> real) {
    forall x: real :: x >= 0.0 ==> sqrt(x) >= 0.0 && Times(sqrt(x), sqrt(x)) == x
  }

  function Sign(alpha: real): real {
    if alpha < 0.0 then -1.0 else 1.0
  }

  // ---- equal weight ----

  /** The names with a view, each with the sign of its alpha. */
  function Signs(alphas: Book, n: nat): (r: Book)
    requires n <= |alphas|
    ensures |r| <= n
    ensures forall i :: 0 <= i < |r| ==> Abs(r[i].1) == 1.0
  {
    if n == 0 then []
    else
      var a := alphas[n - 1];
      Signs(alphas, n - 1) + if a.1 != 0.0 then [(a.0, Sign(a.1))] else []
  }

  function ScaleAll(w: Book, c: real): (r: Book)
    ensures |r| == |w|
  {
    seq(|w|, i requires 0 <= i < |w| => (w[i].0, Times(w[i].1, c)))
  }

  function EqualWeight(alphas: Book): Book {
    var signs := Signs(alphas, |alphas|);
    if |signs| == 0 then [] else ScaleAll(signs, 1.0 / |signs| as real)
  }

  lemma {:induction false} GrossOfUnits(w: Book, n: nat)
    requires n <= |w| && forall i :: 0 <= i < |w| ==> Abs(w[i].1) == 1.0
    ensures GrossN(w, Everything(), n) == n as real
  {
    if n > 0 { GrossOfUnits(w, n - 1); }
  }

  lemma GrossOfScaled(w: Book, c: real)
    requires c >= 0.0
    ensures Gross(ScaleAll(w, c), Everything()) == Times(Gross(w, Everything()), c)
  {
    GrossScalesAll(ScaleAll(w, c), w, Everything(), c);
  }

  lemma ReciprocalTimes(n: real)
    requires n > 0.0
    ensures 1.0 / n > 0.0 && Times(n, 1.0 / n) == 1.0
  {
  }

  /** Equal weights use exactly the whole book as soon as one name has a view. */
  lemma EqualWeightGross(alphas: Book)
    ensures Gross(EqualWeight(alphas), Everything()) == if Signs(alphas, |alphas|) == [] then 0.0 else 1.0
  {
    var signs := Signs(alphas, |alphas|);
    if |signs| > 0 {
      GrossOfUnits(signs, |signs|);
      var n := |signs| as real;
      assert Gross(signs, Everything()) == n;
      hide Gross, Times, ScaleAll;
      ReciprocalTimes(n);
      GrossOfScaled(signs, 1.0 / n);
    }
  }

  // ---- inverse volatility, scaled to a target ----

  function Entry(alpha: real, vol: real): real
    requires vol > 0.0
  {
    Sign(alpha) * (1.0 / vol)
  }

  /** Inverse volatilities, signed by alpha, of the names with a view and a positive volatility. */
  function SignedInverse(alphas: Book, vols: Dict<real>, n: nat): (r: Book)
    requires n <= |alphas|
    ensures |r| <= n
  {
    if n == 0 then []
    else
      var a, vol := alphas[n - 1], Get(vols, alphas[n - 1].0, 0.0);
      SignedInverse(alphas, vols, n - 1)
      + if a.1 != 0.0 && vol > 0.0 then [(a.0, Entry(a.1, vol))] else []
  }

  /** Before the target is applied: signs from alpha, sizes in proportion to 1/vol, gross 1. */
  function InverseVol(alphas: Book, vols: Dict<real>): Book {
    var inv := SignedInverse(alphas, vols, |alphas|);
    var tot := Gross(inv, Everything());
    if tot == 0.0 then [] else ScaleAll(inv, 1.0 / tot)
  }

  /** The weights of the covariance's symbols, 0 where the book has none. */
  function Aligned(w: Book, syms: seq<string>): (v: Vec)
    ensures |v| == |syms|
  {
    seq(|syms|, i requires 0 <= i < |syms| => Get(w, syms[i], 0.0))
  }

  /** Sum of (w * vol)^2 over the first n names. */
  function IndependentVariance(w: Book, vols: Dict<real>, n: nat): real
    requires n <= |w|
  {
    if n == 0 then 0.0
    else
      var x := Times(w[n - 1].1, Get(vols, w[n - 1].0, 0.0));
      IndependentVariance(w, vols, n - 1) + Times(x, x)
  }

  datatype Covariance = Covariance(syms: seq<string>, sigma: Mat)

  ghost predicate Shaped(cov: Option<Covariance>) {
    cov.Some? ==> Square(cov.value.sigma) && |cov.value.sigma| == |cov.value.syms|
  }

  /** The variance of a book, with the full covariance when there is one. */
  function Variance(w: Book, vols: Dict<real>, cov: Option<Covariance>): real
    requires Shaped(cov)
  {
    match cov
    case Some(c) => Quad(c.sigma, Aligned(w, c.syms))
    case None => IndependentVariance(w, vols, |w|)
  }

  function PortfolioVol(w: Book, vols: Dict<real>, cov: Option<Covariance>, sqrt: real -> real): real
    requires Shaped(cov)
  {
    var variance := Variance(w, vols, cov);
    sqrt(if variance > 0.0 then variance else 0.0)
  }

  function VolatilityTarget(alphas: Book, vols: Dict<real>, target: real,
                            cov: Option<Covariance>, sqrt: real -> real): Book
    requires Shaped(cov)
  {
    var w := InverseVol(alphas, vols);
    var vol := PortfolioVol(w, vols, cov, sqrt);
    if vol > 0.0 then ScaleAll(w, target / vol) else w
  }

  // -- scaling a book scales its variance by the square --

  lemma {:induction false} IndexOfScaled(w: Book, c: real, s: string)
    ensures Get(ScaleAll(w, c), s, 0.0) == Times(Get(w, s, 0.0), c)
  {
    if |w| == 0 {
    } else if w[0].0 != s {
      assert ScaleAll(w, c)[1..] == ScaleAll(w[1..], c);
      IndexOfScaled(w[1..], c, s);
    }
  }

  lemma DotScales(zero: Vec, c: real, x: Vec, y: Vec)
    requires |zero| == |x| == |y| && forall i :: 0 <= i < |zero| ==> zero[i] == 0.0
    ensures Dot(Lin(zero, c, x), y) == Times(c, Dot(x, y))
    ensures Dot(y, Lin(zero, c, x)) == Times(c, Dot(y, x))
  {
    DotLinear(zero, c, x, y);
    DotNZero(zero, y, |x|);
    DotNSymmetric(zero, y, |x|);
  }

  lemma MatVecScales(m: Mat, zero: Vec, c: real, x: Vec)
    requires Square(m) && |zero| == |x| == |m| && forall i :: 0 <= i < |zero| ==> zero[i] == 0.0
    ensures MatVec(m, Lin(zero, c, x)) == Lin(zero, c, MatVec(m, x))
  {
    MatVecLinear(m, zero, c, x);
    forall i | 0 <= i < |m| ensures MatVec(m, zero)[i] == zero[i] {
      DotNSymmetric(m[i], zero, |m|);
      DotNZero(zero, m[i], |m|);
    }
    assert MatVec(m, zero) == zero;
  }

  lemma QuadScales(m: Mat, x: Vec, y: Vec, c: real)
    requires Square(m) && |x| == |y| == |m|
    requires forall i :: 0 <= i < |x| ==> y[i] == Times(x[i], c)
    ensures Quad(m, y) == Times(Times(Quad(m, x), c), c)
  {
    var zero: Vec := seq(|x|, _ => 0.0);
    var mx := MatVec(m, x);
    forall i | 0 <= i < |x| ensures y[i] == Lin(zero, c, x)[i] { TimesCommutes(x[i], c); }
    assert y == Lin(zero, c, x);
    MatVecScales(m, zero, c, x);
    hide Times, Dot, Lin, MatVec;
    DotScales(zero, c, x, Lin(zero, c, mx));
    DotScales(zero, c, mx, x);
    TimesSwap(Dot(x, mx), c);
  }

  lemma TimesCommutes(x: real, c: real)
    ensures Times(x, c) == 0.0 + c * x
  {
  }

  lemma TimesSwap(x: real, c: real)
    ensures Times(c, Times(c, x)) == Times(Times(x, c), c)
  {
  }

  lemma {:induction false} IndependentScales(w: Book, vols: Dict<real>, c: real, n: nat)
    requires n <= |w|
    ensures IndependentVariance(ScaleAll(w, c), vols, n) == Times(Times(IndependentVariance(w, vols, n), c), c)
  {
    if n == 0 {
      assert Times(Times(0.0, c), c) == 0.0;
    } else {
      IndependentScales(w, vols, c, n - 1);
      SquareScales(IndependentVariance(w, vols, n - 1), w[n - 1].1, Get(vols, w[n - 1].0, 0.0), c);
    }
  }

  lemma SquareScales(sum: real, x: real, vol: real, c: real)
    ensures var a, b := Times(x, vol), Times(Times(x, c), vol);
            Times(Times(sum, c), c) + Times(b, b) == Times(Times(sum + Times(a, a), c), c)
  {
    var a, b := x * vol, (x * c) * vol;
    assert b == a * c;
    assert b * b == (a * a) * c * c;
  }

  lemma VarianceScales(w: Book, vols: Dict<real>, cov: Option<Covariance>, c: real)
    requires Shaped(cov)
    ensures Variance(ScaleAll(w, c), vols, cov) == Times(Times(Variance(w, vols, cov), c), c)
  {
    match cov
    case Some(k) =>
      var x, y := Aligned(w, k.syms), Aligned(ScaleAll(w, c), k.syms);
      forall i | 0 <= i < |x| ensures y[i] == Times(x[i], c) { IndexOfScaled(w, c, k.syms[i]); }
      QuadScales(k.sigma, x, y, c);
    case None =>
      IndependentScales(w, vols, c, |w|);
  }

  function NamesOf(w: Book): (r: seq<string>)
    ensures |r| == |w|
  {
    seq(|w|, i requires 0 <= i < |w| => w[i].0)
  }

  /** Squared volatilities on the diagonal, and nothing off it. */
  function Diagonal(names: seq<string>, vols: Dict<real>): (m: Mat)
    ensures |m| == |names| && Square(m)
  {
    seq(|names|, i requires 0 <= i < |names| =>
      seq(|names|, j => if j == i then Times(Get(vols, names[i], 0.0), Get(vols, names[i], 0.0)) else 0.0))
  }

  lemma {:induction false} OneTerm(row: Vec, x: Vec, i: nat, n: nat)
    requires |row| == |x| && n <= |x| && i < |x| && forall j :: 0 <= j < |x| && j != i ==> row[j] == 0.0
    ensures DotN(row, x, n) == if i < n then row[i] * x[i] else 0.0
  {
    if n > 0 { OneTerm(row, x, i, n - 1); }
  }

  lemma {:induction false} DiagonalForm(w: Book, vols: Dict<real>, n: nat)
    requires Distinct(w) && n <= |w|
    ensures var x := Aligned(w, NamesOf(w));
            DotN(x, MatVec(Diagonal(NamesOf(w), vols), x), n) == IndependentVariance(w, vols, n)
  {
    hide Get, Diagonal, Times, MatVec, Distinct;
    if n > 0 {
      DiagonalForm(w, vols, n - 1);
      var x, y := Aligned(w, NamesOf(w)), MatVec(Diagonal(NamesOf(w), vols), Aligned(w, NamesOf(w)));
      GetAt(w, n - 1, 0.0);
      DiagonalEntry(NamesOf(w), vols, x, n - 1);
      SquareTerm(x[n - 1], Get(vols, w[n - 1].0, 0.0), y[n - 1], x[n - 1] * y[n - 1]);
    }
  }

  lemma DiagonalEntry(names: seq<string>, vols: Dict<real>, x: Vec, i: nat)
    requires |x| == |names| && i < |x|
    ensures MatVec(Diagonal(names, vols), x)[i] ==
            Times(Times(Get(vols, names[i], 0.0), Get(vols, names[i], 0.0)), x[i])
  {
    hide Get;
    OneTerm(Diagonal(names, vols)[i], x, i, |x|);
  }

  lemma SquareTerm(x: real, vol: real, y: real, xy: real)
    requires y == Times(Times(vol, vol), x) && xy == x * y
    ensures xy == Times(Times(x, vol), Times(x, vol))
  {
    assert x * (vol * vol * x) == (x * vol) * (x * vol);
  }

  /** Without a covariance names count as independent: the variance is that under the diagonal covariance. */
  lemma IndependentIsDiagonal(w: Book, vols: Dict<real>)
    requires Distinct(w)
    ensures Variance(w, vols, None) ==
            Variance(w, vols, Some(Covariance(NamesOf(w), Diagonal(NamesOf(w), vols))))
  {
    DiagonalForm(w, vols, |w|);
  }

  /** Whenever the book before scaling has a positive variance, the returned book has exactly the
      target variance, with the full covariance and without it. */
  lemma VolatilityTargetHit(alphas: Book, vols: Dict<real>, target: real,
                            cov: Option<Covariance>, sqrt: real -> real)
    requires Shaped(cov) && IsSqrt(sqrt)
    requires Variance(InverseVol(alphas, vols), vols, cov) > 0.0
    ensures Variance(VolatilityTarget(alphas, vols, target, cov, sqrt), vols, cov) == target * target
  {
    var w := InverseVol(alphas, vols);
    var variance, vol := Variance(w, vols, cov), PortfolioVol(w, vols, cov, sqrt);
    hide Variance, ScaleAll, InverseVol;
    assert Times(0.0, 0.0) == 0.0;
    assert vol >= 0.0 && Times(vol, vol) == variance;
    VarianceScales(w, vols, cov, target / vol);
    TargetAlgebra(variance, vol, target);
  }

  lemma TargetAlgebra(variance: real, vol: real, target: real)
    requires vol > 0.0 && Times(vol, vol) == variance
    ensures Times(Times(variance, target / vol), target / vol) == target * target
  {
    var c := target / vol;
    assert vol * c == target;
    assert (vol * vol) * c * c == (vol * c) * (vol * c);
  }

  lemma SqrtOfZero(sqrt: real -> real)
    requires IsSqrt(sqrt)
    ensures sqrt(0.0) == 0.0
  {
    var zero := sqrt(0.0);
    if zero > 0.0 { var r := PositiveProduct(zero, zero); }
  }

  /** A book whose variance is not positive is returned unscaled. */
  lemma VolatilityTargetUnscaled(alphas: Book, vols: Dict<real>, target: real,
                                 cov: Option<Covariance>, sqrt: real -> real)
    requires Shaped(cov) && IsSqrt(sqrt)
    requires Variance(InverseVol(alphas, vols), vols, cov) <= 0.0
    ensures VolatilityTarget(alphas, vols, target, cov, sqrt) == InverseVol(alphas, vols)
  {
    SqrtOfZero(sqrt);
    hide Variance, Times;
  }

  lemma EntrySign(alpha: real, vol: real)
    requires alpha != 0.0 && vol > 0.0
    ensures Entry(alpha, vol) != 0.0 && (Entry(alpha, vol) > 0.0 <==> alpha > 0.0)
  {
    var u := 1.0 / vol;
    assert u > 0.0;
  }

  predicate SameSign(x: real, y: real) {
    x != 0.0 && y != 0.0 && (x > 0.0 <==> y > 0.0)
  }

  /** The entry stems from a name with a view, and has the sign of its alpha. */
  ghost predicate FromView(e: (string, real), alphas: Book) {
    exists j :: 0 <= j < |alphas| && alphas[j].0 == e.0 && SameSign(e.1, alphas[j].1)
  }

  ghost predicate Holds(w: Book, name: string) {
    exists i :: 0 <= i < |w| && w[i].0 == name
  }

  lemma {:induction false} SignsFromViews(alphas: Book, n: nat, i: nat)
    requires n <= |alphas| && i < |Signs(alphas, n)|
    ensures FromView(Signs(alphas, n)[i], alphas)
  {
    var before, signs := Signs(alphas, n - 1), Signs(alphas, n);
    if i < |before| {
      SignsFromViews(alphas, n - 1, i);
      assert signs[i] == before[i];
    } else {
      assert signs == before + [(alphas[n - 1].0, Sign(alphas[n - 1].1))];
      assert SameSign(signs[i].1, alphas[n - 1].1);
    }
  }

  lemma {:induction false} ViewsHaveSigns(alphas: Book, n: nat, j: nat)
    requires j < n <= |alphas| && alphas[j].1 != 0.0
    ensures Holds(Signs(alphas, n), alphas[j].0)
  {
    var before, signs := Signs(alphas, n - 1), Signs(alphas, n);
    if j == n - 1 {
      assert signs[|before|].0 == alphas[j].0;
    } else {
      ViewsHaveSigns(alphas, n - 1, j);
      var i :| 0 <= i < |before| && before[i].0 == alphas[j].0;
      assert signs[i] == before[i];
    }
  }

  /** Equal weights hold exactly the names with a view, all of one size, each with the sign of its alpha. */
  lemma EqualWeightBook(alphas: Book)
    ensures var w := EqualWeight(alphas);
            && (forall i :: 0 <= i < |w| ==> FromView(w[i], alphas) && Abs(w[i].1) == 1.0 / |w| as real)
            && (forall j :: 0 <= j < |alphas| && alphas[j].1 != 0.0 ==> Holds(w, alphas[j].0))
  {
    var signs, w := Signs(alphas, |alphas|), EqualWeight(alphas);
    hide FromView, Holds, Times;
    if |signs| > 0 {
      ReciprocalTimes(|signs| as real);
      var c := 1.0 / |signs| as real;
      forall i | 0 <= i < |w| ensures FromView(w[i], alphas) && Abs(w[i].1) == c {
        SignsFromViews(alphas, |alphas|, i);
        KeepsView(signs[i], c, alphas);
        AbsTimes(signs[i].1, c);
        TimesOne(c);
      }
    }
    forall j | 0 <= j < |alphas| && alphas[j].1 != 0.0 ensures Holds(w, alphas[j].0) {
      ViewsHaveSigns(alphas, |alphas|, j);
      HeldScaled(signs, w, alphas[j].0);
    }
  }

  lemma HeldScaled(a: Book, b: Book, name: string)
    requires |a| == |b| && (forall i :: 0 <= i < |a| ==> a[i].0 == b[i].0) && Holds(a, name)
    ensures Holds(b, name)
  {
    var i :| 0 <= i < |a| && a[i].0 == name;
    assert b[i].0 == name;
  }

  lemma {:induction false} EntriesFromViews(alphas: Book, vols: Dict<real>, n: nat, i: nat)
    requires n <= |alphas| && i < |SignedInverse(alphas, vols, n)|
    ensures FromView(SignedInverse(alphas, vols, n)[i], alphas)
  {
    var before, inv := SignedInverse(alphas, vols, n - 1), SignedInverse(alphas, vols, n);
    if i < |before| {
      EntriesFromViews(alphas, vols, n - 1, i);
      assert inv[i] == before[i];
    } else {
      var a, vol := alphas[n - 1], Get(vols, alphas[n - 1].0, 0.0);
      assert inv == before + [(a.0, Entry(a.1, vol))];
      EntrySign(a.1, vol);
    }
  }

  /** Every name with a view and a positive volatility has an entry. */
  lemma {:induction false} ViewsHaveEntries(alphas: Book, vols: Dict<real>, n: nat, j: nat)
    requires j < n <= |alphas| && alphas[j].1 != 0.0 && Get(vols, alphas[j].0, 0.0) > 0.0
    ensures Holds(SignedInverse(alphas, vols, n), alphas[j].0)
  {
    var before, inv := SignedInverse(alphas, vols, n - 1), SignedInverse(alphas, vols, n);
    if j == n - 1 {
      assert inv == before + [(alphas[j].0, Entry(alphas[j].1, Get(vols, alphas[j].0, 0.0)))];
      assert inv[|before|].0 == alphas[j].0;
    } else {
      ViewsHaveEntries(alphas, vols, n - 1, j);
      var i :| 0 <= i < |before| && before[i].0 == alphas[j].0;
      assert inv[i] == before[i];
    }
  }

  lemma {:induction false} GrossPositive(w: Book, i: nat, n: nat)
    requires i < n <= |w| && w[i].1 != 0.0
    ensures GrossN(w, Everything(), n) > 0.0
  {
    if i < n - 1 { GrossPositive(w, i, n - 1); }
  }

  /** Every entry's size is the inverse of its name's volatility, which is positive. */
  lemma {:induction false} EntriesInverse(alphas: Book, vols: Dict<real>, n: nat, i: nat)
    requires n <= |alphas| && i < |SignedInverse(alphas, vols, n)|
    ensures var e := SignedInverse(alphas, vols, n)[i];
            Get(vols, e.0, 0.0) > 0.0 && Times(Abs(e.1), Get(vols, e.0, 0.0)) == 1.0
  {
    hide Get, Times;
    var before, inv := SignedInverse(alphas, vols, n - 1), SignedInverse(alphas, vols, n);
    if i < |before| {
      EntriesInverse(alphas, vols, n - 1, i);
      assert inv[i] == before[i];
    } else {
      var a, vol := alphas[n - 1], Get(vols, alphas[n - 1].0, 0.0);
      assert inv == before + [(a.0, Entry(a.1, vol))];
      EntrySize(a.1, vol);
    }
  }

  lemma EntrySize(alpha: real, vol: real)
    requires vol > 0.0
    ensures Times(Abs(Entry(alpha, vol)), vol) == 1.0
  {
    var u := 1.0 / vol;
    assert u > 0.0 && u * vol == 1.0;
  }

  /** Before scaling, the sizes are in proportion to 1/volatility: size times volatility is the same for all
      names held, and all their volatilities are positive. */
  lemma InverseVolSizes(alphas: Book, vols: Dict<real>, i: nat)
    requires i < |InverseVol(alphas, vols)|
    ensures var w, tot := InverseVol(alphas, vols), Gross(SignedInverse(alphas, vols, |alphas|), Everything());
            tot > 0.0 && Get(vols, w[i].0, 0.0) > 0.0 && Times(Abs(w[i].1), Get(vols, w[i].0, 0.0)) == 1.0 / tot
  {
    hide Get, Times, Gross, SignedInverse, Abs;
    var inv := SignedInverse(alphas, vols, |alphas|);
    var tot := Gross(inv, Everything());
    EntriesInverse(alphas, vols, |alphas|, i);
    ReciprocalTimes(tot);
    AbsTimes(inv[i].1, 1.0 / tot);
    SwapFactors(Abs(inv[i].1), 1.0 / tot, Get(vols, inv[i].0, 0.0));
  }

  lemma SwapFactors(a: real, c: real, vol: real)
    requires Times(a, vol) == 1.0
    ensures Times(Times(a, c), vol) == c
  {
    assert a * c * vol == (a * vol) * c;
  }

  /** Before scaling, the book has gross 1 as soon as one name qualifies, and holds exactly the names
      with a view and a positive volatility, each with the sign of its alpha and in proportion to the
      inverse of its volatility. */
  lemma InverseVolBook(alphas: Book, vols: Dict<real>)
    ensures var w := InverseVol(alphas, vols);
            && (w != [] ==> Gross(w, Everything()) == 1.0)
            && (forall i :: 0 <= i < |w| ==> FromView(w[i], alphas) && Get(vols, w[i].0, 0.0) > 0.0)
            && (forall i, j :: 0 <= i < |w| && 0 <= j < |w| ==>
                  Times(Abs(w[i].1), Get(vols, w[i].0, 0.0)) == Times(Abs(w[j].1), Get(vols, w[j].0, 0.0)))
            && (forall j :: 0 <= j < |alphas| && alphas[j].1 != 0.0 && Get(vols, alphas[j].0, 0.0) > 0.0 ==>
                  Holds(w, alphas[j].0))
  {
    var n, inv := |alphas|, SignedInverse(alphas, vols, |alphas|);
    var w, tot := InverseVol(alphas, vols), Gross(inv, Everything());
    if |inv| > 0 {
      EntriesFromViews(alphas, vols, n, 0);
      GrossPositive(inv, 0, |inv|);
      assert tot > 0.0;
      hide Times, Gross, SignedInverse, Get, FromView, Holds;
      ReciprocalTimes(tot);
      GrossOfScaled(inv, 1.0 / tot);
      forall i | 0 <= i < |w| ensures FromView(w[i], alphas) {
        EntriesFromViews(alphas, vols, n, i);
        KeepsView(inv[i], 1.0 / tot, alphas);
      }
    }
    hide Times, Gross, SignedInverse, Get, FromView;
    forall i | 0 <= i < |w| ensures Get(vols, w[i].0, 0.0) > 0.0
                                    && Times(Abs(w[i].1), Get(vols, w[i].0, 0.0)) == 1.0 / tot
    {
      InverseVolSizes(alphas, vols, i);
    }
    forall j | 0 <= j < n && alphas[j].1 != 0.0 && Get(vols, alphas[j].0, 0.0) > 0.0
      ensures Holds(w, alphas[j].0)
    {
      ViewsHaveEntries(alphas, vols, n, j);
      var i :| 0 <= i < |inv| && inv[i].0 == alphas[j].0;
      assert w[i].0 == alphas[j].0;
    }
  }

  lemma KeepsView(e: (string, real), c: real, alphas: Book)
    requires c > 0.0 && FromView(e, alphas)
    ensures FromView((e.0, Times(e.1, c)), alphas)
  {
    var j :| 0 <= j < |alphas| && alphas[j].0 == e.0 && SameSign(e.1, alphas[j].1);
    TimesKeepsSign(e.1, c);
    assert alphas[j].0 == e.0;
  }

  lemma TimesKeepsSign(x: real, c: real)
    requires c > 0.0 && x != 0.0
    ensures SameSign(Times(x, c), x)
  {
    var r := PositiveProduct(x, if x > 0.0 then c else -c);
  }

  /** The names with a view and a positive volatility. */
  ghost predicate Eligible(alphas: Book, vols: Dict<real>, name: string) {
    Get(vols, name, 0.0) > 0.0 && exists j :: 0 <= j < |alphas| && alphas[j].0 == name && alphas[j].1 != 0.0
  }

  /** The returned book holds exactly the names with a view and a positive volatility, each with the sign of its
      alpha and with the same size times volatility, whether or not it was scaled. */
  lemma VolatilityTargetBook(alphas: Book, vols: Dict<real>, target: real,
                             cov: Option<Covariance>, sqrt: real -> real)
    requires Shaped(cov) && target > 0.0
    ensures var w := VolatilityTarget(alphas, vols, target, cov, sqrt);
            && (forall i :: 0 <= i < |w| ==> FromView(w[i], alphas))
            && (forall name :: Holds(w, name) <==> Eligible(alphas, vols, name))
            && (forall i, j :: 0 <= i < |w| && 0 <= j < |w| ==>
                  Times(Abs(w[i].1), Get(vols, w[i].0, 0.0)) == Times(Abs(w[j].1), Get(vols, w[j].0, 0.0)))
  {
    hide InverseVol, PortfolioVol, FromView, Holds, Eligible, Times, Get;
    var before, vol := InverseVol(alphas, vols), PortfolioVol(InverseVol(alphas, vols), vols, cov, sqrt);
    InverseVolBook(alphas, vols);
    forall name ensures Holds(before, name) <==> Eligible(alphas, vols, name) {
      HeldAreEligible(alphas, vols, name);
    }
    if vol > 0.0 {
      DividePositive(target, vol);
      var c := target / vol;
      var w := ScaleAll(before, c);
      forall i | 0 <= i < |w| ensures FromView(w[i], alphas) { KeepsView(before[i], c, alphas); }
      forall name ensures Holds(w, name) <==> Holds(before, name) { SameNames(before, w, name); }
      forall i, j | 0 <= i < |w| && 0 <= j < |w|
        ensures Times(Abs(w[i].1), Get(vols, w[i].0, 0.0)) == Times(Abs(w[j].1), Get(vols, w[j].0, 0.0))
      {
        RiskScales(before[i].1, c, Get(vols, before[i].0, 0.0));
        RiskScales(before[j].1, c, Get(vols, before[j].0, 0.0));
      }
    }
  }

  lemma HeldAreEligible(alphas: Book, vols: Dict<real>, name: string)
    ensures Holds(InverseVol(alphas, vols), name) <==> Eligible(alphas, vols, name)
  {
    hide InverseVol, Get, Gross, Times;
    InverseVolBook(alphas, vols);
    var w := InverseVol(alphas, vols);
    if Holds(w, name) {
      var i :| 0 <= i < |w| && w[i].0 == name;
      assert FromView(w[i], alphas);
    }
  }

  lemma SameNames(a: Book, b: Book, name: string)
    requires |a| == |b| && forall i :: 0 <= i < |a| ==> a[i].0 == b[i].0
    ensures Holds(a, name) <==> Holds(b, name)
  {
    if Holds(a, name) { HeldScaled(a, b, name); }
    if Holds(b, name) { HeldScaled(b, a, name); }
  }

  lemma RiskScales(x: real, c: real, vol: real)
    requires c > 0.0
    ensures Times(Abs(Times(x, c)), vol) == Times(Times(Abs(x), vol), c)
  {
    AbsTimes(x, c);
    var a := Abs(x);
    assert (a * c) * vol == (a * vol) * c;
  }

  // ---- risk parity ----

  /** Risk contributions w_i (Sigma w)_i; they sum to the variance. */
  function Contributions(m: Mat, w: Vec): (rc: Vec)
    requires Square(m) && |w| == |m|
    ensures |rc| == |w|
  {
    seq(|w|, i requires 0 <= i < |w| => Times(w[i], MatVec(m, w)[i]))
  }

  lemma {:induction false} ContributionsSum(m: Mat, w: Vec, n: nat)
    requires Square(m) && |w| == |m| && n <= |w|
    ensures SumN(Contributions(m, w), n) == DotN(w, MatVec(m, w), n)
  {
    if n > 0 { ContributionsSum(m, w, n - 1); }
  }

  function Floored(x: real, floor: real): real {
    if x < floor then floor else x
  }

  /** Weights pushed towards an equal contribution and floored, before renormalising. */
  function Pushed(m: Mat, w: Vec, sqrt: real -> real): (r: Vec)
    requires Square(m) && |w| == |m| > 0
    ensures |r| == |w|
    ensures forall i :: 0 <= i < |r| ==> r[i] >= MIN_WEIGHT
  {
    var rc := Contributions(m, w);
    var target := Sum(rc) / |w| as real;
    seq(|w|, i requires 0 <= i < |w| =>
      Floored(Times(w[i], sqrt(target / Floored(rc[i], MIN_CONTRIBUTION))), MIN_WEIGHT))
  }

  function Normalised(v: Vec): (r: Vec)
    requires Sum(v) > 0.0
    ensures |r| == |v|
  {
    seq(|v|, i requires 0 <= i < |v| => v[i] / Sum(v))
  }

  lemma SumPositive(v: Vec, floor: real)
    requires |v| > 0 && floor > 0.0 && forall i :: 0 <= i < |v| ==> v[i] >= floor
    ensures Sum(v) > 0.0
  {
    SumNAtLeast(v, floor, |v|);
  }

  lemma {:induction false} SumNAtLeast(v: Vec, floor: real, n: nat)
    requires n <= |v| && floor > 0.0 && forall i :: 0 <= i < |v| ==> v[i] >= floor
    ensures SumN(v, n) >= 0.0 && (n > 0 ==> SumN(v, n) > 0.0)
  {
    if n > 0 { SumNAtLeast(v, floor, n - 1); }
  }

  /** A step from w: unchanged once the total contribution is not positive, which ends the loop. */
  function ParityStep(m: Mat, w: Vec, sqrt: real -> real): (r: Vec)
    requires Square(m) && |w| == |m| > 0
    ensures |r| == |w|
  {
    if Sum(Contributions(m, w)) <= 0.0 then w
    else
      var p := Pushed(m, w, sqrt);
      SumPositive(p, MIN_WEIGHT);
      Normalised(p)
  }

  /** One step entry by entry: in proportion to the weight times the root of the mean contribution over its own, the
      contribution taken as at least 1e-12 and the result as at least 1e-9; no step at all once the variance, which
      the contributions add up to, is not positive. */
  lemma ParityStepIs(m: Mat, w: Vec, sqrt: real -> real, i: nat)
    requires Square(m) && |w| == |m| && i < |m|
    ensures Quad(m, w) <= 0.0 ==> ParityStep(m, w, sqrt) == w
    ensures Quad(m, w) > 0.0 ==>
              var own := Times(w[i], Dot(m[i], w));
              var pushed := Times(w[i], sqrt(Quad(m, w) / |m| as real / (if own > 1e-12 then own else 1e-12)));
              Times(ParityStep(m, w, sqrt)[i], Sum(Pushed(m, w, sqrt))) == if pushed > 1e-9 then pushed else 1e-9
  {
    hide SumN, DotN, Times;
    ContributionsSum(m, w, |w|);
    if Quad(m, w) > 0.0 {
      var p := Pushed(m, w, sqrt);
      SumPositive(p, MIN_WEIGHT);
      QuotientBack(p[i], Sum(p));
    }
  }

  lemma QuotientBack(x: real, s: real)
    requires s != 0.0
    ensures Times(x / s, s) == x
  {
  }

  function ParityIterate(m: Mat, sqrt: real -> real, k: nat): (r: Vec)
    requires Square(m) && |m| > 0
    ensures |r| == |m|
  {
    if k == 0 then seq(|m|, _ => 1.0 / |m| as real) else ParityStep(m, ParityIterate(m, sqrt, k - 1), sqrt)
  }

  /** Fully invested and long. */
  ghost predicate Simplex(w: Vec) {
    (forall i :: 0 <= i < |w| ==> w[i] > 0.0) && Sum(w) == 1.0
  }

  lemma NormalisedSimplex(v: Vec)
    requires |v| > 0 && Sum(v) > 0.0 && forall i :: 0 <= i < |v| ==> v[i] > 0.0
    ensures Simplex(Normalised(v))
  {
    hide SumN;
    var s, r := Sum(v), Normalised(v);
    forall i | 0 <= i < |v| ensures r[i] == Times(v[i], 1.0 / s) && r[i] > 0.0 { DivideAsTimes(v[i], s); }
    SumOfScaled(v, r, 1.0 / s, |v|);
    ReciprocalTimes(s);
  }

  lemma {:induction false} SumOfScaled(v: Vec, r: Vec, c: real, n: nat)
    requires |v| == |r| && n <= |v| && forall i :: 0 <= i < |v| ==> r[i] == Times(v[i], c)
    ensures SumN(r, n) == Times(SumN(v, n), c)
  {
    hide Times;
    if n == 0 {
      TimesZero(c);
    } else {
      SumOfScaled(v, r, c, n - 1);
      TimesAdds(SumN(v, n - 1), v[n - 1], c);
    }
  }

  lemma DivideAsTimes(x: real, s: real)
    requires s > 0.0 && x > 0.0
    ensures x / s == Times(x, 1.0 / s) && x / s > 0.0
  {
  }

  lemma {:induction false} IteratesOnSimplex(m: Mat, sqrt: real -> real, k: nat)
    requires Square(m) && |m| > 0
    ensures Simplex(ParityIterate(m, sqrt, k))
  {
    hide Contributions, Pushed, SumN, Simplex;
    var n := |m| as real;
    if k == 0 {
      EvenSimplex(ParityIterate(m, sqrt, 0), 1.0 / n);
    } else {
      IteratesOnSimplex(m, sqrt, k - 1);
      var w := ParityIterate(m, sqrt, k - 1);
      if Sum(Contributions(m, w)) > 0.0 {
        var p := Pushed(m, w, sqrt);
        SumPositive(p, MIN_WEIGHT);
        NormalisedSimplex(p);
      }
    }
  }

  lemma EvenSimplex(w: Vec, u: real)
    requires |w| > 0 && u == 1.0 / |w| as real && forall i :: 0 <= i < |w| ==> w[i] == u
    ensures Simplex(w)
  {
    SumNConstant(w, |w|, u);
    ReciprocalTimes(|w| as real);
    hide SumN;
    assert Sum(w) == Times(|w| as real, u);
  }

  /** Equal-risk-contribution weights by fixed-point iteration; alpha gives the signs, and a name
      without a view counts as long. */
  method RiskParity(symbols: seq<string>, cov: Mat, alphas: Book, iters: nat, sqrt: real -> real)
    returns (r: Book)
    requires Square(cov) && |cov| == |symbols|
    ensures |r| == |symbols|
    ensures forall i :: 0 <= i < |r| ==>
              r[i] == (symbols[i], Times(ParityIterate(cov, sqrt, iters)[i], Sign(Get(alphas, symbols[i], 0.0))))
    ensures forall i :: 0 <= i < |r| ==> (r[i].1 < 0.0 <==> Get(alphas, symbols[i], 0.0) < 0.0)
    ensures |symbols| > 0 ==> Gross(r, Everything()) == 1.0
  {
    hide Contributions, SumN, Pushed, Normalised, Times, Get;
    var n := |symbols|;
    if n == 0 { return []; }
    var w: Vec := seq(n, _ => 1.0 / n as real);
    var k := 0;
    while k < iters
      invariant k <= iters && w == ParityIterate(cov, sqrt, k)
    {
      var rc := Contributions(cov, w);
      var total := Sum(rc);
      if total <= 0.0 {
        Settled(cov, sqrt, k, iters);
        break;
      }
      var p := Pushed(cov, w, sqrt);
      SumPositive(p, MIN_WEIGHT);
      w := Normalised(p);
      k := k + 1;
    }
    assert w == ParityIterate(cov, sqrt, iters);
    IteratesOnSimplex(cov, sqrt, iters);
    r := seq(n, i requires 0 <= i < n => (symbols[i], Times(w[i], Sign(Get(alphas, symbols[i], 0.0)))));
    hide ParityIterate;
    forall i | 0 <= i < n ensures r[i].1 < 0.0 <==> Get(alphas, symbols[i], 0.0) < 0.0 {
      SignedWeight(w[i], Get(alphas, symbols[i], 0.0));
    }
    GrossOfSigned(r, w, n);
  }

  lemma SignedWeight(w: real, alpha: real)
    requires w > 0.0
    ensures Times(w, Sign(alpha)) < 0.0 <==> alpha < 0.0
  {
  }

  lemma {:induction false} Settled(m: Mat, sqrt: real -> real, k: nat, l: nat)
    requires Square(m) && |m| > 0 && k <= l
    requires Sum(Contributions(m, ParityIterate(m, sqrt, k))) <= 0.0
    ensures ParityIterate(m, sqrt, l) == ParityIterate(m, sqrt, k)
  {
    hide Contributions, Sum, Pushed, Normalised;
    if k < l { Settled(m, sqrt, k, l - 1); }
  }

  lemma {:induction false} GrossOfSigned(r: Book, w: Vec, n: nat)
    requires |r| == |w| && n <= |r|
    requires forall i :: 0 <= i < |r| ==> w[i] > 0.0 && (r[i].1 == Times(w[i], 1.0) || r[i].1 == Times(w[i], -1.0))
    ensures GrossN(r, Everything(), n) == SumN(w, n)
  {
    if n > 0 { GrossOfSigned(r, w, n - 1); }
  }

  // ---- equal risk contributions ----

  /** Both floors are out of play at w. */
  ghost predicate FloorsInactive(m: Mat, w: Vec, sqrt: real -> real)
    requires Square(m) && |w| == |m| > 0
  {
    var rc := Contributions(m, w);
    var target := Sum(rc) / |w| as real;
    forall i :: 0 <= i < |w| ==>
      rc[i] >= MIN_CONTRIBUTION && Times(w[i], sqrt(target / rc[i])) >= MIN_WEIGHT
  }

  /** Each name contributes the same share of the variance. */
  ghost predicate EqualContributions(m: Mat, w: Vec)
    requires Square(m) && |w| == |m| > 0
  {
    forall i :: 0 <= i < |w| ==> Contributions(m, w)[i] == Quad(m, w) / |w| as real
  }

  lemma RootOf(sqrt: real -> real, target: real, rc: real)
    requires IsSqrt(sqrt) && target > 0.0 && rc > 0.0
    ensures var s := sqrt(target / rc); s > 0.0 && s * s * rc == target
  {
    var q := target / rc;
    assert q * rc == target;
    DividePositive(target, rc);
    var s := sqrt(q);
    assert Times(s, s) == q;
    if s == 0.0 { assert false; }
  }

  /** With the floors out of play a step multiplies a weight by a root of target / contribution and
      normalises. */
  lemma StepFactor(m: Mat, w: Vec, sqrt: real -> real, i: nat) returns (s: real)
    requires Square(m) && |w| == |m| > 0 && i < |w| && IsSqrt(sqrt) && FloorsInactive(m, w, sqrt)
    ensures var rc, total := Contributions(m, w), Sum(Pushed(m, w, sqrt));
            && rc[i] > 0.0 && s > 0.0 && total > 0.0
            && s * s * rc[i] == Sum(rc) / |w| as real
            && Times(w[i], s) >= MIN_WEIGHT
            && ParityStep(m, w, sqrt)[i] == Times(w[i], s) / total
  {
    hide Contributions, Sum, SumN, Times, IsSqrt;
    var rc, p := Contributions(m, w), Pushed(m, w, sqrt);
    SumPositive(rc, MIN_CONTRIBUTION);
    SumPositive(p, MIN_WEIGHT);
    var target := Sum(rc) / |w| as real;
    DividePositive(Sum(rc), |w| as real);
    RootOf(sqrt, target, rc[i]);
    s := sqrt(target / rc[i]);
    assert p[i] == Times(w[i], s);
    assert ParityStep(m, w, sqrt) == Normalised(p);
  }

  lemma FixedPointEntry(m: Mat, w: Vec, sqrt: real -> real, i: nat)
    requires Square(m) && |w| == |m| > 0 && i < |w| && IsSqrt(sqrt) && w[i] > 0.0
    requires FloorsInactive(m, w, sqrt) && ParityStep(m, w, sqrt) == w
    ensures var rc, total := Contributions(m, w), Sum(Pushed(m, w, sqrt));
            total > 0.0 && Times(rc[i], Times(total, total)) == Sum(rc) / |w| as real
  {
    hide Contributions, Sum, Times, Pushed, ParityStep, IsSqrt, FloorsInactive;
    var rc, total := Contributions(m, w), Sum(Pushed(m, w, sqrt));
    var s := StepFactor(m, w, sqrt, i);
    SameFactor(w[i], s, total, rc[i], Sum(rc) / |w| as real);
  }

  /** At a fixed point of the update with both floors out of play, risk contributions are equal. */
  lemma FixedPointIsParity(m: Mat, w: Vec, sqrt: real -> real)
    requires Square(m) && |w| == |m| > 0 && IsSqrt(sqrt) && Simplex(w)
    requires FloorsInactive(m, w, sqrt) && ParityStep(m, w, sqrt) == w
    ensures EqualContributions(m, w)
  {
    hide Contributions, Sum, Times, Pushed, ParityStep, IsSqrt, FloorsInactive;
    var rc, total := Contributions(m, w), Sum(Pushed(m, w, sqrt));
    forall i | 0 <= i < |w| { FixedPointEntry(m, w, sqrt, i); }
    forall i | 0 <= i < |w| ensures rc[i] == rc[0] {
      CancelSquare(rc[i], rc[0], total);
    }
    MeanOfEqual(rc);
    VarianceIsSum(m, w);
  }

  lemma SameFactor(w: real, s: real, total: real, rc: real, target: real)
    requires w > 0.0 && s > 0.0 && total > 0.0 && Times(w, s) / total == w && s * s * rc == target
    ensures Times(rc, Times(total, total)) == target
  {
    assert w * s == w * total;
    if s > total { var r := PositiveProduct(w, s - total); }
    if s < total { var r := PositiveProduct(w, total - s); }
    assert rc * (s * s) == target;
  }

  lemma DividePositive(x: real, n: real)
    requires x > 0.0 && n > 0.0
    ensures x / n > 0.0
  {
  }

  lemma VarianceIsSum(m: Mat, w: Vec)
    requires Square(m) && |w| == |m|
    ensures Sum(Contributions(m, w)) == Quad(m, w)
  {
    ContributionsSum(m, w, |w|);
  }

  lemma MeanOfEqual(rc: Vec)
    requires |rc| > 0 && forall i :: 0 <= i < |rc| ==> rc[i] == rc[0]
    ensures Sum(rc) / |rc| as real == rc[0]
  {
    SumNConstant(rc, |rc|, rc[0]);
    var n, total := |rc| as real, Sum(rc);
    hide Sum, SumN;
    assert total == n * rc[0];
    ShareOfSum(rc[0], n);
  }

  lemma CancelSquare(a: real, b: real, total: real)
    requires total > 0.0 && Times(a, Times(total, total)) == Times(b, Times(total, total))
    ensures a == b
  {
    var t := PositiveProduct(total, total);
    if a > b { var r := PositiveProduct(a - b, t); }
    if a < b { var r := PositiveProduct(b - a, t); }
  }

  lemma ShareOfSum(c: real, n: real)
    requires n > 0.0
    ensures (n * c) / n == c
  {
  }

  /** Conversely, equal contributions are left alone by the update. */
  lemma ParityIsFixedPoint(m: Mat, w: Vec, sqrt: real -> real)
    requires Square(m) && |w| == |m| > 0 && IsSqrt(sqrt) && Simplex(w)
    requires forall i :: 0 <= i < |w| ==> w[i] >= MIN_WEIGHT && Contributions(m, w)[i] >= MIN_CONTRIBUTION
    requires EqualContributions(m, w)
    ensures ParityStep(m, w, sqrt) == w
  {
    var rc := Contributions(m, w);
    VarianceIsSum(m, w);
    SqrtOfOne(sqrt);
    SumPositive(rc, MIN_CONTRIBUTION);
    var target := Sum(rc) / |w| as real;
    hide Contributions, Sum, Quad, Times;
    forall i | 0 <= i < |w| ensures Pushed(m, w, sqrt)[i] == w[i] {
      assert rc[i] == target && Floored(rc[i], MIN_CONTRIBUTION) == rc[i];
      SelfRatio(target);
      TimesOne(w[i]);
    }
    assert Pushed(m, w, sqrt) == w;
    assert Normalised(w) == w;
  }

  lemma SelfRatio(x: real)
    requires x > 0.0
    ensures x / x == 1.0
  {
  }

  lemma SqrtOfOne(sqrt: real -> real)
    requires IsSqrt(sqrt)
    ensures sqrt(1.0) == 1.0
  {
    var s := sqrt(1.0);
    assert s * s == 1.0;
    if s > 1.0 { var r := PositiveProduct(s - 1.0, s + 1.0); }
    if s < 1.0 { var r := PositiveProduct(1.0 - s, s + 1.0); }
  }
}
