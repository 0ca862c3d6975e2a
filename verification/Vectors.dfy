/** Finite real vectors and square matrices: sums, inner products, quadratic forms.
    Every vector operation the optimiser needs is the single combination `Lin(x, c, y)`, x + c*y. */
module Vectors {

  type Vec = seq<real>
  type Mat = seq<Vec>

  /** Sum of the first n entries. */
  function SumN(x: Vec, n: nat): real
    requires n <= |x|
  {
    if n == 0 then 0.0 else SumN(x, n - 1) + x[n - 1]
  }

  function Sum(x: Vec): real {
    SumN(x, |x|)
  }

  /** Inner product of the first n entries. */
  function DotN(x: Vec, y: Vec, n: nat): real
    requires n <= |x| && n <= |y|
  {
    if n == 0 then 0.0 else DotN(x, y, n - 1) + x[n - 1] * y[n - 1]
  }

  function Dot(x: Vec, y: Vec): real
    requires |x| == |y|
  {
    DotN(x, y, |x|)
  }

  /** x + c*y, entry by entry. */
  function Lin(x: Vec, c: real, y: Vec): (r: Vec)
    requires |x| == |y|
    ensures |r| == |x|
  {
    seq(|x|, i requires 0 <= i < |x| => x[i] + c * y[i])
  }

  /** Squared Euclidean distance. */
  function DistSq(x: Vec, y: Vec): real
    requires |x| == |y|
  {
    Dot(Lin(x, -1.0, y), Lin(x, -1.0, y))
  }

  ghost predicate Square(m: Mat) {
    forall i :: 0 <= i < |m| ==> |m[i]| == |m|
  }

  ghost predicate Symmetric(m: Mat)
    requires Square(m)
  {
    forall i, j :: 0 <= i < |m| && 0 <= j < |m| ==> m[i][j] == m[j][i]
  }

  function MatVec(m: Mat, x: Vec): (r: Vec)
    requires forall i :: 0 <= i < |m| ==> |m[i]| == |x|
    ensures |r| == |m|
  {
    seq(|m|, i requires 0 <= i < |m| => Dot(m[i], x))
  }

  /** The quadratic form x'Mx: portfolio variance when m is a covariance matrix. */
  function Quad(m: Mat, x: Vec): real
    requires Square(m) && |x| == |m|
  {
    Dot(x, MatVec(m, x))
  }

  /** Positive semi-definite, and bounded above by lam times the squared length. */
  ghost predicate Psd(m: Mat)
    requires Square(m)
  {
    forall d: Vec :: |d| == |m| ==> Quad(m, d) >= 0.0
  }

  ghost predicate BoundedBy(m: Mat, lam: real)
    requires Square(m)
  {
    forall d: Vec :: |d| == |m| ==> Quad(m, d) <= lam * Dot(d, d)
  }

  // ---- linearity ----

  lemma {:induction false} DotNLinear(x: Vec, c: real, y: Vec, z: Vec, n: nat)
    requires |x| == |y| == |z| && n <= |x|
    ensures DotN(Lin(x, c, y), z, n) == DotN(x, z, n) + c * DotN(y, z, n)
  {
    if n > 0 {
      DotNLinear(x, c, y, z, n - 1);
      var u, v := DotN(y, z, n - 1), y[n - 1] * z[n - 1];
      assert (x[n - 1] + c * y[n - 1]) * z[n - 1] == x[n - 1] * z[n - 1] + c * v;
      assert c * (u + v) == c * u + c * v;
    }
  }

  lemma {:induction false} DotNSymmetric(x: Vec, y: Vec, n: nat)
    requires n <= |x| && n <= |y|
    ensures DotN(x, y, n) == DotN(y, x, n)
  {
    if n > 0 { DotNSymmetric(x, y, n - 1); }
  }

  lemma DotLinear(x: Vec, c: real, y: Vec, z: Vec)
    requires |x| == |y| == |z|
    ensures Dot(Lin(x, c, y), z) == Dot(x, z) + c * Dot(y, z)
    ensures Dot(z, Lin(x, c, y)) == Dot(z, x) + c * Dot(z, y)
  {
    DotNLinear(x, c, y, z, |x|);
    DotNSymmetric(Lin(x, c, y), z, |x|);
    DotNSymmetric(x, z, |x|);
    DotNSymmetric(y, z, |x|);
  }

  lemma {:induction false} DotNSelfNonNegative(x: Vec, n: nat)
    requires n <= |x|
    ensures DotN(x, x, n) >= 0.0
  {
    if n > 0 {
      DotNSelfNonNegative(x, n - 1);
      assert x[n - 1] * x[n - 1] >= 0.0;
    }
  }

  lemma Expand(a: real, b: real, d: real, c: real)
    ensures (a + c * b) + c * (b + c * d) == a + 2.0 * c * b + c * c * d
  {
    assert c * (b + c * d) == c * b + c * c * d;
  }

  /** |x + c*y|^2 = |x|^2 + 2c x.y + c^2 |y|^2 */
  lemma DotSelfLinear(x: Vec, c: real, y: Vec)
    requires |x| == |y|
    ensures Dot(Lin(x, c, y), Lin(x, c, y)) == Dot(x, x) + 2.0 * c * Dot(x, y) + c * c * Dot(y, y)
  {
    var z := Lin(x, c, y);
    DotLinear(x, c, y, z);
    DotLinear(x, c, y, x);
    DotLinear(x, c, y, y);
    DotNSymmetric(x, y, |x|);
    var xx, xy, yy := Dot(x, x), Dot(x, y), Dot(y, y);
    Expand(xx, xy, yy, c);
  }

  lemma {:induction false} SumNLinear(x: Vec, c: real, y: Vec, n: nat)
    requires |x| == |y| && n <= |x|
    ensures SumN(Lin(x, c, y), n) == SumN(x, n) + c * SumN(y, n)
  {
    if n > 0 {
      SumNLinear(x, c, y, n - 1);
      var u, v := SumN(y, n - 1), y[n - 1];
      assert c * (u + v) == c * u + c * v;
    }
  }

  function Ones(n: nat): (r: Vec)
    ensures |r| == n
  {
    seq(n, _ => 1.0)
  }

  lemma {:induction false} DotNOnes(x: Vec, n: nat)
    requires n <= |x|
    ensures DotN(Ones(|x|), x, n) == SumN(x, n)
  {
    if n > 0 { DotNOnes(x, n - 1); }
  }

  lemma {:induction false} DotNOpposite(x: Vec, y: Vec, n: nat)
    requires n <= |x| && n <= |y|
    requires forall i :: 0 <= i < n ==> x[i] * y[i] <= 0.0
    ensures DotN(x, y, n) <= 0.0
  {
    if n > 0 { DotNOpposite(x, y, n - 1); }
  }

  lemma {:induction false} SumNBetween(w: Vec, n: nat, lo: real, hi: real)
    requires n <= |w| && forall i :: 0 <= i < n ==> lo <= w[i] <= hi
    ensures n as real * lo <= SumN(w, n) <= n as real * hi
  {
    if n > 0 {
      SumNBetween(w, n - 1, lo, hi);
      assert n as real * lo == (n - 1) as real * lo + lo;
      assert n as real * hi == (n - 1) as real * hi + hi;
    }
  }

  lemma SumOfTwo(v: Vec)
    requires |v| == 2
    ensures Sum(v) == v[0] + v[1]
  {
    assert SumN(v, 1) == SumN(v, 0) + v[0];
  }

  lemma DotOfTwo(p: real, q: real, v: Vec)
    requires |v| == 2
    ensures Dot([p, q], v) == p * v[0] + q * v[1]
  {
    assert DotN([p, q], v, 1) == DotN([p, q], v, 0) + p * v[0];
  }

  lemma SumNConstant(w: Vec, n: nat, c: real)
    requires n <= |w| && forall i :: 0 <= i < n ==> w[i] == c
    ensures SumN(w, n) == n as real * c
  {
    SumNBetween(w, n, c, c);
  }

  // ---- symmetric quadratic forms ----

  /** Sum over rows i < p of x[i] * m[i]. */
  ghost function RowComb(m: Mat, x: Vec, p: nat): (r: Vec)
    requires Square(m) && |x| == |m| && p <= |m|
    ensures |r| == |m|
  {
    if p == 0 then seq(|m|, _ => 0.0) else Lin(RowComb(m, x, p - 1), x[p - 1], m[p - 1])
  }

  lemma {:induction false} DotNZero(x: Vec, y: Vec, n: nat)
    requires n <= |x| && n <= |y| && forall i :: 0 <= i < n ==> x[i] == 0.0
    ensures DotN(x, y, n) == 0.0
  {
    if n > 0 { DotNZero(x, y, n - 1); }
  }

  lemma {:induction false} RowCombDot(m: Mat, x: Vec, y: Vec, p: nat)
    requires Square(m) && |x| == |y| == |m| && p <= |m|
    ensures Dot(RowComb(m, x, p), y) == DotN(x, MatVec(m, y), p)
  {
    if p == 0 {
      DotNZero(RowComb(m, x, 0), y, |m|);
    } else {
      RowCombDot(m, x, y, p - 1);
      DotLinear(RowComb(m, x, p - 1), x[p - 1], m[p - 1], y);
    }
  }

  lemma {:induction false} RowCombEntry(m: Mat, x: Vec, p: nat, j: nat)
    requires Square(m) && Symmetric(m) && |x| == |m| && p <= |m| && j < |m|
    ensures RowComb(m, x, p)[j] == DotN(m[j], x, p)
  {
    if p > 0 { RowCombEntry(m, x, p - 1, j); }
  }

  /** For a symmetric matrix, x.(My) = y.(Mx). */
  lemma SelfAdjoint(m: Mat, x: Vec, y: Vec)
    requires Square(m) && Symmetric(m) && |x| == |y| == |m|
    ensures Dot(x, MatVec(m, y)) == Dot(y, MatVec(m, x))
  {
    RowCombDot(m, x, y, |m|);
    forall j | 0 <= j < |m| ensures RowComb(m, x, |m|)[j] == MatVec(m, x)[j] {
      RowCombEntry(m, x, |m|, j);
    }
    assert RowComb(m, x, |m|) == MatVec(m, x);
    DotNSymmetric(MatVec(m, x), y, |m|);
  }

  lemma MatVecLinear(m: Mat, x: Vec, c: real, y: Vec)
    requires Square(m) && |x| == |y| == |m|
    ensures MatVec(m, Lin(x, c, y)) == Lin(MatVec(m, x), c, MatVec(m, y))
  {
    forall i | 0 <= i < |m|
      ensures MatVec(m, Lin(x, c, y))[i] == Lin(MatVec(m, x), c, MatVec(m, y))[i]
    {
      DotLinear(x, c, y, m[i]);
    }
  }

  /** (x + c*y)'M(x + c*y) = x'Mx + 2c y.(Mx) + c^2 y'My */
  lemma QuadLinear(m: Mat, x: Vec, c: real, y: Vec)
    requires Square(m) && Symmetric(m) && |x| == |y| == |m|
    ensures Quad(m, Lin(x, c, y)) == Quad(m, x) + 2.0 * c * Dot(y, MatVec(m, x)) + c * c * Quad(m, y)
  {
    var mx, my := MatVec(m, x), MatVec(m, y);
    MatVecLinear(m, x, c, y);
    DotLinear(x, c, y, Lin(mx, c, my));
    DotLinear(mx, c, my, x);
    DotLinear(mx, c, my, y);
    SelfAdjoint(m, x, y);
    var a, b, d := Dot(x, mx), Dot(y, mx), Dot(y, my);
    Expand(a, b, d, c);
  }
}
