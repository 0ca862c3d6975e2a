/** What the signs of the alphas do to equal risk contributions: the iteration evens out the contributions of
    the long weights, and the signs are put on afterwards. */
module RiskParitySigns {
  import opened Reals
  import opened Vectors
  import opened Sizing

  ghost predicate Signs(s: Vec) {
    forall i :: 0 <= i < |s| ==> s[i] == 1.0 || s[i] == -1.0
  }

  /** The weights as they are returned. */
  function Signed(w: Vec, s: Vec): (r: Vec)
    requires |w| == |s|
    ensures |r| == |w|
  {
    seq(|w|, i requires 0 <= i < |w| => Times(w[i], s[i]))
  }

  /** The marginal risk that the first n names on the other side than `side` bring. */
  function Across(row: Vec, w: Vec, s: Vec, side: real, n: nat): real
    requires n <= |row| && n <= |w| && n <= |s|
  {
    if n == 0 then 0.0
    else Across(row, w, s, side, n - 1) + if s[n - 1] == side then 0.0 else row[n - 1] * w[n - 1]
  }

  /** A name's joint risk with the names on the other side. */
  function Hedged(m: Mat, w: Vec, s: Vec, i: nat): real
    requires Square(m) && |w| == |s| == |m| && i < |m|
  {
    Times(w[i], Across(m[i], w, s, s[i], |m|))
  }

  lemma {:induction false} SignedDot(row: Vec, w: Vec, s: Vec, side: real, n: nat)
    requires |w| == |s| && n <= |row| && n <= |w| && Signs(s) && (side == 1.0 || side == -1.0)
    ensures DotN(row, Signed(w, s), n) == Times(side, DotN(row, w, n) - 2.0 * Across(row, w, s, side, n))
  {
    hide Times;
    if n == 0 {
      TimesZero(side);
    } else {
      SignedDot(row, w, s, side, n - 1);
      var v, t := row[n - 1] * Signed(w, s)[n - 1], row[n - 1] * w[n - 1];
      SignedTerm(row[n - 1], w[n - 1], s[n - 1], side, v, t,
                 DotN(row, w, n - 1) - 2.0 * Across(row, w, s, side, n - 1));
    }
  }

  lemma SignedTerm(a: real, w: real, s: real, side: real, v: real, t: real, before: real)
    requires (s == 1.0 || s == -1.0) && (side == 1.0 || side == -1.0)
    requires v == a * Times(w, s) && t == a * w
    ensures Times(side, before) + v == Times(side, before + t - 2.0 * (if s == side then 0.0 else t))
  {
  }

  /** A signed name contributes what it did before, less twice its joint risk with the other side. */
  lemma SignedContribution(m: Mat, w: Vec, s: Vec, i: nat)
    requires Square(m) && |w| == |s| == |m| && i < |m| && Signs(s)
    ensures Contributions(m, Signed(w, s))[i] == Contributions(m, w)[i] - 2.0 * Hedged(m, w, s, i)
  {
    SignedDot(m[i], w, s, s[i], |m|);
    hide DotN, Across, Times;
    SignsCancel(w[i], s[i], DotN(m[i], w, |m|), Across(m[i], w, s, s[i], |m|));
  }

  lemma SignsCancel(w: real, s: real, d: real, a: real)
    requires s == 1.0 || s == -1.0
    ensures Times(Times(w, s), Times(s, d - 2.0 * a)) == Times(w, d) - 2.0 * Times(w, a)
  {
  }

  /** Equal contributions are those that agree with the first. */
  lemma EqualIff(m: Mat, w: Vec)
    requires Square(m) && |w| == |m| > 0
    ensures EqualContributions(m, w) <==> forall i :: 0 <= i < |w| ==> Contributions(m, w)[i] == Contributions(m, w)[0]
  {
    hide Contributions, Quad;
    VarianceIsSum(m, w);
    var rc := Contributions(m, w);
    if forall i :: 0 <= i < |w| ==> rc[i] == rc[0] { MeanOfEqual(rc); }
  }

  /** Signs keep equal contributions equal exactly when every name has the same joint risk with the names on the
      other side. */
  lemma SignsKeepParityIff(m: Mat, w: Vec, s: Vec)
    requires Square(m) && |w| == |s| == |m| > 0 && Signs(s) && EqualContributions(m, w)
    ensures EqualContributions(m, Signed(w, s)) <==>
            forall i :: 0 <= i < |m| ==> Hedged(m, w, s, i) == Hedged(m, w, s, 0)
  {
    EqualIff(m, w);
    EqualIff(m, Signed(w, s));
    hide Contributions, EqualContributions, Hedged, Signs;
    forall i | 0 <= i < |m|
      ensures Contributions(m, Signed(w, s))[i] == Contributions(m, w)[i] - 2.0 * Hedged(m, w, s, i)
    {
      SignedContribution(m, w, s, i);
    }
    var rc, signed := Contributions(m, w), Contributions(m, Signed(w, s));
    assert forall i :: 0 <= i < |m| ==> rc[i] == rc[0];
    assert forall i :: 0 <= i < |m| ==> (signed[i] == signed[0] <==> Hedged(m, w, s, i) == Hedged(m, w, s, 0));
  }

  /** Two names stay even whatever their signs. */
  lemma TwoStayEven(m: Mat, w: Vec, s: Vec)
    requires Square(m) && Symmetric(m) && |w| == |s| == |m| == 2 && Signs(s) && EqualContributions(m, w)
    ensures EqualContributions(m, Signed(w, s))
  {
    hide EqualContributions, Contributions;
    SignsKeepParityIff(m, w, s);
    assert Across(m[0], w, s, s[0], 1) == 0.0;
    assert Across(m[0], w, s, s[0], 2) == if s[0] == s[1] then 0.0 else m[0][1] * w[1];
    assert Across(m[1], w, s, s[1], 1) == if s[0] == s[1] then 0.0 else m[1][0] * w[0];
    assert Across(m[1], w, s, s[1], 2) == Across(m[1], w, s, s[1], 1);
    CrossTerms(w[0], w[1], m[0][1], m[0][1] * w[1], m[1][0] * w[0]);
    TimesZero(w[0]);
    TimesZero(w[1]);
  }

  lemma CrossTerms(p: real, q: real, a: real, aq: real, ap: real)
    requires aq == a * q && ap == a * p
    ensures Times(p, aq) == Times(q, ap)
  {
  }

  // ---- three names, one of them short ----

  /** Variances 1 and correlations one half. */
  function Alike(): (m: Mat)
    ensures Square(m) && |m| == 3
  {
    [[1.0, 0.5, 0.5], [0.5, 1.0, 0.5], [0.5, 0.5, 1.0]]
  }

  lemma AlikeMarginal(w: Vec)
    requires |w| == 3
    ensures MatVec(Alike(), w) == [w[0] + 0.5 * w[1] + 0.5 * w[2], 0.5 * w[0] + w[1] + 0.5 * w[2],
                                   0.5 * w[0] + 0.5 * w[1] + w[2]]
  {
    var a, b, c := w[0], w[1], w[2];
    DotOfThree(1.0, 0.5, 0.5, w, a, 0.5 * b, 0.5 * c);
    DotOfThree(0.5, 1.0, 0.5, w, 0.5 * a, b, 0.5 * c);
    DotOfThree(0.5, 0.5, 1.0, w, 0.5 * a, 0.5 * b, c);
    hide Dot;
    assert MatVec(Alike(), w) == [Dot([1.0, 0.5, 0.5], w), Dot([0.5, 1.0, 0.5], w), Dot([0.5, 0.5, 1.0], w)];
  }

  lemma DotOfThree(p: real, q: real, r: real, v: Vec, x: real, y: real, z: real)
    requires |v| == 3 && x == p * v[0] && y == q * v[1] && z == r * v[2]
    ensures Dot([p, q, r], v) == x + y + z
  {
    var u := [p, q, r];
    assert DotN(u, v, 1) == DotN(u, v, 0) + u[0] * v[0];
    assert DotN(u, v, 2) == DotN(u, v, 1) + u[1] * v[1];
    assert DotN(u, v, 3) == DotN(u, v, 2) + u[2] * v[2];
  }

  lemma AlikeEven(t: real, w: Vec)
    requires t == 1.0 / 3.0 && w == [t, t, t]
    ensures EqualContributions(Alike(), w) && Simplex(w)
    ensures forall i :: 0 <= i < 3 ==> w[i] >= MIN_WEIGHT && Contributions(Alike(), w)[i] >= MIN_CONTRIBUTION
  {
    var c := Times(t, 2.0 * t);
    AlikeMarginal(w);
    SumNConstant(w, 3, t);
    AlikeLargeEnough(t, c);
    hide MatVec, Alike, Times, Quad;
    assert Contributions(Alike(), w) == [c, c, c];
    EqualIff(Alike(), w);
  }

  lemma AlikeLargeEnough(t: real, c: real)
    requires t == 1.0 / 3.0 && c == Times(t, 2.0 * t)
    ensures 3.0 * t == 1.0 && t >= MIN_WEIGHT && c >= MIN_CONTRIBUTION
  {
    assert t >= 0.3;
    var p := NonNegativeProduct(t - 0.3, t + 0.3);
  }

  lemma {:induction false} AlikeStaysEven(sqrt: real -> real, k: nat, t: real)
    requires IsSqrt(sqrt) && t == 1.0 / 3.0
    ensures ParityIterate(Alike(), sqrt, k) == [t, t, t]
  {
    hide MatVec, IsSqrt, ParityStep, Contributions, EqualContributions, Simplex, Alike;
    if k == 0 {
      assert ParityIterate(Alike(), sqrt, 0) == [t, t, t];
    } else {
      AlikeStaysEven(sqrt, k - 1, t);
      AlikeEven(t, [t, t, t]);
      ParityIsFixedPoint(Alike(), [t, t, t], sqrt);
    }
  }

  /** After any number of iterations the long weights are even, and with the third name short it carries no risk at
      all. */
  lemma ShortCarriesNoRisk(sqrt: real -> real, k: nat, t: real)
    requires IsSqrt(sqrt) && t == 1.0 / 3.0
    ensures var w := Signed(ParityIterate(Alike(), sqrt, k), [1.0, 1.0, -1.0]);
            w == [t, t, -t] && Contributions(Alike(), w) == [Times(t, t), Times(t, t), 0.0]
  {
    hide IsSqrt, ParityIterate, Alike;
    AlikeStaysEven(sqrt, k, t);
    SignedAlike(t);
  }

  lemma SignedAlike(t: real)
    ensures var w := Signed([t, t, t], [1.0, 1.0, -1.0]);
            w == [t, t, -t] && Contributions(Alike(), w) == [Times(t, t), Times(t, t), 0.0]
  {
    var w := [t, t, -t];
    assert Signed([t, t, t], [1.0, 1.0, -1.0]) == w;
    AlikeMarginal(w);
    TimesZero(-t);
    hide MatVec, Alike, Times;
    assert MatVec(Alike(), w) == [t, t, 0.0];
    assert Contributions(Alike(), w) == [Times(t, t), Times(t, t), Times(-t, 0.0)];
  }
}
