/** Signal aggregation: standardise every source across its names, then blend the sources. */
module Aggregation {
  import opened Dicts
  import opened Reals
  import opened Vectors
  import Sizing

  datatype Signal = Signal(symbol: string, source: string, score: real)

  type Group = seq<Signal>

  // ---- standardising one source ----

  function Scores(g: Group): (v: Vec)
    ensures |v| == |g|
  {
    seq(|g|, i requires 0 <= i < |g| => g[i].score)
  }

  function Mean(v: Vec): real
    requires |v| > 0
  {
    Sum(v) / |v| as real
  }

  /** Deviations from the mean. */
  function Deviations(v: Vec): (d: Vec)
    requires |v| > 0
    ensures |d| == |v|
  {
    seq(|v|, i requires 0 <= i < |v| => v[i] - Mean(v))
  }

  /** Sample standard deviation, with n - 1 in the denominator. */
  function Stdev(v: Vec, sqrt: real -> real): real
    requires |v| >= 2
  {
    sqrt(Dot(Deviations(v), Deviations(v)) / (|v| - 1) as real)
  }

  /** Standard scores: all zero for a single name and for a source without dispersion. */
  function Standard(v: Vec, sqrt: real -> real): (z: Vec)
    ensures |z| == |v|
  {
    if |v| < 2 || Stdev(v, sqrt) == 0.0 then seq(|v|, _ => 0.0)
    else seq(|v|, i requires 0 <= i < |v| => Deviations(v)[i] / Stdev(v, sqrt))
  }

  /** The dictionary comprehension {symbol: z}: of two entries for one symbol the later wins. */
  function FromPairs(g: Group, z: Vec, n: nat): Dict<real>
    requires |g| == |z| && n <= |g|
  {
    if n == 0 then [] else Put(FromPairs(g, z, n - 1), g[n - 1].symbol, z[n - 1])
  }

  function ZScore(g: Group, sqrt: real -> real): Dict<real> {
    FromPairs(g, Standard(Scores(g), sqrt), |g|)
  }

  // ---- grouping and blending ----

  function Grouped(signals: seq<Signal>, n: nat): Dict<Group>
    requires n <= |signals|
  {
    if n == 0 then []
    else
      var before, s := Grouped(signals, n - 1), signals[n - 1];
      Put(before, s.source, Get(before, s.source, []) + [s])
  }

  /** Sum of the given weights of the first n sources. */
  function WeightTotal(groups: Dict<Group>, weights: Dict<real>, n: nat): real
    requires n <= |groups|
  {
    if n == 0 then 0.0 else WeightTotal(groups, weights, n - 1) + Get(weights, groups[n - 1].0, 0.0)
  }

  /** A source's share of the blend; absent or empty weights mean equal shares. */
  function Share(groups: Dict<Group>, weights: Option<Dict<real>>, source: string): real
    requires |groups| > 0
  {
    if weights.Some? && weights.value != [] then
      var total := WeightTotal(groups, weights.value, |groups|);
      Get(weights.value, source, 0.0) / (if total == 0.0 then 1.0 else total)
    else 1.0 / |groups| as real
  }

  /** alpha[symbol] += share * z for the first n entries. */
  function Added(alpha: Dict<real>, z: Dict<real>, share: real, n: nat): Dict<real>
    requires n <= |z|
  {
    if n == 0 then alpha
    else
      var before := Added(alpha, z, share, n - 1);
      Put(before, z[n - 1].0, Get(before, z[n - 1].0, 0.0) + Times(share, z[n - 1].1))
  }

  function Blended(groups: Dict<Group>, weights: Option<Dict<real>>, sqrt: real -> real, n: nat): Dict<real>
    requires n <= |groups|
  {
    if n == 0 then []
    else
      var z := ZScore(groups[n - 1].1, sqrt);
      Added(Blended(groups, weights, sqrt, n - 1), z, Share(groups, weights, groups[n - 1].0), |z|)
  }

  function Combined(signals: seq<Signal>, weights: Option<Dict<real>>, sqrt: real -> real): Dict<real> {
    var groups := Grouped(signals, |signals|);
    Blended(groups, weights, sqrt, |groups|)
  }

  method Combine(signals: seq<Signal>, weights: Option<Dict<real>>, sqrt: real -> real)
    returns (alpha: Dict<real>)
    ensures alpha == Combined(signals, weights, sqrt)
  {
    hide Put, Get, IndexOf, Times, Standard, Share, ZScore, FromPairs, Scores;
    var bySource: Dict<Group> := [];
    for i := 0 to |signals|
      invariant bySource == Grouped(signals, i)
    {
      var s := signals[i];
      bySource := Put(bySource, s.source, Get(bySource, s.source, []) + [s]);
    }
    alpha := [];
    for k := 0 to |bySource|
      invariant alpha == Blended(bySource, weights, sqrt, k)
    {
      var z := ZScore(bySource[k].1, sqrt);
      var share := Share(bySource, weights, bySource[k].0);
      ghost var before := alpha;
      for j := 0 to |z|
        invariant alpha == Added(before, z, share, j)
      {
        alpha := Put(alpha, z[j].0, Get(alpha, z[j].0, 0.0) + Times(share, z[j].1));
      }
    }
  }

  // ---- alphas sum to zero ----

  function TotalN(d: Dict<real>, n: nat): real
    requires n <= |d|
  {
    if n == 0 then 0.0 else TotalN(d, n - 1) + d[n - 1].1
  }

  function Total(d: Dict<real>): real {
    TotalN(d, |d|)
  }

  lemma {:induction false} TotalPrefix(d: Dict<real>, e: Dict<real>, n: nat)
    requires n <= |d| && n <= |e| && forall i :: 0 <= i < n ==> d[i] == e[i]
    ensures TotalN(d, n) == TotalN(e, n)
  {
    if n > 0 { TotalPrefix(d, e, n - 1); }
  }

  lemma {:induction false} TotalUpdate(d: Dict<real>, i: nat, e: (string, real), n: nat)
    requires i < n <= |d|
    ensures TotalN(d[i := e], n) == TotalN(d, n) - d[i].1 + e.1
  {
    if i == n - 1 { TotalPrefix(d, d[i := e], i); } else { TotalUpdate(d, i, e, n - 1); }
  }

  lemma TotalPut(d: Dict<real>, k: string, v: real)
    ensures Total(Put(d, k, v)) == Total(d) - Get(d, k, 0.0) + v
  {
    var i := IndexOf(d, k);
    if i < |d| { TotalUpdate(d, i, (k, v), |d|); } else { TotalPrefix(d, d + [(k, v)], |d|); }
  }

  lemma {:induction false} TotalAdded(alpha: Dict<real>, z: Dict<real>, share: real, n: nat)
    requires n <= |z|
    ensures Total(Added(alpha, z, share, n)) == Total(alpha) + Times(share, TotalN(z, n))
  {
    hide Put, Get, Times, Total;
    if n == 0 {
      TimesZero(share);
    } else {
      var before, e := Added(alpha, z, share, n - 1), z[n - 1];
      TotalAdded(alpha, z, share, n - 1);
      TotalPut(before, e.0, Get(before, e.0, 0.0) + Times(share, e.1));
      TimesSum(share, TotalN(z, n - 1), e.1);
    }
  }

  ghost predicate DistinctSymbols(g: Group) {
    forall i, j :: 0 <= i < j < |g| ==> g[i].symbol != g[j].symbol
  }

  lemma {:induction false} PairsKept(g: Group, z: Vec, n: nat)
    requires |g| == |z| && n <= |g| && DistinctSymbols(g)
    ensures |FromPairs(g, z, n)| == n
    ensures forall i :: 0 <= i < n ==> FromPairs(g, z, n)[i] == (g[i].symbol, z[i])
  {
    hide IndexOf;
    if n > 0 {
      PairsKept(g, z, n - 1);
      var before := FromPairs(g, z, n - 1);
      assert IndexOf(before, g[n - 1].symbol) == n - 1;
    }
  }

  lemma {:induction false} TotalIsSum(d: Dict<real>, z: Vec, n: nat)
    requires n <= |d| && n <= |z| && forall i :: 0 <= i < n ==> d[i].1 == z[i]
    ensures TotalN(d, n) == SumN(z, n)
  {
    if n > 0 { TotalIsSum(d, z, n - 1); }
  }

  lemma MeansSum(v: Vec, means: Vec)
    requires |v| == |means| > 0 && forall i :: 0 <= i < |v| ==> means[i] == Mean(v)
    ensures Sum(means) == Sum(v)
  {
    SumNConstant(means, |v|, Mean(v));
    MeanTimesCount(Sum(v), |v| as real, Mean(v));
  }

  lemma MeanTimesCount(s: real, n: real, mean: real)
    requires n > 0.0 && mean == s / n
    ensures n * mean == s
  {
  }

  lemma DeviationsSumToZero(v: Vec)
    requires |v| > 0
    ensures Sum(Deviations(v)) == 0.0
  {
    hide Sum, Mean;
    var means: Vec := seq(|v|, _ => Mean(v));
    assert Deviations(v) == Lin(v, -1.0, means);
    MeansSum(v, means);
    SumMinus(v, means);
  }

  lemma SumMinus(x: Vec, y: Vec)
    requires |x| == |y|
    ensures Sum(Lin(x, -1.0, y)) == Sum(x) - Sum(y)
  {
    SumNLinear(x, -1.0, y, |x|);
  }

  lemma StandardSumsToZero(v: Vec, sqrt: real -> real)
    ensures Sum(Standard(v, sqrt)) == 0.0
  {
    var z := Standard(v, sqrt);
    if |v| < 2 || Stdev(v, sqrt) == 0.0 {
      SumNBetween(z, |v|, 0.0, 0.0);
    } else {
      var zero: Vec, c := seq(|v|, _ => 0.0), 1.0 / Stdev(v, sqrt);
      forall i | 0 <= i < |v| ensures z[i] == Lin(zero, c, Deviations(v))[i] {
        QuotientAsProduct(Deviations(v)[i], Stdev(v, sqrt));
      }
      assert z == Lin(zero, c, Deviations(v));
      SumNLinear(zero, c, Deviations(v), |v|);
      DeviationsSumToZero(v);
      SumNBetween(zero, |v|, 0.0, 0.0);
    }
  }

  lemma QuotientAsProduct(x: real, d: real)
    requires d != 0.0
    ensures x / d == 0.0 + (1.0 / d) * x
  {
  }

  lemma ZScoreTotal(g: Group, sqrt: real -> real)
    requires DistinctSymbols(g)
    ensures Total(ZScore(g, sqrt)) == 0.0
  {
    var z := Standard(Scores(g), sqrt);
    PairsKept(g, z, |g|);
    hide Standard, Put;
    TotalIsSum(ZScore(g, sqrt), z, |g|);
    StandardSumsToZero(Scores(g), sqrt);
  }

  /** No source speaks twice of one symbol. */
  ghost predicate DistinctPairs(signals: seq<Signal>) {
    forall i, j :: 0 <= i < j < |signals| ==>
      signals[i].symbol != signals[j].symbol || signals[i].source != signals[j].source
  }

  /** The groups are keyed by distinct sources and hold the signals of their own source. */
  ghost predicate BySource(groups: Dict<Group>) {
    && Distinct(groups)
    && forall k, i :: 0 <= k < |groups| && 0 <= i < |groups[k].1| ==> groups[k].1[i].source == groups[k].0
  }

  lemma {:induction false} GroupsBySource(signals: seq<Signal>, n: nat)
    requires n <= |signals|
    ensures BySource(Grouped(signals, n))
  {
    hide IndexOf;
    if n > 0 {
      GroupsBySource(signals, n - 1);
    }
  }

  lemma {:induction false} GroupsFromSignals(signals: seq<Signal>, n: nat, k: nat, s: Signal)
    requires n <= |signals| && k < |Grouped(signals, n)| && s in Grouped(signals, n)[k].1
    ensures s in signals[..n]
  {
    hide IndexOf;
    var before, t := Grouped(signals, n - 1), signals[n - 1];
    assert signals[..n] == signals[..n - 1] + [t];
    if s != t { GroupsFromSignals(signals, n - 1, k, s); }
  }

  /** When no source speaks twice of a symbol, no group does. */
  lemma {:induction false} GroupsDistinct(signals: seq<Signal>, n: nat, k: nat)
    requires n <= |signals| && DistinctPairs(signals) && k < |Grouped(signals, n)|
    ensures DistinctSymbols(Grouped(signals, n)[k].1)
  {
    hide IndexOf, Put, Get, DistinctPairs;
    var before, t := Grouped(signals, n - 1), signals[n - 1];
    GroupsBySource(signals, n - 1);
    PutEntry(before, t.source, Get(before, t.source, []) + [t], k, []);
    if k < |before| {
      GroupsDistinct(signals, n - 1, k);
      if before[k].0 == t.source { NewSymbol(signals, n, k); }
    }
  }

  /** A signal joins a group that does not speak of its symbol yet. */
  lemma NewSymbol(signals: seq<Signal>, n: nat, k: nat)
    requires 0 < n <= |signals| && DistinctPairs(signals) && k < |Grouped(signals, n - 1)|
    requires Grouped(signals, n - 1)[k].0 == signals[n - 1].source
    ensures var g := Grouped(signals, n - 1)[k].1;
            forall i :: 0 <= i < |g| ==> g[i].symbol != signals[n - 1].symbol
  {
    hide Grouped;
    GroupsBySource(signals, n - 1);
    var g := Grouped(signals, n - 1)[k].1;
    forall i | 0 <= i < |g| ensures g[i].symbol != signals[n - 1].symbol {
      GroupsFromSignals(signals, n - 1, k, g[i]);
    }
  }

  lemma {:induction false} BlendedTotal(groups: Dict<Group>, weights: Option<Dict<real>>,
                                        sqrt: real -> real, n: nat)
    requires n <= |groups| && forall k :: 0 <= k < |groups| ==> DistinctSymbols(groups[k].1)
    ensures Total(Blended(groups, weights, sqrt, n)) == 0.0
  {
    hide DistinctSymbols, Put, Get, Times, ZScore, Share, Added;
    if n > 0 {
      hide TotalN;
      BlendedTotal(groups, weights, sqrt, n - 1);
      var z, share := ZScore(groups[n - 1].1, sqrt), Share(groups, weights, groups[n - 1].0);
      ZScoreTotal(groups[n - 1].1, sqrt);
      TimesZero(share);
      TotalAdded(Blended(groups, weights, sqrt, n - 1), z, share, |z|);
    }
  }

  /** Blended alphas sum to zero over all symbols, whatever the weights and however degenerate the
      sources, as long as no source speaks twice of one symbol. */
  lemma AlphasSumToZero(signals: seq<Signal>, weights: Option<Dict<real>>, sqrt: real -> real)
    requires DistinctPairs(signals)
    ensures Total(Combined(signals, weights, sqrt)) == 0.0
  {
    var groups := Grouped(signals, |signals|);
    forall k | 0 <= k < |groups| ensures DistinctSymbols(groups[k].1) {
      GroupsDistinct(signals, |signals|, k);
    }
    BlendedTotal(groups, weights, sqrt, |groups|);
  }

  // ---- affine invariance ----

  /** Every score of one source replaced by a * score + b. */
  function Rescored(s: Signal, source: string, a: real, b: real): Signal {
    if s.source == source then s.(score := Times(a, s.score) + b) else s
  }

  function RescoredAll(g: Group, source: string, a: real, b: real): (r: Group)
    ensures |r| == |g|
  {
    seq(|g|, i requires 0 <= i < |g| => Rescored(g[i], source, a, b))
  }

  function RescoredGroups(d: Dict<Group>, source: string, a: real, b: real): (r: Dict<Group>)
    ensures |r| == |d|
  {
    seq(|d|, i requires 0 <= i < |d| => (d[i].0, RescoredAll(d[i].1, source, a, b)))
  }

  lemma {:induction false} SameIndex<U, V>(d: Dict<U>, e: Dict<V>, k: string)
    requires |d| == |e| && forall i :: 0 <= i < |d| ==> d[i].0 == e[i].0
    ensures IndexOf(d, k) == IndexOf(e, k)
  {
    if |d| > 0 && d[0].0 != k {
      forall i | 0 <= i < |d| - 1 ensures d[1..][i].0 == e[1..][i].0 { assert d[i + 1].0 == e[i + 1].0; }
      SameIndex(d[1..], e[1..], k);
    }
  }

  lemma PutRescored(d: Dict<Group>, k: string, g: Group, source: string, a: real, b: real)
    ensures RescoredGroups(Put(d, k, g), source, a, b)
         == Put(RescoredGroups(d, source, a, b), k, RescoredAll(g, source, a, b))
    ensures Get(RescoredGroups(d, source, a, b), k, []) == RescoredAll(Get(d, k, []), source, a, b)
  {
    SameIndex(d, RescoredGroups(d, source, a, b), k);
    hide RescoredAll;
    assert RescoredAll([], source, a, b) == [];
  }

  /** Grouping commutes with rescoring. */
  lemma {:induction false} GroupedRescored(signals: seq<Signal>, source: string, a: real, b: real, n: nat)
    requires n <= |signals|
    ensures Grouped(RescoredAll(signals, source, a, b), n) == RescoredGroups(Grouped(signals, n), source, a, b)
  {
    hide *;
    if n == 0 {
      GroupedEmpty(signals, source, a, b);
    } else {
      var r := RescoredAll(signals, source, a, b);
      var before, s := Grouped(signals, n - 1), signals[n - 1];
      var g := Get(before, s.source, []);
      RescoredAt(signals, source, a, b, n - 1);
      GroupedUnfold(signals, n);
      GroupedUnfold(r, n);
      GroupedRescored(signals, source, a, b, n - 1);
      RescoredAppend(g, s, source, a, b);
      PutRescored(before, s.source, g + [s], source, a, b);
      PutRescored(before, s.source, g, source, a, b);
    }
  }

  lemma RescoredAt(g: Group, source: string, a: real, b: real, i: nat)
    requires i < |g|
    ensures var r := RescoredAll(g, source, a, b);
            r[i] == Rescored(g[i], source, a, b) && r[i].source == g[i].source
  {
  }

  lemma GroupedEmpty(signals: seq<Signal>, source: string, a: real, b: real)
    ensures Grouped(RescoredAll(signals, source, a, b), 0) == RescoredGroups(Grouped(signals, 0), source, a, b)
  {
    assert RescoredGroups([], source, a, b) == [];
  }

  lemma GroupedUnfold(signals: seq<Signal>, n: nat)
    requires 0 < n <= |signals|
    ensures var before, s := Grouped(signals, n - 1), signals[n - 1];
            Grouped(signals, n) == Put(before, s.source, Get(before, s.source, []) + [s])
  {
  }

  lemma RescoredAppend(g: Group, s: Signal, source: string, a: real, b: real)
    ensures RescoredAll(g + [s], source, a, b) == RescoredAll(g, source, a, b) + [Rescored(s, source, a, b)]
  {
    hide Rescored;
  }

  lemma {:induction false} AffineSum(v: Vec, u: Vec, a: real, b: real, n: nat)
    requires |u| == |v| && n <= |v| && forall i :: 0 <= i < |v| ==> u[i] == Times(a, v[i]) + b
    ensures SumN(u, n) == Times(a, SumN(v, n)) + Times(n as real, b)
  {
    if n == 0 {
      assert Times(a, 0.0) == 0.0 && Times(0.0, b) == 0.0;
    } else {
      AffineSum(v, u, a, b, n - 1);
      assert Times(n as real, b) == Times((n - 1) as real, b) + b;
      hide Times;
      TimesSum(a, SumN(v, n - 1), v[n - 1]);
    }
  }

  lemma MeanAlgebra(s: real, a: real, b: real, n: real)
    requires n > 0.0
    ensures (Times(a, s) + Times(n, b)) / n == Times(a, s / n) + b
  {
    var q := s / n;
    assert n * q == s;
    QuotientIs(a * s + n * b, n, a * q + b);
  }

  lemma QuotientIs(x: real, n: real, q: real)
    requires n != 0.0 && x == n * q
    ensures x / n == q
  {
  }

  /** Rescoring scales every deviation from the mean by a. */
  lemma AffineDeviations(v: Vec, u: Vec, a: real, b: real)
    requires |u| == |v| > 0 && forall i :: 0 <= i < |v| ==> u[i] == Times(a, v[i]) + b
    ensures forall i :: 0 <= i < |v| ==> Deviations(u)[i] == Times(a, Deviations(v)[i])
  {
    AffineSum(v, u, a, b, |v|);
    MeanAlgebra(Sum(v), a, b, |v| as real);
    assert Mean(u) == Times(a, Mean(v)) + b;
    forall i | 0 <= i < |v| ensures Deviations(u)[i] == Times(a, Deviations(v)[i]) {
      assert Deviations(v)[i] + Mean(v) == v[i];
      TimesSum(a, Deviations(v)[i], Mean(v));
    }
  }

  lemma SumOfSquaresScales(d: Vec, e: Vec, a: real, n: nat)
    requires |d| == |e| && n <= |d| && forall i :: 0 <= i < |d| ==> e[i] == Times(a, d[i])
    ensures DotN(e, e, n) == Times(Times(a, a), DotN(d, d, n))
  {
    if n == 0 {
      assert Times(Times(a, a), 0.0) == 0.0;
    } else {
      SumOfSquaresScales(d, e, a, n - 1);
      SquareOfTimes(a, d[n - 1]);
      TimesSum(Times(a, a), DotN(d, d, n - 1), d[n - 1] * d[n - 1]);
      hide Times;
    }
  }

  lemma SquareOfTimes(a: real, x: real)
    ensures Times(a, x) * Times(a, x) == Times(Times(a, a), x * x)
  {
  }

  /** Two non-negative numbers with proportional squares are proportional. */
  lemma RootScales(r: real, s: real, a: real)
    requires a > 0.0 && r >= 0.0 && s >= 0.0
    requires Times(s, s) == Times(Times(a, a), Times(r, r))
    ensures s == Times(a, r)
  {
    var t := a * r;
    var nonneg := NonNegativeProduct(a, r);
    assert s * s == t * t;
    if s > t { var p := PositiveProduct(s - t, s + t); }
    if s < t { var p := PositiveProduct(t - s, s + t); }
  }

  lemma AffineStdev(v: Vec, u: Vec, a: real, b: real, sqrt: real -> real)
    requires |u| == |v| >= 2 && a > 0.0 && Sizing.IsSqrt(sqrt)
    requires forall i :: 0 <= i < |v| ==> u[i] == Times(a, v[i]) + b
    ensures Stdev(u, sqrt) == Times(a, Stdev(v, sqrt))
  {
    var d, e, n := Deviations(v), Deviations(u), (|v| - 1) as real;
    AffineDeviations(v, u, a, b);
    SumOfSquaresScales(d, e, a, |v|);
    DotNSelfNonNegative(d, |v|);
    DotNSelfNonNegative(e, |v|);
    var x, y := Dot(d, d) / n, Dot(e, e) / n;
    assert Dot(e, e) == Times(Times(a, a), Dot(d, d));
    hide Deviations, Dot, Times;
    ScaledQuotient(Dot(d, d), Times(a, a), n);
    DivideNonNegative(Dot(d, d), n);
    DivideNonNegative(Dot(e, e), n);
    RootScales(sqrt(x), sqrt(y), a);
  }

  lemma ScaledQuotient(x: real, c: real, n: real)
    requires n > 0.0
    ensures Times(c, x) / n == Times(c, x / n)
  {
    var q := x / n;
    assert n * q == x;
    QuotientIs(c * x, n, c * q);
  }

  /** Standard scores do not notice a change of scale and origin, degenerate cases included. */
  lemma StandardInvariant(v: Vec, u: Vec, a: real, b: real, sqrt: real -> real)
    requires |u| == |v| && a > 0.0 && Sizing.IsSqrt(sqrt)
    requires forall i :: 0 <= i < |v| ==> u[i] == Times(a, v[i]) + b
    ensures Standard(u, sqrt) == Standard(v, sqrt)
  {
    if |v| >= 2 {
      AffineStdev(v, u, a, b, sqrt);
      AffineDeviations(v, u, a, b);
      var s := Stdev(v, sqrt);
      assert Times(a, 0.0) == 0.0;
      if s != 0.0 {
        forall i | 0 <= i < |v| ensures Standard(u, sqrt)[i] == Standard(v, sqrt)[i] {
          CommonFactor(Deviations(v)[i], s, a);
        }
      }
    }
  }

  lemma CommonFactor(x: real, s: real, a: real)
    requires a > 0.0 && s != 0.0
    ensures Times(a, s) != 0.0 && Times(a, x) / Times(a, s) == x / s
  {
    var p := PositiveProduct(a, if s > 0.0 then s else -s);
    if s < 0.0 { assert a * s == -(a * -s); }
    var q := x / s;
    assert s * q == x;
    QuotientIs(a * x, a * s, q);
  }

  lemma GroupInvariant(g: Group, source: string, a: real, b: real, sqrt: real -> real)
    requires a > 0.0 && Sizing.IsSqrt(sqrt)
    requires forall i, j :: 0 <= i < |g| && 0 <= j < |g| ==> g[i].source == g[j].source
    ensures ZScore(RescoredAll(g, source, a, b), sqrt) == ZScore(g, sqrt)
  {
    var h := RescoredAll(g, source, a, b);
    if |g| > 0 && g[0].source == source {
      forall i | 0 <= i < |g| ensures Scores(h)[i] == Times(a, Scores(g)[i]) + b {
        assert g[i].source == g[0].source;
      }
      StandardInvariant(Scores(g), Scores(h), a, b, sqrt);
    } else {
      forall i | 0 <= i < |g| ensures h[i] == g[i] { assert g[i].source == g[0].source; }
      assert h == g;
    }
    PairsBySymbol(g, h, Standard(Scores(g), sqrt), |g|);
  }

  lemma {:induction false} PairsBySymbol(g: Group, h: Group, z: Vec, n: nat)
    requires |g| == |h| == |z| && n <= |g| && forall i :: 0 <= i < |g| ==> g[i].symbol == h[i].symbol
    ensures FromPairs(g, z, n) == FromPairs(h, z, n)
  {
    hide Put;
    if n > 0 { PairsBySymbol(g, h, z, n - 1); }
  }

  lemma {:induction false} WeightTotalByKeys(d: Dict<Group>, e: Dict<Group>, weights: Dict<real>, n: nat)
    requires |d| == |e| && n <= |d| && forall i :: 0 <= i < |d| ==> d[i].0 == e[i].0
    ensures WeightTotal(d, weights, n) == WeightTotal(e, weights, n)
  {
    if n > 0 { WeightTotalByKeys(d, e, weights, n - 1); }
  }

  lemma {:induction false} BlendedInvariant(groups: Dict<Group>, source: string, a: real, b: real,
                                            weights: Option<Dict<real>>, sqrt: real -> real, n: nat)
    requires n <= |groups| && a > 0.0 && Sizing.IsSqrt(sqrt)
    requires BySource(groups)
    ensures Blended(RescoredGroups(groups, source, a, b), weights, sqrt, n) == Blended(groups, weights, sqrt, n)
  {
    hide Added, ZScore, RescoredAll, Share, Sizing.IsSqrt;
    if n > 0 {
      BlendedInvariant(groups, source, a, b, weights, sqrt, n - 1);
      GroupInvariant(groups[n - 1].1, source, a, b, sqrt);
      ShareByKeys(groups, RescoredGroups(groups, source, a, b), weights, groups[n - 1].0);
    }
  }

  lemma ShareByKeys(d: Dict<Group>, e: Dict<Group>, weights: Option<Dict<real>>, source: string)
    requires |d| == |e| > 0 && forall i :: 0 <= i < |d| ==> d[i].0 == e[i].0
    ensures Share(d, weights, source) == Share(e, weights, source)
  {
    if weights.Some? { WeightTotalByKeys(d, e, weights.value, |d|); }
  }

  /** The blend does not change when every score of any one source is replaced by a * score + b with
      a > 0, for all signals and weights, degenerate sources included. */
  lemma BlendInvariant(signals: seq<Signal>, source: string, a: real, b: real,
                       weights: Option<Dict<real>>, sqrt: real -> real)
    requires a > 0.0 && Sizing.IsSqrt(sqrt)
    ensures Combined(RescoredAll(signals, source, a, b), weights, sqrt) == Combined(signals, weights, sqrt)
  {
    var groups := Grouped(signals, |signals|);
    GroupedRescored(signals, source, a, b, |signals|);
    GroupsBySource(signals, |signals|);
    BlendedInvariant(groups, source, a, b, weights, sqrt, |groups|);
  }

  // ---- shares ----

  /** Sum of the shares of the first n sources. */
  function ShareTotal(groups: Dict<Group>, weights: Option<Dict<real>>, n: nat): real
    requires n <= |groups| && |groups| > 0
  {
    if n == 0 then 0.0 else ShareTotal(groups, weights, n - 1) + Share(groups, weights, groups[n - 1].0)
  }

  lemma {:induction false} ShareTotalWeighted(groups: Dict<Group>, weights: Option<Dict<real>>, d: real, n: nat)
    requires n <= |groups| && |groups| > 0 && weights.Some? && weights.value != []
    requires d != 0.0 && d == var t := WeightTotal(groups, weights.value, |groups|); if t == 0.0 then 1.0 else t
    ensures ShareTotal(groups, weights, n) == WeightTotal(groups, weights.value, n) / d
  {
    if n > 0 {
      ShareTotalWeighted(groups, weights, d, n - 1);
      AddQuotients(WeightTotal(groups, weights.value, n - 1), Get(weights.value, groups[n - 1].0, 0.0), d);
    }
  }

  lemma {:induction false} ShareTotalEqual(groups: Dict<Group>, weights: Option<Dict<real>>, n: nat)
    requires n <= |groups| && |groups| > 0 && (weights.None? || weights.value == [])
    ensures ShareTotal(groups, weights, n) == Times(n as real, 1.0 / |groups| as real)
  {
    if n == 0 {
      assert Times(0.0, 1.0 / |groups| as real) == 0.0;
    } else {
      ShareTotalEqual(groups, weights, n - 1);
      var u := 1.0 / |groups| as real;
      TimesAdds((n - 1) as real, 1.0, u);
      assert Times(1.0, u) == u;
    }
  }

  /** The shares of the present sources sum to 1 exactly when no weights are given or the weights of
      the present sources do not cancel out; otherwise they sum to 0. */
  lemma SharesSumToOneIff(groups: Dict<Group>, weights: Option<Dict<real>>)
    requires |groups| > 0
    ensures var given := weights.Some? && weights.value != [];
            && (ShareTotal(groups, weights, |groups|) == 1.0
                <==> !given || WeightTotal(groups, weights.value, |groups|) != 0.0)
            && (ShareTotal(groups, weights, |groups|) == 1.0 || ShareTotal(groups, weights, |groups|) == 0.0)
  {
    if weights.Some? && weights.value != [] {
      var t := WeightTotal(groups, weights.value, |groups|);
      ShareTotalWeighted(groups, weights, if t == 0.0 then 1.0 else t, |groups|);
      if t != 0.0 { QuotientIs(t, t, 1.0); }
    } else {
      ShareTotalEqual(groups, weights, |groups|);
      Sizing.ReciprocalTimes(|groups| as real);
    }
  }

  lemma AbsentKey(d: Dict<Group>, k: string, g: Group)
    requires forall i :: 0 <= i < |d| ==> d[i].0 != k
    ensures Get(d, k, []) == [] && Put(d, k, g) == d + [(k, g)]
  {
  }

  lemma TwoGroups(s: Signal, t: Signal)
    requires s.source != t.source
    ensures Grouped([s, t], 2) == [(s.source, [s]), (t.source, [t])]
  {
    hide Put, Get, IndexOf;
    AbsentKey([], s.source, [s]);
    AbsentKey([(s.source, [s])], t.source, [t]);
    assert Grouped([s, t], 0) == [];
    assert [] + [s] == [s] && [] + [t] == [t];
    assert Grouped([s, t], 1) == [(s.source, [s])];
  }

  /** Two sources whose weights cancel out: their shares sum to 0. */
  lemma CancellingWeights()
    ensures var groups := Grouped([Signal("A", "x", 1.0), Signal("A", "y", 1.0)], 2);
            |groups| == 2 && ShareTotal(groups, Some([("x", 1.0), ("y", -1.0)]), 2) == 0.0
  {
    hide ShareTotal, Get, IndexOf, Grouped;
    var weights: Dict<real> := [("x", 1.0), ("y", -1.0)];
    var groups := Grouped([Signal("A", "x", 1.0), Signal("A", "y", 1.0)], 2);
    TwoGroups(Signal("A", "x", 1.0), Signal("A", "y", 1.0));
    GetAt(weights, 0, 0.0);
    GetAt(weights, 1, 0.0);
    assert WeightTotal(groups, weights, 0) == 0.0;
    assert WeightTotal(groups, weights, 1) == 1.0;
    assert WeightTotal(groups, weights, 2) == 0.0;
    SharesSumToOneIff(groups, Some(weights));
  }

  // ---- what the blend is ----

  /** Standard scores keep the order of the scores and, given any dispersion, have sample variance 1. */
  lemma StandardScale(v: Vec, sqrt: real -> real)
    requires |v| >= 2 && Sizing.IsSqrt(sqrt) && Stdev(v, sqrt) != 0.0
    ensures Dot(Standard(v, sqrt), Standard(v, sqrt)) == (|v| - 1) as real
    ensures forall i, j :: 0 <= i < |v| && 0 <= j < |v| && v[i] < v[j] ==> Standard(v, sqrt)[i] < Standard(v, sqrt)[j]
  {
    hide Deviations, Dot, Times;
    var d, z, s, n := Deviations(v), Standard(v, sqrt), Stdev(v, sqrt), (|v| - 1) as real;
    LengthOf(d);
    DivideNonNegative(Dot(d, d), n);
    var ss := PositiveProduct(s, s);
    assert Times(s, s) == Dot(d, d) / n;
    SquareIs(s);
    forall i | 0 <= i < |v| ensures d[i] == Times(s, z[i]) { Undivided(d[i], s); }
    SumOfSquaresAll(z, d, s);
    UnitVariance(Dot(d, d), n, Times(s, s), Dot(z, z));
    forall i, j | 0 <= i < |v| && 0 <= j < |v| && v[i] < v[j] ensures z[i] < z[j] {
      DeviationOrder(v, i, j);
      QuotientOrder(d[i], d[j], s);
    }
  }

  lemma LengthOf(d: Vec)
    ensures Dot(d, d) >= 0.0
  {
    DotNSelfNonNegative(d, |d|);
  }

  lemma SquareIs(s: real)
    ensures Times(s, s) == s * s
  {
  }

  lemma SumOfSquaresAll(z: Vec, d: Vec, s: real)
    requires |z| == |d| && forall i :: 0 <= i < |z| ==> d[i] == Times(s, z[i])
    ensures Dot(d, d) == Times(Times(s, s), Dot(z, z))
  {
    hide Times;
    SumOfSquaresScales(z, d, s, |z|);
  }

  lemma DeviationOrder(v: Vec, i: nat, j: nat)
    requires i < |v| && j < |v| && v[i] < v[j]
    ensures Deviations(v)[i] < Deviations(v)[j]
  {
    hide Mean;
  }

  lemma Undivided(x: real, s: real)
    requires s != 0.0
    ensures x == Times(s, x / s)
  {
  }

  lemma UnitVariance(dd: real, n: real, ss: real, zz: real)
    requires n > 0.0 && ss == dd / n && ss != 0.0 && dd == Times(ss, zz)
    ensures zz == n
  {
    assert ss * n == dd;
    assert ss * (zz - n) == 0.0;
  }

  lemma QuotientOrder(x: real, y: real, s: real)
    requires s > 0.0 && x < y
    ensures x / s < y / s
  {
    var p, q := x / s, y / s;
    assert p * s == x && q * s == y;
    if p >= q { var r := NonNegativeProduct(p - q, s); }
  }

  /** One symbol's alpha: over the first n sources, the share of the source times its score. */
  function AlphaOf(groups: Dict<Group>, weights: Option<Dict<real>>, sqrt: real -> real, symbol: string, n: nat): real
    requires n <= |groups|
  {
    if n == 0 then 0.0
    else
      AlphaOf(groups, weights, sqrt, symbol, n - 1)
      + Times(Share(groups, weights, groups[n - 1].0), Get(ZScore(groups[n - 1].1, sqrt), symbol, 0.0))
  }

  lemma {:induction false} PairsDistinct(g: Group, z: Vec, n: nat)
    requires |g| == |z| && n <= |g|
    ensures Distinct(FromPairs(g, z, n))
  {
    if n > 0 { PairsDistinct(g, z, n - 1); }
  }

  lemma {:induction false} AddedAt(alpha: Dict<real>, z: Dict<real>, share: real, n: nat, symbol: string)
    requires Distinct(z) && n <= |z|
    ensures Get(Added(alpha, z, share, n), symbol, 0.0)
         == Get(alpha, symbol, 0.0) + if IndexOf(z, symbol) < n then Times(share, z[IndexOf(z, symbol)].1) else 0.0
  {
    hide Times, IndexOf, Put, Get;
    if n > 0 {
      AddedAt(alpha, z, share, n - 1, symbol);
      GetAt(z, n - 1, 0.0);
      var before := Added(alpha, z, share, n - 1);
      GetPut(before, z[n - 1].0, Get(before, z[n - 1].0, 0.0) + Times(share, z[n - 1].1), symbol, 0.0);
    }
  }

  lemma GetIs(z: Dict<real>, symbol: string)
    ensures Get(z, symbol, 0.0) == if IndexOf(z, symbol) < |z| then z[IndexOf(z, symbol)].1 else 0.0
  {
  }

  lemma {:induction false} BlendedAt(groups: Dict<Group>, weights: Option<Dict<real>>, sqrt: real -> real,
                                     n: nat, symbol: string)
    requires n <= |groups|
    ensures Get(Blended(groups, weights, sqrt, n), symbol, 0.0) == AlphaOf(groups, weights, sqrt, symbol, n)
  {
    hide Standard, Share, Put, Times, FromPairs, IndexOf, Get, Added;
    if n > 0 {
      BlendedAt(groups, weights, sqrt, n - 1, symbol);
      var z, share := ZScore(groups[n - 1].1, sqrt), Share(groups, weights, groups[n - 1].0);
      PairsDistinct(groups[n - 1].1, Standard(Scores(groups[n - 1].1), sqrt), |groups[n - 1].1|);
      AddedAt(Blended(groups, weights, sqrt, n - 1), z, share, |z|, symbol);
      GetIs(z, symbol);
      TimesZero(share);
    } else {
      NothingYet(symbol);
    }
  }

  lemma NothingYet(symbol: string)
    ensures Get<real>([], symbol, 0.0) == 0.0
  {
  }

  /** Every symbol's alpha is the sum, over the sources, of share times standard score, 0 where a source
      is silent on it. */
  lemma AlphaIsShareSum(signals: seq<Signal>, weights: Option<Dict<real>>, sqrt: real -> real, symbol: string)
    ensures var groups := Grouped(signals, |signals|);
            Get(Combined(signals, weights, sqrt), symbol, 0.0) == AlphaOf(groups, weights, sqrt, symbol, |groups|)
  {
    var groups := Grouped(signals, |signals|);
    BlendedAt(groups, weights, sqrt, |groups|, symbol);
  }
}
