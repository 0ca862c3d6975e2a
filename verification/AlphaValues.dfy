/** What an alpha is, in terms of the scores of the signals themselves. */
module AlphaValues {
  import opened Dicts
  import opened Reals
  import opened Vectors
  import opened Aggregation
  import Sizing

  /** Sum of the first n scores of a group. */
  function ScoreSum(g: Group, n: nat): real
    requires n <= |g|
  {
    if n == 0 then 0.0 else ScoreSum(g, n - 1) + g[n - 1].score
  }

  /** Sum of the squared distances of the first n scores from a mean. */
  function SquareSum(g: Group, mean: real, n: nat): real
    requires n <= |g|
  {
    if n == 0 then 0.0
    else SquareSum(g, mean, n - 1) + Times(g[n - 1].score - mean, g[n - 1].score - mean)
  }

  /** Nothing later in the group speaks of the same symbol. */
  ghost predicate LastWord(g: Group, i: nat) {
    i < |g| && forall j :: i < j < |g| ==> g[j].symbol != g[i].symbol
  }

  /** The signals of one source, in order. */
  function OfSource(signals: seq<Signal>, source: string): Group {
    if |signals| == 0 then []
    else
      var last := signals[|signals| - 1];
      OfSource(signals[..|signals| - 1], source) + if last.source == source then [last] else []
  }

  // ---- grouping ----

  /** A source's group holds exactly its signals, in the order in which they came. */
  lemma {:induction false} GroupHolds(signals: seq<Signal>, n: nat, source: string)
    requires n <= |signals|
    ensures Get(Grouped(signals, n), source, []) == OfSource(signals[..n], source)
    ensures Has(Grouped(signals, n), source) <==> OfSource(signals[..n], source) != []
  {
    hide Get, Put, Has;
    if n == 0 {
      NoGroups(source);
    } else {
      GroupHolds(signals, n - 1, source);
      var before, s := Grouped(signals, n - 1), signals[n - 1];
      GroupHolds(signals, n - 1, s.source);
      assert signals[..n][..n - 1] == signals[..n - 1];
      GetPut(before, s.source, Get(before, s.source, []) + [s], source, []);
    }
  }

  lemma NoGroups(source: string)
    ensures Get<Group>([], source, []) == [] && !Has<Group>([], source)
  {
  }

  /** The groups are the sources that speak, each with its own signals. */
  lemma GroupsAre(signals: seq<Signal>, k: nat)
    requires k < |Grouped(signals, |signals|)|
    ensures var e := Grouped(signals, |signals|)[k];
            e.1 == OfSource(signals, e.0) && e.1 != []
  {
    var groups := Grouped(signals, |signals|);
    GroupsBySource(signals, |signals|);
    GroupHolds(signals, |signals|, groups[k].0);
    assert signals[..|signals|] == signals;
    hide Grouped, OfSource;
    GetAt(groups, k, []);
  }

  // ---- standard scores ----

  lemma {:induction false} SumOfScores(g: Group, n: nat)
    requires n <= |g|
    ensures SumN(Scores(g), n) == ScoreSum(g, n)
  {
    if n > 0 { SumOfScores(g, n - 1); }
  }

  lemma {:induction false} SumOfSquares(g: Group, mean: real, n: nat)
    requires n <= |g| && |g| > 0 && mean == Mean(Scores(g))
    ensures DotN(Deviations(Scores(g)), Deviations(Scores(g)), n) == SquareSum(g, mean, n)
  {
    hide Mean;
    if n > 0 { SumOfSquares(g, mean, n - 1); }
  }

  lemma MeanIs(g: Group, mean: real)
    requires |g| > 0 && Times(mean, |g| as real) == ScoreSum(g, |g|)
    ensures mean == Mean(Scores(g))
  {
    SumOfScores(g, |g|);
    hide ScoreSum, SumN;
    QuotientOf(Sum(Scores(g)), |g| as real, mean);
  }

  lemma QuotientOf(x: real, d: real, q: real)
    requires d > 0.0 && Times(q, d) == x
    ensures x / d == q
  {
    var r := x / d;
    assert r * d == x;
    if r > q { var p := PositiveProduct(r - q, d); }
    if r < q { var p := PositiveProduct(q - r, d); }
  }

  lemma RootIs(sqrt: real -> real, q: real, sd: real)
    requires Sizing.IsSqrt(sqrt) && sd >= 0.0 && Times(sd, sd) == q
    ensures sqrt(q) == sd
  {
    var n := NonNegativeProduct(sd, sd);
    var r := sqrt(q);
    assert Times(r, r) == q;
    assert r * r == sd * sd;
    if r > sd { var p := PositiveProduct(r - sd, r + sd); }
    if r < sd { var p := PositiveProduct(sd - r, r + sd); }
  }

  lemma StdevIs(g: Group, sqrt: real -> real, mean: real, sd: real)
    requires |g| >= 2 && Sizing.IsSqrt(sqrt) && Times(mean, |g| as real) == ScoreSum(g, |g|)
    requires sd >= 0.0 && Times(Times(sd, sd), (|g| - 1) as real) == SquareSum(g, mean, |g|)
    ensures mean == Mean(Scores(g)) && Stdev(Scores(g), sqrt) == sd
  {
    MeanIs(g, mean);
    SumOfSquares(g, mean, |g|);
    hide ScoreSum, SquareSum, DotN, Deviations, Mean, Sizing.IsSqrt;
    QuotientOf(SquareSum(g, mean, |g|), (|g| - 1) as real, Times(sd, sd));
    RootIs(sqrt, Times(sd, sd), sd);
  }

  /** Of several entries for a symbol the last one counts. */
  lemma {:induction false} LastEntry(g: Group, z: Vec, n: nat, i: nat)
    requires |g| == |z| && i < n <= |g| && forall j :: i < j < n ==> g[j].symbol != g[i].symbol
    ensures Get(FromPairs(g, z, n), g[i].symbol, 0.0) == z[i]
  {
    hide Get, Put, Has;
    GetPut(FromPairs(g, z, n - 1), g[n - 1].symbol, z[n - 1], g[i].symbol, 0.0);
    if i < n - 1 { LastEntry(g, z, n - 1, i); }
  }

  /** A source's standard score of a name is its distance from the mean of the source's scores, in sample standard
      deviations; mean and deviation are any numbers that fit the sums over the signals. */
  lemma ZScoreIs(g: Group, sqrt: real -> real, i: nat, mean: real, sd: real)
    requires |g| >= 2 && LastWord(g, i) && Sizing.IsSqrt(sqrt)
    requires Times(mean, |g| as real) == ScoreSum(g, |g|)
    requires sd > 0.0 && Times(Times(sd, sd), (|g| - 1) as real) == SquareSum(g, mean, |g|)
    ensures Times(Get(ZScore(g, sqrt), g[i].symbol, 0.0), sd) == g[i].score - mean
  {
    hide Stdev, Standard, FromPairs, Get, ScoreSum, SquareSum, Times, Sizing.IsSqrt;
    StdevIs(g, sqrt, mean, sd);
    LastEntry(g, Standard(Scores(g), sqrt), |g|, i);
    StandardEntry(Scores(g), sqrt, i, sd);
  }

  lemma StandardEntry(v: Vec, sqrt: real -> real, i: nat, sd: real)
    requires i < |v| && |v| >= 2 && Stdev(v, sqrt) == sd > 0.0
    ensures Times(Standard(v, sqrt)[i], sd) == v[i] - Mean(v)
  {
    hide Stdev, Mean;
    var d := Deviations(v)[i];
    assert d / sd * sd == d;
  }

  /** A lone name and a source without dispersion are worth nothing. */
  lemma ZScoreSilent(g: Group, sqrt: real -> real, i: nat, mean: real)
    requires LastWord(g, i) && Sizing.IsSqrt(sqrt)
    requires |g| >= 2 ==> Times(mean, |g| as real) == ScoreSum(g, |g|) && SquareSum(g, mean, |g|) == 0.0
    ensures Get(ZScore(g, sqrt), g[i].symbol, 0.0) == 0.0
  {
    if |g| >= 2 {
      TimesZero((|g| - 1) as real);
      TimesZero(0.0);
      StdevIs(g, sqrt, mean, 0.0);
    }
    LastEntry(g, Standard(Scores(g), sqrt), |g|, i);
  }

  // ---- shares ----

  /** Given weights are shared out in proportion: a source's share times the total of the present sources' weights
      is its own weight, and without weights all shares are the same. */
  lemma ShareIs(groups: Dict<Group>, weights: Option<Dict<real>>, source: string)
    requires |groups| > 0
    ensures weights.Some? && weights.value != [] && WeightTotal(groups, weights.value, |groups|) != 0.0 ==>
              Times(Share(groups, weights, source), WeightTotal(groups, weights.value, |groups|))
                == Get(weights.value, source, 0.0)
    ensures weights.Some? && weights.value != [] && WeightTotal(groups, weights.value, |groups|) == 0.0 ==>
              Share(groups, weights, source) == Get(weights.value, source, 0.0)
    ensures weights.None? || weights.value == [] ==> Times(Share(groups, weights, source), |groups| as real) == 1.0
  {
    hide WeightTotal, Get;
    if weights.Some? && weights.value != [] {
      var total := WeightTotal(groups, weights.value, |groups|);
      if total != 0.0 { assert Get(weights.value, source, 0.0) / total * total == Get(weights.value, source, 0.0); }
    } else {
      Sizing.ReciprocalTimes(|groups| as real);
      TimesCommute(1.0 / |groups| as real, |groups| as real);
    }
  }

  // ---- a single source ----

  lemma {:induction false} OneGroup(signals: seq<Signal>, n: nat, source: string)
    requires 0 < n <= |signals| && forall i :: 0 <= i < |signals| ==> signals[i].source == source
    ensures Grouped(signals, n) == [(source, signals[..n])]
  {
    hide Get, Put;
    var s := signals[n - 1];
    assert signals[..n] == signals[..n - 1] + [s];
    if n == 1 {
      FirstGroup(source, [s]);
    } else {
      OneGroup(signals, n - 1, source);
      OnlyGroup(source, signals[..n - 1], signals[..n]);
    }
  }

  lemma FirstGroup(source: string, g: Group)
    ensures Get([], source, []) + g == g && Put([], source, g) == [(source, g)]
  {
  }

  lemma OnlyGroup(source: string, g: Group, h: Group)
    ensures Get([(source, g)], source, []) == g && Put([(source, g)], source, h) == [(source, h)]
  {
    var d := [(source, g)];
    assert d[0].0 == source;
    assert IndexOf(d, source) == 0;
  }

  /** With one source and no weights the alpha of a name is its standard score. */
  lemma OneSourceAlpha(signals: seq<Signal>, source: string, sqrt: real -> real, symbol: string)
    requires |signals| > 0 && forall i :: 0 <= i < |signals| ==> signals[i].source == source
    ensures Get(Combined(signals, None, sqrt), symbol, 0.0) == Get(ZScore(signals, sqrt), symbol, 0.0)
  {
    OneGroup(signals, |signals|, source);
    assert signals[..|signals|] == signals;
    AlphaIsShareSum(signals, None, sqrt, symbol);
    hide ZScore, Get, Grouped, Combined;
    TimesOne(Get(ZScore(signals, sqrt), symbol, 0.0));
    assert AlphaOf([(source, signals)], None, sqrt, symbol, 0) == 0.0;
  }

  /** The distance of two alphas of a single source, in its standard deviations, is the distance of the scores. */
  lemma OneSourceDistance(signals: seq<Signal>, source: string, sqrt: real -> real, i: nat, j: nat,
                          mean: real, sd: real)
    requires |signals| >= 2 && LastWord(signals, i) && LastWord(signals, j) && Sizing.IsSqrt(sqrt)
    requires forall k :: 0 <= k < |signals| ==> signals[k].source == source
    requires Times(mean, |signals| as real) == ScoreSum(signals, |signals|)
    requires sd > 0.0 && Times(Times(sd, sd), (|signals| - 1) as real) == SquareSum(signals, mean, |signals|)
    ensures var a, b := Get(Combined(signals, None, sqrt), signals[i].symbol, 0.0),
                        Get(Combined(signals, None, sqrt), signals[j].symbol, 0.0);
            && Times(a - b, sd) == signals[i].score - signals[j].score
            && (a > b <==> signals[i].score > signals[j].score)
  {
    hide Get, Combined, ZScore, ScoreSum, SquareSum, Sizing.IsSqrt;
    var a, b := Get(Combined(signals, None, sqrt), signals[i].symbol, 0.0),
                Get(Combined(signals, None, sqrt), signals[j].symbol, 0.0);
    OneSourceAlpha(signals, source, sqrt, signals[i].symbol);
    OneSourceAlpha(signals, source, sqrt, signals[j].symbol);
    ZScoreIs(signals, sqrt, i, mean, sd);
    ZScoreIs(signals, sqrt, j, mean, sd);
    Difference(a, b, sd);
  }

  lemma Difference(a: real, b: real, sd: real)
    requires sd > 0.0
    ensures Times(a - b, sd) == Times(a, sd) - Times(b, sd)
    ensures a > b <==> Times(a - b, sd) > 0.0
  {
    if a > b { var p := PositiveProduct(a - b, sd); } else { var p := NonNegativeProduct(b - a, sd); }
  }
}
