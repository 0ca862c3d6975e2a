/** The exposure overlay: clip every name, scale breaching sectors, then scale the whole book. */
module Exposure {
  import opened Dicts
  import opened Reals

  type Book = Dict<real>

  datatype Limits = Limits(asset: real, sector: real, gross: real, correlationThreshold: real)

  predicate NonNegative(lim: Limits) {
    lim.asset >= 0.0 && lim.sector >= 0.0 && lim.gross >= 0.0
  }

  /** max(-cap, min(cap, x)) */
  function Clamp(cap: real, x: real): real {
    var y := if x < cap then x else cap;
    if y > -cap then y else -cap
  }

  /** A missing, or empty, sector map switches the sector stage off. */
  predicate Sectored(sectors: Option<Dict<string>>) {
    sectors.Some? && sectors.value != []
  }

  function SectorOf(sectors: Dict<string>, name: string): string {
    Get(sectors, name, "UNKNOWN")
  }

  /** The names of one sector, as a test on names. */
  function InSector(sectors: Dict<string>, sector: string): string -> bool {
    name => SectorOf(sectors, name) == sector
  }

  function Everything(): string -> bool {
    name => true
  }

  /** Sum of |w| over the first n entries whose name passes the test. */
  function GrossN(w: Book, p: string -> bool, n: nat): (g: real)
    requires n <= |w|
    ensures g >= 0.0
  {
    if n == 0 then 0.0
    else GrossN(w, p, n - 1) + if p(w[n - 1].0) then Abs(w[n - 1].1) else 0.0
  }

  function Gross(w: Book, p: string -> bool): (g: real)
    ensures g >= 0.0
  {
    GrossN(w, p, |w|)
  }

  // ---- the three stages ----

  function Clipped(w: Book, cap: real): (r: Book)
    ensures |r| == |w|
  {
    seq(|w|, i requires 0 <= i < |w| => (w[i].0, Clamp(cap, w[i].1)))
  }

  /** The factor that brings a gross over its cap down to the cap. */
  function CapFactor(gross: real, cap: real): real {
    if gross > cap && gross > 0.0 then cap / gross else 1.0
  }

  function SectorScaled(w: Book, sectors: Dict<string>, cap: real): (r: Book)
    ensures |r| == |w|
  {
    seq(|w|, i requires 0 <= i < |w| =>
      (w[i].0, Times(w[i].1, CapFactor(Gross(w, InSector(sectors, SectorOf(sectors, w[i].0))), cap))))
  }

  /** The gross budget, with the haircut for a correlated book. */
  function Budget(lim: Limits, avgCorrelation: real): real {
    if avgCorrelation >= lim.correlationThreshold
    then lim.gross * (if 1.0 - avgCorrelation > 0.0 then 1.0 - avgCorrelation else 0.0)
    else lim.gross
  }

  function BookScaled(w: Book, budget: real): (r: Book)
    ensures |r| == |w|
  {
    seq(|w|, i requires 0 <= i < |w| =>
      (w[i].0, Times(w[i].1, CapFactor(Gross(w, Everything()), budget))))
  }

  /** The book after clipping and the sector stage. */
  function Staged(w: Book, lim: Limits, sectors: Option<Dict<string>>): (r: Book)
    ensures |r| == |w|
  {
    var clipped := Clipped(w, lim.asset);
    if Sectored(sectors) then SectorScaled(clipped, sectors.value, lim.sector) else clipped
  }

  function Overlaid(w: Book, lim: Limits, sectors: Option<Dict<string>>, avgCorrelation: real): (r: Book)
    ensures |r| == |w|
  {
    BookScaled(Staged(w, lim, sectors), Budget(lim, avgCorrelation))
  }

  // ---- the overlay as it runs: dictionaries updated in place ----

  /** The accumulated sector grosses after the first n entries. */
  ghost predicate SectorTotals(totals: Dict<real>, w: Book, sectors: Dict<string>, n: nat)
    requires n <= |w|
  {
    forall k :: Get(totals, k, 0.0) == GrossN(w, InSector(sectors, k), n)
  }

  /** First half of the sector stage: accumulate the gross of every sector. */
  method SectorGrosses(w: Book, sectors: Dict<string>) returns (totals: Dict<real>)
    ensures SectorTotals(totals, w, sectors, |w|)
  {
    totals := [];
    for i := 0 to |w|
      invariant SectorTotals(totals, w, sectors, i)
    {
      var sec := SectorOf(sectors, w[i].0);
      var g := Get(totals, sec, 0.0) + Abs(w[i].1);
      forall k ensures Get(Put(totals, sec, g), k, 0.0) == GrossN(w, InSector(sectors, k), i + 1) {
        GetPut(totals, sec, g, k, 0.0);
      }
      totals := Put(totals, sec, g);
    }
  }

  lemma GrossOfSector(totals: Dict<real>, w: Book, sectors: Dict<string>, sec: string)
    requires SectorTotals(totals, w, sectors, |w|)
    ensures Get(totals, sec, 0.0) == Gross(w, InSector(sectors, sec))
  {
  }

  /** Second half: rescale in place every name whose sector is over its cap. */
  method ScaleSectors(clipped: Book, sectors: Dict<string>, totals: Dict<real>, cap: real)
    returns (w: Book)
    requires cap >= 0.0 && SectorTotals(totals, clipped, sectors, |clipped|)
    ensures w == SectorScaled(clipped, sectors, cap)
  {
    hide Gross, Get;
    w := clipped;
    for i := 0 to |w|
      invariant |w| == |clipped|
      invariant forall j :: 0 <= j < i ==> w[j] == SectorScaled(clipped, sectors, cap)[j]
      invariant forall j :: i <= j < |w| ==> w[j] == clipped[j]
    {
      var sec := SectorOf(sectors, w[i].0);
      var g := Get(totals, sec, 0.0);
      GrossOfSector(totals, clipped, sectors, sec);
      ghost var target := Times(w[i].1, CapFactor(g, cap));
      assert target == if g > cap then w[i].1 * (cap / g) else w[i].1;
      if g > cap {
        w := w[i := (w[i].0, w[i].1 * (cap / g))];
      }
      assert w[i] == (clipped[i].0, target);
    }
  }

  /** The whole overlay, proved equal to its three stages. */
  method ApplyLimits(weights: Book, lim: Limits, sectors: Option<Dict<string>>, avgCorrelation: real)
    returns (w: Book)
    requires lim.sector >= 0.0
    ensures w == Overlaid(weights, lim, sectors, avgCorrelation)
  {
    w := Clipped(weights, lim.asset);
    if Sectored(sectors) {
      var totals := SectorGrosses(w, sectors.value);
      w := ScaleSectors(w, sectors.value, totals, lim.sector);
    }
    var budget := lim.gross;
    if avgCorrelation >= lim.correlationThreshold {
      budget := budget * (if 1.0 - avgCorrelation > 0.0 then 1.0 - avgCorrelation else 0.0);
    }
    assert budget == Budget(lim, avgCorrelation);
    hide BookScaled, SectorScaled, Clipped;
    w := ScaleBook(w, budget);
  }

  /** The final scalar. */
  method ScaleBook(w: Book, budget: real) returns (r: Book)
    ensures r == BookScaled(w, budget)
  {
    var gross := Gross(w, Everything());
    if gross > budget && gross > 0.0 {
      r := seq(|w|, i requires 0 <= i < |w| => (w[i].0, Rescale(w[i].1, budget, gross)));
      hide Gross, Times;
      forall i | 0 <= i < |w| ensures r[i] == BookScaled(w, budget)[i] {
        ProductThenQuotient(w[i].1, budget, gross);
      }
    } else {
      r := w;
      forall i | 0 <= i < |w| ensures r[i] == BookScaled(w, budget)[i] {
        TimesOne(w[i].1);
      }
    }
    assert r == BookScaled(w, budget);
  }

  function Rescale(x: real, budget: real, gross: real): real
    requires gross > 0.0
  {
    x * budget / gross
  }

  lemma ProductThenQuotient(x: real, budget: real, gross: real)
    requires gross > 0.0
    ensures Rescale(x, budget, gross) == Times(x, budget / gross)
  {
  }

  // ---- what the overlay guarantees ----

  /** Every budget at once: each name, each sector, and the whole book. */
  ghost predicate Within(w: Book, lim: Limits, sectors: Option<Dict<string>>, avgCorrelation: real) {
    && (forall i :: 0 <= i < |w| ==> Abs(w[i].1) <= lim.asset)
    && (Sectored(sectors) ==> forall k :: Gross(w, InSector(sectors.value, k)) <= lim.sector)
    && Gross(w, Everything()) <= Budget(lim, avgCorrelation)
  }

  /** Same name, same sign, no larger. */
  predicate Shrunk(a: (string, real), b: (string, real)) {
    a.0 == b.0 && (0.0 <= a.1 <= b.1 || b.1 <= a.1 <= 0.0)
  }

  ghost predicate AllShrunk(a: Book, b: Book) {
    |a| == |b| && forall i :: 0 <= i < |a| ==> Shrunk(a[i], b[i])
  }

  lemma {:induction false} GrossShrinks(a: Book, b: Book, p: string -> bool, n: nat)
    requires AllShrunk(a, b) && n <= |a|
    ensures GrossN(a, p, n) <= GrossN(b, p, n)
  {
    if n > 0 {
      GrossShrinks(a, b, p, n - 1);
      assert Shrunk(a[n - 1], b[n - 1]);
    }
  }

  /** Scaling every passing entry by t scales their gross by t. */
  lemma {:induction false} GrossScales(a: Book, b: Book, p: string -> bool, t: real, n: nat)
    requires |a| == |b| && n <= |a| && t >= 0.0
    requires forall i :: 0 <= i < |a| ==> a[i].0 == b[i].0
    requires forall i :: 0 <= i < |a| && p(b[i].0) ==> a[i].1 == Times(b[i].1, t)
    ensures GrossN(a, p, n) == Times(GrossN(b, p, n), t)
  {
    if n == 0 {
      assert Times(0.0, t) == 0.0;
    } else {
      hide Times, Abs;
      GrossScales(a, b, p, t, n - 1);
      AbsTimes(b[n - 1].1, t);
      TimesAdds(GrossN(b, p, n - 1), Abs(b[n - 1].1), t);
    }
  }

  lemma FactorProperties(g: real, cap: real)
    requires g >= 0.0 && cap >= 0.0
    ensures 0.0 <= CapFactor(g, cap) <= 1.0
    ensures Times(g, CapFactor(g, cap)) <= cap
  {
    if g > cap && g > 0.0 {
      var t := cap / g;
      assert t * g == cap;
      DivideNonNegative(cap, g);
      if t > 1.0 { var r := PositiveProduct(t - 1.0, g); }
    }
  }

  lemma ScaledShrinks(x: real, t: real, name: string)
    requires 0.0 <= t <= 1.0
    ensures Shrunk((name, Times(x, t)), (name, x))
  {
    TimesFraction(x, t);
  }

  lemma SectorStage(c: Book, sectors: Dict<string>, cap: real)
    requires cap >= 0.0
    ensures AllShrunk(SectorScaled(c, sectors, cap), c)
    ensures forall k :: Gross(SectorScaled(c, sectors, cap), InSector(sectors, k)) <= cap
  {
    var r := SectorScaled(c, sectors, cap);
    hide Times, CapFactor, Gross;
    forall i | 0 <= i < |c| ensures Shrunk(r[i], c[i]) {
      var g := Gross(c, InSector(sectors, SectorOf(sectors, c[i].0)));
      FactorProperties(g, cap);
      ScaledShrinks(c[i].1, CapFactor(g, cap), c[i].0);
    }
    forall k ensures Gross(r, InSector(sectors, k)) <= cap {
      var g := Gross(c, InSector(sectors, k));
      FactorProperties(g, cap);
      GrossScalesAll(r, c, InSector(sectors, k), CapFactor(g, cap));
    }
  }

  lemma BookStage(w: Book, budget: real)
    requires budget >= 0.0
    ensures AllShrunk(BookScaled(w, budget), w)
    ensures Gross(BookScaled(w, budget), Everything()) <= budget
  {
    var gross, r := Gross(w, Everything()), BookScaled(w, budget);
    FactorProperties(gross, budget);
    hide Times, CapFactor, Gross;
    forall i | 0 <= i < |w| ensures Shrunk(r[i], w[i]) {
      ScaledShrinks(w[i].1, CapFactor(gross, budget), w[i].0);
    }
    GrossScalesAll(r, w, Everything(), CapFactor(gross, budget));
  }

  lemma GrossScalesAll(a: Book, b: Book, p: string -> bool, t: real)
    requires |a| == |b| && t >= 0.0
    requires forall i :: 0 <= i < |a| ==> a[i].0 == b[i].0
    requires forall i :: 0 <= i < |a| && p(b[i].0) ==> a[i].1 == Times(b[i].1, t)
    ensures Gross(a, p) == Times(Gross(b, p), t)
  {
    GrossScales(a, b, p, t, |a|);
  }

  lemma BudgetNonNegative(lim: Limits, avgCorrelation: real)
    requires lim.gross >= 0.0
    ensures Budget(lim, avgCorrelation) >= 0.0
  {
    if 1.0 - avgCorrelation > 0.0 { var r := NonNegativeProduct(lim.gross, 1.0 - avgCorrelation); }
  }

  /** For every book and all non-negative limits the result meets the asset, sector and gross
      budgets at the same time, and every weight keeps its name and sign and is no larger. */
  lemma AllBudgetsHold(weights: Book, lim: Limits, sectors: Option<Dict<string>>, avgCorrelation: real)
    requires NonNegative(lim)
    ensures Within(Overlaid(weights, lim, sectors, avgCorrelation), lim, sectors, avgCorrelation)
    ensures AllShrunk(Overlaid(weights, lim, sectors, avgCorrelation), weights)
  {
    var c := Clipped(weights, lim.asset);
    var s := Staged(weights, lim, sectors);
    var budget := Budget(lim, avgCorrelation);
    var r := BookScaled(s, budget);
    if Sectored(sectors) { SectorStage(c, sectors.value, lim.sector); }
    BudgetNonNegative(lim, avgCorrelation);
    BookStage(s, budget);
    assert AllShrunk(s, c);
    forall i | 0 <= i < |r| ensures Shrunk(r[i], weights[i]) && Abs(r[i].1) <= lim.asset {
      assert Shrunk(r[i], s[i]) && Shrunk(s[i], c[i]);
    }
    if Sectored(sectors) {
      forall k ensures Gross(r, InSector(sectors.value, k)) <= lim.sector {
        GrossShrinks(r, s, InSector(sectors.value, k), |r|);
      }
    }
  }

  function Smaller(x: real, y: real): real {
    if x < y then x else y
  }

  lemma FactorExact(g: real, cap: real)
    requires g >= 0.0 && cap >= 0.0
    ensures CapFactor(g, cap) >= 0.0 && Times(g, CapFactor(g, cap)) == Smaller(g, cap)
  {
    if g > cap && g > 0.0 {
      var t := cap / g;
      assert t * g == cap;
      DivideNonNegative(cap, g);
    }
  }

  /** Each stage takes away no more than its cap asks: what is over a cap comes out exactly at it, and the
      rest is left alone. */
  lemma NoMoreThanNeeded(weights: Book, lim: Limits, sectors: Option<Dict<string>>, avgCorrelation: real)
    requires NonNegative(lim)
    ensures var c := Clipped(weights, lim.asset);
            var s := Staged(weights, lim, sectors);
            var r := Overlaid(weights, lim, sectors, avgCorrelation);
            && (forall i :: 0 <= i < |c| ==> Abs(c[i].1) == Smaller(Abs(weights[i].1), lim.asset))
            && (Sectored(sectors) ==>
                  forall k :: Gross(s, InSector(sectors.value, k))
                           == Smaller(Gross(c, InSector(sectors.value, k)), lim.sector))
            && Gross(r, Everything()) == Smaller(Gross(s, Everything()), Budget(lim, avgCorrelation))
  {
    var c := Clipped(weights, lim.asset);
    var s := Staged(weights, lim, sectors);
    var budget := Budget(lim, avgCorrelation);
    assert forall i :: 0 <= i < |c| ==> Abs(c[i].1) == Smaller(Abs(weights[i].1), lim.asset);
    hide Times, CapFactor, Gross, Smaller, Budget;
    if Sectored(sectors) {
      forall k ensures Gross(s, InSector(sectors.value, k))
                    == Smaller(Gross(c, InSector(sectors.value, k)), lim.sector)
      {
        var g := Gross(c, InSector(sectors.value, k));
        FactorExact(g, lim.sector);
        GrossScalesAll(s, c, InSector(sectors.value, k), CapFactor(g, lim.sector));
      }
    }
    BudgetNonNegative(lim, avgCorrelation);
    FactorExact(Gross(s, Everything()), budget);
    GrossScalesAll(BookScaled(s, budget), s, Everything(), CapFactor(Gross(s, Everything()), budget));
  }

  /** A name belongs to the sector the map gives it; names that are not in the map share the sector UNKNOWN. */
  lemma SectorMeans(sectors: Dict<string>, name: string, sector: string)
    requires Distinct(sectors)
    ensures InSector(sectors, sector)(name) <==>
            if exists i :: 0 <= i < |sectors| && sectors[i].0 == name
            then exists i :: 0 <= i < |sectors| && sectors[i] == (name, sector)
            else sector == "UNKNOWN"
  {
    var k := IndexOf(sectors, name);
    if k < |sectors| { assert sectors[k].0 == name; }
  }

  /** An empty sector map is none at all: the sector cap is not applied. */
  lemma EmptyMapIsNone(w: Book, lim: Limits, avgCorrelation: real)
    ensures Overlaid(w, lim, Some([]), avgCorrelation) == Overlaid(w, lim, None, avgCorrelation)
    ensures Staged(w, lim, None) == Clipped(w, lim.asset)
  {
    hide BookScaled, Clipped;
  }

  /** The gross of the returned book, from the limits and the average correlation themselves: the smaller of the
      gross after the sector stage and the gross cap, the cap being cut by the correlation from the threshold on and
      to nothing at full correlation. And the book is in proportion to that of the sector stage. */
  lemma OverlaidGross(weights: Book, lim: Limits, sectors: Option<Dict<string>>, avgCorrelation: real)
    requires NonNegative(lim)
    ensures var s, r := Staged(weights, lim, sectors), Overlaid(weights, lim, sectors, avgCorrelation);
            var before, after := Gross(s, Everything()), Gross(r, Everything());
            && (avgCorrelation < lim.correlationThreshold ==> after == Smaller(before, lim.gross))
            && (lim.correlationThreshold <= avgCorrelation < 1.0 ==>
                  after == Smaller(before, lim.gross * (1.0 - avgCorrelation)))
            && (lim.correlationThreshold <= avgCorrelation && avgCorrelation >= 1.0 ==> after == 0.0)
            && forall i :: 0 <= i < |r| ==> r[i].0 == s[i].0 && Times(r[i].1, before) == Times(s[i].1, after)
  {
    NoMoreThanNeeded(weights, lim, sectors, avgCorrelation);
    BudgetIs(lim, avgCorrelation);
    var s, r := Staged(weights, lim, sectors), Overlaid(weights, lim, sectors, avgCorrelation);
    var before, after := Gross(s, Everything()), Gross(r, Everything());
    hide Times, Gross, Budget, Clipped, SectorScaled, CapFactor, Everything;
    BudgetNonNegative(lim, avgCorrelation);
    FactorExact(before, Budget(lim, avgCorrelation));
    forall i | 0 <= i < |r| ensures r[i].0 == s[i].0 && Times(r[i].1, before) == Times(s[i].1, after) {
      SwappedFactor(s[i].1, before, CapFactor(before, Budget(lim, avgCorrelation)));
    }
  }

  lemma BudgetIs(lim: Limits, c: real)
    requires NonNegative(lim)
    ensures c < lim.correlationThreshold ==> Budget(lim, c) == lim.gross
    ensures lim.correlationThreshold <= c < 1.0 ==> Budget(lim, c) == lim.gross * (1.0 - c)
    ensures lim.correlationThreshold <= c && c >= 1.0 ==> Budget(lim, c) == 0.0
  {
  }

  lemma SwappedFactor(x: real, g: real, t: real)
    ensures Times(Times(x, t), g) == Times(x, Times(g, t))
  {
  }

  /** The overlay leaves a book alone exactly when the book already meets every budget. */
  lemma UnchangedIffWithin(weights: Book, lim: Limits, sectors: Option<Dict<string>>, avgCorrelation: real)
    requires NonNegative(lim)
    ensures Overlaid(weights, lim, sectors, avgCorrelation) == weights
       <==> Within(weights, lim, sectors, avgCorrelation)
  {
    AllBudgetsHold(weights, lim, sectors, avgCorrelation);
    hide AllShrunk, Clipped, SectorScaled, BookScaled, Gross, Budget;
    if Within(weights, lim, sectors, avgCorrelation) {
      StagesLeave(weights, lim, sectors, avgCorrelation);
    }
  }

  /** A book within its budgets passes every stage unchanged. */
  lemma StagesLeave(w: Book, lim: Limits, sectors: Option<Dict<string>>, avgCorrelation: real)
    requires Within(w, lim, sectors, avgCorrelation)
    ensures Clipped(w, lim.asset) == w && BookScaled(w, Budget(lim, avgCorrelation)) == w
    ensures Sectored(sectors) ==> SectorScaled(w, sectors.value, lim.sector) == w
  {
    hide Times, Gross, Budget;
    forall i | 0 <= i < |w| ensures Times(w[i].1, 1.0) == w[i].1 { TimesOne(w[i].1); }
  }

  /** Applying the overlay twice is applying it once. */
  lemma Idempotent(weights: Book, lim: Limits, sectors: Option<Dict<string>>, avgCorrelation: real)
    requires NonNegative(lim)
    ensures var once := Overlaid(weights, lim, sectors, avgCorrelation);
            Overlaid(once, lim, sectors, avgCorrelation) == once
  {
    AllBudgetsHold(weights, lim, sectors, avgCorrelation);
    UnchangedIffWithin(Overlaid(weights, lim, sectors, avgCorrelation), lim, sectors, avgCorrelation);
  }

  /** The correlation haircut stays below the gross-leverage cap exactly when it is not applied to a
      negative average correlation. */
  lemma HaircutIff(lim: Limits, avgCorrelation: real)
    requires lim.gross > 0.0
    ensures Budget(lim, avgCorrelation) <= lim.gross
       <==> !(lim.correlationThreshold <= avgCorrelation < 0.0)
  {
    var t := 1.0 - avgCorrelation;
    if t > 1.0 {
      var r := PositiveProduct(lim.gross, t - 1.0);
    } else if t > 0.0 {
      var r := NonNegativeProduct(lim.gross, 1.0 - t);
    }
  }

  /** A book the overlay accepts although it is over the gross-leverage cap. */
  lemma NegativeCorrelationExample()
    ensures var lim := Limits(2.0, 2.0, 1.0, -0.5);
            var book: Book := [("AAA", 1.4)];
            && Overlaid(book, lim, None, -0.5) == book
            && Gross(book, Everything()) > lim.gross
  {
    var lim := Limits(2.0, 2.0, 1.0, -0.5);
    var book: Book := [("AAA", 1.4)];
    assert GrossN(book, Everything(), 1) == GrossN(book, Everything(), 0) + 1.4;
    UnchangedIffWithin(book, lim, None, -0.5);
  }

  /** Within one sector the overlay keeps the clipped weights in proportion. */
  lemma SectorProportions(weights: Book, lim: Limits, sectors: Option<Dict<string>>,
                          avgCorrelation: real, i: nat, j: nat)
    requires NonNegative(lim) && i < |weights| && j < |weights|
    requires Sectored(sectors) ==>
               SectorOf(sectors.value, weights[i].0) == SectorOf(sectors.value, weights[j].0)
    ensures var r := Overlaid(weights, lim, sectors, avgCorrelation);
            var c := Clipped(weights, lim.asset);
            Times(r[i].1, c[j].1) == Times(r[j].1, c[i].1)
  {
    var c := Clipped(weights, lim.asset);
    var s := Staged(weights, lim, sectors);
    var t := if Sectored(sectors)
             then CapFactor(Gross(c, InSector(sectors.value, SectorOf(sectors.value, c[i].0))), lim.sector)
             else 1.0;
    assert Times(c[i].1, 1.0) == c[i].1 && Times(c[j].1, 1.0) == c[j].1;
    assert s[i].1 == Times(c[i].1, t) && s[j].1 == Times(c[j].1, t);
    hide Gross, CapFactor, Budget, Sectored;
    ProportionAlgebra(c[i].1, c[j].1, t, CapFactor(Gross(s, Everything()), Budget(lim, avgCorrelation)));
  }

  lemma ProportionAlgebra(a: real, b: real, t: real, u: real)
    ensures Times(Times(Times(a, t), u), b) == Times(Times(Times(b, t), u), a)
  {
  }
}
