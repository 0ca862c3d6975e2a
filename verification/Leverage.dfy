/** When overlaid books stay within the gross-leverage cap: the exact condition without a sector map, and what
    a given sector map changes, which is that it bounds what a book can hold at all. */
module Leverage {
  import opened Dicts
  import opened Reals
  import opened Exposure

  // ---- books of equal weights under fresh names ----

  function FreshName(base: nat, i: nat): string {
    seq(base + 1 + i, _ => 'x')
  }

  /** n names, each longer than `base` and unlike the others, all with weight a. */
  function FreshBook(base: nat, n: nat, a: real): (w: Book)
    ensures |w| == n
  {
    seq(n, i requires 0 <= i < n => (FreshName(base, i), a))
  }

  lemma FreshDistinct(base: nat, n: nat, a: real)
    ensures Distinct(FreshBook(base, n, a))
  {
    var w := FreshBook(base, n, a);
    forall i, j | 0 <= i < j < n ensures w[i].0 != w[j].0 {
      assert |w[i].0| == base + 1 + i && |w[j].0| == base + 1 + j;
    }
  }

  lemma {:induction false} EqualGross(w: Book, p: string -> bool, a: real, n: nat)
    requires n <= |w| && forall i :: 0 <= i < n ==> p(w[i].0) && Abs(w[i].1) == a
    ensures GrossN(w, p, n) == Times(n as real, a)
  {
    if n == 0 {
      TimesZero(a);
    } else {
      EqualGross(w, p, a, n - 1);
      TimesAdds((n - 1) as real, 1.0, a);
      TimesOne(a);
    }
  }

  lemma {:induction false} GrossPrefix(a: Book, b: Book, p: string -> bool, n: nat)
    requires n <= |a|
    ensures GrossN(a + b, p, n) == GrossN(a, p, n)
  {
    if n > 0 { GrossPrefix(a, b, p, n - 1); }
  }

  lemma {:induction false} GrossConcat(a: Book, b: Book, p: string -> bool, n: nat)
    requires n <= |b|
    ensures GrossN(a + b, p, |a| + n) == Gross(a, p) + GrossN(b, p, n)
  {
    if n == 0 {
      GrossPrefix(a, b, p, |a|);
    } else {
      GrossConcat(a, b, p, n - 1);
      assert (a + b)[|a| + n - 1] == b[n - 1];
    }
  }

  /** How many names of weight a reach a total. */
  function Enough(total: real, a: real): (n: nat)
    requires total >= 0.0 && a > 0.0
    ensures Times(n as real, a) >= total
  {
    DivideNonNegative(total, a);
    var q := total / a;
    EnoughFor(total, a, (q.Floor + 1) as real);
    q.Floor + 1
  }

  lemma EnoughFor(total: real, a: real, n: real)
    requires a > 0.0 && n >= total / a
    ensures Times(n, a) >= total
  {
    var q := total / a;
    assert q * a == total;
    var r := NonNegativeProduct(n - q, a);
  }

  // ---- without a sector map ----

  /** Every book over distinct names leaves the overlay within the gross cap. */
  ghost predicate LeverageHolds(lim: Limits, sectors: Option<Dict<string>>, avgCorrelation: real) {
    forall w :: Distinct(w) ==> Gross(Overlaid(w, lim, sectors, avgCorrelation), Everything()) <= lim.gross
  }

  lemma BudgetExceeds(lim: Limits, avgCorrelation: real)
    requires lim.gross >= 0.0
    ensures Budget(lim, avgCorrelation) > lim.gross
       <==> lim.gross > 0.0 && lim.correlationThreshold <= avgCorrelation < 0.0
  {
    if lim.gross > 0.0 { HaircutIff(lim, avgCorrelation); }
  }

  /** Without a sector map every book leaves the overlay within the gross cap exactly when the haircut is not
      applied to a negative average correlation, or nothing can be held at all. */
  lemma GrossLeverageIff(lim: Limits, avgCorrelation: real)
    requires lim.asset >= 0.0 && lim.gross >= 0.0
    ensures LeverageHolds(lim, None, avgCorrelation)
       <==> !(lim.correlationThreshold <= avgCorrelation < 0.0) || lim.asset == 0.0 || lim.gross == 0.0
  {
    hide Budget, Overlaid, Gross, Everything;
    var budget := Budget(lim, avgCorrelation);
    BudgetExceeds(lim, avgCorrelation);
    if budget > lim.gross && lim.asset > 0.0 {
      var w := FreshBook(0, Enough(budget, lim.asset), lim.asset);
      FreshDistinct(0, |w|, lim.asset);
      FreshReaches(lim, avgCorrelation, w);
      assert !LeverageHolds(lim, None, avgCorrelation);
    } else {
      forall w | Distinct(w) ensures Gross(Overlaid(w, lim, None, avgCorrelation), Everything()) <= lim.gross {
        WithinBudget(lim, avgCorrelation, w);
      }
    }
  }

  /** The sector limit plays no part without a sector map. */
  lemma NoSectorLimit(lim: Limits, avgCorrelation: real, w: Book)
    ensures Overlaid(w, lim, None, avgCorrelation) == Overlaid(w, lim.(sector := 0.0), None, avgCorrelation)
    ensures Budget(lim, avgCorrelation) == Budget(lim.(sector := 0.0), avgCorrelation)
  {
    hide Clipped, BookScaled;
    assert Budget(lim, avgCorrelation) == Budget(lim.(sector := 0.0), avgCorrelation);
  }

  lemma FreshReaches(lim: Limits, avgCorrelation: real, w: Book)
    requires lim.asset > 0.0 && lim.gross >= 0.0
    requires w == FreshBook(0, Enough(Budget(lim, avgCorrelation), lim.asset), lim.asset)
    requires Budget(lim, avgCorrelation) >= 0.0
    ensures Gross(Overlaid(w, lim, None, avgCorrelation), Everything()) == Budget(lim, avgCorrelation)
  {
    hide Budget, Overlaid;
    NoSectorLimit(lim, avgCorrelation, w);
    NoMoreThanNeeded(w, lim.(sector := 0.0), None, avgCorrelation);
    var c := Clipped(w, lim.asset);
    EqualGross(c, Everything(), lim.asset, |w|);
    assert Gross(c, Everything()) >= Budget(lim, avgCorrelation);
    assert Smaller(Gross(c, Everything()), Budget(lim, avgCorrelation)) == Budget(lim, avgCorrelation);
  }

  lemma WithinBudget(lim: Limits, avgCorrelation: real, w: Book)
    requires lim.asset >= 0.0 && lim.gross >= 0.0
    ensures Gross(Overlaid(w, lim, None, avgCorrelation), Everything()) <= Budget(lim, avgCorrelation)
    ensures lim.asset == 0.0 ==> Gross(Overlaid(w, lim, None, avgCorrelation), Everything()) <= 0.0
  {
    hide Budget, Overlaid;
    NoSectorLimit(lim, avgCorrelation, w);
    NoMoreThanNeeded(w, lim.(sector := 0.0), None, avgCorrelation);
    if lim.asset == 0.0 {
      EqualGross(Clipped(w, 0.0), Everything(), 0.0, |w|);
      TimesZero(|w| as real);
    }
  }

  // ---- with a sector map ----

  /** Names that the map puts into a sector of its own. */
  function Known(sectors: Dict<string>): string -> bool {
    name => SectorOf(sectors, name) != "UNKNOWN"
  }

  /** Names of one of the listed sectors. */
  function InOneOf(sectors: Dict<string>, ks: seq<string>): string -> bool {
    name => SectorOf(sectors, name) in ks
  }

  /** Every mapped name at the asset cap. */
  function FullBook(sectors: Dict<string>, a: real): (w: Book)
    ensures |w| == |sectors|
  {
    seq(|sectors|, i requires 0 <= i < |sectors| => (sectors[i].0, a))
  }

  /** The most a book can hold under the asset and sector caps: every mapped name at the asset cap, sector by
      sector, and the sector cap for all unmapped names. */
  function Capacity(sectors: Dict<string>, lim: Limits): real {
    if lim.asset == 0.0 then 0.0
    else Gross(SectorScaled(FullBook(sectors, lim.asset), sectors, lim.sector), Known(sectors)) + lim.sector
  }

  /** The sectors of the map, each once, without the unknown one. */
  function SectorNames(sectors: Dict<string>): (ks: seq<string>)
    ensures forall i, j :: 0 <= i < j < |ks| ==> ks[i] != ks[j]
    ensures "UNKNOWN" !in ks
    ensures forall i :: 0 <= i < |sectors| && sectors[i].1 != "UNKNOWN" ==> sectors[i].1 in ks
  {
    if |sectors| == 0 then []
    else
      var rest, k := SectorNames(sectors[..|sectors| - 1]), sectors[|sectors| - 1].1;
      if k == "UNKNOWN" || k in rest then rest else rest + [k]
  }

  lemma KnownIsListed(sectors: Dict<string>, name: string)
    ensures Known(sectors)(name) <==> InOneOf(sectors, SectorNames(sectors))(name)
  {
    hide SectorNames;
    var i := IndexOf(sectors, name);
  }

  lemma {:induction false} GrossSame(w: Book, p: string -> bool, q: string -> bool, n: nat)
    requires n <= |w| && forall name :: p(name) <==> q(name)
    ensures GrossN(w, p, n) == GrossN(w, q, n)
  {
    if n > 0 { GrossSame(w, p, q, n - 1); }
  }

  lemma {:induction false} GrossUnion(w: Book, p: string -> bool, q: string -> bool, r: string -> bool, n: nat)
    requires n <= |w| && forall name :: (r(name) <==> p(name) || q(name)) && !(p(name) && q(name))
    ensures GrossN(w, r, n) == GrossN(w, p, n) + GrossN(w, q, n)
  {
    if n > 0 { GrossUnion(w, p, q, r, n - 1); }
  }

  /** What holds in every listed sector holds for all of them together. */
  lemma {:induction false} SectorwiseBelow(w: Book, v: Book, sectors: Dict<string>, ks: seq<string>)
    requires forall i, j :: 0 <= i < j < |ks| ==> ks[i] != ks[j]
    requires forall k :: k in ks ==> Gross(w, InSector(sectors, k)) <= Gross(v, InSector(sectors, k))
    ensures Gross(w, InOneOf(sectors, ks)) <= Gross(v, InOneOf(sectors, ks))
  {
    if |ks| == 0 {
      NothingPasses(w, InOneOf(sectors, ks), |w|);
      NothingPasses(v, InOneOf(sectors, ks), |v|);
    } else {
      var front, k := ks[..|ks| - 1], ks[|ks| - 1];
      SectorwiseBelow(w, v, sectors, front);
      forall name
        ensures InOneOf(sectors, ks)(name) <==> InOneOf(sectors, front)(name) || InSector(sectors, k)(name)
        ensures !(InOneOf(sectors, front)(name) && InSector(sectors, k)(name))
      {
        assert ks == front + [k];
      }
      GrossUnion(w, InOneOf(sectors, front), InSector(sectors, k), InOneOf(sectors, ks), |w|);
      GrossUnion(v, InOneOf(sectors, front), InSector(sectors, k), InOneOf(sectors, ks), |v|);
    }
  }

  lemma {:induction false} NothingPasses(w: Book, p: string -> bool, n: nat)
    requires n <= |w| && forall name :: !p(name)
    ensures GrossN(w, p, n) == 0.0
  {
    if n > 0 { NothingPasses(w, p, n - 1); }
  }

  lemma KnownBelow(w: Book, v: Book, sectors: Dict<string>)
    requires forall k :: k != "UNKNOWN" ==> Gross(w, InSector(sectors, k)) <= Gross(v, InSector(sectors, k))
    ensures Gross(w, Known(sectors)) <= Gross(v, Known(sectors))
  {
    hide SectorNames;
    var ks := SectorNames(sectors);
    forall name ensures Known(sectors)(name) <==> InOneOf(sectors, ks)(name) { KnownIsListed(sectors, name); }
    SectorwiseBelow(w, v, sectors, ks);
    GrossSame(w, Known(sectors), InOneOf(sectors, ks), |w|);
    GrossSame(v, Known(sectors), InOneOf(sectors, ks), |v|);
  }

  // -- counting the names of a sector --

  function Names(w: Book, p: string -> bool, n: nat): set<string>
    requires n <= |w|
  {
    set i | 0 <= i < n && p(w[i].0) :: w[i].0
  }

  lemma NamesGrow(w: Book, p: string -> bool, n: nat)
    requires Distinct(w) && n <= |w|
    ensures if n == 0 then Names(w, p, n) == {}
            else |Names(w, p, n)| == |Names(w, p, n - 1)| + if p(w[n - 1].0) then 1 else 0
  {
    if n > 0 {
      var before, name := Names(w, p, n - 1), w[n - 1].0;
      assert name !in before;
      assert Names(w, p, n) == if p(name) then before + {name} else before;
    }
  }

  lemma {:induction false} GrossByCount(w: Book, p: string -> bool, a: real, n: nat)
    requires Distinct(w) && n <= |w| && a >= 0.0 && forall i :: 0 <= i < |w| ==> Abs(w[i].1) <= a
    ensures GrossN(w, p, n) <= Times(|Names(w, p, n)| as real, a)
    ensures (forall i :: 0 <= i < |w| ==> Abs(w[i].1) == a) ==> GrossN(w, p, n) == Times(|Names(w, p, n)| as real, a)
  {
    hide Names, Times, Distinct;
    NamesGrow(w, p, n);
    if n == 0 {
      TimesZero(a);
    } else {
      GrossByCount(w, p, a, n - 1);
      TimesAdds(|Names(w, p, n - 1)| as real, 1.0, a);
      TimesOne(a);
    }
  }

  /** Names of a sector of the map are keys of the map. */
  lemma SectorNamesMapped(w: Book, sectors: Dict<string>, a: real, k: string)
    requires k != "UNKNOWN"
    ensures Names(w, InSector(sectors, k), |w|) <= Names(FullBook(sectors, a), InSector(sectors, k), |sectors|)
  {
    var full, p := FullBook(sectors, a), InSector(sectors, k);
    forall name | name in Names(w, p, |w|) ensures name in Names(full, p, |full|) {
      var i := IndexOf(sectors, name);
      assert full[i].0 == name;
    }
  }

  lemma CountTimes(few: nat, all: nat, a: real)
    requires few <= all && a >= 0.0
    ensures Times(few as real, a) <= Times(all as real, a)
  {
    var r := NonNegativeProduct((all - few) as real, a);
    TimesAdds((all - few) as real, few as real, a);
  }

  /** In a sector of the map no book holds more than all of the sector's names at the asset cap. */
  lemma SectorBelowFull(w: Book, sectors: Dict<string>, a: real, k: string)
    requires Distinct(w) && Distinct(sectors) && a >= 0.0 && k != "UNKNOWN"
    requires forall i :: 0 <= i < |w| ==> Abs(w[i].1) <= a
    ensures Gross(w, InSector(sectors, k)) <= Gross(FullBook(sectors, a), InSector(sectors, k))
  {
    hide Names, Times, GrossN, InSector;
    var full, p := FullBook(sectors, a), InSector(sectors, k);
    GrossByCount(w, p, a, |w|);
    GrossByCount(full, p, a, |full|);
    SectorNamesMapped(w, sectors, a, k);
    SubsetSize(Names(w, p, |w|), Names(full, p, |full|));
    CountTimes(|Names(w, p, |w|)|, |Names(full, p, |full|)|, a);
  }

  lemma UnknownApart(w: Book, sectors: Dict<string>)
    ensures Gross(w, Everything()) == Gross(w, Known(sectors)) + Gross(w, InSector(sectors, "UNKNOWN"))
  {
    GrossUnion(w, Known(sectors), InSector(sectors, "UNKNOWN"), Everything(), |w|);
  }

  // -- the two halves --

  /** After the sector stage a book holds no more than the capacity. */
  lemma WithinCapacity(w: Book, sectors: Dict<string>, lim: Limits)
    requires NonNegative(lim) && Distinct(w) && Distinct(sectors)
    ensures Gross(SectorScaled(Clipped(w, lim.asset), sectors, lim.sector), Everything()) <= Capacity(sectors, lim)
  {
    hide Gross, Smaller;
    var c, full := Clipped(w, lim.asset), FullBook(sectors, lim.asset);
    var s, v := SectorScaled(c, sectors, lim.sector), SectorScaled(full, sectors, lim.sector);
    ClippedKeeps(w, lim.asset);
    if lim.asset == 0.0 {
      ZeroBook(c, sectors, lim.sector);
    } else {
      forall k | k != "UNKNOWN" ensures Gross(s, InSector(sectors, k)) <= Gross(v, InSector(sectors, k)) {
        SectorBelowFull(c, sectors, lim.asset, k);
        SectorExact(c, sectors, lim.sector, k);
        SectorExact(full, sectors, lim.sector, k);
        SmallerGrows(Gross(c, InSector(sectors, k)), Gross(full, InSector(sectors, k)), lim.sector);
      }
      KnownBelow(s, v, sectors);
      SectorExact(c, sectors, lim.sector, "UNKNOWN");
      UnknownApart(s, sectors);
      SmallerBelow(Gross(c, InSector(sectors, "UNKNOWN")), lim.sector);
    }
  }

  lemma ClippedKeeps(w: Book, a: real)
    requires a >= 0.0
    ensures Distinct(w) ==> Distinct(Clipped(w, a))
    ensures forall i :: 0 <= i < |w| ==> Abs(Clipped(w, a)[i].1) <= a
  {
  }

  lemma SmallerGrows(x: real, y: real, cap: real)
    ensures x <= y ==> Smaller(x, cap) <= Smaller(y, cap)
  {
  }

  lemma SmallerBelow(x: real, cap: real)
    ensures Smaller(x, cap) <= cap && (x >= cap ==> Smaller(x, cap) == cap)
  {
  }

  lemma ZeroBook(c: Book, sectors: Dict<string>, cap: real)
    requires cap >= 0.0 && forall i :: 0 <= i < |c| ==> Abs(c[i].1) <= 0.0
    ensures Gross(SectorScaled(c, sectors, cap), Everything()) <= 0.0
  {
    SectorStage(c, sectors, cap);
    GrossShrinks(SectorScaled(c, sectors, cap), c, Everything(), |c|);
    EqualGross(c, Everything(), 0.0, |c|);
    TimesZero(|c| as real);
  }

  /** The sector stage brings each sector exactly to the smaller of its gross and the cap. */
  lemma SectorExact(c: Book, sectors: Dict<string>, cap: real, k: string)
    requires cap >= 0.0
    ensures Gross(SectorScaled(c, sectors, cap), InSector(sectors, k)) == Smaller(Gross(c, InSector(sectors, k)), cap)
  {
    hide Times, CapFactor, Gross, Smaller;
    var g := Gross(c, InSector(sectors, k));
    FactorExact(g, cap);
    GrossScalesAll(SectorScaled(c, sectors, cap), c, InSector(sectors, k), CapFactor(g, cap));
  }

  function LongestKey(sectors: Dict<string>): (n: nat)
    ensures forall i :: 0 <= i < |sectors| ==> |sectors[i].0| <= n
  {
    if |sectors| == 0 then 0
    else
      var n, m := LongestKey(sectors[..|sectors| - 1]), |sectors[|sectors| - 1].0|;
      if m > n then m else n
  }

  /** Every mapped name, and enough unmapped ones, at the asset cap. */
  function LargestBook(sectors: Dict<string>, lim: Limits): Book
    requires NonNegative(lim) && lim.asset > 0.0
  {
    FullBook(sectors, lim.asset)
    + FreshBook(LongestKey(sectors), Enough(lim.sector, lim.asset), lim.asset)
  }

  lemma LargestDistinct(sectors: Dict<string>, lim: Limits)
    requires NonNegative(lim) && lim.asset > 0.0 && Distinct(sectors)
    ensures Distinct(LargestBook(sectors, lim)) && Clipped(LargestBook(sectors, lim), lim.asset) == LargestBook(sectors, lim)
  {
    hide LongestKey, Enough;
    var base, n := LongestKey(sectors), Enough(lim.sector, lim.asset);
    var w := LargestBook(sectors, lim);
    FreshDistinct(base, n, lim.asset);
    forall i, j | 0 <= i < j < |w| ensures w[i].0 != w[j].0 {
      if i >= |sectors| {
        assert FreshBook(base, n, lim.asset)[i - |sectors|].0 != FreshBook(base, n, lim.asset)[j - |sectors|].0;
      } else if j >= |sectors| {
        assert |w[j].0| > base >= |w[i].0|;
      }
    }
  }

  lemma FreshUnknown(sectors: Dict<string>, i: nat)
    ensures SectorOf(sectors, FreshName(LongestKey(sectors), i)) == "UNKNOWN"
  {
    hide LongestKey;
    var name := FreshName(LongestKey(sectors), i);
    forall k | 0 <= k < |sectors| ensures sectors[k].0 != name {
      assert |name| > LongestKey(sectors) >= |sectors[k].0|;
    }
  }

  /** Some book holds exactly the capacity. */
  lemma CapacityReached(sectors: Dict<string>, lim: Limits)
    requires NonNegative(lim) && lim.asset > 0.0 && Distinct(sectors)
    ensures Gross(SectorScaled(LargestBook(sectors, lim), sectors, lim.sector), Everything()) == Capacity(sectors, lim)
  {
    hide Gross, Smaller, LongestKey, Enough;
    var full, w := FullBook(sectors, lim.asset), LargestBook(sectors, lim);
    var s, v := SectorScaled(w, sectors, lim.sector), SectorScaled(full, sectors, lim.sector);
    forall k | k != "UNKNOWN" ensures Gross(s, InSector(sectors, k)) == Gross(v, InSector(sectors, k)) {
      LargestInSector(sectors, lim, k);
      SectorExact(w, sectors, lim.sector, k);
      SectorExact(full, sectors, lim.sector, k);
    }
    KnownBelow(s, v, sectors);
    KnownBelow(v, s, sectors);
    LargestUnknown(sectors, lim);
    SectorExact(w, sectors, lim.sector, "UNKNOWN");
    SmallerBelow(Gross(w, InSector(sectors, "UNKNOWN")), lim.sector);
    UnknownApart(s, sectors);
  }

  lemma LargestInSector(sectors: Dict<string>, lim: Limits, k: string)
    requires NonNegative(lim) && lim.asset > 0.0 && k != "UNKNOWN"
    ensures Gross(LargestBook(sectors, lim), InSector(sectors, k))
         == Gross(FullBook(sectors, lim.asset), InSector(sectors, k))
  {
    hide LongestKey, Enough, FreshName;
    var full := FullBook(sectors, lim.asset);
    var extra := FreshBook(LongestKey(sectors), Enough(lim.sector, lim.asset), lim.asset);
    forall i | 0 <= i < |extra| ensures !InSector(sectors, k)(extra[i].0) { FreshUnknown(sectors, i); }
    GrossConcat(full, extra, InSector(sectors, k), |extra|);
    NonePass(extra, InSector(sectors, k), |extra|);
  }

  lemma {:induction false} NonePass(w: Book, p: string -> bool, n: nat)
    requires n <= |w| && forall i :: 0 <= i < |w| ==> !p(w[i].0)
    ensures GrossN(w, p, n) == 0.0
  {
    if n > 0 { NonePass(w, p, n - 1); }
  }

  lemma LargestUnknown(sectors: Dict<string>, lim: Limits)
    requires NonNegative(lim) && lim.asset > 0.0
    ensures Gross(LargestBook(sectors, lim), InSector(sectors, "UNKNOWN")) >= lim.sector
  {
    hide LongestKey, Enough, FreshName;
    var full := FullBook(sectors, lim.asset);
    var extra := FreshBook(LongestKey(sectors), Enough(lim.sector, lim.asset), lim.asset);
    forall i | 0 <= i < |extra| ensures InSector(sectors, "UNKNOWN")(extra[i].0) { FreshUnknown(sectors, i); }
    GrossConcat(full, extra, InSector(sectors, "UNKNOWN"), |extra|);
    EqualGross(extra, InSector(sectors, "UNKNOWN"), lim.asset, |extra|);
  }

  /** With a sector map every book leaves the overlay within the gross cap exactly when the haircut is not
      applied to a negative average correlation, or what the map's sectors can hold is within the cap. */
  lemma SectoredLeverageIff(lim: Limits, sectors: Dict<string>, avgCorrelation: real)
    requires NonNegative(lim) && Distinct(sectors) && sectors != []
    ensures LeverageHolds(lim, Some(sectors), avgCorrelation)
       <==> !(lim.correlationThreshold <= avgCorrelation < 0.0) || lim.gross == 0.0
            || Capacity(sectors, lim) <= lim.gross
  {
    hide Budget, Overlaid, Gross, Everything, Capacity, LargestBook, Smaller;
    BudgetExceeds(lim, avgCorrelation);
    var budget, capacity := Budget(lim, avgCorrelation), Capacity(sectors, lim);
    forall w | Distinct(w)
      ensures Gross(Overlaid(w, lim, Some(sectors), avgCorrelation), Everything()) <= Smaller(capacity, budget)
    {
      SectoredGross(lim, sectors, avgCorrelation, w);
      WithinCapacity(w, sectors, lim);
      var s := SectorScaled(Clipped(w, lim.asset), sectors, lim.sector);
      SmallerGrows(Gross(s, Everything()), capacity, budget);
    }
    if budget > lim.gross && capacity > lim.gross {
      CapacityZero(sectors, lim);
      var w := LargestBook(sectors, lim);
      LargestDistinct(sectors, lim);
      SectoredGross(lim, sectors, avgCorrelation, w);
      CapacityReached(sectors, lim);
      SmallerAbove(capacity, budget, lim.gross);
      assert !LeverageHolds(lim, Some(sectors), avgCorrelation);
    } else {
      SmallerWithin(capacity, budget, lim.gross);
    }
  }

  lemma CapacityZero(sectors: Dict<string>, lim: Limits)
    ensures lim.asset == 0.0 ==> Capacity(sectors, lim) == 0.0
  {
  }

  lemma SmallerAbove(x: real, y: real, z: real)
    requires x > z && y > z
    ensures Smaller(x, y) > z
  {
  }

  lemma SmallerWithin(x: real, y: real, z: real)
    requires x <= z || y <= z
    ensures Smaller(x, y) <= z
  {
  }

  lemma SectoredGross(lim: Limits, sectors: Dict<string>, avgCorrelation: real, w: Book)
    requires NonNegative(lim) && sectors != []
    ensures Gross(Overlaid(w, lim, Some(sectors), avgCorrelation), Everything()) ==
            Smaller(Gross(SectorScaled(Clipped(w, lim.asset), sectors, lim.sector), Everything()),
                    Budget(lim, avgCorrelation))
  {
    hide Budget, Gross, Smaller, Overlaid;
    NoMoreThanNeeded(w, lim, Some(sectors), avgCorrelation);
  }
}
