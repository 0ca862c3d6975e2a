/** Jaccard similarity of token sets, duplicate tiers and the ordered list of similar entries. */
module Similarity {
  import Dicts
  import opened Reals

  type Tokens = set<string>

  /** Shared share of the tokens; nothing is similar to an empty set. */
  function Jaccard(a: Tokens, b: Tokens): (r: real)
    ensures 0.0 <= r <= 1.0
  {
    if a == {} || b == {} then 0.0
    else
      SharesBounded(a, b);
      |a * b| as real / |a + b| as real
  }

  lemma SharesBounded(a: Tokens, b: Tokens)
    requires a != {} && b != {}
    ensures 0 <= |a * b| <= |a + b| && |a + b| > 0
    ensures 0.0 <= |a * b| as real / |a + b| as real <= 1.0
  {
    assert a * b <= a + b;
    Dicts.SubsetSize(a * b, a + b);
    assert a + b != {};
    QuotientWithin(|a * b| as real, |a + b| as real);
  }

  lemma QuotientWithin(x: real, d: real)
    requires 0.0 <= x <= d && d > 0.0
    ensures 0.0 <= x / d <= 1.0
  {
  }

  lemma AllShared<T>(a: set<T>, b: set<T>)
    requires |a * b| == |a + b|
    ensures a == b
  {
    Dicts.SubsetSize(a * b, a + b);
    assert forall t :: t in a ==> t in a + b;
    assert forall t :: t in b ==> t in a + b;
  }

  /** Similarity is complete exactly for equal, non-empty token sets. */
  lemma FullSimilarityIff(a: Tokens, b: Tokens)
    ensures Jaccard(a, b) == 1.0 <==> a == b && a != {}
  {
    if a != {} && b != {} {
      SharesBounded(a, b);
      var x, d := |a * b| as real, |a + b| as real;
      assert (x / d) * d == x;
      if a == b {
        assert a * b == a && a + b == a;
      } else if x / d == 1.0 {
        AllShared(a, b);
      }
    }
  }

  /** The two sets share at least `tenths` tenths of their tokens. */
  predicate Shares(a: Tokens, b: Tokens, tenths: nat) {
    a != {} && b != {} && 10 * |a * b| >= tenths * |a + b|
  }

  /** Similarity counts tokens: shared ones over all of them. */
  lemma JaccardCounts(a: Tokens, b: Tokens, tenths: nat)
    ensures a != {} && b != {} ==> Times(Jaccard(a, b), |a + b| as real) == |a * b| as real
    ensures a == {} || b == {} ==> Jaccard(a, b) == 0.0
    ensures tenths > 0 ==> (Jaccard(a, b) >= tenths as real / 10.0 <==> Shares(a, b, tenths))
  {
    if a != {} && b != {} {
      SharesBounded(a, b);
      QuotientAtLeast(|a * b|, |a + b|, tenths);
    }
  }

  lemma QuotientAtLeast(n: nat, d: nat, tenths: nat)
    requires d > 0
    ensures Times(n as real / d as real, d as real) == n as real
    ensures n as real / d as real >= tenths as real / 10.0 <==> 10 * n >= tenths * d
  {
    var q, t, x := n as real / d as real, tenths as real / 10.0, d as real;
    assert q * x == n as real;
    assert (10 * n) as real == 10.0 * (q * x) && (tenths * d) as real == 10.0 * (t * x);
    if q >= t { var r := NonNegativeProduct(q - t, x); } else { var r := PositiveProduct(t - q, x); }
  }

  lemma Commutes(a: Tokens, b: Tokens)
    ensures Jaccard(a, b) == Jaccard(b, a)
  {
    assert a * b == b * a && a + b == b + a;
  }

  // ---- the triangle inequality ----

  /** How many tokens are in exactly one of the two sets. */
  function Apart(a: Tokens, b: Tokens): nat {
    |a - b| + |b - a|
  }

  lemma ApartIsRest(a: Tokens, b: Tokens)
    ensures Apart(a, b) == |a + b| - |a * b|
  {
    assert a + b == (a - b) + (b - a) + a * b;
    assert |(a - b) + (b - a)| == |a - b| + |b - a|;
    assert |(a - b) + (b - a) + a * b| == |(a - b) + (b - a)| + |a * b|;
  }

  lemma Split<T>(s: set<T>, t: set<T>)
    ensures |s| == |s * t| + |s - t|
  {
    assert s == s * t + (s - t);
    assert |s * t + (s - t)| == |s * t| + |s - t|;
  }

  lemma OneWay(a: Tokens, b: Tokens, c: Tokens)
    ensures |a - c| <= |a - b| + |(b - c) * a|
    ensures |b - c| == |(b - c) * a| + |b - a - c|
  {
    Dicts.SubsetSize(a - c, (a - b) + ((b - c) * a));
    assert |(a - b) + ((b - c) * a)| <= |a - b| + |(b - c) * a|;
    Split(b - c, a);
    assert b - c - a == b - a - c;
  }

  /** A third set lies between two others, and every token it has alone is a detour counted twice. */
  lemma Detour(a: Tokens, b: Tokens, c: Tokens)
    ensures Apart(a, b) + Apart(b, c) >= Apart(a, c) + 2 * |b - a - c|
    ensures |a + b + c| == |a + c| + |b - a - c|
    ensures Apart(a, c) <= |a + c|
  {
    OneWay(a, b, c);
    OneWay(c, b, a);
    assert b - c - a == b - a - c;
    ApartIsRest(a, c);
    Outside(a, b, c);
  }

  lemma Outside(a: Tokens, b: Tokens, c: Tokens)
    ensures |a + b + c| == |a + c| + |b - a - c|
  {
    Split(a + b + c, a + c);
    assert (a + b + c) * (a + c) == a + c;
    assert (a + b + c) - (a + c) == b - a - c;
  }

  /** Distance as a quotient. */
  lemma DistanceIs(a: Tokens, b: Tokens)
    requires a != {} && b != {}
    ensures |a + b| > 0 && 1.0 - Jaccard(a, b) == Apart(a, b) as real / |a + b| as real
  {
    SharesBounded(a, b);
    ApartIsRest(a, b);
    QuotientSplits(|a + b| as real, |a * b| as real, |a + b| as real);
  }

  lemma QuotientSplits(x: real, y: real, d: real)
    requires d > 0.0 && x == d
    ensures 1.0 - y / d == (x - y) / d
  {
    AddQuotients(y, x - y, d);
  }

  /** A larger denominator makes a smaller quotient. */
  lemma WiderUnion(x: real, d: real, e: real)
    requires x >= 0.0 && 0.0 < d <= e
    ensures x / e <= x / d
  {
    var q := x / d;
    assert q * d == x;
    DivideNonNegative(x, d);
    var r := NonNegativeProduct(q, e - d);
    assert q * (e - d) == q * e - q * d;
    var s := x / e;
    assert s * e == x;
    if s > q { var t := PositiveProduct(s - q, e); }
  }

  /** (d + 2n) / (p + n) >= d / p when d <= p. */
  lemma DetourCosts(d: real, p: real, n: real)
    requires 0.0 <= d <= p && p > 0.0 && n >= 0.0
    ensures (d + 2.0 * n) / (p + n) >= d / p
  {
    var q := d / p;
    assert q * p == d;
    DivideNonNegative(d, p);
    QuotientWithin(d, p);
    var r := NonNegativeProduct(1.0 - q, n);
    assert q * (p + n) <= d + 2.0 * n;
    var s := (d + 2.0 * n) / (p + n);
    assert s * (p + n) == d + 2.0 * n;
    if s < q { var t := PositiveProduct(q - s, p + n); }
  }

  lemma RaiseQuotient(x: real, y: real, d: real)
    requires d > 0.0 && x <= y
    ensures x / d <= y / d
  {
    var q, r := x / d, y / d;
    assert q * d == x && r * d == y;
    if q > r { var t := PositiveProduct(q - r, d); }
  }

  /** 1 - Jaccard obeys the triangle inequality, empty sets included. */
  lemma Triangle(a: Tokens, b: Tokens, c: Tokens)
    ensures 1.0 - Jaccard(a, c) <= (1.0 - Jaccard(a, b)) + (1.0 - Jaccard(b, c))
  {
    if a != {} && b != {} && c != {} {
      TriangleNonEmpty(a, b, c);
    }
  }

  lemma TriangleNonEmpty(a: Tokens, b: Tokens, c: Tokens)
    requires a != {} && b != {} && c != {}
    ensures 1.0 - Jaccard(a, c) <= (1.0 - Jaccard(a, b)) + (1.0 - Jaccard(b, c))
  {
    hide Jaccard;
    DistanceIs(a, b);
    DistanceIs(b, c);
    DistanceIs(a, c);
    Detour(a, b, c);
    Dicts.SubsetSize(a + b, a + b + c);
    Dicts.SubsetSize(b + c, a + b + c);
    Quotients(Apart(a, b) as real, |a + b| as real, Apart(b, c) as real, |b + c| as real,
              Apart(a, c) as real, |a + c| as real, |b - a - c| as real);
  }

  lemma Quotients(x: real, dx: real, y: real, dy: real, z: real, dz: real, n: real)
    requires x >= 0.0 && y >= 0.0 && n >= 0.0 && 0.0 <= z <= dz && dz > 0.0
    requires 0.0 < dx <= dz + n && 0.0 < dy <= dz + n && x + y >= z + 2.0 * n
    ensures z / dz <= x / dx + y / dy
  {
    WiderUnion(x, dx, dz + n);
    WiderUnion(y, dy, dz + n);
    AddQuotients(x, y, dz + n);
    RaiseQuotient(z + 2.0 * n, x + y, dz + n);
    DetourCosts(z, dz, n);
  }

  // ---- duplicate tiers ----

  const VARIATION: real := 0.4
  const NEAR_DUPLICATE: real := 0.7
  const EXACT: real := 1.0

  /** Near duplicates of one statement are at least variations of each other. */
  lemma NearDuplicatesAreVariations(a: Tokens, b: Tokens, c: Tokens)
    requires Jaccard(a, b) >= NEAR_DUPLICATE && Jaccard(c, b) >= NEAR_DUPLICATE
    ensures Jaccard(a, c) >= VARIATION
  {
    hide Jaccard;
    Commutes(c, b);
    Triangle(a, b, c);
  }
}
