/** Sums of a function over the elements of a sequence. */
module Sums {

  function SumOver<T>(s: seq<T>, f: T -> real): real {
    if |s| == 0 then 0.0 else f(s[0]) + SumOver(s[1..], f)
  }

  lemma {:induction false} SumConcat<T>(a: seq<T>, b: seq<T>, f: T -> real)
    ensures SumOver(a + b, f) == SumOver(a, f) + SumOver(b, f)
  {
    if |a| == 0 {
      assert a + b == b;
    } else {
      assert (a + b)[1..] == a[1..] + b;
      SumConcat(a[1..], b, f);
    }
  }

  lemma SumAppend<T>(a: seq<T>, x: T, f: T -> real)
    ensures SumOver(a + [x], f) == SumOver(a, f) + f(x)
  {
    SumConcat(a, [x], f);
  }

  /** Inserting an element anywhere adds its value. */
  lemma SumInsert<T>(a: seq<T>, b: seq<T>, x: T, f: T -> real)
    ensures SumOver(a + [x] + b, f) == SumOver(a + b, f) + f(x)
  {
    SumConcat(a + [x], b, f);
    SumAppend(a, x, f);
    SumConcat(a, b, f);
  }

  lemma {:induction false} SumUpdate<T>(a: seq<T>, i: nat, x: T, f: T -> real)
    requires i < |a|
    ensures SumOver(a[i := x], f) == SumOver(a, f) - f(a[i]) + f(x)
  {
    assert a == a[..i] + [a[i]] + a[i + 1..];
    assert a[i := x] == a[..i] + [x] + a[i + 1..];
    SumInsert(a[..i], a[i + 1..], a[i], f);
    SumInsert(a[..i], a[i + 1..], x, f);
  }

  lemma {:induction false} SumNonNegative<T>(s: seq<T>, f: T -> real)
    requires forall x :: x in s ==> f(x) >= 0.0
    ensures SumOver(s, f) >= 0.0
  {
    if |s| > 0 { SumNonNegative(s[1..], f); }
  }

  /** A sum of non-negative values is positive as soon as one value is. */
  lemma {:induction false} SumPositive<T>(s: seq<T>, f: T -> real, i: nat)
    requires forall x :: x in s ==> f(x) >= 0.0
    requires i < |s| && f(s[i]) > 0.0
    ensures SumOver(s, f) > 0.0
  {
    SumNonNegative(s[1..], f);
    if i > 0 { SumPositive(s[1..], f, i - 1); }
  }

  lemma {:induction false} SumZero<T>(s: seq<T>, f: T -> real)
    requires forall x :: x in s ==> f(x) == 0.0
    ensures SumOver(s, f) == 0.0
  {
    if |s| > 0 { SumZero(s[1..], f); }
  }

  lemma {:induction false} SumSame<T>(s: seq<T>, f: T -> real, g: T -> real)
    requires forall x :: x in s ==> f(x) == g(x)
    ensures SumOver(s, f) == SumOver(s, g)
  {
    if |s| > 0 { SumSame(s[1..], f, g); }
  }
}
