/** Insertion-ordered dictionaries keyed by name, and sums over the names that satisfy a test. */
module Dicts {

  datatype Option<+T> = None | Some(value: T)

  /** A dictionary as its entries in insertion order; well-formed when the keys are distinct. */
  type Dict<V> = seq<(string, V)>

  ghost predicate Distinct<V>(d: Dict<V>) {
    forall i, j :: 0 <= i < j < |d| ==> d[i].0 != d[j].0
  }

  /** The position of a key, or the length when it is absent. */
  function IndexOf<V>(d: Dict<V>, k: string): (r: nat)
    ensures r <= |d|
    ensures r < |d| ==> d[r].0 == k
    ensures forall i :: 0 <= i < r ==> d[i].0 != k
  {
    if |d| == 0 || d[0].0 == k then 0 else 1 + IndexOf(d[1..], k)
  }

  predicate Has<V>(d: Dict<V>, k: string) {
    IndexOf(d, k) < |d|
  }

  function Get<V>(d: Dict<V>, k: string, default: V): V {
    var i := IndexOf(d, k);
    if i < |d| then d[i].1 else default
  }

  /** Assignment d[k] = v: in place when the key is there, at the end otherwise. */
  function Put<V>(d: Dict<V>, k: string, v: V): (r: Dict<V>)
    ensures Distinct(d) ==> Distinct(r)
    ensures |d| <= |r|
    ensures forall i :: 0 <= i < |d| ==> r[i].0 == d[i].0
  {
    var i := IndexOf(d, k);
    if i < |d| then d[i := (k, v)] else d + [(k, v)]
  }

  lemma GetAt<V>(d: Dict<V>, i: nat, default: V)
    requires Distinct(d) && i < |d|
    ensures IndexOf(d, d[i].0) == i && Get(d, d[i].0, default) == d[i].1
  {
    var r := IndexOf(d, d[i].0);
    assert r <= i;
  }

  /** One entry of an updated dictionary. */
  lemma PutEntry<V>(d: Dict<V>, k: string, v: V, i: nat, default: V)
    requires Distinct(d) && i < |Put(d, k, v)|
    ensures i < |d| && d[i].0 == k ==> Put(d, k, v)[i] == (k, v) && Get(d, k, default) == d[i].1
    ensures i < |d| && d[i].0 != k ==> Put(d, k, v)[i] == d[i]
    ensures i >= |d| ==> Put(d, k, v)[i] == (k, v) && Get(d, k, default) == default
  {
    if i < |d| { GetAt(d, i, default); }
  }

  lemma GetPut<V>(d: Dict<V>, k: string, v: V, l: string, default: V)
    ensures Get(Put(d, k, v), l, default) == if l == k then v else Get(d, l, default)
    ensures Has(Put(d, k, v), l) <==> l == k || Has(d, l)
  {
    var r := Put(d, k, v);
    IndexOfKeys(d, r, l);
    IndexOfKeys(d, r, k);
    if !Has(d, l) && l != k { AbsentFrom(r, l); }
  }

  lemma {:induction false} IndexOfKeys<V>(d: Dict<V>, r: Dict<V>, l: string)
    requires |d| <= |r| && forall i :: 0 <= i < |d| ==> r[i].0 == d[i].0
    ensures Has(d, l) ==> IndexOf(r, l) == IndexOf(d, l)
    ensures !Has(d, l) && |r| == |d| + 1 ==> IndexOf(r, l) == if r[|d|].0 == l then |d| else |d| + 1
    ensures !Has(d, l) && |r| == |d| ==> IndexOf(r, l) == |d|
  {
    if |d| > 0 && d[0].0 != l {
      forall i | 0 <= i < |d| - 1 ensures r[1..][i].0 == d[1..][i].0 { assert r[i + 1].0 == d[i + 1].0; }
      IndexOfKeys(d[1..], r[1..], l);
    }
  }

  lemma AbsentFrom<V>(d: Dict<V>, l: string)
    ensures Has(d, l) <==> exists i :: 0 <= i < |d| && d[i].0 == l
  {
  }

  lemma SubsetSize<T>(a: set<T>, b: set<T>)
    requires a <= b
    ensures |a| <= |b|
    ensures |a| == |b| ==> a == b
  {
    assert b == a + (b - a);
    assert |b| == |a| + |b - a|;
  }
}
