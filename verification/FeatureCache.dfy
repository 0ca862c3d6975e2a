/** Cache transparency: when histories only grow at the end and the benchmark does not come and go, a
    cached pipeline answers every call of a session as plain recomputation would. For two calls the
    condition on the benchmark is exact. */
module FeatureCache {
  import opened Dicts
  import opened Pipeline

  predicate DistinctKeys(features: seq<Feature>) {
    forall i, j :: 0 <= i < j < |features| ==>
      features[i].name != features[j].name || features[i].version != features[j].version
  }

  /** The benchmark is left out: there is none, or it misses a bar. */
  predicate Dropped(c: Call) {
    c.market.None? || !Covers(c.market.value, c.bars)
  }

  /** Both calls see the same benchmark closes on the bars of the first. */
  predicate SameBenchmark(a: Call, b: Call) {
    || a.bars == []
    || (Dropped(a) && Dropped(b))
    || (!Dropped(a) && !Dropped(b)
        && forall x :: x in a.bars ==> CloseAt(a.market.value, x.timestamp) == CloseAt(b.market.value, x.timestamp))
  }

  /** The second call's history continues the first one's. */
  predicate Grows(a: Call, b: Call) {
    a.symbol == b.symbol ==> a.bars <= b.bars && SameBenchmark(a, b)
  }

  predicate Orderly(calls: seq<Call>) {
    && (forall c :: c in calls ==> StrictlyAscending(c.bars))
    && (forall i, j :: 0 <= i < j < |calls| ==> Grows(calls[i], calls[j]))
  }

  lemma Prepared(c: Call)
    requires StrictlyAscending(c.bars)
    ensures Prepare(c).bars == c.bars && Prepare(c).symbol == c.symbol && Prepare(c).since == c.since
    ensures Prepare(c).market == AlignMarket(c.bars, c.market)
    ensures Prepare(c).market.None? <==> Dropped(c)
  {
    ByTimeKeeps(c.bars);
  }

  /** A shared bar has the same window in both calls. */
  lemma SameWindow(a: Call, b: Call, i: nat, maxLen: int)
    requires StrictlyAscending(a.bars) && StrictlyAscending(b.bars)
    requires a.bars <= b.bars && SameBenchmark(a, b) && i < |a.bars|
    ensures Prepare(a).bars == a.bars && Prepare(b).bars == b.bars
    ensures WindowAt(Prepare(a), i, maxLen) == WindowAt(Prepare(b), i, maxLen)
  {
    hide WindowOf, Prepare, Covers, CloseAt;
    Prepared(a);
    Prepared(b);
    var lo := if i + 1 - maxLen > 0 then i + 1 - maxLen else 0;
    assert Slice(a.bars, lo, i + 1) == Slice(b.bars, lo, i + 1);
    if !Dropped(a) {
      var m, n := Prepare(a).market.value, Prepare(b).market.value;
      forall k | 0 <= k < |a.bars| ensures m[k] == n[k] {
        assert a.bars[k] in a.bars && a.bars[k] == b.bars[k];
      }
      assert Slice(m, lo, i + 1) == Slice(n, lo, i + 1);
    }
  }

  // ---- what the cache holds ----

  /** A cached value is what plain recomputation gives at some bar the call computes. */
  ghost predicate Explains(p: Setup, job: Job, key: Key, value: Option<real>)
    requires job.Aligned()
  {
    exists i: nat, j: nat ::
      i < |job.bars| && !job.Skips(i) && j < |p.features|
      && key == KeyOf(job, p.features[j], i) && value == ValueAt(p, job, i, j)
  }

  ghost predicate Explained(p: Setup, calls: seq<Call>, cache: Cache) {
    forall key :: key in cache ==> exists c :: c in calls && Explains(p, Prepare(c), key, cache[key])
  }

  lemma Remembers(p: Setup, calls: seq<Call>, cache: Cache, key: Key, value: Option<real>)
    requires |calls| > 0 && Explained(p, calls, cache)
    requires Explains(p, Prepare(calls[|calls| - 1]), key, value)
    ensures Explained(p, calls, cache[key := value])
  {
    hide Prepare, Explains;
    var last := calls[|calls| - 1];
    var r := cache[key := value];
    forall k | k in r
      ensures exists c :: c in calls && Explains(p, Prepare(c), k, r[k])
    {
      if k == key {
        assert last in calls && Explains(p, Prepare(last), k, r[k]);
      } else {
        var c :| c in calls && Explains(p, Prepare(c), k, cache[k]);
        assert Explains(p, Prepare(c), k, r[k]);
      }
    }
  }

  lemma {:induction false} BarExplained(p: Setup, calls: seq<Call>, m: Memo, i: nat, n: nat)
    requires |calls| > 0 && Explained(p, calls, m.cache)
    requires i < |Prepare(calls[|calls| - 1]).bars| && !Prepare(calls[|calls| - 1]).Skips(i) && n <= |p.features|
    ensures Explained(p, calls, CachedBar(p, m, Prepare(calls[|calls| - 1]), i, n).cache)
  {
    hide Prepare, WindowAt, Evaluate, MaxLen;
    if n > 0 {
      var job := Prepare(calls[|calls| - 1]);
      BarExplained(p, calls, m, i, n - 1);
      var before, key := CachedBar(p, m, job, i, n - 1), KeyOf(job, p.features[n - 1], i);
      if p.useCache && key !in before.cache {
        assert Explains(p, job, key, ValueAt(p, job, i, n - 1));
        Remembers(p, calls, before.cache, key, ValueAt(p, job, i, n - 1));
      }
    }
  }

  lemma {:induction false} RowsExplained(p: Setup, calls: seq<Call>, cache: Cache, n: nat)
    requires |calls| > 0 && Explained(p, calls, cache) && n <= |Prepare(calls[|calls| - 1]).bars|
    ensures Explained(p, calls, CachedRows(p, Memo(cache, []), Prepare(calls[|calls| - 1]), n).cache)
  {
    hide Prepare, Explained, CachedBar;
    if n > 0 {
      RowsExplained(p, calls, cache, n - 1);
      var job := Prepare(calls[|calls| - 1]);
      if !job.Skips(n - 1) {
        BarExplained(p, calls, CachedRows(p, Memo(cache, []), job, n - 1), n - 1, |p.features|);
      }
    }
  }

  /** Whatever the calls of a session were, what is cached after them is what one of them would compute. */
  lemma {:induction false} CacheExplained(p: Setup, calls: seq<Call>)
    ensures Explained(p, calls, CacheAfter(p, calls))
    decreases |calls|
  {
    hide Prepare, Explains, CachedRows;
    if |calls| > 0 {
      var front := calls[..|calls| - 1];
      var cache := CacheAfter(p, front);
      CacheExplained(p, front);
      forall key | key in cache ensures exists c :: c in calls && Explains(p, Prepare(c), key, cache[key]) {
        var c :| c in front && Explains(p, Prepare(c), key, cache[key]);
        assert c in calls;
      }
      RowsExplained(p, calls, cache, |Prepare(calls[|calls| - 1]).bars|);
    }
  }

  // ---- when a call is answered faithfully ----

  /** No two bars that the call computes share a timestamp. */
  predicate Apart(job: Job) {
    forall i, k :: 0 <= i < k < |job.bars| && !job.Skips(i) && !job.Skips(k) ==>
      job.bars[i].timestamp != job.bars[k].timestamp
  }

  /** The cache has no other value for anything the call computes. */
  ghost predicate Agrees(p: Setup, job: Job, cache: Cache)
    requires job.Aligned()
  {
    forall i: nat, j: nat ::
      i < |job.bars| && !job.Skips(i) && j < |p.features| && KeyOf(job, p.features[j], i) in cache ==>
        cache[KeyOf(job, p.features[j], i)] == ValueAt(p, job, i, j)
  }

  lemma SameFeature(features: seq<Feature>, i: nat, j: nat)
    requires DistinctKeys(features) && i < |features| && j < |features|
    requires features[i].name == features[j].name && features[i].version == features[j].version
    ensures i == j
  {
  }

  lemma AgreesStill(p: Setup, job: Job, cache: Cache, i: nat, j: nat)
    requires job.Aligned() && Apart(job) && DistinctKeys(p.features) && Agrees(p, job, cache)
    requires i < |job.bars| && !job.Skips(i) && j < |p.features|
    ensures Agrees(p, job, cache[KeyOf(job, p.features[j], i) := ValueAt(p, job, i, j)])
  {
    hide ValueAt, DistinctKeys;
    var key := KeyOf(job, p.features[j], i);
    var r := cache[key := ValueAt(p, job, i, j)];
    forall i': nat, j': nat
      | i' < |job.bars| && !job.Skips(i') && j' < |p.features| && KeyOf(job, p.features[j'], i') in r
      ensures r[KeyOf(job, p.features[j'], i')] == ValueAt(p, job, i', j')
    {
      if KeyOf(job, p.features[j'], i') == key {
        SameFeature(p.features, j, j');
        assert i == i';
      }
    }
  }

  lemma {:induction false} BarFaithful(p: Setup, m: Memo, job: Job, i: nat, n: nat)
    requires job.Aligned() && Apart(job) && DistinctKeys(p.features) && Agrees(p, job, m.cache)
    requires i < |job.bars| && !job.Skips(i) && n <= |p.features|
    ensures var r := CachedBar(p, m, job, i, n);
            r.rows == m.rows + PlainBar(p, job, i, n) && Agrees(p, job, r.cache)
  {
    hide WindowAt, Evaluate, MaxLen, KeyOf, Apart, DistinctKeys;
    if n > 0 {
      BarFaithful(p, m, job, i, n - 1);
      var key, value := KeyOf(job, p.features[n - 1], i), ValueAt(p, job, i, n - 1);
      assert PlainBar(p, job, i, n) == PlainBar(p, job, i, n - 1) + [Row(key, value)];
      AgreesStill(p, job, CachedBar(p, m, job, i, n - 1).cache, i, n - 1);
    }
  }

  lemma {:induction false} RowsFaithful(p: Setup, cache: Cache, job: Job, n: nat)
    requires job.Aligned() && Apart(job) && DistinctKeys(p.features) && Agrees(p, job, cache) && n <= |job.bars|
    ensures var r := CachedRows(p, Memo(cache, []), job, n);
            r.rows == PlainRows(p, job, n) && Agrees(p, job, r.cache)
  {
    hide Agrees, Apart, DistinctKeys, CachedBar, PlainBar;
    if n > 0 {
      RowsFaithful(p, cache, job, n - 1);
      if !job.Skips(n - 1) {
        BarFaithful(p, CachedRows(p, Memo(cache, []), job, n - 1), job, n - 1, |p.features|);
      }
    }
  }

  // ---- sessions ----

  /** Whatever an orderly session has cached for the last call is what that call would compute. */
  lemma SessionAgrees(p: Setup, calls: seq<Call>)
    requires |calls| > 0 && Orderly(calls) && DistinctKeys(p.features)
    ensures Agrees(p, Prepare(calls[|calls| - 1]), CacheAfter(p, calls[..|calls| - 1]))
  {
    hide Prepare, ValueAt, KeyOf, Explains, StrictlyAscending, Grows, DistinctKeys, CacheAfter;
    var front, last := calls[..|calls| - 1], calls[|calls| - 1];
    var job, cache := Prepare(last), CacheAfter(p, front);
    CacheExplained(p, front);
    forall i: nat, j: nat | i < |job.bars| && j < |p.features| && KeyOf(job, p.features[j], i) in cache
      ensures cache[KeyOf(job, p.features[j], i)] == ValueAt(p, job, i, j)
    {
      var key := KeyOf(job, p.features[j], i);
      var c :| c in front && Explains(p, Prepare(c), key, cache[key]);
      var n :| 0 <= n < |front| && front[n] == c;
      assert calls[n] == c && Grows(calls[n], calls[|calls| - 1]);
      HitFrom(p, c, last, i, j, cache[key]);
    }
  }

  lemma HitFrom(p: Setup, c: Call, last: Call, i: nat, j: nat, value: Option<real>)
    requires StrictlyAscending(c.bars) && StrictlyAscending(last.bars) && Grows(c, last)
    requires DistinctKeys(p.features) && i < |Prepare(last).bars| && j < |p.features|
    requires Explains(p, Prepare(c), KeyOf(Prepare(last), p.features[j], i), value)
    ensures value == ValueAt(p, Prepare(last), i, j)
  {
    hide Prepare, WindowAt, Evaluate, MaxLen, SameBenchmark, StrictlyAscending;
    var i', j' := HitAt(p, c, last, i, j, value);
    Prepared(c);
    Prepared(last);
    SharedValue(p, c, last, i', i);
  }

  /** The bar and feature that explain a cached value. */
  lemma HitAt(p: Setup, c: Call, last: Call, i: nat, j: nat, value: Option<real>) returns (i': nat, j': nat)
    requires DistinctKeys(p.features) && i < |Prepare(last).bars| && j < |p.features|
    requires Explains(p, Prepare(c), KeyOf(Prepare(last), p.features[j], i), value)
    ensures var job := Prepare(c);
            && i' < |job.bars| && !job.Skips(i') && j' == j && job.symbol == Prepare(last).symbol
            && job.bars[i'].timestamp == Prepare(last).bars[i].timestamp && value == ValueAt(p, job, i', j)
  {
    hide Prepare, ValueAt, DistinctKeys;
    var job, key := Prepare(c), KeyOf(Prepare(last), p.features[j], i);
    i', j' :| 0 <= i' < |job.bars| && !job.Skips(i') && 0 <= j' < |p.features|
              && key == KeyOf(job, p.features[j'], i') && value == ValueAt(p, job, i', j');
    SameFeature(p.features, j, j');
  }

  /** Bars of two calls with the same symbol and timestamp are the same bar and have the same window. */
  lemma SharedValue(p: Setup, c: Call, last: Call, i: nat, k: nat)
    requires StrictlyAscending(c.bars) && StrictlyAscending(last.bars)
    requires c.bars <= last.bars && SameBenchmark(c, last)
    requires i < |c.bars| && k < |last.bars| && c.bars[i].timestamp == last.bars[k].timestamp
    ensures i == k && Prepare(c).bars == c.bars && Prepare(last).bars == last.bars
    ensures WindowAt(Prepare(c), i, MaxLen(p.features)) == WindowAt(Prepare(last), i, MaxLen(p.features))
  {
    hide Prepare, WindowAt, MaxLen, SameBenchmark, Covers;
    Prepared(c);
    Prepared(last);
    assert c.bars[i] == last.bars[i];
    SameBar(last.bars, i, k);
    SameWindow(c, last, i, MaxLen(p.features));
  }

  lemma SameBar(bars: seq<Bar>, i: nat, j: nat)
    requires StrictlyAscending(bars) && i < |bars| && j < |bars| && bars[i].timestamp == bars[j].timestamp
    ensures i == j
  {
  }

  lemma StrictlyApart(c: Call)
    requires StrictlyAscending(c.bars)
    ensures Apart(Prepare(c))
  {
    hide Prepare;
    Prepared(c);
  }

  /** Cache transparency: in an orderly session every call gets exactly the rows of plain recomputation. */
  lemma CacheTransparent(p: Setup, calls: seq<Call>, k: nat)
    requires Orderly(calls) && DistinctKeys(p.features) && k < |calls|
    ensures Answer(p, CacheAfter(p, calls[..k]), Prepare(calls[k])).rows == Plain(p, Prepare(calls[k]))
  {
    hide Prepare, DistinctKeys, Grows, CachedRows, PlainRows, Agrees, CacheAfter, Apart;
    var so := calls[..k + 1];
    assert so[..k] == calls[..k] && so[k] == calls[k];
    SessionAgrees(p, so);
    StrictlyApart(calls[k]);
    RowsFaithful(p, CacheAfter(p, calls[..k]), Prepare(calls[k]), |Prepare(calls[k]).bars|);
  }

  // ---- batches ----

  /** The rows of plain recomputation, call after call. */
  function PlainBatch(p: Setup, calls: seq<Call>): seq<Row>
    decreases |calls|
  {
    if |calls| == 0 then []
    else PlainBatch(p, calls[..|calls| - 1]) + Plain(p, Prepare(calls[|calls| - 1]))
  }

  /** Batch transparency: a batch that continues an orderly session gets, symbol after symbol, exactly the
      rows of plain recomputation, and leaves the cache as its calls one by one would. */
  lemma {:induction false} BatchTransparent(p: Setup, earlier: seq<Call>, batch: seq<Call>)
    requires Orderly(earlier + batch) && DistinctKeys(p.features)
    ensures BatchRows(p, CacheAfter(p, earlier), batch) == Memo(CacheAfter(p, earlier + batch), PlainBatch(p, batch))
    decreases |batch|
  {
    hide Answer, Plain, Prepare, DistinctKeys, Grows;
    var all := earlier + batch;
    if |batch| == 0 {
      assert all == earlier;
    } else {
      var front, last := batch[..|batch| - 1], batch[|batch| - 1];
      assert all[..|all| - 1] == earlier + front && all[|all| - 1] == last;
      OrderlyFront(all);
      BatchTransparent(p, earlier, front);
      CacheTransparent(p, all, |all| - 1);
    }
  }

  lemma OrderlyFront(calls: seq<Call>)
    requires |calls| > 0 && Orderly(calls)
    ensures Orderly(calls[..|calls| - 1])
  {
    hide Grows, StrictlyAscending;
  }

  /** Over a dictionary of ordered histories a fresh pipeline's batch is always transparent, whatever the
      benchmark: no two of its calls are for one symbol. */
  lemma FreshBatchTransparent(p: Setup, barsBySymbol: Dict<seq<Bar>>, market: Option<seq<Bar>>, since: Option<int>)
    requires DistinctKeys(p.features) && Distinct(barsBySymbol)
    requires forall i :: 0 <= i < |barsBySymbol| ==> StrictlyAscending(barsBySymbol[i].1)
    ensures var calls := BatchCalls(barsBySymbol, market, since);
            BatchRows(p, map[], calls).rows == PlainBatch(p, calls)
  {
    hide DistinctKeys, StrictlyAscending, PlainBatch, BatchRows, BatchCalls, Orderly, Distinct;
    var calls := BatchCalls(barsBySymbol, market, since);
    BatchOrderly(barsBySymbol, market, since);
    assert [] + calls == calls;
    assert CacheAfter(p, []) == map[];
    BatchTransparent(p, [], calls);
  }

  lemma BatchOrderly(barsBySymbol: Dict<seq<Bar>>, market: Option<seq<Bar>>, since: Option<int>)
    requires Distinct(barsBySymbol) && forall i :: 0 <= i < |barsBySymbol| ==> StrictlyAscending(barsBySymbol[i].1)
    ensures Orderly(BatchCalls(barsBySymbol, market, since))
  {
    hide StrictlyAscending, SameBenchmark;
    var calls := BatchCalls(barsBySymbol, market, since);
    forall i, j | 0 <= i < j < |calls| ensures Grows(calls[i], calls[j]) {
      assert barsBySymbol[i].0 != barsBySymbol[j].0;
    }
  }

  // ---- the condition on the benchmark is exact ----

  ghost predicate Transparent(p: Setup, a: Call, b: Call) {
    DistinctKeys(p.features) ==> Answer(p, CacheAfter(p, [a]), Prepare(b)).rows == Plain(p, Prepare(b))
  }

  predicate SkipsBar(c: Call, b: Bar) {
    c.since.Some? && b.timestamp <= c.since.value
  }

  /** Both calls compute the last bar they share. */
  predicate Revisits(a: Call, b: Call) {
    |a.bars| > 0 && !SkipsBar(a, a.bars[|a.bars| - 1]) && !SkipsBar(b, a.bars[|a.bars| - 1])
  }

  /** A pipeline with one feature: the benchmark's close at bar k, once n bars are there. */
  function Probe(n: nat, k: nat): Setup {
    Setup([Feature("benchmark", 1, n, (w: Window) =>
             Computed(if w.market.None? || |w.market.value| <= k then None else Some(w.market.value[k])))], true)
  }

  lemma ProbeSees(job: Job, n: nat, k: nat)
    requires job.Aligned() && k < n <= |job.bars|
    ensures ValueAt(Probe(n, k), job, n - 1, 0) == if job.market.None? then None else Some(job.market.value[k])
  {
    var p := Probe(n, k);
    assert Largest(p.features) == n && MaxLen(p.features) == n + 1;
    var w := WindowAt(job, n - 1, n + 1);
    assert |w.close| == n;
    if job.market.Some? { assert w.market.value == job.market.value[..n]; }
  }

  /** At the last shared bar some probe sees different benchmarks in the two calls, unless they agree. */
  lemma Disagreement(a: Call, b: Call) returns (k: nat)
    requires StrictlyAscending(a.bars) && StrictlyAscending(b.bars) && a.bars <= b.bars && !SameBenchmark(a, b)
    ensures k < |a.bars| && Prepare(a).bars == a.bars && Prepare(b).bars == b.bars
    ensures var n := |a.bars|;
            ValueAt(Probe(n, k), Prepare(a), n - 1, 0) != ValueAt(Probe(n, k), Prepare(b), n - 1, 0)
  {
    hide Prepare, ValueAt, Probe, Covers, CloseAt;
    Prepared(a);
    Prepared(b);
    k := 0;
    if !Dropped(a) && !Dropped(b) {
      var x :| x in a.bars && CloseAt(a.market.value, x.timestamp) != CloseAt(b.market.value, x.timestamp);
      k :| 0 <= k < |a.bars| && a.bars[k] == x;
      assert b.bars[k] == x;
    }
    ProbeSees(Prepare(a), |a.bars|, k);
    ProbeSees(Prepare(b), |a.bars|, k);
  }

  /** For two calls of one symbol on a growing history, incremental or not, the second is answered
      faithfully by every pipeline exactly when both see the same benchmark on the bars they share, or one
      of them computes none of these. */
  lemma BenchmarkIff(a: Call, b: Call)
    requires a.symbol == b.symbol
    requires StrictlyAscending(a.bars) && StrictlyAscending(b.bars) && a.bars <= b.bars
    ensures (forall p :: Transparent(p, a, b)) <==> (Revisits(a, b) ==> SameBenchmark(a, b))
  {
    hide Transparent, SameBenchmark, Probe, Revisits;
    if Revisits(a, b) && !SameBenchmark(a, b) {
      var k := Disagreement(a, b);
      StaleProbe(a, b, k);
      assert !Transparent(Probe(|a.bars|, k), a, b);
    } else {
      forall p ensures Transparent(p, a, b) {
        SecondFaithful(p, a, b);
      }
    }
  }

  lemma SecondFaithful(p: Setup, a: Call, b: Call)
    requires a.symbol == b.symbol && (Revisits(a, b) ==> SameBenchmark(a, b))
    requires StrictlyAscending(a.bars) && StrictlyAscending(b.bars) && a.bars <= b.bars
    ensures Transparent(p, a, b)
  {
    hide Prepare, CachedRows, PlainRows, Agrees, CacheAfter, Apart, Revisits, SameBenchmark, DistinctKeys;
    if DistinctKeys(p.features) {
      SecondAgrees(p, a, b);
      StrictlyApart(b);
      RowsFaithful(p, CacheAfter(p, [a]), Prepare(b), |Prepare(b).bars|);
    }
  }

  lemma SecondAgrees(p: Setup, a: Call, b: Call)
    requires a.symbol == b.symbol && (Revisits(a, b) ==> SameBenchmark(a, b)) && DistinctKeys(p.features)
    requires StrictlyAscending(a.bars) && StrictlyAscending(b.bars) && a.bars <= b.bars
    ensures Agrees(p, Prepare(b), CacheAfter(p, [a]))
  {
    hide Prepare, WindowAt, Evaluate, MaxLen, KeyOf, Explains, DistinctKeys, CacheAfter, SameBenchmark;
    var job, cache := Prepare(b), CacheAfter(p, [a]);
    CacheExplained(p, [a]);
    Prepared(a);
    Prepared(b);
    forall i: nat, j: nat
      | i < |job.bars| && !job.Skips(i) && j < |p.features| && KeyOf(job, p.features[j], i) in cache
      ensures cache[KeyOf(job, p.features[j], i)] == ValueAt(p, job, i, j)
    {
      var value := cache[KeyOf(job, p.features[j], i)];
      assert Explains(p, Prepare(a), KeyOf(job, p.features[j], i), value);
      var i', j' := HitAt(p, a, b, i, j, value);
      assert a.bars[i'].timestamp <= a.bars[|a.bars| - 1].timestamp;
      assert Revisits(a, b);
      SharedValue(p, a, b, i', i);
    }
  }

  // ---- one value per key ----

  /** Every row agrees with what the cache holds for its key. */
  ghost predicate RowsCached(m: Memo) {
    forall r :: r in m.rows ==> r.key in m.cache && m.cache[r.key] == r.value
  }

  /** What is cached stays cached. */
  ghost predicate CacheKept(a: Cache, b: Cache) {
    forall key :: key in a ==> key in b && b[key] == a[key]
  }

  lemma {:induction false} BarRowsCached(p: Setup, m: Memo, job: Job, i: nat, n: nat)
    requires p.useCache && job.Aligned() && i < |job.bars| && n <= |p.features| && RowsCached(m)
    ensures RowsCached(CachedBar(p, m, job, i, n)) && CacheKept(m.cache, CachedBar(p, m, job, i, n).cache)
  {
    hide WindowAt, Evaluate, KeyOf, MaxLen;
    if n > 0 { BarRowsCached(p, m, job, i, n - 1); }
  }

  /** One call answers one key with one value, and never changes a value that was cached before. */
  lemma {:induction false} AllRowsCached(p: Setup, m: Memo, job: Job, n: nat)
    requires p.useCache && job.Aligned() && n <= |job.bars| && RowsCached(m)
    ensures RowsCached(CachedRows(p, m, job, n)) && CacheKept(m.cache, CachedRows(p, m, job, n).cache)
  {
    hide CachedBar, RowsCached;
    if n > 0 {
      AllRowsCached(p, m, job, n - 1);
      if !job.Skips(n - 1) { BarRowsCached(p, CachedRows(p, m, job, n - 1), job, n - 1, |p.features|); }
    }
  }

  lemma {:induction false} PlainHas(p: Setup, job: Job, n: nat, i: nat, j: nat)
    requires job.Aligned() && i < n <= |job.bars| && !job.Skips(i) && j < |p.features|
    ensures Row(KeyOf(job, p.features[j], i), ValueAt(p, job, i, j)) in PlainRows(p, job, n)
  {
    hide KeyOf, ValueAt;
    if i < n - 1 {
      PlainHas(p, job, n - 1, i, j);
    } else {
      assert PlainBar(p, job, i, |p.features|)[j] == Row(KeyOf(job, p.features[j], i), ValueAt(p, job, i, j));
    }
  }

  lemma StaleProbe(a: Call, b: Call, k: nat)
    requires a.symbol == b.symbol && a.bars <= b.bars && Revisits(a, b) && k < |a.bars|
    requires StrictlyAscending(a.bars) && StrictlyAscending(b.bars)
    requires Prepare(a).bars == a.bars && Prepare(b).bars == b.bars
    requires var n := |a.bars|;
             ValueAt(Probe(n, k), Prepare(a), n - 1, 0) != ValueAt(Probe(n, k), Prepare(b), n - 1, 0)
    ensures !Transparent(Probe(|a.bars|, k), a, b)
  {
    hide ValueAt, CachedRows, PlainRows, CacheAfter, StrictlyAscending;
    var p, ja, jb, n := Probe(|a.bars|, k), Prepare(a), Prepare(b), |a.bars|;
    var f := p.features[0];
    FirstCall(p, a);
    var cache := CacheAfter(p, [a]);
    FreshAnswer(p, a);
    AllRowsCached(p, Memo(map[], []), ja, n);
    PlainHas(p, ja, n, n - 1, 0);
    assert cache[KeyOf(ja, f, n - 1)] == ValueAt(p, ja, n - 1, 0);
    AllRowsCached(p, Memo(cache, []), jb, |jb.bars|);
    PlainHas(p, jb, |jb.bars|, n - 1, 0);
    assert KeyOf(jb, f, n - 1) == KeyOf(ja, f, n - 1);
  }

  lemma FirstCall(p: Setup, a: Call)
    ensures CacheAfter(p, [a]) == Answer(p, map[], Prepare(a)).cache
  {
    hide Answer, Prepare;
    assert [a][..0] == [];
  }

  lemma FreshAnswer(p: Setup, a: Call)
    requires StrictlyAscending(a.bars) && DistinctKeys(p.features)
    ensures Answer(p, map[], Prepare(a)).rows == Plain(p, Prepare(a))
  {
    hide Prepare, CachedRows, PlainRows, Apart, DistinctKeys;
    StrictlyApart(a);
    RowsFaithful(p, map[], Prepare(a), |Prepare(a).bars|);
  }

  // ---- the condition on timestamps is exact ----

  /** A pipeline whose first feature is the length of its window, which is never cut. */
  function Counting(n: nat): Setup {
    Setup([Feature("length", 1, 1, (w: Window) => Computed(Some(|w.close| as real))),
           Feature("long", 1, n + 1, (w: Window) => Computed(None))], true)
  }

  lemma CountingSees(job: Job, i: nat)
    requires job.Aligned() && i < |job.bars|
    ensures ValueAt(Counting(|job.bars|), job, i, 0) == Some((i + 1) as real)
  {
    var p := Counting(|job.bars|);
    assert p.features[..1] == [p.features[0]];
    assert MaxLen(p.features) == |job.bars| + 2;
  }

  ghost predicate TransparentAlone(p: Setup, c: Call) {
    DistinctKeys(p.features) ==> Answer(p, map[], Prepare(c)).rows == Plain(p, Prepare(c))
  }

  /** On a fresh cache every pipeline answers a call, of bars in any order, faithfully exactly when no two
      of the bars it computes share a timestamp: of two that do, the later one is given the earlier one's
      values. */
  lemma DistinctTimesIff(c: Call)
    ensures (forall p :: TransparentAlone(p, c)) <==> Apart(Prepare(c))
  {
    hide Prepare, CachedRows, PlainRows, DistinctKeys, Counting, Apart;
    var job := Prepare(c);
    if Apart(job) {
      forall p ensures TransparentAlone(p, c) {
        if DistinctKeys(p.features) { RowsFaithful(p, map[], job, |job.bars|); }
      }
    } else {
      SharedTimestamp(c);
      assert !TransparentAlone(Counting(|job.bars|), c);
    }
  }

  lemma SharedTimestamp(c: Call)
    requires !Apart(Prepare(c))
    ensures !TransparentAlone(Counting(|Prepare(c).bars|), c)
  {
    hide ValueAt, CachedRows, PlainRows, Prepare;
    var job := Prepare(c);
    var p := Counting(|job.bars|);
    var i, k :| 0 <= i < k < |job.bars| && !job.Skips(i) && !job.Skips(k)
                && job.bars[i].timestamp == job.bars[k].timestamp;
    assert KeyOf(job, p.features[0], i) == KeyOf(job, p.features[0], k);
    AllRowsCached(p, Memo(map[], []), job, |job.bars|);
    PlainHas(p, job, |job.bars|, i, 0);
    PlainHas(p, job, |job.bars|, k, 0);
    CountingSees(job, i);
    CountingSees(job, k);
  }
}
