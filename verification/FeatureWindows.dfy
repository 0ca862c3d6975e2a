/** Incremental mode, the bounded window and the exponential average: what may be computed later, from
    less history, or beside other features, without changing a value. */
module FeatureWindows {
  import opened Dicts
  import opened Reals
  import opened Sums
  import opened Pipeline
  import opened FeatureCache

  // ---- `since` selects later rows ----

  /** The rows later than t. */
  function After(rows: seq<Row>, t: int): seq<Row> {
    if |rows| == 0 then []
    else
      var last := rows[|rows| - 1];
      After(rows[..|rows| - 1], t) + if last.key.timestamp > t then [last] else []
  }

  lemma {:induction false} AfterConcat(a: seq<Row>, b: seq<Row>, t: int)
    ensures After(a + b, t) == After(a, t) + After(b, t)
  {
    if |b| == 0 {
      assert a + b == a;
    } else {
      assert (a + b)[..|a + b| - 1] == a + b[..|b| - 1];
      AfterConcat(a, b[..|b| - 1], t);
    }
  }

  /** Rows of one timestamp are kept or dropped together. */
  lemma {:induction false} AfterUniform(rows: seq<Row>, t: int, s: int)
    requires forall r :: r in rows ==> r.key.timestamp == s
    ensures After(rows, t) == if s > t then rows else []
  {
    if |rows| > 0 { AfterUniform(rows[..|rows| - 1], t, s); }
  }

  /** Incremental mode gives exactly the full run's rows later than t, whatever the history. */
  lemma {:induction false} SinceSelects(p: Setup, job: Job, t: int, n: nat)
    requires job.Aligned() && job.since.None? && n <= |job.bars|
    ensures PlainRows(p, job.(since := Some(t)), n) == After(PlainRows(p, job, n), t)
  {
    hide PlainBar, After;
    if n > 0 {
      SinceSelects(p, job, t, n - 1);
      SameBarRows(p, job, t, n - 1);
      var rows := PlainBar(p, job, n - 1, |p.features|);
      AfterConcat(PlainRows(p, job, n - 1), rows, t);
      AfterUniform(rows, t, job.bars[n - 1].timestamp);
    } else {
      assert After([], t) == [] by { NothingAfter(t); }
    }
  }

  lemma NothingAfter(t: int)
    ensures After([], t) == []
  {
  }

  lemma SameBarRows(p: Setup, job: Job, t: int, i: nat)
    requires job.Aligned() && i < |job.bars|
    ensures PlainBar(p, job.(since := Some(t)), i, |p.features|) == PlainBar(p, job, i, |p.features|)
    ensures forall r :: r in PlainBar(p, job, i, |p.features|) ==> r.key.timestamp == job.bars[i].timestamp
  {
  }

  // ---- extending a history ----

  lemma {:induction false} SharedRows(p: Setup, a: Call, b: Call, n: nat)
    requires a.symbol == b.symbol && a.since == b.since && SameBenchmark(a, b)
    requires StrictlyAscending(a.bars) && StrictlyAscending(b.bars) && a.bars <= b.bars && n <= |a.bars|
    ensures Prepare(a).bars == a.bars && Prepare(b).bars == b.bars
    ensures PlainRows(p, Prepare(a), n) == PlainRows(p, Prepare(b), n)
  {
    hide Prepare, WindowAt, Evaluate, MaxLen, SameBenchmark, StrictlyAscending, PlainBar;
    Prepared(a);
    Prepared(b);
    if n > 0 {
      SharedRows(p, a, b, n - 1);
      SameWindow(a, b, n - 1, MaxLen(p.features));
      AlikeBars(p, Prepare(a), Prepare(b), n - 1);
    }
  }

  lemma AlikeBars(p: Setup, a: Job, b: Job, i: nat)
    requires a.Aligned() && b.Aligned() && i < |a.bars| && i < |b.bars| && a.symbol == b.symbol
    requires a.bars[i].timestamp == b.bars[i].timestamp
    requires WindowAt(a, i, MaxLen(p.features)) == WindowAt(b, i, MaxLen(p.features))
    ensures PlainBar(p, a, i, |p.features|) == PlainBar(p, b, i, |p.features|)
  {
    hide WindowAt, Evaluate, MaxLen;
  }

  /** The rows of the second call begin with those of the first. */
  ghost predicate Prefixed(p: Setup, a: Call, b: Call) {
    Plain(p, Prepare(a)) <= Plain(p, Prepare(b))
  }

  /** No look-ahead, exactly: bars appended to a history leave the rows of its own bars as they were, for
      every pipeline, if and only if both histories see the same benchmark on these bars, or the call
      computes none of them. */
  lemma NoLookAhead(a: Call, b: Call)
    requires a.symbol == b.symbol && a.since == b.since
    requires StrictlyAscending(a.bars) && StrictlyAscending(b.bars) && a.bars <= b.bars
    ensures (forall p :: Prefixed(p, a, b)) <==> (Revisits(a, b) ==> SameBenchmark(a, b))
  {
    hide Prefixed, SameBenchmark, Probe, Revisits, ValueAt;
    if Revisits(a, b) && !SameBenchmark(a, b) {
      var k := Disagreement(a, b);
      OneFeature(|a.bars|, k);
      LastRowDiffers(Probe(|a.bars|, k), a, b);
      assert !Prefixed(Probe(|a.bars|, k), a, b);
    } else {
      forall p ensures Prefixed(p, a, b) {
        if SameBenchmark(a, b) { SameRowsFirst(p, a, b); } else { NoRows(p, a, b); }
      }
    }
  }

  lemma SameRowsFirst(p: Setup, a: Call, b: Call)
    requires a.symbol == b.symbol && a.since == b.since && SameBenchmark(a, b)
    requires StrictlyAscending(a.bars) && StrictlyAscending(b.bars) && a.bars <= b.bars
    ensures Prefixed(p, a, b)
  {
    hide Prepare, PlainBar, SameBenchmark;
    SharedRows(p, a, b, |a.bars|);
    RowsGrow(p, Prepare(b), |a.bars|, |b.bars|);
  }

  lemma NoRows(p: Setup, a: Call, b: Call)
    requires a.since == b.since && StrictlyAscending(a.bars) && !Revisits(a, b)
    ensures Prefixed(p, a, b)
  {
    hide Prepare, PlainRows;
    Prepared(a);
    forall i | 0 <= i < |a.bars| ensures Prepare(a).Skips(i) {
      assert a.bars[i].timestamp <= a.bars[|a.bars| - 1].timestamp;
    }
    EarlyRows(p, Prepare(a), |a.bars|);
  }

  /** With one feature, the row of a bar has the value of that bar. */
  lemma {:induction false} PlainOnly(p: Setup, job: Job, n: nat, i: nat, r: Row)
    requires |p.features| == 1 && job.Aligned() && StrictlyAscending(job.bars) && n <= |job.bars| && i < |job.bars|
    requires r in PlainRows(p, job, n) && r.key == KeyOf(job, p.features[0], i)
    ensures r.value == ValueAt(p, job, i, 0)
  {
    hide ValueAt;
    if r in PlainRows(p, job, n - 1) {
      PlainOnly(p, job, n - 1, i, r);
    } else {
      assert r == PlainBar(p, job, n - 1, 1)[0];
      SameBar(job.bars, n - 1, i);
    }
  }

  /** A row of the first call that the second call does not have. */
  lemma LastRowDiffers(p: Setup, a: Call, b: Call)
    requires |p.features| == 1 && a.symbol == b.symbol && StrictlyAscending(b.bars) && a.bars <= b.bars
    requires Revisits(a, b) && Prepare(a).bars == a.bars && Prepare(b).bars == b.bars
    requires ValueAt(p, Prepare(a), |a.bars| - 1, 0) != ValueAt(p, Prepare(b), |a.bars| - 1, 0)
    ensures exists r :: r in Plain(p, Prepare(a)) && r !in Plain(p, Prepare(b))
    ensures !Prefixed(p, a, b)
  {
    hide ValueAt, PlainRows, AlignMarket, StrictlyAscending;
    var ja, jb, n := Prepare(a), Prepare(b), |a.bars|;
    var r := Row(KeyOf(ja, p.features[0], n - 1), ValueAt(p, ja, n - 1, 0));
    PlainHas(p, ja, n, n - 1, 0);
    assert b.bars[n - 1] == a.bars[n - 1];
    if r in Plain(p, jb) { PlainOnly(p, jb, |b.bars|, n - 1, r); }
    assert r in Plain(p, ja) && r !in Plain(p, jb);
  }

  lemma {:induction false} RowsGrow(p: Setup, job: Job, m: nat, n: nat)
    requires job.Aligned() && m <= n <= |job.bars|
    ensures PlainRows(p, job, m) <= PlainRows(p, job, n)
    decreases n
  {
    hide PlainBar;
    if m < n { RowsGrow(p, job, m, n - 1); }
  }

  /** The rows of the old history, then the rows of the extended one since the old one's last bar. */
  function Resumed(p: Setup, a: Call, b: Call): seq<Row>
    requires |a.bars| > 0
  {
    Plain(p, Prepare(a)) + Plain(p, Prepare(b.(since := Some(a.bars[|a.bars| - 1].timestamp))))
  }

  lemma {:induction false} LaterRows(p: Setup, job: Job, m: nat, n: nat)
    requires job.Aligned() && job.since.None? && StrictlyAscending(job.bars) && 0 < m && m <= n <= |job.bars|
    ensures PlainRows(p, job, n)
         == PlainRows(p, job, m) + PlainRows(p, job.(since := Some(job.bars[m - 1].timestamp)), n)
    decreases n
  {
    hide PlainBar;
    var since := job.(since := Some(job.bars[m - 1].timestamp));
    if m < n {
      LaterRows(p, job, m, n - 1);
      SameBarRows(p, job, job.bars[m - 1].timestamp, n - 1);
    } else {
      EarlyRows(p, since, n);
    }
  }

  lemma {:induction false} EarlyRows(p: Setup, job: Job, n: nat)
    requires job.Aligned() && n <= |job.bars| && forall i :: 0 <= i < n ==> job.Skips(i)
    ensures PlainRows(p, job, n) == []
  {
    if n > 0 { EarlyRows(p, job, n - 1); }
  }

  /** Full run on the old history, then incremental on the extended one, equals a full run on the extended
      one for every pipeline, exactly when both see the same benchmark on the old bars. */
  lemma IncrementalIff(a: Call, b: Call)
    requires a.symbol == b.symbol && a.since.None? && b.since.None? && |a.bars| > 0
    requires StrictlyAscending(a.bars) && StrictlyAscending(b.bars) && a.bars <= b.bars
    ensures (forall p :: Resumed(p, a, b) == Plain(p, Prepare(b))) <==> SameBenchmark(a, b)
  {
    hide Prepare, PlainRows, SameBenchmark, Probe, ValueAt;
    Prepared(a);
    Prepared(b);
    if SameBenchmark(a, b) {
      forall p ensures Resumed(p, a, b) == Plain(p, Prepare(b)) {
        var t := a.bars[|a.bars| - 1].timestamp;
        Resume(b, t);
        SharedRows(p, a, b, |a.bars|);
        LaterRows(p, Prepare(b), |a.bars|, |b.bars|);
      }
    } else {
      var k := Disagreement(a, b);
      var p := Probe(|a.bars|, k);
      OneFeature(|a.bars|, k);
      LastRowDiffers(p, a, b);
      var r :| r in Plain(p, Prepare(a)) && r !in Plain(p, Prepare(b));
      assert r in Resumed(p, a, b);
    }
  }

  lemma OneFeature(n: nat, k: nat)
    ensures |Probe(n, k).features| == 1
  {
  }

  lemma Resume(b: Call, t: int)
    requires b.since.None?
    ensures Prepare(b.(since := Some(t))) == Prepare(b).(since := Some(t))
  {
  }

  /** With one benchmark for both runs, what breaks the resumption is a later bar it does not cover. */
  lemma CoverageLost(a: Call, b: Call)
    requires a.market == b.market && a.bars <= b.bars && |a.bars| > 0
    ensures SameBenchmark(a, b) <==> (Dropped(a) || !Dropped(b))
  {
    hide CloseAt;
    if Dropped(a) && a.market.Some? {
      var x :| x in a.bars && CloseAt(a.market.value, x.timestamp).None?;
      assert x in b.bars;
    }
  }

  // ---- the bounded window ----

  predicate Rectangular(w: Window) {
    && |w.open| == |w.high| == |w.low| == |w.close| == |w.volume|
    && (w.market.Some? ==> |w.market.value| == |w.close|)
  }

  /** Where the last n of a number of entries start. */
  function TailStart(count: nat, n: int): (k: nat)
    ensures k <= count
  {
    if n <= 0 then count else if n >= count then 0 else count - n
  }

  /** The last n entries of every column. */
  function Tail(w: Window, n: int): Window
    requires Rectangular(w)
  {
    var k := TailStart(|w.close|, n);
    Window(w.open[k..], w.high[k..], w.low[k..], w.close[k..], w.volume[k..],
           if w.market.None? then None else Some(w.market.value[k..]))
  }

  /** The feature's answer is settled by the last n entries. */
  ghost predicate LooksBack(f: Feature, n: int) {
    forall w :: Rectangular(w) ==> f.fn(w) == f.fn(Tail(w, n))
  }

  lemma WindowIsTail(job: Job, i: nat, n: int)
    requires job.Aligned() && i < |job.bars|
    ensures var w := WindowAt(job, i, i + 1);
            Rectangular(w) && WindowAt(job, i, n) == Tail(w, n) && |w.close| == i + 1
  {
    var w, v := WindowAt(job, i, i + 1), WindowAt(job, i, n);
    var lo := if i + 1 - n > 0 then i + 1 - n else 0;
    assert Slice(job.bars, 0, i + 1) == job.bars[..i + 1];
    var t := Tail(w, n);
    assert v.open == t.open && v.high == t.high && v.low == t.low;
    assert v.close == t.close && v.volume == t.volume;
    if job.market.Some? { assert v.market.value == t.market.value; }
  }

  /** The bounded window opens the history gate exactly when the whole history would, and a feature
      settled by its last `MaxLen` bars has the value the whole history gives it. */
  lemma WindowSuffices(p: Setup, job: Job, i: nat, j: nat)
    requires job.Aligned() && i < |job.bars| && j < |p.features|
    ensures var f, w := p.features[j], WindowAt(job, i, MaxLen(p.features));
            && (|w.close| < f.minPeriods <==> i + 1 < f.minPeriods)
            && (LooksBack(f, MaxLen(p.features)) ==> ValueAt(p, job, i, j) == Evaluate(f, WindowAt(job, i, i + 1)))
  {
    hide WindowAt;
    var f := p.features[j];
    assert f in p.features && MaxLen(p.features) > f.minPeriods;
    WindowIsTail(job, i, MaxLen(p.features));
  }

  /** Such a feature has the same value in every pipeline it is registered in. */
  lemma FeatureSetIrrelevant(p: Setup, q: Setup, job: Job, i: nat, j: nat, k: nat)
    requires job.Aligned() && i < |job.bars| && j < |p.features| && k < |q.features|
    requires p.features[j] == q.features[k] && LooksBack(p.features[j], p.features[j].minPeriods + 1)
    ensures ValueAt(p, job, i, j) == ValueAt(q, job, i, k)
  {
    hide WindowAt, Evaluate, MaxLen, LooksBack;
    LooksFurther(p, j);
    LooksFurther(q, k);
    WindowSuffices(p, job, i, j);
    WindowSuffices(q, job, i, k);
  }

  lemma LooksFurther(p: Setup, j: nat)
    requires j < |p.features| && LooksBack(p.features[j], p.features[j].minPeriods + 1)
    ensures LooksBack(p.features[j], MaxLen(p.features))
  {
    var f, m := p.features[j], MaxLen(p.features);
    assert f in p.features && m >= f.minPeriods + 1;
    forall w | Rectangular(w) ensures f.fn(w) == f.fn(Tail(w, m)) {
      TailOfTail(w, f.minPeriods + 1, m);
    }
  }

  lemma LastOfLast(s: seq<real>, n: int, m: int)
    requires n <= m
    ensures var t := s[TailStart(|s|, m)..];
            t[TailStart(|t|, n)..] == s[TailStart(|s|, n)..]
  {
    var i := TailStart(|s|, m);
    var j := TailStart(|s| - i, n);
    assert s[i..][j..] == s[i + j..];
  }

  lemma TailOfTail(w: Window, n: int, m: int)
    requires Rectangular(w) && n <= m
    ensures Rectangular(Tail(w, m)) && Tail(Tail(w, m), n) == Tail(w, n)
  {
    LastOfLast(w.open, n, m);
    LastOfLast(w.high, n, m);
    LastOfLast(w.low, n, m);
    LastOfLast(w.close, n, m);
    LastOfLast(w.volume, n, m);
    if w.market.Some? { LastOfLast(w.market.value, n, m); }
  }

  // ---- which features do not notice each other ----

  ghost predicate SameValue(f: Feature, p: Setup, q: Setup, job: Job, i: nat, j: nat, k: nat) {
    job.Aligned() && i < |job.bars| && j < |p.features| && k < |q.features| && p.features[j] == f == q.features[k] ==>
      ValueAt(p, job, i, j) == ValueAt(q, job, i, k)
  }

  /** The feature's value, gate and error isolation included, is settled by its own look-back. */
  ghost predicate Settled(f: Feature) {
    forall w :: Rectangular(w) && |w.close| > 0 ==> Evaluate(f, w) == Evaluate(f, Tail(w, f.minPeriods + 1))
  }

  /** The history whose full window is w. */
  function JobOf(w: Window): (job: Job)
    requires Rectangular(w)
    ensures job.Aligned() && |job.bars| == |w.close|
  {
    Job("", seq(|w.close|, i requires 0 <= i < |w.close| =>
              Bar(i, w.open[i], w.high[i], w.low[i], w.close[i], w.volume[i])), w.market, None)
  }

  lemma JobOfWindow(w: Window)
    requires Rectangular(w) && |w.close| > 0
    ensures WindowAt(JobOf(w), |w.close| - 1, |w.close|) == w
  {
    var job, n := JobOf(w), |w.close|;
    assert Slice(job.bars, 0, n) == job.bars;
    var v := WindowAt(job, n - 1, n);
    assert v.open == w.open && v.high == w.high && v.low == w.low && v.close == w.close && v.volume == w.volume;
    if w.market.Some? { assert v.market.value == w.market.value; }
  }

  /** A feature has one value in all pipelines it is registered in, at every bar of every history, exactly
      when that value is settled by its own look-back. */
  lemma FeatureSetIff(f: Feature)
    ensures (forall p, q, job, i, j, k :: SameValue(f, p, q, job, i, j, k)) <==> Settled(f)
  {
    hide SameValue, Settled;
    if Settled(f) {
      forall p, q, job, i, j, k ensures SameValue(f, p, q, job, i, j, k) {
        SettledSame(f, p, q, job, i, j, k);
      }
    } else {
      var job, i := NotSettled(f);
      assert !SameValue(f, Setup([f], true), WithLong(f, i + 1), job, i, 0, 0);
    }
  }

  lemma SettledAt(f: Feature, p: Setup, job: Job, i: nat, j: nat)
    requires Settled(f) && job.Aligned() && i < |job.bars| && j < |p.features| && p.features[j] == f
    ensures Rectangular(WindowAt(job, i, i + 1))
    ensures ValueAt(p, job, i, j) == Evaluate(f, Tail(WindowAt(job, i, i + 1), f.minPeriods + 1))
  {
    hide WindowAt, Evaluate, Tail, Rectangular, MaxLen;
    var w, n := WindowAt(job, i, i + 1), MaxLen(p.features);
    LookBackWithin(p, j);
    WindowIsTail(job, i, n);
    TailOfTail(w, f.minPeriods + 1, n);
    if n > 0 { LastOfTail(w, n); } else { EmptyTails(w, n, f.minPeriods + 1); }
  }

  lemma LookBackWithin(p: Setup, j: nat)
    requires j < |p.features|
    ensures MaxLen(p.features) >= p.features[j].minPeriods + 1
  {
    assert p.features[j] in p.features;
  }

  lemma EmptyTails(w: Window, n: int, m: int)
    requires Rectangular(w) && n <= 0 && m <= 0
    ensures Tail(w, n) == Tail(w, m)
  {
  }

  lemma SettledSame(f: Feature, p: Setup, q: Setup, job: Job, i: nat, j: nat, k: nat)
    requires Settled(f)
    ensures SameValue(f, p, q, job, i, j, k)
  {
    hide Settled, ValueAt;
    if job.Aligned() && i < |job.bars| && j < |p.features| && k < |q.features| && p.features[j] == f == q.features[k] {
      SettledAt(f, p, job, i, j);
      SettledAt(f, q, job, i, k);
    }
  }

  /** The feature beside another one with look-back n. */
  function WithLong(f: Feature, n: nat): Setup {
    Setup([f, Feature("long", 1, n, (w: Window) => Computed(None))], true)
  }

  lemma NotSettled(f: Feature) returns (job: Job, i: nat)
    requires !Settled(f)
    ensures !SameValue(f, Setup([f], true), WithLong(f, i + 1), job, i, 0, 0)
  {
    hide WindowAt, Evaluate, JobOf, Tail;
    var w :| Rectangular(w) && |w.close| > 0 && Evaluate(f, w) != Evaluate(f, Tail(w, f.minPeriods + 1));
    job, i := JobOf(w), |w.close| - 1;
    var p, q := Setup([f], true), WithLong(f, i + 1);
    assert q.features[..1] == [f];
    assert MaxLen(p.features) == f.minPeriods + 1 && MaxLen(q.features) >= i + 2;
    JobOfWindow(w);
    WindowIsTail(job, i, MaxLen(p.features));
    WindowIsTail(job, i, MaxLen(q.features));
    WholeTail(w, MaxLen(q.features));
    assert ValueAt(p, job, i, 0) == Evaluate(f, Tail(w, f.minPeriods + 1));
    assert ValueAt(q, job, i, 0) == Evaluate(f, w);
  }

  lemma WholeTail(w: Window, n: int)
    requires Rectangular(w) && n >= |w.close| && n > 0
    ensures Tail(w, n) == w
  {
  }

  // ---- the exponential average ----

  /** Folding values into an average with weight k for the newest. */
  function Folded(e: real, xs: seq<real>, k: real): real {
    if |xs| == 0 then e
    else Mix(xs[|xs| - 1], Folded(e, xs[..|xs| - 1], k), k)
  }

  function Mix(x: real, y: real, k: real): real {
    x * k + y * (1.0 - k)
  }

  function Total(xs: seq<real>): real {
    if |xs| == 0 then 0.0 else Total(xs[..|xs| - 1]) + xs[|xs| - 1]
  }

  function Weight(span: int): (k: real)
    requires span >= 1
    ensures 0.0 < k <= 1.0
  {
    2.0 / (span + 1) as real
  }

  /** Seeded with the plain mean of the first `span` values; none when there are fewer. */
  function EmaValue(series: seq<real>, span: int): Option<real>
    requires span >= 1
  {
    if |series| < span then None
    else Some(Folded(Total(series[..span]) / span as real, series[span..], Weight(span)))
  }

  lemma TotalNext(xs: seq<real>, i: nat)
    requires i < |xs|
    ensures Total(xs[..i + 1]) == Total(xs[..i]) + xs[i]
  {
    assert xs[..i + 1][..i] == xs[..i];
  }

  lemma FoldedNext(e: real, xs: seq<real>, i: nat, k: real)
    requires i < |xs|
    ensures Folded(e, xs[..i + 1], k) == Mix(xs[i], Folded(e, xs[..i], k), k)
  {
    assert xs[..i + 1][..i] == xs[..i];
  }

  lemma NoneYet(e: real, k: real)
    ensures Total([]) == 0.0 && Folded(e, [], k) == e
  {
  }

  /** The average by its recurrence: none before `span` values, their plain mean at `span` of them, and from there
      each value x moves it 2 / (span + 1) of the way to x. */
  lemma EmaRecurrence(series: seq<real>, span: int, x: real)
    requires span >= 1
    ensures EmaValue(series, span).None? <==> |series| < span
    ensures |series| == span ==>
              Times(EmaValue(series, span).value, span as real) == SumOver(series, (y: real) => y)
    ensures |series| >= span ==>
              var e, next := EmaValue(series, span).value, EmaValue(series + [x], span);
              next.Some? && Times((span + 1) as real, next.value - e) == 2.0 * (x - e)
  {
    hide Folded, Mix, Times, Total;
    var k := Weight(span);
    if |series| >= span {
      var xs := series + [x];
      assert xs[..span] == series[..span] && xs[span..] == series[span..] + [x];
      var seed := Total(series[..span]) / span as real;
      FoldedOne(seed, series[span..], x, k);
      MixStep(x, Folded(seed, series[span..], k), span);
      if |series| == span {
        assert series[..span] == series && series[span..] == [];
        NoneYet(seed, k);
        TotalIsSum(series);
        MeanTimes(Total(series), span as real);
      }
    }
  }

  lemma FoldedOne(e: real, xs: seq<real>, x: real, k: real)
    ensures Folded(e, xs + [x], k) == Mix(x, Folded(e, xs, k), k)
  {
    assert (xs + [x])[..|xs|] == xs;
  }

  lemma MixStep(x: real, e: real, span: int)
    requires span >= 1
    ensures Times((span + 1) as real, Mix(x, e, Weight(span)) - e) == 2.0 * (x - e)
  {
    var k, n := Weight(span), (span + 1) as real;
    assert k * n == 2.0;
    assert Mix(x, e, k) - e == k * (x - e);
    assert n * (k * (x - e)) == (k * n) * (x - e);
  }

  lemma MeanTimes(total: real, n: real)
    requires n > 0.0
    ensures Times(total / n, n) == total
  {
  }

  lemma {:induction false} TotalIsSum(xs: seq<real>)
    ensures Total(xs) == SumOver(xs, (y: real) => y)
  {
    if |xs| > 0 {
      TotalIsSum(xs[..|xs| - 1]);
      SumAppend(xs[..|xs| - 1], xs[|xs| - 1], (y: real) => y);
      assert xs == xs[..|xs| - 1] + [xs[|xs| - 1]];
    }
  }

  method Ema(series: seq<real>, span: int) returns (r: Option<real>)
    requires span >= 1
    ensures r == EmaValue(series, span)
  {
    hide Mix, Folded, Total;
    if |series| < span {
      return None;
    }
    var k := 2.0 / (span + 1) as real;
    var sum := 0.0;
    assert series[..0] == [];
    NoneYet(0.0, k);
    for i := 0 to span
      invariant sum == Total(series[..i])
    {
      TotalNext(series, i);
      sum := sum + series[i];
    }
    var e := sum / span as real;
    ghost var seed, rest := e, series[span..];
    assert rest[..0] == [];
    NoneYet(seed, k);
    for i := span to |series|
      invariant e == Folded(seed, rest[..i - span], k)
    {
      FoldedNext(seed, rest, i - span, k);
      e := Mix(series[i], e, k);
    }
    assert rest[..|rest|] == rest;
    r := Some(e);
  }

  /** The seed's influence decays geometrically: two seeds differ, n values later, by their difference
      times the n-th power of 1 - k. */
  lemma {:induction false} SeedDecays(e: real, d: real, xs: seq<real>, k: real)
    ensures Folded(e, xs, k) - Folded(d, xs, k) == Times(Power(1.0 - k, |xs|), e - d)
  {
    hide Mix, Times;
    if |xs| > 0 {
      var front := xs[..|xs| - 1];
      SeedDecays(e, d, front, k);
      Spread(xs[|xs| - 1], Folded(e, front, k), Folded(d, front, k), Power(1.0 - k, |front|), e - d, k);
    } else {
      TimesOne(e - d);
    }
  }

  lemma Spread(x: real, a: real, b: real, p: real, d: real, k: real)
    requires a - b == Times(p, d)
    ensures Mix(x, a, k) - Mix(x, b, k) == Times(Times(p, 1.0 - k), d)
  {
    var q := 1.0 - k;
    assert (a - b) * q == p * d * q;
    assert (p * q) * d == p * d * q;
  }

  predicate AllWithin(xs: seq<real>, lo: real, hi: real) {
    forall i :: 0 <= i < |xs| ==> lo <= xs[i] <= hi
  }

  /** The average stays within the bounds of the values. */
  lemma {:induction false} FoldedBetween(e: real, xs: seq<real>, k: real, lo: real, hi: real)
    requires 0.0 <= k <= 1.0 && lo <= e <= hi && AllWithin(xs, lo, hi)
    ensures lo <= Folded(e, xs, k) <= hi
  {
    if |xs| > 0 {
      var front, x := xs[..|xs| - 1], xs[|xs| - 1];
      FoldedBetween(e, front, k, lo, hi);
      Mixed(x, Folded(e, front, k), k, lo, hi);
    }
  }

  lemma Mixed(x: real, y: real, k: real, lo: real, hi: real)
    requires 0.0 <= k <= 1.0 && lo <= x <= hi && lo <= y <= hi
    ensures lo <= Mix(x, y, k) <= hi
  {
    var r1 := NonNegativeProduct(x - lo, k);
    var r2 := NonNegativeProduct(y - lo, 1.0 - k);
    var r3 := NonNegativeProduct(hi - x, k);
    var r4 := NonNegativeProduct(hi - y, 1.0 - k);
  }

  lemma {:induction false} TotalBetween(xs: seq<real>, lo: real, hi: real)
    requires AllWithin(xs, lo, hi)
    ensures Times(|xs| as real, lo) <= Total(xs) <= Times(|xs| as real, hi)
  {
    if |xs| > 0 {
      TotalBetween(xs[..|xs| - 1], lo, hi);
      TimesAdds((|xs| - 1) as real, 1.0, lo);
      TimesAdds((|xs| - 1) as real, 1.0, hi);
    }
  }

  lemma EmaBetween(series: seq<real>, span: int, lo: real, hi: real)
    requires 1 <= span <= |series| && AllWithin(series, lo, hi)
    ensures EmaValue(series, span).Some? && lo <= EmaValue(series, span).value <= hi
  {
    var n := span as real;
    TotalBetween(series[..span], lo, hi);
    MeanBetween(Total(series[..span]), n, lo, hi);
    FoldedBetween(Total(series[..span]) / n, series[span..], Weight(span), lo, hi);
  }

  lemma MeanBetween(total: real, n: real, lo: real, hi: real)
    requires n > 0.0 && Times(n, lo) <= total <= Times(n, hi)
    ensures lo <= total / n <= hi
  {
    var q := total / n;
    assert n * q == total;
    if q < lo { var r := PositiveProduct(n, lo - q); }
    if q > hi { var r := PositiveProduct(n, q - hi); }
  }

  // ---- how far the average depends on where it starts ----

  lemma {:induction false} FoldedConcat(e: real, xs: seq<real>, ys: seq<real>, k: real)
    ensures Folded(e, xs + ys, k) == Folded(Folded(e, xs, k), ys, k)
  {
    if |ys| == 0 {
      assert xs + ys == xs;
    } else {
      assert (xs + ys)[..|xs + ys| - 1] == xs + ys[..|ys| - 1];
      FoldedConcat(e, xs, ys[..|ys| - 1], k);
    }
  }

  /** Later values are folded into the average so far. */
  lemma EmaContinues(xs: seq<real>, ys: seq<real>, span: int)
    requires 1 <= span <= |xs|
    ensures EmaValue(xs + ys, span) == Some(Folded(EmaValue(xs, span).value, ys, Weight(span)))
  {
    hide Folded, Total, Weight;
    assert (xs + ys)[..span] == xs[..span] && (xs + ys)[span..] == xs[span..] + ys;
    FoldedConcat(Total(xs[..span]) / span as real, xs[span..], ys, Weight(span));
  }

  /** The average of a history and that of its window from position `start` differ by exactly the
      difference of the two averages where the window's seed ends, times 1 - k to the number of later values. */
  lemma StartDecays(series: seq<real>, start: nat, span: int)
    requires span >= 1 && start + span <= |series|
    ensures EmaValue(series, span).value - EmaValue(series[start..], span).value ==
            Times(Power(1.0 - Weight(span), |series| - (start + span)),
                  EmaValue(series[..start + span], span).value - EmaValue(series[start..start + span], span).value)
  {
    hide EmaValue, Folded, Times, Power, Weight;
    EmaSome(series[..start + span], span);
    EmaSome(series[start..start + span], span);
    var head, window, later := series[..start + span], series[start..start + span], series[start + span..];
    assert series == head + later && series[start..] == window + later;
    EmaContinues(head, later, span);
    EmaContinues(window, later, span);
    SeedDecays(EmaValue(head, span).value, EmaValue(window, span).value, later, Weight(span));
  }

  lemma EmaSome(series: seq<real>, span: int)
    requires 1 <= span <= |series|
    ensures EmaValue(series, span).Some?
  {
  }

  /** A feature that averages its whole window. */
  function EmaFeature(span: int, minPeriods: int): Feature
    requires span >= 1
  {
    Feature("ema", 1, minPeriods, (w: Window) => Computed(EmaValue(w.close, span)))
  }

  function WindowFrom(close: seq<real>): (w: Window)
    ensures Rectangular(w)
  {
    Window(close, close, close, close, close, None)
  }

  function Zeros(n: nat): (z: seq<real>)
    ensures |z| == n
  {
    seq(n, _ => 0.0)
  }

  lemma {:induction false} FoldedZeros(n: nat, k: real)
    ensures Folded(0.0, Zeros(n), k) == 0.0 && Total(Zeros(n)) == 0.0
  {
    if n > 0 {
      assert Zeros(n)[..n - 1] == Zeros(n - 1);
      FoldedZeros(n - 1, k);
    }
  }

  lemma EmaOfZeros(n: nat, span: int)
    requires span >= 1
    ensures EmaValue(Zeros(n), span) == if n < span then None else Some(0.0)
  {
    if n >= span {
      assert Zeros(n)[..span] == Zeros(span) && Zeros(n)[span..] == Zeros(n - span);
      FoldedZeros(span, Weight(span));
      FoldedZeros(n - span, Weight(span));
    }
  }

  /** A one followed by zeros never averages out. */
  lemma EmaOfImpulse(n: nat, span: int)
    requires 2 <= span <= n + 1
    ensures EmaValue([1.0] + Zeros(n), span).Some? && EmaValue([1.0] + Zeros(n), span).value > 0.0
  {
    hide Times, Power, Folded, Mix;
    var s, k := [1.0] + Zeros(n), Weight(span);
    assert s[..span] == [1.0] + Zeros(span - 1) && s[span..] == Zeros(n + 1 - span);
    TotalOfImpulse(span - 1);
    FoldedZeros(n + 1 - span, k);
    SeedDecays(1.0 / span as real, 0.0, s[span..], k);
    WeightBelowOne(span);
    PowerPositive(1.0 - k, n + 1 - span);
    ScaledPositive(Power(1.0 - k, n + 1 - span), span as real);
  }

  lemma {:induction false} TotalOfImpulse(n: nat)
    ensures Total([1.0] + Zeros(n)) == 1.0
  {
    var s := [1.0] + Zeros(n);
    if n > 0 {
      assert s[..n] == [1.0] + Zeros(n - 1);
      TotalOfImpulse(n - 1);
    } else {
      assert s[..0] == [];
    }
  }

  lemma WeightBelowOne(span: int)
    requires span >= 2
    ensures Weight(span) < 1.0
  {
  }

  lemma ScaledPositive(p: real, n: real)
    requires p > 0.0 && n > 0.0
    ensures Times(p, 1.0 / n - 0.0) > 0.0
  {
    assert 1.0 / n > 0.0;
    var r := PositiveProduct(p, 1.0 / n);
  }

  /** With span 1 the average is the last value. */
  lemma EmaOfSpanOne(series: seq<real>)
    requires |series| > 0
    ensures EmaValue(series, 1) == Some(series[|series| - 1])
  {
    assert series[..1] == [series[0]] && [series[0]][..0] == [];
    assert Total(series[..1]) == series[0];
    assert Weight(1) == 1.0;
    var rest := series[1..];
    if |rest| > 0 {
      MixOne(rest[|rest| - 1], Folded(series[0], rest[..|rest| - 1], 1.0));
    }
  }

  lemma MixOne(x: real, y: real)
    ensures Mix(x, y, 1.0) == x
  {
  }

  /** An exponential average has one value in all pipelines exactly when its span is 1, so that it is no
      average, and its look-back reaches the bar itself. */
  lemma EmaSetIff(span: int, minPeriods: int)
    requires span >= 1
    ensures (forall p, q, job, i, j, k :: SameValue(EmaFeature(span, minPeriods), p, q, job, i, j, k))
       <==> span == 1 && minPeriods >= 0
  {
    hide SameValue, Settled, EmaFeature;
    FeatureSetIff(EmaFeature(span, minPeriods));
    if span == 1 && minPeriods >= 0 {
      SpanOneSettled(minPeriods);
    } else {
      LongSpanUnsettled(span, minPeriods);
    }
  }

  lemma SpanOneSettled(minPeriods: int)
    requires minPeriods >= 0
    ensures Settled(EmaFeature(1, minPeriods))
  {
    hide EmaValue, Tail, Rectangular;
    var f := EmaFeature(1, minPeriods);
    forall w | Rectangular(w) && |w.close| > 0
      ensures Evaluate(f, w) == Evaluate(f, Tail(w, minPeriods + 1))
    {
      LastOfTail(w, minPeriods + 1);
      EmaOfSpanOne(w.close);
      EmaOfSpanOne(Tail(w, minPeriods + 1).close);
    }
  }

  lemma LastOfTail(w: Window, n: int)
    requires Rectangular(w) && |w.close| > 0 && n > 0
    ensures var t := Tail(w, n).close;
            0 < |t| == (if n < |w.close| then n else |w.close|) && t[|t| - 1] == w.close[|w.close| - 1]
  {
  }

  lemma LongSpanUnsettled(span: int, minPeriods: int)
    requires span >= 1 && !(span == 1 && minPeriods >= 0)
    ensures !Settled(EmaFeature(span, minPeriods))
  {
    hide EmaValue, Zeros;
    var f := EmaFeature(span, minPeriods);
    if minPeriods + 1 < span {
      var w := WindowFrom(Zeros(span));
      EmaOfZeros(span, span);
      NoAverage(Tail(w, minPeriods + 1).close, span);
      assert Evaluate(f, w) == Some(0.0) && Evaluate(f, Tail(w, minPeriods + 1)) == None;
    } else {
      var w := WindowFrom([1.0] + Zeros(minPeriods + 1));
      EmaOfImpulse(minPeriods + 1, span);
      EmaOfZeros(minPeriods + 1, span);
      assert Tail(w, minPeriods + 1).close == Zeros(minPeriods + 1);
      assert Evaluate(f, w) != Some(0.0) && Evaluate(f, Tail(w, minPeriods + 1)) == Some(0.0);
    }
  }

  lemma NoAverage(series: seq<real>, span: int)
    requires span >= 1 && |series| < span
    ensures EmaValue(series, span) == None
  {
  }

  function Quote(timestamp: int, close: real): Bar {
    Bar(timestamp, close, close, close, close, 1.0)
  }

  /** The exponential average does depend on where the window starts, so registering another feature
      with a longer look-back changes its values. */
  lemma WindowStartMatters()
    ensures var f, g := EmaFeature(2, 2), Feature("slow", 1, 3, (w: Window) => Computed(None));
            var job := Job("A", [Quote(0, 3.0), Quote(1, 0.0), Quote(2, 0.0), Quote(3, 3.0)], None, None);
            ValueAt(Setup([f], true), job, 3, 0) == Some(2.0) != ValueAt(Setup([f, g], true), job, 3, 0)
  {
    var f, g := EmaFeature(2, 2), Feature("slow", 1, 3, (w: Window) => Computed(None));
    var job := Job("A", [Quote(0, 3.0), Quote(1, 0.0), Quote(2, 0.0), Quote(3, 3.0)], None, None);
    assert MaxLen([f]) == 3;
    assert [f, g][..1] == [f];
    assert MaxLen([f, g]) == 4;
    var short, long := WindowAt(job, 3, 3).close, WindowAt(job, 3, 4).close;
    assert short == [0.0, 0.0, 3.0] && long == [3.0, 0.0, 0.0, 3.0];
    EmaShort();
    EmaLong();
  }

  lemma EmaShort()
    ensures EmaValue([0.0, 0.0, 3.0], 2) == Some(2.0)
  {
    var s := [0.0, 0.0, 3.0];
    assert s[..2] == [0.0, 0.0] && s[2..] == [3.0];
    assert [0.0, 0.0][..1] == [0.0] && [0.0][..0] == [] && [3.0][..0] == [];
    assert Total([0.0, 0.0]) == 0.0;
    assert Folded(0.0, [3.0], 2.0 / 3.0) == 2.0;
  }

  lemma EmaLong()
    ensures EmaValue([3.0, 0.0, 0.0, 3.0], 2) == Some(13.0 / 6.0)
  {
    var s := [3.0, 0.0, 0.0, 3.0];
    assert s[..2] == [3.0, 0.0] && s[2..] == [0.0, 3.0];
    assert [3.0, 0.0][..1] == [3.0] && [3.0][..0] == [] && [0.0, 3.0][..1] == [0.0] && [0.0][..0] == [];
    assert Total([3.0, 0.0]) == 3.0;
    assert Folded(1.5, [0.0], 2.0 / 3.0) == 0.5;
    assert Folded(1.5, [0.0, 3.0], 2.0 / 3.0) == 13.0 / 6.0;
  }
}
