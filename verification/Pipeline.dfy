/** Feature values from bar histories: benchmark alignment, the bounded trailing window, the memo cache
    and the incremental mode. The cached, incremental and windowed ways of computing are compared with
    plain recomputation over the whole history. */
module Pipeline {
  import opened Dicts

  datatype Bar = Bar(timestamp: int, open: real, high: real, low: real, close: real, volume: real)

  /** What a feature sees: trailing columns, oldest first, and benchmark closes if there are any. */
  datatype Window = Window(
    open: seq<real>, high: seq<real>, low: seq<real>, close: seq<real>, volume: seq<real>,
    market: Option<seq<real>>)

  /** Calling a feature gives a value, gives none, or raises. */
  datatype Outcome = Computed(value: Option<real>) | Raised

  datatype Feature = Feature(name: string, version: int, minPeriods: int, fn: Window -> Outcome)

  datatype Key = Key(symbol: string, feature: string, version: int, timestamp: int)

  datatype Row = Row(key: Key, value: Option<real>)

  datatype Call = Call(symbol: string, bars: seq<Bar>, market: Option<seq<Bar>>, since: Option<int>)

  type Cache = map<Key, Option<real>>

  datatype Setup = Setup(features: seq<Feature>, useCache: bool)

  function Largest(features: seq<Feature>): (m: int)
    requires |features| > 0
    ensures exists f :: f in features && f.minPeriods == m
    ensures forall f :: f in features ==> f.minPeriods <= m
  {
    var last := features[|features| - 1];
    if |features| == 1 then last.minPeriods
    else
      var rest := Largest(features[..|features| - 1]);
      assert features == features[..|features| - 1] + [last];
      if last.minPeriods > rest then last.minPeriods else rest
  }

  /** The window bound: one more than the longest look-back of any registered feature. */
  function MaxLen(features: seq<Feature>): int {
    (if |features| == 0 then 1 else Largest(features)) + 1
  }

  // ---- ordering the bars ----

  predicate Ascending(bars: seq<Bar>) {
    forall i, j :: 0 <= i < j < |bars| ==> bars[i].timestamp <= bars[j].timestamp
  }

  predicate StrictlyAscending(bars: seq<Bar>) {
    forall i, j :: 0 <= i < j < |bars| ==> bars[i].timestamp < bars[j].timestamp
  }

  /** Where a bar goes: behind every bar of the same or an earlier time. */
  function Place(bars: seq<Bar>, b: Bar): (r: nat)
    ensures r <= |bars|
    ensures r > 0 ==> bars[r - 1].timestamp <= b.timestamp
    ensures forall i :: r <= i < |bars| ==> bars[i].timestamp > b.timestamp
  {
    if |bars| == 0 || bars[|bars| - 1].timestamp <= b.timestamp then |bars|
    else Place(bars[..|bars| - 1], b)
  }

  function InsertBar(bars: seq<Bar>, b: Bar): (r: seq<Bar>) {
    var n := Place(bars, b);
    bars[..n] + [b] + bars[n..]
  }

  lemma InsertBarMultiset(bars: seq<Bar>, b: Bar)
    ensures multiset(InsertBar(bars, b)) == multiset(bars) + multiset{b}
  {
    hide Place;
    var n := Place(bars, b);
    assert bars == bars[..n] + bars[n..];
  }

  lemma InsertBarAscending(bars: seq<Bar>, b: Bar)
    requires Ascending(bars)
    ensures Ascending(InsertBar(bars, b))
  {
    hide Place;
    var n, r := Place(bars, b), InsertBar(bars, b);
    forall i, j | 0 <= i < j < |r| ensures r[i].timestamp <= r[j].timestamp {
      var x := if i < n then i else i - 1;
      var y := if j < n then j else j - 1;
      if i != n && j != n { assert bars[x].timestamp <= bars[y].timestamp; }
    }
  }

  /** Stable sort by timestamp. */
  function ByTime(bars: seq<Bar>): (r: seq<Bar>) {
    if |bars| == 0 then [] else InsertBar(ByTime(bars[..|bars| - 1]), bars[|bars| - 1])
  }

  /** Sorting keeps the bars and puts them in order. */
  lemma {:induction false} ByTimeSorts(bars: seq<Bar>)
    ensures multiset(ByTime(bars)) == multiset(bars) && Ascending(ByTime(bars))
  {
    hide InsertBar, Ascending;
    if |bars| > 0 {
      var front, last := bars[..|bars| - 1], bars[|bars| - 1];
      assert bars == front + [last];
      ByTimeSorts(front);
      InsertBarMultiset(ByTime(front), last);
      InsertBarAscending(ByTime(front), last);
    } else {
      EmptyAscending();
    }
  }

  lemma EmptyAscending()
    ensures Ascending([])
  {
  }

  lemma LastStaysLast(bars: seq<Bar>)
    requires |bars| > 0 && Ascending(bars)
    ensures var front, last := bars[..|bars| - 1], bars[|bars| - 1];
            Ascending(front) && InsertBar(front, last) == bars
  {
    var front, last := bars[..|bars| - 1], bars[|bars| - 1];
    assert Place(front, last) == |front|;
    assert front + [last] == bars;
  }

  /** A history that is in order already stays as it is. */
  lemma {:induction false} ByTimeKeeps(bars: seq<Bar>)
    requires Ascending(bars)
    ensures ByTime(bars) == bars
  {
    hide InsertBar, Ascending;
    if |bars| > 0 {
      LastStaysLast(bars);
      ByTimeKeeps(bars[..|bars| - 1]);
    }
  }

  /** The bars of one timestamp, in order. */
  function At(bars: seq<Bar>, timestamp: int): seq<Bar> {
    if |bars| == 0 then []
    else
      var last := bars[|bars| - 1];
      At(bars[..|bars| - 1], timestamp) + if last.timestamp == timestamp then [last] else []
  }

  lemma {:induction false} AtConcat(a: seq<Bar>, b: seq<Bar>, timestamp: int)
    ensures At(a + b, timestamp) == At(a, timestamp) + At(b, timestamp)
  {
    if |b| == 0 {
      assert a + b == a;
    } else {
      assert (a + b)[..|a + b| - 1] == a + b[..|b| - 1];
      AtConcat(a, b[..|b| - 1], timestamp);
    }
  }

  lemma {:induction false} NoneAt(bars: seq<Bar>, timestamp: int)
    requires forall i :: 0 <= i < |bars| ==> bars[i].timestamp != timestamp
    ensures At(bars, timestamp) == []
  {
    if |bars| > 0 { NoneAt(bars[..|bars| - 1], timestamp); }
  }

  /** Sorting is stable: bars of one timestamp keep their order. */
  lemma {:induction false} ByTimeStable(bars: seq<Bar>, timestamp: int)
    ensures At(ByTime(bars), timestamp) == At(bars, timestamp)
  {
    hide Place;
    if |bars| > 0 {
      var front, last := bars[..|bars| - 1], bars[|bars| - 1];
      ByTimeStable(front, timestamp);
      InsertedAt(ByTime(front), last, timestamp);
    }
  }

  lemma InsertedAt(bars: seq<Bar>, b: Bar, timestamp: int)
    ensures At(InsertBar(bars, b), timestamp) == At(bars, timestamp) + if b.timestamp == timestamp then [b] else []
  {
    hide Place, At;
    var n := Place(bars, b);
    var front, back := bars[..n], bars[n..];
    assert bars == front + back;
    AtConcat(front, back, timestamp);
    AtConcat(front + [b], back, timestamp);
    AtConcat(front, [b], timestamp);
    AtOne(b, timestamp);
    if b.timestamp == timestamp { NoneAt(back, timestamp); }
  }

  lemma AtOne(b: Bar, timestamp: int)
    ensures At([b], timestamp) == if b.timestamp == timestamp then [b] else []
  {
    assert [b][..0] == [];
  }

  // ---- aligning the benchmark ----

  /** The close recorded for a timestamp; of several bars with that timestamp, the last one's. */
  function CloseAt(market: seq<Bar>, timestamp: int): Option<real>
    decreases |market|
  {
    if |market| == 0 then None
    else
      var last := market[|market| - 1];
      if last.timestamp == timestamp then Some(last.close)
      else CloseAt(market[..|market| - 1], timestamp)
  }

  predicate Covers(market: seq<Bar>, bars: seq<Bar>) {
    forall b :: b in bars ==> CloseAt(market, b.timestamp).Some?
  }

  /** One close per bar, or nothing at all when some bar has none. */
  function AlignMarket(bars: seq<Bar>, market: Option<seq<Bar>>): (r: Option<seq<real>>)
    ensures r.Some? <==> market.Some? && Covers(market.value, bars)
    ensures r.Some? ==> |r.value| == |bars|
    ensures r.Some? ==> forall i :: 0 <= i < |bars| ==> CloseAt(market.value, bars[i].timestamp) == Some(r.value[i])
  {
    if market.None? || !Covers(market.value, bars) then None
    else Some(seq(|bars|, i requires 0 <= i < |bars| => CloseAt(market.value, bars[i].timestamp).value))
  }

  /** A call after its bars have been ordered and its benchmark aligned. */
  datatype Job = Job(symbol: string, bars: seq<Bar>, market: Option<seq<real>>, since: Option<int>) {
    predicate Aligned() {
      market.Some? ==> |market.value| == |bars|
    }

    predicate Skips(i: nat)
      requires i < |bars|
    {
      since.Some? && bars[i].timestamp <= since.value
    }
  }

  function Prepare(c: Call): (j: Job)
    ensures j.Aligned()
  {
    var ordered := ByTime(c.bars);
    Job(c.symbol, ordered, AlignMarket(ordered, c.market), c.since)
  }

  // ---- windows and values ----

  /** A slice whose bounds may cross, which is then empty. */
  function Slice<T>(s: seq<T>, lo: nat, hi: nat): seq<T>
    requires hi <= |s|
  {
    if lo <= hi then s[lo..hi] else []
  }

  function WindowOf(bars: seq<Bar>, market: Option<seq<real>>): Window {
    Window(seq(|bars|, i requires 0 <= i < |bars| => bars[i].open),
           seq(|bars|, i requires 0 <= i < |bars| => bars[i].high),
           seq(|bars|, i requires 0 <= i < |bars| => bars[i].low),
           seq(|bars|, i requires 0 <= i < |bars| => bars[i].close),
           seq(|bars|, i requires 0 <= i < |bars| => bars[i].volume),
           market)
  }

  /** The last `maxLen` bars up to and including bar i. */
  function WindowAt(job: Job, i: nat, maxLen: int): Window
    requires job.Aligned() && i < |job.bars|
  {
    var lo := if i + 1 - maxLen > 0 then i + 1 - maxLen else 0;
    WindowOf(Slice(job.bars, lo, i + 1),
             if job.market.None? then None else Some(Slice(job.market.value, lo, i + 1)))
  }

  /** A window ends at its own bar and holds, column by column, that bar and the ones just before it. */
  lemma WindowContents(job: Job, i: nat, maxLen: int, k: nat)
    requires job.Aligned() && i < |job.bars| && 0 < maxLen
    requires k < (if i + 1 < maxLen then i + 1 else maxLen)
    ensures var w, b, n := WindowAt(job, i, maxLen), job.bars[i - k], (if i + 1 < maxLen then i + 1 else maxLen);
            && |w.open| == |w.high| == |w.low| == |w.close| == |w.volume| == n
            && w.open[n - 1 - k] == b.open && w.high[n - 1 - k] == b.high && w.low[n - 1 - k] == b.low
            && w.close[n - 1 - k] == b.close && w.volume[n - 1 - k] == b.volume
            && (w.market.Some? <==> job.market.Some?)
            && (w.market.Some? ==> |w.market.value| == n && w.market.value[n - 1 - k] == job.market.value[i - k])
  {
  }

  /** Too little history and a raised error both give no value. */
  function Evaluate(f: Feature, w: Window): Option<real> {
    if |w.close| < f.minPeriods then None
    else
      match f.fn(w)
      case Computed(v) => v
      case Raised => None
  }

  function KeyOf(job: Job, f: Feature, i: nat): Key
    requires i < |job.bars|
  {
    Key(job.symbol, f.name, f.version, job.bars[i].timestamp)
  }

  function ValueAt(p: Setup, job: Job, i: nat, j: nat): Option<real>
    requires job.Aligned() && i < |job.bars| && j < |p.features|
  {
    Evaluate(p.features[j], WindowAt(job, i, MaxLen(p.features)))
  }

  // ---- plain recomputation ----

  /** The rows of bar i for the first n features. */
  function PlainBar(p: Setup, job: Job, i: nat, n: nat): seq<Row>
    requires job.Aligned() && i < |job.bars| && n <= |p.features|
  {
    seq(n, j requires 0 <= j < n => Row(KeyOf(job, p.features[j], i), ValueAt(p, job, i, j)))
  }

  /** The rows of the first n bars. */
  function PlainRows(p: Setup, job: Job, n: nat): seq<Row>
    requires job.Aligned() && n <= |job.bars|
  {
    if n == 0 then []
    else PlainRows(p, job, n - 1) + if job.Skips(n - 1) then [] else PlainBar(p, job, n - 1, |p.features|)
  }

  function Plain(p: Setup, job: Job): seq<Row>
    requires job.Aligned()
  {
    PlainRows(p, job, |job.bars|)
  }

  // ---- computation through the cache ----

  datatype Memo = Memo(cache: Cache, rows: seq<Row>)

  /** One feature on one window: a cached value is returned as it is, a new one is remembered. */
  function Looked(p: Setup, m: Memo, f: Feature, key: Key, w: Window): Memo {
    if p.useCache && key in m.cache then Memo(m.cache, m.rows + [Row(key, m.cache[key])])
    else
      var value := Evaluate(f, w);
      Memo(if p.useCache then m.cache[key := value] else m.cache, m.rows + [Row(key, value)])
  }

  function CachedBar(p: Setup, m: Memo, job: Job, i: nat, n: nat): Memo
    requires job.Aligned() && i < |job.bars| && n <= |p.features|
  {
    if n == 0 then m
    else
      var f := p.features[n - 1];
      Looked(p, CachedBar(p, m, job, i, n - 1), f, KeyOf(job, f, i), WindowAt(job, i, MaxLen(p.features)))
  }

  function CachedRows(p: Setup, m: Memo, job: Job, n: nat): Memo
    requires job.Aligned() && n <= |job.bars|
  {
    if n == 0 then m
    else
      var before := CachedRows(p, m, job, n - 1);
      if job.Skips(n - 1) then before else CachedBar(p, before, job, n - 1, |p.features|)
  }

  /** What a call answers, and the cache it leaves behind. */
  function Answer(p: Setup, cache: Cache, job: Job): Memo
    requires job.Aligned()
  {
    CachedRows(p, Memo(cache, []), job, |job.bars|)
  }

  /** The cache after a sequence of calls on a fresh pipeline. */
  function CacheAfter(p: Setup, calls: seq<Call>): Cache
    decreases |calls|
  {
    if |calls| == 0 then map[]
    else Answer(p, CacheAfter(p, calls[..|calls| - 1]), Prepare(calls[|calls| - 1])).cache
  }

  /** Several symbols through one pipeline, in order. */
  function BatchRows(p: Setup, cache: Cache, calls: seq<Call>): Memo
    decreases |calls|
  {
    if |calls| == 0 then Memo(cache, [])
    else
      var before := BatchRows(p, cache, calls[..|calls| - 1]);
      var last := Answer(p, before.cache, Prepare(calls[|calls| - 1]));
      Memo(last.cache, before.rows + last.rows)
  }

  // ---- what alignment, windows and rows hold ----

  /** Entry k of the benchmark is the last one at a timestamp. */
  ghost predicate LastAt(market: seq<Bar>, timestamp: int, k: int) {
    && 0 <= k < |market| && market[k].timestamp == timestamp
    && forall l :: k < l < |market| ==> market[l].timestamp != timestamp
  }

  lemma {:induction false} CloseAtIs(market: seq<Bar>, timestamp: int)
    ensures CloseAt(market, timestamp).Some? <==> exists k :: LastAt(market, timestamp, k)
    ensures CloseAt(market, timestamp).None? <==> forall b :: b in market ==> b.timestamp != timestamp
    ensures forall k :: LastAt(market, timestamp, k) ==> CloseAt(market, timestamp) == Some(market[k].close)
  {
    if |market| > 0 {
      var front, last := market[..|market| - 1], market[|market| - 1];
      assert market == front + [last];
      if last.timestamp == timestamp {
        assert LastAt(market, timestamp, |front|);
      } else {
        CloseAtIs(front, timestamp);
        forall k ensures LastAt(market, timestamp, k) <==> LastAt(front, timestamp, k) {}
      }
    }
  }

  lemma CoversIff(market: seq<Bar>, bars: seq<Bar>)
    ensures Covers(market, bars) <==> forall b :: b in bars ==> exists m :: m in market && m.timestamp == b.timestamp
  {
    hide CloseAt;
    forall b | b in bars
      ensures CloseAt(market, b.timestamp).Some? <==> exists m :: m in market && m.timestamp == b.timestamp
    {
      CloseAtIs(market, b.timestamp);
    }
  }

  /** A benchmark is aligned exactly when it has an entry at every bar's timestamp, and then each bar gets the
      close of the last such entry. */
  lemma AlignedCloses(bars: seq<Bar>, market: seq<Bar>, i: nat)
    ensures AlignMarket(bars, None) == None
    ensures var r := AlignMarket(bars, Some(market));
            && (r.Some? <==> forall b :: b in bars ==> exists m :: m in market && m.timestamp == b.timestamp)
            && (r.Some? ==>
                  && |r.value| == |bars|
                  && (i < |bars| ==>
                        exists k :: LastAt(market, bars[i].timestamp, k) && r.value[i] == market[k].close))
  {
    hide CloseAt;
    CoversIff(market, bars);
    if i < |bars| { CloseAtIs(market, bars[i].timestamp); }
  }

  /** A feature's value, exactly: enough history, and the feature computes it. */
  lemma EvaluateIff(f: Feature, w: Window, x: real)
    ensures Evaluate(f, w) == Some(x) <==> f.minPeriods <= |w.close| && f.fn(w) == Computed(Some(x))
  {
  }

  /** A window holds as many bars as there are, up to one more than the longest look-back. */
  lemma WindowLength(p: Setup, job: Job, i: nat, longest: int)
    requires job.Aligned() && i < |job.bars| && longest >= 0
    requires (exists f :: f in p.features && f.minPeriods == longest) || (p.features == [] && longest == 1)
    requires forall f :: f in p.features ==> f.minPeriods <= longest
    ensures |WindowAt(job, i, MaxLen(p.features)).close| == if i < longest then i + 1 else longest + 1
  {
    WindowContents(job, i, longest + 1, 0);
  }

  /** A full run has the features' rows bar by bar, in the order of the bars and of the features. */
  lemma {:induction false} FullRows(p: Setup, job: Job, n: nat, i: nat, j: nat, at: nat)
    requires job.Aligned() && job.since.None? && i < n <= |job.bars| && j < |p.features|
    requires at == i * |p.features| + j
    ensures |PlainRows(p, job, n)| == n * |p.features| && at < n * |p.features|
    ensures var f, w := p.features[j], WindowAt(job, i, MaxLen(p.features));
            var value := if |w.close| < f.minPeriods || f.fn(w).Raised? then None else f.fn(w).value;
            PlainRows(p, job, n)[at] == Row(Key(job.symbol, f.name, f.version, job.bars[i].timestamp), value)
  {
    hide WindowAt, MaxLen, KeyOf;
    var m := |p.features|;
    KeyIs(job, p.features[j], i);
    RowCount(p, job, n - 1);
    Multiples(n, i, m);
    if i < n - 1 { FullRows(p, job, n - 1, i, j, at); }
  }

  lemma KeyIs(job: Job, f: Feature, i: nat)
    requires i < |job.bars|
    ensures KeyOf(job, f, i) == Key(job.symbol, f.name, f.version, job.bars[i].timestamp)
  {
  }

  lemma {:induction false} RowCount(p: Setup, job: Job, n: nat)
    requires job.Aligned() && job.since.None? && n <= |job.bars|
    ensures |PlainRows(p, job, n)| == n * |p.features|
  {
    hide ValueAt;
    if n > 0 {
      RowCount(p, job, n - 1);
      Multiples(n, n - 1, |p.features|);
    }
  }

  lemma Multiples(n: nat, i: nat, m: nat)
    requires i < n
    ensures (n - 1) * m + m == n * m
    ensures i < n - 1 ==> i * m + m <= (n - 1) * m
  {
    if i < n - 1 { assert (n - 1 - i - 1) * m >= 0; }
  }

  // ---- without a cache ----

  lemma {:induction false} UncachedBar(p: Setup, m: Memo, job: Job, i: nat, n: nat)
    requires !p.useCache && job.Aligned() && i < |job.bars| && n <= |p.features|
    ensures CachedBar(p, m, job, i, n) == Memo(m.cache, m.rows + PlainBar(p, job, i, n))
  {
    hide WindowAt, Evaluate, MaxLen;
    if n > 0 {
      UncachedBar(p, m, job, i, n - 1);
      var last := Row(KeyOf(job, p.features[n - 1], i), ValueAt(p, job, i, n - 1));
      assert PlainBar(p, job, i, n) == PlainBar(p, job, i, n - 1) + [last];
    } else {
      assert PlainBar(p, job, i, 0) == [];
    }
  }

  lemma {:induction false} UncachedRows(p: Setup, m: Memo, job: Job, n: nat)
    requires !p.useCache && job.Aligned() && n <= |job.bars|
    ensures CachedRows(p, m, job, n) == Memo(m.cache, m.rows + PlainRows(p, job, n))
  {
    hide CachedBar, PlainBar;
    if n > 0 {
      UncachedRows(p, m, job, n - 1);
      UncachedBar(p, CachedRows(p, m, job, n - 1), job, n - 1, |p.features|);
    }
  }

  /** A pipeline told to use no cache answers with the plain rows, whatever is in the cache, and leaves that alone. */
  lemma UncachedIsPlain(p: Setup, cache: Cache, job: Job)
    requires !p.useCache && job.Aligned()
    ensures Answer(p, cache, job) == Memo(cache, Plain(p, job))
  {
    UncachedRows(p, Memo(cache, []), job, |job.bars|);
  }

  // ---- the pipeline object ----

  class FeaturePipeline {
    const setup: Setup
    const maxLen: int
    var cache: Cache

    predicate Valid() {
      maxLen == MaxLen(setup.features)
    }

    constructor (features: seq<Feature>, useCache: bool)
      ensures Valid() && setup == Setup(features, useCache) && cache == map[]
    {
      setup, maxLen, cache := Setup(features, useCache), MaxLen(features), map[];
    }

    method One(f: Feature, key: Key, w: Window) returns (row: Row)
      modifies this
      ensures forall rows :: Memo(cache, rows + [row]) == Looked(setup, Memo(old(cache), rows), f, key, w)
    {
      if setup.useCache && key in cache {
        return Row(key, cache[key]);
      }
      var value: Option<real> := None;
      if |w.close| >= f.minPeriods {
        var outcome := f.fn(w);
        match outcome
        case Computed(v) => value := v;
        case Raised => value := None;
      }
      if setup.useCache {
        cache := cache[key := value];
      }
      row := Row(key, value);
    }

    method ComputeSymbol(call: Call) returns (rows: seq<Row>)
      requires Valid()
      modifies this
      ensures Memo(cache, rows) == Answer(setup, old(cache), Prepare(call))
    {
      hide Prepare, WindowAt, Looked, MaxLen;
      var job := Prepare(call);
      rows := [];
      for i := 0 to |job.bars|
        invariant Memo(cache, rows) == CachedRows(setup, Memo(old(cache), []), job, i)
      {
        if job.since.Some? && job.bars[i].timestamp <= job.since.value {
          continue;
        }
        ghost var before := Memo(cache, rows);
        var window := WindowAt(job, i, maxLen);
        for j := 0 to |setup.features|
          invariant Memo(cache, rows) == CachedBar(setup, before, job, i, j)
        {
          ghost var was := rows;
          var f := setup.features[j];
          var row := One(f, KeyOf(job, f, i), window);
          rows := rows + [row];
        }
      }
    }

    /** Symbols are taken in the order of the dictionary; the benchmark is shared. */
    method ComputeBatch(barsBySymbol: Dict<seq<Bar>>, market: Option<seq<Bar>>, since: Option<int>)
      returns (out: seq<Row>)
      requires Valid()
      modifies this
      ensures Memo(cache, out) == BatchRows(setup, old(cache), BatchCalls(barsBySymbol, market, since))
    {
      hide Answer, Prepare;
      ghost var calls := BatchCalls(barsBySymbol, market, since);
      out := [];
      for i := 0 to |barsBySymbol|
        invariant Memo(cache, out) == BatchRows(setup, old(cache), calls[..i])
      {
        assert calls[..i + 1][..i] == calls[..i];
        var rows := ComputeSymbol(Call(barsBySymbol[i].0, barsBySymbol[i].1, market, since));
        out := out + rows;
      }
      assert calls[..|calls|] == calls;
    }
  }

  function BatchCalls(barsBySymbol: Dict<seq<Bar>>, market: Option<seq<Bar>>, since: Option<int>): seq<Call> {
    seq(|barsBySymbol|, i requires 0 <= i < |barsBySymbol| =>
      Call(barsBySymbol[i].0, barsBySymbol[i].1, market, since))
  }
}
