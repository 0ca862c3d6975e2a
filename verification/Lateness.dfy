/** When fills are strictly later in time than their orders, for every strategy: an exact condition on the
    feed. An order can be filled at or before the time of the bar it was created on just when the feed lets
    another symbol, already quoted, trade no later than that bar but after it. */
module Lateness {
  import opened Dicts
  import opened Reals
  import opened Sums
  import opened Portfolio
  import opened Backtest
  import opened Conservation
  import opened Timing
  import opened Marks
  import opened CrossSymbol

  // ---- orders are for quoted symbols ----

  /** The order's symbol had a positive close when the order was created. */
  predicate PricedOrder(o: Order, bars: seq<Bar>) {
    o.bar < |bars| && LastClose(bars[..o.bar + 1], o.symbol) > 0.0
  }

  ghost predicate RecordsPriced(s: State, bars: seq<Bar>) {
    forall id :: id in s.oms ==> PricedOrder(s.oms[id].order, bars)
  }

  /** While a bar is processed; signals and orders come only after the market event. */
  ghost predicate PricedDuring(s: State, bars: seq<Bar>) {
    && RecordsPriced(s, bars)
    && (forall e :: e in s.queue && e.OrderEvent? ==> PricedOrder(e.order, bars))
    && (Markets(s.queue) > 0 ==> forall e :: e in s.queue ==> !e.SignalEvent? && !e.OrderEvent?)
  }

  lemma FillPriced(setup: Setup, s: State, bars: seq<Bar>)
    requires PricedDuring(s, bars) && Sound(s) && |s.queue| > 0 && s.queue[0].FillEvent?
    ensures PricedDuring(Handled(setup, s), bars)
  {
    hide ApplyFill, PricedOrder, Times;
    assert forall e :: e in s.queue[1..] ==> e in s.queue;
  }

  lemma OrderPriced(setup: Setup, s: State, bars: seq<Bar>)
    requires PricedDuring(s, bars) && Sound(s) && |s.queue| > 0 && s.queue[0].OrderEvent?
    ensures PricedDuring(Handled(setup, s), bars)
  {
    hide RiskCheck, PricedOrder;
    assert s.queue[0] in s.queue;
    assert forall e :: e in s.queue[1..] ==> e in s.queue;
  }

  lemma MarketPriced(setup: Setup, s: State, bars: seq<Bar>, bar: Bar)
    requires PricedDuring(s, bars) && During(setup, s, bars) && Sound(s)
    requires |s.queue| > 0 && s.queue[0] == MarketEvent(bar)
    ensures PricedDuring(Handled(setup, s), bars)
  {
    hide InsertSignals, Remembered, MarkToMarket, PricedOrder, HistoryIs, OnFeed, Before;
    PoppedDuring(setup, s, bars);
    InsertSignalsMembers(s.queue[1..], SignalsOf(setup, Popped(s), bar));
    InsertSignalsMeasure(s.queue[1..], SignalsOf(setup, Popped(s), bar));
  }

  lemma SignalPriced(setup: Setup, s: State, bars: seq<Bar>, sig: Signal)
    requires PricedDuring(s, bars) && MarkedDuring(s, bars) && Sound(s)
    requires |s.queue| > 0 && s.queue[0] == SignalEvent(sig)
    ensures PricedDuring(Handled(setup, s), bars)
  {
    hide Insert, SizeOrder, Touched, PricedOrder, LastClose, Lookup;
    assert s.queue[0] in s.queue;
    HandledQueue(setup, s);
    var o := OrderOf(setup, Popped(s), sig);
    if o.Some? {
      InsertMembers(s.queue[1..], OrderEvent(o.value));
      InsertMeasure(s.queue[1..], OrderEvent(o.value));
      SizedPriced(setup, s, bars, sig, o.value);
    }
  }

  lemma SizedPriced(setup: Setup, s: State, bars: seq<Bar>, sig: Signal, o: Order)
    requires |bars| == s.barCount + 1 && Quoted(s.acct, bars)
    requires SizeOrder(setup.config, Touched(s.acct, sig.symbol), sig, s.nextOrder, s.barCount) == Some(o)
    ensures PricedOrder(o, bars)
  {
    hide TargetQuantity, LastClose;
    TouchMarks(s.acct, sig.symbol);
    assert bars[..|bars|] == bars;
  }

  lemma HandledPriced(setup: Setup, s: State, bars: seq<Bar>)
    requires PricedDuring(s, bars) && MarkedDuring(s, bars) && During(setup, s, bars) && Sound(s) && |s.queue| > 0
    ensures PricedDuring(Handled(setup, s), bars)
  {
    hide PricedDuring, MarkedDuring, During, Handled;
    match s.queue[0]
    case FillEvent(_) => FillPriced(setup, s, bars);
    case OrderEvent(_) => OrderPriced(setup, s, bars);
    case SignalEvent(sig) => SignalPriced(setup, s, bars, sig);
    case MarketEvent(bar) => MarketPriced(setup, s, bars, bar);
  }

  lemma {:induction false} DrainedPriced(setup: Setup, s: State, bars: seq<Bar>)
    requires PricedDuring(s, bars) && MarkedDuring(s, bars) && During(setup, s, bars) && Sound(s)
    ensures PricedDuring(Drained(setup, s), bars)
    decreases Markets(s.queue), Work(s.queue)
  {
    hide PricedDuring, MarkedDuring, During, Handled;
    if |s.queue| > 0 {
      HandledPriced(setup, s, bars);
      HandledMarked(setup, s, bars);
      HandledDuring(setup, s, bars);
      HandledProgress(setup, s);
      HandledSound(setup, s);
      DrainedPriced(setup, Handled(setup, s), bars);
    }
  }

  lemma OpenedPriced(setup: Setup, s: State, bar: Bar, bars: seq<Bar>)
    requires Ready(setup, s) && Between(setup, s, bars) && RecordsPriced(s, bars)
    ensures PricedDuring(Opened(setup, s, bar), bars + [bar])
  {
    hide SweepN, Insert, HistoryIs, LastClose;
    OpenedKeepsPast(setup, s, bar);
    SweepingDuring(setup, s, bar, bars, |s.pending|);
    InsertMembers(SweepN(setup, s, bar, |s.pending|).queue, MarketEvent(bar));
    forall id | id in s.oms ensures PricedOrder(s.oms[id].order, bars + [bar]) {
      var n := s.oms[id].order.bar + 1;
      assert PricedOrder(s.oms[id].order, bars);
      assert (bars + [bar])[..n] == bars[..n];
    }
  }

  lemma BarPriced(setup: Setup, s: State, bar: Bar, bars: seq<Bar>)
    requires Ready(setup, s) && Between(setup, s, bars) && MarkedBetween(s, bars) && RecordsPriced(s, bars)
    ensures RecordsPriced(ProcessBar(setup, s, bar), bars + [bar])
  {
    hide Opened, Drained, HistoryIs, OnFeed, Quoted, TotalValue, RaisedPeak, PricedOrder;
    OpenedDuring(setup, s, bar, bars);
    OpenedSound(setup, s, bar);
    OpenedMarked(setup, s, bar, bars);
    OpenedPriced(setup, s, bar, bars);
    DrainedPriced(setup, Opened(setup, s, bar), bars + [bar]);
  }

  /** Over every run, orders on record were for symbols with a positive close when they were created. */
  lemma {:induction false} RunPriced(setup: Setup, s: State, bars: seq<Bar>, feed: seq<Bar>)
    requires Ready(setup, s) && Between(setup, s, bars) && MarkedBetween(s, bars) && RecordsPriced(s, bars)
    ensures RecordsPriced(Run(setup, s, feed), bars + Processed(setup, s, feed))
    decreases |feed|
  {
    hide Between, ProcessBar, MarkedBetween, RecordsPriced;
    if |feed| == 0 || (!TooEarly(setup, feed[0]) && (TooLate(setup, feed[0]) || s.halted)) {
      assert bars + [] == bars;
    } else if TooEarly(setup, feed[0]) {
      RunPriced(setup, s, bars, feed[1..]);
    } else {
      var r := ProcessBar(setup, s, feed[0]);
      BarBetween(setup, s, feed[0], bars);
      BarMarked(setup, s, feed[0], bars);
      BarPriced(setup, s, feed[0], bars);
      RunPriced(setup, r, bars + [feed[0]], feed[1..]);
      assert bars + ([feed[0]] + Processed(setup, r, feed[1..]))
          == (bars + [feed[0]]) + Processed(setup, r, feed[1..]);
    }
  }

  // ---- the condition on the feed suffices ----

  /** Bar j trades another symbol than bar i, after it in the feed but no later in time, and that symbol had
      a positive close by bar i. */
  predicate Clash(feed: seq<Bar>, i: int, j: int) {
    && 0 <= i < j < |feed| && feed[j].symbol != feed[i].symbol && feed[j].timestamp <= feed[i].timestamp
    && LastClose(feed[..i + 1], feed[j].symbol) > 0.0
  }

  predicate Clashes(feed: seq<Bar>) {
    exists i, j :: 0 <= i < j < |feed| && Clash(feed, i, j)
  }

  predicate Unbounded(setup: Setup) {
    setup.config.start.None? && setup.config.end.None? && setup.config.maxFillPct > 0.0
  }

  /** Every fill is strictly later in time than the bar its order was created on. */
  ghost predicate LaterInTime(setup: Setup, feed: seq<Bar>)
    requires setup.config.maxFillPct > 0.0
  {
    var s, bars := Run(setup, Initial(setup), feed), Processed(setup, Initial(setup), feed);
    forall f :: f in s.fills ==>
      && f.orderId in s.oms && s.oms[f.orderId].order.bar < |bars|
      && bars[s.oms[f.orderId].order.bar].timestamp < f.timestamp
  }

  lemma {:induction false} ProcessedPrefix(setup: Setup, s: State, feed: seq<Bar>)
    requires Ready(setup, s) && Unbounded(setup)
    ensures Processed(setup, s, feed) <= feed
    decreases |feed|
  {
    hide ProcessBar;
    if |feed| > 0 && !s.halted { ProcessedPrefix(setup, ProcessBar(setup, s, feed[0]), feed[1..]); }
  }

  lemma InitialMarked(setup: Setup)
    ensures MarkedBetween(Initial(setup), []) && RecordsPriced(Initial(setup), [])
  {
  }

  lemma NoClashLater(setup: Setup, feed: seq<Bar>)
    requires Unbounded(setup) && StrictPerSymbol(feed) && !Clashes(feed)
    ensures LaterInTime(setup, feed)
  {
    hide Run, Processed, Clashes, StrictPerSymbol, LastClose, Between, Quoted;
    var s, bars := Run(setup, Initial(setup), feed), Processed(setup, Initial(setup), feed);
    InitialBetween(setup);
    InitialMarked(setup);
    RunPriced(setup, Initial(setup), [], feed);
    assert [] + bars == bars;
    ProcessedPrefix(setup, Initial(setup), feed);
    forall f | f in s.fills
      ensures f.orderId in s.oms && s.oms[f.orderId].order.bar < |bars|
              && bars[s.oms[f.orderId].order.bar].timestamp < f.timestamp
    {
      OwnSymbolLater(setup, feed, f);
      NoSameBarExecution(setup, feed, f);
      var i, j := s.oms[f.orderId].order.bar, f.bar;
      assert PricedOrder(s.oms[f.orderId].order, bars);
      assert bars[..i + 1] == feed[..i + 1] && bars[i] == feed[i] && bars[j] == feed[j];
      NotClashing(feed, i, j);
    }
  }

  lemma NotClashing(feed: seq<Bar>, i: nat, j: nat)
    requires !Clashes(feed) && i < j < |feed|
    ensures !Clash(feed, i, j)
  {
  }

  // ---- and it is needed ----

  /** Once, on one bar, go long one share's worth of a symbol quoted at `price`. */
  function SignalOnce(trigger: Bar, symbol: string, price: real): Setup {
    Setup(Config(None, None, price, 1.0, 1.0, 1.0, 1.0, 1),
          (h: History, acct: Account, now: int, bar: Bar) =>
            if bar == trigger then [Signal(bar.timestamp, symbol, Long, 1.0, 0)] else [],
          (o: Order, bar: Bar, base: real, quantity: real) => (base, 0.0),
          (t: int) => 0)
  }

  predicate Flat(acct: Account) {
    forall k :: 0 <= k < |acct.positions| ==> acct.positions[k].1.quantity == 0.0
  }

  lemma FlatWorth(acct: Account)
    requires Flat(acct)
    ensures TotalValue(acct) == acct.cash && GrossExposure(acct) == 0.0
    ensures forall symbol :: Lookup(acct, symbol).quantity == 0.0
  {
    hide Times;
    forall e | e in acct.positions ensures MarketValue(e.1) == 0.0 { TimesZero(e.1.lastPrice); }
    SumZero(acct.positions, ValueOf());
    SumZero(acct.positions, ExposureOf());
  }

  lemma FlatStays(acct: Account, symbol: string, price: real)
    requires Flat(acct)
    ensures Flat(MarkToMarket(acct, symbol, price)) && Flat(Touched(acct, symbol))
  {
    FlatWorth(acct);
    hide TotalValue, GrossExposure;
  }

  /** Nothing held, ordered or halted yet. */
  ghost predicate Idle(setup: Setup, s: State, bars: seq<Bar>) {
    && Boundary(setup, s) && Between(setup, s, bars) && MarkedBetween(s, bars)
    && s.pending == [] && !s.halted && s.oms == map[]
    && s.acct.cash == s.acct.peak == setup.config.initialCapital && Flat(s.acct)
  }

  lemma InitialIdle(setup: Setup)
    requires setup.config.maxFillPct > 0.0
    ensures Idle(setup, Initial(setup), [])
  {
    hide Boundary, Between, MarkedBetween;
    InitialBoundary(setup);
    InitialBetween(setup);
    InitialMarked(setup);
  }

  lemma RaisedIdle(acct: Account)
    requires Flat(acct) && acct.peak == acct.cash
    ensures RaisedPeak(acct) == acct
  {
    FlatWorth(acct);
  }

  lemma IdleBar(setup: Setup, s: State, bars: seq<Bar>, bar: Bar)
    requires Idle(setup, s, bars) && SignalsOf(setup, s, bar) == []
    ensures Idle(setup, ProcessBar(setup, s, bar), bars + [bar])
  {
    hide Invariant, Between, MarkedBetween, ProcessBar, Remembered, Flat, RaisedPeak, TotalValue, Put, Lookup;
    BoundaryReady(setup, s);
    QuietBar(setup, s, bar);
    BarKeeps(setup, s, bar);
    BarBetween(setup, s, bar, bars);
    BarMarked(setup, s, bar, bars);
    FlatStays(s.acct, bar.symbol, bar.close);
    RaisedIdle(MarkToMarket(s.acct, bar.symbol, bar.close));
  }

  /** The one order: a market order for one share. */
  function OnceOrder(s: State, bar: Bar, symbol: string): Order {
    Order(bar.timestamp, symbol, MarketOrder, Buy, 1.0, None, None, s.nextOrder, s.barCount)
  }

  lemma OnceSized(trigger: Bar, symbol: string, price: real, s: State, bars: seq<Bar>)
    requires price > 0.0 && price == LastClose(bars + [trigger], symbol)
    requires Idle(SignalOnce(trigger, symbol, price), s, bars)
    ensures var setup, sig := SignalOnce(trigger, symbol, price), Signal(trigger.timestamp, symbol, Long, 1.0, 0);
            var m, o := Marked(setup, s, trigger), OnceOrder(s, trigger, symbol);
            && OrderOf(setup, m, sig) == Some(o)
            && RiskCheck(setup.config, o, Touched(m.acct, symbol), s.halted).passed
            && !RiskCheck(setup.config, o, Touched(m.acct, symbol), s.halted).halted
  {
    hide LastClose, Remembered, Flat, TotalValue, GrossExposure, Lookup, Put, Boundary, Between, RaisedPeak, BelowPeak;
    var setup, sig := SignalOnce(trigger, symbol, price), Signal(trigger.timestamp, symbol, Long, 1.0, 0);
    var acct := MarkToMarket(s.acct, trigger.symbol, trigger.close);
    var touched := Touched(acct, symbol);
    MarketMarks(s.acct, bars, trigger);
    TouchMarks(acct, symbol);
    FlatStays(s.acct, trigger.symbol, trigger.close);
    FlatStays(acct, symbol, 0.0);
    FlatWorth(touched);
    RaisedIdle(touched);
    TouchedTwice(touched, acct, symbol);
    OnePriced(price);
    TimesOne(price);
  }

  lemma TouchedTwice(touched: Account, acct: Account, symbol: string)
    requires touched == Touched(acct, symbol)
    ensures Touched(touched, symbol) == touched
  {
    var pos := Lookup(acct, symbol);
    GetPut(acct.positions, symbol, pos, symbol, EMPTY);
    PutAgain(acct.positions, symbol, pos);
  }

  lemma {:induction false} PutAgain(d: Dict<Position>, k: string, p: Position)
    ensures Put(Put(d, k, p), k, p) == Put(d, k, p)
  {
    IndexOfPut(d, k, p);
  }

  lemma {:induction false} IndexOfPut(d: Dict<Position>, k: string, p: Position)
    ensures var r := Put(d, k, p); IndexOf(r, k) < |r| && r[IndexOf(r, k)] == (k, p)
  {
    if |d| > 0 && d[0].0 != k {
      IndexOfPut(d[1..], k, p);
      assert Put(d, k, p)[1..] == Put(d[1..], k, p);
    }
  }

  lemma OnePriced(price: real)
    requires price > 0.0
    ensures price * 1.0 * 1.0 / price == 1.0 && Trunc(1.0) == 1 && price / price == 1.0
    ensures (price - price) / price == 0.0 && price / (if price > 1.0 then price else 1.0) <= 1.0
  {
  }

  /** The order waits for a bar of its symbol. */
  ghost predicate Waits(setup: Setup, s: State, bars: seq<Bar>, o: Order) {
    && Boundary(setup, s) && Between(setup, s, bars)
    && s.pending == [o] && !s.halted && o.id in s.oms && s.oms[o.id].order == o
  }

  lemma OnceOrders(trigger: Bar, symbol: string, price: real, s: State, bars: seq<Bar>)
    requires price > 0.0 && price == LastClose(bars + [trigger], symbol)
    requires Idle(SignalOnce(trigger, symbol, price), s, bars)
    ensures var setup := SignalOnce(trigger, symbol, price);
            Waits(setup, ProcessBar(setup, s, trigger), bars + [trigger], OnceOrder(s, trigger, symbol))
  {
    hide Invariant, Between, MarkedBetween, ProcessBar, Remembered, RiskCheck, OrderOf, Marked, Touched, LastClose;
    var setup, sig := SignalOnce(trigger, symbol, price), Signal(trigger.timestamp, symbol, Long, 1.0, 0);
    BoundaryReady(setup, s);
    OnceSized(trigger, symbol, price, s, bars);
    OrderBar(setup, s, trigger, sig, OnceOrder(s, trigger, symbol));
    BarKeeps(setup, s, trigger);
    BarBetween(setup, s, trigger, bars);
  }

  /** A pending order survives bars of other symbols. */
  lemma WaitBar(setup: Setup, s: State, bars: seq<Bar>, bar: Bar, o: Order)
    requires Waits(setup, s, bars, o) && o.symbol != bar.symbol && SignalsOf(setup, s, bar) == []
    ensures Waits(setup, ProcessBar(setup, s, bar), bars + [bar], o)
  {
    hide Invariant, Between, Remembered, MarkToMarket, TotalValue, RaisedPeak;
    BoundaryReady(setup, s);
    BarKeeps(setup, s, bar);
    BarBetween(setup, s, bar, bars);
    OpenedSound(setup, s, bar);
    var a := Opened(setup, s, bar);
    assert SweepN(setup, s, bar, 0) == Sweep([], [], s.nextFill);
    assert SweepN(setup, s, bar, 1) == SweepOrder(setup, Sweep([], [], s.nextFill), o, bar, s.barCount);
    assert a.queue == [MarketEvent(bar)] && a.pending == [o];
    HandledSound(setup, a);
    HandledProgress(setup, a);
    assert InsertSignals([], []) == [];
    var b := Handled(setup, a);
    assert b.queue == [] && b.pending == [o] && b.oms == s.oms && b.halted == s.halted;
    assert Drained(setup, b) == b;
    assert Drained(setup, a) == b;
  }

  /** The fill that comes too early for its order. */
  ghost predicate FillsEarly(setup: Setup, s: State, feed: seq<Bar>, rest: seq<Bar>, i: nat, f: Fill)
    requires Ready(setup, s) && i < |feed|
  {
    var r := Run(setup, s, rest);
    f in r.fills && f.orderId in r.oms && r.oms[f.orderId].order.bar == i && f.timestamp <= feed[i].timestamp
  }

  lemma RunOne(setup: Setup, s: State, feed: seq<Bar>, n: nat)
    requires Unbounded(setup) && Ready(setup, s) && !s.halted && n < |feed|
    ensures Run(setup, s, feed[n..]) == Run(setup, ProcessBar(setup, s, feed[n]), feed[n + 1..])
  {
    hide ProcessBar;
    assert feed[n..][0] == feed[n] && feed[n..][1..] == feed[n + 1..];
  }

  /** From a waiting order to its fill at the first bar of its symbol. */
  lemma {:induction false} WaitPhase(setup: Setup, s: State, feed: seq<Bar>, n: nat, i: nat, j: nat, o: Order)
    returns (f: Fill)
    requires i < n <= j < |feed| && StrictPerSymbol(feed) && feed[j].timestamp <= feed[i].timestamp
    requires Unbounded(setup) && Waits(setup, s, feed[..n], o) && o.bar == i && o.symbol == feed[j].symbol
    requires o.orderType == MarketOrder
    requires forall h, acct, now, bar :: bar != feed[i] ==> setup.strategy(h, acct, now, bar) == []
    ensures Ready(setup, s) && FillsEarly(setup, s, feed, feed[n..], i, f)
    decreases j - n
  {
    hide Boundary, Between, ProcessBar, StrictPerSymbol, Run;
    BoundaryReady(setup, s);
    var bar, t := feed[n], ProcessBar(setup, s, feed[n]);
    assert feed[..n] + [bar] == feed[..n + 1];
    RunOne(setup, s, feed, n);
    NotTheTrigger(feed, n, i);
    if bar.symbol != o.symbol {
      WaitBar(setup, s, feed[..n], bar, o);
      f := WaitPhase(setup, t, feed, n + 1, i, j, o);
    } else {
      f := FillPhase(setup, s, feed, n, o);
      SameSymbolLater(feed, n, j);
    }
  }

  /** At a bar of its symbol the order is filled, and the fill and the order stay on record. */
  lemma FillPhase(setup: Setup, s: State, feed: seq<Bar>, n: nat, o: Order) returns (f: Fill)
    requires n < |feed| && Unbounded(setup) && Waits(setup, s, feed[..n], o) && o.symbol == feed[n].symbol
    requires o.orderType == MarketOrder
    requires forall h, acct, now :: setup.strategy(h, acct, now, feed[n]) == []
    ensures Ready(setup, s)
    ensures var r := Run(setup, ProcessBar(setup, s, feed[n]), feed[n + 1..]);
            f in r.fills && f.orderId == o.id && o.id in r.oms && r.oms[o.id].order == o
            && f.timestamp == feed[n].timestamp
  {
    hide Boundary, Between, ProcessBar, Run;
    BoundaryReady(setup, s);
    var bar, t := feed[n], ProcessBar(setup, s, feed[n]);
    assert feed[..n] + [bar] == feed[..n + 1];
    BarBetween(setup, s, bar, feed[..n]);
    f := TryFill(setup, o, bar, s.nextFill, s.barCount).value;
    FillBar(setup, s, bar, o, f);
    BarKeeps(setup, s, bar);
    RunRecords(setup, t, feed[n + 1..]);
    RunBetween(setup, t, feed[..n + 1], feed[n + 1..]);
    assert f in t.fills && t.fills <= Run(setup, t, feed[n + 1..]).fills;
  }

  lemma SameSymbolLater(feed: seq<Bar>, n: nat, j: nat)
    requires StrictPerSymbol(feed) && n <= j < |feed| && feed[n].symbol == feed[j].symbol
    ensures feed[n].timestamp <= feed[j].timestamp
  {
  }

  lemma NotTheTrigger(feed: seq<Bar>, n: nat, i: nat)
    requires StrictPerSymbol(feed) && n < |feed| && i < |feed| && n != i
    ensures feed[n] != feed[i]
  {
  }

  /** From an idle start to the signal, its order and the fill. */
  lemma {:induction false} IdlePhase(setup: Setup, s: State, feed: seq<Bar>, n: nat, i: nat, j: nat) returns (f: Fill)
    requires n <= i < j < |feed| && StrictPerSymbol(feed) && Clash(feed, i, j)
    requires setup == SignalOnce(feed[i], feed[j].symbol, LastClose(feed[..i + 1], feed[j].symbol))
    requires Idle(setup, s, feed[..n])
    ensures Ready(setup, s) && FillsEarly(setup, s, feed, feed[n..], i, f)
    decreases i - n
  {
    hide Boundary, Between, ProcessBar, MarkedBetween, Flat, LastClose, Run;
    BoundaryReady(setup, s);
    var bar, t := feed[n], ProcessBar(setup, s, feed[n]);
    assert feed[..n] + [bar] == feed[..n + 1];
    RunOne(setup, s, feed, n);
    if n < i {
      NotTheTrigger(feed, n, i);
      IdleBar(setup, s, feed[..n], bar);
      f := IdlePhase(setup, t, feed, n + 1, i, j);
    } else {
      IdleCount(setup, s, feed[..n]);
      OnceOrders(bar, feed[j].symbol, LastClose(feed[..i + 1], feed[j].symbol), s, feed[..n]);
      f := WaitPhase(setup, t, feed, n + 1, i, j, OnceOrder(s, bar, feed[j].symbol));
    }
  }

  lemma IdleCount(setup: Setup, s: State, bars: seq<Bar>)
    requires Idle(setup, s, bars)
    ensures s.barCount == |bars|
  {
  }

  lemma ClashEarly(feed: seq<Bar>, i: nat, j: nat)
    requires StrictPerSymbol(feed) && i < j && Clash(feed, i, j)
    ensures var setup := SignalOnce(feed[i], feed[j].symbol, LastClose(feed[..i + 1], feed[j].symbol));
            Unbounded(setup) && !LaterInTime(setup, feed)
  {
    hide Run, Processed, Idle, LastClose;
    var setup := SignalOnce(feed[i], feed[j].symbol, LastClose(feed[..i + 1], feed[j].symbol));
    InitialIdle(setup);
    assert feed[..0] == [] && feed[0..] == feed;
    var f := IdlePhase(setup, Initial(setup), feed, 0, i, j);
    NoSameBarExecution(setup, feed, f);
    ProcessedPrefix(setup, Initial(setup), feed);
  }

  /** On a feed whose timestamps strictly increase per symbol, every fill of every strategy is strictly later
      in time than the bar its order was created on, exactly when the feed has no clash. */
  lemma LaterIff(feed: seq<Bar>)
    requires StrictPerSymbol(feed)
    ensures (forall setup :: Unbounded(setup) ==> LaterInTime(setup, feed)) <==> !Clashes(feed)
  {
    hide LaterInTime, StrictPerSymbol, Clash;
    if Clashes(feed) {
      var i, j :| 0 <= i < j < |feed| && Clash(feed, i, j);
      ClashEarly(feed, i, j);
    } else {
      forall setup | Unbounded(setup) ensures LaterInTime(setup, feed) { NoClashLater(setup, feed); }
    }
  }
}
