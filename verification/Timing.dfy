/** What a run may know and when: fills come from later bars, fills of a bar precede the strategy's
    view of it, histories are the bars so far, and later bars never change earlier results. */
module Timing {
  import opened Dicts
  import opened Reals
  import opened Sums
  import opened Portfolio
  import opened Backtest
  import opened Conservation

  /** The fill is from the bar it names. */
  ghost predicate OnFeed(f: Fill, bars: seq<Bar>) {
    f.bar < |bars| && bars[f.bar].symbol == f.symbol && bars[f.bar].timestamp == f.timestamp
  }

  /** The bars of one symbol, in order. */
  function BarsOf(bars: seq<Bar>, symbol: string): seq<Bar> {
    if |bars| == 0 then []
    else
      BarsOf(bars[..|bars| - 1], symbol) + if bars[|bars| - 1].symbol == symbol then [bars[|bars| - 1]] else []
  }

  /** Every symbol's history is its last so many bars. */
  ghost predicate HistoryIs(setup: Setup, h: History, bars: seq<Bar>) {
    forall symbol :: Get(h, symbol, []) == LastN(BarsOf(bars, symbol), setup.config.maxHistory)
  }

  /** The queue is in popping order. */
  ghost predicate SortedQueue(q: Queue) {
    forall i, j :: 0 <= i < j < |q| ==> !Before(q[j], q[i])
  }

  /** While a bar is processed; `bars` are the bars so far, the current one last. */
  ghost predicate During(setup: Setup, s: State, bars: seq<Bar>) {
    && |bars| == s.barCount + 1
    && (forall f :: f in s.fills ==> OnFeed(f, bars))
    && (forall e :: e in s.queue && e.FillEvent? ==> e.fill.bar == s.barCount && OnFeed(e.fill, bars))
    && (forall e :: e in s.queue && e.MarketEvent? ==> e.bar == bars[s.barCount])
    && Markets(s.queue) <= 1
    && HistoryIs(setup, s.history, if Markets(s.queue) > 0 then bars[..s.barCount] else bars)
    && SortedQueue(s.queue)
  }

  /** Between bars. */
  ghost predicate Between(setup: Setup, s: State, bars: seq<Bar>) {
    && |bars| == s.barCount
    && (forall f :: f in s.fills ==> OnFeed(f, bars))
    && HistoryIs(setup, s.history, bars)
  }

  // ---- the queue ----

  lemma {:induction false} InsertSorted(q: Queue, e: Event)
    requires SortedQueue(q)
    ensures SortedQueue(Insert(q, e))
  {
    if |q| > 0 && !Before(e, q[0]) {
      InsertSorted(q[1..], e);
      var r := Insert(q[1..], e);
      assert Insert(q, e) == [q[0]] + r;
      InsertMembers(q[1..], e);
      forall j | 0 <= j < |r| ensures !Before(r[j], q[0]) {
        assert r[j] in r;
        if r[j] != e {
          var k :| 0 <= k < |q[1..]| && q[1..][k] == r[j];
          assert !Before(q[k + 1], q[0]);
        }
      }
    } else {
      var r := Insert(q, e);
      assert r == [e] + q;
      forall j | 0 <= j < |q| ensures !Before(q[j], e) {
        if j > 0 { assert !Before(q[j], q[0]); }
      }
    }
  }

  lemma {:induction false} InsertSignalsSorted(q: Queue, signals: seq<Signal>)
    requires SortedQueue(q)
    ensures SortedQueue(InsertSignals(q, signals))
    decreases |signals|
  {
    if |signals| > 0 {
      InsertSignalsSorted(q, signals[..|signals| - 1]);
      InsertSorted(InsertSignals(q, signals[..|signals| - 1]), SignalEvent(signals[|signals| - 1]));
    }
  }

  lemma {:induction false} MarketsMember(q: Queue)
    ensures Markets(q) > 0 <==> exists e :: e in q && e.MarketEvent?
  {
    if |q| > 0 {
      MarketsMember(q[1..]);
      if q[0].MarketEvent? { assert q[0] in q; }
    }
  }

  /** When the market event of a bar is at the head of the queue, no fill is left in it: the strategy
      sees the bar with all of its fills applied. */
  lemma FillsBeforeStrategy(setup: Setup, s: State, bars: seq<Bar>)
    requires During(setup, s, bars) && |s.queue| > 0 && s.queue[0].MarketEvent?
    ensures forall j :: 0 <= j < |s.queue| ==> !s.queue[j].FillEvent?
  {
    assert s.queue[0] in s.queue;
    forall j | 0 <= j < |s.queue| ensures !s.queue[j].FillEvent? {
      assert s.queue[j] in s.queue;
      assert j > 0 ==> !Before(s.queue[j], s.queue[0]);
    }
  }

  /** The order of events: by time, and within one time fills, then the bar, then signals, then orders; among
      events of one kind the one created first. */
  lemma EventOrder(f: Fill, bar: Bar, sig: Signal, o: Order)
    ensures Before(FillEvent(f), MarketEvent(bar)) <==> f.timestamp <= bar.timestamp
    ensures Before(MarketEvent(bar), FillEvent(f)) <==> bar.timestamp < f.timestamp
    ensures Before(FillEvent(f), SignalEvent(sig)) <==> f.timestamp <= sig.timestamp
    ensures Before(SignalEvent(sig), FillEvent(f)) <==> sig.timestamp < f.timestamp
    ensures Before(FillEvent(f), OrderEvent(o)) <==> f.timestamp <= o.timestamp
    ensures Before(OrderEvent(o), FillEvent(f)) <==> o.timestamp < f.timestamp
    ensures Before(MarketEvent(bar), SignalEvent(sig)) <==> bar.timestamp <= sig.timestamp
    ensures Before(SignalEvent(sig), MarketEvent(bar)) <==> sig.timestamp < bar.timestamp
    ensures Before(MarketEvent(bar), OrderEvent(o)) <==> bar.timestamp <= o.timestamp
    ensures Before(OrderEvent(o), MarketEvent(bar)) <==> o.timestamp < bar.timestamp
    ensures Before(SignalEvent(sig), OrderEvent(o)) <==> sig.timestamp <= o.timestamp
    ensures Before(OrderEvent(o), SignalEvent(sig)) <==> o.timestamp < sig.timestamp
    ensures forall g: Fill :: Before(FillEvent(f), FillEvent(g)) <==>
              f.timestamp < g.timestamp || (f.timestamp == g.timestamp && f.seqNo < g.seqNo)
    ensures forall t: Signal :: Before(SignalEvent(sig), SignalEvent(t)) <==>
              sig.timestamp < t.timestamp || (sig.timestamp == t.timestamp && sig.seqNo < t.seqNo)
    ensures forall p: Order :: Before(OrderEvent(o), OrderEvent(p)) <==>
              o.timestamp < p.timestamp || (o.timestamp == p.timestamp && o.id < p.id)
  {
  }

  /** Insertion into a queue in popping order: behind every event not after the new one, before all others. */
  lemma {:induction false} InsertedAt(q: Queue, e: Event) returns (k: nat)
    ensures k <= |q| && Insert(q, e) == q[..k] + [e] + q[k..]
    ensures (forall i :: 0 <= i < k ==> !Before(e, q[i])) && (k < |q| ==> Before(e, q[k]))
  {
    hide Before;
    if |q| == 0 || Before(e, q[0]) {
      k := 0;
    } else {
      var j := InsertedAt(q[1..], e);
      k := j + 1;
      InsertedBehind(q, e, j);
      forall i | 0 <= i < k ensures !Before(e, q[i]) {
        if i > 0 { assert q[i] == q[1..][i - 1]; }
      }
    }
  }

  lemma InsertedBehind(q: Queue, e: Event, j: nat)
    requires |q| > 0 && j <= |q| - 1
    ensures [q[0]] + (q[1..][..j] + [e] + q[1..][j..]) == q[..j + 1] + [e] + q[j + 1..]
  {
  }

  /** What a market event does: the strategy is shown the account marked at the close and histories that end with
      this bar, and just the signals it answers with are queued. */
  lemma StrategySees(setup: Setup, s: State, bars: seq<Bar>, bar: Bar)
    requires During(setup, s, bars) && Sound(s) && |s.queue| > 0 && s.queue[0] == MarketEvent(bar)
    ensures var r := Handled(setup, s);
            && HistoryIs(setup, r.history, bars)
            && Lookup(r.acct, bar.symbol) == Lookup(s.acct, bar.symbol).(lastPrice := bar.close)
            && (forall symbol :: symbol != bar.symbol ==> Lookup(r.acct, symbol) == Lookup(s.acct, symbol))
            && r.acct.cash == s.acct.cash
            && forall e :: e in r.queue <==>
                 e in s.queue[1..]
                 || (e.SignalEvent? && e.signal in setup.strategy(r.history, r.acct, bar.timestamp, bar))
  {
    hide Insert, InsertSignals, LastN, BarsOf, Before, Remembered, Put, Get;
    PoppedDuring(setup, s, bars);
    InsertSignalsMembers(s.queue[1..], SignalsOf(setup, Popped(s), bar));
    Remembers(setup, s.history, bars[..s.barCount], bar);
    assert bars[..s.barCount] + [bar] == bars;
    forall symbol ensures Lookup(MarkToMarket(s.acct, bar.symbol, bar.close), symbol)
                       == if symbol == bar.symbol then Lookup(s.acct, symbol).(lastPrice := bar.close)
                          else Lookup(s.acct, symbol)
    {
      GetPut(s.acct.positions, bar.symbol, Lookup(s.acct, bar.symbol).(lastPrice := bar.close), symbol, EMPTY);
    }
  }

  /** What a signal does: it queues one market order that takes the position to the target, unless the symbol
      has no price or the position is at the target already. */
  lemma SignalSizes(setup: Setup, s: State, sig: Signal)
    requires Sound(s) && |s.queue| > 0 && s.queue[0] == SignalEvent(sig)
    ensures var r, pos := Handled(setup, s), Lookup(s.acct, sig.symbol);
            if pos.lastPrice > 0.0 && pos.quantity != TargetQuantity(setup.config, s.acct, sig, pos.lastPrice) then
              exists o :: && r.queue == Insert(s.queue[1..], OrderEvent(o))
                          && o.orderType == MarketOrder && o.symbol == sig.symbol && o.timestamp == sig.timestamp
                          && o.quantity > 0.0
                          && pos.quantity + SignedQuantityOf(o)
                               == TargetQuantity(setup.config, s.acct, sig, pos.lastPrice)
            else r.queue == s.queue[1..]
  {
    hide Insert, Before;
    var acct := Touched(s.acct, sig.symbol);
    TouchedWorth(s.acct, sig.symbol);
    SizeOrderHitsTarget(setup.config, acct, sig, s.nextOrder, s.barCount);
  }

  /** What an order does: it goes on record and is pending exactly when it passes the check, which a halt before it
      rules out; the halt is for good. */
  lemma OrderScreened(setup: Setup, s: State, o: Order)
    requires Sound(s) && |s.queue| > 0 && s.queue[0] == OrderEvent(o)
    ensures var r, a := Handled(setup, s), RaisedPeak(s.acct);
            var held, value := Lookup(s.acct, o.symbol), Times(o.quantity, Lookup(s.acct, o.symbol).lastPrice);
            var nav, limit := TotalValue(s.acct), setup.config.maxGrossLeverage;
            var passed := && !r.halted
                          && ((if o.side == Sell then held.quantity > 0.0 else held.quantity < 0.0)
                              || held.lastPrice <= 0.0 || nav <= 0.0
                              || value <= Times(setup.config.maxPositionPct * 2.0, nav))
                          && (o.side == Sell || held.lastPrice <= 0.0
                              || GrossExposure(s.acct) + value <= Times(limit, if nav > 1.0 then nav else 1.0));
            && (r.halted <==>
                  s.halted || if a.peak > 0.0 then nav < Times(1.0 - setup.config.maxDrawdownHalt, a.peak)
                              else setup.config.maxDrawdownHalt < 0.0)
            && o.id in r.oms && r.oms[o.id] == OmsOrder(o, if passed then Submitted else Rejected, 0.0, 0.0)
            && r.pending == s.pending + (if passed then [o] else [])
            && r.queue == s.queue[1..] && r.fills == s.fills && r.history == s.history
  {
    hide RiskCheck, TotalValue, GrossExposure, Times, Touched, Lookup, RaisedPeak;
    RiskCheckIff(setup.config, o, s.acct, s.halted);
    PeakOnly(s.acct);
    TouchedWorth(RaisedPeak(s.acct), o.symbol);
  }

  /** Raising the peak changes neither the worth of the account nor its positions. */
  lemma PeakOnly(acct: Account)
    ensures var a := RaisedPeak(acct);
            && a.positions == acct.positions && TotalValue(a) == TotalValue(acct)
            && GrossExposure(a) == GrossExposure(acct)
            && forall symbol :: Lookup(a, symbol) == Lookup(acct, symbol)
  {
  }

  lemma TouchedWorth(acct: Account, symbol: string)
    ensures TotalValue(Touched(acct, symbol)) == TotalValue(acct)
    ensures GrossExposure(Touched(acct, symbol)) == GrossExposure(acct)
    ensures Lookup(Touched(acct, symbol), symbol) == Lookup(acct, symbol)
  {
    hide Times;
    TimesZero(0.0);
    var i := IndexOf(acct.positions, symbol);
    GetPut(acct.positions, symbol, Lookup(acct, symbol), symbol, EMPTY);
    if i < |acct.positions| {
      assert acct.positions[i := (symbol, Lookup(acct, symbol))] == acct.positions;
    } else {
      SumAppend(acct.positions, (symbol, EMPTY), ValueOf());
      SumAppend(acct.positions, (symbol, EMPTY), ExposureOf());
    }
  }

  // ---- histories ----

  lemma LastNAppend(a: seq<Bar>, b: Bar, n: nat)
    ensures LastN(LastN(a, n) + [b], n) == LastN(a + [b], n)
  {
  }

  lemma Remembers(setup: Setup, h: History, bars: seq<Bar>, bar: Bar)
    requires HistoryIs(setup, h, bars)
    ensures HistoryIs(setup, Remembered(setup, h, bar), bars + [bar])
  {
    var r := Remembered(setup, h, bar);
    forall symbol
      ensures Get(r, symbol, []) == LastN(BarsOf(bars + [bar], symbol), setup.config.maxHistory)
    {
      GetPut(h, bar.symbol, LastN(Get(h, bar.symbol, []) + [bar], setup.config.maxHistory), symbol, []);
      LastNAppend(BarsOf(bars, symbol), bar, setup.config.maxHistory);
      assert (bars + [bar])[..|bars|] == bars;
    }
  }

  // ---- one event ----

  lemma PoppedDuring(setup: Setup, s: State, bars: seq<Bar>)
    requires During(setup, s, bars) && |s.queue| > 0
    ensures SortedQueue(s.queue[1..])
    ensures forall e :: e in s.queue[1..] ==> e in s.queue
    ensures s.queue[0] in s.queue
    ensures s.queue[0].MarketEvent? ==> Markets(s.queue[1..]) == 0
  {
    forall i, j | 0 <= i < j < |s.queue[1..]| ensures !Before(s.queue[1..][j], s.queue[1..][i]) {
      assert !Before(s.queue[j + 1], s.queue[i + 1]);
    }
  }

  lemma MarketDuring(setup: Setup, s: State, bars: seq<Bar>, bar: Bar)
    requires During(setup, s, bars) && Sound(s) && |s.queue| > 0 && s.queue[0] == MarketEvent(bar)
    ensures During(setup, Handled(setup, s), bars)
  {
    hide Insert, InsertSignals, LastN, BarsOf, Before, Remembered, Put, Get;
    PoppedDuring(setup, s, bars);
    HandledQueue(setup, s);
    var rest, signals := s.queue[1..], SignalsOf(setup, Popped(s), bar);
    InsertSignalsMembers(rest, signals);
    InsertSignalsMeasure(rest, signals);
    InsertSignalsSorted(rest, signals);
    Remembers(setup, s.history, bars[..s.barCount], bar);
    assert bars[..s.barCount] + [bar] == bars;
  }

  lemma SignalDuring(setup: Setup, s: State, bars: seq<Bar>, sig: Signal)
    requires During(setup, s, bars) && Sound(s) && |s.queue| > 0 && s.queue[0] == SignalEvent(sig)
    ensures During(setup, Handled(setup, s), bars)
  {
    hide Insert, HistoryIs, Before, SizeOrder;
    PoppedDuring(setup, s, bars);
    HandledQueue(setup, s);
    SignalKeeps(setup, s, sig);
    var rest, o := s.queue[1..], OrderOf(setup, Popped(s), sig);
    if o.Some? {
      InsertMembers(rest, OrderEvent(o.value));
      InsertMeasure(rest, OrderEvent(o.value));
      InsertSorted(rest, OrderEvent(o.value));
    }
  }

  lemma OtherDuring(setup: Setup, s: State, bars: seq<Bar>)
    requires During(setup, s, bars) && Sound(s) && |s.queue| > 0
    requires s.queue[0].FillEvent? || s.queue[0].OrderEvent?
    ensures During(setup, Handled(setup, s), bars)
  {
    hide ApplyFill, OmsFilled, RiskCheck, HistoryIs, Before;
    PoppedDuring(setup, s, bars);
  }

  lemma HandledDuring(setup: Setup, s: State, bars: seq<Bar>)
    requires During(setup, s, bars) && Sound(s) && |s.queue| > 0
    ensures During(setup, Handled(setup, s), bars)
  {
    hide During, Handled;
    match s.queue[0]
    case FillEvent(_) => OtherDuring(setup, s, bars);
    case OrderEvent(_) => OtherDuring(setup, s, bars);
    case MarketEvent(bar) => MarketDuring(setup, s, bars, bar);
    case SignalEvent(sig) => SignalDuring(setup, s, bars, sig);
  }

  lemma {:induction false} DrainedDuring(setup: Setup, s: State, bars: seq<Bar>)
    requires During(setup, s, bars) && Sound(s)
    ensures During(setup, Drained(setup, s), bars)
    ensures Drained(setup, s).equity == s.equity && Drained(setup, s).barCount == s.barCount
    ensures s.fills <= Drained(setup, s).fills
    decreases Markets(s.queue), Work(s.queue)
  {
    hide During, Handled;
    if |s.queue| > 0 {
      HandledDuring(setup, s, bars);
      HandledProgress(setup, s);
      HandledSound(setup, s);
      HandledGrows(setup, s);
      DrainedDuring(setup, Handled(setup, s), bars);
    }
  }

  lemma HandledGrows(setup: Setup, s: State)
    requires Sound(s) && |s.queue| > 0
    ensures Handled(setup, s).equity == s.equity && Handled(setup, s).barCount == s.barCount
    ensures s.fills <= Handled(setup, s).fills
  {
    hide Insert, InsertSignals, ApplyFill, OmsFilled, RiskCheck, SizeOrder, Remembered, MarkToMarket, Touched;
  }

  // ---- one bar ----

  lemma NothingQueued(setup: Setup, s: State, bars: seq<Bar>)
    requires Ready(setup, s) && Between(setup, s, bars)
    ensures s.queue == [] && SortedQueue(s.queue) && Markets(s.queue) == 0
  {
  }

  lemma {:induction false} SweepingDuring(setup: Setup, s: State, bar: Bar, bars: seq<Bar>, n: nat)
    requires Ready(setup, s) && Between(setup, s, bars) && n <= |s.pending|
    ensures var q := SweepN(setup, s, bar, n).queue;
            && SortedQueue(q) && Markets(q) == 0
            && forall e :: e in q ==> e.FillEvent? && e.fill.bar == s.barCount && OnFeed(e.fill, bars + [bar])
  {
    hide Insert, TryFill, Before, SortedQueue;
    if n == 0 {
      NothingQueued(setup, s, bars);
    } else {
      SweepingDuring(setup, s, bar, bars, n - 1);
      var sw, o := SweepN(setup, s, bar, n - 1), s.pending[n - 1];
      assert o in s.pending && o.quantity > 0.0;
      FillPositive(setup, o, bar, sw.nextFill, s.barCount);
      var f := TryFill(setup, o, bar, sw.nextFill, s.barCount);
      if o.symbol == bar.symbol && f.Some? {
        InsertSorted(sw.queue, FillEvent(f.value));
        InsertMembers(sw.queue, FillEvent(f.value));
        InsertMeasure(sw.queue, FillEvent(f.value));
      }
    }
  }

  lemma OpenedDuring(setup: Setup, s: State, bar: Bar, bars: seq<Bar>)
    requires Ready(setup, s) && Between(setup, s, bars)
    ensures During(setup, Opened(setup, s, bar), bars + [bar])
  {
    hide SweepN, Insert, Before, BarsOf, LastN;
    SweepingDuring(setup, s, bar, bars, |s.pending|);
    var q := SweepN(setup, s, bar, |s.pending|).queue;
    InsertSorted(q, MarketEvent(bar));
    InsertMembers(q, MarketEvent(bar));
    InsertMeasure(q, MarketEvent(bar));
    assert (bars + [bar])[..s.barCount] == bars;
    forall f | f in s.fills ensures OnFeed(f, bars + [bar]) { assert OnFeed(f, bars); }
  }

  /** After a bar: its fills are from it, histories include it, one equity point is added. */
  lemma BarBetween(setup: Setup, s: State, bar: Bar, bars: seq<Bar>)
    requires Ready(setup, s) && Between(setup, s, bars)
    ensures var r := ProcessBar(setup, s, bar);
            && Between(setup, r, bars + [bar]) && r.barCount == s.barCount + 1 && s.fills <= r.fills
            && |r.equity| == |s.equity| + 1 && s.equity <= r.equity && r.equity[|s.equity|].0 == bar.timestamp
  {
    hide Opened, Drained, HistoryIs, OnFeed;
    OpenedDuring(setup, s, bar, bars);
    OpenedSound(setup, s, bar);
    OpenedKeepsPast(setup, s, bar);
    DrainedDuring(setup, Opened(setup, s, bar), bars + [bar]);
  }

  lemma OpenedKeepsPast(setup: Setup, s: State, bar: Bar)
    ensures var r := Opened(setup, s, bar);
            r.equity == s.equity && r.fills == s.fills && r.barCount == s.barCount && r.oms == s.oms
  {
  }

  // ---- the run ----

  lemma {:induction false} RunBetween(setup: Setup, s: State, bars: seq<Bar>, feed: seq<Bar>)
    requires Ready(setup, s) && Between(setup, s, bars)
    ensures Between(setup, Run(setup, s, feed), bars + Processed(setup, s, feed))
    ensures s.fills <= Run(setup, s, feed).fills && s.equity <= Run(setup, s, feed).equity
    decreases |feed|
  {
    hide Between, ProcessBar;
    if |feed| == 0 || (!TooEarly(setup, feed[0]) && (TooLate(setup, feed[0]) || s.halted)) {
      assert bars + [] == bars;
    } else if TooEarly(setup, feed[0]) {
      RunBetween(setup, s, bars, feed[1..]);
    } else {
      var r := ProcessBar(setup, s, feed[0]);
      BarBetween(setup, s, feed[0], bars);
      RunBetween(setup, r, bars + [feed[0]], feed[1..]);
      assert bars + ([feed[0]] + Processed(setup, r, feed[1..]))
          == (bars + [feed[0]]) + Processed(setup, r, feed[1..]);
    }
  }

  lemma InitialBetween(setup: Setup)
    ensures Between(setup, Initial(setup), [])
  {
  }

  /** After every run each symbol's history is exactly its last `maxHistory` processed bars: the end of the
      symbol's bars, as long as that bound allows. */
  lemma HistoriesAreLastBars(setup: Setup, feed: seq<Bar>, symbol: string)
    requires setup.config.maxFillPct > 0.0
    ensures var kept := Get(Run(setup, Initial(setup), feed).history, symbol, []);
            var all := BarsOf(Processed(setup, Initial(setup), feed), symbol);
            && |kept| <= |all| && kept == all[|all| - |kept|..]
            && |kept| <= setup.config.maxHistory && (|kept| == |all| || |kept| == setup.config.maxHistory)
  {
    hide Run, Processed, BarsOf;
    InitialBetween(setup);
    RunBetween(setup, Initial(setup), [], feed);
    assert [] + Processed(setup, Initial(setup), feed) == Processed(setup, Initial(setup), feed);
  }

  /** No same-bar execution, over every run: each fill is from a bar of its order's symbol that comes
      strictly later in the feed than the bar during which the order was created. */
  lemma NoSameBarExecution(setup: Setup, feed: seq<Bar>, f: Fill)
    requires setup.config.maxFillPct > 0.0 && f in Run(setup, Initial(setup), feed).fills
    ensures var s, bars := Run(setup, Initial(setup), feed), Processed(setup, Initial(setup), feed);
            && Accepted(s.oms, f.orderId)
            && s.oms[f.orderId].order.symbol == f.symbol
            && s.oms[f.orderId].order.bar < f.bar < |bars|
            && bars[f.bar].symbol == f.symbol && bars[f.bar].timestamp == f.timestamp
  {
    hide Run, Processed;
    InitialBoundary(setup);
    RunKeeps(setup, Initial(setup), feed);
    InitialBetween(setup);
    RunBetween(setup, Initial(setup), [], feed);
    var s, bars := Run(setup, Initial(setup), feed), Processed(setup, Initial(setup), feed);
    assert [] + bars == bars;
    assert Linked(s) && FillLinked(s.oms, f, s.barCount) && OnFeed(f, bars);
  }

  // ---- own-symbol strategies: strictly later in time ----

  /** The strategy only ever signals the symbol of the bar it was called on. */
  ghost predicate OwnSymbol(setup: Setup) {
    forall h, acct, now, bar, sig :: sig in setup.strategy(h, acct, now, bar) ==> sig.symbol == bar.symbol
  }

  ghost predicate StrictPerSymbol(bars: seq<Bar>) {
    forall i, j :: 0 <= i < j < |bars| && bars[i].symbol == bars[j].symbol ==> bars[i].timestamp < bars[j].timestamp
  }

  /** Every order is for the symbol of the bar during which it was created. */
  ghost predicate Owned(s: State, bars: seq<Bar>) {
    && (forall id :: id in s.oms ==>
          s.oms[id].order.bar < |bars| && bars[s.oms[id].order.bar].symbol == s.oms[id].order.symbol)
    && (forall e :: e in s.queue && e.SignalEvent? ==>
          s.barCount < |bars| && e.signal.symbol == bars[s.barCount].symbol)
    && (forall e :: e in s.queue && e.OrderEvent? ==>
          e.order.bar < |bars| && e.order.symbol == bars[e.order.bar].symbol)
  }

  lemma MarketOwned(setup: Setup, s: State, bars: seq<Bar>, bar: Bar)
    requires OwnSymbol(setup) && During(setup, s, bars) && Owned(s, bars) && Sound(s)
    requires |s.queue| > 0 && s.queue[0] == MarketEvent(bar)
    ensures Owned(Handled(setup, s), bars)
  {
    hide InsertSignals, Remembered, HistoryIs, Before, OnFeed;
    assert s.queue[0] in s.queue;
    InsertSignalsMembers(s.queue[1..], SignalsOf(setup, Popped(s), bar));
  }

  lemma SignalOwned(setup: Setup, s: State, bars: seq<Bar>, sig: Signal)
    requires |bars| == s.barCount + 1 && Owned(s, bars) && Sound(s)
    requires |s.queue| > 0 && s.queue[0] == SignalEvent(sig)
    ensures Owned(Handled(setup, s), bars)
  {
    hide Insert, SizeOrder;
    assert s.queue[0] in s.queue;
    HandledQueue(setup, s);
    SignalKeeps(setup, s, sig);
    var o := OrderOf(setup, Popped(s), sig);
    if o.Some? { InsertMembers(s.queue[1..], OrderEvent(o.value)); }
  }

  lemma OtherOwned(setup: Setup, s: State, bars: seq<Bar>)
    requires Owned(s, bars) && Sound(s) && |s.queue| > 0
    requires s.queue[0].FillEvent? || s.queue[0].OrderEvent?
    ensures Owned(Handled(setup, s), bars)
  {
    hide ApplyFill, RiskCheck;
    assert s.queue[0] in s.queue;
  }

  lemma HandledOwned(setup: Setup, s: State, bars: seq<Bar>)
    requires OwnSymbol(setup) && During(setup, s, bars) && Owned(s, bars) && Sound(s) && |s.queue| > 0
    ensures Owned(Handled(setup, s), bars)
  {
    hide Owned, Handled, OwnSymbol;
    match s.queue[0]
    case FillEvent(_) => OtherOwned(setup, s, bars);
    case OrderEvent(_) => OtherOwned(setup, s, bars);
    case MarketEvent(bar) => MarketOwned(setup, s, bars, bar);
    case SignalEvent(sig) => SignalOwned(setup, s, bars, sig);
  }

  lemma {:induction false} DrainedOwned(setup: Setup, s: State, bars: seq<Bar>)
    requires OwnSymbol(setup) && During(setup, s, bars) && Owned(s, bars) && Sound(s)
    ensures Owned(Drained(setup, s), bars)
    decreases Markets(s.queue), Work(s.queue)
  {
    hide During, Handled, Owned, OwnSymbol;
    if |s.queue| > 0 {
      HandledDuring(setup, s, bars);
      HandledOwned(setup, s, bars);
      HandledProgress(setup, s);
      HandledSound(setup, s);
      DrainedOwned(setup, Handled(setup, s), bars);
    }
  }

  lemma OpenedOwned(setup: Setup, s: State, bar: Bar, bars: seq<Bar>)
    requires Ready(setup, s) && Between(setup, s, bars) && Owned(s, bars)
    ensures Owned(Opened(setup, s, bar), bars + [bar])
  {
    hide SweepN, Insert, HistoryIs;
    SweepingDuring(setup, s, bar, bars, |s.pending|);
    InsertMembers(SweepN(setup, s, bar, |s.pending|).queue, MarketEvent(bar));
  }

  lemma BarOwned(setup: Setup, s: State, bar: Bar, bars: seq<Bar>)
    requires OwnSymbol(setup) && Ready(setup, s) && Between(setup, s, bars) && Owned(s, bars)
    ensures Owned(ProcessBar(setup, s, bar), bars + [bar])
  {
    hide Opened, Drained, HistoryIs, OnFeed, OwnSymbol;
    OpenedDuring(setup, s, bar, bars);
    OpenedSound(setup, s, bar);
    OpenedOwned(setup, s, bar, bars);
    DrainedOwned(setup, Opened(setup, s, bar), bars + [bar]);
  }

  lemma {:induction false} RunOwned(setup: Setup, s: State, bars: seq<Bar>, feed: seq<Bar>)
    requires OwnSymbol(setup) && Ready(setup, s) && Between(setup, s, bars) && Owned(s, bars)
    ensures Owned(Run(setup, s, feed), bars + Processed(setup, s, feed))
    decreases |feed|
  {
    hide Between, ProcessBar, Owned, OwnSymbol;
    if |feed| == 0 || (!TooEarly(setup, feed[0]) && (TooLate(setup, feed[0]) || s.halted)) {
      assert bars + [] == bars;
    } else if TooEarly(setup, feed[0]) {
      RunOwned(setup, s, bars, feed[1..]);
    } else {
      var r := ProcessBar(setup, s, feed[0]);
      BarBetween(setup, s, feed[0], bars);
      BarOwned(setup, s, feed[0], bars);
      RunOwned(setup, r, bars + [feed[0]], feed[1..]);
      assert bars + ([feed[0]] + Processed(setup, r, feed[1..]))
          == (bars + [feed[0]]) + Processed(setup, r, feed[1..]);
    }
  }

  lemma {:induction false} ProcessedFromFeed(setup: Setup, s: State, feed: seq<Bar>)
    requires Ready(setup, s) && StrictPerSymbol(feed)
    ensures StrictPerSymbol(Processed(setup, s, feed))
    ensures forall b :: b in Processed(setup, s, feed) ==> b in feed
    decreases |feed|
  {
    hide ProcessBar;
    if |feed| > 0 && (TooEarly(setup, feed[0]) || (!TooLate(setup, feed[0]) && !s.halted)) {
      assert StrictPerSymbol(feed[1..]);
      var s' := if TooEarly(setup, feed[0]) then s else ProcessBar(setup, s, feed[0]);
      ProcessedFromFeed(setup, s', feed[1..]);
      var rest := Processed(setup, s', feed[1..]);
      forall j | 0 <= j < |rest| && rest[j].symbol == feed[0].symbol
        ensures feed[0].timestamp < rest[j].timestamp
      {
        assert rest[j] in feed[1..];
      }
    }
  }

  /** For a strategy that signals only the current bar's symbol, on a feed whose timestamps strictly
      increase per symbol, every fill is also strictly later in time than its order's bar. */
  lemma StrictlyLaterInTime(setup: Setup, feed: seq<Bar>, f: Fill)
    requires setup.config.maxFillPct > 0.0 && f in Run(setup, Initial(setup), feed).fills
    requires OwnSymbol(setup) && StrictPerSymbol(feed)
    ensures var s, bars := Run(setup, Initial(setup), feed), Processed(setup, Initial(setup), feed);
            && Accepted(s.oms, f.orderId) && s.oms[f.orderId].order.bar < |bars|
            && bars[s.oms[f.orderId].order.bar].timestamp < f.timestamp
  {
    hide Run, Processed, OwnSymbol, Between;
    NoSameBarExecution(setup, feed, f);
    InitialBetween(setup);
    ProcessedFromFeed(setup, Initial(setup), feed);
    RunOwned(setup, Initial(setup), [], feed);
    assert [] + Processed(setup, Initial(setup), feed) == Processed(setup, Initial(setup), feed);
  }

  /** For any strategy: the fill of an order for the symbol of the bar it was created on is strictly later in
      time, on a feed whose timestamps strictly increase per symbol. */
  lemma OwnSymbolLater(setup: Setup, feed: seq<Bar>, f: Fill)
    requires setup.config.maxFillPct > 0.0 && f in Run(setup, Initial(setup), feed).fills && StrictPerSymbol(feed)
    ensures var s, bars := Run(setup, Initial(setup), feed), Processed(setup, Initial(setup), feed);
            && Accepted(s.oms, f.orderId) && s.oms[f.orderId].order.bar < |bars|
            && (bars[s.oms[f.orderId].order.bar].symbol == f.symbol ==>
                  bars[s.oms[f.orderId].order.bar].timestamp < f.timestamp)
  {
    hide Run, Processed;
    NoSameBarExecution(setup, feed, f);
    ProcessedFromFeed(setup, Initial(setup), feed);
  }

  // ---- later bars never change earlier results ----

  /** Extending a feed extends the results of the run and changes none of them. */
  lemma {:induction false} RunExtends(setup: Setup, s: State, bars: seq<Bar>, a: seq<Bar>, b: seq<Bar>)
    requires Ready(setup, s) && Between(setup, s, bars)
    ensures Run(setup, s, a).fills <= Run(setup, s, a + b).fills
    ensures Run(setup, s, a).equity <= Run(setup, s, a + b).equity
    ensures Processed(setup, s, a) <= Processed(setup, s, a + b)
    decreases |a|
  {
    hide Between, ProcessBar;
    if |a| == 0 {
      assert a + b == b;
      RunBetween(setup, s, bars, b);
    } else {
      assert (a + b)[0] == a[0] && (a + b)[1..] == a[1..] + b;
      if TooEarly(setup, a[0]) {
        RunExtends(setup, s, bars, a[1..], b);
      } else if !TooLate(setup, a[0]) && !s.halted {
        BarBetween(setup, s, a[0], bars);
        RunExtends(setup, ProcessBar(setup, s, a[0]), bars + [a[0]], a[1..], b);
      }
    }
  }

  /** The bar loop stops inside the feed, at a late bar or at a halt, rather than at its end. */
  predicate Stopped(setup: Setup, s: State, feed: seq<Bar>)
    requires Ready(setup, s)
    decreases |feed|
  {
    |feed| > 0 &&
    if TooEarly(setup, feed[0]) then Stopped(setup, s, feed[1..])
    else TooLate(setup, feed[0]) || s.halted || Stopped(setup, ProcessBar(setup, s, feed[0]), feed[1..])
  }

  /** A run on a longer feed is the run on its first part, taken up where that left off unless it stopped. */
  lemma {:induction false} RunSplits(setup: Setup, s: State, a: seq<Bar>, b: seq<Bar>)
    requires Ready(setup, s)
    ensures Run(setup, s, a + b)
         == if Stopped(setup, s, a) then Run(setup, s, a) else Run(setup, Run(setup, s, a), b)
    decreases |a|
  {
    hide ProcessBar, Ready;
    if |a| == 0 {
      assert a + b == b;
    } else {
      assert (a + b)[0] == a[0] && (a + b)[1..] == a[1..] + b;
      if TooEarly(setup, a[0]) {
        RunSplits(setup, s, a[1..], b);
      } else if !TooLate(setup, a[0]) && !s.halted {
        RunSplits(setup, ProcessBar(setup, s, a[0]), a[1..], b);
      }
    }
  }

  /** So are the bars it processes. */
  lemma {:induction false} ProcessedSplits(setup: Setup, s: State, a: seq<Bar>, b: seq<Bar>)
    requires Ready(setup, s)
    ensures Processed(setup, s, a + b)
         == Processed(setup, s, a) + if Stopped(setup, s, a) then [] else Processed(setup, Run(setup, s, a), b)
    decreases |a|
  {
    hide ProcessBar, Ready;
    if |a| == 0 {
      assert a + b == b;
    } else {
      assert (a + b)[0] == a[0] && (a + b)[1..] == a[1..] + b;
      if TooEarly(setup, a[0]) {
        ProcessedSplits(setup, s, a[1..], b);
      } else if !TooLate(setup, a[0]) && !s.halted {
        var r := ProcessBar(setup, s, a[0]);
        ProcessedSplits(setup, r, a[1..], b);
        var rest := if Stopped(setup, r, a[1..]) then [] else Processed(setup, Run(setup, r, a[1..]), b);
        PrefixedConcat(a[0], Processed(setup, r, a[1..]), rest);
      }
    }
  }

  lemma PrefixedConcat(x: Bar, a: seq<Bar>, b: seq<Bar>)
    ensures [x] + (a + b) == ([x] + a) + b
  {
  }

  /** No look-ahead: after the first i bars, runs on feeds that share these bars are in one state, account,
      orders and histories included. Each ends there if it stopped on them and otherwise goes on from there,
      so fills, equity points and processed bars so far are a prefix of those at its end. */
  lemma NoLookAhead(setup: Setup, a: seq<Bar>, b: seq<Bar>, i: nat)
    requires setup.config.maxFillPct > 0.0 && i <= |a| && i <= |b| && a[..i] == b[..i]
    ensures var start := Initial(setup);
            var s, stopped := Run(setup, start, a[..i]), Stopped(setup, start, a[..i]);
            && Run(setup, start, a) == (if stopped then s else Run(setup, s, a[i..]))
            && Run(setup, start, b) == (if stopped then s else Run(setup, s, b[i..]))
            && s.fills <= Run(setup, start, a).fills && s.fills <= Run(setup, start, b).fills
            && s.equity <= Run(setup, start, a).equity && s.equity <= Run(setup, start, b).equity
            && Processed(setup, start, a[..i]) <= Processed(setup, start, a)
            && Processed(setup, start, a[..i]) <= Processed(setup, start, b)
  {
    hide Run, Between, Stopped, Processed;
    InitialBetween(setup);
    assert a == a[..i] + a[i..] && b == b[..i] + b[i..];
    RunSplits(setup, Initial(setup), a[..i], a[i..]);
    RunSplits(setup, Initial(setup), b[..i], b[i..]);
    RunExtends(setup, Initial(setup), [], a[..i], a[i..]);
    RunExtends(setup, Initial(setup), [], b[..i], b[i..]);
  }

  // ---- which bars are processed ----

  /** The bars from the start date to the end date, both included. */
  function InRange(setup: Setup, feed: seq<Bar>): seq<Bar> {
    if |feed| == 0 then []
    else
      var day := setup.day(feed[0].timestamp);
      (if (setup.config.start.None? || setup.config.start.value <= day)
          && (setup.config.end.None? || day <= setup.config.end.value) then [feed[0]] else [])
      + InRange(setup, feed[1..])
  }

  lemma InRangeHead(setup: Setup, feed: seq<Bar>)
    ensures |feed| == 0 ==> InRange(setup, feed) == []
    ensures |feed| > 0 ==>
              var head := if TooEarly(setup, feed[0]) || TooLate(setup, feed[0]) then [] else [feed[0]];
              InRange(setup, feed) == head + InRange(setup, feed[1..])
  {
  }

  function UntilLate(setup: Setup, feed: seq<Bar>): seq<Bar> {
    if |feed| == 0 || TooLate(setup, feed[0]) then [] else [feed[0]] + UntilLate(setup, feed[1..])
  }

  /** The bars before the first one after the end date. */
  lemma {:induction false} UntilLateIs(setup: Setup, feed: seq<Bar>, i: nat)
    ensures var r := UntilLate(setup, feed);
            && r <= feed
            && (i < |r| && setup.config.end.Some? ==> setup.day(feed[i].timestamp) <= setup.config.end.value)
            && (|r| < |feed| ==> setup.config.end.Some? && setup.day(feed[|r|].timestamp) > setup.config.end.value)
  {
    if |feed| > 0 && !TooLate(setup, feed[0]) {
      UntilLateIs(setup, feed[1..], if i > 0 then i - 1 else 0);
    }
  }

  lemma UntilLateEnds(setup: Setup, feed: seq<Bar>)
    requires |feed| == 0 || TooLate(setup, feed[0])
    ensures UntilLate(setup, feed) == [] && InRange(setup, UntilLate(setup, feed)) == []
  {
  }

  lemma UntilLateStep(setup: Setup, feed: seq<Bar>)
    requires |feed| > 0 && !TooLate(setup, feed[0])
    ensures var head := if TooEarly(setup, feed[0]) then [] else [feed[0]];
            InRange(setup, UntilLate(setup, feed)) == head + InRange(setup, UntilLate(setup, feed[1..]))
  {
    hide InRange;
    var cut := UntilLate(setup, feed);
    assert cut[1..] == UntilLate(setup, feed[1..]) && cut[0] == feed[0];
    InRangeHead(setup, cut);
  }

  /** A bar before the start and after the end means that no bar is in range. */
  lemma {:induction false} NoneBetween(setup: Setup, s: State, feed: seq<Bar>)
    requires Ready(setup, s) && exists b :: TooEarly(setup, b) && TooLate(setup, b)
    ensures Processed(setup, s, feed) == [] && Run(setup, s, feed) == s
    decreases |feed|
  {
    hide ProcessBar, Ready;
    if |feed| > 0 && TooEarly(setup, feed[0]) { NoneBetween(setup, s, feed[1..]); }
  }

  /** Whatever the order of the feed: the processed bars are the bars in range before the first late one, cut short
      only by a halt, and each of them adds exactly one equity point, at its time. */
  lemma {:induction false} ProcessedUntilLate(setup: Setup, s: State, bars: seq<Bar>, feed: seq<Bar>)
    requires Ready(setup, s) && Between(setup, s, bars)
    ensures var p, r, due := Processed(setup, s, feed), Run(setup, s, feed), InRange(setup, UntilLate(setup, feed));
            && p <= due && (p == due || r.halted)
            && |r.equity| == |s.equity| + |p| && s.equity <= r.equity
            && (forall i :: 0 <= i < |p| ==> r.equity[|s.equity| + i].0 == p[i].timestamp)
            && r.barCount == s.barCount + |p|
    decreases |feed|
  {
    hide Between, ProcessBar, TooEarly, TooLate, InRange, UntilLate;
    if |feed| == 0 || TooLate(setup, feed[0]) {
      UntilLateEnds(setup, feed);
      if |feed| > 0 && TooEarly(setup, feed[0]) { NoneBetween(setup, s, feed); }
    } else {
      UntilLateStep(setup, feed);
      if TooEarly(setup, feed[0]) {
        ProcessedUntilLate(setup, s, bars, feed[1..]);
      } else if !s.halted {
        var r := ProcessBar(setup, s, feed[0]);
        BarBetween(setup, s, feed[0], bars);
        ProcessedUntilLate(setup, r, bars + [feed[0]], feed[1..]);
        PointsPrepend(feed[0], Processed(setup, r, feed[1..]), s.equity, r.equity, Run(setup, r, feed[1..]).equity);
      }
    }
  }

  ghost predicate DateSorted(setup: Setup, feed: seq<Bar>) {
    forall i, j :: 0 <= i < j < |feed| ==> setup.day(feed[i].timestamp) <= setup.day(feed[j].timestamp)
  }

  lemma {:induction false} NoneInRange(setup: Setup, feed: seq<Bar>)
    requires forall i :: 0 <= i < |feed| ==> TooLate(setup, feed[i])
    ensures InRange(setup, feed) == []
  {
    if |feed| > 0 { NoneInRange(setup, feed[1..]); }
  }

  lemma {:induction false} SortedUntilLate(setup: Setup, feed: seq<Bar>)
    requires DateSorted(setup, feed)
    ensures InRange(setup, UntilLate(setup, feed)) == InRange(setup, feed)
  {
    hide TooEarly, TooLate, DateSorted, InRange, UntilLate;
    InRangeHead(setup, feed);
    if |feed| == 0 {
      UntilLateEnds(setup, feed);
    } else if TooLate(setup, feed[0]) {
      UntilLateEnds(setup, feed);
      LateSorted(setup, feed);
      NoneInRange(setup, feed);
    } else {
      RestSorted(setup, feed);
      SortedUntilLate(setup, feed[1..]);
      UntilLateStep(setup, feed);
    }
  }

  /** On a date-sorted feed the processed bars are the bars in range, cut short only by a halt, with one equity
      point each. */
  lemma ProcessedInRange(setup: Setup, s: State, bars: seq<Bar>, feed: seq<Bar>)
    requires Ready(setup, s) && Between(setup, s, bars) && DateSorted(setup, feed)
    ensures var p, r := Processed(setup, s, feed), Run(setup, s, feed);
            && p <= InRange(setup, feed)
            && (p == InRange(setup, feed) || r.halted)
            && |r.equity| == |s.equity| + |p| && s.equity <= r.equity
            && (forall i :: 0 <= i < |p| ==> r.equity[|s.equity| + i].0 == p[i].timestamp)
            && r.barCount == s.barCount + |p|
  {
    hide Between, DateSorted, InRange, UntilLate, Run, Processed;
    ProcessedUntilLate(setup, s, bars, feed);
    SortedUntilLate(setup, feed);
  }

  lemma RestSorted(setup: Setup, feed: seq<Bar>)
    requires |feed| > 0 && DateSorted(setup, feed)
    ensures DateSorted(setup, feed[1..])
  {
  }

  lemma LateSorted(setup: Setup, feed: seq<Bar>)
    requires |feed| > 0 && DateSorted(setup, feed) && TooLate(setup, feed[0])
    ensures forall i :: 0 <= i < |feed| ==> TooLate(setup, feed[i])
  {
  }

  lemma PointsPrepend(bar: Bar, p: seq<Bar>, a: seq<(int, real)>, b: seq<(int, real)>, c: seq<(int, real)>)
    requires |b| == |a| + 1 && a <= b && b <= c && b[|a|].0 == bar.timestamp && |c| == |b| + |p|
    requires forall i :: 0 <= i < |p| ==> c[|b| + i].0 == p[i].timestamp
    ensures a <= c && forall i :: 0 <= i < |p| + 1 ==> c[|a| + i].0 == ([bar] + p)[i].timestamp
  {
    forall i | 0 <= i < |p| + 1 ensures c[|a| + i].0 == ([bar] + p)[i].timestamp {
      if i > 0 { assert c[|b| + (i - 1)].0 == p[i - 1].timestamp; }
    }
  }

  /** No bar is processed after a halt: the run on the bars before any processed one is not halted and
      has processed just these; and running on the processed bars alone is the same run. */
  lemma {:induction false} NoneAfterHalt(setup: Setup, s: State, feed: seq<Bar>, k: nat)
    requires Ready(setup, s) && k <= |Processed(setup, s, feed)|
    ensures var p := Processed(setup, s, feed);
            && Processed(setup, s, p[..k]) == p[..k]
            && (k < |p| ==> !Run(setup, s, p[..k]).halted)
            && (k == |p| ==> Run(setup, s, p[..k]) == Run(setup, s, feed))
    decreases |feed|
  {
    hide ProcessBar;
    if |feed| > 0 {
      if TooEarly(setup, feed[0]) {
        NoneAfterHalt(setup, s, feed[1..], k);
      } else if !TooLate(setup, feed[0]) && !s.halted && k > 0 {
        var r := ProcessBar(setup, s, feed[0]);
        NoneAfterHalt(setup, r, feed[1..], k - 1);
        var p := Processed(setup, s, feed);
        assert p[..k][1..] == Processed(setup, r, feed[1..])[..k - 1];
        assert p[..k][0] == feed[0];
      }
    }
  }
}
