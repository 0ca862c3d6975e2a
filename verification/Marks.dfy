/** How the account is valued during a run: positions at the last close of their symbol, equity points at
    the account's value, and a high-water mark that no equity point exceeds. */
module Marks {
  import opened Dicts
  import opened Reals
  import opened Portfolio
  import opened Backtest
  import opened Conservation
  import opened Timing

  /** The close of a symbol's last bar, 0 before its first. */
  function LastClose(bars: seq<Bar>, symbol: string): real {
    if |bars| == 0 then 0.0
    else if bars[|bars| - 1].symbol == symbol then bars[|bars| - 1].close
    else LastClose(bars[..|bars| - 1], symbol)
  }

  ghost predicate Quoted(acct: Account, bars: seq<Bar>) {
    forall symbol :: Lookup(acct, symbol).lastPrice == LastClose(bars, symbol)
  }

  ghost predicate BelowPeak(s: State) {
    forall e :: e in s.equity ==> e.1 <= s.acct.peak
  }

  /** The same last prices, and a high-water mark that has not come down. */
  ghost predicate SameMarks(a: Account, b: Account) {
    a.peak <= b.peak && forall symbol :: Lookup(b, symbol).lastPrice == Lookup(a, symbol).lastPrice
  }

  lemma FillMarks(acct: Account, f: Fill)
    requires f.quantity > 0.0
    ensures SameMarks(acct, ApplyFill(acct, f))
  {
    var pos := Lookup(acct, f.symbol);
    var pos' := if f.side == Buy then Bought(pos, f.quantity, f.price) else Sold(pos, f.quantity, f.price);
    forall s ensures Lookup(ApplyFill(acct, f), s).lastPrice == Lookup(acct, s).lastPrice {
      GetPut(acct.positions, f.symbol, pos', s, EMPTY);
    }
  }

  lemma TouchMarks(acct: Account, symbol: string)
    ensures SameMarks(acct, Touched(acct, symbol))
  {
    forall s ensures Lookup(Touched(acct, symbol), s).lastPrice == Lookup(acct, s).lastPrice {
      GetPut(acct.positions, symbol, Lookup(acct, symbol), s, EMPTY);
    }
  }

  lemma CheckMarks(cfg: Config, o: Order, acct: Account, halted: bool)
    ensures SameMarks(acct, RiskCheck(cfg, o, acct, halted).acct)
  {
    hide TotalValue, GrossExposure, Drawdown, Lookup, Touched, Times;
    TouchMarks(RaisedPeak(acct), o.symbol);
    RaisedMarks(acct);
  }

  lemma RaisedMarks(acct: Account)
    ensures SameMarks(acct, RaisedPeak(acct)) && TotalValue(RaisedPeak(acct)) <= RaisedPeak(acct).peak
    ensures TotalValue(RaisedPeak(acct)) == TotalValue(acct)
  {
  }

  lemma MarketMarks(acct: Account, bars: seq<Bar>, bar: Bar)
    requires Quoted(acct, bars)
    ensures Quoted(MarkToMarket(acct, bar.symbol, bar.close), bars + [bar])
    ensures MarkToMarket(acct, bar.symbol, bar.close).peak == acct.peak
  {
    assert (bars + [bar])[..|bars|] == bars;
    forall s ensures Lookup(MarkToMarket(acct, bar.symbol, bar.close), s).lastPrice == LastClose(bars + [bar], s) {
      GetPut(acct.positions, bar.symbol, Lookup(acct, bar.symbol).(lastPrice := bar.close), s, EMPTY);
    }
  }

  /** While a bar is processed: quoted without it until its market event has been handled. */
  ghost predicate MarkedDuring(s: State, bars: seq<Bar>) {
    && |bars| == s.barCount + 1
    && Quoted(s.acct, if Markets(s.queue) > 0 then bars[..s.barCount] else bars)
    && BelowPeak(s)
  }

  lemma QuietMarked(setup: Setup, s: State, bars: seq<Bar>)
    requires MarkedDuring(s, bars) && Sound(s) && |s.queue| > 0
    requires SameMarks(s.acct, Handled(setup, s).acct) && Markets(Handled(setup, s).queue) == Markets(s.queue)
    ensures MarkedDuring(Handled(setup, s), bars)
  {
    hide Insert, InsertSignals, ApplyFill, RiskCheck, SizeOrder, OmsFilled, Lookup, MarkToMarket, Touched, Remembered;
  }

  lemma HandledMarked(setup: Setup, s: State, bars: seq<Bar>)
    requires MarkedDuring(s, bars) && During(setup, s, bars) && Sound(s) && |s.queue| > 0
    ensures MarkedDuring(Handled(setup, s), bars)
  {
    hide Insert, InsertSignals, ApplyFill, RiskCheck, SizeOrder, OmsFilled, Lookup, MarkToMarket, Touched, Remembered,
         Quoted, SameMarks, HistoryIs, OnFeed, Before;
    HandledQueue(setup, s);
    assert s.queue[0] in s.queue;
    match s.queue[0]
    case FillEvent(f) =>
      FillMarks(s.acct, f);
      QuietMarked(setup, s, bars);
    case OrderEvent(o) =>
      CheckMarks(setup.config, o, s.acct, s.halted);
      QuietMarked(setup, s, bars);
    case SignalEvent(sig) =>
      TouchMarks(s.acct, sig.symbol);
      var o := OrderOf(setup, Popped(s), sig);
      if o.Some? { InsertMeasure(s.queue[1..], OrderEvent(o.value)); }
      QuietMarked(setup, s, bars);
    case MarketEvent(bar) =>
      PoppedDuring(setup, s, bars);
      InsertSignalsMeasure(s.queue[1..], SignalsOf(setup, Popped(s), bar));
      MarketMarks(s.acct, bars[..s.barCount], bar);
      assert bars[..s.barCount] + [bar] == bars;
  }

  lemma {:induction false} DrainedMarked(setup: Setup, s: State, bars: seq<Bar>)
    requires MarkedDuring(s, bars) && During(setup, s, bars) && Sound(s)
    ensures MarkedDuring(Drained(setup, s), bars)
    decreases Markets(s.queue), Work(s.queue)
  {
    hide During, Handled, MarkedDuring;
    if |s.queue| > 0 {
      HandledDuring(setup, s, bars);
      HandledMarked(setup, s, bars);
      HandledProgress(setup, s);
      HandledSound(setup, s);
      DrainedMarked(setup, Handled(setup, s), bars);
    }
  }

  /** Between bars: positions stand at the last closes, no equity point above the high-water mark. */
  ghost predicate MarkedBetween(s: State, bars: seq<Bar>) {
    Quoted(s.acct, bars) && BelowPeak(s)
  }

  lemma OpenedMarked(setup: Setup, s: State, bar: Bar, bars: seq<Bar>)
    requires Ready(setup, s) && Between(setup, s, bars) && MarkedBetween(s, bars)
    ensures MarkedDuring(Opened(setup, s, bar), bars + [bar])
  {
    hide SweepN, Insert, Quoted, HistoryIs;
    OpenedKeepsPast(setup, s, bar);
    SweepingDuring(setup, s, bar, bars, |s.pending|);
    InsertMeasure(SweepN(setup, s, bar, |s.pending|).queue, MarketEvent(bar));
    assert (bars + [bar])[..s.barCount] == bars;
  }

  /** After a bar its equity point is the account's value, with every position at its last close. */
  lemma BarMarked(setup: Setup, s: State, bar: Bar, bars: seq<Bar>)
    requires Ready(setup, s) && Between(setup, s, bars) && MarkedBetween(s, bars)
    ensures var r := ProcessBar(setup, s, bar);
            && MarkedBetween(r, bars + [bar]) && |r.equity| == |s.equity| + 1
            && r.equity[|s.equity|] == (bar.timestamp, TotalValue(r.acct))
  {
    hide Opened, Drained, HistoryIs, OnFeed, Quoted, TotalValue, RaisedPeak;
    OpenedDuring(setup, s, bar, bars);
    OpenedSound(setup, s, bar);
    OpenedKeepsPast(setup, s, bar);
    OpenedMarked(setup, s, bar, bars);
    var a := Opened(setup, s, bar);
    DrainedDuring(setup, a, bars + [bar]);
    DrainedMarked(setup, a, bars + [bar]);
    ClosedMarked(Drained(setup, a), bar, bars + [bar]);
  }

  lemma ClosedMarked(s: State, bar: Bar, bars: seq<Bar>)
    requires MarkedDuring(s, bars) && s.queue == []
    ensures MarkedBetween(Closed(s, bar), bars)
  {
    hide Lookup, LastClose, TotalValue;
    RaisedMarks(s.acct);
  }

  lemma {:induction false} RunMarked(setup: Setup, s: State, bars: seq<Bar>, feed: seq<Bar>)
    requires Ready(setup, s) && Between(setup, s, bars) && MarkedBetween(s, bars)
    ensures MarkedBetween(Run(setup, s, feed), bars + Processed(setup, s, feed))
    ensures |Run(setup, s, feed).equity| > |s.equity| ==>
              var r := Run(setup, s, feed); r.equity[|r.equity| - 1].1 == TotalValue(r.acct)
    ensures |Run(setup, s, feed).equity| == |s.equity| ==> Run(setup, s, feed) == s
    decreases |feed|
  {
    hide Between, ProcessBar, MarkedBetween, TotalValue;
    if |feed| == 0 || (!TooEarly(setup, feed[0]) && (TooLate(setup, feed[0]) || s.halted)) {
      assert bars + [] == bars;
    } else if TooEarly(setup, feed[0]) {
      RunMarked(setup, s, bars, feed[1..]);
    } else {
      var r := ProcessBar(setup, s, feed[0]);
      BarBetween(setup, s, feed[0], bars);
      BarMarked(setup, s, feed[0], bars);
      RunMarked(setup, r, bars + [feed[0]], feed[1..]);
      RunBetween(setup, r, bars + [feed[0]], feed[1..]);
      assert bars + ([feed[0]] + Processed(setup, r, feed[1..]))
          == (bars + [feed[0]]) + Processed(setup, r, feed[1..]);
    }
  }

  /** Over every run: each position is valued at the last close of its symbol, the last equity point is
      the account's value, and no equity point lies above the high-water mark. */
  lemma EquityIsMarkedToMarket(setup: Setup, feed: seq<Bar>)
    requires setup.config.maxFillPct > 0.0
    ensures var s, bars := Run(setup, Initial(setup), feed), Processed(setup, Initial(setup), feed);
            && (forall symbol :: Lookup(s.acct, symbol).lastPrice == LastClose(bars, symbol))
            && (forall e :: e in s.equity ==> e.1 <= s.acct.peak)
            && (s.equity != [] ==> s.equity[|s.equity| - 1].1 == TotalValue(s.acct))
  {
    hide Run, Processed, TotalValue, Between;
    InitialBetween(setup);
    assert MarkedBetween(Initial(setup), []);
    RunMarked(setup, Initial(setup), [], feed);
    assert [] + Processed(setup, Initial(setup), feed) == Processed(setup, Initial(setup), feed);
  }

  // ---- the high-water mark ----

  /** The mark is the start capital or an equity point. */
  ghost predicate Attained(setup: Setup, s: State) {
    s.acct.peak == setup.config.initialCapital || exists e :: e in s.equity && e.1 == s.acct.peak
  }

  /** While a bar is processed. Nothing but fills comes before its market event and no fill after it, so that the
      account's value stays what it is from then on, which is what a check may have raised the mark to. */
  ghost predicate Peaking(setup: Setup, s: State) {
    && setup.config.initialCapital <= s.acct.peak
    && (Markets(s.queue) > 0 ==> Attained(setup, s) && forall e :: e in s.queue ==> e.FillEvent? || e.MarketEvent?)
    && (Markets(s.queue) == 0 ==>
          && (Attained(setup, s) || s.acct.peak == TotalValue(s.acct))
          && forall e :: e in s.queue ==> e.SignalEvent? || e.OrderEvent?)
  }

  lemma FillPeaks(setup: Setup, s: State, f: Fill)
    requires Peaking(setup, s) && Sound(s) && |s.queue| > 0 && s.queue[0] == FillEvent(f)
    ensures Peaking(setup, Handled(setup, s))
  {
    hide Bought, Sold, OmsFilled, TotalValue, CashDelta, Put;
    assert s.queue[0] in s.queue;
    assert forall e :: e in s.queue[1..] ==> e in s.queue;
  }

  lemma MarketPeaks(setup: Setup, s: State, bars: seq<Bar>, bar: Bar)
    requires Peaking(setup, s) && During(setup, s, bars) && Sound(s)
    requires |s.queue| > 0 && s.queue[0] == MarketEvent(bar)
    ensures Peaking(setup, Handled(setup, s))
  {
    hide InsertSignals, Remembered, HistoryIs, Before, OnFeed, TotalValue, Put;
    PoppedDuring(setup, s, bars);
    FillsBeforeStrategy(setup, s, bars);
    MarketsMember(s.queue[1..]);
    InsertSignalsMembers(s.queue[1..], SignalsOf(setup, Popped(s), bar));
    InsertSignalsMeasure(s.queue[1..], SignalsOf(setup, Popped(s), bar));
  }

  lemma SignalPeaks(setup: Setup, s: State, sig: Signal)
    requires Peaking(setup, s) && Sound(s) && |s.queue| > 0 && s.queue[0] == SignalEvent(sig)
    ensures Peaking(setup, Handled(setup, s))
  {
    hide Insert, SizeOrder, TotalValue, Put;
    assert s.queue[0] in s.queue;
    HandledQueue(setup, s);
    TouchedWorth(s.acct, sig.symbol);
    var o := OrderOf(setup, Popped(s), sig);
    if o.Some? {
      InsertMembers(s.queue[1..], OrderEvent(o.value));
      InsertMeasure(s.queue[1..], OrderEvent(o.value));
    }
  }

  lemma OrderPeaks(setup: Setup, s: State, o: Order)
    requires Peaking(setup, s) && Sound(s) && |s.queue| > 0 && s.queue[0] == OrderEvent(o)
    ensures Peaking(setup, Handled(setup, s))
  {
    hide RiskCheck, TotalValue, Put, RaisedPeak, Touched;
    assert s.queue[0] in s.queue;
    RiskCheckAccount(setup.config, o, s.acct, s.halted);
    PeakRaised(s.acct);
    PeakOnly(s.acct);
    TouchedWorth(RaisedPeak(s.acct), o.symbol);
    TouchedPeak(RaisedPeak(s.acct), o.symbol);
  }

  lemma TouchedPeak(acct: Account, symbol: string)
    ensures Touched(acct, symbol).peak == acct.peak
  {
  }

  lemma {:induction false} DrainedPeaks(setup: Setup, s: State, bars: seq<Bar>)
    requires Peaking(setup, s) && During(setup, s, bars) && Sound(s)
    ensures Peaking(setup, Drained(setup, s))
    decreases Markets(s.queue), Work(s.queue)
  {
    hide During, Handled, Peaking;
    if |s.queue| > 0 {
      match s.queue[0] {
        case FillEvent(f) => FillPeaks(setup, s, f);
        case MarketEvent(bar) => MarketPeaks(setup, s, bars, bar);
        case SignalEvent(sig) => SignalPeaks(setup, s, sig);
        case OrderEvent(o) => OrderPeaks(setup, s, o);
      }
      HandledDuring(setup, s, bars);
      HandledProgress(setup, s);
      HandledSound(setup, s);
      DrainedPeaks(setup, Handled(setup, s), bars);
    }
  }

  lemma OpenedPeaks(setup: Setup, s: State, bar: Bar, bars: seq<Bar>)
    requires Ready(setup, s) && Between(setup, s, bars)
    requires setup.config.initialCapital <= s.acct.peak && Attained(setup, s)
    ensures Peaking(setup, Opened(setup, s, bar))
  {
    hide SweepN, Insert, HistoryIs;
    OpenedKeepsPast(setup, s, bar);
    SweepingDuring(setup, s, bar, bars, |s.pending|);
    var q := SweepN(setup, s, bar, |s.pending|).queue;
    InsertMembers(q, MarketEvent(bar));
    InsertMeasure(q, MarketEvent(bar));
  }

  lemma ClosedPeaks(setup: Setup, s: State, bar: Bar)
    requires Peaking(setup, s) && s.queue == []
    ensures setup.config.initialCapital <= Closed(s, bar).acct.peak && Attained(setup, Closed(s, bar))
  {
    hide TotalValue, RaisedPeak;
    PeakRaised(s.acct);
    PeakOnly(s.acct);
    var r := Closed(s, bar);
    assert r.equity[|s.equity|] in r.equity;
    if Attained(setup, s) && s.acct.peak != setup.config.initialCapital {
      var e :| e in s.equity && e.1 == s.acct.peak;
      assert e in r.equity;
    }
  }

  lemma {:induction false} RunPeaks(setup: Setup, s: State, bars: seq<Bar>, feed: seq<Bar>)
    requires Ready(setup, s) && Between(setup, s, bars)
    requires setup.config.initialCapital <= s.acct.peak && Attained(setup, s)
    ensures var r := Run(setup, s, feed); setup.config.initialCapital <= r.acct.peak && Attained(setup, r)
    decreases |feed|
  {
    hide Between, Opened, Drained, Closed, Peaking, Attained;
    if |feed| > 0 {
      if TooEarly(setup, feed[0]) {
        RunPeaks(setup, s, bars, feed[1..]);
      } else if !TooLate(setup, feed[0]) && !s.halted {
        var bar := feed[0];
        OpenedSound(setup, s, bar);
        OpenedDuring(setup, s, bar, bars);
        OpenedPeaks(setup, s, bar, bars);
        DrainedPeaks(setup, Opened(setup, s, bar), bars + [bar]);
        ClosedPeaks(setup, Drained(setup, Opened(setup, s, bar)), bar);
        BarBetween(setup, s, bar, bars);
        RunPeaks(setup, ProcessBar(setup, s, bar), bars + [bar], feed[1..]);
      }
    }
  }

  /** Over every run the high-water mark, raised as it is in the middle of bars too, is exactly the largest of the
      start capital and the equity points. */
  lemma PeakIsHighest(setup: Setup, feed: seq<Bar>)
    requires setup.config.maxFillPct > 0.0
    ensures var s, start := Run(setup, Initial(setup), feed), setup.config.initialCapital;
            && start <= s.acct.peak && (forall e :: e in s.equity ==> e.1 <= s.acct.peak)
            && (s.acct.peak == start || exists e :: e in s.equity && e.1 == s.acct.peak)
  {
    hide Run, Between;
    InitialBetween(setup);
    RunPeaks(setup, Initial(setup), [], feed);
    EquityIsMarkedToMarket(setup, feed);
  }
}
