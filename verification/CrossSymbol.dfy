/** Why strict lateness in time needs own-symbol strategies: a run in which a signal for another symbol
    is filled at the very timestamp at which it was given. */
module CrossSymbol {
  import opened Dicts
  import opened Reals
  import opened Sums
  import opened Portfolio
  import opened Backtest
  import opened Conservation
  import opened Timing

  /** On every bar of A, go long B. */
  function CrossSetup(): Setup {
    Setup(Config(None, None, 1000.0, 1.0, 0.1, 1.0, 0.5, 10),
          (h: History, acct: Account, now: int, bar: Bar) =>
            if bar.symbol == "A" then [Signal(bar.timestamp, "B", Long, 1.0, 0)] else [],
          (o: Order, bar: Bar, base: real, quantity: real) => (base, 0.0),
          (t: int) => 0)
  }

  function Flat10(symbol: string, timestamp: int): Bar {
    Bar(symbol, timestamp, 10.0, 10.0, 10.0, 10.0, 0.0)
  }

  /** B quotes once, then A and B quote at the same time, A first. */
  function CrossFeed(): seq<Bar> {
    [Flat10("B", 0), Flat10("A", 1), Flat10("B", 1)]
  }

  /** The state in which the strategy's signals are handled, when nothing was pending. */
  function Marked(setup: Setup, s: State, bar: Bar): State {
    s.(acct := MarkToMarket(s.acct, bar.symbol, bar.close), history := Remembered(setup, s.history, bar))
  }

  lemma MarketFirst(setup: Setup, s: State, bar: Bar)
    requires Ready(setup, s) && s.pending == []
    ensures Sound(Opened(setup, s, bar)) && Opened(setup, s, bar).queue == [MarketEvent(bar)]
    ensures Handled(setup, Opened(setup, s, bar))
         == Marked(setup, s, bar).(queue := InsertSignals([], SignalsOf(setup, s, bar)))
  {
    hide Remembered, MarkToMarket;
    OpenedSound(setup, s, bar);
  }

  /** A bar with nothing pending and no signals only updates marks, history and equity. */
  lemma QuietBar(setup: Setup, s: State, bar: Bar)
    requires Ready(setup, s) && s.pending == [] && SignalsOf(setup, s, bar) == []
    ensures ProcessBar(setup, s, bar) == Closed(Marked(setup, s, bar), bar)
  {
    hide Opened, Closed, Remembered, MarkToMarket;
    MarketFirst(setup, s, bar);
    assert Marked(setup, s, bar).(queue := []) == Marked(setup, s, bar);
    var a := Opened(setup, s, bar);
    HandledSound(setup, a);
    HandledProgress(setup, a);
    assert InsertSignals([], []) == [];
    var b := Handled(setup, a);
    assert b == Marked(setup, s, bar);
    assert Drained(setup, b) == b;
    assert Drained(setup, a) == b;
  }

  lemma {:induction false} OneSignal(sig: Signal)
    ensures InsertSignals([], [sig]) == [SignalEvent(sig)]
  {
    assert [sig][..0] == [];
    assert InsertSignals([], []) == [];
  }

  /** A bar with one signal that is sized and passes the check leaves its order pending. */
  lemma OrderBar(setup: Setup, s: State, bar: Bar, sig: Signal, o: Order)
    requires Ready(setup, s) && s.pending == [] && SignalsOf(setup, s, bar) == [sig]
    requires OrderOf(setup, Marked(setup, s, bar), sig) == Some(o)
    requires RiskCheck(setup.config, o, Touched(Marked(setup, s, bar).acct, sig.symbol), s.halted).passed
    ensures var r := ProcessBar(setup, s, bar);
            && r.pending == [o] && r.barCount == s.barCount + 1 && r.nextFill == s.nextFill
            && r.halted == RiskCheck(setup.config, o, Touched(Marked(setup, s, bar).acct, sig.symbol), s.halted).halted
            && r.oms == s.oms[o.id := OmsOrder(o, Submitted, 0.0, 0.0)]
  {
    hide Opened, Remembered, MarkToMarket, Touched, RiskCheck, SizeOrder, TotalValue, RaisedPeak;
    MarketFirst(setup, s, bar);
    OneSignal(sig);
    var a := Opened(setup, s, bar);
    HandledSound(setup, a);
    HandledProgress(setup, a);
    var b := Handled(setup, a);
    assert b == Marked(setup, s, bar).(queue := [SignalEvent(sig)]);
    HandledSound(setup, b);
    var c := Handled(setup, b);
    assert c.queue == [OrderEvent(o)] && c.acct == Touched(Marked(setup, s, bar).acct, sig.symbol);
    HandledSound(setup, c);
    var d := Handled(setup, c);
    assert d.queue == [] && d.pending == [o] && d.oms == s.oms[o.id := OmsOrder(o, Submitted, 0.0, 0.0)];
    assert Drained(setup, d) == d;
    assert Drained(setup, c) == d;
    assert Drained(setup, b) == d;
    assert Drained(setup, a) == d;
  }

  lemma InsertSecond(a: Event, b: Event)
    requires !Before(b, a)
    ensures Insert([a], b) == [a, b]
  {
    assert Insert([a], b) == [a] + Insert([a][1..], b);
  }

  /** A pending order met by a bar of its symbol is among the run's fills after the bar. */
  lemma FillBar(setup: Setup, s: State, bar: Bar, o: Order, f: Fill)
    requires Ready(setup, s) && s.pending == [o] && o.symbol == bar.symbol
    requires TryFill(setup, o, bar, s.nextFill, s.barCount) == Some(f) && o.id in s.oms
    requires forall h, acct, now :: setup.strategy(h, acct, now, bar) == []
    ensures var r := ProcessBar(setup, s, bar);
            f in r.fills && o.id in r.oms && r.oms[o.id].order == s.oms[o.id].order
  {
    hide ApplyFill, TryFill, TotalValue, RaisedPeak;
    OpenedSound(setup, s, bar);
    FillPositive(setup, o, bar, s.nextFill, s.barCount);
    var a := Opened(setup, s, bar);
    assert SweepN(setup, s, bar, 0) == Sweep([], [], s.nextFill);
    assert SweepN(setup, s, bar, 1) == SweepOrder(setup, Sweep([], [], s.nextFill), o, bar, s.barCount);
    assert Insert([], FillEvent(f)) == [FillEvent(f)];
    assert SweepN(setup, s, bar, 1).queue == [FillEvent(f)];
    assert !Before(MarketEvent(bar), FillEvent(f));
    InsertSecond(FillEvent(f), MarketEvent(bar));
    assert a.queue == [FillEvent(f), MarketEvent(bar)];
    HandledSound(setup, a);
    HandledProgress(setup, a);
    var b := Handled(setup, a);
    assert b.fills == s.fills + [f];
    assert f == b.fills[|s.fills|];
    HandledProgress(setup, b);
    HandledSound(setup, b);
    assert InsertSignals([], []) == [];
    var c := Handled(setup, b);
    assert c.queue == [] && c.fills == b.fills && c.oms == b.oms;
    assert Drained(setup, c) == c;
    assert Drained(setup, b) == c;
    assert Drained(setup, a) == c;
  }

  // ---- the run ----

  function B0(): Bar { Flat10("B", 0) }
  function A1(): Bar { Flat10("A", 1) }
  function B1(): Bar { Flat10("B", 1) }

  function First(): State
    ensures Ready(CrossSetup(), First())
  {
    ProcessBar(CrossSetup(), Initial(CrossSetup()), B0())
  }

  function TheSignal(): Signal { Signal(1, "B", Long, 1.0, 0) }

  function TheOrder(): Order { Order(1, "B", MarketOrder, Buy, 10.0, None, None, 0, 1) }

  function TheFill(): Fill { Fill(1, "B", Buy, 10.0, 10.0, 0.0, 0, 0, 2) }

  lemma AfterFirst()
    ensures var s := First();
            && s.pending == [] && s.barCount == 1 && s.nextFill == 0 && s.nextOrder == 0 && !s.halted && s.oms == map[]
            && s.acct == Account(1000.0, [("B", Position(0.0, 0.0, 0.0, 10.0))], 1000.0)
  {
    hide ProcessBar, Remembered, Drained, MarkToMarket, RaisedPeak, TotalValue;
    QuietBar(CrossSetup(), Initial(CrossSetup()), B0());
    MarkFirst();
  }

  lemma MarkFirst()
    ensures var acct := Account(1000.0, [("B", Position(0.0, 0.0, 0.0, 10.0))], 1000.0);
            MarkToMarket(Initial(CrossSetup()).acct, "B", 10.0) == acct && RaisedPeak(acct) == acct
  {
    var ps := [("B", Position(0.0, 0.0, 0.0, 10.0))];
    assert ps[1..] == [];
    assert MarketValue(ps[0].1) == 0.0;
    assert SumOver(ps, ValueOf()) == 0.0;
  }

  /** Nothing is held, so the account is worth its cash. */
  function MarkedAccount(): Account {
    Account(1000.0, [("B", Position(0.0, 0.0, 0.0, 10.0)), ("A", Position(0.0, 0.0, 0.0, 10.0))], 1000.0)
  }

  lemma AccountMarked()
    ensures MarkToMarket(Account(1000.0, [("B", Position(0.0, 0.0, 0.0, 10.0))], 1000.0), "A", 10.0) == MarkedAccount()
    ensures Touched(MarkedAccount(), "B") == MarkedAccount()
    ensures Lookup(MarkedAccount(), "B").lastPrice == 10.0 && Lookup(MarkedAccount(), "B").quantity == 0.0
  {
    var one := [("B", Position(0.0, 0.0, 0.0, 10.0))];
    Entries("B", "A", one[0].1, EMPTY.(lastPrice := 10.0));
  }

  lemma Entries(a: string, b: string, p: Position, q: Position)
    requires a != b
    ensures Get([(a, p)], b, EMPTY) == EMPTY && Put([(a, p)], b, q) == [(a, p), (b, q)]
    ensures Get([(a, p), (b, q)], a, EMPTY) == p && Put([(a, p), (b, q)], a, p) == [(a, p), (b, q)]
  {
    var one, two := [(a, p)], [(a, p), (b, q)];
    assert one[1..] == [];
    assert IndexOf(one, b) == 1;
    assert two[0] == (a, p);
    assert IndexOf(two, a) == 0;
    assert two[0 := two[0]] == two;
  }

  lemma AccountWorth()
    ensures TotalValue(MarkedAccount()) == 1000.0 && GrossExposure(MarkedAccount()) == 0.0
  {
    var ps := MarkedAccount().positions;
    WorthOfTwo(ps, ValueOf());
    WorthOfTwo(ps, ExposureOf());
    hide SumOver;
    NothingHeldWorth(ps[0]);
    NothingHeldWorth(ps[1]);
  }

  lemma WorthOfTwo(ps: Dict<Position>, f: ((string, Position)) -> real)
    requires |ps| == 2
    ensures SumOver(ps, f) == f(ps[0]) + f(ps[1])
  {
    var rest := ps[1..];
    assert rest[1..] == [];
    assert SumOver(rest[1..], f) == 0.0;
    assert rest[0] == ps[1];
    assert SumOver(rest, f) == f(ps[1]) + SumOver(rest[1..], f);
  }

  lemma NothingHeldWorth(e: (string, Position))
    requires e.1.quantity == 0.0
    ensures ValueOf()(e) == 0.0 && ExposureOf()(e) == 0.0
  {
    TimesZero(e.1.lastPrice);
  }

  lemma OrderIsSized()
    ensures OrderOf(CrossSetup(), Marked(CrossSetup(), First(), A1()), TheSignal()) == Some(TheOrder())
    ensures var c := RiskCheck(CrossSetup().config, TheOrder(), MarkedAccount(), false); c.passed && !c.halted
    ensures Marked(CrossSetup(), First(), A1()).acct == MarkedAccount()
  {
    hide First, MarkToMarket, Touched, TotalValue, GrossExposure, Lookup, Remembered, MarkedAccount;
    AfterFirst();
    AccountMarked();
    AccountWorth();
    assert 1000.0 * 0.1 * 1.0 / 10.0 == 10.0;
    assert Times(10.0, 10.0) == 100.0;
    assert Trunc(10.0) == 10;
    assert RaisedPeak(MarkedAccount()) == MarkedAccount() by { PeakStands(); }
    assert MarkedAccount().peak == 1000.0 by { PeakStands(); }
  }

  lemma PeakStands()
    ensures RaisedPeak(MarkedAccount()) == MarkedAccount() && MarkedAccount().peak == 1000.0
  {
    AccountWorth();
  }

  function Second(): State
    ensures Ready(CrossSetup(), Second())
  {
    ProcessBar(CrossSetup(), First(), A1())
  }

  lemma AfterSecond()
    ensures var s := Second();
            && s.pending == [TheOrder()] && s.barCount == 2 && s.nextFill == 0 && !s.halted
            && s.oms == map[0 := OmsOrder(TheOrder(), Submitted, 0.0, 0.0)]
  {
    hide ProcessBar, RiskCheck, Marked, SizeOrder, Touched, First;
    var setup, s := CrossSetup(), First();
    AfterFirst();
    OrderIsSized();
    AccountMarked();
    OrderBar(setup, s, A1(), TheSignal(), TheOrder());
  }

  lemma FirstIs()
    ensures First() == ProcessBar(CrossSetup(), Initial(CrossSetup()), B0())
  {
  }

  /** The fill of an order is from a bar with the same timestamp as the bar the order was created on:
      strictly later in the feed, not strictly later in time. */
  lemma SameTimestampExecution()
    ensures var setup, feed := CrossSetup(), CrossFeed();
            var s, bars := Run(setup, Initial(setup), feed), Processed(setup, Initial(setup), feed);
            && StrictPerSymbol(feed) && bars == feed && TheFill() in s.fills
            && Accepted(s.oms, TheFill().orderId) && s.oms[TheFill().orderId].order.bar == 1
            && bars[1].timestamp == TheFill().timestamp
  {
    hide ProcessBar, Run, Processed, Accepted;
    var setup := CrossSetup();
    AfterFirst();
    AfterSecond();
    FillBar(setup, Second(), B1(), TheOrder(), TheFill());
    FirstIs();
    ThreeBars(setup, Initial(setup), B0(), A1(), B1());
    NoSameBarExecution(setup, CrossFeed(), TheFill());
    var s := Run(setup, Initial(setup), CrossFeed());
    assert s == ProcessBar(setup, Second(), B1());
  }

  /** A feed of three in-range bars, none of which halts the run. */
  lemma ThreeBars(setup: Setup, s: State, a: Bar, b: Bar, c: Bar)
    requires Ready(setup, s) && !s.halted && setup.config.start.None? && setup.config.end.None?
    requires !ProcessBar(setup, s, a).halted && !ProcessBar(setup, ProcessBar(setup, s, a), b).halted
    ensures Run(setup, s, [a, b, c])
         == ProcessBar(setup, ProcessBar(setup, ProcessBar(setup, s, a), b), c)
    ensures Processed(setup, s, [a, b, c]) == [a, b, c]
  {
    hide ProcessBar;
    var t := ProcessBar(setup, s, a);
    var u := ProcessBar(setup, t, b);
    var v := ProcessBar(setup, u, c);
    assert [a, b, c][1..] == [b, c] && [b, c][1..] == [c] && [c][1..] == [];
    assert Run(setup, u, [c]) == v && Processed(setup, u, [c]) == [c];
    assert Run(setup, t, [b, c]) == v && Processed(setup, t, [b, c]) == [b, c];
  }
}
