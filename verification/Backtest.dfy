/** The event-driven backtest as a state machine: the bar sweep over pending orders, the within-bar
    event queue, the four event handlers and the bar loop, as functions on the engine's state. */
module Backtest {
  import opened Dicts
  import opened Reals
  import opened Portfolio

  // ---- events ----

  datatype Direction = Long | Short | Flat

  datatype OrderType = MarketOrder | LimitOrder | StopOrder

  datatype Bar = Bar(symbol: string, timestamp: int, open: real, high: real, low: real, close: real, volume: real)

  datatype Signal = Signal(timestamp: int, symbol: string, direction: Direction, strength: real, seqNo: int)

  /** `bar` is the number of the bar during which the order was created; it is bookkeeping of the model. */
  datatype Order = Order(
    timestamp: int, symbol: string, orderType: OrderType, side: Side, quantity: real,
    limitPrice: Option<real>, stopPrice: Option<real>, id: nat, bar: nat)

  datatype Event =
    | FillEvent(fill: Fill)
    | MarketEvent(bar: Bar)
    | SignalEvent(signal: Signal)
    | OrderEvent(order: Order)

  /** Within a timestamp: fills, then market data, then signals, then orders. */
  function Rank(e: Event): nat {
    match e
    case FillEvent(_) => 1
    case MarketEvent(_) => 2
    case SignalEvent(_) => 3
    case OrderEvent(_) => 4
  }

  function Time(e: Event): int {
    match e
    case FillEvent(f) => f.timestamp
    case MarketEvent(b) => b.timestamp
    case SignalEvent(s) => s.timestamp
    case OrderEvent(o) => o.timestamp
  }

  /** Creation number; it only ever decides between events of the same kind. */
  function SeqNo(e: Event): int {
    match e
    case FillEvent(f) => f.seqNo
    case MarketEvent(_) => 0
    case SignalEvent(s) => s.seqNo
    case OrderEvent(o) => o.id
  }

  predicate Before(a: Event, b: Event) {
    Time(a) < Time(b)
    || (Time(a) == Time(b) && (Rank(a) < Rank(b) || (Rank(a) == Rank(b) && SeqNo(a) < SeqNo(b))))
  }

  // ---- the queue: kept in the order in which it will be popped ----

  type Queue = seq<Event>

  function Insert(q: Queue, e: Event): (r: Queue)
    ensures multiset(r) == multiset(q) + multiset{e}
    ensures |r| == |q| + 1
  {
    if |q| == 0 || Before(e, q[0]) then [e] + q
    else
      assert q == [q[0]] + q[1..];
      [q[0]] + Insert(q[1..], e)
  }

  function InsertSignals(q: Queue, signals: seq<Signal>): Queue
    decreases |signals|
  {
    if |signals| == 0 then q
    else Insert(InsertSignals(q, signals[..|signals| - 1]), SignalEvent(signals[|signals| - 1]))
  }

  // ---- the order-management record ----

  datatype Status = Submitted | Partial | Filled | Rejected

  datatype OmsOrder = OmsOrder(order: Order, status: Status, filled: real, avgPrice: real)

  type Oms = map<nat, OmsOrder>

  function OmsFilled(oms: Oms, f: Fill): Oms
  {
    if f.orderId !in oms then oms
    else
      var o := oms[f.orderId];
      var filled := o.filled + f.quantity;
      if filled == 0.0 then oms
      else
        oms[f.orderId := o.(
              filled := filled,
              avgPrice := (Times(o.avgPrice, o.filled) + Times(f.price, f.quantity)) / filled,
              status := if filled >= o.order.quantity then Filled else Partial)]
  }

  // ---- the engine ----

  type History = Dict<seq<Bar>>

  datatype Config = Config(
    start: Option<int>, end: Option<int>, initialCapital: real, maxFillPct: real,
    maxPositionPct: real, maxGrossLeverage: real, maxDrawdownHalt: real, maxHistory: nat)

  /** The run's fixed parts: configuration, the strategy (a function of what it is shown), the cost
      model (fill price and commission of a quantity at a base price) and the calendar. */
  datatype Setup = Setup(
    config: Config,
    strategy: (History, Account, int, Bar) -> seq<Signal>,
    costs: (Order, Bar, real, real) -> (real, real),
    day: int -> int)

  datatype State = State(
    acct: Account, halted: bool, oms: Oms, queue: Queue, pending: seq<Order>, history: History,
    equity: seq<(int, real)>, fills: seq<Fill>, barCount: nat, nextOrder: nat, nextFill: nat)

  function Initial(setup: Setup): State {
    State(Account(setup.config.initialCapital, [], setup.config.initialCapital), false, map[], [], [],
          [], [], [], 0, 0, 0)
  }

  // ---- filling pending orders at the open ----

  /** The price an order would trade at before costs, if this bar lets it trade at all. */
  function BasePrice(o: Order, bar: Bar): Option<real> {
    var buy := o.side == Buy;
    match o.orderType
    case MarketOrder => Some(bar.open)
    case LimitOrder =>
      if o.limitPrice.None? then None
      else
        var lp := o.limitPrice.value;
        if buy && bar.low <= lp then Some(if bar.open < lp then bar.open else lp)
        else if !buy && bar.high >= lp then Some(if bar.open > lp then bar.open else lp)
        else None
    case StopOrder =>
      if o.stopPrice.None? then None
      else
        var sp := o.stopPrice.value;
        if buy && bar.high >= sp then Some(if bar.open > sp then bar.open else sp)
        else if !buy && bar.low <= sp then Some(if bar.open < sp then bar.open else sp)
        else None
  }

  /** At most a share of the bar's volume; at most 100 on a bar without volume. */
  function FillQuantity(quantity: real, volume: real, maxFillPct: real): real {
    var most := if volume <= 0.0 then 100.0 else Times(volume, maxFillPct);
    if quantity < most then quantity else most
  }

  function TryFill(setup: Setup, o: Order, bar: Bar, seqNo: nat, barNo: nat): Option<Fill> {
    match BasePrice(o, bar)
    case None => None
    case Some(base) =>
      var quantity := FillQuantity(o.quantity, bar.volume, setup.config.maxFillPct);
      var (price, commission) := setup.costs(o, bar, base, quantity);
      Some(Fill(bar.timestamp, bar.symbol, o.side, quantity, price, commission, o.id, seqNo, barNo))
  }

  /** What the sweep has produced: queued fills, orders still pending, and the next fill number. */
  datatype Sweep = Sweep(queue: Queue, still: seq<Order>, nextFill: nat)

  /** One pending order met by a bar. */
  function SweepOrder(setup: Setup, sw: Sweep, o: Order, bar: Bar, barNo: nat): Sweep {
    if o.symbol != bar.symbol then sw.(still := sw.still + [o])
    else
      match TryFill(setup, o, bar, sw.nextFill, barNo)
      case None => sw.(still := sw.still + [o])
      case Some(f) =>
        Sweep(Insert(sw.queue, FillEvent(f)),
              if f.quantity < o.quantity then sw.still + [o.(quantity := o.quantity - f.quantity)] else sw.still,
              sw.nextFill + 1)
  }

  function SweepN(setup: Setup, s: State, bar: Bar, n: nat): Sweep
    requires n <= |s.pending|
  {
    if n == 0 then Sweep(s.queue, [], s.nextFill)
    else SweepOrder(setup, SweepN(setup, s, bar, n - 1), s.pending[n - 1], bar, s.barCount)
  }

  /** The state in which the queue is drained: pending orders swept, market event queued. */
  function Opened(setup: Setup, s: State, bar: Bar): State {
    var sw := SweepN(setup, s, bar, |s.pending|);
    s.(queue := Insert(sw.queue, MarketEvent(bar)), pending := sw.still, nextFill := sw.nextFill)
  }

  // ---- sizing and risk ----

  /** The position a signal asks for. */
  function TargetQuantity(cfg: Config, acct: Account, sig: Signal, price: real): real
    requires price > 0.0
  {
    if sig.direction == Flat then 0.0
    else
      var value := Times(Times(TotalValue(acct), cfg.maxPositionPct), sig.strength);
      Trunc((if sig.direction == Short then -value else value) / price) as real
  }

  /** At most one market order, for the signal's symbol, closing the gap to the target. */
  function SizeOrder(cfg: Config, acct: Account, sig: Signal, id: nat, barNo: nat): (r: Option<Order>)
    ensures r.Some? ==> r.value.quantity > 0.0 && r.value.symbol == sig.symbol
                        && r.value.id == id && r.value.bar == barNo && r.value.orderType == MarketOrder
  {
    var pos := Lookup(acct, sig.symbol);
    if pos.lastPrice <= 0.0 then None
    else
      var delta := TargetQuantity(cfg, acct, sig, pos.lastPrice) - pos.quantity;
      if delta == 0.0 then None
      else Some(Order(sig.timestamp, sig.symbol, MarketOrder, if delta > 0.0 then Buy else Sell,
                      Abs(delta), None, None, id, barNo))
  }

  datatype Checked = Checked(passed: bool, halted: bool, acct: Account)

  /** An order against the position held: it is let through whatever its size. */
  predicate Closing(o: Order, held: real) {
    (o.side == Sell && held > 0.0) || (o.side == Buy && held < 0.0)
  }

  /** The pre-trade check. Reading the drawdown raises the high-water mark. */
  function RiskCheck(cfg: Config, o: Order, acct: Account, halted: bool): Checked {
    if halted then Checked(false, true, acct)
    else
      var a := RaisedPeak(acct);
      if Drawdown(a) < -cfg.maxDrawdownHalt then Checked(false, true, a)
      else
        var held, b := Lookup(a, o.symbol), Touched(a, o.symbol);
        var price, nav := held.lastPrice, TotalValue(b);
        var value := Times(o.quantity, price);
        if !Closing(o, held.quantity) && price > 0.0 && nav > 0.0 && value / nav > cfg.maxPositionPct * 2.0
        then Checked(false, false, b)
        else if o.side == Buy && price > 0.0
                && (GrossExposure(b) + value) / (if nav > 1.0 then nav else 1.0) > cfg.maxGrossLeverage
        then Checked(false, false, b)
        else Checked(true, false, b)
  }

  // ---- the handlers ----

  /** A bounded deque: appending beyond the bound drops from the left. */
  function LastN(bars: seq<Bar>, n: nat): (r: seq<Bar>)
    ensures |r| <= n
  {
    if |bars| <= n then bars else bars[|bars| - n..]
  }

  function Remembered(setup: Setup, h: History, bar: Bar): History {
    Put(h, bar.symbol, LastN(Get(h, bar.symbol, []) + [bar], setup.config.maxHistory))
  }

  function OnFill(s: State, f: Fill): State
    requires f.quantity > 0.0
  {
    s.(acct := ApplyFill(s.acct, f), oms := OmsFilled(s.oms, f), fills := s.fills + [f])
  }

  function OnMarket(setup: Setup, s: State, bar: Bar): State {
    var acct, history := MarkToMarket(s.acct, bar.symbol, bar.close), Remembered(setup, s.history, bar);
    s.(acct := acct, history := history,
       queue := InsertSignals(s.queue, setup.strategy(history, acct, bar.timestamp, bar)))
  }

  function OnSignal(setup: Setup, s: State, sig: Signal): State {
    var acct := Touched(s.acct, sig.symbol);
    match SizeOrder(setup.config, acct, sig, s.nextOrder, s.barCount)
    case None => s.(acct := acct)
    case Some(o) => s.(acct := acct, queue := Insert(s.queue, OrderEvent(o)), nextOrder := s.nextOrder + 1)
  }

  function OnOrder(setup: Setup, s: State, o: Order): State {
    var c := RiskCheck(setup.config, o, s.acct, s.halted);
    var record := OmsOrder(o, if c.passed then Submitted else Rejected, 0.0, 0.0);
    s.(acct := c.acct, halted := c.halted, oms := s.oms[o.id := record],
       pending := if c.passed then s.pending + [o] else s.pending)
  }

  // ---- draining ----

  /** Every queued fill and every queued or pending order has a positive quantity; the account refuses
      fills that do not. */
  ghost predicate Sound(s: State) {
    && (forall e :: e in s.queue && e.FillEvent? ==> e.fill.quantity > 0.0)
    && (forall e :: e in s.queue && e.OrderEvent? ==> e.order.quantity > 0.0)
    && (forall o :: o in s.pending ==> o.quantity > 0.0)
  }

  function Markets(q: Queue): nat {
    if |q| == 0 then 0 else (if q[0].MarketEvent? then 1 else 0) + Markets(q[1..])
  }

  /** A signal may still turn into an order, so it weighs more. */
  function Work(q: Queue): nat {
    if |q| == 0 then 0 else (if q[0].SignalEvent? then 2 else 1) + Work(q[1..])
  }

  lemma {:induction false} InsertMeasure(q: Queue, e: Event)
    ensures Markets(Insert(q, e)) == Markets(q) + if e.MarketEvent? then 1 else 0
    ensures Work(Insert(q, e)) == Work(q) + if e.SignalEvent? then 2 else 1
  {
    if |q| > 0 && !Before(e, q[0]) { InsertMeasure(q[1..], e); }
  }

  lemma {:induction false} InsertSignalsMeasure(q: Queue, signals: seq<Signal>)
    ensures Markets(InsertSignals(q, signals)) == Markets(q)
    decreases |signals|
  {
    if |signals| > 0 {
      InsertSignalsMeasure(q, signals[..|signals| - 1]);
      InsertMeasure(InsertSignals(q, signals[..|signals| - 1]), SignalEvent(signals[|signals| - 1]));
    }
  }

  lemma {:induction false} InsertSignalsMembers(q: Queue, signals: seq<Signal>)
    ensures forall e :: e in InsertSignals(q, signals) <==> e in q || (e.SignalEvent? && e.signal in signals)
    decreases |signals|
  {
    if |signals| > 0 {
      var front, last := signals[..|signals| - 1], signals[|signals| - 1];
      assert signals == front + [last];
      InsertSignalsMembers(q, front);
      InsertMembers(InsertSignals(q, front), SignalEvent(last));
    }
  }

  lemma InsertMembers(q: Queue, e: Event)
    ensures forall x :: x in Insert(q, e) <==> x == e || x in q
  {
    var r := Insert(q, e);
    forall x ensures x in r <==> x == e || x in q {
      assert x in r <==> x in multiset(r);
      assert x in q <==> x in multiset(q);
    }
  }

  /** The state with its first event taken off the queue. */
  function Popped(s: State): State
    requires |s.queue| > 0
  {
    s.(queue := s.queue[1..])
  }

  /** Handle the first event of the queue. */
  function Handled(setup: Setup, s: State): State
    requires |s.queue| > 0 && Sound(s)
  {
    match s.queue[0]
    case FillEvent(f) => OnFill(Popped(s), f)
    case MarketEvent(bar) => OnMarket(setup, Popped(s), bar)
    case SignalEvent(sig) => OnSignal(setup, Popped(s), sig)
    case OrderEvent(o) => OnOrder(setup, Popped(s), o)
  }

  /** The signals a market event leads to. */
  function SignalsOf(setup: Setup, s: State, bar: Bar): seq<Signal> {
    setup.strategy(Remembered(setup, s.history, bar), MarkToMarket(s.acct, bar.symbol, bar.close),
                   bar.timestamp, bar)
  }

  /** The order a signal leads to, if any. */
  function OrderOf(setup: Setup, s: State, sig: Signal): (r: Option<Order>)
    ensures r.Some? ==> r.value.quantity > 0.0 && r.value.symbol == sig.symbol
                        && r.value.id == s.nextOrder && r.value.bar == s.barCount
                        && r.value.orderType == MarketOrder
  {
    SizeOrder(setup.config, Touched(s.acct, sig.symbol), sig, s.nextOrder, s.barCount)
  }

  /** Which events are queued after one has been handled. */
  lemma HandledQueue(setup: Setup, s: State)
    requires |s.queue| > 0 && Sound(s)
    ensures var q, rest := Handled(setup, s).queue, s.queue[1..];
            match s.queue[0]
            case FillEvent(_) => q == rest
            case OrderEvent(_) => q == rest
            case MarketEvent(bar) => q == InsertSignals(rest, SignalsOf(setup, Popped(s), bar))
            case SignalEvent(sig) =>
              var o := OrderOf(setup, Popped(s), sig);
              q == if o.Some? then Insert(rest, OrderEvent(o.value)) else rest
  {
  }

  lemma HandledSound(setup: Setup, s: State)
    requires |s.queue| > 0 && Sound(s)
    ensures Sound(Handled(setup, s))
  {
    hide Insert, InsertSignals, SizeOrder, RiskCheck, OrderOf, OmsFilled, ApplyFill, Remembered;
    HandledQueue(setup, s);
    match s.queue[0] {
      case FillEvent(f) =>
      case MarketEvent(bar) => InsertSignalsMembers(s.queue[1..], SignalsOf(setup, Popped(s), bar));
      case SignalEvent(sig) =>
        var o := OrderOf(setup, Popped(s), sig);
        if o.Some? { InsertMembers(s.queue[1..], OrderEvent(o.value)); }
      case OrderEvent(o) =>
    }
  }

  /** Handling makes progress: market events only go down, and without one the work does. */
  lemma HandledProgress(setup: Setup, s: State)
    requires |s.queue| > 0 && Sound(s)
    ensures var q := Handled(setup, s).queue;
            Markets(q) < Markets(s.queue) || (Markets(q) == Markets(s.queue) && Work(q) < Work(s.queue))
  {
    HandledQueue(setup, s);
    match s.queue[0] {
      case FillEvent(f) =>
      case MarketEvent(bar) => InsertSignalsMeasure(s.queue[1..], SignalsOf(setup, Popped(s), bar));
      case SignalEvent(sig) =>
        var o := OrderOf(setup, Popped(s), sig);
        if o.Some? { InsertMeasure(s.queue[1..], OrderEvent(o.value)); }
      case OrderEvent(o) =>
    }
  }

  /** Pop and handle until the queue is empty; it always becomes empty. */
  function Drained(setup: Setup, s: State): (r: State)
    requires Sound(s)
    ensures r.queue == [] && Sound(r)
    decreases Markets(s.queue), Work(s.queue)
  {
    if |s.queue| == 0 then s
    else
      HandledProgress(setup, s);
      HandledSound(setup, s);
      Drained(setup, Handled(setup, s))
  }

  // ---- one bar, and the run ----

  /** Between bars: nothing queued, nothing unsound pending, and a fill share that trades. */
  ghost predicate Ready(setup: Setup, s: State) {
    setup.config.maxFillPct > 0.0 && s.queue == [] && Sound(s)
  }

  /** The sweep after n pending orders, as a state: swept orders first, the rest behind them. */
  function Sweeping(setup: Setup, s: State, bar: Bar, n: nat): State
    requires n <= |s.pending|
  {
    var sw := SweepN(setup, s, bar, n);
    s.(queue := sw.queue, pending := sw.still + s.pending[n..], nextFill := sw.nextFill)
  }

  lemma FillPositive(setup: Setup, o: Order, bar: Bar, seqNo: nat, barNo: nat)
    requires setup.config.maxFillPct > 0.0 && o.quantity > 0.0
    ensures var f := TryFill(setup, o, bar, seqNo, barNo);
            f.Some? ==> 0.0 < f.value.quantity <= o.quantity && f.value.orderId == o.id
                        && f.value.symbol == bar.symbol && f.value.timestamp == bar.timestamp
                        && f.value.side == o.side && f.value.seqNo == seqNo && f.value.bar == barNo
  {
    if bar.volume > 0.0 { var r := PositiveProduct(bar.volume, setup.config.maxFillPct); }
  }

  lemma {:induction false} SweepingSound(setup: Setup, s: State, bar: Bar, n: nat)
    requires Ready(setup, s) && n <= |s.pending|
    ensures Sound(Sweeping(setup, s, bar, n))
  {
    if n > 0 {
      SweepingSound(setup, s, bar, n - 1);
      var sw, o := SweepN(setup, s, bar, n - 1), s.pending[n - 1];
      assert s.pending[n - 1..] == [o] + s.pending[n..];
      FillPositive(setup, o, bar, sw.nextFill, s.barCount);
      var f := TryFill(setup, o, bar, sw.nextFill, s.barCount);
      if o.symbol == bar.symbol && f.Some? { InsertMembers(sw.queue, FillEvent(f.value)); }
    }
  }

  lemma OpenedSound(setup: Setup, s: State, bar: Bar)
    requires Ready(setup, s)
    ensures Sound(Opened(setup, s, bar))
  {
    SweepingSound(setup, s, bar, |s.pending|);
    var sw := SweepN(setup, s, bar, |s.pending|);
    assert Sweeping(setup, s, bar, |s.pending|).pending == sw.still;
    InsertMembers(sw.queue, MarketEvent(bar));
  }

  function Closed(s: State, bar: Bar): State {
    var acct := RaisedPeak(s.acct);
    s.(acct := acct, equity := s.equity + [(bar.timestamp, TotalValue(acct))], barCount := s.barCount + 1)
  }

  function ProcessBar(setup: Setup, s: State, bar: Bar): (r: State)
    requires Ready(setup, s)
    ensures Ready(setup, r)
  {
    OpenedSound(setup, s, bar);
    Closed(Drained(setup, Opened(setup, s, bar)), bar)
  }

  predicate TooEarly(setup: Setup, bar: Bar) {
    setup.config.start.Some? && setup.day(bar.timestamp) < setup.config.start.value
  }

  predicate TooLate(setup: Setup, bar: Bar) {
    setup.config.end.Some? && setup.day(bar.timestamp) > setup.config.end.value
  }

  /** The bar loop: skip early bars, stop at the first late bar or once the risk engine has halted. */
  function Run(setup: Setup, s: State, feed: seq<Bar>): (r: State)
    requires Ready(setup, s)
    ensures Ready(setup, r)
    decreases |feed|
  {
    if |feed| == 0 then s
    else if TooEarly(setup, feed[0]) then Run(setup, s, feed[1..])
    else if TooLate(setup, feed[0]) || s.halted then s
    else Run(setup, ProcessBar(setup, s, feed[0]), feed[1..])
  }

  /** The bars that the loop processes, in order. */
  function Processed(setup: Setup, s: State, feed: seq<Bar>): seq<Bar>
    requires Ready(setup, s)
    decreases |feed|
  {
    if |feed| == 0 then []
    else if TooEarly(setup, feed[0]) then Processed(setup, s, feed[1..])
    else if TooLate(setup, feed[0]) || s.halted then []
    else [feed[0]] + Processed(setup, ProcessBar(setup, s, feed[0]), feed[1..])
  }

  // ---- what the simulator, the sizing and the risk check promise ----

  /** The smaller of two prices, and the larger. */
  predicate Smaller(p: real, x: real, y: real) {
    p <= x && p <= y && (p == x || p == y)
  }

  predicate Larger(p: real, x: real, y: real) {
    p >= x && p >= y && (p == x || p == y)
  }

  /** An order trades on a bar exactly when the bar's range reaches its limit or stop. A market order trades at
      the open, a limit order at the better of open and limit, a stop order at the worse of open and stop. On a
      bar whose open is in its range the price is in it too. */
  lemma BasePriceSound(o: Order, bar: Bar)
    ensures var p, buy := BasePrice(o, bar), o.side == Buy;
            && (p.Some? <==>
                  match o.orderType
                  case MarketOrder => true
                  case LimitOrder =>
                    o.limitPrice.Some? && if buy then bar.low <= o.limitPrice.value
                                          else bar.high >= o.limitPrice.value
                  case StopOrder =>
                    o.stopPrice.Some? && if buy then bar.high >= o.stopPrice.value
                                         else bar.low <= o.stopPrice.value)
            && (p.Some? ==>
                  match o.orderType
                  case MarketOrder => p.value == bar.open
                  case LimitOrder =>
                    if buy then Smaller(p.value, bar.open, o.limitPrice.value)
                    else Larger(p.value, bar.open, o.limitPrice.value)
                  case StopOrder =>
                    if buy then Larger(p.value, bar.open, o.stopPrice.value)
                    else Smaller(p.value, bar.open, o.stopPrice.value))
            && (p.Some? && bar.low <= bar.open <= bar.high ==> bar.low <= p.value <= bar.high)
  {
  }

  /** A fill takes the whole order or, if that is less, the allowed share of the bar's volume: 100 without any. */
  lemma FillQuantityIs(quantity: real, volume: real, maxFillPct: real)
    ensures var q := FillQuantity(quantity, volume, maxFillPct);
            Smaller(q, quantity, if volume > 0.0 then Times(volume, maxFillPct) else 100.0)
  {
  }

  /** The target of a signal: none when flat; otherwise the largest whole number of shares worth no more than
      the allotted part of the account, long or short as the signal says. */
  lemma TargetIs(cfg: Config, acct: Account, sig: Signal, price: real)
    requires price > 0.0
    ensures var q := TargetQuantity(cfg, acct, sig, price);
            var money := Times(Times(TotalValue(acct), cfg.maxPositionPct), sig.strength);
            && (sig.direction == Flat ==> q == 0.0)
            && (sig.direction != Flat ==>
                  && q == q.Floor as real
                  && Times(Abs(q), price) <= Abs(money) < Times(Abs(q) + 1.0, price)
                  && if (sig.direction == Long) == (money >= 0.0) then q >= 0.0 else q <= 0.0)
  {
    hide TotalValue, Times;
    if sig.direction != Flat {
      var money := Times(Times(TotalValue(acct), cfg.maxPositionPct), sig.strength);
      TruncatedWorth(if sig.direction == Short then -money else money, price);
    }
  }

  lemma TruncatedWorth(money: real, price: real)
    requires price > 0.0
    ensures var q := Trunc(money / price) as real;
            && q == q.Floor as real && (money >= 0.0 ==> q >= 0.0) && (money <= 0.0 ==> q <= 0.0)
            && Times(Abs(q), price) <= Abs(money) < Times(Abs(q) + 1.0, price)
  {
    var x := money / price;
    var q := Trunc(x) as real;
    assert x * price == money;
    AbsTimes(x, price);
    var r := NonNegativeProduct(Abs(x) - Abs(q), price);
    var t := PositiveProduct(Abs(q) + 1.0 - Abs(x), price);
  }

  function SignedQuantityOf(o: Order): real {
    if o.side == Buy then o.quantity else -o.quantity
  }

  /** A sized order takes the position exactly to its target; there is none only without a price or
      when the position is already there. The target spends at most the allotted value. */
  lemma SizeOrderHitsTarget(cfg: Config, acct: Account, sig: Signal, id: nat, barNo: nat)
    ensures var pos, r := Lookup(acct, sig.symbol), SizeOrder(cfg, acct, sig, id, barNo);
            && (pos.lastPrice > 0.0 ==>
                  var target := TargetQuantity(cfg, acct, sig, pos.lastPrice);
                  && (r.None? <==> pos.quantity == target)
                  && (r.Some? ==> pos.quantity + SignedQuantityOf(r.value) == target))
            && (pos.lastPrice <= 0.0 ==> r.None?)
  {
    hide TargetQuantity;
  }

  /** The check, in money and for every order. It trips the halt exactly on a drawdown beyond the limit and never
      clears it. An order passes exactly when there is no halt, it closes a position or stays within twice the
      position limit, and a purchase keeps gross leverage within its limit. */
  lemma RiskCheckIff(cfg: Config, o: Order, acct: Account, halted: bool)
    ensures var c, a := RiskCheck(cfg, o, acct, halted), RaisedPeak(acct);
            var b := Touched(a, o.symbol);
            var held, nav := Lookup(a, o.symbol), TotalValue(b);
            var value := Times(o.quantity, held.lastPrice);
            && (c.halted <==>
                  halted || if a.peak > 0.0 then TotalValue(a) < Times(1.0 - cfg.maxDrawdownHalt, a.peak)
                            else cfg.maxDrawdownHalt < 0.0)
            && (c.passed <==>
                  && !c.halted
                  && ((if o.side == Sell then held.quantity > 0.0 else held.quantity < 0.0)
                      || held.lastPrice <= 0.0 || nav <= 0.0 || value <= Times(cfg.maxPositionPct * 2.0, nav))
                  && (o.side == Sell || held.lastPrice <= 0.0
                      || GrossExposure(b) + value <= Times(cfg.maxGrossLeverage, if nav > 1.0 then nav else 1.0)))
            && c.acct == if halted then acct else if c.halted then a else b
  {
    hide TotalValue, GrossExposure, Drawdown, Lookup, Touched, RaisedPeak, Times;
    var a := RaisedPeak(acct);
    var b := Touched(a, o.symbol);
    var nav, value := TotalValue(b), Times(o.quantity, Lookup(a, o.symbol).lastPrice);
    DrawdownBeyondIff(a, cfg.maxDrawdownHalt);
    if nav > 0.0 { QuotientBound(value, nav, cfg.maxPositionPct * 2.0); }
    QuotientBound(GrossExposure(b) + value, if nav > 1.0 then nav else 1.0, cfg.maxGrossLeverage);
  }

  lemma QuotientBound(x: real, d: real, limit: real)
    requires d > 0.0
    ensures x / d <= limit <==> x <= Times(limit, d)
  {
    var q := x / d;
    assert q * d == x;
    if q <= limit { var r := NonNegativeProduct(limit - q, d); } else { var r := PositiveProduct(q - limit, d); }
  }
}
