/** What every event of a backtest keeps: order quantities, order numbers, the links between orders,
    the order-management record and fills, and the account's books. */
module Conservation {
  import opened Reals
  import opened Sums
  import opened Portfolio
  import opened Backtest

  // ---- quantities, per order ----

  function FilledOf(id: nat): Fill -> real {
    (f: Fill) => if f.orderId == id then f.quantity else 0.0
  }

  function QueuedOf(id: nat): Event -> real {
    (e: Event) => if e.FillEvent? && e.fill.orderId == id then e.fill.quantity else 0.0
  }

  function PendedOf(id: nat): Order -> real {
    (o: Order) => if o.id == id then o.quantity else 0.0
  }

  /** Counts the order events of one id. */
  function CreatedOf(id: nat): Event -> real {
    (e: Event) => if e.OrderEvent? && e.order.id == id then 1.0 else 0.0
  }

  function FilledQty(s: State, id: nat): real { SumOver(s.fills, FilledOf(id)) }

  function QueuedQty(s: State, id: nat): real { SumOver(s.queue, QueuedOf(id)) }

  function PendingQty(s: State, id: nat): real { SumOver(s.pending, PendedOf(id)) }

  function Waiting(s: State, id: nat): real { SumOver(s.queue, CreatedOf(id)) }

  predicate Accepted(oms: Oms, id: nat) {
    id in oms && oms[id].status != Rejected
  }

  /** Submitted quantity = applied fills + queued fills + pending remainder, and the record agrees;
      nothing is filled, queued or pending for an order that was not accepted. */
  ghost predicate ConservedAt(s: State, id: nat) {
    if Accepted(s.oms, id) then
      && s.oms[id].order.quantity == FilledQty(s, id) + QueuedQty(s, id) + PendingQty(s, id)
      && s.oms[id].filled == FilledQty(s, id)
    else
      FilledQty(s, id) == 0.0 && QueuedQty(s, id) == 0.0 && PendingQty(s, id) == 0.0
  }

  ghost predicate Conserved(s: State) {
    forall id: nat :: ConservedAt(s, id)
  }

  /** Every order number handed out is in the queue or on record, exactly once. */
  ghost predicate NumberedAt(s: State, id: nat) {
    Waiting(s, id) + (if id in s.oms then 1.0 else 0.0) == if id < s.nextOrder then 1.0 else 0.0
  }

  ghost predicate Numbered(s: State) {
    forall id: nat :: NumberedAt(s, id)
  }

  // ---- links ----

  /** A fill belongs to an accepted order of the same symbol and side, created on an earlier bar. */
  ghost predicate FillLinked(oms: Oms, f: Fill, barNo: nat) {
    && Accepted(oms, f.orderId)
    && oms[f.orderId].order.symbol == f.symbol
    && oms[f.orderId].order.side == f.side
    && oms[f.orderId].order.bar < f.bar <= barNo
  }

  /** A pending order is the accepted order on record, up to its quantity. */
  ghost predicate PendingLinked(oms: Oms, o: Order) {
    Accepted(oms, o.id) && o == oms[o.id].order.(quantity := o.quantity)
  }

  ghost predicate Linked(s: State) {
    && (forall f :: f in s.fills ==> FillLinked(s.oms, f, s.barCount))
    && (forall e :: e in s.queue && e.FillEvent? ==> FillLinked(s.oms, e.fill, s.barCount))
    && (forall e :: e in s.queue && e.OrderEvent? ==> e.order.bar == s.barCount)
    && (forall o :: o in s.pending ==> PendingLinked(s.oms, o) && o.bar <= s.barCount)
    && (forall id :: id in s.oms ==> s.oms[id].order.id == id)
  }

  /** The status on record says how much has been filled. */
  ghost predicate StatusAt(r: OmsOrder) {
    r.status != Rejected ==>
      && 0.0 <= r.filled
      && (r.status == Submitted <==> r.filled == 0.0)
      && (r.status == Filled <==> r.filled >= r.order.quantity)
      && r.order.quantity > 0.0
  }

  ghost predicate StatusesTrue(s: State) {
    forall id :: id in s.oms ==> StatusAt(s.oms[id])
  }

  // ---- books ----

  function CommissionOf(): Fill -> real { (f: Fill) => f.commission }

  function SharesOf(symbol: string): Fill -> real {
    (f: Fill) => if f.symbol == symbol then SignedQuantity(f) else 0.0
  }

  /** Cash is the start capital plus the books less commissions, and every position is the sum of its
      signed fills. */
  ghost predicate Booked(setup: Setup, s: State) {
    && s.acct.cash == setup.config.initialCapital + TotalBooked(s.acct) - SumOver(s.fills, CommissionOf())
    && forall symbol :: Lookup(s.acct, symbol).quantity == SumOver(s.fills, SharesOf(symbol))
  }

  // ---- average prices ----

  function PaidOf(id: nat): Fill -> real {
    (f: Fill) => if f.orderId == id then Times(f.price, f.quantity) else 0.0
  }

  /** The average price on record times the filled quantity is what the order's fills were worth. */
  ghost predicate PricedAt(s: State, id: nat) {
    Accepted(s.oms, id) ==> Times(s.oms[id].avgPrice, s.oms[id].filled) == SumOver(s.fills, PaidOf(id))
  }

  ghost predicate Priced(s: State) {
    forall id: nat :: PricedAt(s, id)
  }

  ghost predicate Invariant(setup: Setup, s: State) {
    Sound(s) && Conserved(s) && Numbered(s) && Linked(s) && StatusesTrue(s) && Priced(s)
    && Booked(setup, s)
  }

  // ---- sums over the queue ----

  lemma {:induction false} InsertSum(q: Queue, e: Event, f: Event -> real)
    ensures SumOver(Insert(q, e), f) == SumOver(q, f) + f(e)
  {
    if |q| > 0 && !Before(e, q[0]) {
      InsertSum(q[1..], e, f);
      assert Insert(q, e)[1..] == Insert(q[1..], e);
    } else {
      assert ([e] + q)[1..] == q;
    }
  }

  lemma {:induction false} InsertSignalsSum(q: Queue, signals: seq<Signal>, f: Event -> real)
    requires forall sig :: f(SignalEvent(sig)) == 0.0
    ensures SumOver(InsertSignals(q, signals), f) == SumOver(q, f)
    decreases |signals|
  {
    if |signals| > 0 {
      InsertSignalsSum(q, signals[..|signals| - 1], f);
      InsertSum(InsertSignals(q, signals[..|signals| - 1]), SignalEvent(signals[|signals| - 1]), f);
    }
  }

  // ---- fills ----

  lemma FillConserves(s: State, f: Fill, id: nat)
    requires |s.queue| > 0 && s.queue[0] == FillEvent(f) && Sound(s) && Linked(s) && StatusesTrue(s)
    requires ConservedAt(s, id)
    ensures ConservedAt(OnFill(Popped(s), f), id)
  {
    assert FillEvent(f) in s.queue && Accepted(s.oms, f.orderId);
    SumAppend(s.fills, f, FilledOf(id));
  }

  lemma FillStep(setup: Setup, s: State)
    requires Invariant(setup, s) && |s.queue| > 0 && s.queue[0].FillEvent?
    ensures Invariant(setup, Handled(setup, s))
  {
    var f, r := s.queue[0].fill, Handled(setup, s);
    assert s.queue[0] in s.queue && f.quantity > 0.0;
    HandledSound(setup, s);
    forall id: nat ensures ConservedAt(r, id) && NumberedAt(r, id) {
      assert ConservedAt(s, id) && NumberedAt(s, id);
      FillConserves(s, f, id);
    }
    forall id: nat ensures PricedAt(r, id) {
      assert PricedAt(s, id);
      FillPrices(s, f, id);
    }
    FillLinks(s, f);
    FillStatuses(s, f);
    FillBooks(setup, s, f);
  }

  lemma FillPrices(s: State, f: Fill, id: nat)
    requires |s.queue| > 0 && f.quantity > 0.0 && StatusesTrue(s) && PricedAt(s, id)
    requires Accepted(s.oms, f.orderId)
    ensures PricedAt(OnFill(Popped(s), f), id)
  {
    hide Times, ApplyFill;
    SumAppend(s.fills, f, PaidOf(id));
    if f.orderId == id {
      var o := s.oms[id];
      assert StatusAt(o);
      DivideTimes(Times(o.avgPrice, o.filled) + Times(f.price, f.quantity), o.filled + f.quantity);
    }
  }

  /** A fill leaves every order on record as it was submitted, and as accepted as it was. */
  lemma FilledOrders(oms: Oms, f: Fill)
    requires Accepted(oms, f.orderId)
    ensures forall id :: id in OmsFilled(oms, f) <==> id in oms
    ensures forall id :: id in oms ==> OmsFilled(oms, f)[id].order == oms[id].order
    ensures forall id :: Accepted(OmsFilled(oms, f), id) <==> Accepted(oms, id)
  {
    hide Times;
  }

  lemma FillLinks(s: State, f: Fill)
    requires Sound(s) && Linked(s) && |s.queue| > 0 && s.queue[0] == FillEvent(f) && f.quantity > 0.0
    requires StatusesTrue(s)
    ensures Linked(OnFill(Popped(s), f))
  {
    hide ApplyFill, Times, StatusAt, Sound, OmsFilled;
    assert s.queue[0] in s.queue;
    FilledOrders(s.oms, f);
    RestIn(s.queue);
  }

  lemma RestIn(q: Queue)
    requires |q| > 0
    ensures forall e :: e in q[1..] ==> e in q
  {
  }

  lemma FillStatuses(s: State, f: Fill)
    requires StatusesTrue(s) && |s.queue| > 0 && f.quantity > 0.0 && Accepted(s.oms, f.orderId)
    ensures StatusesTrue(OnFill(Popped(s), f))
  {
  }

  lemma FillBooks(setup: Setup, s: State, f: Fill)
    requires Booked(setup, s) && |s.queue| > 0 && f.quantity > 0.0
    ensures Booked(setup, OnFill(Popped(s), f))
  {
    FillKeepsBooks(s.acct, f);
    SumAppend(s.fills, f, CommissionOf());
    forall symbol ensures Lookup(ApplyFill(s.acct, f), symbol).quantity == SumOver(s.fills + [f], SharesOf(symbol)) {
      SumAppend(s.fills, f, SharesOf(symbol));
    }
  }

  // ---- market events and signals ----

  lemma BooksFollow(setup: Setup, s: State, r: State)
    requires Booked(setup, s) && SameBooks(r.acct, s.acct) && r.fills == s.fills
    ensures Booked(setup, r)
  {
  }

  lemma MarketConserves(setup: Setup, s: State, bar: Bar, id: nat)
    requires |s.queue| > 0 && s.queue[0] == MarketEvent(bar) && Sound(s)
    requires ConservedAt(s, id) && NumberedAt(s, id) && PricedAt(s, id)
    ensures var r := Handled(setup, s);
            ConservedAt(r, id) && NumberedAt(r, id) && PricedAt(r, id)
  {
    hide Insert, Times, MarkToMarket, Remembered, InsertSignals, Sound;
    var signals := SignalsOf(setup, Popped(s), bar);
    InsertSignalsSum(s.queue[1..], signals, QueuedOf(id));
    InsertSignalsSum(s.queue[1..], signals, CreatedOf(id));
  }

  lemma MarketLinks(setup: Setup, s: State, bar: Bar)
    requires |s.queue| > 0 && s.queue[0] == MarketEvent(bar) && Sound(s) && Linked(s)
    ensures Linked(Handled(setup, s))
  {
    hide MarkToMarket, Remembered, InsertSignals;
    InsertSignalsMembers(s.queue[1..], SignalsOf(setup, Popped(s), bar));
  }

  /** A market event changes nothing on record; it only marks a position. */
  lemma MarketKeeps(setup: Setup, s: State, bar: Bar)
    requires |s.queue| > 0 && s.queue[0] == MarketEvent(bar) && Sound(s)
    ensures var r := Handled(setup, s);
            r.acct == MarkToMarket(s.acct, bar.symbol, bar.close) && r.oms == s.oms && r.fills == s.fills
  {
    hide MarkToMarket, Remembered, InsertSignals;
  }

  lemma MarketStep(setup: Setup, s: State)
    requires Invariant(setup, s) && |s.queue| > 0 && s.queue[0].MarketEvent?
    ensures Invariant(setup, Handled(setup, s))
  {
    hide Handled, ConservedAt, NumberedAt, PricedAt, Linked, Sound, Booked, SameBooks, MarkToMarket;
    var bar, r := s.queue[0].bar, Handled(setup, s);
    HandledSound(setup, s);
    MarketLinks(setup, s, bar);
    MarketKeeps(setup, s, bar);
    QuietChanges(s.acct, bar.symbol, bar.close);
    BooksFollow(setup, s, r);
    forall id: nat ensures ConservedAt(r, id) && NumberedAt(r, id) && PricedAt(r, id) {
      assert ConservedAt(s, id) && NumberedAt(s, id) && PricedAt(s, id);
      MarketConserves(setup, s, bar, id);
    }
  }

  lemma SignalConserves(setup: Setup, s: State, sig: Signal, id: nat)
    requires |s.queue| > 0 && s.queue[0] == SignalEvent(sig) && Sound(s)
    requires ConservedAt(s, id) && NumberedAt(s, id) && PricedAt(s, id)
    ensures var r := Handled(setup, s);
            ConservedAt(r, id) && NumberedAt(r, id) && PricedAt(r, id)
  {
    hide Insert, SizeOrder, Times, Touched, Before;
    HandledQueue(setup, s);
    SignalKeeps(setup, s, sig);
    var o := OrderOf(setup, Popped(s), sig);
    if o.Some? {
      InsertSum(s.queue[1..], OrderEvent(o.value), QueuedOf(id));
      InsertSum(s.queue[1..], OrderEvent(o.value), CreatedOf(id));
    }
  }

  lemma SignalLinks(setup: Setup, s: State, sig: Signal)
    requires |s.queue| > 0 && s.queue[0] == SignalEvent(sig) && Sound(s) && Linked(s)
    ensures Linked(Handled(setup, s))
  {
    hide Insert, SizeOrder;
    HandledQueue(setup, s);
    var o := OrderOf(setup, Popped(s), sig);
    if o.Some? { InsertMembers(s.queue[1..], OrderEvent(o.value)); }
  }

  /** A signal changes nothing on record; it only touches a position. */
  lemma SignalKeeps(setup: Setup, s: State, sig: Signal)
    requires |s.queue| > 0 && s.queue[0] == SignalEvent(sig) && Sound(s)
    ensures var r := Handled(setup, s);
            && r.acct == Touched(s.acct, sig.symbol) && r.oms == s.oms && r.fills == s.fills
            && r.pending == s.pending && r.history == s.history && r.equity == s.equity
            && r.halted == s.halted && r.barCount == s.barCount
  {
  }

  lemma SignalStep(setup: Setup, s: State)
    requires Invariant(setup, s) && |s.queue| > 0 && s.queue[0].SignalEvent?
    ensures Invariant(setup, Handled(setup, s))
  {
    hide Handled, ConservedAt, NumberedAt, PricedAt, Linked, Sound, Booked, SameBooks, Touched;
    var sig, r := s.queue[0].signal, Handled(setup, s);
    HandledSound(setup, s);
    SignalLinks(setup, s, sig);
    SignalKeeps(setup, s, sig);
    QuietChanges(s.acct, sig.symbol, 0.0);
    BooksFollow(setup, s, r);
    forall id: nat ensures ConservedAt(r, id) && NumberedAt(r, id) && PricedAt(r, id) {
      assert ConservedAt(s, id) && NumberedAt(s, id) && PricedAt(s, id);
      SignalConserves(setup, s, sig, id);
    }
  }

  // ---- orders ----

  lemma RiskCheckAccount(cfg: Config, o: Order, acct: Account, halted: bool)
    ensures var a := RiskCheck(cfg, o, acct, halted).acct;
            a == acct || a == RaisedPeak(acct) || a == Touched(RaisedPeak(acct), o.symbol)
  {
    hide TotalValue, GrossExposure, Drawdown, Lookup, Touched, RaisedPeak, Times;
  }

  lemma RiskCheckQuiet(cfg: Config, o: Order, acct: Account, halted: bool)
    ensures SameBooks(RiskCheck(cfg, o, acct, halted).acct, acct)
  {
    hide RiskCheck, RaisedPeak, Touched, MarkToMarket, TotalBooked, Lookup;
    RiskCheckAccount(cfg, o, acct, halted);
    QuietChanges(acct, o.symbol, 0.0);
    QuietChanges(RaisedPeak(acct), o.symbol, 0.0);
  }

  /** An order taken off the queue is not on record yet and waits there only once. */
  lemma OrderFresh(s: State, o: Order)
    requires Numbered(s) && |s.queue| > 0 && s.queue[0] == OrderEvent(o)
    ensures o.id !in s.oms && o.id < s.nextOrder
    ensures SumOver(s.queue[1..], CreatedOf(o.id)) == 0.0
  {
    assert NumberedAt(s, o.id);
    SumNonNegative(s.queue[1..], CreatedOf(o.id));
  }

  lemma NoFillsYet(s: State, id: nat)
    requires Linked(s) && id !in s.oms
    ensures SumOver(s.fills, PaidOf(id)) == 0.0
  {
    forall f | f in s.fills ensures PaidOf(id)(f) == 0.0 {
      assert FillLinked(s.oms, f, s.barCount);
    }
    SumZero(s.fills, PaidOf(id));
  }

  lemma OrderConserves(setup: Setup, s: State, o: Order, id: nat)
    requires |s.queue| > 0 && s.queue[0] == OrderEvent(o) && Numbered(s) && Linked(s)
    requires ConservedAt(s, id) && NumberedAt(s, id) && PricedAt(s, id)
    ensures var r := OnOrder(setup, Popped(s), o);
            ConservedAt(r, id) && NumberedAt(r, id) && PricedAt(r, id)
  {
    OrderFresh(s, o);
    NoFillsYet(s, o.id);
    hide RiskCheck, Times;
    SumAppend(s.pending, o, PendedOf(id));
    TimesZero(0.0);
  }

  lemma OrderStatuses(setup: Setup, s: State, o: Order)
    requires StatusesTrue(s) && |s.queue| > 0 && o.quantity > 0.0
    ensures StatusesTrue(OnOrder(setup, Popped(s), o))
  {
    hide RiskCheck;
  }

  lemma OrderStep(setup: Setup, s: State)
    requires Invariant(setup, s) && |s.queue| > 0 && s.queue[0].OrderEvent?
    ensures Invariant(setup, Handled(setup, s))
  {
    hide RiskCheck, ConservedAt, NumberedAt, PricedAt, Linked, StatusesTrue;
    var o, r := s.queue[0].order, Handled(setup, s);
    assert s.queue[0] in s.queue && o.quantity > 0.0;
    HandledSound(setup, s);
    OrderFresh(s, o);
    RiskCheckQuiet(setup.config, o, s.acct, s.halted);
    forall id: nat ensures ConservedAt(r, id) && NumberedAt(r, id) && PricedAt(r, id) {
      assert ConservedAt(s, id) && NumberedAt(s, id) && PricedAt(s, id);
      OrderConserves(setup, s, o, id);
    }
    OrderLinks(setup, s, o);
    OrderStatuses(setup, s, o);
  }

  lemma OrderLinks(setup: Setup, s: State, o: Order)
    requires Linked(s) && |s.queue| > 0 && s.queue[0] == OrderEvent(o) && o.id !in s.oms
    ensures Linked(OnOrder(setup, Popped(s), o))
  {
    hide RiskCheck;
    assert s.queue[0] in s.queue;
    RestIn(s.queue);
  }

  // ---- whole bars and runs ----

  lemma {:induction false} DrainKeeps(setup: Setup, s: State)
    requires Invariant(setup, s)
    ensures Invariant(setup, Drained(setup, s))
    decreases Markets(s.queue), Work(s.queue)
  {
    hide Invariant, Handled;
    assert Sound(s) by { InvariantSound(setup, s); }
    if |s.queue| > 0 {
      HandledKeeps(setup, s);
      HandledProgress(setup, s);
      DrainKeeps(setup, Handled(setup, s));
    }
  }

  lemma InvariantSound(setup: Setup, s: State)
    requires Invariant(setup, s)
    ensures Sound(s)
  {
  }

  /** Every event keeps the invariant. */
  lemma HandledKeeps(setup: Setup, s: State)
    requires Invariant(setup, s) && |s.queue| > 0 && Sound(s)
    ensures Invariant(setup, Handled(setup, s))
  {
    hide Invariant, Handled;
    match s.queue[0]
    case FillEvent(_) => FillStep(setup, s);
    case MarketEvent(_) => MarketStep(setup, s);
    case SignalEvent(_) => SignalStep(setup, s);
    case OrderEvent(_) => OrderStep(setup, s);
  }

  /** What holds between bars: additionally, every pending order is from an earlier bar. */
  ghost predicate Boundary(setup: Setup, s: State) {
    Ready(setup, s) && Invariant(setup, s) && forall o :: o in s.pending ==> o.bar < s.barCount
  }

  lemma InitialBoundary(setup: Setup)
    requires setup.config.maxFillPct > 0.0
    ensures Boundary(setup, Initial(setup))
  {
  }

  /** Putting `add` in place of an order between `a` and `b` changes its total by what they differ. */
  lemma PendingSum(a: seq<Order>, o: Order, add: seq<Order>, b: seq<Order>, f: Order -> real)
    ensures SumOver(a + add + b, f) == SumOver(a + ([o] + b), f) - f(o) + SumOver(add, f)
  {
    SumConcat(a + add, b, f);
    SumConcat(a, add, f);
    SumConcat(a, [o] + b, f);
    SumConcat([o], b, f);
  }

  ghost predicate NewFill(q: Queue, r: Queue, f: Fill) {
    forall e :: e in r <==> e == FillEvent(f) || e in q
  }

  /** What was queued of an order and what is left of it add up to what was pending. */
  lemma SweptSums(q: Queue, o: Order, f: Fill, add: seq<Order>, id: nat)
    requires f.orderId == o.id && f.quantity <= o.quantity
    requires add == if f.quantity < o.quantity then [o.(quantity := o.quantity - f.quantity)] else []
    ensures var r := Insert(q, FillEvent(f));
            && SumOver(add, PendedOf(id)) + SumOver(r, QueuedOf(id)) == PendedOf(id)(o) + SumOver(q, QueuedOf(id))
            && SumOver(r, CreatedOf(id)) == SumOver(q, CreatedOf(id))
  {
    hide Insert;
    InsertSum(q, FillEvent(f), QueuedOf(id));
    InsertSum(q, FillEvent(f), CreatedOf(id));
    if f.quantity < o.quantity { assert add[1..] == []; }
  }

  lemma KeptSum(o: Order, id: nat)
    ensures SumOver([o], PendedOf(id)) == PendedOf(id)(o)
  {
    assert [o][1..] == [];
  }

  /** One pending order met by a bar: kept, or turned into a queued fill and its remainder. */
  lemma SweptOne(setup: Setup, sw: Sweep, o: Order, bar: Bar, barNo: nat) returns (add: seq<Order>)
    requires setup.config.maxFillPct > 0.0 && o.quantity > 0.0
    ensures var r := SweepOrder(setup, sw, o, bar, barNo);
            && r.still == sw.still + add
            && (forall p :: p in add ==> p == o.(quantity := p.quantity) && p.quantity > 0.0)
            && (forall id: nat :: SumOver(add, PendedOf(id)) + SumOver(r.queue, QueuedOf(id))
                                  == PendedOf(id)(o) + SumOver(sw.queue, QueuedOf(id)))
            && (forall id: nat :: SumOver(r.queue, CreatedOf(id)) == SumOver(sw.queue, CreatedOf(id)))
            && (r.queue == sw.queue ||
                  exists f :: NewFill(sw.queue, r.queue, f) && f.symbol == o.symbol && f.side == o.side
                              && f.orderId == o.id && f.bar == barNo && f.timestamp == bar.timestamp
                              && f.symbol == bar.symbol)
  {
    hide TryFill, Insert, SumOver, PendedOf, QueuedOf, CreatedOf;
    FillPositive(setup, o, bar, sw.nextFill, barNo);
    var f := TryFill(setup, o, bar, sw.nextFill, barNo);
    if o.symbol != bar.symbol || f.None? {
      add := [o];
      forall id: nat ensures SumOver(add, PendedOf(id)) == PendedOf(id)(o) { KeptSum(o, id); }
    } else {
      add := if f.value.quantity < o.quantity then [o.(quantity := o.quantity - f.value.quantity)] else [];
      var q, r := sw.queue, Insert(sw.queue, FillEvent(f.value));
      forall id: nat
        ensures SumOver(add, PendedOf(id)) + SumOver(r, QueuedOf(id)) == PendedOf(id)(o) + SumOver(q, QueuedOf(id))
        ensures SumOver(r, CreatedOf(id)) == SumOver(q, CreatedOf(id))
      {
        SweptSums(q, o, f.value, add, id);
      }
      InsertMembers(q, FillEvent(f.value));
      assert NewFill(q, r, f.value);
    }
  }

  lemma SweptOrder(setup: Setup, s: State, bar: Bar, n: nat) returns (add: seq<Order>)
    requires n < |s.pending| && setup.config.maxFillPct > 0.0 && s.pending[n].quantity > 0.0
    ensures var o, a, b := s.pending[n], Sweeping(setup, s, bar, n), Sweeping(setup, s, bar, n + 1);
            var still := SweepN(setup, s, bar, n).still;
            && a.pending == still + ([o] + s.pending[n + 1..])
            && b.pending == still + add + s.pending[n + 1..]
            && (forall p :: p in add ==> p == o.(quantity := p.quantity) && p.quantity > 0.0)
            && (forall id: nat :: SumOver(add, PendedOf(id)) + SumOver(b.queue, QueuedOf(id))
                                  == PendedOf(id)(o) + SumOver(a.queue, QueuedOf(id)))
            && (forall id: nat :: SumOver(b.queue, CreatedOf(id)) == SumOver(a.queue, CreatedOf(id)))
            && (b.queue == a.queue ||
                  exists f :: NewFill(a.queue, b.queue, f) && f.symbol == o.symbol && f.side == o.side
                              && f.orderId == o.id && f.bar == s.barCount && f.timestamp == bar.timestamp
                              && f.symbol == bar.symbol)
  {
    hide SweepOrder, SumOver, PendedOf, QueuedOf, CreatedOf, NewFill;
    assert s.pending[n..] == [s.pending[n]] + s.pending[n + 1..];
    add := SweptOne(setup, SweepN(setup, s, bar, n), s.pending[n], bar, s.barCount);
  }

  /** Same records, same total of queued and pending quantities: the balance carries over. */
  lemma Rebalanced(a: State, b: State, id: nat)
    requires ConservedAt(a, id) && NumberedAt(a, id) && PricedAt(a, id) && Sound(b)
    requires b.oms == a.oms && b.fills == a.fills && b.nextOrder == a.nextOrder
    requires QueuedQty(b, id) + PendingQty(b, id) == QueuedQty(a, id) + PendingQty(a, id)
    requires Waiting(b, id) == Waiting(a, id)
    ensures ConservedAt(b, id) && NumberedAt(b, id) && PricedAt(b, id)
  {
    hide Times;
    SumNonNegative(b.queue, QueuedOf(id));
    SumNonNegative(b.pending, PendedOf(id));
  }

  lemma SweepStep(setup: Setup, s: State, bar: Bar, n: nat)
    requires Boundary(setup, s) && n < |s.pending|
    requires Invariant(setup, Sweeping(setup, s, bar, n))
    ensures Invariant(setup, Sweeping(setup, s, bar, n + 1))
  {
    hide ConservedAt, NumberedAt, PricedAt, Linked, SweepN, SumOver, Sound, Booked, StatusesTrue;
    var o, a, b := s.pending[n], Sweeping(setup, s, bar, n), Sweeping(setup, s, bar, n + 1);
    var still, rest := SweepN(setup, s, bar, n).still, s.pending[n + 1..];
    PendingOf(setup, s, o);
    var add := SweptOrder(setup, s, bar, n);
    SweepingSound(setup, s, bar, n + 1);
    forall id: nat ensures ConservedAt(b, id) && NumberedAt(b, id) && PricedAt(b, id) {
      assert ConservedAt(a, id) && NumberedAt(a, id) && PricedAt(a, id);
      PendingSum(still, o, add, rest, PendedOf(id));
      Rebalanced(a, b, id);
    }
    SweepLinks(s, a, b, o, still, add, rest);
    SweepBooks(setup, a, b);
  }

  lemma PendingOf(setup: Setup, s: State, o: Order)
    requires Boundary(setup, s) && o in s.pending
    ensures o.quantity > 0.0 && o.bar < s.barCount && setup.config.maxFillPct > 0.0
  {
    assert Sound(s);
  }

  lemma SweepBooks(setup: Setup, a: State, b: State)
    requires Booked(setup, a) && StatusesTrue(a)
    requires b == a.(queue := b.queue, pending := b.pending, nextFill := b.nextFill)
    ensures Booked(setup, b) && StatusesTrue(b)
  {
  }

  lemma SweepLinks(s: State, a: State, b: State, o: Order, still: seq<Order>, add: seq<Order>, rest: seq<Order>)
    requires Linked(a) && a.pending == still + ([o] + rest) && b.pending == still + add + rest
    requires b == a.(queue := b.queue, pending := b.pending, nextFill := b.nextFill)
    requires o.bar < a.barCount
    requires forall p :: p in add ==> p == o.(quantity := p.quantity)
    requires b.queue == a.queue ||
             exists f :: NewFill(a.queue, b.queue, f) && f.symbol == o.symbol && f.side == o.side
                         && f.orderId == o.id && f.bar == a.barCount
    ensures Linked(b)
  {
    assert o in a.pending && PendingLinked(a.oms, o);
    forall p | p in b.pending ensures PendingLinked(b.oms, p) && p.bar <= b.barCount {
      if p in add { } else { assert p in a.pending; }
    }
  }

  lemma {:induction false} SweepKeeps(setup: Setup, s: State, bar: Bar, n: nat)
    requires Boundary(setup, s) && n <= |s.pending|
    ensures Invariant(setup, Sweeping(setup, s, bar, n))
  {
    if n == 0 {
      assert Sweeping(setup, s, bar, 0) == s;
    } else {
      hide Invariant, Sweeping;
      SweepKeeps(setup, s, bar, n - 1);
      SweepStep(setup, s, bar, n - 1);
    }
  }

  lemma OpenedFromSweep(setup: Setup, s: State, bar: Bar)
    requires Ready(setup, s)
    ensures var a := Sweeping(setup, s, bar, |s.pending|);
            Opened(setup, s, bar) == a.(queue := Insert(a.queue, MarketEvent(bar)))
  {
    hide SweepN, Insert;
    assert SweepN(setup, s, bar, |s.pending|).still + s.pending[|s.pending|..]
        == SweepN(setup, s, bar, |s.pending|).still;
  }

  lemma OpenedLinks(a: State, r: State, bar: Bar)
    requires Linked(a) && r == a.(queue := Insert(a.queue, MarketEvent(bar)))
    ensures Linked(r)
  {
    hide Insert;
    InsertMembers(a.queue, MarketEvent(bar));
  }

  lemma OpenedKeeps(setup: Setup, s: State, bar: Bar)
    requires Boundary(setup, s)
    ensures Invariant(setup, Opened(setup, s, bar))
  {
    hide ConservedAt, NumberedAt, PricedAt, Linked, SumOver, Sound, Booked, StatusesTrue, Insert, Sweeping, Opened;
    var a, r := Sweeping(setup, s, bar, |s.pending|), Opened(setup, s, bar);
    SweepKeeps(setup, s, bar, |s.pending|);
    OpenedFromSweep(setup, s, bar);
    OpenedSound(setup, s, bar);
    forall id: nat ensures ConservedAt(r, id) && NumberedAt(r, id) && PricedAt(r, id) {
      assert ConservedAt(a, id) && NumberedAt(a, id) && PricedAt(a, id);
      InsertSum(a.queue, MarketEvent(bar), QueuedOf(id));
      InsertSum(a.queue, MarketEvent(bar), CreatedOf(id));
      Rebalanced(a, r, id);
    }
    OpenedLinks(a, r, bar);
    SweepBooks(setup, a, r);
  }

  lemma ClosedKeeps(setup: Setup, s: State, bar: Bar)
    requires Invariant(setup, s) && s.queue == [] && setup.config.maxFillPct > 0.0
    ensures Boundary(setup, Closed(s, bar))
  {
    var r := Closed(s, bar);
    QuietChanges(s.acct, "", 0.0);
    forall id: nat ensures ConservedAt(r, id) && NumberedAt(r, id) && PricedAt(r, id) {
      assert ConservedAt(s, id) && NumberedAt(s, id) && PricedAt(s, id);
    }
  }

  /** A whole bar keeps everything. */
  lemma BarKeeps(setup: Setup, s: State, bar: Bar)
    requires Boundary(setup, s)
    ensures Boundary(setup, ProcessBar(setup, s, bar))
  {
    hide Invariant, Opened, Closed, Drained;
    OpenedKeeps(setup, s, bar);
    OpenedSound(setup, s, bar);
    DrainKeeps(setup, Opened(setup, s, bar));
    ClosedKeeps(setup, Drained(setup, Opened(setup, s, bar)), bar);
  }

  lemma {:induction false} RunKeeps(setup: Setup, s: State, feed: seq<Bar>)
    requires Boundary(setup, s)
    ensures Boundary(setup, Run(setup, s, feed))
    decreases |feed|
  {
    hide Invariant, ProcessBar;
    if |feed| > 0 {
      if TooEarly(setup, feed[0]) {
        RunKeeps(setup, s, feed[1..]);
      } else if !TooLate(setup, feed[0]) && !s.halted {
        BarKeeps(setup, s, feed[0]);
        RunKeeps(setup, ProcessBar(setup, s, feed[0]), feed[1..]);
      }
    }
  }

  /** Order-quantity conservation, over every run: every order number handed out is on record exactly
      once, and nothing else is; what was submitted of an accepted order is what has been filled plus
      what still pends, and the record knows it; a rejected order has neither fills nor remainder. */
  lemma OrderQuantityConserved(setup: Setup, feed: seq<Bar>, id: nat)
    requires setup.config.maxFillPct > 0.0
    ensures var s := Run(setup, Initial(setup), feed);
            && (id in s.oms <==> id < s.nextOrder)
            && (Accepted(s.oms, id) ==>
                  && s.oms[id].order.quantity == FilledQty(s, id) + PendingQty(s, id)
                  && s.oms[id].filled == FilledQty(s, id)
                  && Times(s.oms[id].avgPrice, s.oms[id].filled) == SumOver(s.fills, PaidOf(id))
                  && (s.oms[id].status == Filled <==> PendingQty(s, id) <= 0.0)
                  && (s.oms[id].status == Submitted <==> FilledQty(s, id) == 0.0))
            && (!Accepted(s.oms, id) ==> FilledQty(s, id) == 0.0 && PendingQty(s, id) == 0.0)
  {
    hide Run, Times, SumOver, PaidOf;
    InitialBoundary(setup);
    RunKeeps(setup, Initial(setup), feed);
    var s := Run(setup, Initial(setup), feed);
    assert ConservedAt(s, id) && NumberedAt(s, id) && PricedAt(s, id);
    EmptyQueue(s, id);
    if id in s.oms { assert StatusAt(s.oms[id]); }
  }

  lemma EmptyQueue(s: State, id: nat)
    requires s.queue == []
    ensures QueuedQty(s, id) == 0.0 && Waiting(s, id) == 0.0
  {
  }

  /** Profit and loss, over every run: the account's gain is realised plus unrealised profit less all
      commissions, and every position is the signed sum of its fills. */
  lemma ProfitAndLoss(setup: Setup, feed: seq<Bar>)
    requires setup.config.maxFillPct > 0.0
    ensures var s := Run(setup, Initial(setup), feed);
            && TotalValue(s.acct) - setup.config.initialCapital
                 == SumOver(s.acct.positions, RealizedOf()) + SumOver(s.acct.positions, UnrealizedOf())
                    - SumOver(s.fills, CommissionOf())
            && forall symbol :: Lookup(s.acct, symbol).quantity == SumOver(s.fills, SharesOf(symbol))
  {
    hide Run, SumOver, TotalValue, TotalBooked;
    InitialBoundary(setup);
    RunKeeps(setup, Initial(setup), feed);
    var s := Run(setup, Initial(setup), feed);
    ProfitIdentity(s.acct, setup.config.initialCapital, SumOver(s.fills, CommissionOf()));
  }

  // ---- records are for good ----

  /** Every order on record stays on record unchanged, and a rejected one stays rejected. */
  ghost predicate RecordsKept(a: Oms, b: Oms) {
    forall id :: id in a ==> id in b && b[id].order == a[id].order && (Accepted(b, id) <==> Accepted(a, id))
  }

  lemma FillRecords(s: State, f: Fill)
    requires Accepted(s.oms, f.orderId)
    ensures RecordsKept(s.oms, OmsFilled(s.oms, f))
  {
    hide Times;
  }

  lemma OrderRecords(setup: Setup, s: State, o: Order)
    requires o.id !in s.oms
    ensures RecordsKept(s.oms, OnOrder(setup, s, o).oms)
  {
    hide RiskCheck;
  }

  lemma HandledRecords(setup: Setup, s: State)
    requires Invariant(setup, s) && |s.queue| > 0 && Sound(s)
    ensures RecordsKept(s.oms, Handled(setup, s).oms)
  {
    hide ConservedAt, NumberedAt, PricedAt, RiskCheck, SizeOrder, ApplyFill, Insert, InsertSignals, Booked,
         RecordsKept, Accepted, OmsFilled, Remembered, MarkToMarket, StatusAt, PendingLinked, OnOrder;
    RecordsSame(s.oms);
    assert s.queue[0] in s.queue;
    match s.queue[0]
    case FillEvent(f) =>
      assert FillLinked(s.oms, f, s.barCount);
      FillRecords(s, f);
    case MarketEvent(_) =>
    case SignalEvent(_) =>
    case OrderEvent(o) =>
      OrderFresh(s, o);
      OrderRecords(setup, Popped(s), o);
  }

  lemma RecordsSame(oms: Oms)
    ensures RecordsKept(oms, oms)
  {
  }

  lemma {:induction false} DrainRecords(setup: Setup, s: State)
    requires Invariant(setup, s) && Sound(s)
    ensures RecordsKept(s.oms, Drained(setup, s).oms)
    decreases Markets(s.queue), Work(s.queue)
  {
    hide Invariant, Handled;
    if |s.queue| > 0 {
      HandledRecords(setup, s);
      HandledKeeps(setup, s);
      HandledProgress(setup, s);
      InvariantSound(setup, Handled(setup, s));
      DrainRecords(setup, Handled(setup, s));
    }
  }

  lemma BarRecords(setup: Setup, s: State, bar: Bar)
    requires Boundary(setup, s)
    ensures RecordsKept(s.oms, ProcessBar(setup, s, bar).oms)
  {
    hide Invariant, SweepN, Drained, Insert;
    OpenedKeeps(setup, s, bar);
    OpenedSound(setup, s, bar);
    DrainRecords(setup, Opened(setup, s, bar));
  }

  /** Over the rest of any run, orders on record stay as they were submitted or rejected. */
  lemma {:induction false} RunRecords(setup: Setup, s: State, feed: seq<Bar>)
    requires Boundary(setup, s)
    ensures RecordsKept(s.oms, Run(setup, s, feed).oms)
    decreases |feed|
  {
    hide Boundary, ProcessBar, Accepted;
    BoundaryReady(setup, s);
    if |feed| > 0 {
      if TooEarly(setup, feed[0]) {
        RunRecords(setup, s, feed[1..]);
      } else if !TooLate(setup, feed[0]) && !s.halted {
        BarKeeps(setup, s, feed[0]);
        BarRecords(setup, s, feed[0]);
        RunRecords(setup, ProcessBar(setup, s, feed[0]), feed[1..]);
      }
    }
  }

  lemma BoundaryReady(setup: Setup, s: State)
    requires Boundary(setup, s)
    ensures Ready(setup, s)
  {
  }
}
