/** What the fills of a run are: each is settled, price and commission included, by the bar it names and by
    what was left of its order, and every pending order is met by the next bar of its symbol. */
module Executions {
  import opened Dicts
  import opened Reals
  import opened Sums
  import opened Portfolio
  import opened Backtest
  import opened Conservation
  import opened Timing

  /** The fill of what is left of a market order at the open of a bar: as much as the bar's volume allows,
      100 at most without volume, at the price and commission that the costs give at the open. */
  ghost predicate Execution(setup: Setup, f: Fill, o: Order, bar: Bar) {
    var most := if bar.volume > 0.0 then Times(bar.volume, setup.config.maxFillPct) else 100.0;
    && o.orderType == MarketOrder
    && f.orderId == o.id && f.side == o.side && f.symbol == o.symbol == bar.symbol && f.timestamp == bar.timestamp
    && f.quantity <= o.quantity && f.quantity <= most && (f.quantity == o.quantity || f.quantity == most)
    && (f.price, f.commission) == setup.costs(o, bar, bar.open, f.quantity)
  }

  lemma MarketFill(setup: Setup, o: Order, bar: Bar, seqNo: nat, barNo: nat)
    requires o.orderType == MarketOrder && o.symbol == bar.symbol
    ensures var f := TryFill(setup, o, bar, seqNo, barNo);
            f.Some? && Execution(setup, f.value, o, bar) && f.value.bar == barNo
  {
    hide Times;
  }

  // ---- one fill at a time ----

  function PendingOnes(id: nat): Order -> real {
    (o: Order) => if o.id == id then 1.0 else 0.0
  }

  function FillOnes(id: nat): Event -> real {
    (e: Event) => if e.FillEvent? && e.fill.orderId == id then 1.0 else 0.0
  }

  /** At most one pending order and at most one queued fill of an order number. */
  ghost predicate OnceAt(s: State, id: nat) {
    SumOver(s.pending, PendingOnes(id)) <= 1.0 && SumOver(s.queue, FillOnes(id)) <= 1.0
  }

  ghost predicate Once(s: State) {
    forall id: nat :: OnceAt(s, id)
  }

  lemma {:induction false} PendingAlone(p: seq<Order>, o: Order)
    requires o in p && SumOver(p, PendingOnes(o.id)) <= 1.0
    ensures SumOver(p, PendedOf(o.id)) == o.quantity
  {
    SumNonNegative(p[1..], PendingOnes(o.id));
    if p[0].id == o.id {
      forall q | q in p[1..] ensures q.id != o.id {
        if q.id == o.id {
          var k :| 0 <= k < |p[1..]| && p[1..][k] == q;
          SumPositive(p[1..], PendingOnes(o.id), k);
        }
      }
      SumZero(p[1..], PendedOf(o.id));
    } else {
      PendingAlone(p[1..], o);
    }
  }

  lemma QueuedAlone(q: Queue, f: Fill)
    requires |q| > 0 && q[0] == FillEvent(f) && SumOver(q, FillOnes(f.orderId)) <= 1.0
    ensures forall e :: e in q[1..] && e.FillEvent? ==> e.fill.orderId != f.orderId
  {
    forall e | e in q[1..] && e.FillEvent? ensures e.fill.orderId != f.orderId {
      if e.fill.orderId == f.orderId {
        var k :| 0 <= k < |q[1..]| && q[1..][k] == e;
        SumPositive(q[1..], FillOnes(f.orderId), k);
      }
    }
  }

  // ---- what holds throughout ----

  /** Only market orders are ever made. */
  ghost predicate MarketOnly(s: State) {
    && (forall id :: id in s.oms ==> s.oms[id].order.orderType == MarketOrder)
    && (forall e :: e in s.queue && e.OrderEvent? ==> e.order.orderType == MarketOrder)
  }

  /** The order of a number, with what is left of it after the fills given. */
  function LeftOf(oms: Oms, id: nat, fills: seq<Fill>): Order
    requires id in oms
  {
    var o := oms[id].order;
    o.(quantity := o.quantity - SumOver(fills, FilledOf(id)))
  }

  /** The fill executes what the fills before it left of its order, on the bar it names. */
  ghost predicate Executes(setup: Setup, oms: Oms, before: seq<Fill>, f: Fill, bars: seq<Bar>) {
    f.orderId in oms && f.bar < |bars| && Execution(setup, f, LeftOf(oms, f.orderId, before), bars[f.bar])
  }

  ghost predicate Settled(setup: Setup, s: State, bars: seq<Bar>) {
    forall i :: 0 <= i < |s.fills| ==> Executes(setup, s.oms, s.fills[..i], s.fills[i], bars)
  }

  ghost predicate Settling(setup: Setup, s: State, bars: seq<Bar>) {
    forall e :: e in s.queue && e.FillEvent? ==> Executes(setup, s.oms, s.fills, e.fill, bars)
  }

  ghost predicate Exact(setup: Setup, s: State, bars: seq<Bar>) {
    MarketOnly(s) && Once(s) && Settled(setup, s, bars) && Settling(setup, s, bars)
  }

  // ---- one event ----

  lemma SameRecords(setup: Setup, a: Oms, b: Oms, before: seq<Fill>, f: Fill, bars: seq<Bar>)
    requires RecordsKept(a, b) && Executes(setup, a, before, f, bars)
    ensures Executes(setup, b, before, f, bars)
  {
    hide Execution;
  }

  lemma StaySettled(setup: Setup, s: State, r: State, bars: seq<Bar>)
    requires Settled(setup, s, bars) && RecordsKept(s.oms, r.oms) && s.fills == r.fills
    ensures Settled(setup, r, bars)
  {
    hide Execution, RecordsKept, Executes;
    forall i | 0 <= i < |r.fills| ensures Executes(setup, r.oms, r.fills[..i], r.fills[i], bars) {
      SameRecords(setup, s.oms, r.oms, s.fills[..i], s.fills[i], bars);
    }
  }

  lemma StaySettling(setup: Setup, s: State, r: State, bars: seq<Bar>)
    requires Settling(setup, s, bars) && RecordsKept(s.oms, r.oms) && s.fills == r.fills
    requires forall e :: e in r.queue && e.FillEvent? ==> e in s.queue
    ensures Settling(setup, r, bars)
  {
    hide Execution, RecordsKept, Executes;
    forall e | e in r.queue && e.FillEvent? ensures Executes(setup, r.oms, r.fills, e.fill, bars) {
      SameRecords(setup, s.oms, r.oms, s.fills, e.fill, bars);
    }
  }

  lemma FillSettled(setup: Setup, s: State, f: Fill, r: State, bars: seq<Bar>)
    requires Settled(setup, s, bars) && RecordsKept(s.oms, r.oms) && r.fills == s.fills + [f]
    requires Executes(setup, s.oms, s.fills, f, bars)
    ensures Settled(setup, r, bars)
  {
    hide Execution, RecordsKept, Executes;
    forall i | 0 <= i < |r.fills| ensures Executes(setup, r.oms, r.fills[..i], r.fills[i], bars) {
      assert r.fills[..i] == s.fills[..i];
      if i == |s.fills| { assert s.fills[..i] == s.fills; }
      SameRecords(setup, s.oms, r.oms, s.fills[..i], r.fills[i], bars);
    }
  }

  lemma FillSettling(setup: Setup, s: State, f: Fill, r: State, bars: seq<Bar>)
    requires Settling(setup, s, bars) && RecordsKept(s.oms, r.oms) && r.fills == s.fills + [f]
    requires |s.queue| > 0 && s.queue[0] == FillEvent(f) && r.queue == s.queue[1..] && OnceAt(s, f.orderId)
    ensures Settling(setup, r, bars)
  {
    hide Execution, RecordsKept, SumOver;
    QueuedAlone(s.queue, f);
    forall e | e in r.queue && e.FillEvent? ensures Executes(setup, r.oms, r.fills, e.fill, bars) {
      assert e in s.queue;
      SumAppend(s.fills, f, FilledOf(e.fill.orderId));
      SameRecords(setup, s.oms, r.oms, s.fills, e.fill, bars);
    }
  }

  lemma PoppedOnce(s: State)
    requires Once(s) && |s.queue| > 0
    ensures Once(Popped(s))
  {
    forall id: nat ensures OnceAt(Popped(s), id) {
      assert OnceAt(s, id);
    }
  }

  lemma FillExact(setup: Setup, s: State, bars: seq<Bar>)
    requires Invariant(setup, s) && Exact(setup, s, bars) && |s.queue| > 0 && s.queue[0].FillEvent? && Sound(s)
    ensures Exact(setup, Handled(setup, s), bars)
  {
    hide Executes, Invariant, ApplyFill, OmsFilled, OnceAt, RecordsKept;
    var f, r := s.queue[0].fill, Handled(setup, s);
    assert s.queue[0] in s.queue;
    HandledRecords(setup, s);
    PoppedOnce(s);
    FillSettled(setup, s, f, r, bars);
    assert OnceAt(s, f.orderId);
    FillSettling(setup, s, f, r, bars);
    assert MarketOnly(r) by { FillKinds(setup, s, f); }
    assert Once(r) by { SameOnce(Popped(s), r); }
  }

  lemma SameOnce(s: State, r: State)
    requires Once(s) && r.pending == s.pending && r.queue == s.queue
    ensures Once(r)
  {
    forall id: nat ensures OnceAt(r, id) { assert OnceAt(s, id); }
  }

  lemma FillKinds(setup: Setup, s: State, f: Fill)
    requires MarketOnly(s) && |s.queue| > 0 && s.queue[0] == FillEvent(f) && Sound(s)
    ensures MarketOnly(Handled(setup, s))
  {
    hide ApplyFill, Times;
    RestIn(s.queue);
  }

  lemma MarketExact(setup: Setup, s: State, bars: seq<Bar>, bar: Bar)
    requires Exact(setup, s, bars) && |s.queue| > 0 && s.queue[0] == MarketEvent(bar) && Sound(s)
    ensures Exact(setup, Handled(setup, s), bars)
  {
    hide Executes, InsertSignals, Remembered, MarkToMarket, SumOver;
    var r, signals := Handled(setup, s), SignalsOf(setup, Popped(s), bar);
    HandledQueue(setup, s);
    InsertSignalsMembers(s.queue[1..], signals);
    PoppedOnce(s);
    forall id: nat ensures OnceAt(r, id) {
      assert OnceAt(Popped(s), id);
      InsertSignalsSum(s.queue[1..], signals, FillOnes(id));
    }
    StaySettled(setup, s, r, bars);
    StaySettling(setup, s, r, bars);
  }

  lemma SignalExact(setup: Setup, s: State, bars: seq<Bar>, sig: Signal)
    requires Exact(setup, s, bars) && |s.queue| > 0 && s.queue[0] == SignalEvent(sig) && Sound(s)
    ensures Exact(setup, Handled(setup, s), bars)
  {
    hide Executes, Insert, SizeOrder, Touched, SumOver;
    var r, o := Handled(setup, s), OrderOf(setup, Popped(s), sig);
    HandledQueue(setup, s);
    SignalKeeps(setup, s, sig);
    PoppedOnce(s);
    if o.Some? { InsertMembers(s.queue[1..], OrderEvent(o.value)); }
    forall id: nat ensures OnceAt(r, id) {
      assert OnceAt(Popped(s), id);
      if o.Some? { InsertSum(s.queue[1..], OrderEvent(o.value), FillOnes(id)); }
    }
    StaySettled(setup, s, r, bars);
    StaySettling(setup, s, r, bars);
  }

  lemma NonePending(s: State, id: nat)
    requires Linked(s) && id !in s.oms
    ensures SumOver(s.pending, PendingOnes(id)) == 0.0
  {
    forall o | o in s.pending ensures PendingOnes(id)(o) == 0.0 { assert PendingLinked(s.oms, o); }
    SumZero(s.pending, PendingOnes(id));
  }

  lemma OrderOnce(setup: Setup, s: State, o: Order)
    requires Once(s) && Linked(s) && |s.queue| > 0 && s.queue[0] == OrderEvent(o) && o.id !in s.oms
    ensures Once(OnOrder(setup, Popped(s), o))
  {
    hide RiskCheck, SumOver;
    PoppedOnce(s);
    NonePending(s, o.id);
    forall id: nat ensures OnceAt(OnOrder(setup, Popped(s), o), id) {
      assert OnceAt(Popped(s), id);
      SumAppend(s.pending, o, PendingOnes(id));
    }
  }

  lemma OrderExact(setup: Setup, s: State, bars: seq<Bar>, o: Order)
    requires Invariant(setup, s) && Exact(setup, s, bars)
    requires |s.queue| > 0 && s.queue[0] == OrderEvent(o) && Sound(s)
    ensures Exact(setup, Handled(setup, s), bars)
  {
    hide Executes, RiskCheck, Once, ConservedAt, NumberedAt, PricedAt, RecordsKept, Linked;
    var r := Handled(setup, s);
    assert s.queue[0] in s.queue;
    RestIn(s.queue);
    OrderFresh(s, o);
    HandledRecords(setup, s);
    OrderOnce(setup, s, o);
    StaySettled(setup, s, r, bars);
    StaySettling(setup, s, r, bars);
  }

  lemma HandledExact(setup: Setup, s: State, bars: seq<Bar>)
    requires Invariant(setup, s) && Exact(setup, s, bars) && |s.queue| > 0 && Sound(s)
    ensures Exact(setup, Handled(setup, s), bars)
  {
    hide Invariant, Exact, Handled;
    match s.queue[0]
    case FillEvent(_) => FillExact(setup, s, bars);
    case MarketEvent(bar) => MarketExact(setup, s, bars, bar);
    case SignalEvent(sig) => SignalExact(setup, s, bars, sig);
    case OrderEvent(o) => OrderExact(setup, s, bars, o);
  }

  lemma {:induction false} DrainedExact(setup: Setup, s: State, bars: seq<Bar>)
    requires Invariant(setup, s) && Exact(setup, s, bars) && Sound(s)
    ensures Exact(setup, Drained(setup, s), bars)
    decreases Markets(s.queue), Work(s.queue)
  {
    hide Invariant, Exact, Handled;
    if |s.queue| > 0 {
      HandledExact(setup, s, bars);
      HandledKeeps(setup, s);
      HandledProgress(setup, s);
      InvariantSound(setup, Handled(setup, s));
      DrainedExact(setup, Handled(setup, s), bars);
    }
  }

  // ---- the sweep ----

  /** Between bars a pending order is what its fills have left of it. */
  lemma PendingLeft(setup: Setup, s: State, o: Order)
    requires Boundary(setup, s) && Once(s) && MarketOnly(s) && o in s.pending
    ensures o.id in s.oms && o == LeftOf(s.oms, o.id, s.fills) && o.orderType == MarketOrder
  {
    hide SumOver;
    assert PendingLinked(s.oms, o) && ConservedAt(s, o.id) && OnceAt(s, o.id);
    EmptyQueue(s, o.id);
    PendingAlone(s.pending, o);
  }

  /** What a sweep has queued so far. */
  ghost predicate Swept(setup: Setup, s: State, q: Queue, bar: Bar, bars: seq<Bar>) {
    forall e :: e in q ==> e.FillEvent? && Executes(setup, s.oms, s.fills, e.fill, bars + [bar])
  }

  lemma SweepOnce(setup: Setup, sw: Sweep, o: Order, bar: Bar, barNo: nat, id: nat)
    ensures var r := SweepOrder(setup, sw, o, bar, barNo);
            && SumOver(r.still, PendingOnes(id)) <= SumOver(sw.still, PendingOnes(id)) + PendingOnes(id)(o)
            && SumOver(r.queue, FillOnes(id)) <= SumOver(sw.queue, FillOnes(id)) + PendingOnes(id)(o)
  {
    hide SumOver, Insert, BasePrice, Backtest.FillQuantity;
    SumAppend(sw.still, o, PendingOnes(id));
    var f := TryFill(setup, o, bar, sw.nextFill, barNo);
    if f.Some? {
      SumAppend(sw.still, o.(quantity := o.quantity - f.value.quantity), PendingOnes(id));
      InsertSum(sw.queue, FillEvent(f.value), FillOnes(id));
    }
  }

  lemma NothingOnce(id: nat)
    ensures SumOver([], PendingOnes(id)) == 0.0 && SumOver([], FillOnes(id)) == 0.0
  {
  }

  lemma {:induction false} SweepingOnce(setup: Setup, s: State, bar: Bar, n: nat, id: nat)
    requires s.queue == [] && n <= |s.pending|
    ensures var sw := SweepN(setup, s, bar, n);
            && SumOver(sw.still, PendingOnes(id)) <= SumOver(s.pending[..n], PendingOnes(id))
            && SumOver(sw.queue, FillOnes(id)) <= SumOver(s.pending[..n], PendingOnes(id))
  {
    hide SweepOrder, SumOver, PendingOnes, FillOnes;
    if n == 0 {
      NothingOnce(id);
    } else {
      SweepingOnce(setup, s, bar, n - 1, id);
      SweepOnce(setup, SweepN(setup, s, bar, n - 1), s.pending[n - 1], bar, s.barCount, id);
      assert s.pending[..n] == s.pending[..n - 1] + [s.pending[n - 1]];
      SumAppend(s.pending[..n - 1], s.pending[n - 1], PendingOnes(id));
    }
  }

  lemma {:induction false} SweepingExact(setup: Setup, s: State, bar: Bar, bars: seq<Bar>, n: nat)
    requires Boundary(setup, s) && Once(s) && MarketOnly(s) && |bars| == s.barCount && n <= |s.pending|
    ensures Swept(setup, s, SweepN(setup, s, bar, n).queue, bar, bars)
  {
    hide Boundary, Once, MarketOnly, TryFill, Insert, Execution, LeftOf;
    if n == 0 {
      BoundaryReady(setup, s);
    } else {
      SweepingExact(setup, s, bar, bars, n - 1);
      var sw, o := SweepN(setup, s, bar, n - 1), s.pending[n - 1];
      PendingLeft(setup, s, o);
      if o.symbol == bar.symbol {
        MarketFill(setup, o, bar, sw.nextFill, s.barCount);
        var f := TryFill(setup, o, bar, sw.nextFill, s.barCount).value;
        InsertMembers(sw.queue, FillEvent(f));
        assert f.orderId == o.id by { FillOfOrder(setup, f, o, bar); }
        assert (bars + [bar])[f.bar] == bar;
      }
    }
  }

  lemma FillOfOrder(setup: Setup, f: Fill, o: Order, bar: Bar)
    requires Execution(setup, f, o, bar)
    ensures f.orderId == o.id
  {
  }

  lemma LongerSettled(setup: Setup, s: State, r: State, bars: seq<Bar>, bar: Bar)
    requires Settled(setup, s, bars) && r.oms == s.oms && r.fills == s.fills
    ensures Settled(setup, r, bars + [bar])
  {
    hide Execution;
    forall i | 0 <= i < |r.fills| ensures Executes(setup, r.oms, r.fills[..i], r.fills[i], bars + [bar]) {
      assert Executes(setup, s.oms, s.fills[..i], s.fills[i], bars);
    }
  }

  lemma OpenedExact(setup: Setup, s: State, bar: Bar, bars: seq<Bar>)
    requires Boundary(setup, s) && Exact(setup, s, bars) && |bars| == s.barCount
    ensures Exact(setup, Opened(setup, s, bar), bars + [bar])
  {
    hide Boundary, SweepN, Insert, Execution, SumOver, Executes;
    BoundaryReady(setup, s);
    var r, q := Opened(setup, s, bar), SweepN(setup, s, bar, |s.pending|).queue;
    OpenedKeepsPast(setup, s, bar);
    SweepingExact(setup, s, bar, bars, |s.pending|);
    InsertMembers(q, MarketEvent(bar));
    LongerSettled(setup, s, r, bars, bar);
    assert s.pending[..|s.pending|] == s.pending;
    forall id: nat ensures OnceAt(r, id) {
      assert OnceAt(s, id);
      SweepingOnce(setup, s, bar, |s.pending|, id);
      InsertSum(q, MarketEvent(bar), FillOnes(id));
    }
  }

  lemma BarExact(setup: Setup, s: State, bar: Bar, bars: seq<Bar>)
    requires Boundary(setup, s) && Exact(setup, s, bars) && |bars| == s.barCount
    ensures Exact(setup, ProcessBar(setup, s, bar), bars + [bar])
  {
    hide Boundary, Invariant, Exact, Opened, Drained;
    BoundaryReady(setup, s);
    OpenedKeeps(setup, s, bar);
    OpenedSound(setup, s, bar);
    OpenedExact(setup, s, bar, bars);
    DrainedExact(setup, Opened(setup, s, bar), bars + [bar]);
    ClosedExact(setup, Drained(setup, Opened(setup, s, bar)), bar, bars + [bar]);
  }

  lemma ClosedExact(setup: Setup, s: State, bar: Bar, bars: seq<Bar>)
    requires Exact(setup, s, bars)
    ensures Exact(setup, Closed(s, bar), bars)
  {
    hide Executes, OnceAt;
    SameOnce(s, Closed(s, bar));
  }

  lemma {:induction false} RunExact(setup: Setup, s: State, bars: seq<Bar>, feed: seq<Bar>)
    requires Boundary(setup, s) && Ready(setup, s) && Between(setup, s, bars) && Exact(setup, s, bars)
    ensures Exact(setup, Run(setup, s, feed), bars + Processed(setup, s, feed))
    decreases |feed|
  {
    hide Between, ProcessBar, Exact, Boundary;
    if |feed| == 0 || (!TooEarly(setup, feed[0]) && (TooLate(setup, feed[0]) || s.halted)) {
      assert bars + [] == bars;
    } else if TooEarly(setup, feed[0]) {
      RunExact(setup, s, bars, feed[1..]);
    } else {
      var r := ProcessBar(setup, s, feed[0]);
      BarBetween(setup, s, feed[0], bars);
      BarKeeps(setup, s, feed[0]);
      BetweenCount(setup, s, bars);
      BarExact(setup, s, feed[0], bars);
      RunExact(setup, r, bars + [feed[0]], feed[1..]);
      assert bars + ([feed[0]] + Processed(setup, r, feed[1..]))
          == (bars + [feed[0]]) + Processed(setup, r, feed[1..]);
    }
  }

  lemma BetweenCount(setup: Setup, s: State, bars: seq<Bar>)
    requires Between(setup, s, bars)
    ensures |bars| == s.barCount
  {
  }

  lemma InitialExact(setup: Setup)
    ensures Exact(setup, Initial(setup), [])
  {
  }

  /** Every fill of every run: it executes, at the open of the bar it names, what the fills before it left of
      its market order, in the quantity the bar allows and at the price and commission that the costs give. */
  lemma FillsExecuteOrders(setup: Setup, feed: seq<Bar>, i: nat)
    requires setup.config.maxFillPct > 0.0 && i < |Run(setup, Initial(setup), feed).fills|
    ensures var s, bars := Run(setup, Initial(setup), feed), Processed(setup, Initial(setup), feed);
            var f := s.fills[i];
            && f.orderId in s.oms && f.bar < |bars|
            && var left := s.oms[f.orderId].order.quantity - SumOver(s.fills[..i], FilledOf(f.orderId));
               Execution(setup, f, s.oms[f.orderId].order.(quantity := left), bars[f.bar])
  {
    hide Run, Processed, Execution, Between, SumOver, Boundary, MarketOnly, Once, Settling;
    InitialBoundary(setup);
    InitialBetween(setup);
    InitialExact(setup);
    RunExact(setup, Initial(setup), [], feed);
    assert [] + Processed(setup, Initial(setup), feed) == Processed(setup, Initial(setup), feed);
  }

  // ---- every pending order is met ----

  lemma {:induction false} SweepFills(setup: Setup, s: State, bar: Bar, n: nat, k: nat)
    requires k < n <= |s.pending| && s.pending[k].orderType == MarketOrder
    ensures var sw, o := SweepN(setup, s, bar, n), s.pending[k];
            if o.symbol == bar.symbol then
              exists e :: e in sw.queue && e.FillEvent? && e.fill.bar == s.barCount && Execution(setup, e.fill, o, bar)
            else o in sw.still
  {
    hide TryFill, Insert, Execution;
    var sw, o := SweepN(setup, s, bar, n - 1), s.pending[n - 1];
    var f := TryFill(setup, o, bar, sw.nextFill, s.barCount);
    if f.Some? { InsertMembers(sw.queue, FillEvent(f.value)); }
    if k == n - 1 {
      if o.symbol == bar.symbol { MarketFill(setup, o, bar, sw.nextFill, s.barCount); }
    } else {
      SweepFills(setup, s, bar, n - 1, k);
    }
  }

  /** An event other than a queued fill leaves it queued; pending orders are only ever added to. */
  lemma HandledFills(setup: Setup, s: State)
    requires |s.queue| > 0 && Sound(s)
    ensures var r := Handled(setup, s);
            && (forall e :: e in s.queue && e.FillEvent? ==> e in r.queue || e.fill in r.fills)
            && s.pending <= r.pending && s.fills <= r.fills
  {
    hide Insert, InsertSignals, ApplyFill, OmsFilled, RiskCheck, SizeOrder, Remembered, MarkToMarket, Touched;
    HandledQueue(setup, s);
    match s.queue[0] {
      case FillEvent(_) =>
      case OrderEvent(_) =>
      case MarketEvent(bar) => InsertSignalsMembers(s.queue[1..], SignalsOf(setup, Popped(s), bar));
      case SignalEvent(sig) =>
        var o := OrderOf(setup, Popped(s), sig);
        if o.Some? { InsertMembers(s.queue[1..], OrderEvent(o.value)); }
    }
  }

  lemma {:induction false} DrainedFills(setup: Setup, s: State)
    requires Sound(s)
    ensures var r := Drained(setup, s);
            && (forall e :: e in s.queue && e.FillEvent? ==> e.fill in r.fills)
            && s.pending <= r.pending && s.fills <= r.fills
    decreases Markets(s.queue), Work(s.queue)
  {
    hide Handled;
    if |s.queue| > 0 {
      HandledFills(setup, s);
      HandledProgress(setup, s);
      HandledSound(setup, s);
      DrainedFills(setup, Handled(setup, s));
    }
  }

  /** A bar meets every pending order: one of its symbol is executed, the others stay as they are. */
  lemma BarMeetsPending(setup: Setup, s: State, bar: Bar, o: Order)
    requires Boundary(setup, s) && Once(s) && MarketOnly(s) && Ready(setup, s) && o in s.pending
    ensures var r := ProcessBar(setup, s, bar);
            if o.symbol == bar.symbol then
              exists f :: f in r.fills && f.bar == s.barCount && Execution(setup, f, o, bar)
            else o in r.pending
  {
    hide Boundary, Once, MarketOnly, SweepN, Insert, Execution, Drained;
    PendingLeft(setup, s, o);
    var k :| 0 <= k < |s.pending| && s.pending[k] == o;
    SweepFills(setup, s, bar, |s.pending|, k);
    OpenedSound(setup, s, bar);
    InsertMembers(SweepN(setup, s, bar, |s.pending|).queue, MarketEvent(bar));
    DrainedFills(setup, Opened(setup, s, bar));
  }

  /** Whatever run came before: the next bar executes each pending order of its symbol and leaves the others. */
  lemma RunMeetsPending(setup: Setup, feed: seq<Bar>, bar: Bar, o: Order)
    requires setup.config.maxFillPct > 0.0 && o in Run(setup, Initial(setup), feed).pending
    ensures var s := Run(setup, Initial(setup), feed);
            var r := ProcessBar(setup, s, bar);
            if o.symbol == bar.symbol then
              exists f :: f in r.fills && f.bar == s.barCount && Execution(setup, f, o, bar)
            else o in r.pending
  {
    hide Run, Processed, Execution, Between, ProcessBar, Boundary;
    InitialBoundary(setup);
    InitialBetween(setup);
    InitialExact(setup);
    RunKeeps(setup, Initial(setup), feed);
    RunExact(setup, Initial(setup), [], feed);
    BarMeetsPending(setup, Run(setup, Initial(setup), feed), bar, o);
  }
}
