/** The engine as it runs: one object whose fields are updated bar by bar and event by event. Every
    method is proved equal to the state machine of module Backtest, whose runs are what the other
    modules reason about. */
module BacktestEngine {
  import opened Portfolio
  import Backtest

  lemma SweepStart(setup: Backtest.Setup, s: Backtest.State, bar: Backtest.Bar)
    ensures Backtest.SweepN(setup, s, bar, 0) == Backtest.Sweep(s.queue, [], s.nextFill)
  {
  }

  lemma SweepStep(setup: Backtest.Setup, s: Backtest.State, bar: Backtest.Bar, n: nat)
    requires n < |s.pending|
    ensures Backtest.SweepN(setup, s, bar, n + 1)
         == Backtest.SweepOrder(setup, Backtest.SweepN(setup, s, bar, n), s.pending[n], bar, s.barCount)
  {
  }

  class Engine {
    const setup: Backtest.Setup
    var acct: Account
    var halted: bool
    var oms: Backtest.Oms
    var queue: Backtest.Queue
    var pending: seq<Backtest.Order>
    var history: Backtest.History
    var equity: seq<(int, real)>
    var fills: seq<Fill>
    var barCount: nat
    var nextOrder: nat
    var nextFill: nat

    /** The state of the engine as one value. */
    function View(): Backtest.State
      reads this
    {
      Backtest.State(acct, halted, oms, queue, pending, history, equity, fills, barCount, nextOrder, nextFill)
    }

    constructor (setup: Backtest.Setup)
      ensures this.setup == setup && View() == Backtest.Initial(setup)
    {
      this.setup := setup;
      acct := Account(setup.config.initialCapital, [], setup.config.initialCapital);
      halted, oms, queue, pending, history := false, map[], [], [], [];
      equity, fills, barCount, nextOrder, nextFill := [], [], 0, 0, 0;
    }

    method OnFill(f: Fill)
      requires f.quantity > 0.0
      modifies this
      ensures View() == Backtest.OnFill(old(View()), f)
    {
      acct := ApplyFill(acct, f);
      oms := Backtest.OmsFilled(oms, f);
      fills := fills + [f];
    }

    method OnMarket(bar: Backtest.Bar)
      modifies this
      ensures View() == Backtest.OnMarket(setup, old(View()), bar)
    {
      hide MarkToMarket, Backtest.Remembered, Backtest.Insert;
      acct := MarkToMarket(acct, bar.symbol, bar.close);
      history := Backtest.Remembered(setup, history, bar);
      var signals := setup.strategy(history, acct, bar.timestamp, bar);
      ghost var before := View();
      for i := 0 to |signals|
        invariant View() == before.(queue := Backtest.InsertSignals(before.queue, signals[..i]))
      {
        assert signals[..i + 1][..i] == signals[..i];
        queue := Backtest.Insert(queue, Backtest.SignalEvent(signals[i]));
      }
      assert signals[..|signals|] == signals;
    }

    method OnSignal(sig: Backtest.Signal)
      modifies this
      ensures View() == Backtest.OnSignal(setup, old(View()), sig)
    {
      hide Touched, Backtest.SizeOrder, Backtest.Insert;
      acct := Touched(acct, sig.symbol);
      var order := Backtest.SizeOrder(setup.config, acct, sig, nextOrder, barCount);
      if order.Some? {
        queue := Backtest.Insert(queue, Backtest.OrderEvent(order.value));
        nextOrder := nextOrder + 1;
      }
    }

    method OnOrder(o: Backtest.Order)
      modifies this
      ensures View() == Backtest.OnOrder(setup, old(View()), o)
    {
      var result := Backtest.RiskCheck(setup.config, o, acct, halted);
      acct, halted := result.acct, result.halted;
      if result.passed {
        oms := oms[o.id := Backtest.OmsOrder(o, Backtest.Submitted, 0.0, 0.0)];
        pending := pending + [o];
      } else {
        oms := oms[o.id := Backtest.OmsOrder(o, Backtest.Rejected, 0.0, 0.0)];
      }
    }

    /** Fill pending orders against a bar of their own symbol, keeping remainders. */
    method SweepPending(bar: Backtest.Bar)
      modifies this
      ensures var s := old(View());
              var sw := Backtest.SweepN(setup, s, bar, |s.pending|);
              View() == s.(queue := sw.queue, pending := sw.still, nextFill := sw.nextFill)
    {
      hide Backtest.SweepN, Backtest.TryFill, Backtest.Insert;
      var still: seq<Backtest.Order> := [];
      ghost var s := View();
      SweepStart(setup, s, bar);
      for i := 0 to |pending|
        invariant pending == s.pending
        invariant Backtest.Sweep(queue, still, nextFill) == Backtest.SweepN(setup, s, bar, i)
        invariant View() == s.(queue := queue, nextFill := nextFill)
      {
        SweepStep(setup, s, bar, i);
        var order := pending[i];
        if order.symbol != bar.symbol {
          still := still + [order];
        } else {
          var fill := Backtest.TryFill(setup, order, bar, nextFill, barCount);
          if fill.Some? {
            queue := Backtest.Insert(queue, Backtest.FillEvent(fill.value));
            nextFill := nextFill + 1;
            if fill.value.quantity < order.quantity {
              still := still + [order.(quantity := order.quantity - fill.value.quantity)];
            }
          } else {
            still := still + [order];
          }
        }
      }
      pending := still;
    }

    /** Pop and handle events until none is left. */
    method Drain()
      requires Backtest.Sound(View())
      modifies this
      ensures Backtest.Sound(old(View())) && View() == Backtest.Drained(setup, old(View()))
    {
      hide Backtest.OnFill, Backtest.OnMarket, Backtest.OnSignal, Backtest.OnOrder, Backtest.Markets, Backtest.Work;
      ghost var s := View();
      while |queue| > 0
        invariant Backtest.Sound(View())
        invariant Backtest.Drained(setup, View()) == Backtest.Drained(setup, s)
        decreases Backtest.Markets(queue), Backtest.Work(queue)
      {
        Backtest.HandledProgress(setup, View());
        Backtest.HandledSound(setup, View());
        var event := queue[0];
        assert event in queue;
        queue := queue[1..];
        match event
        case FillEvent(f) => OnFill(f);
        case MarketEvent(bar) => OnMarket(bar);
        case SignalEvent(sig) => OnSignal(sig);
        case OrderEvent(o) => OnOrder(o);
      }
    }

    method ProcessBar(bar: Backtest.Bar)
      requires Backtest.Ready(setup, View())
      modifies this
      ensures Backtest.Ready(setup, old(View())) && View() == Backtest.ProcessBar(setup, old(View()), bar)
    {
      hide Backtest.Drained, Backtest.SweepN, Backtest.Insert, TotalValue, RaisedPeak;
      Backtest.OpenedSound(setup, View(), bar);
      SweepPending(bar);
      queue := Backtest.Insert(queue, Backtest.MarketEvent(bar));
      Drain();
      acct := RaisedPeak(acct);
      equity := equity + [(bar.timestamp, TotalValue(acct))];
      barCount := barCount + 1;
    }

    /** The whole backtest. */
    method RunFeed(feed: seq<Backtest.Bar>)
      requires Backtest.Ready(setup, View())
      modifies this
      ensures Backtest.Ready(setup, old(View())) && View() == Backtest.Run(setup, old(View()), feed)
    {
      hide Backtest.ProcessBar;
      ghost var s := View();
      var i := 0;
      while i < |feed|
        invariant i <= |feed| && Backtest.Ready(setup, View())
        invariant Backtest.Run(setup, View(), feed[i..]) == Backtest.Run(setup, s, feed)
      {
        var bar := feed[i];
        assert feed[i..][0] == bar && feed[i..][1..] == feed[i + 1..];
        if setup.config.start.Some? && setup.day(bar.timestamp) < setup.config.start.value {
          i := i + 1;
          continue;
        }
        if setup.config.end.Some? && setup.day(bar.timestamp) > setup.config.end.value {
          break;
        }
        if halted {
          break;
        }
        ProcessBar(bar);
        i := i + 1;
      }
    }
  }
}
