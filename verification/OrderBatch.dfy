/** What a whole batch of orders adds up to. Every order is screened against the account as it was before the
    batch, so the leverage limit holds order by order; this module says when it holds for the batch. */
module OrderBatch {
  import opened Dicts
  import opened Reals
  import opened Exposure
  import opened Orders

  /** Value of the orders at the given prices. */
  function BatchValue(orders: seq<Order>, prices: Dict<real>): real {
    if |orders| == 0 then 0.0
    else
      var last := orders[|orders| - 1];
      BatchValue(orders[..|orders| - 1], prices) + Times(last.quantity, Get(prices, last.symbol, 0.0))
  }

  /** An account that holds nothing and may trade. */
  predicate Fresh(acct: Account, lim: RiskLimits) {
    && acct.nav > 0.0 && acct.positions == [] && acct.grossExposure == 0.0
    && lim.dailyLossLimit > 0.0 && acct.drawdown >= -lim.maxDrawdownHalt
    && lim.maxPositionPct >= 0.0 && lim.maxGrossLeverage >= 0.0
  }

  /** The share of NAV one order of a batch can reach: the weight, within the position and leverage limits. */
  function Reach(w: real, lim: RiskLimits): real {
    Smaller(Abs(w), Smaller(lim.maxPositionPct, lim.maxGrossLeverage))
  }

  function ReachSum(w: Book, lim: RiskLimits, n: nat): real
    requires n <= |w|
  {
    if n == 0 then 0.0 else ReachSum(w, lim, n - 1) + Reach(w[n - 1].1, lim)
  }

  /** What one name's order is worth. */
  function NameValue(name: string, w: real, prices: Dict<real>, acct: Account, lim: RiskLimits): real {
    var delta := Delta(name, w, prices, acct);
    if delta == 0.0 then 0.0
    else Times(Passed(Evaluate(Context(name, delta, prices, []), acct, lim, false).verdict, Abs(delta)),
               Get(prices, name, 0.0))
  }

  function ValueSum(w: Book, prices: Dict<real>, acct: Account, lim: RiskLimits, n: nat): real
    requires n <= |w|
  {
    if n == 0 then 0.0
    else ValueSum(w, prices, acct, lim, n - 1) + NameValue(w[n - 1].0, w[n - 1].1, prices, acct, lim)
  }

  lemma NeverHalts(name: string, delta: real, prices: Dict<real>, acct: Account, lim: RiskLimits)
    requires Fresh(acct, lim)
    ensures !LossBreached(Context(name, delta, prices, []), acct, lim)
    ensures !Evaluate(Context(name, delta, prices, []), acct, lim, false).halted
  {
    hide Caps;
    var r := PositiveProduct(lim.dailyLossLimit, acct.nav);
    assert -lim.dailyLossLimit * acct.nav == -r;
  }

  lemma BatchAppends(orders: seq<Order>, o: Order, prices: Dict<real>)
    ensures BatchValue(orders + [o], prices) == BatchValue(orders, prices) + Times(o.quantity, Get(prices, o.symbol, 0.0))
  {
    assert (orders + [o])[..|orders|] == orders;
  }

  lemma {:induction false} BatchIsSum(w: Book, prices: Dict<real>, acct: Account, lim: RiskLimits, n: nat)
    requires Fresh(acct, lim) && n <= |w|
    ensures var out := Build(w, n, prices, acct, [], lim, false);
            !out.halted && BatchValue(out.orders, prices) == ValueSum(w, prices, acct, lim, n)
  {
    hide Evaluate, Delta, Times, Get, Fresh, Has;
    if n > 0 {
      BatchIsSum(w, prices, acct, lim, n - 1);
      var name := w[n - 1].0;
      var delta := Delta(name, w[n - 1].1, prices, acct);
      var verdict := Evaluate(Context(name, delta, prices, []), acct, lim, false).verdict;
      NeverHalts(name, delta, prices, acct, lim);
      BatchAppends(Build(w, n - 1, prices, acct, [], lim, false).orders,
                   Order(name, delta > 0.0, Passed(verdict, Abs(delta))), prices);
      TimesZero(Get(prices, name, 0.0));
    }
  }

  // ---- no order reaches further than its share ----

  lemma NameWithin(name: string, w: real, prices: Dict<real>, acct: Account, lim: RiskLimits)
    requires Fresh(acct, lim)
    ensures NameValue(name, w, prices, acct, lim) <= Times(acct.nav, Reach(w, lim))
  {
    hide Evaluate, Delta, Times, Get, Reach, Passed;
    ReachNonNegative(acct.nav, w, lim);
    var delta := Delta(name, w, prices, acct);
    if delta != 0.0 {
      TimesZero(Get(prices, name, 0.0));
      OrderWithin(name, w, prices, acct, lim);
    }
  }

  /** An order is worth no more than its name's target and the room that both limits leave. */
  lemma OrderWithin(name: string, w: real, prices: Dict<real>, acct: Account, lim: RiskLimits)
    requires Fresh(acct, lim) && Delta(name, w, prices, acct) != 0.0
    ensures NameValue(name, w, prices, acct, lim) <= Times(acct.nav, Reach(w, lim))
  {
    hide Evaluate, TargetShares, Caps, Times, Get, PositionRoom, LeverageRoom, Smaller;
    var price, delta := Get(prices, name, 0.0), Delta(name, w, prices, acct);
    var ctx := Context(name, delta, prices, []);
    var verdict := Evaluate(ctx, acct, lim, false).verdict;
    NotReducing(ctx, acct, lim);
    if verdict == Reject {
      ReachNonNegative(acct.nav, w, lim);
      TimesZero(price);
    } else {
      CapsInMoney(ctx, acct, lim, false);
      VerdictSound(ctx, acct, lim, false);
      TargetValue(name, w, prices, acct, lim, Passed(verdict, Abs(delta)));
      Rooms(ctx, acct, lim);
      TimesSmaller(acct.nav, Abs(w), Smaller(lim.maxPositionPct, lim.maxGrossLeverage));
      TimesSmaller(acct.nav, lim.maxPositionPct, lim.maxGrossLeverage);
      SmallerLeast(Times(Passed(verdict, Abs(delta)), price), Times(acct.nav, Abs(w)),
                   Times(acct.nav, lim.maxPositionPct), Times(acct.nav, lim.maxGrossLeverage));
    }
  }

  lemma NotReducing(ctx: OrderContext, acct: Account, lim: RiskLimits)
    requires Fresh(acct, lim)
    ensures !Reducing(ctx, acct)
  {
  }

  lemma SmallerLeast(x: real, a: real, b: real, c: real)
    requires x <= a && x <= b && x <= c
    ensures x <= Smaller(a, Smaller(b, c))
  {
  }

  lemma TargetValue(name: string, w: real, prices: Dict<real>, acct: Account, lim: RiskLimits, q: real)
    requires Fresh(acct, lim) && Delta(name, w, prices, acct) != 0.0 && 0.0 <= q <= Abs(Delta(name, w, prices, acct))
    ensures Times(q, Get(prices, name, 0.0)) <= Times(acct.nav, Abs(w))
  {
    hide TargetShares, Get, Times;
    var price, delta := Get(prices, name, 0.0), Delta(name, w, prices, acct);
    NothingHeld(acct, name);
    TargetBounds(acct.nav, w, price);
    AbsOfScaled(acct.nav, w);
    Fewer(q, Abs(delta), price);
  }

  lemma NothingHeld(acct: Account, name: string)
    requires acct.positions == []
    ensures Get(acct.positions, name, FLAT).quantity == 0.0
  {
  }

  lemma Fewer(q: real, n: real, price: real)
    requires q <= n && price >= 0.0
    ensures Times(q, price) <= Times(n, price)
  {
    var r := NonNegativeProduct(n - q, price);
  }

  lemma ReachNonNegative(nav: real, w: real, lim: RiskLimits)
    requires nav >= 0.0 && lim.maxPositionPct >= 0.0 && lim.maxGrossLeverage >= 0.0
    ensures Times(nav, Reach(w, lim)) >= 0.0
  {
    var r := NonNegativeProduct(nav, Reach(w, lim));
  }

  lemma Rooms(ctx: OrderContext, acct: Account, lim: RiskLimits)
    requires Fresh(acct, lim)
    ensures PositionRoom(ctx, acct, lim) == Times(acct.nav, lim.maxPositionPct)
    ensures LeverageRoom(acct, lim) == Times(acct.nav, lim.maxGrossLeverage)
  {
  }

  lemma TimesSmaller(nav: real, a: real, b: real)
    requires nav >= 0.0
    ensures Times(nav, Smaller(a, b)) == Smaller(Times(nav, a), Times(nav, b))
  {
    TimesMonotone(nav, if a < b then a else b, if a < b then b else a);
  }

  lemma {:induction false} BatchWithin(w: Book, prices: Dict<real>, acct: Account, lim: RiskLimits, n: nat)
    requires Fresh(acct, lim) && n <= |w|
    ensures ValueSum(w, prices, acct, lim, n) <= Times(acct.nav, ReachSum(w, lim, n))
  {
    hide NameValue, Reach, Times, Fresh;
    if n > 0 {
      BatchWithin(w, prices, acct, lim, n - 1);
      NameWithin(w[n - 1].0, w[n - 1].1, prices, acct, lim);
      TimesSum(acct.nav, ReachSum(w, lim, n - 1), Reach(w[n - 1].1, lim));
    } else {
      TimesZero(acct.nav);
    }
  }

  // ---- and prices can make every order reach that far ----

  /** The prices at which every order is for exactly one share. */
  function OneSharePrices(w: Book, acct: Account, lim: RiskLimits): (p: Dict<real>)
    ensures |p| == |w|
  {
    seq(|w|, i requires 0 <= i < |w| => (w[i].0, Times(acct.nav, Reach(w[i].1, lim))))
  }

  lemma WholeFrom(x: real)
    requires x >= 1.0
    ensures WholeShares(x) >= 1.0 && (x == 1.0 ==> WholeShares(x) == 1.0)
    ensures Trunc(x) >= 1 && (x == 1.0 ==> Trunc(x) == 1)
    ensures Abs(Trunc(-x) as real) == Trunc(x) as real
  {
  }

  /** A share of NAV, priced at a smaller share of it. */
  lemma ShareRatio(nav: real, a: real, m: real)
    requires nav > 0.0 && 0.0 < m <= a
    ensures Times(nav, a) / Times(nav, m) >= 1.0 && Times(nav, m) > 0.0
    ensures a == m ==> Times(nav, a) / Times(nav, m) == 1.0
  {
    var p := PositiveProduct(nav, m);
    var q := Times(nav, a) / Times(nav, m);
    assert q * Times(nav, m) == Times(nav, a);
    TimesMonotone(nav, m, a);
    if q < 1.0 { var r := PositiveProduct(1.0 - q, Times(nav, m)); }
  }

  lemma NameReaches(name: string, w: real, prices: Dict<real>, acct: Account, lim: RiskLimits)
    requires Fresh(acct, lim) && Get(prices, name, 0.0) == Times(acct.nav, Reach(w, lim))
    ensures NameValue(name, w, prices, acct, lim) == Times(acct.nav, Reach(w, lim))
  {
    var m, price := Reach(w, lim), Get(prices, name, 0.0);
    if m == 0.0 {
      hide Evaluate;
      TimesZero(acct.nav);
    } else {
      hide Evaluate, Times, WholeShares, Trunc, Caps, Get;
      ShareRatio(acct.nav, Abs(w), m);
      ShareRatio(acct.nav, lim.maxPositionPct, m);
      ShareRatio(acct.nav, lim.maxGrossLeverage, m);
      OneShare(name, w, prices, acct, lim);
      TimesOne(price);
    }
  }

  lemma TargetAtLeastOne(nav: real, w: real, m: real)
    requires nav > 0.0 && 0.0 < m <= Abs(w)
    ensures Times(nav, m) > 0.0
    ensures var t := Abs(TargetShares(nav, w, Times(nav, m)) as real);
            t >= 1.0 && (Abs(w) == m ==> t == 1.0)
  {
    ShareRatio(nav, Abs(w), m);
    var x := Times(nav, Abs(w)) / Times(nav, m);
    WholeFrom(x);
    SignedRatio(nav, w, Times(nav, m));
  }

  lemma SignedRatio(nav: real, w: real, price: real)
    requires price > 0.0
    ensures nav * w / price == if w < 0.0 then -(Times(nav, Abs(w)) / price) else Times(nav, Abs(w)) / price
  {
  }

  lemma OneShare(name: string, w: real, prices: Dict<real>, acct: Account, lim: RiskLimits)
    requires Fresh(acct, lim) && Reach(w, lim) > 0.0 && Get(prices, name, 0.0) == Times(acct.nav, Reach(w, lim))
    ensures var delta := Delta(name, w, prices, acct);
            delta != 0.0
            && Passed(Evaluate(Context(name, delta, prices, []), acct, lim, false).verdict, Abs(delta)) == 1.0
  {
    hide Times, WholeShares, Trunc, TargetShares, Evaluate;
    var m, price := Reach(w, lim), Get(prices, name, 0.0);
    TargetAtLeastOne(acct.nav, w, m);
    var delta := Delta(name, w, prices, acct);
    var ctx := Context(name, delta, prices, []);
    NeverHalts(name, delta, prices, acct, lim);
    Rooms(ctx, acct, lim);
    ShareRatio(acct.nav, lim.maxPositionPct, m);
    ShareRatio(acct.nav, lim.maxGrossLeverage, m);
    WholeFrom(PositionRoom(ctx, acct, lim) / price);
    WholeFrom(LeverageRoom(acct, lim) / price);
    OneAllowed(ctx, acct, lim);
  }

  /** The tightest of the quantity and the two caps is one share. */
  lemma OneAllowed(ctx: OrderContext, acct: Account, lim: RiskLimits)
    requires ctx.price > 0.0 && acct.nav > 0.0 && !LossBreached(ctx, acct, lim) && !Reducing(ctx, acct)
    requires ctx.adv.None? && ctx.stopPrice.None?
    requires var a, b := WholeShares(PositionRoom(ctx, acct, lim) / ctx.price),
                         WholeShares(LeverageRoom(acct, lim) / ctx.price);
             ctx.quantity >= 1.0 && a >= 1.0 && b >= 1.0 && (ctx.quantity == 1.0 || a == 1.0 || b == 1.0)
    ensures Passed(Evaluate(ctx, acct, lim, false).verdict, ctx.quantity) == 1.0
  {
    hide WholeShares, PositionRoom, LeverageRoom, LossBreached, Reducing;
    var caps := Caps(ctx, acct, lim);
    assert caps[0] == WholeShares(PositionRoom(ctx, acct, lim) / ctx.price);
    assert caps[1] == WholeShares(LeverageRoom(acct, lim) / ctx.price);
    assert |caps| == 2;
    assert Tightest(ctx.quantity, caps) == 1.0;
  }

  lemma {:induction false} BatchReaches(w: Book, acct: Account, lim: RiskLimits, n: nat)
    requires Fresh(acct, lim) && Distinct(w) && n <= |w|
    ensures ValueSum(w, OneSharePrices(w, acct, lim), acct, lim, n) == Times(acct.nav, ReachSum(w, lim, n))
  {
    hide NameValue, Reach, Times, Fresh, Get;
    if n > 0 {
      BatchReaches(w, acct, lim, n - 1);
      var prices := OneSharePrices(w, acct, lim);
      GetAt(prices, n - 1, 0.0);
      NameReaches(w[n - 1].0, w[n - 1].1, prices, acct, lim);
      TimesSum(acct.nav, ReachSum(w, lim, n - 1), Reach(w[n - 1].1, lim));
    } else {
      TimesZero(acct.nav);
    }
  }

  ghost predicate BatchHolds(w: Book, prices: Dict<real>, acct: Account, lim: RiskLimits) {
    BatchValue(Build(w, |w|, prices, acct, [], lim, false).orders, prices) <= Times(acct.nav, lim.maxGrossLeverage)
  }

  /** From an account that holds nothing, the batch built from a book respects the leverage limit at all
      prices exactly when the shares its orders can reach add up to no more than the limit. */
  lemma BatchLeverageIff(w: Book, acct: Account, lim: RiskLimits)
    requires Fresh(acct, lim) && Distinct(w)
    ensures (forall prices :: BatchHolds(w, prices, acct, lim)) <==> ReachSum(w, lim, |w|) <= lim.maxGrossLeverage
  {
    hide Build, ValueSum, ReachSum, BatchValue, OneSharePrices, Times;
    var total := ReachSum(w, lim, |w|);
    if total <= lim.maxGrossLeverage {
      forall prices ensures BatchHolds(w, prices, acct, lim) {
        BatchIsSum(w, prices, acct, lim, |w|);
        BatchWithin(w, prices, acct, lim, |w|);
        TimesMonotone(acct.nav, total, lim.maxGrossLeverage);
      }
    } else {
      var prices := OneSharePrices(w, acct, lim);
      BatchIsSum(w, prices, acct, lim, |w|);
      BatchReaches(w, acct, lim, |w|);
      TimesStrict(acct.nav, lim.maxGrossLeverage, total);
      assert !BatchHolds(w, prices, acct, lim);
    }
  }

  lemma TimesStrict(nav: real, a: real, b: real)
    requires nav > 0.0 && a < b
    ensures Times(nav, a) < Times(nav, b)
  {
    var r := PositiveProduct(nav, b - a);
  }

  // ---- accounts with holdings ----

  /** What an order adds to the exposure of its name, from the position the account holds; negative when it
      takes some away. No name gets two orders (`OneOrderPerName`), so over a batch these add up. */
  function Change(o: Order, prices: Dict<real>, acct: Account): real {
    var held := Holdings(o.symbol, acct);
    Times(Abs(held + Signed(o)) - Abs(held), Get(prices, o.symbol, 0.0))
  }

  function NetChange(orders: seq<Order>, prices: Dict<real>, acct: Account): real {
    if |orders| == 0 then 0.0
    else NetChange(orders[..|orders| - 1], prices, acct) + Change(orders[|orders| - 1], prices, acct)
  }

  function Positive(x: real): real {
    if x < 0.0 then 0.0 else x
  }

  /** The exposure one name of the book can gain: the value of its order, within the room that both limits leave;
      for a sell from a long, which is not screened, by how much its target exceeds what is held. */
  function NameRoom(name: string, w: real, prices: Dict<real>, acct: Account, adv: Dict<real>, lim: RiskLimits): real {
    var price, delta, held := Get(prices, name, 0.0), Delta(name, w, prices, acct), Holdings(name, acct);
    var ctx := Context(name, delta, prices, adv);
    if delta == 0.0 then 0.0
    else if Reducing(ctx, acct) then Positive(Times(Abs(held + delta) - Abs(held), price))
    else Positive(Smaller(Times(Abs(delta), price), Smaller(PositionRoom(ctx, acct, lim), LeverageRoom(acct, lim))))
  }

  function RoomSum(w: Book, prices: Dict<real>, acct: Account, adv: Dict<real>, lim: RiskLimits, n: nat): real
    requires n <= |w|
  {
    if n == 0 then 0.0
    else RoomSum(w, prices, acct, adv, lim, n - 1) + NameRoom(w[n - 1].0, w[n - 1].1, prices, acct, adv, lim)
  }

  lemma ChangeAppends(orders: seq<Order>, o: Order, prices: Dict<real>, acct: Account)
    ensures NetChange(orders + [o], prices, acct) == NetChange(orders, prices, acct) + Change(o, prices, acct)
  {
    assert (orders + [o])[..|orders|] == orders;
  }

  lemma AbsMoves(held: real, move: real, q: real, price: real)
    requires price >= 0.0 && Abs(move) == q
    ensures Times(Abs(held + move) - Abs(held), price) <= Times(q, price)
  {
    var r := NonNegativeProduct(q - (Abs(held + move) - Abs(held)), price);
  }

  /** No order adds more than its name's room. */
  lemma ChangeWithin(name: string, w: real, prices: Dict<real>, acct: Account, adv: Dict<real>, lim: RiskLimits,
                     halted: bool, o: Order)
    requires Delta(name, w, prices, acct) != 0.0
    requires var delta := Delta(name, w, prices, acct);
             var verdict := Evaluate(Context(name, delta, prices, adv), acct, lim, halted).verdict;
             verdict != Reject && o == Order(name, delta > 0.0, Passed(verdict, Abs(delta)))
    ensures Change(o, prices, acct) <= NameRoom(name, w, prices, acct, adv, lim)
  {
    hide Times, Get, TargetShares, Caps, PositionRoom, LeverageRoom, LossBreached;
    var price, delta, held := Get(prices, name, 0.0), Delta(name, w, prices, acct), Holdings(name, acct);
    var ctx := Context(name, delta, prices, adv);
    if Reducing(ctx, acct) {
      assert o.quantity == Abs(delta);
    } else {
      hide Evaluate;
      CapsInMoney(ctx, acct, lim, halted);
      VerdictSound(ctx, acct, lim, halted);
      AbsMoves(held, Signed(o), o.quantity, price);
      Fewer(o.quantity, Abs(delta), price);
    }
  }

  /** Whatever the account holds, whatever volumes are known and whether or not it is halted: a batch adds no more
      exposure than the rooms of its names. */
  lemma {:induction false} BatchAddsWithin(w: Book, prices: Dict<real>, acct: Account, adv: Dict<real>,
                                           lim: RiskLimits, halted: bool, n: nat)
    requires n <= |w|
    ensures NetChange(Build(w, n, prices, acct, adv, lim, halted).orders, prices, acct)
              <= RoomSum(w, prices, acct, adv, lim, n)
  {
    hide AddName, NetChange, NameRoom;
    if n > 0 {
      BatchAddsWithin(w, prices, acct, adv, lim, halted, n - 1);
      NameAddsWithin(Build(w, n - 1, prices, acct, adv, lim, halted), w[n - 1].0, w[n - 1].1, prices, acct, adv, lim);
    } else {
      NothingOrdered(prices, acct);
    }
  }

  lemma NothingOrdered(prices: Dict<real>, acct: Account)
    ensures NetChange([], prices, acct) == 0.0
  {
  }

  lemma NameAddsWithin(out: Outcome, name: string, w: real, prices: Dict<real>, acct: Account, adv: Dict<real>,
                       lim: RiskLimits)
    ensures NetChange(AddName(out, name, w, prices, acct, adv, lim).orders, prices, acct)
              <= NetChange(out.orders, prices, acct) + NameRoom(name, w, prices, acct, adv, lim)
  {
    hide Evaluate, Delta, Change, NameRoom, Passed, NetChange, Context;
    var delta := Delta(name, w, prices, acct);
    var verdict := Evaluate(Context(name, delta, prices, adv), acct, lim, out.halted).verdict;
    RoomNonNegative(name, w, prices, acct, adv, lim);
    if delta != 0.0 && verdict != Reject {
      var o := Order(name, delta > 0.0, Passed(verdict, Abs(delta)));
      ChangeAppends(out.orders, o, prices, acct);
      ChangeWithin(name, w, prices, acct, adv, lim, out.halted, o);
    }
  }

  lemma RoomNonNegative(name: string, w: real, prices: Dict<real>, acct: Account, adv: Dict<real>, lim: RiskLimits)
    ensures NameRoom(name, w, prices, acct, adv, lim) >= 0.0
  {
    hide Delta, Times, Reducing, PositionRoom, LeverageRoom;
  }

  /** So the batch keeps the leverage limit when the exposure held and the rooms together do. */
  lemma BatchKeepsLeverage(w: Book, prices: Dict<real>, acct: Account, adv: Dict<real>, lim: RiskLimits, halted: bool)
    requires acct.grossExposure + RoomSum(w, prices, acct, adv, lim, |w|) <= Times(acct.nav, lim.maxGrossLeverage)
    ensures acct.grossExposure + NetChange(Build(w, |w|, prices, acct, adv, lim, halted).orders, prices, acct)
              <= Times(acct.nav, lim.maxGrossLeverage)
  {
    BatchAddsWithin(w, prices, acct, adv, lim, halted, |w|);
  }

  /** Two names at 80 percent each, both ordered in full: 1600 for a NAV of 1000 at leverage 1. */
  lemma BatchExceeds()
    ensures var lim := RiskLimits(1.0, 1.0, 0.2, 0.03, 0.2, 0.02);
            var acct := Account(1000.0, 0.0, 0.0, []);
            var w, prices := [("A", 0.8), ("B", 0.8)], [("A", 10.0), ("B", 10.0)];
            Build(w, 2, prices, acct, [], lim, false).orders == [Order("A", true, 80.0), Order("B", true, 80.0)]
  {
    var lim := RiskLimits(1.0, 1.0, 0.2, 0.03, 0.2, 0.02);
    var acct := Account(1000.0, 0.0, 0.0, []);
    var w, prices := [("A", 0.8), ("B", 0.8)], [("A", 10.0), ("B", 10.0)];
    GetAt(prices, 0, 0.0);
    GetAt(prices, 1, 0.0);
    EightyShares("A", prices, acct, lim);
    EightyShares("B", prices, acct, lim);
    hide Evaluate, Delta, Get;
    assert Build(w, 0, prices, acct, [], lim, false) == Outcome([], [], false);
    assert Build(w, 1, prices, acct, [], lim, false) == Outcome([Order("A", true, 80.0)], [], false);
  }

  lemma EightyShares(name: string, prices: Dict<real>, acct: Account, lim: RiskLimits)
    requires lim == RiskLimits(1.0, 1.0, 0.2, 0.03, 0.2, 0.02) && acct == Account(1000.0, 0.0, 0.0, [])
    requires Get(prices, name, 0.0) == 10.0
    ensures Delta(name, 0.8, prices, acct) == 80.0
    ensures Evaluate(Context(name, 80.0, prices, []), acct, lim, false) == Screened(Approve, false)
  {
    assert 1000.0 * 0.8 / 10.0 == 80.0;
    var ctx := Context(name, 80.0, prices, []);
    var caps := Caps(ctx, acct, lim);
    assert caps[0] == 100.0 && caps[1] == 100.0;
    NeverHalts(name, 80.0, prices, acct, lim);
  }
}
