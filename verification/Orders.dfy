/** From target weights to screened orders: whole-share targets, deltas against the held book, and
    the pre-trade risk engine that approves, clamps or rejects every one of them. */
module Orders {
  import opened Dicts
  import opened Reals
  import opened Exposure

  // ---- the risk engine ----

  datatype RiskLimits = RiskLimits(
    maxPositionPct: real, maxGrossLeverage: real, maxParticipationPct: real,
    dailyLossLimit: real, maxDrawdownHalt: real, singleTradeMaxLossPct: real)

  datatype Holding = Holding(quantity: real, marketValue: real)

  /** What the engine reads of the portfolio. */
  datatype Account = Account(nav: real, grossExposure: real, drawdown: real, positions: Dict<Holding>)

  datatype OrderContext = OrderContext(
    symbol: string, price: real, quantity: real, isBuy: bool, adv: Option<real>,
    stopPrice: Option<real>, dailyPnl: real, startOfDayEquity: Option<real>)

  datatype Verdict = Approve | Modify(quantity: real) | Reject

  /** A verdict together with the state of the kill switch after it. */
  datatype Screened = Screened(verdict: Verdict, halted: bool)

  const FLAT := Holding(0.0, 0.0)

  /** Whole shares, never negative. */
  function WholeShares(x: real): real {
    if Trunc(x) < 0 then 0.0 else Trunc(x) as real
  }

  /** What the position-size and the gross-leverage limits leave room for, in money. */
  function PositionRoom(ctx: OrderContext, acct: Account, lim: RiskLimits): real {
    lim.maxPositionPct * acct.nav - Abs(Get(acct.positions, ctx.symbol, FLAT).marketValue)
  }

  function LeverageRoom(acct: Account, lim: RiskLimits): real {
    lim.maxGrossLeverage * acct.nav - acct.grossExposure
  }

  /** In shares, what the day's volume leaves room for, and in money, what one trade may lose. */
  function VolumeRoom(adv: real, lim: RiskLimits): real {
    lim.maxParticipationPct * adv
  }

  function LossRoom(acct: Account, lim: RiskLimits): real {
    lim.singleTradeMaxLossPct * acct.nav
  }

  function Caps(ctx: OrderContext, acct: Account, lim: RiskLimits): seq<real>
    requires ctx.price > 0.0
  {
    [WholeShares(PositionRoom(ctx, acct, lim) / ctx.price),
     WholeShares(LeverageRoom(acct, lim) / ctx.price)]
    + (if ctx.adv.Some? && ctx.adv.value > 0.0
       then [WholeShares(VolumeRoom(ctx.adv.value, lim))] else [])
    + (if ctx.stopPrice.Some? && Abs(ctx.price - ctx.stopPrice.value) > 0.0
       then [WholeShares(LossRoom(acct, lim) / Abs(ctx.price - ctx.stopPrice.value))] else [])
  }

  /** The tightest of a quantity and the caps. */
  function Tightest(q: real, caps: seq<real>): (r: real)
    ensures r <= q && forall i :: 0 <= i < |caps| ==> r <= caps[i]
    ensures r == q || r in caps
  {
    if |caps| == 0 then q
    else
      var r := Tightest(q, caps[..|caps| - 1]);
      if caps[|caps| - 1] < r then caps[|caps| - 1] else r
  }

  /** Selling out of a long position never passes the size caps. */
  predicate Reducing(ctx: OrderContext, acct: Account) {
    !ctx.isBuy && Get(acct.positions, ctx.symbol, FLAT).quantity > 0.0
  }

  /** The account-level losses that trip the kill switch. */
  predicate LossBreached(ctx: OrderContext, acct: Account, lim: RiskLimits) {
    var sod := if ctx.startOfDayEquity.Some? && ctx.startOfDayEquity.value > 0.0
               then ctx.startOfDayEquity.value else acct.nav;
    ctx.dailyPnl <= -lim.dailyLossLimit * sod || acct.drawdown < -lim.maxDrawdownHalt
  }

  function Evaluate(ctx: OrderContext, acct: Account, lim: RiskLimits, halted: bool): Screened
  {
    if halted then Screened(Reject, true)
    else if ctx.price <= 0.0 || acct.nav <= 0.0 then Screened(Reject, false)
    else
      if LossBreached(ctx, acct, lim) then Screened(Reject, true)
      else if Reducing(ctx, acct) then Screened(Approve, false)
      else
        var qmax := Tightest(ctx.quantity, Caps(ctx, acct, lim));
        if qmax <= 0.0 then Screened(Reject, false)
        else if qmax < ctx.quantity then Screened(Modify(qmax), false)
        else Screened(Approve, false)
  }

  /** The quantity a verdict lets through. */
  function Passed(v: Verdict, quantity: real): real {
    match v
    case Approve => quantity
    case Modify(q) => q
    case Reject => 0.0
  }

  /** Whatever passes is a positive part of what was asked for; unless it only reduces a long, it
      satisfies every cap at once; and once the kill switch is on, nothing passes.
      Nor is more held back than needed: short of a loss breach, the order passes whole or is cut to
      one of the caps. */
  lemma VerdictSound(ctx: OrderContext, acct: Account, lim: RiskLimits, halted: bool)
    requires ctx.quantity > 0.0
    ensures var r := Evaluate(ctx, acct, lim, halted);
            && (r.verdict.Modify? ==> 0.0 < r.verdict.quantity < ctx.quantity)
            && (halted ==> r.halted && r.verdict == Reject)
            && (r.verdict != Reject ==>
                  && ctx.price > 0.0 && acct.nav > 0.0
                  && (Reducing(ctx, acct) ||
                      forall i :: 0 <= i < |Caps(ctx, acct, lim)| ==>
                        Passed(r.verdict, ctx.quantity) <= Caps(ctx, acct, lim)[i]))
            && (!halted && ctx.price > 0.0 && acct.nav > 0.0 && !LossBreached(ctx, acct, lim) ==>
                  var passed := Passed(r.verdict, ctx.quantity);
                  passed == ctx.quantity || (!Reducing(ctx, acct) && passed in Caps(ctx, acct, lim)))
  {
    hide Caps, LossBreached, Get;
    if ctx.price > 0.0 { CapsNonNegative(ctx, acct, lim); }
  }

  lemma WholeSharesBelow(x: real, y: real, q: real)
    requires y > 0.0 && 0.0 < q <= WholeShares(x / y)
    ensures Times(q, y) <= x
  {
    var d := x / y;
    assert d * y == x;
    var r := NonNegativeProduct(d - q, y);
  }

  /** In money: an order that adds exposure keeps the name within its share of NAV and the book
      within the gross-leverage limit. */
  lemma CapsInMoney(ctx: OrderContext, acct: Account, lim: RiskLimits, halted: bool)
    requires ctx.quantity > 0.0 && !Reducing(ctx, acct)
    requires Evaluate(ctx, acct, lim, halted).verdict != Reject
    ensures var q := Passed(Evaluate(ctx, acct, lim, halted).verdict, ctx.quantity);
            && q > 0.0
            && Times(q, ctx.price) <= PositionRoom(ctx, acct, lim)
            && Times(q, ctx.price) <= LeverageRoom(acct, lim)
  {
    VerdictSound(ctx, acct, lim, halted);
    hide Evaluate, WholeShares, PositionRoom, LeverageRoom, Times, Passed;
    var q, caps := Passed(Evaluate(ctx, acct, lim, halted).verdict, ctx.quantity), Caps(ctx, acct, lim);
    PassedPositive(ctx, acct, lim, halted);
    assert q <= caps[0] && q <= caps[1];
    WholeSharesBelow(PositionRoom(ctx, acct, lim), ctx.price, q);
    WholeSharesBelow(LeverageRoom(acct, lim), ctx.price, q);
  }

  lemma PassedPositive(ctx: OrderContext, acct: Account, lim: RiskLimits, halted: bool)
    requires ctx.quantity > 0.0 && Evaluate(ctx, acct, lim, halted).verdict != Reject
    ensures Passed(Evaluate(ctx, acct, lim, halted).verdict, ctx.quantity) > 0.0
  {
    VerdictSound(ctx, acct, lim, halted);
  }

  /** The kill switch is on after a check exactly when it was on or the account's loss of the day reaches its
      limit or its drawdown goes beyond the halt; with the switch on nothing passes. */
  lemma KillSwitchIff(ctx: OrderContext, acct: Account, lim: RiskLimits, halted: bool)
    ensures var r := Evaluate(ctx, acct, lim, halted);
            var start := match ctx.startOfDayEquity
                         case None => acct.nav
                         case Some(e) => if e > 0.0 then e else acct.nav;
            && (r.halted <==>
                  halted || (&& ctx.price > 0.0 && acct.nav > 0.0
                             && (ctx.dailyPnl + Times(lim.dailyLossLimit, start) <= 0.0
                                 || acct.drawdown + lim.maxDrawdownHalt < 0.0)))
            && (r.halted ==> r.verdict == Reject)
  {
    hide Tightest, Caps, Get;
    var start := if ctx.startOfDayEquity.Some? && ctx.startOfDayEquity.value > 0.0
                 then ctx.startOfDayEquity.value else acct.nav;
    assert -lim.dailyLossLimit * start == -Times(lim.dailyLossLimit, start);
  }

  /** In money and shares: q more of the name stay within its share of NAV, within the leverage of the account,
      within the share of the daily volume and within the loss allowed down to the stop. */
  ghost predicate Fits(ctx: OrderContext, acct: Account, lim: RiskLimits, q: real) {
    && Times(q, ctx.price) + Abs(Get(acct.positions, ctx.symbol, FLAT).marketValue) <= lim.maxPositionPct * acct.nav
    && Times(q, ctx.price) + acct.grossExposure <= lim.maxGrossLeverage * acct.nav
    && (ctx.adv.Some? && ctx.adv.value > 0.0 ==> q <= lim.maxParticipationPct * ctx.adv.value)
    && (ctx.stopPrice.Some? && ctx.stopPrice.value != ctx.price ==>
          Times(q, Abs(ctx.price - ctx.stopPrice.value)) <= lim.singleTradeMaxLossPct * acct.nav)
  }

  ghost predicate Whole(q: real) {
    q >= 0.0 && q == q.Floor as real
  }

  lemma WholeSharesAbove(x: real, y: real)
    requires y > 0.0
    ensures Times(WholeShares(x / y) + 1.0, y) > x && Whole(WholeShares(x / y))
  {
    var d := x / y;
    assert d * y == x;
    var r := PositiveProduct(WholeShares(d) + 1.0 - d, y);
  }

  /** The caps in order: name and leverage always, the volume and the stop where they are given. */
  lemma CapsInOrder(ctx: OrderContext, acct: Account, lim: RiskLimits)
    requires ctx.price > 0.0
    ensures var c, adv := Caps(ctx, acct, lim), ctx.adv.Some? && ctx.adv.value > 0.0;
            var stop := ctx.stopPrice.Some? && ctx.stopPrice.value != ctx.price;
            && |c| == 2 + (if adv then 1 else 0) + (if stop then 1 else 0)
            && c[0] == WholeShares(PositionRoom(ctx, acct, lim) / ctx.price)
            && c[1] == WholeShares(LeverageRoom(acct, lim) / ctx.price)
            && (adv ==> c[2] == WholeShares(VolumeRoom(ctx.adv.value, lim)))
            && (stop ==> c[|c| - 1] == WholeShares(LossRoom(acct, lim) / Abs(ctx.price - ctx.stopPrice.value)))
  {
    hide WholeShares, PositionRoom, LeverageRoom, VolumeRoom, LossRoom;
    var adv := if ctx.adv.Some? && ctx.adv.value > 0.0
               then [WholeShares(VolumeRoom(ctx.adv.value, lim))] else [];
    var stop := if ctx.stopPrice.Some? && Abs(ctx.price - ctx.stopPrice.value) > 0.0
                then [WholeShares(LossRoom(acct, lim) / Abs(ctx.price - ctx.stopPrice.value))] else [];
    var c := [WholeShares(PositionRoom(ctx, acct, lim) / ctx.price), WholeShares(LeverageRoom(acct, lim) / ctx.price)];
    assert Caps(ctx, acct, lim) == c + adv + stop;
  }

  /** A positive quantity within every cap fits. */
  lemma WithinCapsFits(ctx: OrderContext, acct: Account, lim: RiskLimits, q: real)
    requires ctx.price > 0.0 && q > 0.0
    requires forall i :: 0 <= i < |Caps(ctx, acct, lim)| ==> q <= Caps(ctx, acct, lim)[i]
    ensures Fits(ctx, acct, lim, q)
  {
    hide WholeShares, Times, Caps, Get;
    CapsInOrder(ctx, acct, lim);
    var caps := Caps(ctx, acct, lim);
    assert q <= caps[0] && q <= caps[1];
    WholeSharesBelow(PositionRoom(ctx, acct, lim), ctx.price, q);
    WholeSharesBelow(LeverageRoom(acct, lim), ctx.price, q);
    if ctx.adv.Some? && ctx.adv.value > 0.0 { WholeAtMost(VolumeRoom(ctx.adv.value, lim), q); }
    if ctx.stopPrice.Some? && ctx.stopPrice.value != ctx.price {
      WholeSharesBelow(LossRoom(acct, lim), Abs(ctx.price - ctx.stopPrice.value), q);
    }
  }

  /** A cap is a whole number of shares, and one share more does not fit. */
  lemma BeyondCapUnfit(ctx: OrderContext, acct: Account, lim: RiskLimits, i: nat)
    requires ctx.price > 0.0 && i < |Caps(ctx, acct, lim)|
    ensures Whole(Caps(ctx, acct, lim)[i]) && !Fits(ctx, acct, lim, Caps(ctx, acct, lim)[i] + 1.0)
  {
    hide WholeShares, Times, Caps, Whole, Get;
    CapsInOrder(ctx, acct, lim);
    if i == 0 {
      WholeSharesAbove(PositionRoom(ctx, acct, lim), ctx.price);
    } else if i == 1 {
      WholeSharesAbove(LeverageRoom(acct, lim), ctx.price);
    } else if i == 2 && ctx.adv.Some? && ctx.adv.value > 0.0 {
      WholeAbove(VolumeRoom(ctx.adv.value, lim));
    } else {
      WholeSharesAbove(LossRoom(acct, lim), Abs(ctx.price - ctx.stopPrice.value));
    }
  }

  lemma WholeAbove(x: real)
    ensures WholeShares(x) + 1.0 > x && Whole(WholeShares(x))
  {
  }

  lemma WholeAtMost(x: real, q: real)
    requires 0.0 < q <= WholeShares(x)
    ensures q <= x
  {
  }

  /** The verdict itself, short of a loss breach: a sale from a long passes whole; of any other order the largest
      part passes that fits every limit, whole shares where it is cut, and it is rejected when not one share
      fits. */
  lemma VerdictExact(ctx: OrderContext, acct: Account, lim: RiskLimits)
    requires ctx.quantity > 0.0 && ctx.price > 0.0 && acct.nav > 0.0 && !LossBreached(ctx, acct, lim)
    ensures var v := Evaluate(ctx, acct, lim, false).verdict;
            if !ctx.isBuy && Get(acct.positions, ctx.symbol, FLAT).quantity > 0.0 then v == Approve
            else
              match v
              case Approve => Fits(ctx, acct, lim, ctx.quantity)
              case Modify(q) =>
                0.0 < q < ctx.quantity && Whole(q) && Fits(ctx, acct, lim, q) && !Fits(ctx, acct, lim, q + 1.0)
              case Reject => !Fits(ctx, acct, lim, 1.0)
  {
    hide Fits, Caps, Get, LossBreached, Whole;
    var caps := Caps(ctx, acct, lim);
    var q := Tightest(ctx.quantity, caps);
    CapsNonNegative(ctx, acct, lim);
    if q > 0.0 { WithinCapsFits(ctx, acct, lim, q); }
    if q in caps {
      var i :| 0 <= i < |caps| && caps[i] == q;
      BeyondCapUnfit(ctx, acct, lim, i);
    }
  }

  /** The caps do not hold for every sell: one that starts from a long position passes unclamped even
      when it is large enough to turn the position short and past the caps. */
  lemma FlipPassesUncapped()
    ensures var lim := RiskLimits(0.1, 1.5, 0.2, 0.03, 0.2, 0.02);
            var acct := Account(1000.0, 10.0, 0.0, [("AAA", Holding(1.0, 10.0))]);
            var ctx := OrderContext("AAA", 10.0, 500.0, false, None, None, 0.0, None);
            Evaluate(ctx, acct, lim, false).verdict == Approve
  {
  }

  /** What passes of the order satisfies every cap. */
  predicate CapsRespected(ctx: OrderContext, acct: Account, lim: RiskLimits)
    requires ctx.price > 0.0
  {
    var passed := Passed(Evaluate(ctx, acct, lim, false).verdict, ctx.quantity);
    forall i :: 0 <= i < |Caps(ctx, acct, lim)| ==> passed <= Caps(ctx, acct, lim)[i]
  }

  /** Orders of every size respect the caps exactly when the order does not sell from a long position. */
  lemma CapsHoldIff(ctx: OrderContext, acct: Account, lim: RiskLimits)
    requires ctx.price > 0.0 && acct.nav > 0.0 && !LossBreached(ctx, acct, lim)
    ensures (forall q :: q > 0.0 ==> CapsRespected(ctx.(quantity := q), acct, lim)) <==> !Reducing(ctx, acct)
  {
    hide WholeShares;
    forall q | q > 0.0 && !Reducing(ctx, acct) ensures CapsRespected(ctx.(quantity := q), acct, lim) {
      var sized := ctx.(quantity := q);
      assert !Reducing(sized, acct);
      VerdictSound(sized, acct, lim, false);
      CapsNonNegative(sized, acct, lim);
    }
    if Reducing(ctx, acct) {
      var cap := Caps(ctx, acct, lim)[0];
      CapsNonNegative(ctx, acct, lim);
      var large := ctx.(quantity := cap + 1.0);
      assert Caps(large, acct, lim)[0] == cap;
      assert Passed(Evaluate(large, acct, lim, false).verdict, large.quantity) == cap + 1.0;
      assert !CapsRespected(ctx.(quantity := cap + 1.0), acct, lim);
    }
  }

  /** The trade takes the position towards zero and not past it. */
  predicate TowardsZero(ctx: OrderContext, acct: Account) {
    var held := Get(acct.positions, ctx.symbol, FLAT).quantity;
    0.0 < ctx.quantity <= Abs(held) && (ctx.isBuy <==> held < 0.0)
  }

  /** Buying back part of a short is screened like a new position: a buy of 20 that covers a short of 50, worth
      500 at a NAV of 1000, is rejected under a position limit of 10 percent. */
  lemma CoveringRejected()
    ensures var lim := RiskLimits(0.1, 1.5, 0.2, 0.03, 0.2, 0.02);
            var acct := Account(1000.0, 500.0, 0.0, [("AAA", Holding(-50.0, -500.0))]);
            var ctx := OrderContext("AAA", 10.0, 20.0, true, None, None, 0.0, None);
            TowardsZero(ctx, acct) && Evaluate(ctx, acct, lim, false).verdict == Reject
  {
  }

  /** A trade towards zero passes whole under all limits that are not breached exactly when it sells from a
      long. */
  lemma TowardsZeroPassesIff(ctx: OrderContext, acct: Account)
    requires ctx.price > 0.0 && acct.nav > 0.0 && TowardsZero(ctx, acct)
    ensures (forall lim: RiskLimits :: !LossBreached(ctx, acct, lim) ==>
               Evaluate(ctx, acct, lim, false).verdict == Approve) <==> Reducing(ctx, acct)
  {
    hide Caps, LossBreached;
    if !Reducing(ctx, acct) {
      var lim := NoRoom(ctx, acct);
      assert Evaluate(ctx, acct, lim, false).verdict != Approve;
    }
  }

  /** Limits that are not breached and leave a name no room. */
  lemma NoRoom(ctx: OrderContext, acct: Account) returns (lim: RiskLimits)
    requires ctx.price > 0.0 && acct.nav > 0.0 && ctx.quantity > 0.0
    ensures !LossBreached(ctx, acct, lim) && Tightest(ctx.quantity, Caps(ctx, acct, lim)) <= 0.0
  {
    var sod := if ctx.startOfDayEquity.Some? && ctx.startOfDayEquity.value > 0.0
               then ctx.startOfDayEquity.value else acct.nav;
    var loss := (Abs(ctx.dailyPnl) + 1.0) / sod;
    assert loss * sod == Abs(ctx.dailyPnl) + 1.0;
    lim := RiskLimits(0.0, 0.0, 0.0, loss, Abs(acct.drawdown) + 1.0, 0.0);
    assert -loss * sod == -(loss * sod);
    NotPositiveShares(PositionRoom(ctx, acct, lim), ctx.price);
    assert Caps(ctx, acct, lim)[0] == 0.0;
  }

  lemma NotPositiveShares(room: real, price: real)
    requires room <= 0.0 && price > 0.0
    ensures WholeShares(room / price) == 0.0
  {
    var q := room / price;
    assert q * price == room;
    if q > 0.0 { var r := PositiveProduct(q, price); }
  }

  lemma CapsNonNegative(ctx: OrderContext, acct: Account, lim: RiskLimits)
    requires ctx.price > 0.0
    ensures forall i :: 0 <= i < |Caps(ctx, acct, lim)| ==> Caps(ctx, acct, lim)[i] >= 0.0
  {
  }

  // ---- target shares ----

  function TargetShares(nav: real, w: real, price: real): int
    requires price > 0.0
  {
    Trunc(nav * w / price)
  }

  lemma TruncBounds(x: real)
    ensures Abs(Trunc(x) as real) <= Abs(x) < Abs(Trunc(x) as real) + 1.0
    ensures x >= 0.0 ==> Trunc(x) >= 0
    ensures x <= 0.0 ==> Trunc(x) <= 0
  {
  }

  /** The target has the sign of the money and is the largest whole number of shares whose value stays within
      |nav * w|. */
  lemma TargetBounds(nav: real, w: real, price: real)
    requires price > 0.0
    ensures var t := Abs(TargetShares(nav, w, price) as real);
            Times(t, price) <= Abs(nav * w) < Times(t + 1.0, price)
    ensures nav * w >= 0.0 ==> TargetShares(nav, w, price) >= 0
    ensures nav * w <= 0.0 ==> TargetShares(nav, w, price) <= 0
  {
    var money := nav * w;
    var x, t := money / price, Abs(TargetShares(nav, w, price) as real);
    TruncBounds(x);
    assert x * price == money;
    AbsTimes(x, price);
    assert Abs(money) == Times(Abs(x), price);
    var r1 := NonNegativeProduct(Abs(x) - t, price);
    var r2 := PositiveProduct(t + 1.0 - Abs(x), price);
  }

  /** Value of the targets of the first n names; names without a positive price have none. */
  function TargetNotional(nav: real, w: Book, prices: Dict<real>, n: nat): real
    requires n <= |w|
  {
    if n == 0 then 0.0
    else
      var price := Get(prices, w[n - 1].0, 0.0);
      TargetNotional(nav, w, prices, n - 1)
      + if price > 0.0
        then Times(Abs(TargetShares(nav, w[n - 1].1, price) as real), price)
        else 0.0
  }

  lemma {:induction false} NotionalWithinGross(nav: real, w: Book, prices: Dict<real>, n: nat)
    requires nav >= 0.0 && n <= |w|
    ensures TargetNotional(nav, w, prices, n) <= Times(nav, GrossN(w, Everything(), n))
  {
    if n == 0 {
      assert Times(nav, 0.0) == 0.0;
    } else {
      NotionalWithinGross(nav, w, prices, n - 1);
      var x, price := w[n - 1].1, Get(prices, w[n - 1].0, 0.0);
      AbsOfScaled(nav, x);
      TimesSum(nav, GrossN(w, Everything(), n - 1), Abs(x));
      if price > 0.0 { TargetBounds(nav, x, price); }
    }
  }

  lemma AbsOfScaled(nav: real, x: real)
    requires nav >= 0.0
    ensures Abs(nav * x) == Times(nav, Abs(x)) >= 0.0
  {
    AbsTimes(x, nav);
    assert nav * x == Times(x, nav);
  }

  /** End to end: whatever the sizing stage proposed, the summed value of the share targets built from
      the overlaid book stays within NAV times the gross budget. */
  lemma TargetsWithinBudget(nav: real, weights: Book, lim: Limits, sectors: Option<Dict<string>>,
                            avgCorrelation: real, prices: Dict<real>)
    requires nav >= 0.0 && NonNegative(lim)
    ensures var w := Overlaid(weights, lim, sectors, avgCorrelation);
            TargetNotional(nav, w, prices, |w|) <= Times(nav, Budget(lim, avgCorrelation))
  {
    var w := Overlaid(weights, lim, sectors, avgCorrelation);
    AllBudgetsHold(weights, lim, sectors, avgCorrelation);
    assert Gross(w, Everything()) <= Budget(lim, avgCorrelation);
    hide Overlaid, Budget, Within, TargetNotional;
    NotionalWithinGross(nav, w, prices, |w|);
    TimesMonotone(nav, Gross(w, Everything()), Budget(lim, avgCorrelation));
  }

  // ---- the order loop ----

  datatype Order = Order(symbol: string, isBuy: bool, quantity: real)

  datatype Outcome = Outcome(orders: seq<Order>, rejected: seq<string>, halted: bool)

  /** The change in position one name asks for: none without a positive price. */
  function Delta(name: string, w: real, prices: Dict<real>, acct: Account): real {
    var price := Get(prices, name, 0.0);
    if price > 0.0
    then TargetShares(acct.nav, w, price) as real - Get(acct.positions, name, FLAT).quantity
    else 0.0
  }

  function Context(name: string, delta: real, prices: Dict<real>, adv: Dict<real>): OrderContext {
    OrderContext(name, Get(prices, name, 0.0), Abs(delta), delta > 0.0,
                 if Has(adv, name) then Some(Get(adv, name, 0.0)) else None, None, 0.0, None)
  }

  /** What one name adds to the outcome. */
  function AddName(out: Outcome, name: string, w: real, prices: Dict<real>, acct: Account,
                   adv: Dict<real>, lim: RiskLimits): Outcome
  {
    var delta := Delta(name, w, prices, acct);
    if delta == 0.0 then out
    else
      var s := Evaluate(Context(name, delta, prices, adv), acct, lim, out.halted);
      match s.verdict
      case Reject => out.(rejected := out.rejected + [name], halted := s.halted)
      case _ => out.(orders := out.orders + [Order(name, delta > 0.0, Passed(s.verdict, Abs(delta)))],
                     halted := s.halted)
  }

  function Build(w: Book, n: nat, prices: Dict<real>, acct: Account, adv: Dict<real>,
                 lim: RiskLimits, halted: bool): Outcome
    requires n <= |w|
  {
    if n == 0 then Outcome([], [], halted)
    else AddName(Build(w, n - 1, prices, acct, adv, lim, halted),
                 w[n - 1].0, w[n - 1].1, prices, acct, adv, lim)
  }

  method MakeOrders(w: Book, prices: Dict<real>, acct: Account, adv: Dict<real>,
                    lim: RiskLimits, halted: bool)
    returns (orders: seq<Order>, rejected: seq<string>, halted': bool)
    ensures Outcome(orders, rejected, halted') == Build(w, |w|, prices, acct, adv, lim, halted)
  {
    orders, rejected, halted' := [], [], halted;
    hide TargetShares, Evaluate, Get, IndexOf;
    for i := 0 to |w|
      invariant Outcome(orders, rejected, halted') == Build(w, i, prices, acct, adv, lim, halted)
    {
      var name := w[i].0;
      var price := Get(prices, name, 0.0);
      if price <= 0.0 { continue; }
      var target := TargetShares(acct.nav, w[i].1, price) as real;
      var delta := target - Get(acct.positions, name, FLAT).quantity;
      if delta == 0.0 { continue; }
      var ctx := Context(name, delta, prices, adv);
      var s := Evaluate(ctx, acct, lim, halted');
      halted' := s.halted;
      if s.verdict == Reject {
        rejected := rejected + [name];
        continue;
      }
      var qty := if s.verdict.Modify? then s.verdict.quantity else Abs(delta);
      orders := orders + [Order(name, delta > 0.0, qty)];
    }
  }

  // ---- what the orders do ----

  function Signed(o: Order): real {
    if o.isBuy then o.quantity else -o.quantity
  }

  function Holdings(name: string, acct: Account): real {
    Get(acct.positions, name, FLAT).quantity
  }

  /** The order moves its position towards the target and not past it. */
  ghost predicate MovesTowardsTarget(o: Order, w: real, prices: Dict<real>, acct: Account) {
    var price := Get(prices, o.symbol, 0.0);
    && price > 0.0
    && var cur, target := Holdings(o.symbol, acct), TargetShares(acct.nav, w, price) as real;
       cur < cur + Signed(o) <= target || target <= cur + Signed(o) < cur
  }

  /** Orders come from the names of the book; each moves its
      position towards its target and not past it; and an order is shorter than the full change only
      where the risk engine clamped it. */
  lemma {:induction false} OrdersMoveTowardsTargets(w: Book, n: nat, prices: Dict<real>, acct: Account,
                                                    adv: Dict<real>, lim: RiskLimits, halted: bool, k: nat)
    requires n <= |w| && k < |Build(w, n, prices, acct, adv, lim, halted).orders|
    ensures exists i :: 0 <= i < n && FromName(w, i, Build(w, n, prices, acct, adv, lim, halted).orders[k],
                                               prices, acct, adv, lim)
  {
    hide Evaluate, Delta, Context, Passed, FromName;
    var before := Build(w, n - 1, prices, acct, adv, lim, halted);
    var out := Build(w, n, prices, acct, adv, lim, halted);
    if k < |before.orders| {
      OrdersMoveTowardsTargets(w, n - 1, prices, acct, adv, lim, halted, k);
      assert out.orders[k] == before.orders[k];
    } else {
      NameMovesTowardsTarget(w, n - 1, prices, acct, adv, lim, before.halted);
      assert FromName(w, n - 1, out.orders[k], prices, acct, adv, lim);
    }
  }

  lemma NameMovesTowardsTarget(w: Book, i: nat, prices: Dict<real>, acct: Account, adv: Dict<real>,
                               lim: RiskLimits, halted: bool)
    requires i < |w|
    ensures var delta := Delta(w[i].0, w[i].1, prices, acct);
            var v := Evaluate(Context(w[i].0, delta, prices, adv), acct, lim, halted).verdict;
            delta != 0.0 && v != Reject ==>
              FromName(w, i, Order(w[i].0, delta > 0.0, Passed(v, Abs(delta))), prices, acct, adv, lim)
  {
    hide TargetShares, Caps, LossBreached, Get;
    var delta := Delta(w[i].0, w[i].1, prices, acct);
    if delta != 0.0 { VerdictSound(Context(w[i].0, delta, prices, adv), acct, lim, halted); }
  }

  /** Order o is what name i of the book led to. */
  ghost predicate FromName(w: Book, i: nat, o: Order, prices: Dict<real>, acct: Account,
                           adv: Dict<real>, lim: RiskLimits)
    requires i < |w|
  {
    && o.symbol == w[i].0
    && MovesTowardsTarget(o, w[i].1, prices, acct)
    && var delta := Delta(w[i].0, w[i].1, prices, acct);
       var s := Evaluate(Context(w[i].0, delta, prices, adv), acct, lim, false);
       && o.quantity == Passed(s.verdict, Abs(delta))
       && (s.verdict == Approve ==>
             Holdings(o.symbol, acct) + Signed(o)
               == TargetShares(acct.nav, w[i].1, Get(prices, o.symbol, 0.0)) as real)
  }

  /** No name gets two orders. */
  lemma {:induction false} OneOrderPerName(w: Book, n: nat, prices: Dict<real>, acct: Account,
                                           adv: Dict<real>, lim: RiskLimits, halted: bool, k: nat, l: nat)
    requires Distinct(w) && n <= |w|
    requires k < l < |Build(w, n, prices, acct, adv, lim, halted).orders|
    ensures var orders := Build(w, n, prices, acct, adv, lim, halted).orders;
            orders[k].symbol != orders[l].symbol
  {
    hide Evaluate, Delta;
    var before := Build(w, n - 1, prices, acct, adv, lim, halted);
    var out := Build(w, n, prices, acct, adv, lim, halted);
    assert out.orders[k] == before.orders[k];
    if l < |before.orders| {
      OneOrderPerName(w, n - 1, prices, acct, adv, lim, halted, k, l);
    } else {
      OrdersMoveTowardsTargets(w, n - 1, prices, acct, adv, lim, halted, k);
    }
  }

  predicate Mentions(out: Outcome, name: string) {
    (exists k :: 0 <= k < |out.orders| && out.orders[k].symbol == name) || name in out.rejected
  }

  predicate OffTarget(name: string, w: real, prices: Dict<real>, acct: Account) {
    var price := Get(prices, name, 0.0);
    price > 0.0 && TargetShares(acct.nav, w, price) as real != Holdings(name, acct)
  }

  lemma OffTargetIff(name: string, w: real, prices: Dict<real>, acct: Account)
    ensures Delta(name, w, prices, acct) != 0.0 <==> OffTarget(name, w, prices, acct)
  {
    hide TargetShares;
  }

  /** Conversely every name with a positive price that is off target is ordered or rejected, and no
      other name is mentioned. */
  lemma {:induction false} MentionedIffOffTarget(w: Book, n: nat, prices: Dict<real>, acct: Account,
                                                 adv: Dict<real>, lim: RiskLimits, halted: bool, name: string)
    requires n <= |w|
    ensures Mentions(Build(w, n, prices, acct, adv, lim, halted), name)
       <==> exists i :: 0 <= i < n && w[i].0 == name && OffTarget(name, w[i].1, prices, acct)
  {
    hide Evaluate, Delta, Context, Passed, OffTarget;
    if n > 0 {
      OffTargetIff(w[n - 1].0, w[n - 1].1, prices, acct);
      MentionedIffOffTarget(w, n - 1, prices, acct, adv, lim, halted, name);
      var before := Build(w, n - 1, prices, acct, adv, lim, halted);
      var out := Build(w, n, prices, acct, adv, lim, halted);
      if Delta(w[n - 1].0, w[n - 1].1, prices, acct) != 0.0 {
        if |out.orders| > |before.orders| {
          assert out.orders[|before.orders|].symbol == w[n - 1].0;
          forall k | 0 <= k < |before.orders| ensures out.orders[k] == before.orders[k] {}
        } else {
          assert out.rejected[|before.rejected|] == w[n - 1].0;
        }
      }
    }
  }

  /** Every order that does not sell from a long fits its limits at the name's price and daily volume. */
  lemma OrderFits(w: Book, n: nat, prices: Dict<real>, acct: Account, adv: Dict<real>, lim: RiskLimits,
                  halted: bool, k: nat)
    requires n <= |w| && k < |Build(w, n, prices, acct, adv, lim, halted).orders|
    ensures var o := Build(w, n, prices, acct, adv, lim, halted).orders[k];
            var price, held := Get(prices, o.symbol, 0.0), Get(acct.positions, o.symbol, FLAT);
            o.isBuy || held.quantity <= 0.0 ==>
              && Times(o.quantity, price) + Abs(held.marketValue) <= lim.maxPositionPct * acct.nav
              && Times(o.quantity, price) + acct.grossExposure <= lim.maxGrossLeverage * acct.nav
              && (Has(adv, o.symbol) && Get(adv, o.symbol, 0.0) > 0.0 ==>
                    o.quantity <= lim.maxParticipationPct * Get(adv, o.symbol, 0.0))
  {
    hide Evaluate, Get, IndexOf, Times, LossBreached, TargetShares, Build, Passed;
    OrdersMoveTowardsTargets(w, n, prices, acct, adv, lim, halted, k);
    var o := Build(w, n, prices, acct, adv, lim, halted).orders[k];
    var i :| 0 <= i < n && FromName(w, i, o, prices, acct, adv, lim);
    PassedFits(Context(w[i].0, Delta(w[i].0, w[i].1, prices, acct), prices, adv), acct, lim, o.quantity);
  }

  lemma PassedFits(ctx: OrderContext, acct: Account, lim: RiskLimits, q: real)
    requires ctx.quantity > 0.0 && q == Passed(Evaluate(ctx, acct, lim, false).verdict, ctx.quantity)
    ensures q >= 0.0
    ensures q > 0.0 && (ctx.isBuy || Get(acct.positions, ctx.symbol, FLAT).quantity <= 0.0) ==>
              Fits(ctx, acct, lim, q)
  {
    hide Fits, Tightest, Caps, Get;
    if ctx.price > 0.0 && acct.nav > 0.0 && !LossBreached(ctx, acct, lim) { VerdictExact(ctx, acct, lim); }
  }

  /** The account is beyond its drawdown, or allows no daily loss at all. */
  predicate Stricken(acct: Account, lim: RiskLimits) {
    acct.nav > 0.0 && (Times(lim.dailyLossLimit, acct.nav) <= 0.0 || acct.drawdown + lim.maxDrawdownHalt < 0.0)
  }

  lemma NameHaltIff(out: Outcome, name: string, w: real, prices: Dict<real>, acct: Account, adv: Dict<real>,
                    lim: RiskLimits)
    ensures var r := AddName(out, name, w, prices, acct, adv, lim);
            && (r.halted <==> out.halted || (Stricken(acct, lim) && OffTarget(name, w, prices, acct)))
            && (out.halted || Stricken(acct, lim) ==> r.orders == out.orders)
  {
    hide Evaluate, Times, Passed, Get, TargetShares;
    KillSwitchIff(Context(name, Delta(name, w, prices, acct), prices, adv), acct, lim, out.halted);
  }

  /** A batch halts exactly when the switch was on before it, or the account is stricken and some priced name is
      off target; in either state it places no order at all. */
  lemma {:induction false} BatchHaltIff(w: Book, n: nat, prices: Dict<real>, acct: Account, adv: Dict<real>,
                                        lim: RiskLimits, halted: bool)
    requires n <= |w|
    ensures var out := Build(w, n, prices, acct, adv, lim, halted);
            && (out.halted <==>
                  halted || (&& Stricken(acct, lim)
                             && exists i :: 0 <= i < n && OffTarget(w[i].0, w[i].1, prices, acct)))
            && (halted || Stricken(acct, lim) ==> out.orders == [])
  {
    hide AddName, OffTarget, Stricken;
    if n > 0 {
      BatchHaltIff(w, n - 1, prices, acct, adv, lim, halted);
      NameHaltIff(Build(w, n - 1, prices, acct, adv, lim, halted), w[n - 1].0, w[n - 1].1, prices, acct, adv, lim);
    }
  }

  /** Name i has the order the risk engine leaves of its change, or is rejected because the engine rejects that. */
  ghost predicate Resolved(out: Outcome, w: Book, i: nat, prices: Dict<real>, acct: Account, adv: Dict<real>,
                           lim: RiskLimits)
    requires i < |w|
  {
    var change := Context(w[i].0, Delta(w[i].0, w[i].1, prices, acct), prices, adv);
    if Evaluate(change, acct, lim, false).verdict == Reject then w[i].0 in out.rejected
    else exists k :: 0 <= k < |out.orders| && FromName(w, i, out.orders[k], prices, acct, adv, lim)
  }

  lemma StaysResolved(a: Outcome, b: Outcome, w: Book, i: nat, prices: Dict<real>, acct: Account, adv: Dict<real>,
                      lim: RiskLimits)
    requires i < |w| && Resolved(a, w, i, prices, acct, adv, lim)
    requires a.orders <= b.orders && a.rejected <= b.rejected
    ensures Resolved(b, w, i, prices, acct, adv, lim)
  {
    hide Evaluate, Delta, Context, FromName;
    var change := Context(w[i].0, Delta(w[i].0, w[i].1, prices, acct), prices, adv);
    if Evaluate(change, acct, lim, false).verdict == Reject {
      var k :| 0 <= k < |a.rejected| && a.rejected[k] == w[i].0;
      assert b.rejected[k] == w[i].0;
    } else {
      var k :| 0 <= k < |a.orders| && FromName(w, i, a.orders[k], prices, acct, adv, lim);
      assert b.orders[k] == a.orders[k];
    }
  }

  lemma NameResolved(out: Outcome, w: Book, i: nat, prices: Dict<real>, acct: Account, adv: Dict<real>,
                     lim: RiskLimits)
    requires i < |w| && OffTarget(w[i].0, w[i].1, prices, acct) && !out.halted
    ensures Resolved(AddName(out, w[i].0, w[i].1, prices, acct, adv, lim), w, i, prices, acct, adv, lim)
  {
    hide Evaluate, Delta, Context, Passed, FromName, OffTarget;
    OffTargetIff(w[i].0, w[i].1, prices, acct);
    NameMovesTowardsTarget(w, i, prices, acct, adv, lim, false);
    var r := AddName(out, w[i].0, w[i].1, prices, acct, adv, lim);
    if |r.orders| > |out.orders| {
      assert FromName(w, i, r.orders[|out.orders|], prices, acct, adv, lim);
    } else {
      assert r.rejected[|out.rejected|] == w[i].0;
    }
  }

  /** Where neither is the case, each name that is off target is resolved. */
  lemma {:induction false} EveryNameResolved(w: Book, n: nat, prices: Dict<real>, acct: Account, adv: Dict<real>,
                                             lim: RiskLimits, i: nat)
    requires i < n <= |w| && OffTarget(w[i].0, w[i].1, prices, acct) && !Stricken(acct, lim)
    ensures Resolved(Build(w, n, prices, acct, adv, lim, false), w, i, prices, acct, adv, lim)
  {
    hide Evaluate, Delta, OffTarget, Stricken, Resolved, FromName;
    var before := Build(w, n - 1, prices, acct, adv, lim, false);
    BatchHaltIff(w, n - 1, prices, acct, adv, lim, false);
    if i < n - 1 {
      EveryNameResolved(w, n - 1, prices, acct, adv, lim, i);
      StaysResolved(before, Build(w, n, prices, acct, adv, lim, false), w, i, prices, acct, adv, lim);
    } else {
      NameResolved(before, w, i, prices, acct, adv, lim);
    }
  }
}
