/** The simulated account: cash, average-cost positions and the high-water mark. */
module Portfolio {
  import opened Dicts
  import opened Reals
  import opened Sums

  datatype Side = Buy | Sell

  datatype Position = Position(quantity: real, avgCost: real, realizedPnl: real, lastPrice: real)

  const EMPTY := Position(0.0, 0.0, 0.0, 0.0)

  datatype Account = Account(cash: real, positions: Dict<Position>, peak: real)

  datatype Fill = Fill(
    timestamp: int, symbol: string, side: Side, quantity: real, price: real, commission: real,
    orderId: nat, seqNo: nat, bar: nat)

  // ---- positions ----

  /** Add to a long or cover a short; crossing zero restarts the cost at the price. */
  function Bought(pos: Position, quantity: real, price: real): Position
    requires quantity > 0.0
  {
    if pos.quantity < 0.0 then
      var cover := if quantity < -pos.quantity then quantity else -pos.quantity;
      var rest := quantity - cover;
      pos.(realizedPnl := pos.realizedPnl + Times(pos.avgCost - price, cover),
           quantity := pos.quantity + cover + rest,
           avgCost := if rest > 0.0 then price else pos.avgCost)
    else
      pos.(quantity := pos.quantity + quantity,
           avgCost := (Times(pos.avgCost, pos.quantity) + Times(price, quantity)) / (pos.quantity + quantity))
  }

  /** Reduce a long or add to a short; crossing zero restarts the cost at the price. */
  function Sold(pos: Position, quantity: real, price: real): Position
    requires quantity > 0.0
  {
    if pos.quantity > 0.0 then
      var close := if quantity < pos.quantity then quantity else pos.quantity;
      var rest := quantity - close;
      pos.(realizedPnl := pos.realizedPnl + Times(price - pos.avgCost, close),
           quantity := pos.quantity - close - rest,
           avgCost := if rest > 0.0 then price else pos.avgCost)
    else
      pos.(quantity := pos.quantity - quantity,
           avgCost := (Times(pos.avgCost, -pos.quantity) + Times(price, quantity)) / (-(pos.quantity - quantity)))
  }

  /** Realised profit less the signed cost of what is held: the cash a position has produced. */
  function Booked(pos: Position): real {
    pos.realizedPnl - Times(pos.avgCost, pos.quantity)
  }

  lemma BoughtBooks(pos: Position, quantity: real, price: real)
    requires quantity > 0.0
    ensures Booked(Bought(pos, quantity, price)) == Booked(pos) - Times(price, quantity)
    ensures Bought(pos, quantity, price).quantity == pos.quantity + quantity
  {
    if pos.quantity < 0.0 {
      var cover := if quantity < -pos.quantity then quantity else -pos.quantity;
      CoverAlgebra(pos.avgCost, price, pos.quantity, cover, quantity - cover);
    } else {
      DivideTimes(Times(pos.avgCost, pos.quantity) + Times(price, quantity), pos.quantity + quantity);
    }
  }

  lemma SoldBooks(pos: Position, quantity: real, price: real)
    requires quantity > 0.0
    ensures Booked(Sold(pos, quantity, price)) == Booked(pos) + Times(price, quantity)
    ensures Sold(pos, quantity, price).quantity == pos.quantity - quantity
  {
    if pos.quantity > 0.0 {
      var close := if quantity < pos.quantity then quantity else pos.quantity;
      CoverAlgebra(pos.avgCost, price, pos.quantity, -close, close - quantity);
      TimesSigns(pos.avgCost - price, close);
      TimesSigns(price, quantity);
    } else {
      DivideTimes(Times(pos.avgCost, -pos.quantity) + Times(price, quantity), -(pos.quantity - quantity));
      TimesSigns(pos.avgCost, pos.quantity);
      var avg := (Times(pos.avgCost, -pos.quantity) + Times(price, quantity)) / (-(pos.quantity - quantity));
      TimesSigns(avg, pos.quantity - quantity);
    }
  }

  lemma TimesSigns(a: real, b: real)
    ensures Times(a, -b) == -Times(a, b) && Times(-a, b) == -Times(a, b)
  {
  }

  lemma DivideTimes(x: real, d: real)
    requires d != 0.0
    ensures Times(x / d, d) == x
  {
  }

  /** Trading `cover` back towards zero and `rest` beyond it, at one price. */
  lemma CoverAlgebra(avg: real, price: real, held: real, cover: real, rest: real)
    requires rest != 0.0 ==> held + cover == 0.0
    ensures rest == 0.0 ==>
              Times(avg - price, cover) - Times(avg, held + cover) == -Times(avg, held) - Times(price, cover)
    ensures rest != 0.0 ==>
              Times(avg - price, cover) - Times(price, held + cover + rest)
                == -Times(avg, held) - Times(price, cover + rest)
  {
    if rest != 0.0 { assert cover == -held; }
  }

  /** What a purchase realises and what it costs: below zero it realises the difference to the average cost on
      what it covers and leaves that cost alone, beyond zero the cost is the price; from zero on it realises
      nothing and averages. */
  lemma BoughtSplit(pos: Position, quantity: real, price: real)
    requires quantity > 0.0
    ensures var r, short := Bought(pos, quantity, price), -pos.quantity;
            && r.lastPrice == pos.lastPrice
            && (0.0 < short && quantity <= short ==>
                  r.realizedPnl == pos.realizedPnl + Times(pos.avgCost - price, quantity) && r.avgCost == pos.avgCost)
            && (0.0 < short < quantity ==>
                  r.realizedPnl == pos.realizedPnl + Times(pos.avgCost - price, short) && r.avgCost == price)
            && (short <= 0.0 ==>
                  && r.realizedPnl == pos.realizedPnl
                  && Times(r.avgCost, pos.quantity + quantity)
                       == Times(pos.avgCost, pos.quantity) + Times(price, quantity))
  {
    hide Times;
    if pos.quantity >= 0.0 {
      DivideTimes(Times(pos.avgCost, pos.quantity) + Times(price, quantity), pos.quantity + quantity);
    }
  }

  /** Likewise for a sale, from a long position. */
  lemma SoldSplit(pos: Position, quantity: real, price: real)
    requires quantity > 0.0
    ensures var r, long := Sold(pos, quantity, price), pos.quantity;
            && r.lastPrice == pos.lastPrice
            && (0.0 < long && quantity <= long ==>
                  r.realizedPnl == pos.realizedPnl + Times(price - pos.avgCost, quantity) && r.avgCost == pos.avgCost)
            && (0.0 < long < quantity ==>
                  r.realizedPnl == pos.realizedPnl + Times(price - pos.avgCost, long) && r.avgCost == price)
            && (long <= 0.0 ==>
                  && r.realizedPnl == pos.realizedPnl
                  && Times(r.avgCost, quantity - long) == Times(pos.avgCost, -long) + Times(price, quantity))
  {
    hide Times;
    if pos.quantity <= 0.0 {
      DivideTimes(Times(pos.avgCost, -pos.quantity) + Times(price, quantity), quantity - pos.quantity);
    }
  }

  /** A purchase may come in parts: two of them at one price leave the position that the whole one does, on
      whichever side of zero the first part ends. */
  lemma PartsBuyTheWhole(pos: Position, a: real, b: real, price: real)
    requires a > 0.0 && b > 0.0
    ensures Bought(Bought(pos, a, price), b, price) == Bought(pos, a + b, price)
  {
    var first := Bought(pos, a, price);
    BoughtParts(pos, a, b, price);
    BoughtBooks(pos, a, price);
    BoughtBooks(first, b, price);
    BoughtBooks(pos, a + b, price);
  }

  lemma BoughtParts(pos: Position, a: real, b: real, price: real)
    requires a > 0.0 && b > 0.0
    ensures var whole, parts := Bought(pos, a + b, price), Bought(Bought(pos, a, price), b, price);
            whole.realizedPnl == parts.realizedPnl && whole.avgCost == parts.avgCost
  {
    hide Bought;
    if pos.quantity >= 0.0 { BoughtLong(pos, a, b, price); } else { BoughtShort(pos, a, b, price); }
  }

  lemma BoughtLong(pos: Position, a: real, b: real, price: real)
    requires a > 0.0 && b > 0.0 && pos.quantity >= 0.0
    ensures var whole, parts := Bought(pos, a + b, price), Bought(Bought(pos, a, price), b, price);
            whole.realizedPnl == parts.realizedPnl && whole.avgCost == parts.avgCost
  {
    hide Times;
    TimesSum(price, a, b);
    DivideTimes(Times(pos.avgCost, pos.quantity) + Times(price, a), pos.quantity + a);
  }

  lemma BoughtShort(pos: Position, a: real, b: real, price: real)
    requires a > 0.0 && b > 0.0 && pos.quantity < 0.0
    ensures var whole, parts := Bought(pos, a + b, price), Bought(Bought(pos, a, price), b, price);
            whole.realizedPnl == parts.realizedPnl && whole.avgCost == parts.avgCost
  {
    hide Times;
    var short := -pos.quantity;
    if a > short {
      AveragePrice(price, a - short, b);
    } else if a == short {
      TimesZero(pos.avgCost);
      DivideBack(price, b);
    } else {
      TimesSum(pos.avgCost - price, a, if a + b <= short then b else short - a);
    }
  }

  lemma PartsSellTheWhole(pos: Position, a: real, b: real, price: real)
    requires a > 0.0 && b > 0.0
    ensures Sold(Sold(pos, a, price), b, price) == Sold(pos, a + b, price)
  {
    SoldParts(pos, a, b, price);
    SoldBooks(pos, a, price);
    SoldBooks(Sold(pos, a, price), b, price);
    SoldBooks(pos, a + b, price);
  }

  lemma SoldParts(pos: Position, a: real, b: real, price: real)
    requires a > 0.0 && b > 0.0
    ensures var whole, parts := Sold(pos, a + b, price), Sold(Sold(pos, a, price), b, price);
            whole.realizedPnl == parts.realizedPnl && whole.avgCost == parts.avgCost
  {
    hide Sold;
    if pos.quantity <= 0.0 { SoldShort(pos, a, b, price); } else { SoldLong(pos, a, b, price); }
  }

  lemma SoldShort(pos: Position, a: real, b: real, price: real)
    requires a > 0.0 && b > 0.0 && pos.quantity <= 0.0
    ensures var whole, parts := Sold(pos, a + b, price), Sold(Sold(pos, a, price), b, price);
            whole.realizedPnl == parts.realizedPnl && whole.avgCost == parts.avgCost
  {
    hide Times;
    TimesSum(price, a, b);
    DivideTimes(Times(pos.avgCost, -pos.quantity) + Times(price, a), a - pos.quantity);
  }

  lemma SoldLong(pos: Position, a: real, b: real, price: real)
    requires a > 0.0 && b > 0.0 && pos.quantity > 0.0
    ensures var whole, parts := Sold(pos, a + b, price), Sold(Sold(pos, a, price), b, price);
            whole.realizedPnl == parts.realizedPnl && whole.avgCost == parts.avgCost
  {
    hide Times;
    var long := pos.quantity;
    if a > long {
      AveragePrice(price, a - long, b);
    } else if a == long {
      TimesZero(pos.avgCost);
      DivideBack(price, b);
    } else {
      TimesSum(price - pos.avgCost, a, if a + b <= long then b else long - a);
    }
  }

  lemma AveragePrice(price: real, held: real, more: real)
    requires held + more != 0.0
    ensures (Times(price, held) + Times(price, more)) / (held + more) == price
  {
    TimesSum(price, held, more);
    DivideBack(price, held + more);
  }

  lemma DivideBack(x: real, d: real)
    requires d != 0.0
    ensures Times(x, d) / d == x
  {
  }

  // ---- the account ----

  function Lookup(acct: Account, symbol: string): Position {
    Get(acct.positions, symbol, EMPTY)
  }

  /** position(): creates an empty position on first use. */
  function Touched(acct: Account, symbol: string): Account {
    acct.(positions := Put(acct.positions, symbol, Lookup(acct, symbol)))
  }

  function MarkToMarket(acct: Account, symbol: string, price: real): Account {
    acct.(positions := Put(acct.positions, symbol, Lookup(acct, symbol).(lastPrice := price)))
  }

  /** Cash paid (negative) or received for a fill, commission included. */
  function CashDelta(f: Fill): real {
    (if f.side == Buy then -Times(f.price, f.quantity) else Times(f.price, f.quantity)) - f.commission
  }

  function SignedQuantity(f: Fill): real {
    if f.side == Buy then f.quantity else -f.quantity
  }

  function ApplyFill(acct: Account, f: Fill): Account
    requires f.quantity > 0.0
  {
    var pos := Lookup(acct, f.symbol);
    var pos' := if f.side == Buy then Bought(pos, f.quantity, f.price) else Sold(pos, f.quantity, f.price);
    acct.(positions := Put(acct.positions, f.symbol, pos'), cash := acct.cash + CashDelta(f))
  }

  function MarketValue(pos: Position): real {
    Times(pos.lastPrice, pos.quantity)
  }

  function UnrealizedPnl(pos: Position): real {
    if pos.quantity == 0.0 then 0.0 else Times(pos.lastPrice - pos.avgCost, pos.quantity)
  }

  // Values of one entry, named so that sums over them can be compared.

  function ValueOf(): ((string, Position)) -> real { (e: (string, Position)) => MarketValue(e.1) }

  function ExposureOf(): ((string, Position)) -> real { (e: (string, Position)) => Abs(MarketValue(e.1)) }

  function UnrealizedOf(): ((string, Position)) -> real { (e: (string, Position)) => UnrealizedPnl(e.1) }

  function RealizedOf(): ((string, Position)) -> real { (e: (string, Position)) => e.1.realizedPnl }

  function BookedOf(): ((string, Position)) -> real { (e: (string, Position)) => Booked(e.1) }

  function TotalValue(acct: Account): real {
    acct.cash + SumOver(acct.positions, ValueOf())
  }

  function GrossExposure(acct: Account): real {
    SumOver(acct.positions, ExposureOf())
  }

  function RaisedPeak(acct: Account): Account {
    var current := TotalValue(acct);
    if current > acct.peak then acct.(peak := current) else acct
  }

  function Drawdown(acct: Account): real {
    if acct.peak <= 0.0 then 0.0 else (TotalValue(acct) - acct.peak) / acct.peak
  }

  /** The account is worth its cash and its positions at their last prices; exposure takes them by size. */
  lemma AccountWorth(acct: Account)
    ensures TotalValue(acct)
         == acct.cash + SumOver(acct.positions, (e: (string, Position)) => Times(e.1.lastPrice, e.1.quantity))
    ensures GrossExposure(acct)
         == SumOver(acct.positions, (e: (string, Position)) => Abs(Times(e.1.lastPrice, e.1.quantity)))
  {
    SumSame(acct.positions, ValueOf(), (e: (string, Position)) => Times(e.1.lastPrice, e.1.quantity));
    SumSame(acct.positions, ExposureOf(), (e: (string, Position)) => Abs(Times(e.1.lastPrice, e.1.quantity)));
  }

  /** The raised high-water mark is the larger of the old one and the account's value. */
  lemma PeakRaised(acct: Account)
    ensures var r := RaisedPeak(acct);
            && r == acct.(peak := r.peak)
            && acct.peak <= r.peak && TotalValue(acct) <= r.peak && (r.peak == acct.peak || r.peak == TotalValue(acct))
  {
    hide TotalValue;
  }

  /** A drawdown beyond h is a value below 1 - h of a positive peak; below a peak of zero there is none. */
  lemma DrawdownBeyondIff(acct: Account, h: real)
    ensures Drawdown(acct) < -h
       <==> if acct.peak > 0.0 then TotalValue(acct) < Times(1.0 - h, acct.peak) else h < 0.0
  {
    hide TotalValue;
    if acct.peak > 0.0 {
      var v, p := TotalValue(acct), acct.peak;
      var q := (v - p) / p;
      assert q * p == v - p;
      if q < -h { var r := PositiveProduct(-h - q, p); } else { var r := NonNegativeProduct(q + h, p); }
    }
  }

  // ---- the books ----

  function TotalBooked(acct: Account): real {
    SumOver(acct.positions, BookedOf())
  }

  lemma EmptyBooks()
    ensures Booked(EMPTY) == 0.0
  {
  }

  lemma PutBooked(acct: Account, symbol: string, pos: Position)
    ensures SumOver(Put(acct.positions, symbol, pos), BookedOf())
         == TotalBooked(acct) - Booked(Lookup(acct, symbol)) + Booked(pos)
  {
    hide Times, Booked;
    EmptyBooks();
    var i := IndexOf(acct.positions, symbol);
    if i < |acct.positions| {
      SumUpdate(acct.positions, i, (symbol, pos), BookedOf());
    } else {
      SumAppend(acct.positions, (symbol, pos), BookedOf());
    }
  }

  /** The filled position: its books change by the cash less the commission, its quantity by what was traded. */
  lemma FilledPosition(acct: Account, f: Fill) returns (pos: Position)
    requires f.quantity > 0.0
    ensures ApplyFill(acct, f)
         == acct.(positions := Put(acct.positions, f.symbol, pos), cash := acct.cash + CashDelta(f))
    ensures Booked(pos) == Booked(Lookup(acct, f.symbol)) + CashDelta(f) + f.commission
    ensures pos.quantity == Lookup(acct, f.symbol).quantity + SignedQuantity(f)
  {
    hide Times, Booked, Lookup, Put, Bought, Sold;
    var held := Lookup(acct, f.symbol);
    if f.side == Buy {
      pos := Bought(held, f.quantity, f.price);
      BoughtBooks(held, f.quantity, f.price);
    } else {
      pos := Sold(held, f.quantity, f.price);
      SoldBooks(held, f.quantity, f.price);
    }
  }

  lemma FillCash(acct: Account, f: Fill)
    requires f.quantity > 0.0
    ensures var acct' := ApplyFill(acct, f);
            acct'.cash - TotalBooked(acct') == acct.cash - TotalBooked(acct) - f.commission
  {
    hide ApplyFill, Booked, Lookup, CashDelta, Put;
    var pos := FilledPosition(acct, f);
    PutBooked(acct, f.symbol, pos);
  }

  lemma FillQuantity(acct: Account, f: Fill, s: string)
    requires f.quantity > 0.0
    ensures Lookup(ApplyFill(acct, f), s).quantity
         == Lookup(acct, s).quantity + if s == f.symbol then SignedQuantity(f) else 0.0
  {
    hide ApplyFill, Booked, CashDelta, Put, Get, SignedQuantity;
    var pos := FilledPosition(acct, f);
    GetPut(acct.positions, f.symbol, pos, s, EMPTY);
  }

  /** A fill changes cash by exactly what it changes the books by, less the commission. */
  lemma FillKeepsBooks(acct: Account, f: Fill)
    requires f.quantity > 0.0
    ensures var acct' := ApplyFill(acct, f);
            acct'.cash - TotalBooked(acct') == acct.cash - TotalBooked(acct) - f.commission
    ensures forall s :: Lookup(ApplyFill(acct, f), s).quantity
                     == Lookup(acct, s).quantity + if s == f.symbol then SignedQuantity(f) else 0.0
  {
    hide ApplyFill, Lookup, CashDelta, SignedQuantity;
    FillCash(acct, f);
    forall s ensures Lookup(ApplyFill(acct, f), s).quantity
                  == Lookup(acct, s).quantity + if s == f.symbol then SignedQuantity(f) else 0.0
    {
      FillQuantity(acct, f, s);
    }
  }

  /** Two accounts with the same cash, books and holdings. */
  ghost predicate SameBooks(a: Account, b: Account) {
    a.cash == b.cash && TotalBooked(a) == TotalBooked(b)
    && forall s :: Lookup(a, s).quantity == Lookup(b, s).quantity
  }

  /** Marking to market, touching a position and raising the peak leave the books alone. */
  lemma QuietChanges(acct: Account, symbol: string, price: real)
    ensures SameBooks(MarkToMarket(acct, symbol, price), acct)
    ensures SameBooks(Touched(acct, symbol), acct)
    ensures SameBooks(RaisedPeak(acct), acct)
  {
    PutBooked(acct, symbol, Lookup(acct, symbol).(lastPrice := price));
    PutBooked(acct, symbol, Lookup(acct, symbol));
    forall s ensures Lookup(MarkToMarket(acct, symbol, price), s).quantity == Lookup(acct, s).quantity
                     && Lookup(Touched(acct, symbol), s).quantity == Lookup(acct, s).quantity
    {
      GetPut(acct.positions, symbol, Lookup(acct, symbol).(lastPrice := price), s, EMPTY);
      GetPut(acct.positions, symbol, Lookup(acct, symbol), s, EMPTY);
    }
  }

  lemma {:induction false} ValueSplits(ps: Dict<Position>)
    ensures SumOver(ps, ValueOf())
         == SumOver(ps, UnrealizedOf())
            + SumOver(ps, RealizedOf()) - SumOver(ps, BookedOf())
  {
    if |ps| > 0 {
      ValueSplits(ps[1..]);
      SplitAlgebra(ps[0].1);
    }
  }

  lemma SplitAlgebra(pos: Position)
    ensures MarketValue(pos) == UnrealizedPnl(pos) + pos.realizedPnl - Booked(pos)
  {
  }

  /** Once cash equals the start capital plus the books less commissions, the account value is the
      start capital plus realised and unrealised profit less commissions. */
  lemma ProfitIdentity(acct: Account, start: real, commissions: real)
    requires acct.cash == start + TotalBooked(acct) - commissions
    ensures TotalValue(acct) - start
         == SumOver(acct.positions, RealizedOf())
            + SumOver(acct.positions, UnrealizedOf()) - commissions
  {
    ValueSplits(acct.positions);
  }
}
