/** What the broker's cash and positions add up to, over any sequence of calls. */
module BrokerLedger {
  import opened Numbers
  import opened BrokerModel
  import opened BrokerRuns

  // --- reference definitions on the history of fills ---

  function Cleared(fills: seq<Fill>): seq<Fill>
    requires fills != []
  {
    fills[..|fills| - 1]
  }

  function Latest(fills: seq<Fill>): Fill
    requires fills != []
  {
    fills[|fills| - 1]
  }

  function NetQuantity(fills: seq<Fill>, symbol: string): int
    decreases |fills|
  {
    if fills == [] then 0
    else NetQuantity(Cleared(fills), symbol) + if Latest(fills).symbol == symbol then Latest(fills).quantity else 0
  }

  /** Signed notionals: what was spent on buys less what was received for sells. */
  function NetNotional(fills: seq<Fill>): real
    decreases |fills|
  {
    if fills == [] then 0.0 else NetNotional(Cleared(fills)) + Spent(Latest(fills))
  }

  function TotalCosts(fills: seq<Fill>): real
    decreases |fills|
  {
    if fills == [] then 0.0 else TotalCosts(Cleared(fills)) + Latest(fills).cost
  }

  function Replay(fills: seq<Fill>): map<string, Position>
    decreases |fills|
  {
    if fills == [] then map[]
    else ApplyPosition(Replay(Cleared(fills)), Latest(fills).symbol, Latest(fills).quantity, Latest(fills).price)
  }

  // --- cash and quantities are conserved ---

  predicate CashBalanced(b: Broker, initialCash: real) {
    b.cash == initialCash - NetNotional(b.fills) - TotalCosts(b.fills)
  }

  predicate Balanced(b: Broker, initialCash: real) {
    CashBalanced(b, initialCash) && b.positions == Replay(b.fills)
  }

  lemma CashIsLedger(cash: real, o: Order, q: Quote)
    ensures CashAfter(cash, o, q) == cash - q.price * SignedQuantity(o) as real - q.cost
  {
    assert (-o.quantity) as real == -(o.quantity as real);
  }

  lemma TotalsAppend(fills: seq<Fill>, f: Fill)
    ensures NetNotional(fills + [f]) == NetNotional(fills) + Spent(f)
    ensures TotalCosts(fills + [f]) == TotalCosts(fills) + f.cost
  {
    assert Cleared(fills + [f]) == fills;
  }

  lemma ExecuteCash(b: Broker, o: Order, q: Quote, initialCash: real)
    requires CashBalanced(b, initialCash)
    ensures CashBalanced(Execute(b, o, q).0, initialCash)
  {
    if Affordable(b, o, q) {
      CashIsLedger(b.cash, o, q);
      TotalsAppend(b.fills, Fill(o.id, o.symbol, SignedQuantity(o), q.price, q.cost));
    }
  }

  lemma ExecutePositions(b: Broker, o: Order, q: Quote)
    requires b.positions == Replay(b.fills)
    ensures Execute(b, o, q).0.positions == Replay(Execute(b, o, q).0.fills)
  {
    if Affordable(b, o, q) {
      assert Cleared(Execute(b, o, q).0.fills) == b.fills;
    }
  }

  lemma ExecuteBalanced(b: Broker, o: Order, q: Quote, initialCash: real)
    requires Balanced(b, initialCash)
    ensures Balanced(Execute(b, o, q).0, initialCash)
  {
    ExecuteCash(b, o, q, initialCash);
    ExecutePositions(b, o, q);
  }

  lemma TouchBalanced(b: Broker, id: string, cfg: Config, initialCash: real)
    requires Balanced(b, initialCash)
    ensures Balanced(Touch(b, id, cfg), initialCash)
  {
    if Live(b, id) {
      var o := b.orders[id];
      ExecuteBalanced(b, o, QuoteFor(o, b.marks[o.symbol], cfg), initialCash);
    }
  }

  lemma ProcessBalanced(b: Broker, ids: seq<string>, cfg: Config, initialCash: real)
    requires Balanced(b, initialCash)
    ensures Balanced(ProcessFrom(b, ids, cfg), initialCash)
    decreases |ids|
  {
    if ids != [] {
      TouchBalanced(b, ids[0], cfg, initialCash);
      ProcessBalanced(Touch(b, ids[0], cfg), ids[1..], cfg, initialCash);
    }
  }

  lemma PlaceBalanced(b: Broker, order: Order, ticket: string, cfg: Config, initialCash: real)
    requires Balanced(b, initialCash)
    ensures Balanced(PlaceOrder(b, order, ticket, cfg).0, initialCash)
  {
    var o := order.(brokerOrderId := Some(ticket));
    if o.symbol in b.marks {
      ExecuteBalanced(b, o, QuoteFor(o, b.marks[o.symbol], cfg), initialCash);
    }
  }

  lemma ModifyBalanced(
    b: Broker, id: string, quantity: Option<int>, limitPrice: Option<Option<real>>, cfg: Config, initialCash: real)
    requires Balanced(b, initialCash)
    ensures Balanced(ModifyOrder(b, id, quantity, limitPrice, cfg).0, initialCash)
  {
    if id in b.orders {
      var o := Amended(b.orders[id], quantity, limitPrice);
      if Triggered(b, o) {
        ExecuteBalanced(b, o, QuoteFor(o, b.marks[o.symbol], cfg), initialCash);
      }
    }
  }

  lemma ApplyBalanced(b: Broker, op: Op, cfg: Config, initialCash: real)
    requires Balanced(b, initialCash)
    ensures Balanced(Apply(b, op, cfg), initialCash)
  {
    match op
    case SetMarkOp(symbol, price) =>
      ProcessBalanced(b.(marks := b.marks[symbol := price]), b.arrival, cfg, initialCash);
    case UpdateMarksOp(prices) =>
      ProcessBalanced(b.(marks := b.marks + prices), b.arrival, cfg, initialCash);
    case HaltOp =>
    case ResumeOp =>
    case PlaceOp(order, ticket) =>
      PlaceBalanced(b, order, ticket, cfg, initialCash);
    case ModifyOp(id, quantity, limitPrice) =>
      ModifyBalanced(b, id, quantity, limitPrice, cfg, initialCash);
    case CancelOp(id) =>
  }

  lemma {:induction false} RunBalanced(initialCash: real, ops: seq<Op>, cfg: Config)
    ensures Balanced(Run(Opened(initialCash), ops, cfg), initialCash)
    decreases |ops|
  {
    if ops != [] {
      RunBalanced(initialCash, ops[..|ops| - 1], cfg);
      ApplyBalanced(Run(Opened(initialCash), ops[..|ops| - 1], cfg), ops[|ops| - 1], cfg, initialCash);
    }
  }

  lemma {:induction false} ReplayQuantities(fills: seq<Fill>, symbol: string)
    ensures Held(Replay(fills), symbol).shares == NetQuantity(fills, symbol)
    ensures symbol in Replay(fills) <==> NetQuantity(fills, symbol) != 0
    decreases |fills|
  {
    if fills != [] {
      ReplayQuantities(Cleared(fills), symbol);
      ReplayQuantities(Cleared(fills), Latest(fills).symbol);
    }
  }

  /** In every reachable state the cash is the opening cash less signed notionals and costs of the fills, and a
      symbol has a position exactly when its signed filled quantities do not cancel, of exactly that many shares. */
  lemma LedgerConservation(initialCash: real, ops: seq<Op>, cfg: Config, symbol: string)
    ensures
      var b := Run(Opened(initialCash), ops, cfg);
      && b.cash == initialCash - NetNotional(b.fills) - TotalCosts(b.fills)
      && Held(b.positions, symbol).shares == NetQuantity(b.fills, symbol)
      && (symbol in b.positions <==> NetQuantity(b.fills, symbol) != 0)
  {
    RunBalanced(initialCash, ops, cfg);
    ReplayQuantities(Run(Opened(initialCash), ops, cfg).fills, symbol);
  }

  // --- average price: between the extremes of the current episode ---

  /** A fill that opens a position from flat, or flips it, starts a new episode. */
  predicate Restarts(shares: int, quantity: int) {
    shares == 0 || ((shares > 0) != (quantity > 0) && AbsInt(quantity) > AbsInt(shares))
  }

  /** Index of the fill that opened the current episode of the symbol. */
  function EpisodeStart(fills: seq<Fill>, symbol: string): nat
    decreases |fills|
  {
    if fills == [] then 0
    else if Latest(fills).symbol == symbol
            && Restarts(Held(Replay(Cleared(fills)), symbol).shares, Latest(fills).quantity) then
      |fills| - 1
    else
      EpisodeStart(Cleared(fills), symbol)
  }

  /** A fill against the position, no larger than it, only closes shares, and leaves the average alone. */
  predicate Reduces(shares: int, quantity: int) {
    shares != 0 && (shares > 0) != (quantity > 0) && AbsInt(quantity) <= AbsInt(shares)
  }

  /** The k-th fill opens, adds to or flips the position of the symbol. */
  predicate Averages(fills: seq<Fill>, symbol: string, k: nat)
    requires k < |fills|
  {
    fills[k].symbol == symbol && !Reduces(Held(Replay(fills[..k]), symbol).shares, fills[k].quantity)
  }

  ghost predicate PricesWithin(fills: seq<Fill>, symbol: string, start: nat, lo: real, hi: real) {
    forall k :: start <= k < |fills| && Averages(fills, symbol, k) ==> lo <= fills[k].price <= hi
  }

  lemma AveragesBefore(fills: seq<Fill>, symbol: string, k: nat)
    requires k < |fills| - 1
    ensures Averages(Cleared(fills), symbol, k) == Averages(fills, symbol, k)
  {
    assert Cleared(fills)[..k] == fills[..k];
  }

  lemma WeightedAverageBetween(x: real, y: real, a: real, b: real, lo: real, hi: real)
    requires a >= 0.0 && b >= 0.0 && a + b > 0.0
    requires a == 0.0 || lo <= x <= hi
    requires lo <= y <= hi
    ensures lo <= (x * a + y * b) / (a + b) <= hi
  {
    if a == 0.0 {
      assert (x * a + y * b) / (a + b) == y * b / b == y;
    } else {
      SumBetween(x, y, a, b, lo, hi);
      QuotientBetween(x * a + y * b, a + b, lo, hi);
    }
  }

  lemma SumBetween(x: real, y: real, a: real, b: real, lo: real, hi: real)
    requires a >= 0.0 && b >= 0.0 && lo <= x <= hi && lo <= y <= hi
    ensures lo * (a + b) <= x * a + y * b <= hi * (a + b)
  {
    MulMonotone(a, lo, x);
    MulMonotone(a, x, hi);
    MulMonotone(b, lo, y);
    MulMonotone(b, y, hi);
    Distribute(lo, a, b);
    Distribute(hi, a, b);
    assert x * a == a * x && y * b == b * y;
  }

  lemma Distribute(k: real, a: real, b: real)
    ensures k * (a + b) == a * k + b * k
  {
  }

  lemma QuotientBetween(total: real, w: real, lo: real, hi: real)
    requires w > 0.0 && lo * w <= total <= hi * w
    ensures lo <= total / w <= hi
  {
    var r := total / w;
    assert r * w == total;
    if r < lo {
      MulStrict(w, r, lo);
    }
    if r > hi {
      MulStrict(w, hi, r);
    }
  }

  /** Adding to a position, or opening one, gives the weighted average of the two prices. */
  lemma BlendWhenAdding(p: Position, quantity: int, price: real, a: real, b: real)
    requires p.shares == 0 || (p.shares > 0) == (quantity > 0)
    requires p.shares + quantity != 0
    requires a == AbsInt(p.shares) as real && b == AbsInt(quantity) as real
    ensures a + b > 0.0 && Blend(p, quantity, price).avg == (p.avg * a + price * b) / (a + b)
  {
    var m, n := AbsInt(p.shares), AbsInt(quantity);
    assert AbsInt(p.shares + quantity) == m + n;
    assert (m + n) as real == a + b;
    assert Blend(p, quantity, price).avg == (p.avg * a + price * b) / (m + n) as real;
  }

  lemma BlendBetween(p: Position, quantity: int, price: real, lo: real, hi: real)
    requires Reduces(p.shares, quantity) || lo <= price <= hi
    requires Restarts(p.shares, quantity) || lo <= p.avg <= hi
    requires p.shares + quantity != 0
    ensures lo <= Blend(p, quantity, price).avg <= hi
  {
    if p.shares == 0 || (p.shares > 0) == (quantity > 0) {
      AddingBetween(p, quantity, price, lo, hi);
    }
  }

  lemma AddingBetween(p: Position, quantity: int, price: real, lo: real, hi: real)
    requires p.shares == 0 || (p.shares > 0) == (quantity > 0)
    requires p.shares + quantity != 0
    requires lo <= price <= hi && (p.shares == 0 || lo <= p.avg <= hi)
    ensures lo <= Blend(p, quantity, price).avg <= hi
  {
    var a, b := AbsInt(p.shares) as real, AbsInt(quantity) as real;
    BlendWhenAdding(p, quantity, price, a, b);
    WeightedAverageBetween(p.avg, price, a, b, lo, hi);
  }

  /** The average price of an open position lies between any two bounds on the prices of the fills that opened, flipped
      or added to it since it was last flat or flipped. */
  lemma {:induction false} AverageWithinEpisode(fills: seq<Fill>, symbol: string, lo: real, hi: real)
    requires symbol in Replay(fills)
    requires PricesWithin(fills, symbol, EpisodeStart(fills, symbol), lo, hi)
    ensures lo <= Replay(fills)[symbol].avg <= hi
    decreases |fills|
  {
    var f, before := Latest(fills), Cleared(fills);
    var p := Held(Replay(before), symbol);
    assert EpisodeStart(fills, symbol) < |fills| by { EpisodeStartInRange(fills, symbol); }
    if f.symbol != symbol || !Restarts(p.shares, f.quantity) {
      ReplayQuantities(before, symbol);
      assert symbol in Replay(before);
      assert PricesWithin(before, symbol, EpisodeStart(before, symbol), lo, hi) by {
        forall k | EpisodeStart(before, symbol) <= k < |before| && Averages(before, symbol, k)
          ensures lo <= before[k].price <= hi
        {
          AveragesBefore(fills, symbol, k);
          assert fills[k] == before[k];
        }
      }
      AverageWithinEpisode(before, symbol, lo, hi);
    }
    if f.symbol == symbol {
      assert fills[..|fills| - 1] == before;
      assert Averages(fills, symbol, |fills| - 1) <==> !Reduces(p.shares, f.quantity);
      BlendBetween(p, f.quantity, f.price, lo, hi);
    }
  }

  lemma EpisodeStartInRange(fills: seq<Fill>, symbol: string)
    requires fills != []
    ensures EpisodeStart(fills, symbol) < |fills|
    decreases |fills|
  {
    if Cleared(fills) != [] {
      EpisodeStartInRange(Cleared(fills), symbol);
    }
  }

  // --- average price: cash plus book cost is what was put in plus what was realised ---

  /** Profit booked by a fill: on the shares it closes, against the average they were carried at. */
  function Gain(p: Position, quantity: int, price: real): real {
    if p.shares == 0 || (p.shares > 0) == (quantity > 0) then 0.0
    else if AbsInt(quantity) > AbsInt(p.shares) then p.shares as real * (price - p.avg)
    else -(quantity as real) * (price - p.avg)
  }

  function RealisedProfit(fills: seq<Fill>): real
    decreases |fills|
  {
    if fills == [] then 0.0
    else RealisedProfit(Cleared(fills)) + GainOf(fills)
  }

  function CarriedAt(p: Position): real {
    p.shares as real * p.avg
  }

  ghost function BookCost(positions: map<string, Position>): real
    decreases |positions|
  {
    if positions == map[] then 0.0
    else
      var symbol :| symbol in positions;
      CarriedAt(positions[symbol]) + BookCost(positions - {symbol})
  }

  lemma {:induction false} BookCostWithout(positions: map<string, Position>, symbol: string)
    requires symbol in positions
    ensures BookCost(positions) == CarriedAt(positions[symbol]) + BookCost(positions - {symbol})
    decreases |positions|
  {
    var picked :| picked in positions
      && BookCost(positions) == CarriedAt(positions[picked]) + BookCost(positions - {picked});
    if picked != symbol {
      BookCostWithout(positions - {picked}, symbol);
      BookCostWithout(positions - {symbol}, picked);
      assert positions - {picked} - {symbol} == positions - {symbol} - {picked};
    }
  }

  lemma BookCostAfterChange(positions: map<string, Position>, symbol: string, p: Position, after: map<string, Position>)
    requires after == if p.shares == 0 then positions - {symbol} else positions[symbol := p]
    ensures BookCost(after) + CarriedAt(Held(positions, symbol)) == BookCost(positions) + CarriedAt(p)
  {
    var rest := positions - {symbol};
    if symbol in positions {
      BookCostWithout(positions, symbol);
    } else {
      assert rest == positions;
    }
    if p.shares != 0 {
      BookCostWithout(after, symbol);
      assert after - {symbol} == rest;
    }
  }

  lemma BlendConserves(p: Position, f: Fill)
    ensures CarriedAt(Blend(p, f.quantity, f.price)) == CarriedAt(p) + Spent(f) + Gain(p, f.quantity, f.price)
  {
    var quantity, price := f.quantity, f.price;
    var shares := p.shares + quantity;
    if p.shares == 0 || (p.shares > 0) == (quantity > 0) {
      if shares != 0 {
        var paid := p.avg * AbsInt(p.shares) as real + price * AbsInt(quantity) as real;
        var n := AbsInt(shares) as real;
        assert paid / n * n == paid;
        if shares > 0 {
          assert shares as real * (paid / n) == paid;
        } else {
          assert shares as real * (paid / n) == -paid;
          assert p.avg * (-p.shares) as real == -(p.avg * p.shares as real);
          assert price * (-quantity) as real == -(price * quantity as real);
        }
      } else {
        assert p.shares == 0 && quantity == 0;
      }
    } else if AbsInt(quantity) > AbsInt(p.shares) {
      assert shares as real * price == p.shares as real * price + quantity as real * price;
    } else {
      assert shares as real * p.avg == p.shares as real * p.avg + quantity as real * p.avg;
    }
  }

  function Spent(f: Fill): real {
    f.price * f.quantity as real
  }

  function GainOf(fills: seq<Fill>): real
    requires fills != []
  {
    Gain(Held(Replay(Cleared(fills)), Latest(fills).symbol), Latest(fills).quantity, Latest(fills).price)
  }

  lemma BookCostOfFill(positions: map<string, Position>, f: Fill, after: map<string, Position>)
    requires after == ApplyPosition(positions, f.symbol, f.quantity, f.price)
    ensures BookCost(after) == BookCost(positions) + Spent(f) + Gain(Held(positions, f.symbol), f.quantity, f.price)
  {
    var p := Held(positions, f.symbol);
    BookCostAfterChange(positions, f.symbol, Blend(p, f.quantity, f.price), after);
    BlendConserves(p, f);
  }

  lemma BookCostStep(fills: seq<Fill>)
    requires fills != []
    ensures BookCost(Replay(fills)) == BookCost(Replay(Cleared(fills))) + Spent(Latest(fills)) + GainOf(fills)
  {
    BookCostOfFill(Replay(Cleared(fills)), Latest(fills), Replay(fills));
  }

  lemma {:induction false} BookCostOfReplay(fills: seq<Fill>)
    ensures BookCost(Replay(fills)) == NetNotional(fills) + RealisedProfit(fills)
    decreases |fills|
  {
    if fills != [] {
      BookCostOfReplay(Cleared(fills));
      BookCostStep(fills);
    }
  }

  /** In every reachable state, cash plus the positions at their average prices is the opening cash plus realised
      profit less costs: averaging never creates or loses money. */
  lemma AveragePriceAccounting(initialCash: real, ops: seq<Op>, cfg: Config)
    ensures
      var b := Run(Opened(initialCash), ops, cfg);
      b.cash + BookCost(b.positions) == initialCash + RealisedProfit(b.fills) - TotalCosts(b.fills)
  {
    RunBalanced(initialCash, ops, cfg);
    BookCostOfReplay(Run(Opened(initialCash), ops, cfg).fills);
  }

  /** And in every reachable state each average price lies within the prices that built it up in its current episode. */
  lemma AveragePriceBounds(initialCash: real, ops: seq<Op>, cfg: Config, symbol: string, lo: real, hi: real)
    requires
      var b := Run(Opened(initialCash), ops, cfg);
      symbol in b.positions && PricesWithin(b.fills, symbol, EpisodeStart(b.fills, symbol), lo, hi)
    ensures lo <= Run(Opened(initialCash), ops, cfg).positions[symbol].avg <= hi
  {
    RunBalanced(initialCash, ops, cfg);
    AverageWithinEpisode(Run(Opened(initialCash), ops, cfg).fills, symbol, lo, hi);
  }
}
