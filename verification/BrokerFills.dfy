/** What the broker answers to each call and what an execution does to the books, in the arithmetic of prices,
    quantities and fees: which orders fill, which rest, which are refused and why. */
module BrokerFills {
  import opened Numbers
  import opened Costs
  import opened BrokerModel

  // --- the terms of an execution ---

  /** The mark, moved against the order by the slippage fraction. */
  predicate PricedAt(price: real, side: Side, mark: real, cfg: Config) {
    match side
    case Buy => price == mark + mark * cfg.impact.FlatFraction()
    case Sell => price == mark - mark * cfg.impact.FlatFraction()
  }

  /** The mark has reached the limit of the order, if it has one. */
  predicate Reached(o: Order, mark: real) {
    match o.limitPrice
    case None => true
    case Some(limit) => if o.side.Buy? then mark <= limit else limit <= mark
  }

  function Fee(o: Order, price: real, cfg: Config): real {
    ComputeCosts(o.side, price, o.quantity as real, cfg.cost, Delivery).total
  }

  /** What a buy at a price needs: the price times its quantity, plus the fee. */
  function BuyingCost(price: real, n: real, cfg: Config): real {
    price * n + ComputeCosts(Buy, price, n, cfg.cost, Delivery).total
  }

  /** A sell needs no cash. */
  predicate Payable(o: Order, mark: real, cash: real, cfg: Config) {
    o.side.Sell? || BuyingCost(SlippedPrice(Buy, mark, cfg), o.quantity as real, cfg) <= cash
  }

  /** The order is filled at the slipped price: cash, history and record move together. */
  ghost predicate Fills(b: Broker, o: Order, mark: real, b': Broker, o': Order, cfg: Config) {
    exists price ::
      && PricedAt(price, o.side, mark, cfg)
      && o' == o.(status := Filled, reason := FilledAt(price, Fee(o, price, cfg)))
      && FillMoves(b, o, price, b', cfg)
  }

  predicate FillMoves(b: Broker, o: Order, price: real, b': Broker, cfg: Config) {
    var bought := if o.side.Buy? then o.quantity else -o.quantity;
    && b'.cash == b.cash - price * bought as real - Fee(o, price, cfg)
    && b'.fills == b.fills + [Fill(o.id, o.symbol, bought, price, Fee(o, price, cfg))]
  }

  /** Nothing is executed: only the record of the order changes. */
  predicate Untraded(b: Broker, b': Broker) {
    b'.cash == b.cash && b'.positions == b.positions && b'.fills == b.fills
  }

  predicate Recorded(b: Broker, b': Broker, o: Order) {
    && b'.orders == b.orders[o.id := o] && b'.marks == b.marks && b'.halted == b.halted
    && b'.arrival == if o.id in b.orders then b.arrival else b.arrival + [o.id]
  }

  lemma SlippedPriceIs(side: Side, mark: real, cfg: Config)
    ensures PricedAt(SlippedPrice(side, mark, cfg), side, mark, cfg)
  {
    var f := cfg.impact.FlatFraction();
    assert mark * (1.0 + f) == mark + mark * f && mark * (1.0 - f) == mark - mark * f;
  }

  lemma QuoteIs(o: Order, mark: real, cfg: Config)
    ensures PricedAt(QuoteFor(o, mark, cfg).price, o.side, mark, cfg)
    ensures QuoteFor(o, mark, cfg).cost == Fee(o, QuoteFor(o, mark, cfg).price, cfg)
  {
    SlippedPriceIs(o.side, mark, cfg);
  }

  lemma BuyingCostOf(o: Order, q: Quote, cash: real, cfg: Config)
    requires o.side.Buy? && q.cost == Fee(o, q.price, cfg)
    ensures q.price * o.quantity as real + q.cost <= cash <==> BuyingCost(q.price, o.quantity as real, cfg) <= cash
  {
  }

  lemma AffordableIsPayable(b: Broker, o: Order, mark: real, cfg: Config)
    ensures Affordable(b, o, QuoteFor(o, mark, cfg)) <==> Payable(o, mark, b.cash, cfg)
  {
    if o.side.Buy? {
      QuoteIs(o, mark, cfg);
      BuyingCostOf(o, QuoteFor(o, mark, cfg), b.cash, cfg);
    }
  }

  lemma MarketableIsReached(o: Order, mark: real)
    ensures Marketable(o, mark) <==> Reached(o, mark)
  {
  }

  /** A mark that is there, is not zero and has reached the limit would execute the order. */
  predicate Executable(b: Broker, o: Order) {
    o.symbol in b.marks && b.marks[o.symbol] != 0.0 && Reached(o, b.marks[o.symbol])
  }

  lemma TriggeredIsExecutable(b: Broker, o: Order)
    ensures Triggered(b, o) <==> Executable(b, o)
  {
  }

  lemma CashMoves(cash: real, o: Order, q: Quote)
    ensures CashAfter(cash, o, q) == cash - q.price * (if o.side.Buy? then o.quantity else -o.quantity) as real - q.cost
  {
    var n := o.quantity as real;
    assert q.price * -n == -(q.price * n);
  }

  /** The whole outcome of trying to execute an order at a mark. */
  ghost predicate Tried(b: Broker, o: Order, mark: real, b': Broker, o': Order, cfg: Config) {
    if Payable(o, mark, b.cash, cfg) then
      Fills(b, o, mark, b', o', cfg)
    else
      o' == o.(status := Rejected, reason := InsufficientBuyingPower) && Untraded(b, b')
  }

  lemma TriedFillsIff(b: Broker, o: Order, mark: real, b': Broker, o': Order, cfg: Config)
    requires Tried(b, o, mark, b', o', cfg)
    ensures o'.status.Filled? <==> Payable(o, mark, b.cash, cfg)
  {
  }

  lemma ExecuteTries(b: Broker, o: Order, mark: real, cfg: Config)
    ensures
      var (b', o') := Execute(b, o, QuoteFor(o, mark, cfg));
      Tried(b, o, mark, b', o', cfg) && Recorded(b, b', o')
  {
    var q := QuoteFor(o, mark, cfg);
    AffordableIsPayable(b, o, mark, cfg);
    QuoteIs(o, mark, cfg);
    if Affordable(b, o, q) {
      CashMoves(b.cash, o, q);
      assert FillMoves(b, o, q.price, Execute(b, o, q).0, cfg);
    }
  }

  // --- what each call answers ---

  /** Placing an order: refused while halted or without a positive mark; a limit order whose limit the mark has not
      reached rests; any other is tried at once, and filled exactly if it is payable. */
  ghost predicate Placed(b: Broker, o: Order, b': Broker, o': Order, cfg: Config) {
    if b.halted then
      o' == o.(status := Rejected, reason := TradingHalted) && Untraded(b, b')
    else if o.symbol !in b.marks || b.marks[o.symbol] <= 0.0 then
      o' == o.(status := Rejected, reason := NoMarketPrice) && Untraded(b, b')
    else if o.orderType.LimitOrder? && !Reached(o, b.marks[o.symbol]) then
      o' == o.(status := Pending) && Untraded(b, b')
    else
      Tried(b, o, b.marks[o.symbol], b', o', cfg)
  }

  lemma PlaceOutcome(b: Broker, order: Order, ticket: string, cfg: Config)
    ensures
      var (b', o') := PlaceOrder(b, order, ticket, cfg);
      Placed(b, order.(brokerOrderId := Some(ticket)), b', o', cfg) && Recorded(b, b', o')
  {
    var o := order.(brokerOrderId := Some(ticket));
    if o.symbol in b.marks {
      MarketableIsReached(o, b.marks[o.symbol]);
      ExecuteTries(b, o, b.marks[o.symbol], cfg);
    }
  }

  /** The buying-power check, on both sides: a market buy on a broker that is not halted and has a positive mark is
      filled if and only if the cash covers the slipped price times the quantity plus the fee; a sell always is. */
  lemma MarketOrderFillsIff(b: Broker, order: Order, ticket: string, cfg: Config, price: real)
    requires order.orderType.MarketOrder? && !b.halted
    requires order.symbol in b.marks && b.marks[order.symbol] > 0.0
    requires price == b.marks[order.symbol] * (1.0 + cfg.impact.FlatFraction())
    ensures PlaceOrder(b, order, ticket, cfg).1.status.Filled?
       <==> order.side.Sell? || BuyingCost(price, order.quantity as real, cfg) <= b.cash
  {
    MarketOrderFillsIfPayable(b, order, ticket, cfg);
    PayableAt(order, b.marks[order.symbol], b.cash, cfg, price);
  }

  lemma PayableAt(o: Order, mark: real, cash: real, cfg: Config, price: real)
    requires price == mark * (1.0 + cfg.impact.FlatFraction())
    ensures Payable(o, mark, cash, cfg) <==> o.side.Sell? || BuyingCost(price, o.quantity as real, cfg) <= cash
  {
    assert price == SlippedPrice(Buy, mark, cfg);
  }

  lemma BuyingCostCharged(price: real, n: real, cfg: Config)
    ensures BuyingCost(price, n, cfg) == price * n + Charge(Buy, price * Abs(n), cfg.cost, Delivery)
  {
    ScalarIsCharge(Buy, price, n, cfg.cost, Delivery);
  }

  lemma MarketOrderFillsIfPayable(b: Broker, order: Order, ticket: string, cfg: Config)
    requires order.orderType.MarketOrder? && !b.halted
    requires order.symbol in b.marks && b.marks[order.symbol] > 0.0
    ensures PlaceOrder(b, order, ticket, cfg).1.status.Filled? <==> Payable(order, b.marks[order.symbol], b.cash, cfg)
  {
    var o := order.(brokerOrderId := Some(ticket));
    var (b', o') := PlaceOrder(b, order, ticket, cfg);
    PlaceOutcome(b, order, ticket, cfg);
    TriedFillsIff(b, o, b.marks[o.symbol], b', o', cfg);
  }

  /** Modifying an order: unknown and settled orders are errors. A pending one takes the new terms where they are given
      and keeps the others; if its mark is not zero and reaches the new limit it is tried at once, and otherwise it
      rests. */
  ghost predicate Modified(
    b: Broker, o: Order, quantity: Option<int>, limitPrice: Option<Option<real>>, b': Broker, o': Order, cfg: Config)
  {
    exists amended: Order ::
      && (quantity.Some? ==> amended.quantity == quantity.value) && (quantity.None? ==> amended.quantity == o.quantity)
      && (limitPrice.Some? ==> amended.limitPrice == limitPrice.value)
      && (limitPrice.None? ==> amended.limitPrice == o.limitPrice)
      && amended == o.(quantity := amended.quantity, limitPrice := amended.limitPrice)
      && if Executable(b, amended) then
           Tried(b, amended, b.marks[o.symbol], b', o', cfg)
         else
           o' == amended && Untraded(b, b')
  }

  lemma ModifyOutcome(
    b: Broker, id: string, quantity: Option<int>, limitPrice: Option<Option<real>>, cfg: Config)
    ensures
      var (b', r) := ModifyOrder(b, id, quantity, limitPrice, cfg);
      if id in b.orders && b.orders[id].status.Pending? then
        r.Done? && Modified(b, b.orders[id], quantity, limitPrice, b', r.order, cfg) && Recorded(b, b', r.order)
      else
        r == (if id in b.orders then NotPending else UnknownOrder) && b' == b
  {
    if id in b.orders && b.orders[id].status.Pending? {
      var o := Amended(b.orders[id], quantity, limitPrice);
      if o.symbol in b.marks {
        MarketableIsReached(o, b.marks[o.symbol]);
        ExecuteTries(b, o, b.marks[o.symbol], cfg);
      }
      assert o == b.orders[id].(quantity := o.quantity, limitPrice := o.limitPrice);
    }
  }

  /** Visiting a resting order in a pass: tried exactly if its mark is not zero and reaches its limit. */
  lemma TouchOutcome(b: Broker, id: string, cfg: Config)
    ensures
      var b' := Touch(b, id, cfg);
      if id in b.orders && b.orders[id].status.Pending? && Executable(b, b.orders[id]) then
        var o := b.orders[id];
        && o.id in b'.orders && Tried(b, o, b.marks[o.symbol], b', b'.orders[o.id], cfg)
        && Recorded(b, b', b'.orders[o.id])
      else
        b' == b
  {
    if id in b.orders && b.orders[id].symbol in b.marks {
      var o := b.orders[id];
      MarketableIsReached(o, b.marks[o.symbol]);
      ExecuteTries(b, o, b.marks[o.symbol], cfg);
    }
  }

  /** Cancelling a pending order marks it cancelled and changes nothing else; a settled order is answered as it stands,
      and an unknown one is an error. */
  lemma CancelOutcome(b: Broker, id: string)
    requires WellKept(b)
    ensures
      var (b', r) := CancelOrder(b, id);
      if id !in b.orders then
        r == UnknownOrder && b' == b
      else if b.orders[id].status == Pending then
        && r.Done? && r.order == b.orders[id].(status := Cancelled)
        && Untraded(b, b') && Recorded(b, b', r.order)
      else
        r == Done(b.orders[id]) && b' == b
  {
  }
}
