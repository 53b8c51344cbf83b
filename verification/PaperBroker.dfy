/** The simulated broker as it runs: an object whose methods update its fields in place. Each method is proved
    equal to the function of the same name in BrokerModel. */
module PaperBroker {
  import opened Numbers
  import opened Costs
  import opened Impact
  import opened BrokerModel

  class PaperBroker {
    const cfg: Config
    const sqrt: real -> real
    var cash: real
    var positions: map<string, Position>
    var orders: map<string, Order>
    var arrival: seq<string>
    var marks: map<string, real>
    var halted: bool
    ghost var fills: seq<Fill>

    ghost function State(): Broker
      reads this
    {
      Broker(cash, positions, orders, arrival, marks, halted, fills)
    }

    constructor (initialCash: real, cfg: Config, sqrt: real -> real)
      ensures State() == Opened(initialCash) && this.cfg == cfg && this.sqrt == sqrt
    {
      this.cfg, this.sqrt := cfg, sqrt;
      cash, positions, orders, arrival := initialCash, map[], map[], [];
      marks, halted, fills := map[], false, [];
    }

    method SetMark(symbol: string, price: real)
      requires WellKept(State())
      modifies this
      ensures State() == BrokerModel.SetMark(old(State()), symbol, price, cfg)
    {
      marks := marks[symbol := price];
      ProcessPending();
    }

    method UpdateMarks(prices: map<string, real>)
      requires WellKept(State())
      modifies this
      ensures State() == BrokerModel.UpdateMarks(old(State()), prices, cfg)
    {
      marks := marks + prices;
      ProcessPending();
    }

    method Halt()
      modifies this
      ensures State() == old(State()).(halted := true)
    {
      halted := true;
    }

    method Resume()
      modifies this
      ensures State() == old(State()).(halted := false)
    {
      halted := false;
    }

    method PlaceOrder(order: Order, ticket: string) returns (o: Order)
      modifies this
      ensures (State(), o) == BrokerModel.PlaceOrder(old(State()), order, ticket, cfg)
    {
      o := order.(brokerOrderId := Some(ticket));
      if halted {
        o := RejectOrder(o, TradingHalted);
        return;
      }
      if o.symbol !in marks || marks[o.symbol] <= 0.0 {
        o := RejectOrder(o, NoMarketPrice);
        return;
      }
      var mark := marks[o.symbol];
      if o.orderType.LimitOrder? && !Marketable(o, mark) {
        o := o.(status := Pending);
        StoreOrder(o);
        return;
      }
      o := FillOrder(o, mark);
    }

    method ModifyOrder(id: string, quantity: Option<int>, limitPrice: Option<Option<real>>) returns (r: Outcome)
      requires WellKept(State())
      modifies this
      ensures (State(), r) == BrokerModel.ModifyOrder(old(State()), id, quantity, limitPrice, cfg)
    {
      if id !in orders {
        return UnknownOrder;
      }
      var o := orders[id];
      if !o.status.Pending? {
        return NotPending;
      }
      if quantity.Some? {
        o := o.(quantity := quantity.value);
      }
      if limitPrice.Some? {
        o := o.(limitPrice := limitPrice.value);
      }
      if o.symbol in marks && marks[o.symbol] != 0.0 && Marketable(o, marks[o.symbol]) {
        o := FillOrder(o, marks[o.symbol]);
      } else {
        StoreOrder(o);
      }
      return Done(o);
    }

    method CancelOrder(id: string) returns (r: Outcome)
      requires WellKept(State())
      modifies this
      ensures (State(), r) == BrokerModel.CancelOrder(old(State()), id)
    {
      if id !in orders {
        return UnknownOrder;
      }
      var o := orders[id];
      if o.status.Pending? {
        o := o.(status := Cancelled);
        StoreOrder(o);
      }
      return Done(o);
    }

    function LastPrice(symbol: string): Option<real>
      reads this
    {
      if symbol in marks then Some(marks[symbol]) else None
    }

    method GetPositions() returns (report: seq<PositionReport>)
      ensures Lists(report, positions)
      ensures forall i :: 0 <= i < |report| ==> report[i].lastPrice == LastPrice(report[i].symbol)
    {
      report := [];
      var left := positions.Keys;
      while left != {}
        invariant left <= positions.Keys
        invariant Lists(report, map s | s in positions && s !in left :: positions[s])
        invariant forall i :: 0 <= i < |report| ==> report[i].lastPrice == LastPrice(report[i].symbol)
      {
        ghost var listed := map s | s in positions && s !in left :: positions[s];
        var symbol :| symbol in left;
        var p := positions[symbol];
        ghost var before := report;
        report := report + [PositionReport(symbol, p.shares, p.avg, LastPrice(symbol))];
        left := left - {symbol};
        ExtendListing(before, listed, report[|before|], p);
        assert (map s | s in positions && s !in left :: positions[s]) == listed[symbol := p];
      }
      assert (map s | s in positions && s !in left :: positions[s]) == positions;
    }

    method FillOrder(order: Order, mark: real) returns (o: Order)
      modifies this
      ensures (State(), o) == Execute(old(State()), order, QuoteFor(order, mark, cfg))
    {
      var q := PriceOrder(order, mark);
      o := Settle(order, q);
    }

    /** With no volume to compare with, the impact model comes down to the flat fraction. */
    method PriceOrder(order: Order, mark: real) returns (q: Quote)
      ensures q == QuoteFor(order, mark, cfg)
    {
      var quantity := order.quantity as real;
      var fraction := ComputeImpact(quantity, mark, Some(0.0), Some(0.0), cfg.impact, sqrt).impactFraction;
      NoVolumeLeavesFlatFraction(quantity, mark, cfg.impact, sqrt);
      var price := if order.side.Buy? then mark * (1.0 + fraction) else mark * (1.0 - fraction);
      assert price == SlippedPrice(order.side, mark, cfg);
      q := Quote(price, ComputeCosts(order.side, price, quantity, cfg.cost, Delivery).total);
    }

    method Settle(order: Order, q: Quote) returns (o: Order)
      modifies this
      ensures (State(), o) == Execute(old(State()), order, q)
    {
      var paid := MoveCash(order, q);
      if !paid {
        o := RejectOrder(order, InsufficientBuyingPower);
        return;
      }
      AdjustPosition(order.symbol, SignedQuantity(order), q.price);
      fills := fills + [Fill(order.id, order.symbol, SignedQuantity(order), q.price, q.cost)];
      o := order.(status := Filled, reason := FilledAt(q.price, q.cost));
      StoreOrder(o);
    }

    /** A buy that the cash cannot pay for moves nothing. */
    method MoveCash(order: Order, q: Quote) returns (paid: bool)
      modifies this`cash
      ensures paid == Affordable(old(State()), order, q)
      ensures cash == if paid then CashAfter(old(cash), order, q) else old(cash)
    {
      var notional := q.price * order.quantity as real;
      if order.side.Buy? {
        if notional + q.cost > cash {
          return false;
        }
        cash := cash - (notional + q.cost);
      } else {
        cash := cash + (notional - q.cost);
      }
      return true;
    }

    method AdjustPosition(symbol: string, quantity: int, price: real)
      modifies this`positions
      ensures positions == ApplyPosition(old(positions), symbol, quantity, price)
    {
      var p := Blend(Held(positions, symbol), quantity, price);
      if p.shares == 0 {
        positions := positions - {symbol};
      } else {
        positions := positions[symbol := p];
      }
    }

    method ProcessPending()
      requires WellKept(State())
      modifies this
      ensures State() == BrokerModel.ProcessPending(old(State()), cfg)
    {
      var snapshot := arrival;
      var i := 0;
      while i < |snapshot|
        invariant 0 <= i <= |snapshot|
        invariant ProcessFrom(State(), snapshot[i..], cfg) == BrokerModel.ProcessPending(old(State()), cfg)
        invariant forall id :: id in snapshot ==> id in orders && orders[id].id == id
      {
        assert snapshot[i..][1..] == snapshot[i + 1..];
        Consider(snapshot[i]);
        i := i + 1;
      }
    }

    method Consider(id: string)
      requires id in orders && orders[id].id == id
      modifies this
      ensures State() == Touch(old(State()), id, cfg)
      ensures forall k :: k in old(orders) ==> k in orders
      ensures forall k :: k in old(orders) && old(orders)[k].id == k ==> orders[k].id == k
    {
      var o := orders[id];
      if o.status.Pending? && o.symbol in marks && marks[o.symbol] != 0.0 && Marketable(o, marks[o.symbol]) {
        var _ := FillOrder(o, marks[o.symbol]);
      }
    }

    method RejectOrder(order: Order, reason: Reason) returns (o: Order)
      modifies this`orders, this`arrival
      ensures (State(), o) == Reject(old(State()), order, reason)
    {
      o := order.(status := Rejected, reason := reason);
      StoreOrder(o);
    }

    method StoreOrder(o: Order)
      modifies this`orders, this`arrival
      ensures State() == Store(old(State()), o)
    {
      if o.id !in orders {
        arrival := arrival + [o.id];
      }
      orders := orders[o.id := o];
    }
  }

  lemma ExtendListing(
    report: seq<PositionReport>, positions: map<string, Position>, entry: PositionReport, p: Position)
    requires Lists(report, positions)
    requires entry.symbol !in positions && entry.quantity == p.shares && entry.avgPrice == p.avg
    ensures Lists(report + [entry], positions[entry.symbol := p])
  {
    var report', positions' := report + [entry], positions[entry.symbol := p];
    forall symbol | symbol in positions'
      ensures exists i :: 0 <= i < |report'| && report'[i].symbol == symbol
    {
      if symbol == entry.symbol {
        assert report'[|report|].symbol == symbol;
      } else {
        var i :| 0 <= i < |report| && report[i].symbol == symbol;
        assert report'[i].symbol == symbol;
      }
    }
  }
}
