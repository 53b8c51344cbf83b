/** Arbitrary sequences of calls on the broker. */
module BrokerRuns {
  import opened Numbers
  import opened BrokerModel

  datatype Op =
    | SetMarkOp(symbol: string, price: real)
    | UpdateMarksOp(prices: map<string, real>)
    | HaltOp
    | ResumeOp
    | PlaceOp(order: Order, ticket: string)
    | ModifyOp(id: string, quantity: Option<int>, limitPrice: Option<Option<real>>)
    | CancelOp(id: string)

  function Apply(b: Broker, op: Op, cfg: Config): Broker {
    match op
    case SetMarkOp(symbol, price) => SetMark(b, symbol, price, cfg)
    case UpdateMarksOp(prices) => UpdateMarks(b, prices, cfg)
    case HaltOp => b.(halted := true)
    case ResumeOp => b.(halted := false)
    case PlaceOp(order, ticket) => PlaceOrder(b, order, ticket, cfg).0
    case ModifyOp(id, quantity, limitPrice) => ModifyOrder(b, id, quantity, limitPrice, cfg).0
    case CancelOp(id) => CancelOrder(b, id).0
  }

  function Run(b: Broker, ops: seq<Op>, cfg: Config): Broker
    decreases |ops|
  {
    if ops == [] then b else Apply(Run(b, ops[..|ops| - 1], cfg), ops[|ops| - 1], cfg)
  }

  // --- the order book stays well kept, whatever is called ---

  lemma StoreWellKept(b: Broker, o: Order)
    requires WellKept(b)
    ensures WellKept(Store(b, o))
  {
    var b' := Store(b, o);
    if o.id !in b.orders {
      assert b'.arrival[|b.arrival|] == o.id;
      forall id | id in b'.orders
        ensures id in b'.arrival
      {
        if id != o.id {
          assert id in b.arrival;
        }
      }
    }
  }

  lemma ExecuteWellKept(b: Broker, o: Order, q: Quote)
    requires WellKept(b)
    ensures WellKept(Execute(b, o, q).0)
  {
    var b' := Execute(b, o, q).0;
    StoreWellKept(b, o.(status := b'.orders[o.id].status, reason := b'.orders[o.id].reason));
  }

  lemma ProcessWellKept(b: Broker, ids: seq<string>, cfg: Config)
    requires WellKept(b)
    ensures WellKept(ProcessFrom(b, ids, cfg))
    decreases |ids|
  {
    if ids != [] {
      if Live(b, ids[0]) {
        var o := b.orders[ids[0]];
        ExecuteWellKept(b, o, QuoteFor(o, b.marks[o.symbol], cfg));
      }
      ProcessWellKept(Touch(b, ids[0], cfg), ids[1..], cfg);
    }
  }

  lemma ApplyWellKept(b: Broker, op: Op, cfg: Config)
    requires WellKept(b)
    ensures WellKept(Apply(b, op, cfg))
  {
    match op
    case SetMarkOp(symbol, price) =>
      ProcessWellKept(b.(marks := b.marks[symbol := price]), b.arrival, cfg);
    case UpdateMarksOp(prices) =>
      ProcessWellKept(b.(marks := b.marks + prices), b.arrival, cfg);
    case HaltOp =>
    case ResumeOp =>
    case PlaceOp(order, ticket) =>
      PlaceWellKept(b, order, ticket, cfg);
    case ModifyOp(id, quantity, limitPrice) =>
      ModifyWellKept(b, id, quantity, limitPrice, cfg);
    case CancelOp(id) =>
      if id in b.orders {
        StoreWellKept(b, b.orders[id].(status := Cancelled));
      }
  }

  lemma PlaceWellKept(b: Broker, order: Order, ticket: string, cfg: Config)
    requires WellKept(b)
    ensures WellKept(PlaceOrder(b, order, ticket, cfg).0)
  {
    var (b', o') := PlaceOrder(b, order, ticket, cfg);
    if b' == Store(b, o') {
      StoreWellKept(b, o');
    } else {
      var o := order.(brokerOrderId := Some(ticket));
      ExecuteWellKept(b, o, QuoteFor(o, b.marks[o.symbol], cfg));
    }
  }

  lemma ModifyWellKept(
    b: Broker, id: string, quantity: Option<int>, limitPrice: Option<Option<real>>, cfg: Config)
    requires WellKept(b)
    ensures WellKept(ModifyOrder(b, id, quantity, limitPrice, cfg).0)
  {
    if id in b.orders {
      var o := Amended(b.orders[id], quantity, limitPrice);
      StoreWellKept(b, o);
      if Triggered(b, o) {
        ExecuteWellKept(b, o, QuoteFor(o, b.marks[o.symbol], cfg));
      }
    }
  }

  lemma RunWellKept(initialCash: real, ops: seq<Op>, cfg: Config)
    ensures WellKept(Run(Opened(initialCash), ops, cfg))
    decreases |ops|
  {
    if ops != [] {
      RunWellKept(initialCash, ops[..|ops| - 1], cfg);
      ApplyWellKept(Run(Opened(initialCash), ops[..|ops| - 1], cfg), ops[|ops| - 1], cfg);
    }
  }

  // --- executions, id by id ---

  /** How often an order id has been executed. */
  function Executions(fills: seq<Fill>, id: string): nat
    decreases |fills|
  {
    if fills == [] then 0 else Executions(fills[..|fills| - 1], id) + if fills[|fills| - 1].orderId == id then 1 else 0
  }

  lemma ExecutionsAppend(fills: seq<Fill>, f: Fill, id: string)
    ensures Executions(fills + [f], id) == Executions(fills, id) + if f.orderId == id then 1 else 0
  {
    assert (fills + [f])[..|fills|] == fills;
  }

  /** Executing an order counts for its id exactly if it is affordable, and leaves every other id alone. */
  lemma ExecuteCounts(b: Broker, o: Order, q: Quote, id: string)
    ensures
      var (b', o') := Execute(b, o, q);
      && o' == b'.orders[o.id] && o'.orderType == o.orderType && o'.id == o.id
      && (if Affordable(b, o, q) then o'.status.Filled? else o'.status.Rejected?)
      && b'.orders == b.orders[o.id := o']
      && Executions(b'.fills, id) == Executions(b.fills, id) + if id == o.id && o'.status.Filled? then 1 else 0
  {
    if Affordable(b, o, q) {
      ExecutionsAppend(b.fills, Fill(o.id, o.symbol, SignedQuantity(o), q.price, q.cost), id);
    }
  }

  /** One order as the broker sees it in a pass over the resting orders: it fills at most once, and only if it rests. */
  ghost predicate PassesOver(b: Broker, b': Broker, id: string) {
    && (id in b'.orders <==> id in b.orders)
    && (id in b.orders ==> b'.orders[id].orderType == b.orders[id].orderType)
    && (id in b.orders && !b.orders[id].status.Pending? ==> b'.orders[id] == b.orders[id])
    && (id in b'.orders && b'.orders[id].status.Pending? ==> b.orders[id] == b'.orders[id])
    && Executions(b'.fills, id) == Executions(b.fills, id)
         + if id in b.orders && b.orders[id].status.Pending? && b'.orders[id].status.Filled? then 1 else 0
  }

  lemma TouchPasses(b: Broker, touched: string, id: string, cfg: Config)
    requires WellKept(b)
    ensures PassesOver(b, Touch(b, touched, cfg), id) && WellKept(Touch(b, touched, cfg))
  {
    if Live(b, touched) {
      var o := b.orders[touched];
      var q := QuoteFor(o, b.marks[o.symbol], cfg);
      ExecuteCounts(b, o, q, id);
      ExecuteWellKept(b, o, q);
    }
  }

  lemma {:induction false} ProcessPasses(b: Broker, ids: seq<string>, id: string, cfg: Config)
    requires WellKept(b)
    ensures PassesOver(b, ProcessFrom(b, ids, cfg), id)
    decreases |ids|
  {
    if ids != [] {
      TouchPasses(b, ids[0], id, cfg);
      ProcessPasses(Touch(b, ids[0], cfg), ids[1..], id, cfg);
    }
  }
}
