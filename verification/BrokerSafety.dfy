/** Safety of the broker over any sequence of calls: nothing executable is left waiting, cash is never negative,
    what the kill switch does and does not stop, and how far a limit order may fill from its limit. */
module BrokerSafety {
  import opened Numbers
  import opened Costs
  import opened BrokerModel
  import opened BrokerRuns
  import opened BrokerFills

  // --- quiescence: no pending order is executable at its current mark ---

  ghost predicate Quiet(b: Broker) {
    forall id :: id in b.orders ==> !Live(b, id)
  }

  lemma TouchSettles(b: Broker, id: string, other: string, cfg: Config)
    requires WellKept(b)
    ensures !Live(Touch(b, id, cfg), id)
    ensures Live(Touch(b, id, cfg), other) ==> Live(b, other)
    ensures Touch(b, id, cfg).orders.Keys == b.orders.Keys
    ensures WellKept(Touch(b, id, cfg))
  {
    if Live(b, id) {
      var o := b.orders[id];
      ExecuteWellKept(b, o, QuoteFor(o, b.marks[o.symbol], cfg));
    }
  }

  lemma {:induction false} ProcessSettles(b: Broker, ids: seq<string>, id: string, cfg: Config)
    requires WellKept(b)
    ensures Live(ProcessFrom(b, ids, cfg), id) ==> Live(b, id) && id !in ids
    ensures ProcessFrom(b, ids, cfg).orders.Keys == b.orders.Keys
    decreases |ids|
  {
    if ids != [] {
      TouchSettles(b, ids[0], id, cfg);
      ProcessSettles(Touch(b, ids[0], cfg), ids[1..], id, cfg);
      assert ids == [ids[0]] + ids[1..];
    }
  }

  lemma ProcessPendingQuiet(b: Broker, cfg: Config)
    requires WellKept(b)
    ensures Quiet(ProcessPending(b, cfg))
  {
    forall id | id in ProcessPending(b, cfg).orders
      ensures !Live(ProcessPending(b, cfg), id)
    {
      ProcessSettles(b, b.arrival, id, cfg);
    }
  }

  lemma ExecuteQuiet(b: Broker, o: Order, q: Quote)
    requires forall id :: id in b.orders && id != o.id ==> !Live(b, id)
    ensures Quiet(Execute(b, o, q).0)
  {
    var b' := Execute(b, o, q).0;
    forall id | id in b'.orders
      ensures !Live(b', id)
    {
      if id != o.id {
        assert b'.orders[id] == b.orders[id];
        assert !Live(b, id);
      }
    }
  }

  lemma ApplyQuiet(b: Broker, op: Op, cfg: Config)
    requires WellKept(b) && Quiet(b)
    ensures Quiet(Apply(b, op, cfg))
  {
    match op
    case SetMarkOp(symbol, price) =>
      ProcessPendingQuiet(b.(marks := b.marks[symbol := price]), cfg);
    case UpdateMarksOp(prices) =>
      ProcessPendingQuiet(b.(marks := b.marks + prices), cfg);
    case HaltOp => SameBookQuiet(b, Apply(b, op, cfg), "");
    case ResumeOp => SameBookQuiet(b, Apply(b, op, cfg), "");
    case PlaceOp(order, ticket) =>
      PlaceQuiet(b, order, ticket, cfg);
    case ModifyOp(id, quantity, limitPrice) =>
      ModifyQuiet(b, id, quantity, limitPrice, cfg);
    case CancelOp(id) =>
      SameBookQuiet(b, Apply(b, op, cfg), id);
  }

  lemma SameBookQuiet(b: Broker, b': Broker, changed: string)
    requires Quiet(b) && b'.marks == b.marks
    requires forall id :: id in b'.orders && id != changed ==> id in b.orders && b'.orders[id] == b.orders[id]
    requires changed in b'.orders ==>
      !b'.orders[changed].status.Pending? || !Triggered(b', b'.orders[changed])
    ensures Quiet(b')
  {
    forall id | id in b'.orders
      ensures !Live(b', id)
    {
      if id != changed {
        assert !Live(b, id);
      }
    }
  }

  lemma PlaceQuiet(b: Broker, order: Order, ticket: string, cfg: Config)
    requires WellKept(b) && Quiet(b)
    ensures Quiet(PlaceOrder(b, order, ticket, cfg).0)
  {
    var (b', o') := PlaceOrder(b, order, ticket, cfg);
    if b' == Store(b, o') {
      SameBookQuiet(b, b', o'.id);
    } else {
      var o := order.(brokerOrderId := Some(ticket));
      ExecuteQuiet(b, o, QuoteFor(o, b.marks[o.symbol], cfg));
    }
  }

  lemma ModifyQuiet(
    b: Broker, id: string, quantity: Option<int>, limitPrice: Option<Option<real>>, cfg: Config)
    requires WellKept(b) && Quiet(b)
    ensures Quiet(ModifyOrder(b, id, quantity, limitPrice, cfg).0)
  {
    if id in b.orders && b.orders[id].status.Pending? {
      var o := Amended(b.orders[id], quantity, limitPrice);
      if Triggered(b, o) {
        ExecuteQuiet(b, o, QuoteFor(o, b.marks[o.symbol], cfg));
      } else {
        SameBookQuiet(b, Store(b, o), id);
      }
    }
  }

  /** After every public call no pending order is executable at its current mark. */
  lemma Quiescence(initialCash: real, ops: seq<Op>, cfg: Config)
    ensures
      var b := Run(Opened(initialCash), ops, cfg);
      forall id :: id in b.orders && b.orders[id].status.Pending? ==> !Executable(b, b.orders[id])
  {
    var b := Run(Opened(initialCash), ops, cfg);
    RunQuiet(initialCash, ops, cfg);
    forall id | id in b.orders && b.orders[id].status.Pending?
      ensures !Executable(b, b.orders[id])
    {
      assert !Live(b, id);
      TriggeredIsExecutable(b, b.orders[id]);
    }
  }

  lemma {:induction false} RunQuiet(initialCash: real, ops: seq<Op>, cfg: Config)
    ensures Quiet(Run(Opened(initialCash), ops, cfg))
    decreases |ops|
  {
    if ops != [] {
      var before := ops[..|ops| - 1];
      RunWellKept(initialCash, before, cfg);
      RunQuiet(initialCash, before, cfg);
      ApplyQuiet(Run(Opened(initialCash), before, cfg), ops[|ops| - 1], cfg);
    }
  }

  // --- time priority: an order's fate in a pass is decided by the orders before it ---

  lemma {:induction false} ProcessConcat(b: Broker, first: seq<string>, rest: seq<string>, cfg: Config)
    ensures ProcessFrom(b, first + rest, cfg) == ProcessFrom(ProcessFrom(b, first, cfg), rest, cfg)
    decreases |first|
  {
    if first == [] {
      assert first + rest == rest;
    } else {
      ProcessConcat(Touch(b, first[0], cfg), first[1..], rest, cfg);
      assert (first + rest)[1..] == first[1..] + rest;
    }
  }

  lemma TouchOther(b: Broker, touched: string, id: string, cfg: Config)
    requires WellKept(b) && id in b.orders && touched != id
    ensures id in Touch(b, touched, cfg).orders && Touch(b, touched, cfg).orders[id] == b.orders[id]
  {
  }

  lemma {:induction false} ProcessOthers(b: Broker, ids: seq<string>, id: string, cfg: Config)
    requires WellKept(b) && id in b.orders && id !in ids
    ensures id in ProcessFrom(b, ids, cfg).orders && ProcessFrom(b, ids, cfg).orders[id] == b.orders[id]
    decreases |ids|
  {
    if ids != [] {
      TouchSettles(b, ids[0], id, cfg);
      TouchOther(b, ids[0], id, cfg);
      ProcessOthers(Touch(b, ids[0], cfg), ids[1..], id, cfg);
    }
  }

  /** The k-th order that arrived leaves a pass as it stands once the first k+1 have been visited: orders that arrived
      later compete only for the cash that it leaves. */
  lemma TimePriority(b: Broker, k: nat, cfg: Config)
    requires WellKept(b) && k < |b.arrival|
    ensures
      var id, before := b.arrival[k], ProcessFrom(b, b.arrival[..k + 1], cfg);
      && id in before.orders && id in ProcessPending(b, cfg).orders
      && ProcessPending(b, cfg).orders[id] == before.orders[id]
  {
    var id, first, rest := b.arrival[k], b.arrival[..k + 1], b.arrival[k + 1..];
    var before := ProcessFrom(b, first, cfg);
    assert b.arrival == first + rest;
    ProcessConcat(b, first, rest, cfg);
    ProcessWellKept(b, first, cfg);
    ProcessSettles(b, first, id, cfg);
    assert id !in rest;
    ProcessOthers(before, rest, id, cfg);
  }

  /** A resting order that the given marks would execute and the cash at hand can pay for. */
  predicate WouldFill(b: Broker, id: string, cfg: Config) {
    && id in b.orders && b.orders[id].status.Pending?
    && var o := b.orders[id];
       Executable(b, o) && Payable(o, b.marks[o.symbol], b.cash, cfg)
  }

  lemma WouldFillIs(b: Broker, id: string, cfg: Config)
    ensures WouldFill(b, id, cfg) <==>
      Live(b, id) && Affordable(b, b.orders[id], QuoteFor(b.orders[id], b.marks[b.orders[id].symbol], cfg))
  {
    if id in b.orders {
      TriggeredIsExecutable(b, b.orders[id]);
      if Live(b, id) {
        AffordableIsPayable(b, b.orders[id], b.marks[b.orders[id].symbol], cfg);
      }
    }
  }

  lemma TouchFillsPendingIff(b: Broker, id: string, cfg: Config)
    requires WellKept(b) && id in b.orders && b.orders[id].status.Pending?
    ensures id in Touch(b, id, cfg).orders
    ensures Touch(b, id, cfg).orders[id].status.Filled? <==> WouldFill(b, id, cfg)
  {
    WouldFillIs(b, id, cfg);
  }

  lemma {:induction false} ProcessKeepsMarks(b: Broker, ids: seq<string>, cfg: Config)
    ensures ProcessFrom(b, ids, cfg).marks == b.marks
    decreases |ids|
  {
    if ids != [] {
      ProcessKeepsMarks(Touch(b, ids[0], cfg), ids[1..], cfg);
    }
  }

  /** A pass fills a resting order exactly if its mark triggers it and the cash that the orders before it leave can pay
      for it; a sell that is triggered always fills. */
  lemma PassFillsIff(b: Broker, k: nat, cfg: Config)
    requires WellKept(b) && k < |b.arrival|
    requires b.arrival[k] in b.orders && b.orders[b.arrival[k]].status.Pending?
    ensures b.arrival[k] in ProcessPending(b, cfg).orders
    ensures ProcessPending(b, cfg).orders[b.arrival[k]].status.Filled?
       <==> WouldFill(ProcessFrom(b, b.arrival[..k], cfg), b.arrival[k], cfg)
    ensures
      var o, cash := b.orders[b.arrival[k]], ProcessFrom(b, b.arrival[..k], cfg).cash;
      ProcessPending(b, cfg).orders[b.arrival[k]].status.Filled?
      <==> && o.symbol in b.marks && b.marks[o.symbol] != 0.0 && Reached(o, b.marks[o.symbol])
           && (o.side.Buy? ==> BuyingCost(SlippedPrice(Buy, b.marks[o.symbol], cfg), o.quantity as real, cfg) <= cash)
  {
    var id, earlier := b.arrival[k], b.arrival[..k];
    var mid := ProcessFrom(b, earlier, cfg);
    TimePriority(b, k, cfg);
    assert b.arrival[..k + 1] == earlier + [id];
    ProcessConcat(b, earlier, [id], cfg);
    ProcessOthers(b, earlier, id, cfg);
    ProcessWellKept(b, earlier, cfg);
    TouchFillsPendingIff(mid, id, cfg);
    assert ProcessFrom(mid, [id], cfg) == Touch(mid, id, cfg);
    ProcessKeepsMarks(b, earlier, cfg);
  }

  // --- solvency: cash is never negative ---

  /** Marks are never negative, and neither are the quantities of sells. */
  predicate Sensible(b: Broker, op: Op) {
    match op
    case SetMarkOp(_, price) => price >= 0.0
    case UpdateMarksOp(prices) => forall s :: s in prices ==> prices[s] >= 0.0
    case PlaceOp(order, _) => Deliverable(order)
    case ModifyOp(id, quantity, limitPrice) =>
      id in b.orders ==> Deliverable(Amended(b.orders[id], quantity, limitPrice))
    case _ => true
  }

  predicate Deliverable(o: Order) {
    o.side.Sell? ==> o.quantity >= 0
  }

  ghost predicate SensibleThroughout(b: Broker, ops: seq<Op>, cfg: Config) {
    forall n :: 0 <= n < |ops| ==> Sensible(Run(b, ops[..n], cfg), ops[n])
  }

  ghost predicate Solvent(b: Broker) {
    && b.cash >= 0.0
    && (forall s :: s in b.marks ==> b.marks[s] >= 0.0)
    && (forall id :: id in b.orders ==> Deliverable(b.orders[id]))
  }

  /** A sell brings in at least its cost, because the rate is at most one. */
  lemma QuoteAffordsSell(o: Order, mark: real, cfg: Config)
    requires cfg.Sane() && mark >= 0.0 && o.quantity >= 0 && o.side.Sell?
    ensures
      var q := QuoteFor(o, mark, cfg);
      q.cost <= q.price * o.quantity as real
  {
    MulNonNegative(mark, 1.0 - cfg.impact.FlatFraction());
    SellCostWithinProceeds(SlippedPrice(Sell, mark, cfg), o.quantity as real, cfg);
  }

  lemma SellCostWithinProceeds(price: real, n: real, cfg: Config)
    requires cfg.Sane() && price >= 0.0 && n >= 0.0
    ensures ComputeCosts(Sell, price, n, cfg.cost, Delivery).total <= price * n
  {
    MulNonNegative(price, n);
    ScalarIsCharge(Sell, price, n, cfg.cost, Delivery);
    SellChargeWithinTurnover(price * n, cfg);
  }

  lemma SellChargeWithinTurnover(t: real, cfg: Config)
    requires cfg.Sane() && t >= 0.0
    ensures Charge(Sell, t, cfg.cost, Delivery) <= t
  {
    ChargeBounds(Sell, t, cfg.cost, Delivery);
    MulMonotone(t, Rate(Sell, cfg.cost, Delivery), 1.0);
  }

  lemma CashAfterNonNegative(b: Broker, o: Order, q: Quote)
    requires b.cash >= 0.0 && Affordable(b, o, q)
    requires o.side.Sell? ==> q.cost <= q.price * o.quantity as real
    ensures CashAfter(b.cash, o, q) >= 0.0
  {
  }

  lemma ExecuteSolvent(b: Broker, o: Order, q: Quote)
    requires Solvent(b) && Deliverable(o)
    requires o.side.Sell? ==> q.cost <= q.price * o.quantity as real
    ensures Solvent(Execute(b, o, q).0)
  {
    if Affordable(b, o, q) {
      CashAfterNonNegative(b, o, q);
    }
  }

  lemma FillSolvent(b: Broker, o: Order, cfg: Config)
    requires Solvent(b) && cfg.Sane() && Deliverable(o) && o.symbol in b.marks
    ensures Solvent(Execute(b, o, QuoteFor(o, b.marks[o.symbol], cfg)).0)
  {
    if o.side.Sell? {
      QuoteAffordsSell(o, b.marks[o.symbol], cfg);
    }
    ExecuteSolvent(b, o, QuoteFor(o, b.marks[o.symbol], cfg));
  }

  lemma {:induction false} ProcessSolvent(b: Broker, ids: seq<string>, cfg: Config)
    requires Solvent(b) && cfg.Sane()
    ensures Solvent(ProcessFrom(b, ids, cfg))
    decreases |ids|
  {
    if ids != [] {
      if Live(b, ids[0]) {
        FillSolvent(b, b.orders[ids[0]], cfg);
      }
      ProcessSolvent(Touch(b, ids[0], cfg), ids[1..], cfg);
    }
  }

  lemma ApplySolvent(b: Broker, op: Op, cfg: Config)
    requires Solvent(b) && cfg.Sane() && Sensible(b, op)
    ensures Solvent(Apply(b, op, cfg))
  {
    match op
    case SetMarkOp(symbol, price) =>
      ProcessSolvent(b.(marks := b.marks[symbol := price]), b.arrival, cfg);
    case UpdateMarksOp(prices) =>
      ProcessSolvent(b.(marks := b.marks + prices), b.arrival, cfg);
    case HaltOp =>
    case ResumeOp =>
    case PlaceOp(order, ticket) =>
      PlaceSolvent(b, order, ticket, cfg);
    case ModifyOp(id, quantity, limitPrice) =>
      ModifySolvent(b, id, quantity, limitPrice, cfg);
    case CancelOp(id) =>
  }

  lemma PlaceSolvent(b: Broker, order: Order, ticket: string, cfg: Config)
    requires Solvent(b) && cfg.Sane() && Deliverable(order)
    ensures Solvent(PlaceOrder(b, order, ticket, cfg).0)
  {
    var o := order.(brokerOrderId := Some(ticket));
    if o.symbol in b.marks {
      FillSolvent(b, o, cfg);
    }
  }

  lemma ModifySolvent(
    b: Broker, id: string, quantity: Option<int>, limitPrice: Option<Option<real>>, cfg: Config)
    requires Solvent(b) && cfg.Sane() && (id in b.orders ==> Deliverable(Amended(b.orders[id], quantity, limitPrice)))
    ensures Solvent(ModifyOrder(b, id, quantity, limitPrice, cfg).0)
  {
    if id in b.orders {
      var o := Amended(b.orders[id], quantity, limitPrice);
      if Triggered(b, o) {
        FillSolvent(b, o, cfg);
      }
    }
  }

  /** Cash is never negative, even when many resting orders compete for it in one update of the marks. */
  lemma {:induction false} Solvency(initialCash: real, ops: seq<Op>, cfg: Config)
    requires cfg.Sane() && initialCash >= 0.0
    requires SensibleThroughout(Opened(initialCash), ops, cfg)
    ensures Solvent(Run(Opened(initialCash), ops, cfg))
    decreases |ops|
  {
    if ops != [] {
      var before := ops[..|ops| - 1];
      assert forall n :: 0 <= n < |before| ==> before[..n] == ops[..n];
      Solvency(initialCash, before, cfg);
      ApplySolvent(Run(Opened(initialCash), before, cfg), ops[|ops| - 1], cfg);
    }
  }

  lemma SellOfNegativeQuantity(o: Order, mark: real, cfg: Config)
    requires cfg.Sane() && cfg.impact.FlatFraction() < 1.0
    requires o.side.Sell? && o.quantity < 0 && mark > 0.0
    ensures CashAfter(0.0, o, QuoteFor(o, mark, cfg)) < 0.0
  {
    var price, n := SlippedPrice(Sell, mark, cfg), o.quantity as real;
    MulStrict(mark, 0.0, 1.0 - cfg.impact.FlatFraction());
    CostNonNegative(price, n, cfg);
    MulStrict(price, n, 0.0);
  }

  ghost predicate KeepsCashNonNegative(o: Order, mark: real, cfg: Config) {
    forall b: Broker :: b.cash >= 0.0 ==> Execute(b, o, QuoteFor(o, mark, cfg)).0.cash >= 0.0
  }

  /** Executing an order never overdraws an account, whatever it holds, exactly if the order is a buy or its quantity is
      not negative. The broker checks neither. */
  lemma ExecutionSolventIff(o: Order, mark: real, cfg: Config)
    requires cfg.Sane() && cfg.impact.FlatFraction() < 1.0 && mark > 0.0
    ensures KeepsCashNonNegative(o, mark, cfg) <==> o.side.Buy? || o.quantity >= 0
  {
    if Deliverable(o) {
      forall b: Broker | b.cash >= 0.0
        ensures Execute(b, o, QuoteFor(o, mark, cfg)).0.cash >= 0.0
      {
        if o.side.Sell? {
          QuoteAffordsSell(o, mark, cfg);
        }
      }
    } else {
      SellOfNegativeQuantity(o, mark, cfg);
      assert Execute(Opened(0.0), o, QuoteFor(o, mark, cfg)).0.cash == CashAfter(0.0, o, QuoteFor(o, mark, cfg));
    }
  }

  /** Two calls on an empty account that leave it overdrawn. */
  lemma NegativeQuantityOverdraws(cfg: Config)
    requires cfg.Sane() && cfg.impact.FlatFraction() < 1.0
    ensures
      var o := Order("id", "AAA", Sell, -1, MarketOrder, None, Pending, None, NoReason);
      PlaceOrder(SetMark(Opened(0.0), "AAA", 100.0, cfg), o, "ticket", cfg).0.cash < 0.0
  {
    var o := Order("id", "AAA", Sell, -1, MarketOrder, None, Pending, None, NoReason);
    var marked := SetMark(Opened(0.0), "AAA", 100.0, cfg);
    assert marked == Opened(0.0).(marks := map["AAA" := 100.0]);
    SellOfNegativeQuantity(o.(brokerOrderId := Some("ticket")), 100.0, cfg);
  }

  lemma CostNonNegative(price: real, n: real, cfg: Config)
    requires cfg.Sane() && price >= 0.0
    ensures ComputeCosts(Sell, price, n, cfg.cost, Delivery).total >= 0.0
  {
    MulNonNegative(price, Abs(n));
    ScalarIsCharge(Sell, price, n, cfg.cost, Delivery);
    ChargeBounds(Sell, price * Abs(n), cfg.cost, Delivery);
  }

  // --- the kill switch ---

  predicate SameBooks(b: Broker, b': Broker) {
    b'.cash == b.cash && b'.positions == b.positions
  }

  lemma TouchFillsIff(b: Broker, id: string, other: string, cfg: Config)
    requires WellKept(b)
    ensures WouldFill(b, id, cfg) ==> |Touch(b, id, cfg).fills| == |b.fills| + 1
    ensures !WouldFill(b, id, cfg) ==>
      && Touch(b, id, cfg).fills == b.fills && SameBooks(b, Touch(b, id, cfg))
      && (other != id ==> WouldFill(Touch(b, id, cfg), other, cfg) == WouldFill(b, other, cfg))
  {
    WouldFillIs(b, id, cfg);
  }

  lemma {:induction false} ProcessOnlyAdds(b: Broker, ids: seq<string>, cfg: Config)
    requires WellKept(b)
    ensures |ProcessFrom(b, ids, cfg).fills| >= |b.fills|
    decreases |ids|
  {
    if ids != [] {
      TouchFillsIff(b, ids[0], ids[0], cfg);
      TouchSettles(b, ids[0], ids[0], cfg);
      ProcessOnlyAdds(Touch(b, ids[0], cfg), ids[1..], cfg);
    }
  }

  lemma {:induction false} ProcessFillsIff(b: Broker, ids: seq<string>, cfg: Config)
    requires WellKept(b)
    requires forall i, j :: 0 <= i < j < |ids| ==> ids[i] != ids[j]
    ensures ProcessFrom(b, ids, cfg).fills == b.fills <==> forall id :: id in ids ==> !WouldFill(b, id, cfg)
    ensures ProcessFrom(b, ids, cfg).fills == b.fills ==> SameBooks(b, ProcessFrom(b, ids, cfg))
    decreases |ids|
  {
    if ids != [] {
      var b', rest := Touch(b, ids[0], cfg), ids[1..];
      TouchSettles(b, ids[0], ids[0], cfg);
      TouchFillsIff(b, ids[0], ids[0], cfg);
      ProcessOnlyAdds(b', rest, cfg);
      if !WouldFill(b, ids[0], cfg) {
        ProcessFillsIff(b', rest, cfg);
        forall id | id in rest
          ensures WouldFill(b', id, cfg) == WouldFill(b, id, cfg)
        {
          TouchFillsIff(b, ids[0], id, cfg);
        }
        assert ids == [ids[0]] + rest;
      }
    }
  }

  /** An amendment that makes a resting order executable and payable. */
  predicate AmendmentFills(
    b: Broker, id: string, quantity: Option<int>, limitPrice: Option<Option<real>>, cfg: Config)
  {
    && id in b.orders && b.orders[id].status.Pending?
    && var o := Amended(b.orders[id], quantity, limitPrice);
       Executable(b, o) && Payable(o, b.marks[o.symbol], b.cash, cfg)
  }

  /** What a caller of a halted broker can check beforehand: the call moves no resting order into execution. */
  ghost predicate LeavesRestingOrders(b: Broker, op: Op, cfg: Config) {
    match op
    case SetMarkOp(s, p) => forall id :: id in b.orders ==> !WouldFill(b.(marks := b.marks[s := p]), id, cfg)
    case UpdateMarksOp(prices) => forall id :: id in b.orders ==> !WouldFill(b.(marks := b.marks + prices), id, cfg)
    case ModifyOp(id, quantity, limitPrice) => !AmendmentFills(b, id, quantity, limitPrice, cfg)
    case _ => true
  }

  /** The kill switch, exactly: a halted broker executes nothing on a call, and then moves neither cash nor positions,
      if and only if the call leaves its resting orders alone. An order placed meanwhile is rejected for the halt. New
      marks and amendments still fill resting orders, which the design does not promise. */
  lemma KillSwitchExact(b: Broker, op: Op, cfg: Config)
    requires WellKept(b) && b.halted && !op.ResumeOp?
    ensures Apply(b, op, cfg).halted
    ensures Apply(b, op, cfg).fills == b.fills <==> LeavesRestingOrders(b, op, cfg)
    ensures LeavesRestingOrders(b, op, cfg) ==> SameBooks(b, Apply(b, op, cfg))
    ensures op.PlaceOp? ==> RejectedForHalt(Apply(b, op, cfg), op.order.id)
  {
    match op
    case SetMarkOp(s, p) =>
      ProcessFillsIff(b.(marks := b.marks[s := p]), b.arrival, cfg);
      ProcessKeepsHalt(b.(marks := b.marks[s := p]), b.arrival, cfg);
    case UpdateMarksOp(prices) =>
      ProcessFillsIff(b.(marks := b.marks + prices), b.arrival, cfg);
      ProcessKeepsHalt(b.(marks := b.marks + prices), b.arrival, cfg);
    case HaltOp =>
    case PlaceOp(order, ticket) =>
    case ModifyOp(id, quantity, limitPrice) =>
      ModifyFillsIff(b, id, quantity, limitPrice, cfg);
    case CancelOp(id) =>
  }

  predicate RejectedForHalt(b: Broker, id: string) {
    id in b.orders && b.orders[id].status.Rejected? && b.orders[id].reason == TradingHalted
  }

  lemma ModifyFillsIff(
    b: Broker, id: string, quantity: Option<int>, limitPrice: Option<Option<real>>, cfg: Config)
    ensures
      var b' := ModifyOrder(b, id, quantity, limitPrice, cfg).0;
      && b'.halted == b.halted
      && (b'.fills == b.fills <==> !AmendmentFills(b, id, quantity, limitPrice, cfg))
      && (b'.fills == b.fills ==> SameBooks(b, b'))
  {
    var b' := ModifyOrder(b, id, quantity, limitPrice, cfg).0;
    if id in b.orders {
      var o := Amended(b.orders[id], quantity, limitPrice);
      TriggeredIsExecutable(b, o);
      if Triggered(b, o) {
        AffordableIsPayable(b, o, b.marks[o.symbol], cfg);
      }
    }
    assert AmendmentFills(b, id, quantity, limitPrice, cfg) ==> |b'.fills| == |b.fills| + 1;
  }

  lemma {:induction false} ProcessKeepsHalt(b: Broker, ids: seq<string>, cfg: Config)
    ensures ProcessFrom(b, ids, cfg).halted == b.halted
    decreases |ids|
  {
    if ids != [] {
      ProcessKeepsHalt(Touch(b, ids[0], cfg), ids[1..], cfg);
    }
  }

  /** A resting sell that fills after the halt. */
  lemma HaltedBrokerStillFills(cfg: Config)
    ensures
      var o := Order("id", "AAA", Sell, 1, LimitOrder, Some(101.0), Pending, None, NoReason);
      var resting := PlaceOrder(SetMark(Opened(0.0), "AAA", 100.0, cfg), o, "ticket", cfg).0;
      var after := SetMark(resting.(halted := true), "AAA", 102.0, cfg);
      resting.fills == [] && after.halted && |after.fills| == 1
  {
    var o := Order("id", "AAA", Sell, 1, LimitOrder, Some(101.0), Pending, None, NoReason);
    var marked := SetMark(Opened(0.0), "AAA", 100.0, cfg);
    assert marked == Opened(0.0).(marks := map["AAA" := 100.0]);
    var halted := PlaceOrder(marked, o, "ticket", cfg).0.(halted := true);
    assert halted.arrival == ["id"];
    var moved := halted.(marks := halted.marks["AAA" := 102.0]);
    assert WouldFill(moved, "id", cfg);
    assert ProcessFrom(moved, ["id"], cfg) == ProcessFrom(Touch(moved, "id", cfg), [], cfg);
  }

  // --- final statuses ---

  /** A settled order, as the call leaves it: the same record, and no further execution of its id. */
  ghost predicate Untouched(b: Broker, b': Broker, id: string)
    requires id in b.orders
  {
    && id in b'.orders && b'.orders[id] == b.orders[id]
    && Executions(b'.fills, id) == Executions(b.fills, id)
  }

  lemma ApplyLeavesSettled(b: Broker, op: Op, cfg: Config, id: string)
    requires WellKept(b) && id in b.orders && !b.orders[id].status.Pending?
    requires op.PlaceOp? ==> op.order.id != id
    ensures Untouched(b, Apply(b, op, cfg), id)
  {
    match op
    case SetMarkOp(symbol, price) =>
      ProcessPasses(b.(marks := b.marks[symbol := price]), b.arrival, id, cfg);
    case UpdateMarksOp(prices) =>
      ProcessPasses(b.(marks := b.marks + prices), b.arrival, id, cfg);
    case HaltOp =>
    case ResumeOp =>
    case PlaceOp(order, ticket) =>
      PlaceLeavesSettled(b, order, ticket, cfg, id);
    case ModifyOp(other, quantity, limitPrice) =>
      ModifyLeavesSettled(b, other, quantity, limitPrice, cfg, id);
    case CancelOp(other) =>
  }

  lemma PlaceLeavesSettled(b: Broker, order: Order, ticket: string, cfg: Config, id: string)
    requires id in b.orders && order.id != id
    ensures Untouched(b, PlaceOrder(b, order, ticket, cfg).0, id)
  {
    var o := order.(brokerOrderId := Some(ticket));
    if o.symbol in b.marks {
      ExecuteCounts(b, o, QuoteFor(o, b.marks[o.symbol], cfg), id);
    }
  }

  lemma ModifyLeavesSettled(
    b: Broker, other: string, quantity: Option<int>, limitPrice: Option<Option<real>>, cfg: Config, id: string)
    requires WellKept(b) && id in b.orders && !b.orders[id].status.Pending?
    ensures Untouched(b, ModifyOrder(b, other, quantity, limitPrice, cfg).0, id)
  {
    if other in b.orders && b.orders[other].status.Pending? {
      var o := Amended(b.orders[other], quantity, limitPrice);
      if Triggered(b, o) {
        ExecuteCounts(b, o, QuoteFor(o, b.marks[o.symbol], cfg), id);
      }
    }
  }

  /** Filled, rejected and cancelled are final: over any further calls, unless the same id is placed again, the order
      stays as it is and is never executed again. */
  lemma {:induction false} SettledOrdersAreFinal(b: Broker, ops: seq<Op>, cfg: Config, id: string)
    requires WellKept(b) && id in b.orders && !b.orders[id].status.Pending?
    requires forall i :: 0 <= i < |ops| && ops[i].PlaceOp? ==> ops[i].order.id != id
    ensures WellKept(Run(b, ops, cfg)) && Untouched(b, Run(b, ops, cfg), id)
    decreases |ops|
  {
    if ops != [] {
      var before := ops[..|ops| - 1];
      SettledOrdersAreFinal(b, before, cfg, id);
      ApplyWellKept(Run(b, before, cfg), ops[|ops| - 1], cfg);
      ApplyLeavesSettled(Run(b, before, cfg), ops[|ops| - 1], cfg, id);
    }
  }

  /** A cancelled order is never executed again, whatever is called, unless its id is placed again. */
  lemma CancelledStaysCancelled(b: Broker, id: string, ops: seq<Op>, cfg: Config)
    requires WellKept(b) && id in b.orders && b.orders[id].status.Pending?
    requires forall i :: 0 <= i < |ops| && ops[i].PlaceOp? ==> ops[i].order.id != id
    ensures
      var after := Run(Apply(b, CancelOp(id), cfg), ops, cfg);
      && id in after.orders && after.orders[id].status == Cancelled
      && Executions(after.fills, id) == Executions(b.fills, id)
  {
    CancelOutcome(b, id);
    ApplyWellKept(b, CancelOp(id), cfg);
    SettledOrdersAreFinal(Apply(b, CancelOp(id), cfg), ops, cfg, id);
  }

  /** New marks replace the old ones of their symbols and leave the others and the kill switch alone. */
  lemma MarksReplaced(b: Broker, prices: map<string, real>, symbol: string, price: real, cfg: Config)
    ensures
      var marks := UpdateMarks(b, prices, cfg).marks;
      && (forall s :: s in prices ==> s in marks && marks[s] == prices[s])
      && (forall s :: s !in prices ==> (s in marks <==> s in b.marks))
      && (forall s :: s !in prices && s in b.marks ==> marks[s] == b.marks[s])
    ensures SetMark(b, symbol, price, cfg) == UpdateMarks(b, map[symbol := price], cfg)
    ensures UpdateMarks(b, prices, cfg).halted == b.halted
  {
    ProcessKeepsMarks(b.(marks := b.marks + prices), b.arrival, cfg);
    ProcessKeepsHalt(b.(marks := b.marks + prices), b.arrival, cfg);
    assert b.marks[symbol := price] == b.marks + map[symbol := price];
  }

  // --- limit prices ---

  lemma SlipScales(low: real, high: real, factor: real)
    requires low <= high && factor >= 0.0
    ensures low * factor <= high * factor
  {
    MulMonotone(factor, low, high);
  }

  /** The price a limit order may reach: the limit, worsened by the slippage fraction. */
  predicate WithinSlippedLimit(price: real, o: Order, cfg: Config)
    requires o.limitPrice.Some?
  {
    match o.side
    case Buy => price <= SlippedPrice(Buy, o.limitPrice.value, cfg)
    case Sell => price >= SlippedPrice(Sell, o.limitPrice.value, cfg)
  }

  predicate HonoursLimit(price: real, o: Order)
    requires o.limitPrice.Some?
  {
    match o.side
    case Buy => price <= o.limitPrice.value
    case Sell => price >= o.limitPrice.value
  }

  lemma MarketableWithinSlippedLimit(o: Order, mark: real, cfg: Config)
    requires cfg.Sane() && o.limitPrice.Some? && Marketable(o, mark)
    ensures WithinSlippedLimit(SlippedPrice(o.side, mark, cfg), o, cfg)
  {
    var limit, f := o.limitPrice.value, cfg.impact.FlatFraction();
    if o.side.Buy? {
      SlipScales(mark, limit, 1.0 + f);
    } else {
      SlipScales(limit, mark, 1.0 - f);
    }
  }

  /** What the record of a filled limit order says about its price. */
  predicate FilledNearLimit(o: Order, cfg: Config) {
    o.status.Filled? && o.orderType.LimitOrder? && o.limitPrice.Some? ==>
      o.reason.FilledAt? && WithinSlippedLimit(o.reason.price, o, cfg)
  }

  ghost predicate AllFilledNearLimit(b: Broker, cfg: Config) {
    forall id :: id in b.orders ==> FilledNearLimit(b.orders[id], cfg)
  }

  lemma ExecuteNearLimit(b: Broker, o: Order, mark: real, cfg: Config)
    requires cfg.Sane() && AllFilledNearLimit(b, cfg)
    requires o.orderType.LimitOrder? ==> Marketable(o, mark)
    ensures AllFilledNearLimit(Execute(b, o, QuoteFor(o, mark, cfg)).0, cfg)
  {
    if o.orderType.LimitOrder? && o.limitPrice.Some? {
      MarketableWithinSlippedLimit(o, mark, cfg);
    }
    ExecuteStores(b, o, QuoteFor(o, mark, cfg));
  }

  lemma ExecuteStores(b: Broker, o: Order, q: Quote)
    ensures
      var (b', o') := Execute(b, o, q);
      && b'.orders == b.orders[o.id := o']
      && o' == o.(status := o'.status, reason := o'.reason)
      && (o'.status.Filled? ==> o'.reason == FilledAt(q.price, q.cost))
  {
  }

  lemma {:induction false} ProcessNearLimit(b: Broker, ids: seq<string>, cfg: Config)
    requires cfg.Sane() && AllFilledNearLimit(b, cfg)
    ensures AllFilledNearLimit(ProcessFrom(b, ids, cfg), cfg)
    decreases |ids|
  {
    if ids != [] {
      if Live(b, ids[0]) {
        ExecuteNearLimit(b, b.orders[ids[0]], b.marks[b.orders[ids[0]].symbol], cfg);
      }
      ProcessNearLimit(Touch(b, ids[0], cfg), ids[1..], cfg);
    }
  }

  lemma ApplyNearLimit(b: Broker, op: Op, cfg: Config)
    requires cfg.Sane() && AllFilledNearLimit(b, cfg)
    ensures AllFilledNearLimit(Apply(b, op, cfg), cfg)
  {
    match op
    case SetMarkOp(symbol, price) =>
      ProcessNearLimit(b.(marks := b.marks[symbol := price]), b.arrival, cfg);
    case UpdateMarksOp(prices) =>
      ProcessNearLimit(b.(marks := b.marks + prices), b.arrival, cfg);
    case HaltOp =>
    case ResumeOp =>
    case PlaceOp(order, ticket) =>
      var o := order.(brokerOrderId := Some(ticket));
      if o.symbol in b.marks && (o.orderType.LimitOrder? ==> Marketable(o, b.marks[o.symbol])) {
        ExecuteNearLimit(b, o, b.marks[o.symbol], cfg);
      }
    case ModifyOp(id, quantity, limitPrice) =>
      if id in b.orders {
        var o := Amended(b.orders[id], quantity, limitPrice);
        if Triggered(b, o) {
          ExecuteNearLimit(b, o, b.marks[o.symbol], cfg);
        }
      }
    case CancelOp(id) =>
  }

  /** A limit order is tested against the mark and slipped afterwards. In every reachable state each filled limit order,
      amended or not, was filled no further than the slippage fraction beyond the limit it carries. */
  lemma {:induction false} LimitFillPrice(initialCash: real, ops: seq<Op>, cfg: Config)
    requires cfg.Sane()
    ensures AllFilledNearLimit(Run(Opened(initialCash), ops, cfg), cfg)
    decreases |ops|
  {
    if ops != [] {
      LimitFillPrice(initialCash, ops[..|ops| - 1], cfg);
      ApplyNearLimit(Run(Opened(initialCash), ops[..|ops| - 1], cfg), ops[|ops| - 1], cfg);
    }
  }

  lemma Slipped(mark: real, f: real)
    ensures mark * (1.0 + f) == mark + mark * f && mark * (1.0 - f) == mark - mark * f
  {
  }

  /** An execution honours the limit exactly when the mark clears the limit by the slippage. */
  lemma LimitHonouredIff(b: Broker, o: Order, mark: real, cfg: Config)
    requires o.limitPrice.Some? && Marketable(o, mark)
    requires Affordable(b, o, QuoteFor(o, mark, cfg))
    ensures
      var filled := Execute(b, o, QuoteFor(o, mark, cfg)).1;
      && filled.status.Filled? && filled.reason.FilledAt? && filled.limitPrice == o.limitPrice
      && (HonoursLimit(filled.reason.price, filled)
          <==> mark * cfg.impact.FlatFraction()
               <= if o.side.Buy? then o.limitPrice.value - mark else mark - o.limitPrice.value)
  {
    Slipped(mark, cfg.impact.FlatFraction());
  }

  /** With any slippage at all, a limit buy at the mark, placed with the cash to pay for it, fills above its limit. */
  lemma LimitBuyFillsAboveLimit(cfg: Config, initialCash: real)
    requires cfg.impact.FlatFraction() > 0.0
    requires
      var o := Order("id", "AAA", Buy, 1, LimitOrder, Some(100.0), Pending, None, NoReason);
      Payable(o, 100.0, initialCash, cfg)
    ensures
      var o := Order("id", "AAA", Buy, 1, LimitOrder, Some(100.0), Pending, None, NoReason);
      var filled := PlaceOrder(SetMark(Opened(initialCash), "AAA", 100.0, cfg), o, "ticket", cfg).1;
      filled.status.Filled? && filled.reason.FilledAt? && filled.reason.price > 100.0
  {
    var o := Order("id", "AAA", Buy, 1, LimitOrder, Some(100.0), Pending, Some("ticket"), NoReason);
    var marked := SetMark(Opened(initialCash), "AAA", 100.0, cfg);
    assert marked == Opened(initialCash).(marks := map["AAA" := 100.0]);
    AffordableIsPayable(marked, o, 100.0, cfg);
    LimitHonouredIff(marked, o, 100.0, cfg);
  }
}
