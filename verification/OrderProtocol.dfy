/** The approval path as functions on a value: an order is proposed, then approved, and only approval reaches the
    broker. The repository is a map of orders plus an append-only audit log. */
module OrderProtocol {
  import opened Numbers
  import opened Costs
  import opened BrokerModel
  import opened BrokerRuns
  import opened BrokerFills

  datatype AuditAction = OrderProposed | OrderOutcome(status: OrderStatus) | SystemHalt | SystemResume

  datatype AuditEvent = AuditEvent(action: AuditAction, resourceId: Option<string>)

  datatype Desk = Desk(
    orders: map<string, Order>,
    log: seq<AuditEvent>,
    broker: Broker,
    sent: seq<string>)            // history: the ids handed to the broker, in order

  datatype Response = Created(order: Order) | Unprocessable | NotFound | Conflict | Ok(order: Order) | Acknowledged

  datatype Event =
    | Propose(id: string, symbol: string, side: Side, quantity: int, orderType: OrderType, limitPrice: Option<real>)
    | Approve(id: string, ticket: string)
    | Halt
    | Resume
    | Marks(prices: map<string, real>)

  function Fresh(initialCash: real): Desk {
    Desk(map[], [], Opened(initialCash), [])
  }

  function Drafted(e: Event): Order
    requires e.Propose?
  {
    Order(e.id, e.symbol, e.side, e.quantity, e.orderType, e.limitPrice, Pending, None, NoReason)
  }

  function ProposeOrder(d: Desk, e: Event): (Desk, Response)
    requires e.Propose?
  {
    if e.quantity <= 0 then
      (d, Unprocessable)
    else
      (d.(orders := d.orders[e.id := Drafted(e)], log := d.log + [AuditEvent(OrderProposed, Some(e.id))]),
       Created(Drafted(e)))
  }

  function ApproveOrder(d: Desk, id: string, ticket: string, cfg: Config): (Desk, Response) {
    if id !in d.orders then
      (d, NotFound)
    else if !d.orders[id].status.Pending? then
      (d, Conflict)
    else
      var (b, o) := PlaceOrder(d.broker, d.orders[id], ticket, cfg);
      (Desk(d.orders[o.id := o], d.log + [AuditEvent(OrderOutcome(o.status), Some(id))], b, d.sent + [id]), Ok(o))
  }

  function Step(d: Desk, e: Event, cfg: Config): (Desk, Response) {
    match e
    case Propose(_, _, _, _, _, _) => ProposeOrder(d, e)
    case Approve(id, ticket) => ApproveOrder(d, id, ticket, cfg)
    case Halt =>
      (d.(broker := d.broker.(halted := true), log := d.log + [AuditEvent(SystemHalt, None)]), Acknowledged)
    case Resume =>
      (d.(broker := d.broker.(halted := false), log := d.log + [AuditEvent(SystemResume, None)]), Acknowledged)
    case Marks(prices) => (d.(broker := UpdateMarks(d.broker, prices, cfg)), Acknowledged)
  }

  function After(d: Desk, events: seq<Event>, cfg: Config): Desk
    decreases |events|
  {
    if events == [] then d else Step(After(d, events[..|events| - 1], cfg), events[|events| - 1], cfg).0
  }

  /** Every proposal draws a new id. */
  ghost predicate DistinctIds(events: seq<Event>) {
    forall i, j :: 0 <= i < j < |events| && events[i].Propose? && events[j].Propose? ==> events[i].id != events[j].id
  }

  // --- counting ---

  function Sent(sent: seq<string>, id: string): nat
    decreases |sent|
  {
    if sent == [] then 0 else Sent(sent[..|sent| - 1], id) + if sent[|sent| - 1] == id then 1 else 0
  }

  function Proposals(log: seq<AuditEvent>, id: string): nat
    decreases |log|
  {
    if log == [] then 0
    else Proposals(log[..|log| - 1], id) + if log[|log| - 1] == AuditEvent(OrderProposed, Some(id)) then 1 else 0
  }

  function Outcomes(log: seq<AuditEvent>, id: string): nat
    decreases |log|
  {
    if log == [] then 0
    else Outcomes(log[..|log| - 1], id)
         + if log[|log| - 1].action.OrderOutcome? && log[|log| - 1].resourceId == Some(id) then 1 else 0
  }

  lemma SentAppend(sent: seq<string>, x: string, id: string)
    ensures Sent(sent + [x], id) == Sent(sent, id) + if x == id then 1 else 0
  {
    assert (sent + [x])[..|sent|] == sent;
  }

  lemma LogAppend(log: seq<AuditEvent>, e: AuditEvent, id: string)
    ensures Proposals(log + [e], id) == Proposals(log, id) + if e == AuditEvent(OrderProposed, Some(id)) then 1 else 0
    ensures Outcomes(log + [e], id)
         == Outcomes(log, id) + if e.action.OrderOutcome? && e.resourceId == Some(id) then 1 else 0
  {
    assert (log + [e])[..|log|] == log;
  }

  // --- what the broker does with the ids it holds ---

  /** Only limit orders ever rest. */
  ghost predicate OnlyLimitsRest(b: Broker) {
    forall id :: id in b.orders && b.orders[id].status.Pending? ==> b.orders[id].orderType.LimitOrder?
  }

  /** Would handing this order to the broker execute it now? */
  predicate ExecutesNow(b: Broker, o: Order, cfg: Config) {
    && !b.halted && o.symbol in b.marks && b.marks[o.symbol] > 0.0
    && (o.orderType.LimitOrder? ==> Reached(o, b.marks[o.symbol]))
    && Payable(o, b.marks[o.symbol], b.cash, cfg)
  }

  lemma PlaceShape(b: Broker, order: Order, ticket: string, cfg: Config)
    ensures
      var (b', o) := PlaceOrder(b, order, ticket, cfg);
      && o.id == order.id && o.orderType == order.orderType
      && b'.orders == b.orders[order.id := o]
      && o.status in {Pending, Filled, Rejected}
      && (o.status.Pending? ==> order.orderType.LimitOrder?)
  {
  }

  lemma PlaceExecutesIff(b: Broker, order: Order, ticket: string, cfg: Config)
    ensures PlaceOrder(b, order, ticket, cfg).1.status.Filled? <==> ExecutesNow(b, order, cfg)
  {
    var o := order.(brokerOrderId := Some(ticket));
    var (b', o') := PlaceOrder(b, order, ticket, cfg);
    PlaceOutcome(b, order, ticket, cfg);
    if ExecutesNow(b, order, cfg) || o'.status.Filled? {
      TriedFillsIff(b, o, b.marks[o.symbol], b', o', cfg);
    }
  }

  lemma PlaceCounts(b: Broker, order: Order, ticket: string, cfg: Config, id: string)
    ensures
      var (b', o) := PlaceOrder(b, order, ticket, cfg);
      Executions(b'.fills, id) == Executions(b.fills, id) + if id == order.id && o.status.Filled? then 1 else 0
  {
    var o := order.(brokerOrderId := Some(ticket));
    if o.symbol in b.marks {
      ExecuteCounts(b, o, QuoteFor(o, b.marks[o.symbol], cfg), id);
    }
  }

  // --- the protocol invariant, for one id ---

  /** The repository and the broker agree on what kind of order an id is; the log matches what happened to it; and a
      market order goes to the broker once, when it stops being pending. */
  ghost predicate Tracked(d: Desk, id: string) {
    && (id in d.broker.orders ==> id in d.orders && d.broker.orders[id].orderType == d.orders[id].orderType)
    && (id in d.orders ==> d.orders[id].id == id && d.orders[id].status in {Pending, Filled, Rejected})
    && Proposals(d.log, id) == (if id in d.orders then 1 else 0)
    && Outcomes(d.log, id) == Sent(d.sent, id)
    && (id !in d.orders ==> Sent(d.sent, id) == 0 && Executions(d.broker.fills, id) == 0)
    && (id in d.orders && d.orders[id].orderType.MarketOrder? ==>
          && Sent(d.sent, id) == (if d.orders[id].status.Pending? then 0 else 1)
          && Executions(d.broker.fills, id) == (if d.orders[id].status.Filled? then 1 else 0))
  }

  ghost predicate Sound(d: Desk) {
    && WellKept(d.broker)
    && OnlyLimitsRest(d.broker)
    && forall id :: Tracked(d, id)
  }

  lemma ProposeTracked(d: Desk, e: Event, id: string)
    requires Sound(d) && e.Propose? && e.id !in d.orders
    ensures Tracked(ProposeOrder(d, e).0, id)
  {
    assert Tracked(d, id) && Tracked(d, e.id);
    LogAppend(d.log, AuditEvent(OrderProposed, Some(e.id)), id);
  }

  lemma ApproveTracked(d: Desk, approved: string, ticket: string, cfg: Config, id: string)
    requires Sound(d)
    ensures Tracked(ApproveOrder(d, approved, ticket, cfg).0, id)
  {
    assert Tracked(d, id) && Tracked(d, approved);
    if approved in d.orders && d.orders[approved].status.Pending? {
      var (b, o) := PlaceOrder(d.broker, d.orders[approved], ticket, cfg);
      PlaceShape(d.broker, d.orders[approved], ticket, cfg);
      PlaceCounts(d.broker, d.orders[approved], ticket, cfg, id);
      SentAppend(d.sent, approved, id);
      LogAppend(d.log, AuditEvent(OrderOutcome(o.status), Some(approved)), id);
    }
  }

  lemma MarksTracked(d: Desk, prices: map<string, real>, cfg: Config, id: string)
    requires Sound(d)
    ensures Tracked(d.(broker := UpdateMarks(d.broker, prices, cfg)), id)
  {
    assert Tracked(d, id);
    ProcessPasses(d.broker.(marks := d.broker.marks + prices), d.broker.arrival, id, cfg);
  }

  lemma BrokerSideSound(d: Desk, e: Event, cfg: Config)
    requires Sound(d)
    ensures WellKept(Step(d, e, cfg).0.broker) && OnlyLimitsRest(Step(d, e, cfg).0.broker)
  {
    match e
    case Approve(id, ticket) =>
      if id in d.orders {
        PlaceWellKept(d.broker, d.orders[id], ticket, cfg);
        PlaceShape(d.broker, d.orders[id], ticket, cfg);
      }
    case Marks(prices) =>
      var b := d.broker.(marks := d.broker.marks + prices);
      ProcessWellKept(b, b.arrival, cfg);
      forall id | id in ProcessPending(b, cfg).orders
        ensures PassesOver(b, ProcessPending(b, cfg), id)
      {
        ProcessPasses(b, b.arrival, id, cfg);
      }
    case _ =>
  }

  lemma StepSound(d: Desk, e: Event, cfg: Config)
    requires Sound(d) && (e.Propose? ==> e.id !in d.orders)
    ensures Sound(Step(d, e, cfg).0)
  {
    BrokerSideSound(d, e, cfg);
    forall id
      ensures Tracked(Step(d, e, cfg).0, id)
    {
      match e
      case Propose(_, _, _, _, _, _) => ProposeTracked(d, e, id);
      case Approve(approved, ticket) => ApproveTracked(d, approved, ticket, cfg, id);
      case Halt =>
        assert Tracked(d, id);
        LogAppend(d.log, AuditEvent(SystemHalt, None), id);
      case Resume =>
        assert Tracked(d, id);
        LogAppend(d.log, AuditEvent(SystemResume, None), id);
      case Marks(prices) => MarksTracked(d, prices, cfg, id);
    }
  }

  /** An id that no event proposes never enters the repository. */
  lemma {:induction false} UnproposedIdAbsent(d: Desk, events: seq<Event>, cfg: Config, id: string)
    requires Keyed(d) && id !in d.orders
    requires forall i :: 0 <= i < |events| && events[i].Propose? ==> events[i].id != id
    ensures Keyed(After(d, events, cfg)) && id !in After(d, events, cfg).orders
    decreases |events|
  {
    if events != [] {
      var before, e := events[..|events| - 1], events[|events| - 1];
      UnproposedIdAbsent(d, before, cfg, id);
      var d' := After(d, before, cfg);
      if e.Approve? && e.id in d'.orders {
        PlaceShape(d'.broker, d'.orders[e.id], e.ticket, cfg);
      }
    }
  }

  ghost predicate Keyed(d: Desk) {
    forall id :: id in d.orders ==> d.orders[id].id == id
  }

  lemma {:induction false} AfterSound(initialCash: real, events: seq<Event>, cfg: Config)
    requires DistinctIds(events)
    ensures Sound(After(Fresh(initialCash), events, cfg))
    decreases |events|
  {
    if events != [] {
      var before, e := events[..|events| - 1], events[|events| - 1];
      var d := After(Fresh(initialCash), before, cfg);
      AfterSound(initialCash, before, cfg);
      if e.Propose? {
        UnproposedIdAbsent(Fresh(initialCash), before, cfg, e.id);
      }
      StepSound(d, e, cfg);
    }
  }

  /** Over any interleaving, a market order reaches the broker at most once, exactly when it is no longer pending; the
      repository says FILLED exactly when the broker filled that id, and then it did so once. */
  lemma MarketOrderAtMostOnce(initialCash: real, events: seq<Event>, cfg: Config, id: string)
    requires DistinctIds(events)
    requires
      var d := After(Fresh(initialCash), events, cfg);
      id in d.orders && d.orders[id].orderType.MarketOrder?
    ensures
      var d := After(Fresh(initialCash), events, cfg);
      && Sent(d.sent, id) <= 1
      && (Sent(d.sent, id) == 0 <==> d.orders[id].status.Pending?)
      && (d.orders[id].status.Filled? <==> Executions(d.broker.fills, id) == 1)
      && Executions(d.broker.fills, id) <= 1
  {
    AfterSound(initialCash, events, cfg);
    assert Tracked(After(Fresh(initialCash), events, cfg), id);
  }

  /** The audit log, over any interleaving and for every id, market or limit: one proposal per order in the
      repository, none for other ids, and one outcome per hand-over to the broker. */
  lemma AuditLogComplete(initialCash: real, events: seq<Event>, cfg: Config, id: string)
    requires DistinctIds(events)
    ensures
      var d := After(Fresh(initialCash), events, cfg);
      && Proposals(d.log, id) == (if id in d.orders then 1 else 0)
      && Outcomes(d.log, id) == Sent(d.sent, id)
  {
    AfterSound(initialCash, events, cfg);
    assert Tracked(After(Fresh(initialCash), events, cfg), id);
  }

  lemma StepAppends(d: Desk, e: Event, cfg: Config)
    ensures d.log <= Step(d, e, cfg).0.log
  {
  }

  /** The log only grows at its end. */
  lemma {:induction false} AuditLogAppendOnly(d: Desk, events: seq<Event>, cfg: Config, n: nat)
    requires n <= |events|
    ensures After(d, events[..n], cfg).log <= After(d, events, cfg).log
    decreases |events|
  {
    if n < |events| {
      var before := events[..|events| - 1];
      assert before[..n] == events[..n];
      AuditLogAppendOnly(d, before, cfg, n);
      StepAppends(After(d, before, cfg), events[|events| - 1], cfg);
    } else {
      assert events[..n] == events;
    }
  }
}
