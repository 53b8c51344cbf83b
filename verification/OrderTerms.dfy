/** The order that is stored, handed over and executed is the order that was proposed. */
module OrderTerms {
  import opened Numbers
  import opened Costs
  import opened BrokerModel
  import opened BrokerFills
  import opened OrderProtocol

  // --- one call ---

  /** A proposal is accepted exactly if its quantity is positive; then the repository holds a pending order with its
      terms and the log one more event, and nothing else has changed. */
  lemma ProposalStored(d: Desk, e: Event)
    requires e.Propose?
    ensures
      var (d', r) := ProposeOrder(d, e);
      if e.quantity <= 0 then
        d' == d && r == Unprocessable
      else
        && r == Created(d'.orders[e.id])
        && var o := d'.orders[e.id];
        && o.id == e.id && o.symbol == e.symbol && o.side == e.side && o.quantity == e.quantity
        && o.orderType == e.orderType && o.limitPrice == e.limitPrice
        && o.status == Pending && o.brokerOrderId == None && o.reason == NoReason
        && (forall id :: id != e.id ==> (id in d'.orders <==> id in d.orders))
        && (forall id :: id != e.id && id in d.orders ==> d'.orders[id] == d.orders[id])
        && d'.log == d.log + [AuditEvent(OrderProposed, Some(e.id))]
        && d'.broker == d.broker && d'.sent == d.sent
  {
  }

  /** An approval is refused for unknown orders and for orders that are not pending, with nothing changed. Otherwise the
      broker is handed the stored order, the repository keeps what the broker answers, and the log names the answer. */
  lemma ApprovalHandsOver(d: Desk, id: string, ticket: string, cfg: Config)
    requires Sound(d)
    ensures
      var (d', r) := ApproveOrder(d, id, ticket, cfg);
      if id !in d.orders then
        d' == d && r == NotFound
      else if d.orders[id].status != Pending then
        d' == d && r == Conflict
      else
        && r.Ok? && d'.orders == d.orders[id := r.order] && d'.broker.orders == d.broker.orders[id := r.order]
        && Placed(d.broker, d.orders[id].(brokerOrderId := Some(ticket)), d'.broker, r.order, cfg)
        && d'.log == d.log + [AuditEvent(OrderOutcome(r.order.status), Some(id))] && d'.sent == d.sent + [id]
  {
    assert Tracked(d, id);
    if id in d.orders {
      PlaceOutcome(d.broker, d.orders[id], ticket, cfg);
    }
  }

  /** Halting and resuming flip the kill switch and log it, once each, and touch nothing else; marks are not logged. */
  lemma ControlsOutcome(d: Desk, prices: map<string, real>, cfg: Config)
    ensures
      var (halted, resumed, marked) := (Step(d, Halt, cfg).0, Step(d, Resume, cfg).0, Step(d, Marks(prices), cfg).0);
      && halted.broker.halted && halted.broker.(halted := d.broker.halted) == d.broker
      && halted.log == d.log + [AuditEvent(SystemHalt, None)]
      && !resumed.broker.halted && resumed.broker.(halted := d.broker.halted) == d.broker
      && resumed.log == d.log + [AuditEvent(SystemResume, None)]
      && marked.log == d.log
      && halted.orders == resumed.orders == marked.orders == d.orders
      && halted.sent == resumed.sent == marked.sent == d.sent
  {
  }

  // --- whole runs ---

  /** Some event proposes the order with exactly these terms. */
  ghost predicate ProposedAs(
    events: seq<Event>, id: string, symbol: string, side: Side, quantity: int, orderType: OrderType,
    limitPrice: Option<real>)
  {
    exists n ::
      && 0 <= n < |events| && events[n].Propose? && events[n].id == id
      && events[n].symbol == symbol && events[n].side == side && events[n].quantity == quantity
      && events[n].orderType == orderType && events[n].limitPrice == limitPrice
  }

  ghost predicate OnItsTerms(events: seq<Event>, o: Order) {
    o.quantity > 0 && ProposedAs(events, o.id, o.symbol, o.side, o.quantity, o.orderType, o.limitPrice)
  }

  /** A buy adds the proposed quantity to the position, a sell takes it away. */
  ghost predicate FillOnTerms(events: seq<Event>, f: Fill) {
    exists n ::
      && 0 <= n < |events| && events[n].Propose? && events[n].id == f.orderId && events[n].symbol == f.symbol
      && events[n].quantity > 0
      && f.quantity == (if events[n].side == Buy then events[n].quantity else -events[n].quantity)
  }

  ghost predicate BrokerOnTerms(events: seq<Event>, b: Broker) {
    && (forall id :: id in b.orders ==> OnItsTerms(events, b.orders[id]))
    && (forall k :: 0 <= k < |b.fills| ==> FillOnTerms(events, b.fills[k]))
  }

  ghost predicate AllOnTerms(events: seq<Event>, d: Desk) {
    && (forall id :: id in d.orders ==> OnItsTerms(events, d.orders[id]))
    && BrokerOnTerms(events, d.broker)
  }

  lemma SameTerms(events: seq<Event>, o: Order, o': Order)
    requires OnItsTerms(events, o)
    requires o' == o.(status := o'.status, reason := o'.reason, brokerOrderId := o'.brokerOrderId)
    ensures OnItsTerms(events, o')
  {
  }

  lemma OrderMoreEvents(events: seq<Event>, e: Event, o: Order)
    requires OnItsTerms(events, o)
    ensures OnItsTerms(events + [e], o)
  {
    var n :| 0 <= n < |events| && events[n].Propose? && events[n].id == o.id
      && events[n].symbol == o.symbol && events[n].side == o.side && events[n].quantity == o.quantity
      && events[n].orderType == o.orderType && events[n].limitPrice == o.limitPrice;
    assert (events + [e])[n] == events[n];
  }

  lemma FillMoreEvents(events: seq<Event>, e: Event, f: Fill)
    requires FillOnTerms(events, f)
    ensures FillOnTerms(events + [e], f)
  {
    var n :| 0 <= n < |events| && events[n].Propose? && events[n].id == f.orderId && events[n].symbol == f.symbol
      && events[n].quantity > 0
      && f.quantity == (if events[n].side == Buy then events[n].quantity else -events[n].quantity);
    assert (events + [e])[n] == events[n];
  }

  lemma MoreEvents(events: seq<Event>, e: Event, d: Desk)
    requires AllOnTerms(events, d)
    ensures AllOnTerms(events + [e], d)
  {
    forall id | id in d.orders
      ensures OnItsTerms(events + [e], d.orders[id])
    {
      OrderMoreEvents(events, e, d.orders[id]);
    }
    forall id | id in d.broker.orders
      ensures OnItsTerms(events + [e], d.broker.orders[id])
    {
      OrderMoreEvents(events, e, d.broker.orders[id]);
    }
    forall k | 0 <= k < |d.broker.fills|
      ensures FillOnTerms(events + [e], d.broker.fills[k])
    {
      FillMoreEvents(events, e, d.broker.fills[k]);
    }
  }

  lemma FillOfOrder(events: seq<Event>, o: Order, price: real, cost: real)
    requires OnItsTerms(events, o)
    ensures FillOnTerms(events, Fill(o.id, o.symbol, SignedQuantity(o), price, cost))
  {
    var n :| 0 <= n < |events| && events[n].Propose? && events[n].id == o.id
      && events[n].symbol == o.symbol && events[n].side == o.side && events[n].quantity == o.quantity
      && events[n].orderType == o.orderType && events[n].limitPrice == o.limitPrice;
  }

  lemma ExecuteOnTerms(events: seq<Event>, b: Broker, o: Order, q: Quote)
    requires BrokerOnTerms(events, b) && OnItsTerms(events, o)
    ensures BrokerOnTerms(events, Execute(b, o, q).0) && OnItsTerms(events, Execute(b, o, q).1)
  {
    var (b', o') := Execute(b, o, q);
    SameTerms(events, o, o');
    FillOfOrder(events, o, q.price, q.cost);
  }

  lemma PlaceOnTerms(events: seq<Event>, b: Broker, order: Order, ticket: string, cfg: Config)
    requires BrokerOnTerms(events, b) && OnItsTerms(events, order)
    ensures
      var (b', o') := PlaceOrder(b, order, ticket, cfg);
      BrokerOnTerms(events, b') && OnItsTerms(events, o')
  {
    var o := order.(brokerOrderId := Some(ticket));
    SameTerms(events, order, o);
    if o.symbol in b.marks {
      ExecuteOnTerms(events, b, o, QuoteFor(o, b.marks[o.symbol], cfg));
    }
    SameTerms(events, order, PlaceOrder(b, order, ticket, cfg).1);
  }

  lemma {:induction false} ProcessOnTerms(events: seq<Event>, b: Broker, ids: seq<string>, cfg: Config)
    requires BrokerOnTerms(events, b)
    ensures BrokerOnTerms(events, ProcessFrom(b, ids, cfg))
    decreases |ids|
  {
    if ids != [] {
      if Live(b, ids[0]) {
        var o := b.orders[ids[0]];
        ExecuteOnTerms(events, b, o, QuoteFor(o, b.marks[o.symbol], cfg));
      }
      ProcessOnTerms(events, Touch(b, ids[0], cfg), ids[1..], cfg);
    }
  }

  lemma ProposeOnTerms(events: seq<Event>, d: Desk, e: Event)
    requires AllOnTerms(events + [e], d) && e.Propose?
    ensures AllOnTerms(events + [e], ProposeOrder(d, e).0)
  {
    var d' := ProposeOrder(d, e).0;
    assert (events + [e])[|events|] == e;
    forall id | id in d'.orders
      ensures OnItsTerms(events + [e], d'.orders[id])
    {
    }
  }

  lemma StepOnTerms(events: seq<Event>, d: Desk, e: Event, cfg: Config)
    requires AllOnTerms(events, d)
    ensures AllOnTerms(events + [e], Step(d, e, cfg).0)
  {
    var more := events + [e];
    MoreEvents(events, e, d);
    match e
    case Propose(_, _, _, _, _, _) => ProposeOnTerms(events, d, e);
    case Approve(id, ticket) =>
      if id in d.orders {
        PlaceOnTerms(more, d.broker, d.orders[id], ticket, cfg);
      }
    case Marks(prices) =>
      ProcessOnTerms(more, d.broker.(marks := d.broker.marks + prices), d.broker.arrival, cfg);
    case _ =>
  }

  /** Over any interleaving, with or without distinct ids, every order that the repository or the broker holds carries
      the terms of a proposal of its id, and every execution has the symbol and the signed quantity of such a
      proposal. */
  lemma {:induction false} ExecutedAsProposed(initialCash: real, events: seq<Event>, cfg: Config)
    ensures AllOnTerms(events, After(Fresh(initialCash), events, cfg))
    decreases |events|
  {
    if events != [] {
      var before, e := events[..|events| - 1], events[|events| - 1];
      ExecutedAsProposed(initialCash, before, cfg);
      StepOnTerms(before, After(Fresh(initialCash), before, cfg), e, cfg);
      assert events == before + [e];
    }
  }
}
