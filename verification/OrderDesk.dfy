/** The approval path as it runs: the endpoints update the order store, the broker and the audit log in sequence. Each
    is proved equal to its function in OrderProtocol. */
module OrderDesk {
  import opened Numbers
  import opened Costs
  import opened BrokerModel
  import opened OrderProtocol
  import PaperBroker

  class OrderDesk {
    const broker: PaperBroker.PaperBroker
    var orders: map<string, Order>
    var log: seq<AuditEvent>
    ghost var sent: seq<string>

    ghost function State(): Desk
      reads this, broker
    {
      Desk(orders, log, broker.State(), sent)
    }

    constructor (broker: PaperBroker.PaperBroker)
      ensures this.broker == broker
      ensures State() == Desk(map[], [], broker.State(), [])
    {
      this.broker := broker;
      orders, log, sent := map[], [], [];
    }

    /** The id is drawn by the caller; a fresh one for every proposal. */
    method Propose(
      id: string, symbol: string, side: Side, quantity: int, orderType: OrderType, limitPrice: Option<real>)
      returns (r: Response)
      modifies this
      ensures (State(), r)
           == ProposeOrder(old(State()), Event.Propose(id, symbol, side, quantity, orderType, limitPrice))
    {
      if quantity <= 0 {
        return Unprocessable;
      }
      var order := Order(id, symbol, side, quantity, orderType, limitPrice, Pending, None, NoReason);
      SaveOrder(order);
      Audit(OrderProposed, Some(id));
      return Created(order);
    }

    method Approve(id: string, ticket: string) returns (r: Response)
      modifies this, broker
      ensures (State(), r) == ApproveOrder(old(State()), id, ticket, broker.cfg)
    {
      if id !in orders {
        return NotFound;
      }
      if !orders[id].status.Pending? {
        return Conflict;
      }
      var result := broker.PlaceOrder(orders[id], ticket);
      sent := sent + [id];
      SaveOrder(result);
      Audit(OrderOutcome(result.status), Some(id));
      return Ok(result);
    }

    method HaltTrading()
      modifies this, broker
      ensures State() == Step(old(State()), Halt, broker.cfg).0
    {
      broker.Halt();
      Audit(SystemHalt, None);
    }

    method ResumeTrading()
      modifies this, broker
      ensures State() == Step(old(State()), Resume, broker.cfg).0
    {
      broker.Resume();
      Audit(SystemResume, None);
    }

    method SaveOrder(o: Order)
      modifies this`orders
      ensures orders == old(orders)[o.id := o]
    {
      orders := orders[o.id := o];
    }

    method Audit(action: AuditAction, resourceId: Option<string>)
      modifies this`log
      ensures log == old(log) + [AuditEvent(action, resourceId)]
    {
      log := log + [AuditEvent(action, resourceId)];
    }
  }
}
