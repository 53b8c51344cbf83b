/** What each operation of the simulated broker does to its state, as functions on a value: cash, signed positions
    carrying an average price, orders in arrival order, marks and a kill switch. */
module BrokerModel {
  import opened Numbers
  import opened Costs
  import opened Impact

  datatype OrderType = MarketOrder | LimitOrder

  datatype OrderStatus = Pending | Approved | Submitted | Filled | Rejected | Cancelled

  datatype Reason =
    NoReason | TradingHalted | NoMarketPrice | InsufficientBuyingPower | FilledAt(price: real, cost: real)

  datatype Order = Order(
    id: string,
    symbol: string,
    side: Side,
    quantity: int,
    orderType: OrderType,
    limitPrice: Option<real>,
    status: OrderStatus,
    brokerOrderId: Option<string>,
    reason: Reason)

  datatype Position = Position(shares: int, avg: real)

  /** One execution. The program keeps no list of fills: this is history, used only to say what the
      books must add up to. */
  datatype Fill = Fill(orderId: string, symbol: string, quantity: int, price: real, cost: real)

  datatype Config = Config(cost: CostConfig, impact: ImpactConfig) {
    /** Fees are not rebates, slippage is at most the whole price, and selling costs at most its proceeds. */
    predicate Sane() {
      cost.Valid() && impact.Valid() && impact.FlatFraction() <= 1.0 && Rate(Sell, cost, Delivery) <= 1.0
    }
  }

  datatype Broker = Broker(
    cash: real,
    positions: map<string, Position>,
    orders: map<string, Order>,
    arrival: seq<string>,         // the keys of orders, in the order they were first stored
    marks: map<string, real>,
    halted: bool,
    fills: seq<Fill>)

  function Opened(initialCash: real): Broker {
    Broker(initialCash, map[], map[], [], map[], false, [])
  }

  // --- pricing ---

  datatype Quote = Quote(price: real, cost: real)

  /** The broker passes zero volume and zero volatility to the impact model, which leaves the flat fraction. */
  function SlippedPrice(side: Side, mark: real, cfg: Config): real {
    match side
    case Buy => mark * (1.0 + cfg.impact.FlatFraction())
    case Sell => mark * (1.0 - cfg.impact.FlatFraction())
  }

  function QuoteFor(o: Order, mark: real, cfg: Config): Quote {
    var price := SlippedPrice(o.side, mark, cfg);
    Quote(price, ComputeCosts(o.side, price, o.quantity as real, cfg.cost, Delivery).total)
  }

  predicate Marketable(o: Order, mark: real) {
    || o.limitPrice.None?
    || (o.side.Buy? && o.limitPrice.value >= mark)
    || (o.side.Sell? && o.limitPrice.value <= mark)
  }

  // --- positions ---

  function Held(positions: map<string, Position>, symbol: string): Position {
    if symbol in positions then positions[symbol] else Position(0, 0.0)
  }

  /** Opening or adding averages the prices, reducing keeps the average, flipping starts again at the new price. */
  function Blend(p: Position, quantity: int, price: real): Position {
    var shares := p.shares + quantity;
    var avg :=
      if p.shares == 0 || (p.shares > 0) == (quantity > 0) then
        if shares != 0 then
          (p.avg * AbsInt(p.shares) as real + price * AbsInt(quantity) as real) / AbsInt(shares) as real
        else
          0.0
      else if AbsInt(quantity) > AbsInt(p.shares) then price
      else p.avg;
    Position(shares, avg)
  }

  function ApplyPosition(
    positions: map<string, Position>, symbol: string, quantity: int, price: real): map<string, Position>
  {
    var p := Blend(Held(positions, symbol), quantity, price);
    if p.shares == 0 then positions - {symbol} else positions[symbol := p]
  }

  // --- orders ---

  function Store(b: Broker, o: Order): Broker {
    b.(orders := b.orders[o.id := o], arrival := if o.id in b.orders then b.arrival else b.arrival + [o.id])
  }

  function Reject(b: Broker, o: Order, reason: Reason): (Broker, Order) {
    var o' := o.(status := Rejected, reason := reason);
    (Store(b, o'), o')
  }

  function SignedQuantity(o: Order): int {
    if o.side.Buy? then o.quantity else -o.quantity
  }

  /** Only a buy can fail for lack of cash. */
  predicate Affordable(b: Broker, o: Order, q: Quote) {
    o.side.Buy? ==> q.price * o.quantity as real + q.cost <= b.cash
  }

  function CashAfter(cash: real, o: Order, q: Quote): real {
    var notional := q.price * o.quantity as real;
    if o.side.Buy? then cash - (notional + q.cost) else cash + (notional - q.cost)
  }

  function Execute(b: Broker, o: Order, q: Quote): (Broker, Order) {
    if !Affordable(b, o, q) then
      Reject(b, o, InsufficientBuyingPower)
    else
      var o' := o.(status := Filled, reason := FilledAt(q.price, q.cost));
      var b' := b.(
        cash := CashAfter(b.cash, o, q),
        positions := ApplyPosition(b.positions, o.symbol, SignedQuantity(o), q.price),
        fills := b.fills + [Fill(o.id, o.symbol, SignedQuantity(o), q.price, q.cost)]);
      (Store(b', o'), o')
  }

  /** A resting order that the current mark would execute. A mark of zero counts as no mark. */
  predicate Live(b: Broker, id: string) {
    && id in b.orders
    && b.orders[id].status.Pending?
    && Triggered(b, b.orders[id])
  }

  predicate Triggered(b: Broker, o: Order) {
    && o.symbol in b.marks
    && b.marks[o.symbol] != 0.0
    && Marketable(o, b.marks[o.symbol])
  }

  function Touch(b: Broker, id: string, cfg: Config): Broker {
    if Live(b, id) then
      var o := b.orders[id];
      Execute(b, o, QuoteFor(o, b.marks[o.symbol], cfg)).0
    else
      b
  }

  /** One pass over a snapshot of the stored orders, oldest first. */
  function ProcessFrom(b: Broker, ids: seq<string>, cfg: Config): Broker
    decreases |ids|
  {
    if ids == [] then b else ProcessFrom(Touch(b, ids[0], cfg), ids[1..], cfg)
  }

  function ProcessPending(b: Broker, cfg: Config): Broker {
    ProcessFrom(b, b.arrival, cfg)
  }

  // --- public operations ---

  datatype Outcome = Done(order: Order) | UnknownOrder | NotPending

  function SetMark(b: Broker, symbol: string, price: real, cfg: Config): Broker {
    ProcessPending(b.(marks := b.marks[symbol := price]), cfg)
  }

  function UpdateMarks(b: Broker, prices: map<string, real>, cfg: Config): Broker {
    ProcessPending(b.(marks := b.marks + prices), cfg)
  }

  function PlaceOrder(b: Broker, order: Order, ticket: string, cfg: Config): (Broker, Order) {
    var o := order.(brokerOrderId := Some(ticket));
    if b.halted then
      Reject(b, o, TradingHalted)
    else if o.symbol !in b.marks || b.marks[o.symbol] <= 0.0 then
      Reject(b, o, NoMarketPrice)
    else if o.orderType.LimitOrder? && !Marketable(o, b.marks[o.symbol]) then
      var o' := o.(status := Pending);
      (Store(b, o'), o')
    else
      Execute(b, o, QuoteFor(o, b.marks[o.symbol], cfg))
  }

  /** What a modification makes of the order before the broker looks at it again. */
  function Amended(o: Order, quantity: Option<int>, limitPrice: Option<Option<real>>): Order {
    o.(quantity := quantity.GetOr(o.quantity), limitPrice := limitPrice.GetOr(o.limitPrice))
  }

  function ModifyOrder(
    b: Broker, id: string, quantity: Option<int>, limitPrice: Option<Option<real>>, cfg: Config): (Broker, Outcome)
  {
    if id !in b.orders then
      (b, UnknownOrder)
    else if !b.orders[id].status.Pending? then
      (b, NotPending)
    else
      var o := Amended(b.orders[id], quantity, limitPrice);
      if Triggered(b, o) then
        var (b', o') := Execute(b, o, QuoteFor(o, b.marks[o.symbol], cfg));
        (b', Done(o'))
      else
        (Store(b, o), Done(o))
  }

  function CancelOrder(b: Broker, id: string): (Broker, Outcome) {
    if id !in b.orders then
      (b, UnknownOrder)
    else if b.orders[id].status.Pending? then
      var o := b.orders[id].(status := Cancelled);
      (Store(b, o), Done(o))
    else
      (b, Done(b.orders[id]))
  }

  // --- the broker itself ---

  /** Every order is stored under its own id, and arrival lists the stored ids once each. */
  ghost predicate WellKept(b: Broker) {
    && (forall id :: id in b.orders <==> id in b.arrival)
    && (forall id :: id in b.orders ==> b.orders[id].id == id)
    && (forall i, j :: 0 <= i < j < |b.arrival| ==> b.arrival[i] != b.arrival[j])
  }

  /** How get_positions may list the book: every position once, in some order. */
  datatype PositionReport = PositionReport(symbol: string, quantity: int, avgPrice: real, lastPrice: Option<real>)

  ghost predicate Lists(report: seq<PositionReport>, positions: map<string, Position>) {
    && (forall i :: 0 <= i < |report| ==>
          && report[i].symbol in positions
          && report[i].quantity == positions[report[i].symbol].shares
          && report[i].avgPrice == positions[report[i].symbol].avg)
    && (forall i, j :: 0 <= i < j < |report| ==> report[i].symbol != report[j].symbol)
    && (forall symbol :: symbol in positions ==> exists i :: 0 <= i < |report| && report[i].symbol == symbol)
  }
}
