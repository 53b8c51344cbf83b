/** The explicit cost stack charged on every order: brokerage, STT, exchange fee, GST, SEBI fee and
    stamp duty. There is a scalar form (used by the broker) and an array form (used by the engine). */
module Costs {
  import opened Numbers

  datatype Side = Buy | Sell

  datatype Segment = Delivery | Intraday

  const CRORE: real := 10000000.0

  datatype CostConfig = CostConfig(
    flatFeePerOrder: real,
    brokeragePct: real,
    sttDelivery: real,
    sttIntradaySell: real,
    exchangeChargesNse: real,
    gst: real,
    sebiChargesPerCr: real,
    stampDutyBuy: real)
  {
    /** Fees are never rebates. */
    predicate Valid() {
      && 0.0 <= flatFeePerOrder && 0.0 <= brokeragePct && 0.0 <= sttDelivery
      && 0.0 <= sttIntradaySell && 0.0 <= exchangeChargesNse && 0.0 <= gst
      && 0.0 <= sebiChargesPerCr && 0.0 <= stampDutyBuy
    }
  }

  datatype CostBreakdown = CostBreakdown(
    brokerage: real, stt: real, exchange: real, gst: real, sebi: real, stamp: real, total: real)

  function ComputeCosts(side: Side, price: real, quantity: real, cfg: CostConfig, segment: Segment): CostBreakdown {
    var turnover := price * Abs(quantity);
    var brokerage := if turnover != 0.0 then Min(cfg.flatFeePerOrder, cfg.brokeragePct * turnover) else 0.0;
    var exchange := cfg.exchangeChargesNse * turnover;
    var stt := match segment
      case Delivery => cfg.sttDelivery * turnover
      case Intraday => if side.Buy? then 0.0 else cfg.sttIntradaySell * turnover;
    var gst := cfg.gst * (brokerage + exchange);
    var sebi := cfg.sebiChargesPerCr / CRORE * turnover;
    var stamp := if side.Buy? then cfg.stampDutyBuy * turnover else 0.0;
    CostBreakdown(brokerage, stt, exchange, gst, sebi, stamp, brokerage + stt + exchange + gst + sebi + stamp)
  }

  /** One lane of the array form: the sign of the quantity is the side. */
  function TotalCost(price: real, quantity: real, cfg: CostConfig, segment: Segment): real {
    var turnover := price * Abs(quantity);
    var isBuy := quantity > 0.0;
    var brokerage := if turnover > 0.0 then Min(cfg.flatFeePerOrder, cfg.brokeragePct * turnover) else 0.0;
    var exchange := cfg.exchangeChargesNse * turnover;
    var stt := match segment
      case Delivery => cfg.sttDelivery * turnover
      case Intraday => if isBuy then 0.0 else cfg.sttIntradaySell * turnover;
    var gst := cfg.gst * (brokerage + exchange);
    var sebi := cfg.sebiChargesPerCr / CRORE * turnover;
    var stamp := if isBuy then cfg.stampDutyBuy * turnover else 0.0;
    brokerage + stt + exchange + gst + sebi + stamp
  }

  function TotalCostsVec(prices: seq<real>, quantities: seq<real>, cfg: CostConfig, segment: Segment): seq<real>
    requires |prices| == |quantities|
  {
    seq(|prices|, i requires 0 <= i < |prices| => TotalCost(prices[i], quantities[i], cfg, segment))
  }

  function SideOf(quantity: real): Side {
    if quantity > 0.0 then Buy else Sell
  }

  /** Everything that is proportional to turnover, that is, all but brokerage and the GST on it. */
  function LinearRate(side: Side, cfg: CostConfig, segment: Segment): real {
    (match segment
     case Delivery => cfg.sttDelivery
     case Intraday => if side.Buy? then 0.0 else cfg.sttIntradaySell)
    + (1.0 + cfg.gst) * cfg.exchangeChargesNse
    + cfg.sebiChargesPerCr / CRORE
    + (if side.Buy? then cfg.stampDutyBuy else 0.0)
  }

  /** What one rupee of turnover costs at most. */
  function Rate(side: Side, cfg: CostConfig, segment: Segment): real {
    LinearRate(side, cfg, segment) + (1.0 + cfg.gst) * cfg.brokeragePct
  }

  function Brokerage(turnover: real, cfg: CostConfig): real {
    if turnover != 0.0 then Min(cfg.flatFeePerOrder, cfg.brokeragePct * turnover) else 0.0
  }

  /** The cost of an order as a function of its side and turnover alone: a linear part and capped brokerage. */
  function Charge(side: Side, turnover: real, cfg: CostConfig, segment: Segment): real {
    LinearRate(side, cfg, segment) * turnover + (1.0 + cfg.gst) * Brokerage(turnover, cfg)
  }

  /** The scalar form computes Charge, at every price and quantity. */
  lemma ScalarIsCharge(side: Side, price: real, quantity: real, cfg: CostConfig, segment: Segment)
    ensures ComputeCosts(side, price, quantity, cfg, segment).total == Charge(side, price * Abs(quantity), cfg, segment)
  {
    var t := price * Abs(quantity);
    var b := Brokerage(t, cfg);
    var x := cfg.exchangeChargesNse;
    assert cfg.gst * (b + x * t) == cfg.gst * b + cfg.gst * x * t;
    assert (1.0 + cfg.gst) * x == x + cfg.gst * x;
    assert (1.0 + cfg.gst) * b == b + cfg.gst * b;
  }

  /** The components, seen from outside: what distinguishes the sides and the segments, and what is left of the cheapest
      combination. Only buys pay stamp duty; intraday only sells pay transaction tax; every order pays the exchange with
      GST, the regulator per crore, and brokerage with GST, at most the flat fee. */
  lemma SidesAndSegments(price: real, quantity: real, cfg: CostConfig)
    requires cfg.Valid()
    ensures
      var t := price * Abs(quantity);
      var buy, sell := ComputeCosts(Buy, price, quantity, cfg, Delivery).total,
                       ComputeCosts(Sell, price, quantity, cfg, Delivery).total;
      var dayBuy, daySell := ComputeCosts(Buy, price, quantity, cfg, Intraday).total,
                             ComputeCosts(Sell, price, quantity, cfg, Intraday).total;
      && buy - sell == t * cfg.stampDutyBuy
      && dayBuy - daySell == t * (cfg.stampDutyBuy - cfg.sttIntradaySell)
      && sell - daySell == t * (cfg.sttDelivery - cfg.sttIntradaySell)
      && daySell
         == t * (cfg.sttIntradaySell + cfg.exchangeChargesNse * (1.0 + cfg.gst) + cfg.sebiChargesPerCr / 10000000.0)
                    + (1.0 + cfg.gst) * Min(cfg.flatFeePerOrder, cfg.brokeragePct * t)
  {
    var t := price * Abs(quantity);
    var b := Min(cfg.flatFeePerOrder, cfg.brokeragePct * t);
    var x := cfg.exchangeChargesNse;
    assert cfg.gst * (b + x * t) == cfg.gst * b + cfg.gst * x * t;
    assert t * (cfg.sttIntradaySell + x * (1.0 + cfg.gst) + cfg.sebiChargesPerCr / 10000000.0)
        == cfg.sttIntradaySell * t + x * t + cfg.gst * x * t + cfg.sebiChargesPerCr / 10000000.0 * t;
    assert (1.0 + cfg.gst) * b == b + cfg.gst * b;
  }

  /** Every lane of the array form computes Charge too, on the side given by the sign of the quantity, except
      that it drops the brokerage of a lane whose turnover is negative: the scalar form tests "turnover is not
      zero", the array form "turnover is positive". */
  lemma VecIsCharge(prices: seq<real>, quantities: seq<real>, cfg: CostConfig, segment: Segment, i: nat)
    requires i < |prices| == |quantities|
    ensures
      var turnover, side := prices[i] * Abs(quantities[i]), SideOf(quantities[i]);
      TotalCostsVec(prices, quantities, cfg, segment)[i]
      == if turnover >= 0.0 then Charge(side, turnover, cfg, segment) else LinearRate(side, cfg, segment) * turnover
  {
    var t := prices[i] * Abs(quantities[i]);
    var b := if t > 0.0 then Brokerage(t, cfg) else 0.0;
    var x := cfg.exchangeChargesNse;
    assert cfg.gst * (b + x * t) == cfg.gst * b + cfg.gst * x * t;
    assert (1.0 + cfg.gst) * x == x + cfg.gst * x;
    assert (1.0 + cfg.gst) * b == b + cfg.gst * b;
  }

  /** So the two forms agree on a lane exactly when its turnover is not negative or the brokerage vanishes. */
  lemma FormsAgree(prices: seq<real>, quantities: seq<real>, cfg: CostConfig, segment: Segment, i: nat)
    requires i < |prices| == |quantities|
    requires cfg.Valid()
    ensures
      var p, q := prices[i], quantities[i];
      TotalCostsVec(prices, quantities, cfg, segment)[i] == ComputeCosts(SideOf(q), p, q, cfg, segment).total
      <==> p * Abs(q) >= 0.0 || Min(cfg.flatFeePerOrder, cfg.brokeragePct * (p * Abs(q))) == 0.0
  {
    var p, q := prices[i], quantities[i];
    VecIsCharge(prices, quantities, cfg, segment, i);
    ScalarIsCharge(SideOf(q), p, q, cfg, segment);
    DroppedBrokerage(SideOf(q), p * Abs(q), cfg, segment);
  }

  lemma DroppedBrokerage(side: Side, t: real, cfg: CostConfig, segment: Segment)
    requires cfg.Valid()
    ensures LinearRate(side, cfg, segment) * t == Charge(side, t, cfg, segment) <==> Brokerage(t, cfg) == 0.0
  {
    NonZeroProduct(1.0 + cfg.gst, Brokerage(t, cfg));
  }

  lemma NonZeroProduct(g: real, b: real)
    requires g > 0.0
    ensures g * b == 0.0 <==> b == 0.0
  {
  }

  lemma BrokerageFacts(t: real, cfg: CostConfig)
    requires cfg.Valid() && t >= 0.0
    ensures 0.0 <= Brokerage(t, cfg) <= cfg.flatFeePerOrder
    ensures Brokerage(t, cfg) <= cfg.brokeragePct * t
  {
  }

  lemma BrokerageMonotone(t0: real, t1: real, cfg: CostConfig)
    requires cfg.Valid() && 0.0 <= t0 <= t1
    ensures Brokerage(t0, cfg) <= Brokerage(t1, cfg)
  {
    BrokerageFacts(t1, cfg);
    if t0 > 0.0 {
      MulMonotone(cfg.brokeragePct, t0, t1);
    }
  }

  lemma BrokerageSubadditive(t0: real, t1: real, cfg: CostConfig)
    requires cfg.Valid() && 0.0 <= t0 && 0.0 <= t1
    ensures Brokerage(t0 + t1, cfg) <= Brokerage(t0, cfg) + Brokerage(t1, cfg)
  {
    assert cfg.brokeragePct * (t0 + t1) == cfg.brokeragePct * t0 + cfg.brokeragePct * t1;
    BrokerageFacts(t0, cfg);
    BrokerageFacts(t1, cfg);
  }

  lemma WeightedMonotone(l: real, g: real, t0: real, t1: real, b0: real, b1: real)
    requires l >= 0.0 && g >= 0.0 && t0 <= t1 && b0 <= b1
    ensures l * t0 + g * b0 <= l * t1 + g * b1
  {
    MulMonotone(l, t0, t1);
    MulMonotone(g, b0, b1);
  }

  lemma WeightedBounds(l: real, g: real, t: real, b: real, rate: real, cap: real)
    requires l >= 0.0 && g >= 0.0 && t >= 0.0 && 0.0 <= b <= rate * t && b <= cap
    ensures 0.0 <= l * t + g * b <= (l + g * rate) * t
    ensures l * t + g * b <= l * t + g * cap
  {
    MulNonNegative(l, t);
    MulNonNegative(g, b);
    MulMonotone(g, b, rate * t);
    MulMonotone(g, b, cap);
    assert (l + g * rate) * t == l * t + g * (rate * t);
  }

  lemma WeightedSum(l: real, g: real, t0: real, t1: real, b0: real, b1: real)
    ensures l * (t0 + t1) + g * (b0 + b1) == (l * t0 + g * b0) + (l * t1 + g * b1)
  {
  }

  lemma LinearRateNonNegative(side: Side, cfg: CostConfig, segment: Segment)
    requires cfg.Valid()
    ensures LinearRate(side, cfg, segment) >= 0.0
  {
    MulNonNegative(1.0 + cfg.gst, cfg.exchangeChargesNse);
  }

  /** An order costs at least nothing and at most the fixed rate times its turnover; and once brokerage is
      capped, at most the flat fee (with GST) above the linear part. */
  lemma ChargeBounds(side: Side, t: real, cfg: CostConfig, segment: Segment)
    requires cfg.Valid() && t >= 0.0
    ensures 0.0 <= Charge(side, t, cfg, segment) <= Rate(side, cfg, segment) * t
    ensures Charge(side, t, cfg, segment) <= LinearRate(side, cfg, segment) * t + (1.0 + cfg.gst) * cfg.flatFeePerOrder
  {
    var l, g, b := LinearRate(side, cfg, segment), 1.0 + cfg.gst, Brokerage(t, cfg);
    BrokerageFacts(t, cfg);
    LinearRateNonNegative(side, cfg, segment);
    WeightedBounds(l, g, t, b, cfg.brokeragePct, cfg.flatFeePerOrder);
  }

  /** A larger order on the same side never costs less. */
  lemma ChargeMonotone(side: Side, t0: real, t1: real, cfg: CostConfig, segment: Segment)
    requires cfg.Valid() && 0.0 <= t0 <= t1
    ensures Charge(side, t0, cfg, segment) <= Charge(side, t1, cfg, segment)
  {
    LinearRateNonNegative(side, cfg, segment);
    BrokerageMonotone(t0, t1, cfg);
    WeightedMonotone(LinearRate(side, cfg, segment), 1.0 + cfg.gst, t0, t1, Brokerage(t0, cfg), Brokerage(t1, cfg));
  }

  /** Splitting an order into two on the same side never makes it cheaper, although the flat-fee cap makes
      brokerage non-linear. */
  lemma SplittingNeverCheaper(side: Side, t0: real, t1: real, cfg: CostConfig, segment: Segment)
    requires cfg.Valid() && t0 >= 0.0 && t1 >= 0.0
    ensures Charge(side, t0 + t1, cfg, segment) <= Charge(side, t0, cfg, segment) + Charge(side, t1, cfg, segment)
  {
    var l, g, b0, b1 := LinearRate(side, cfg, segment), 1.0 + cfg.gst, Brokerage(t0, cfg), Brokerage(t1, cfg);
    BrokerageSubadditive(t0, t1, cfg);
    MulMonotone(g, Brokerage(t0 + t1, cfg), b0 + b1);
    WeightedSum(l, g, t0, t1, b0, b1);
  }
}
