/** The engine as it runs: a loop over days that updates the shares in place and records every day. Its results are
    proved equal to the functions in BacktestModel, about which BacktestTheorems speaks. */
module BacktestEngine {
  import opened Numbers
  import opened Frames
  import opened BacktestModel
  import Theorems = BacktestTheorems

  datatype Summary = Summary(
    initialCapital: real, finalEquity: real, totalReturn: real, totalCosts: real, totalTurnover: real, nRebalances: nat)

  /** What the day loop writes. */
  datatype DayLog = DayLog(
    equity: seq<real>, costs: seq<real>, turnover: seq<real>, positions: seq<seq<real>>)

  datatype BacktestResult = BacktestResult(
    days: DayLog, changes: seq<Option<real>>, weights: seq<seq<real>>, summary: Summary)

  function RealisedWeights(days: DayLog, close: Frame, symbols: nat): (weights: seq<seq<real>>)
    requires Lengths(days, |close|) && Shaped(close, |close|, symbols)
    requires forall d :: 0 <= d < |close| ==> |days.positions[d]| == symbols
    ensures |weights| == |close|
  {
    seq(|close|, d requires 0 <= d < |close| => RealisedRow(days.positions[d], close[d], days.equity[d]))
  }

  /** The first d days are recorded as the model has them. */
  ghost predicate Records(
    r: DayLog, dis: seq<DayInputs>, close: Frame, symbols: nat, cfg: Config, d: nat)
    requires d <= |dis| == |close| && FitAll(dis, symbols) && Shaped(close, |close|, symbols)
  {
    && Lengths(r, d)
    && forall k :: 0 <= k < d ==> RecordsDay(r, dis, close, symbols, cfg, k)
  }

  predicate Lengths(r: DayLog, d: nat) {
    |r.equity| == |r.costs| == |r.turnover| == |r.positions| == d
  }

  ghost predicate RecordsDay(
    r: DayLog, dis: seq<DayInputs>, close: Frame, symbols: nat, cfg: Config, k: nat)
    requires k < |dis| == |close| && FitAll(dis, symbols) && Shaped(close, |close|, symbols)
    requires Lengths(r, |r.equity|) && k < |r.equity|
  {
    && r.equity[k] == EquityOn(dis, close[k], symbols, cfg, k)
    && r.costs[k] == DayOf(dis, symbols, cfg, k).cost
    && r.turnover[k] == DayOf(dis, symbols, cfg, k).turnover
    && r.positions[k] == BookAfter(dis, symbols, cfg, k + 1).shares
  }

  function Summarise(days: DayLog, initialCapital: real): Summary
    requires days.equity != [] && initialCapital != 0.0
  {
    var final := days.equity[|days.equity| - 1];
    Summary(initialCapital, final, final / initialCapital - 1.0,
            Sum(days.costs), Sum(days.turnover), Rebalances(days.turnover))
  }

  function Recorded(r: DayLog, equity: real, cost: real, turnover: real, positions: seq<real>): DayLog {
    DayLog(r.equity + [equity], r.costs + [cost], r.turnover + [turnover], r.positions + [positions])
  }

  lemma RecordsOneMore(
    r: DayLog, dis: seq<DayInputs>, close: Frame, symbols: nat, cfg: Config, d: nat,
    equity: real, cost: real, turnover: real)
    requires d < |dis| == |close| && FitAll(dis, symbols) && Shaped(close, |close|, symbols)
    requires Records(r, dis, close, symbols, cfg, d)
    requires equity == EquityOn(dis, close[d], symbols, cfg, d)
    requires cost == DayOf(dis, symbols, cfg, d).cost && turnover == DayOf(dis, symbols, cfg, d).turnover
    ensures Records(
      Recorded(r, equity, cost, turnover, BookAfter(dis, symbols, cfg, d + 1).shares), dis, close, symbols, cfg, d + 1)
  {
    var r' := Recorded(r, equity, cost, turnover, BookAfter(dis, symbols, cfg, d + 1).shares);
    forall k | 0 <= k <= d
      ensures RecordsDay(r', dis, close, symbols, cfg, k)
    {
      if k < d {
        RecordsSameDay(r, r', dis, close, symbols, cfg, k);
      }
    }
  }

  lemma RecordsSameDay(
    r: DayLog, r': DayLog, dis: seq<DayInputs>, close: Frame, symbols: nat, cfg: Config, k: nat)
    requires k < |dis| == |close| && FitAll(dis, symbols) && Shaped(close, |close|, symbols)
    requires Lengths(r, |r.equity|) && Lengths(r', |r'.equity|) && k < |r.equity| && k < |r'.equity|
    requires r'.equity[k] == r.equity[k] && r'.costs[k] == r.costs[k]
    requires r'.turnover[k] == r.turnover[k] && r'.positions[k] == r.positions[k]
    requires RecordsDay(r, dis, close, symbols, cfg, k)
    ensures RecordsDay(r', dis, close, symbols, cfg, k)
  {
  }

  /** The number of rebalances in the summary never exceeds the number of days the executed target changes. */
  lemma ReportedRebalancesBounded(r: DayLog, prices: PriceData, target: Frame, symbols: nat, cfg: Config)
    requires Aligned(prices, target, |prices.open|, symbols) && |prices.open| > 0 && cfg.initialCapital != 0.0
    requires Records(r, Schedule(prices, target, symbols, cfg), prices.close, symbols, cfg, |prices.open|)
    ensures
      var dis := Schedule(prices, target, symbols, cfg);
      Summarise(r, cfg.initialCapital).nRebalances <= Theorems.TargetChanges(dis, |dis|)
  {
    var dis := Schedule(prices, target, symbols, cfg);
    Theorems.RebalancesBounded(prices, target, symbols, cfg);
    forall k | 0 <= k < |dis|
      ensures r.turnover[k] == Theorems.TurnoverSeries(dis, symbols, cfg, |dis|)[k]
    {
      assert RecordsDay(r, dis, prices.close, symbols, cfg, k);
    }
    assert r.turnover == Theorems.TurnoverSeries(dis, symbols, cfg, |dis|);
  }

  class BacktestEngine {
    const cfg: Config

    constructor (cfg: Config)
      ensures this.cfg == cfg
    {
      this.cfg := cfg;
    }

    method Run(prices: PriceData, target: Frame, symbols: nat) returns (result: BacktestResult)
      requires Aligned(prices, target, |prices.open|, symbols)
      requires |prices.open| > 0 && cfg.initialCapital != 0.0
      ensures Records(result.days, Schedule(prices, target, symbols, cfg), prices.close, symbols, cfg, |prices.open|)
      ensures result.changes == ReturnSeries(result.days.equity)
      ensures |result.weights| == |prices.open| && forall d :: 0 <= d < |prices.open| ==>
        && |result.days.positions[d]| == symbols
        && result.weights[d] == RealisedRow(result.days.positions[d], prices.close[d], result.days.equity[d])
      ensures result.summary == Summarise(result.days, cfg.initialCapital)
      ensures result.summary.nRebalances
           <= Theorems.TargetChanges(Schedule(prices, target, symbols, cfg), |prices.open|)
    {
      var days := |prices.open|;
      var dis := Schedule(prices, target, symbols, cfg);
      var shares := new real[symbols](_ => 0.0);
      var cash, prevTarget := cfg.initialCapital, Zeros(symbols);
      var r := DayLog([], [], [], []);
      assert shares[..] == Zeros(symbols);
      for d := 0 to days
        invariant fresh(shares)
        invariant Records(r, dis, prices.close, symbols, cfg, d)
        invariant forall k :: 0 <= k < d ==> |r.positions[k]| == symbols
        invariant Book(shares[..], cash, prevTarget) == BookAfter(dis, symbols, cfg, d)
      {
        var cost, turnover;
        cost, turnover, cash, prevTarget := TradeDay(dis[d], d == 0, shares, cash, prevTarget);
        var equity := cash + Worth(shares[..], prices.close[d], symbols);
        RecordsOneMore(r, dis, prices.close, symbols, cfg, d, equity, cost, turnover);
        r := Recorded(r, equity, cost, turnover, shares[..]);
      }
      ReportedRebalancesBounded(r, prices, target, symbols, cfg);
      var weights := RealisedWeights(r, prices.close, symbols);
      result := BacktestResult(r, ReturnSeries(r.equity), weights, Summarise(r, cfg.initialCapital));
    }

    /** The body of the day loop: trade on the first day and when the target changes. */
    method TradeDay(di: DayInputs, first: bool, shares: array<real>, cash: real, prevTarget: seq<real>)
      returns (cost: real, turnover: real, cash': real, prevTarget': seq<real>)
      requires Fits(di, shares.Length)
      modifies shares
      ensures
        var (b, day) := Step(di, Book(old(shares[..]), cash, prevTarget), first, cfg);
        && Book(shares[..], cash', prevTarget') == b
        && cost == day.cost && turnover == day.turnover
    {
      cost, turnover, cash', prevTarget' := 0.0, 0.0, cash, prevTarget;
      if first || di.target != prevTarget {
        cost, turnover, cash' := Rebalance(di, shares, cash, prevTarget);
        prevTarget' := di.target;
      }
    }

    method Rebalance(di: DayInputs, shares: array<real>, cash: real, ghost prevTarget: seq<real>)
      returns (cost: real, turnover: real, cash': real)
      requires Fits(di, shares.Length)
      modifies shares
      ensures
        var (b, day) := BacktestModel.Rebalance(di, Book(old(shares[..]), cash, prevTarget), cfg);
        shares[..] == b.shares && cash' == b.cash && cost == day.cost && turnover == day.turnover
    {
      var n := shares.Length;
      var filled := Filled(di, Book(shares[..], cash, di.target), cfg);
      assert filled == Filled(di, Book(shares[..], cash, prevTarget), cfg);
      cost := TradeCost(di, filled, cfg, n);
      turnover := Turnover(di.open, filled, n);
      cash' := cash - Worth(filled, di.open, n) - cost;
      for i := 0 to n
        invariant forall k :: 0 <= k < i ==> shares[k] == old(shares[k]) + filled[k]
        invariant forall k :: i <= k < n ==> shares[k] == old(shares[k])
      {
        shares[i] := shares[i] + filled[i];
      }
      assert shares[..] == Plus(old(shares[..]), filled);
    }
  }
}
