/** What the engine does on each day of a run, read off the price frames: when it trades, to what holdings, at what
    cost, and what the summary then reports. */
module BacktestTrades {
  import opened Numbers
  import opened Frames
  import opened Costs
  import opened Impact
  import opened BacktestModel
  import opened BacktestTheorems
  import opened BacktestEngine

  // --- the days on which the target changes ---

  predicate HaltedOn(prices: PriceData, d: nat, i: nat)
    requires prices.halted.Some? ==> d < |prices.halted.value| && i < |prices.halted.value[d]|
  {
    prices.halted.Some? && prices.halted.value[d][i]
  }

  /** The share count that is worth the weight times the equity at the open. */
  predicate IsWanted(wanted: real, open: Option<real>, weight: real, equity: real) {
    open.Some? ==> wanted * open.value == weight * equity
  }

  /** The holding moves towards the wanted one, all the way or by the cap, whichever is less. */
  predicate MovesTowards(held: real, now: real, wanted: real, cap: Option<real>) {
    && (wanted >= held ==> now >= held)
    && (wanted <= held ==> now <= held)
    && Abs(now - held) == (if cap.Some? then Min(Abs(wanted - held), cap.value) else Abs(wanted - held))
  }

  /** The most that may be traded of a name, if its volume is known. */
  function Cap(adv: Option<real>, participation: real): Option<real> {
    if adv.Some? && adv.value > 0.0 then Some(participation * adv.value) else None
  }

  lemma CappedMove(held: real, wanted: real, adv: Option<real>, participation: real)
    requires participation >= 0.0
    ensures MovesTowards(held, held + CapLane(wanted - held, adv, participation), wanted, Cap(adv, participation))
  {
    CapLaneContract(wanted - held, adv, participation);
    if KnownAdv(adv) {
      MulNonNegative(participation, adv.value);
    }
  }

  lemma WantedIs(di: DayInputs, b: Book, i: nat, wanted: real)
    requires Fits(di, |b.shares|) && i < |b.shares| && Tradeable(di.open[i], di.halted[i])
    requires IsWanted(wanted, di.open[i], di.target[i], EquityAtOpen(di, b))
    ensures WantedShares(di, b, i) == wanted
  {
    QuotientIs(di.target[i] * EquityAtOpen(di, b), di.open[i].value, wanted);
  }

  lemma QuotientIs(total: real, p: real, x: real)
    requires p > 0.0 && x * p == total
    ensures total / p == x
  {
  }

  lemma RebalanceMoves(di: DayInputs, b: Book, cfg: Config, i: nat, wanted: real)
    requires Fits(di, |b.shares|) && i < |b.shares| && cfg.impact.Valid() && Tradeable(di.open[i], di.halted[i])
    requires WantedShares(di, b, i) == wanted
    ensures MovesTowards(
      b.shares[i], Rebalance(di, b, cfg).0.shares[i], wanted, Cap(di.adv[i], cfg.impact.maxAdvParticipation))
  {
    FilledIsCappedMove(di, b, cfg, i);
    CappedMove(b.shares[i], wanted, di.adv[i], cfg.impact.maxAdvParticipation);
  }

  lemma ChangedDayHoldings(dis: seq<DayInputs>, symbols: nat, cfg: Config, d: nat, i: nat, wanted: real)
    requires 0 < d < |dis| && FitAll(dis, symbols) && i < symbols && cfg.impact.Valid()
    requires dis[d].target != dis[d - 1].target
    requires
      var b := BookAfter(dis, symbols, cfg, d);
      IsWanted(wanted, dis[d].open[i], dis[d].target[i], EquityAtOpen(dis[d], b))
    ensures
      var held, now := BookAfter(dis, symbols, cfg, d).shares[i], BookAfter(dis, symbols, cfg, d + 1).shares[i];
      if dis[d].open[i].Some? && dis[d].open[i].value > 0.0 && !dis[d].halted[i] then
        MovesTowards(held, now, wanted, Cap(dis[d].adv[i], cfg.impact.maxAdvParticipation))
      else
        now == held
  {
    var b := BookAfter(dis, symbols, cfg, d);
    ChangedTargetRebalances(dis, symbols, cfg, d);
    if Tradeable(dis[d].open[i], dis[d].halted[i]) {
      WantedIs(dis[d], b, i, wanted);
      RebalanceMoves(dis[d], b, cfg, i, wanted);
    } else {
      UntradeableUnfilled(dis[d], b, cfg, i);
    }
  }

  lemma ScheduleReads(prices: PriceData, target: Frame, symbols: nat, cfg: Config, d: nat)
    requires Aligned(prices, target, |prices.open|, symbols) && d < |prices.open|
    ensures
      var di := Schedule(prices, target, symbols, cfg)[d];
      && di.open == prices.open[d] && di.target == ExecTarget(target, d, symbols)
      && (forall i :: 0 <= i < symbols ==> di.halted[i] == HaltedOn(prices, d, i))
      && (prices.volume.None? ==> forall i :: 0 <= i < symbols ==> di.adv[i] == None)
  {
  }

  /** Whenever the executed target changes, the engine trades: every name with a positive open that is not halted moves
      towards the holding whose worth at the open is its target weight of the equity at the open, all the way or by the
      participation cap; every other name stays where it is. */
  lemma TargetChangeTrades(
    prices: PriceData, target: Frame, symbols: nat, cfg: Config, d: nat, i: nat, wanted: real)
    requires Aligned(prices, target, |prices.open|, symbols) && 0 < d < |prices.open| && i < symbols
    requires cfg.impact.Valid() && ExecTarget(target, d, symbols) != ExecTarget(target, d - 1, symbols)
    requires
      var b := BookAfter(Schedule(prices, target, symbols, cfg), symbols, cfg, d);
      var equity := b.cash + Worth(b.shares, prices.open[d], symbols);
      IsWanted(wanted, prices.open[d][i], ExecTarget(target, d, symbols)[i], equity)
    ensures
      var dis := Schedule(prices, target, symbols, cfg);
      var held, now := BookAfter(dis, symbols, cfg, d).shares[i], BookAfter(dis, symbols, cfg, d + 1).shares[i];
      if prices.open[d][i].Some? && prices.open[d][i].value > 0.0 && !HaltedOn(prices, d, i) then
        MovesTowards(held, now, wanted, Cap(dis[d].adv[i], cfg.impact.maxAdvParticipation))
      else
        now == held
  {
    ScheduleReads(prices, target, symbols, cfg, d);
    ScheduleReads(prices, target, symbols, cfg, d - 1);
    ChangedDayHoldings(Schedule(prices, target, symbols, cfg), symbols, cfg, d, i, wanted);
  }

  lemma ChangedTargetRebalances(dis: seq<DayInputs>, symbols: nat, cfg: Config, d: nat)
    requires 0 < d < |dis| && FitAll(dis, symbols) && dis[d].target != dis[d - 1].target
    ensures BookAfter(dis, symbols, cfg, d + 1) == Rebalance(dis[d], BookAfter(dis, symbols, cfg, d), cfg).0
    ensures DayOf(dis, symbols, cfg, d) == Rebalance(dis[d], BookAfter(dis, symbols, cfg, d), cfg).1
  {
    PreviousTarget(dis, symbols, cfg, d);
  }

  /** So where the cap does not bind, the holding ends up worth its target weight of the equity. */
  lemma TargetReached(
    prices: PriceData, target: Frame, symbols: nat, cfg: Config, d: nat, i: nat, wanted: real)
    requires Aligned(prices, target, |prices.open|, symbols) && 0 < d < |prices.open| && i < symbols
    requires cfg.impact.Valid() && ExecTarget(target, d, symbols) != ExecTarget(target, d - 1, symbols)
    requires prices.open[d][i].Some? && prices.open[d][i].value > 0.0 && !HaltedOn(prices, d, i)
    requires
      var dis := Schedule(prices, target, symbols, cfg);
      var b := BookAfter(dis, symbols, cfg, d);
      var equity, cap := b.cash + Worth(b.shares, prices.open[d], symbols),
                         Cap(dis[d].adv[i], cfg.impact.maxAdvParticipation);
      && IsWanted(wanted, prices.open[d][i], ExecTarget(target, d, symbols)[i], equity)
      && (cap.Some? ==> Abs(wanted - b.shares[i]) <= cap.value)
    ensures BookAfter(Schedule(prices, target, symbols, cfg), symbols, cfg, d + 1).shares[i] == wanted
  {
    TargetChangeTrades(prices, target, symbols, cfg, d, i, wanted);
  }

  // --- what a rebalance costs and turns over ---

  /** The charges of the names with an open, each by the scalar cost and impact functions. */
  function Charged(di: DayInputs, filled: seq<real>, cfg: Config, n: nat): real
    requires n <= |filled| && Fits(di, |filled|)
  {
    if n == 0 then 0.0
    else
      var q, open := filled[n - 1], di.open[n - 1];
      Charged(di, filled, cfg, n - 1)
      + if open.None? then 0.0
        else ComputeCosts(SideOf(q), open.value, q, cfg.cost, cfg.segment).total
             + ComputeImpact(q, open.value, di.adv[n - 1], di.vol[n - 1], cfg.impact, cfg.numerics.sqrt).cost
  }

  lemma {:induction false} RebalanceCharges(di: DayInputs, b: Book, cfg: Config, n: nat)
    requires Fits(di, |b.shares|) && n <= |b.shares| && cfg.cost.Valid()
    ensures TradeCost(di, Filled(di, b, cfg), cfg, n) == Charged(di, Filled(di, b, cfg), cfg, n)
  {
    if n > 0 {
      RebalanceCharges(di, b, cfg, n - 1);
      if di.open[n - 1].Some? {
        LaneCostIsScalar(di, b, cfg, n - 1);
      }
    }
  }

  function Bought(filled: seq<real>): (r: seq<real>)
    ensures |r| == |filled|
  {
    seq(|filled|, i requires 0 <= i < |filled| => Max(filled[i], 0.0))
  }

  function Sold(filled: seq<real>): (r: seq<real>)
    ensures |r| == |filled|
  {
    seq(|filled|, i requires 0 <= i < |filled| => Max(-filled[i], 0.0))
  }

  lemma {:induction false} TurnoverIsBuysAndSells(open: Row, filled: seq<real>, n: nat)
    requires n <= |filled| == |open|
    ensures Turnover(open, filled, n) == Worth(Bought(filled), open, n) + Worth(Sold(filled), open, n)
  {
    if n > 0 {
      TurnoverIsBuysAndSells(open, filled, n - 1);
      var q, p := filled[n - 1], PriceOrZero(open[n - 1]);
      assert Abs(q) * p == Max(q, 0.0) * p + Max(-q, 0.0) * p;
    }
  }

  /** A day with a changed target costs the charges of its fills, and turns over the worth at the open of what it bought
      and of what it sold. */
  lemma TradingDayCosts(dis: seq<DayInputs>, symbols: nat, cfg: Config, d: nat)
    requires 0 < d < |dis| && FitAll(dis, symbols) && dis[d].target != dis[d - 1].target && cfg.cost.Valid()
    ensures
      var day := DayOf(dis, symbols, cfg, d);
      && day.cost == Charged(dis[d], day.filled, cfg, symbols)
      && day.turnover
         == Worth(Bought(day.filled), dis[d].open, symbols) + Worth(Sold(day.filled), dis[d].open, symbols)
  {
    var b := BookAfter(dis, symbols, cfg, d);
    ChangedTargetRebalances(dis, symbols, cfg, d);
    RebalanceCharges(dis[d], b, cfg, symbols);
    TurnoverIsBuysAndSells(dis[d].open, Filled(dis[d], b, cfg), symbols);
  }

  // --- trailing volatility ---

  /** The close a percentage change is taken from: with padding the latest one so far, else the one of the day. */
  lemma PaddedCloseIs(frame: Frame, d: nat, s: nat, pad: bool) returns (k: int)
    requires d < |frame| && forall j :: 0 <= j <= d ==> s < |frame[j]|
    ensures if pad then InForce(frame, d + 1, s, k) else k == d
    ensures PaddedClose(frame, d, s, pad) == if k >= 0 then frame[k][s] else None
  {
    if pad {
      k := FilledForwardInForce(frame, d, s);
    } else {
      k := d;
    }
  }

  /** The change into day k: what the close before it must be scaled by, less one. */
  ghost predicate ChangeInto(close: Frame, k: nat, s: nat, pad: bool, change: Option<real>)
    requires 0 < k < |close| && forall j :: 0 <= j <= k ==> s < |close[j]|
  {
    var now, before := PaddedClose(close, k, s, pad), PaddedClose(close, k - 1, s, pad);
    if now.Some? && before.Some? && before.value != 0.0 then
      change.Some? && before.value * (1.0 + change.value) == now.value
    else
      change.None?
  }

  lemma ReturnsAreChanges(close: Frame, d: nat, s: nat, pad: bool, k: nat)
    requires k < d <= |close| && forall j :: 0 <= j < d ==> s < |close[j]|
    ensures k == 0 ==> ReturnsBefore(close, d, s, pad)[k] == None
    ensures k > 0 ==> ChangeInto(close, k, s, pad, ReturnsBefore(close, d, s, pad)[k])
  {
  }

  /** The volatility of a rebalance on day d is the deviation of the changes of the volWindow days before it, and
      unknown unless all of them are there. */
  lemma VolIsDeviationOfPriorChanges(
    prices: PriceData, target: Frame, symbols: nat, cfg: Config, d: nat, s: nat, window: seq<real>)
    requires d < |prices.open| && Aligned(prices, target, |prices.open|, symbols) && s < symbols
    requires
      var changes, w := ReturnsBefore(prices.close, d, s, cfg.numerics.padReturns), cfg.volWindow;
      FullWindow(changes, d, w) ==>
        |window| == w && forall k :: 0 <= k < w ==> window[k] == changes[d - w + k].value
    ensures
      var changes := ReturnsBefore(prices.close, d, s, cfg.numerics.padReturns);
      && (forall k :: 0 < k < d ==> ChangeInto(prices.close, k, s, cfg.numerics.padReturns, changes[k]))
      && (d > 0 ==> changes[0] == None)
      && InputsOn(prices, target, symbols, cfg, d).vol[s]
         == if FullWindow(changes, d, cfg.volWindow) then cfg.numerics.stdev(window) else None
  {
    var changes := ReturnsBefore(prices.close, d, s, cfg.numerics.padReturns);
    TrailingIsWindow(changes, cfg.volWindow, cfg.numerics.stdev, window);
    forall k | 0 < k < d
      ensures ChangeInto(prices.close, k, s, cfg.numerics.padReturns, changes[k])
    {
      ReturnsAreChanges(prices.close, d, s, cfg.numerics.padReturns, k);
    }
  }

  // --- the summary ---

  lemma {:induction false} RebalancesCounted(turnover: seq<real>)
    ensures Rebalances(turnover) == |set d | 0 <= d < |turnover| && turnover[d] > 0.0|
    decreases |turnover|
  {
    var here := set d | 0 <= d < |turnover| && turnover[d] > 0.0;
    if turnover != [] {
      var front, last := turnover[..|turnover| - 1], |turnover| - 1;
      RebalancesCounted(front);
      var before := set d | 0 <= d < |front| && front[d] > 0.0;
      assert here == before + if turnover[last] > 0.0 then {last} else {};
    }
  }

  lemma {:induction false} CostsRecorded(
    r: DayLog, dis: seq<DayInputs>, close: Frame, symbols: nat, cfg: Config, k: nat)
    requires k <= |dis| == |close| && FitAll(dis, symbols) && Shaped(close, |close|, symbols)
    requires Records(r, dis, close, symbols, cfg, |dis|)
    ensures Sum(r.costs[..k]) == CostsTo(dis, symbols, cfg, k)
  {
    if k > 0 {
      CostsRecorded(r, dis, close, symbols, cfg, k - 1);
      assert RecordsDay(r, dis, close, symbols, cfg, k - 1);
      assert r.costs[..k][..k - 1] == r.costs[..k - 1];
    }
  }

  lemma {:induction false} TurnoverRecorded(
    r: DayLog, dis: seq<DayInputs>, close: Frame, symbols: nat, cfg: Config, k: nat)
    requires k <= |dis| == |close| && FitAll(dis, symbols) && Shaped(close, |close|, symbols)
    requires Records(r, dis, close, symbols, cfg, |dis|)
    ensures Sum(r.turnover[..k]) == TurnoverTo(dis, symbols, cfg, k)
  {
    if k > 0 {
      TurnoverRecorded(r, dis, close, symbols, cfg, k - 1);
      assert RecordsDay(r, dis, close, symbols, cfg, k - 1);
      assert r.turnover[..k][..k - 1] == r.turnover[..k - 1];
    }
  }

  /** The summary accounts for the run: the final equity is the initial capital plus the profit of all fills at the last
      closes less the total costs. */
  lemma SummaryAccounts(r: DayLog, dis: seq<DayInputs>, close: Frame, symbols: nat, cfg: Config)
    requires |dis| == |close| > 0 && FitAll(dis, symbols) && Shaped(close, |close|, symbols)
    requires Records(r, dis, close, symbols, cfg, |dis|) && cfg.initialCapital != 0.0
    ensures
      var s := Summarise(r, cfg.initialCapital);
      && s.initialCapital == cfg.initialCapital
      && s.finalEquity
         == s.initialCapital + ProfitTo(dis, symbols, cfg, |dis|, close[|dis| - 1]) - CostsTo(dis, symbols, cfg, |dis|)
      && s.totalCosts == CostsTo(dis, symbols, cfg, |dis|)
  {
    FinalEquityIs(r, dis, close, symbols, cfg);
    TotalsAre(r, dis, close, symbols, cfg);
  }

  /** It reports the turnover of all days, and as rebalances the days on which something was filled. */
  lemma SummaryCounts(r: DayLog, dis: seq<DayInputs>, close: Frame, symbols: nat, cfg: Config)
    requires |dis| == |close| > 0 && FitAll(dis, symbols) && Shaped(close, |close|, symbols)
    requires Records(r, dis, close, symbols, cfg, |dis|) && cfg.initialCapital != 0.0
    ensures
      var s := Summarise(r, cfg.initialCapital);
      s.totalTurnover == TurnoverTo(dis, symbols, cfg, |dis|) && s.nRebalances == |FilledDays(dis, symbols, cfg)|
  {
    TotalsAre(r, dis, close, symbols, cfg);
    RebalancesAreFilledDays(r, dis, close, symbols, cfg);
  }

  lemma FinalEquityIs(r: DayLog, dis: seq<DayInputs>, close: Frame, symbols: nat, cfg: Config)
    requires |dis| == |close| > 0 && FitAll(dis, symbols) && Shaped(close, |close|, symbols)
    requires Records(r, dis, close, symbols, cfg, |dis|)
    ensures r.equity[|dis| - 1]
         == cfg.initialCapital + ProfitTo(dis, symbols, cfg, |dis|, close[|dis| - 1])
            - CostsTo(dis, symbols, cfg, |dis|)
  {
    var last := |dis| - 1;
    assert RecordsDay(r, dis, close, symbols, cfg, last);
    ProfitAndLossIdentity(dis, close[last], symbols, cfg, last);
  }

  lemma TotalsAre(r: DayLog, dis: seq<DayInputs>, close: Frame, symbols: nat, cfg: Config)
    requires |dis| == |close| && FitAll(dis, symbols) && Shaped(close, |close|, symbols)
    requires Records(r, dis, close, symbols, cfg, |dis|)
    ensures Sum(r.costs) == CostsTo(dis, symbols, cfg, |dis|)
    ensures Sum(r.turnover) == TurnoverTo(dis, symbols, cfg, |dis|)
  {
    CostsRecorded(r, dis, close, symbols, cfg, |dis|);
    TurnoverRecorded(r, dis, close, symbols, cfg, |dis|);
    assert r.costs[..|dis|] == r.costs && r.turnover[..|dis|] == r.turnover;
  }

  lemma RebalancesAreFilledDays(r: DayLog, dis: seq<DayInputs>, close: Frame, symbols: nat, cfg: Config)
    requires |dis| == |close| && FitAll(dis, symbols) && Shaped(close, |close|, symbols)
    requires Records(r, dis, close, symbols, cfg, |dis|)
    ensures Rebalances(r.turnover) == |FilledDays(dis, symbols, cfg)|
  {
    RebalancesCounted(r.turnover);
    TurnoverDaysAreFilledDays(r, dis, close, symbols, cfg);
  }

  /** The total return grows the initial capital into the final equity. */
  lemma TotalReturnGrows(r: DayLog, initialCapital: real)
    requires r.equity != [] && initialCapital != 0.0
    ensures
      var s := Summarise(r, initialCapital);
      GrowsTo(s.initialCapital, s.totalReturn, s.finalEquity)
  {
    GrowsInto(initialCapital, r.equity[|r.equity| - 1]);
  }

  predicate GrowsTo(initial: real, rate: real, final: real) {
    initial * (1.0 + rate) == final
  }

  function TurnoverTo(dis: seq<DayInputs>, symbols: nat, cfg: Config, k: nat): real
    requires k <= |dis| && FitAll(dis, symbols)
  {
    if k == 0 then 0.0 else TurnoverTo(dis, symbols, cfg, k - 1) + DayOf(dis, symbols, cfg, k - 1).turnover
  }

  lemma GrowsInto(initial: real, final: real)
    requires initial != 0.0
    ensures GrowsTo(initial, final / initial - 1.0, final)
  {
  }

  /** The days on which some name was filled. */
  ghost function FilledDays(dis: seq<DayInputs>, symbols: nat, cfg: Config): set<int>
    requires FitAll(dis, symbols)
  {
    set d | 0 <= d < |dis| && FillsSomething(dis, symbols, cfg, d)
  }

  ghost predicate FillsSomething(dis: seq<DayInputs>, symbols: nat, cfg: Config, d: nat)
    requires d < |dis| && FitAll(dis, symbols)
  {
    exists i :: 0 <= i < symbols && DayOf(dis, symbols, cfg, d).filled[i] != 0.0
  }

  lemma DayCountedIff(dis: seq<DayInputs>, symbols: nat, cfg: Config, d: nat)
    requires d < |dis| && FitAll(dis, symbols)
    ensures DayOf(dis, symbols, cfg, d).turnover > 0.0 <==> FillsSomething(dis, symbols, cfg, d)
  {
    var b := BookAfter(dis, symbols, cfg, d);
    if d == 0 || dis[d].target != b.prevTarget {
      CountedIffTraded(dis[d], b, cfg);
    }
  }

  lemma TurnoverDaysAreFilledDays(
    r: DayLog, dis: seq<DayInputs>, close: Frame, symbols: nat, cfg: Config)
    requires |dis| == |close| && FitAll(dis, symbols) && Shaped(close, |close|, symbols)
    requires Records(r, dis, close, symbols, cfg, |dis|)
    ensures (set d | 0 <= d < |r.turnover| && r.turnover[d] > 0.0) == FilledDays(dis, symbols, cfg)
  {
    forall d | 0 <= d < |dis|
      ensures r.turnover[d] > 0.0 <==> FillsSomething(dis, symbols, cfg, d)
    {
      assert RecordsDay(r, dis, close, symbols, cfg, d);
      DayCountedIff(dis, symbols, cfg, d);
    }
  }

  /** The reported returns carry each day's equity into the next; from zero there is a return only if it stays there. */
  lemma ReturnsCarryEquity(equity: seq<real>, d: nat)
    requires d < |equity|
    ensures d == 0 ==> ReturnSeries(equity)[d] == Some(0.0)
    ensures d > 0 ==>
      match ReturnSeries(equity)[d]
      case Some(change) => GrowsTo(equity[d - 1], change, equity[d]) && (equity[d - 1] == 0.0 ==> change == 0.0)
      case None => equity[d - 1] == 0.0 && equity[d] != 0.0
  {
    if d > 0 && equity[d - 1] != 0.0 {
      GrowsInto(equity[d - 1], equity[d]);
    }
  }
}
