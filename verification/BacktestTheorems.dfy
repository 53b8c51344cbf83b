/** What the engine promises about its runs. */
module BacktestTheorems {
  import opened Numbers
  import opened Frames
  import opened Costs
  import opened Impact
  import opened BacktestModel

  // --- no look-ahead ---

  /** The inputs agree on everything that day d may use: opens and halts through d; targets, closes and volumes
      through the day before. */
  ghost predicate AgreeUpTo(p1: PriceData, t1: Frame, p2: PriceData, t2: Frame, d: nat)
    requires d < |p1.open| && d < |p2.open|
    requires |p1.close| == |t1| == |p1.open| && |p2.close| == |t2| == |p2.open|
  {
    && p1.open[..d + 1] == p2.open[..d + 1]
    && (p1.halted.Some? <==> p2.halted.Some?)
    && (p1.halted.Some? ==>
          d < |p1.halted.value| && d < |p2.halted.value| && p1.halted.value[..d + 1] == p2.halted.value[..d + 1])
    && t1[..d] == t2[..d]
    && p1.close[..d] == p2.close[..d]
    && (p1.volume.Some? <==> p2.volume.Some?)
    && (p1.volume.Some? ==>
          d <= |p1.volume.value| && d <= |p2.volume.value| && p1.volume.value[..d] == p2.volume.value[..d])
  }

  lemma ReturnsLocal(f1: Frame, f2: Frame, d: nat, s: nat, pad: bool)
    requires d <= |f1| && d <= |f2| && forall k :: 0 <= k < d ==> s < |f1[k]|
    requires forall k :: 0 <= k < d ==> f1[k] == f2[k]
    ensures ReturnsBefore(f1, d, s, pad) == ReturnsBefore(f2, d, s, pad)
  {
    forall k | 0 <= k < d
      ensures PaddedClose(f1, k, s, pad) == PaddedClose(f2, k, s, pad)
    {
      FilledForwardLocal(f1, f2, k, s);
    }
  }

  lemma TakeAgree<T>(a: seq<T>, b: seq<T>, n: nat)
    requires n <= |a| && n <= |b| && a[..n] == b[..n]
    ensures forall k :: 0 <= k < n ==> a[k] == b[k]
  {
    forall k | 0 <= k < n
      ensures a[k] == b[k]
    {
      assert a[..n][k] == b[..n][k];
    }
  }

  lemma ExecTargetLocal(t1: Frame, t2: Frame, symbols: nat, d: nat)
    requires d < |t1| && d < |t2| && Shaped(t1, |t1|, symbols) && Shaped(t2, |t2|, symbols)
    requires forall k :: 0 <= k < d ==> t1[k] == t2[k]
    ensures ExecTarget(t1, d, symbols) == ExecTarget(t2, d, symbols)
  {
    if d > 0 {
      var e := d - 1;
      forall s | 0 <= s < symbols
        ensures FilledForward(t1, e, s) == FilledForward(t2, e, s)
      {
        FilledForwardLocal(t1, t2, e, s);
      }
    }
  }

  lemma InputsLocal(p1: PriceData, t1: Frame, p2: PriceData, t2: Frame, symbols: nat, cfg: Config, d: nat)
    requires Aligned(p1, t1, |p1.open|, symbols) && Aligned(p2, t2, |p2.open|, symbols)
    requires d < |p1.open| && d < |p2.open| && AgreeUpTo(p1, t1, p2, t2, d)
    ensures InputsOn(p1, t1, symbols, cfg, d) == InputsOn(p2, t2, symbols, cfg, d)
  {
    var i1, i2 := InputsOn(p1, t1, symbols, cfg, d), InputsOn(p2, t2, symbols, cfg, d);
    TakeAgree(p1.open, p2.open, d + 1);
    TakeAgree(t1, t2, d);
    TakeAgree(p1.close, p2.close, d);
    ExecTargetLocal(t1, t2, symbols, d);
    forall s | 0 <= s < symbols
      ensures i1.vol[s] == i2.vol[s] && i1.adv[s] == i2.adv[s]
    {
      ReturnsLocal(p1.close, p2.close, d, s, cfg.numerics.padReturns);
      if p1.volume.Some? {
        TakeAgree(p1.volume.value, p2.volume.value, d);
        assert ColumnBefore(p1.volume.value, d, s) == ColumnBefore(p2.volume.value, d, s);
      }
    }
    if p1.halted.Some? {
      TakeAgree(p1.halted.value, p2.halted.value, d + 1);
    }
    assert i1.adv == i2.adv && i1.vol == i2.vol;
  }

  lemma AgreeEarlier(p1: PriceData, t1: Frame, p2: PriceData, t2: Frame, d: nat)
    requires 0 < d < |p1.open| && d < |p2.open|
    requires |p1.close| == |t1| == |p1.open| && |p2.close| == |t2| == |p2.open|
    requires AgreeUpTo(p1, t1, p2, t2, d)
    ensures AgreeUpTo(p1, t1, p2, t2, d - 1)
  {
    TakeShorter(p1.open, p2.open, d + 1, d);
    TakeShorter(t1, t2, d, d - 1);
    TakeShorter(p1.close, p2.close, d, d - 1);
    if p1.volume.Some? {
      TakeShorter(p1.volume.value, p2.volume.value, d, d - 1);
    }
    if p1.halted.Some? {
      TakeShorter(p1.halted.value, p2.halted.value, d + 1, d);
    }
  }

  lemma TakeShorter<T>(a: seq<T>, b: seq<T>, n: nat, m: nat)
    requires m <= n <= |a| && n <= |b| && a[..n] == b[..n]
    ensures a[..m] == b[..m]
  {
    assert a[..m] == a[..n][..m] && b[..m] == b[..n][..m];
  }

  lemma BookStepLocal(dis1: seq<DayInputs>, dis2: seq<DayInputs>, symbols: nat, cfg: Config, d: nat)
    requires 0 < d <= |dis1| && d <= |dis2| && FitAll(dis1, symbols) && FitAll(dis2, symbols)
    requires dis1[d - 1] == dis2[d - 1]
    requires BookAfter(dis1, symbols, cfg, d - 1) == BookAfter(dis2, symbols, cfg, d - 1)
    ensures BookAfter(dis1, symbols, cfg, d) == BookAfter(dis2, symbols, cfg, d)
  {
  }

  lemma {:induction false} BookLocal(dis1: seq<DayInputs>, dis2: seq<DayInputs>, symbols: nat, cfg: Config, d: nat)
    requires d <= |dis1| && d <= |dis2| && FitAll(dis1, symbols) && FitAll(dis2, symbols)
    requires forall k :: 0 <= k < d ==> dis1[k] == dis2[k]
    ensures BookAfter(dis1, symbols, cfg, d) == BookAfter(dis2, symbols, cfg, d)
  {
    if d > 0 {
      BookLocal(dis1, dis2, symbols, cfg, d - 1);
      BookStepLocal(dis1, dis2, symbols, cfg, d);
    }
  }

  lemma {:induction false} ScheduleLocal(
    p1: PriceData, t1: Frame, p2: PriceData, t2: Frame, symbols: nat, cfg: Config, d: nat, k: nat)
    requires Aligned(p1, t1, |p1.open|, symbols) && Aligned(p2, t2, |p2.open|, symbols)
    requires k <= d < |p1.open| && d < |p2.open| && AgreeUpTo(p1, t1, p2, t2, d)
    ensures InputsOn(p1, t1, symbols, cfg, k) == InputsOn(p2, t2, symbols, cfg, k)
    decreases d
  {
    if k == d {
      InputsLocal(p1, t1, p2, t2, symbols, cfg, d);
    } else {
      AgreeEarlier(p1, t1, p2, t2, d);
      ScheduleLocal(p1, t1, p2, t2, symbols, cfg, d - 1, k);
    }
  }

  /** No look-ahead: two runs whose inputs agree on opens and halts through day d and on targets, closes and volumes
      through day d-1 have the same book, fills, costs and turnover on day d; and the same equity if they also agree on
      the close of day d. */
  lemma NoLookAhead(
    p1: PriceData, t1: Frame, p2: PriceData, t2: Frame, symbols: nat, cfg: Config, d: nat)
    requires Aligned(p1, t1, |p1.open|, symbols) && Aligned(p2, t2, |p2.open|, symbols)
    requires d < |p1.open| && d < |p2.open| && AgreeUpTo(p1, t1, p2, t2, d)
    ensures
      var dis1, dis2 := Schedule(p1, t1, symbols, cfg), Schedule(p2, t2, symbols, cfg);
      && BookAfter(dis1, symbols, cfg, d + 1) == BookAfter(dis2, symbols, cfg, d + 1)
      && DayOf(dis1, symbols, cfg, d) == DayOf(dis2, symbols, cfg, d)
      && (p1.close[d] == p2.close[d] ==>
            EquityOn(dis1, p1.close[d], symbols, cfg, d) == EquityOn(dis2, p2.close[d], symbols, cfg, d))
  {
    var dis1, dis2 := Schedule(p1, t1, symbols, cfg), Schedule(p2, t2, symbols, cfg);
    forall k | 0 <= k <= d
      ensures dis1[k] == dis2[k]
    {
      ScheduleLocal(p1, t1, p2, t2, symbols, cfg, d, k);
    }
    BookLocal(dis1, dis2, symbols, cfg, d + 1);
    BookLocal(dis1, dis2, symbols, cfg, d);
  }

  // --- the one-bar lag ---

  /** The decision in force before day d: the latest row that gave the symbol a target. */
  ghost predicate InForce(target: Frame, d: nat, s: nat, k: int)
    requires d <= |target| && forall j :: 0 <= j < d ==> s < |target[j]|
  {
    -1 <= k < d
    && (k >= 0 ==> target[k][s].Some?)
    && forall j :: k < j < d && j >= 0 ==> target[j][s].None?
  }

  lemma {:induction false} FilledForwardInForce(target: Frame, d: nat, s: nat) returns (k: int)
    requires d < |target| && forall j :: 0 <= j <= d ==> s < |target[j]|
    ensures InForce(target, d + 1, s, k)
    ensures FilledForward(target, d, s) == if k >= 0 then target[k][s] else None
  {
    if target[d][s].Some? {
      k := d;
    } else if d == 0 {
      k := -1;
    } else {
      k := FilledForwardInForce(target, d - 1, s);
    }
  }

  /** What is executed on day d is the latest target decided on an earlier day, and zero before the first decision. */
  lemma ExecutesLatestEarlierDecision(target: Frame, symbols: nat, d: nat, s: nat)
    requires d < |target| && Shaped(target, |target|, symbols) && s < symbols
    ensures exists k ::
      && InForce(target, d, s, k)
      && ExecTarget(target, d, symbols)[s] == if k >= 0 then target[k][s].value else 0.0
  {
    if d == 0 {
      assert InForce(target, 0, s, -1);
    } else {
      var k := FilledForwardInForce(target, d - 1, s);
      assert InForce(target, d, s, k);
    }
  }

  /** The volume a rebalance on day d is capped by is the median of the advWindow days before d, and unknown unless all
      of them are present. */
  lemma AdvIsMedianOfPriorDays(
    prices: PriceData, target: Frame, symbols: nat, cfg: Config, d: nat, s: nat, window: seq<real>)
    requires d < |prices.open| && Aligned(prices, target, |prices.open|, symbols) && s < symbols
    requires prices.volume.Some?
    requires FullWindow(ColumnBefore(prices.volume.value, d, s), d, cfg.advWindow) ==>
      && |window| == cfg.advWindow
      && forall k :: 0 <= k < cfg.advWindow ==>
           window[k] == ColumnBefore(prices.volume.value, d, s)[d - cfg.advWindow + k].value
    ensures InputsOn(prices, target, symbols, cfg, d).adv[s]
         == if FullWindow(ColumnBefore(prices.volume.value, d, s), d, cfg.advWindow) then cfg.numerics.median(window)
            else None
  {
    TrailingIsWindow(ColumnBefore(prices.volume.value, d, s), cfg.advWindow, cfg.numerics.median, window);
  }

  // --- sums ---

  lemma {:induction false} WorthOfSum(a: seq<real>, b: seq<real>, prices: Row, n: nat)
    requires n <= |a| == |b| && n <= |prices|
    ensures Worth(Plus(a, b), prices, n) == Worth(a, prices, n) + Worth(b, prices, n)
  {
    if n > 0 {
      WorthOfSum(a, b, prices, n - 1);
      var p := PriceOrZero(prices[n - 1]);
      assert (a[n - 1] + b[n - 1]) * p == a[n - 1] * p + b[n - 1] * p;
    }
  }

  lemma {:induction false} WorthOfZeros(prices: Row, symbols: nat, n: nat)
    requires n <= symbols && n <= |prices|
    ensures Worth(Zeros(symbols), prices, n) == 0.0
  {
    if n > 0 {
      WorthOfZeros(prices, symbols, n - 1);
    }
  }

  /** What fills made since: each fill times the move from the price it was filled at. */
  function Moved(filled: seq<real>, from: Row, to: Row, n: nat): real
    requires n <= |filled| && n <= |from| && n <= |to|
  {
    if n == 0 then 0.0
    else Moved(filled, from, to, n - 1) + filled[n - 1] * (PriceOrZero(to[n - 1]) - PriceOrZero(from[n - 1]))
  }

  lemma {:induction false} MovedIsDifference(filled: seq<real>, from: Row, to: Row, n: nat)
    requires n <= |filled| && n <= |from| && n <= |to|
    ensures Moved(filled, from, to, n) == Worth(filled, to, n) - Worth(filled, from, n)
  {
    if n > 0 {
      MovedIsDifference(filled, from, to, n - 1);
      var q, a, b := filled[n - 1], PriceOrZero(to[n - 1]), PriceOrZero(from[n - 1]);
      assert q * (a - b) == q * a - q * b;
    }
  }

  // --- the profit and loss identity ---

  /** Profit of the fills of the first k days, valued at the row to. */
  function ProfitTo(dis: seq<DayInputs>, symbols: nat, cfg: Config, k: nat, to: Row): real
    requires k <= |dis| && FitAll(dis, symbols) && |to| == symbols
  {
    if k == 0 then 0.0
    else ProfitTo(dis, symbols, cfg, k - 1, to)
         + Moved(DayOf(dis, symbols, cfg, k - 1).filled, dis[k - 1].open, to, symbols)
  }

  function CostsTo(dis: seq<DayInputs>, symbols: nat, cfg: Config, k: nat): real
    requires k <= |dis| && FitAll(dis, symbols)
  {
    if k == 0 then 0.0 else CostsTo(dis, symbols, cfg, k - 1) + DayOf(dis, symbols, cfg, k - 1).cost
  }

  /** One day: the shares grow by the fills, and the cash falls by what they cost at the open plus the trade cost. */
  lemma StepAccounts(di: DayInputs, b: Book, first: bool, cfg: Config)
    requires Fits(di, |b.shares|)
    ensures
      var (b', day) := Step(di, b, first, cfg);
      && b'.shares == Plus(b.shares, day.filled)
      && b'.cash == b.cash - Worth(day.filled, di.open, |b.shares|) - day.cost
  {
    var (b', day) := Step(di, b, first, cfg);
    if !(first || di.target != b.prevTarget) {
      WorthOfZeros(di.open, |b.shares|, |b.shares|);
      assert b'.shares == Plus(b.shares, day.filled);
    }
  }

  /** One day changes cash plus worth, at any row of prices, by the move of its fills less its cost. */
  lemma StepProfit(di: DayInputs, b: Book, first: bool, cfg: Config, to: Row)
    requires Fits(di, |b.shares|) && |to| == |b.shares|
    ensures
      var (b', day) := Step(di, b, first, cfg);
      b'.cash + Worth(b'.shares, to, |to|)
      == b.cash + Worth(b.shares, to, |to|) + Moved(day.filled, di.open, to, |to|) - day.cost
  {
    var day := Step(di, b, first, cfg).1;
    StepAccounts(di, b, first, cfg);
    WorthOfSum(b.shares, day.filled, to, |to|);
    MovedIsDifference(day.filled, di.open, to, |to|);
  }

  lemma {:induction false} BookIdentity(dis: seq<DayInputs>, symbols: nat, cfg: Config, k: nat, to: Row)
    requires k <= |dis| && FitAll(dis, symbols) && |to| == symbols
    ensures
      var b := BookAfter(dis, symbols, cfg, k);
      b.cash + Worth(b.shares, to, symbols)
      == cfg.initialCapital + ProfitTo(dis, symbols, cfg, k, to) - CostsTo(dis, symbols, cfg, k)
  {
    if k == 0 {
      WorthOfZeros(to, symbols, symbols);
    } else {
      BookIdentity(dis, symbols, cfg, k - 1, to);
      StepProfit(dis[k - 1], BookAfter(dis, symbols, cfg, k - 1), k == 1, cfg, to);
    }
  }

  /** The whole-run profit and loss identity: equity on day d is the initial capital, plus every fill so far times the
      move from its open to the close of day d, less all costs so far. A missing close counts as zero on both sides. */
  lemma ProfitAndLossIdentity(dis: seq<DayInputs>, close: Row, symbols: nat, cfg: Config, d: nat)
    requires d < |dis| && FitAll(dis, symbols) && |close| == symbols
    ensures EquityOn(dis, close, symbols, cfg, d)
         == cfg.initialCapital + ProfitTo(dis, symbols, cfg, d + 1, close) - CostsTo(dis, symbols, cfg, d + 1)
  {
    BookIdentity(dis, symbols, cfg, d + 1, close);
  }

  // --- one rebalance ---

  /** Cash plus holdings at the open fall by exactly the trade cost. */
  lemma RebalanceConservesValue(di: DayInputs, b: Book, cfg: Config)
    requires Fits(di, |b.shares|)
    ensures
      var (b', day) := Rebalance(di, b, cfg);
      EquityAtOpen(di, b') == EquityAtOpen(di, b) - day.cost
  {
    WorthOfSum(b.shares, Filled(di, b, cfg), di.open, |b.shares|);
  }

  /** Every holding ends between where it was and its target, moves no further than the participation cap, reaches the
      target unless the cap binds, and does not move at all if the name cannot be traded. */
  lemma RebalanceHoldings(di: DayInputs, b: Book, cfg: Config, i: nat)
    requires Fits(di, |b.shares|) && i < |b.shares| && cfg.impact.Valid()
    ensures
      var held, now, wanted := b.shares[i], Rebalance(di, b, cfg).0.shares[i], WantedShares(di, b, i);
      && Min(held, wanted) <= now <= Max(held, wanted)
      && (KnownAdv(di.adv[i]) ==> Abs(now - held) <= cfg.impact.maxAdvParticipation * di.adv[i].value)
      && (now == wanted <==>
            !KnownAdv(di.adv[i]) || Abs(wanted - held) <= cfg.impact.maxAdvParticipation * di.adv[i].value)
      && (!Tradeable(di.open[i], di.halted[i]) ==> now == held)
  {
    HoldingMoves(b.shares[i], WantedShares(di, b, i), di.adv[i], cfg.impact.maxAdvParticipation);
    FilledIsCappedMove(di, b, cfg, i);
  }

  lemma FilledIsCappedMove(di: DayInputs, b: Book, cfg: Config, i: nat)
    requires Fits(di, |b.shares|) && i < |b.shares|
    ensures SharesAfter(di, b, cfg)[i]
         == b.shares[i] + CapLane(WantedShares(di, b, i) - b.shares[i], di.adv[i], cfg.impact.maxAdvParticipation)
  {
  }

  lemma HoldingMoves(held: real, wanted: real, adv: Option<real>, participation: real)
    requires participation >= 0.0
    ensures
      var now := held + CapLane(wanted - held, adv, participation);
      && Min(held, wanted) <= now <= Max(held, wanted)
      && (KnownAdv(adv) ==> Abs(now - held) <= participation * adv.value)
      && (now == wanted <==> !KnownAdv(adv) || Abs(wanted - held) <= participation * adv.value)
  {
    CapLaneContract(wanted - held, adv, participation);
  }

  /** What a rebalance charges for a name with an open is the scalar cost of what it filled plus the scalar impact:
      where the array and scalar forms of the cost would differ, at a negative open, nothing is filled. */
  lemma LaneCostIsScalar(di: DayInputs, b: Book, cfg: Config, i: nat)
    requires Fits(di, |b.shares|) && i < |b.shares| && di.open[i].Some? && cfg.cost.Valid()
    ensures
      var p, q := di.open[i].value, Filled(di, b, cfg)[i];
      LaneCost(di.open[i], q, di.adv[i], di.vol[i], cfg)
      == ComputeCosts(SideOf(q), p, q, cfg.cost, cfg.segment).total
         + ComputeImpact(q, p, di.adv[i], di.vol[i], cfg.impact, cfg.numerics.sqrt).cost
  {
    var p, q := di.open[i].value, Filled(di, b, cfg)[i];
    if !Tradeable(di.open[i], di.halted[i]) {
      UntradeableUnfilled(di, b, cfg, i);
    }
    FilledTurnover(p, q);
    FormsAgree([p], [q], cfg.cost, cfg.segment, 0);
    ImpactFormsAgree(q, p, di.adv[i], di.vol[i], cfg.impact, cfg.numerics.sqrt);
  }

  lemma FilledTurnover(p: real, q: real)
    requires q == 0.0 || p > 0.0
    ensures p * Abs(q) >= 0.0
  {
    if q != 0.0 {
      MulNonNegative(p, Abs(q));
    }
  }

  lemma {:induction false} TurnoverPositiveIff(open: Row, filled: seq<real>, n: nat)
    requires n <= |filled| == |open|
    requires forall i :: 0 <= i < n && filled[i] != 0.0 ==> PriceOrZero(open[i]) > 0.0
    ensures Turnover(open, filled, n) >= 0.0
    ensures Turnover(open, filled, n) > 0.0 <==> exists i :: 0 <= i < n && filled[i] != 0.0
  {
    if n > 0 {
      TurnoverPositiveIff(open, filled, n - 1);
      var q, p := filled[n - 1], PriceOrZero(open[n - 1]);
      if q == 0.0 {
        assert Abs(q) * p == 0.0;
      } else {
        assert Abs(q) * p > 0.0;
      }
    }
  }

  /** A rebalance has positive turnover, and so is counted, exactly if it trades something. */
  lemma CountedIffTraded(di: DayInputs, b: Book, cfg: Config)
    requires Fits(di, |b.shares|)
    ensures
      var day := Rebalance(di, b, cfg).1;
      day.turnover > 0.0 <==> exists i :: 0 <= i < |b.shares| && day.filled[i] != 0.0
  {
    var filled := Filled(di, b, cfg);
    forall i | 0 <= i < |b.shares| && filled[i] != 0.0
      ensures PriceOrZero(di.open[i]) > 0.0
    {
      if !Tradeable(di.open[i], di.halted[i]) {
        UntradeableUnfilled(di, b, cfg, i);
      }
    }
    TurnoverPositiveIff(di.open, filled, |b.shares|);
  }

  lemma UntradeableUnfilled(di: DayInputs, b: Book, cfg: Config, i: nat)
    requires Fits(di, |b.shares|) && i < |b.shares| && !Tradeable(di.open[i], di.halted[i])
    ensures Filled(di, b, cfg)[i] == 0.0
  {
  }

  ghost predicate FullyFilled(di: DayInputs, b: Book, cfg: Config)
    requires Fits(di, |b.shares|)
  {
    forall i :: 0 <= i < |b.shares| ==>
      && Tradeable(di.open[i], di.halted[i])
      && (KnownAdv(di.adv[i]) ==>
            Abs(WantedShares(di, b, i) - b.shares[i]) <= cfg.impact.maxAdvParticipation * di.adv[i].value)
  }

  lemma InvestedAmount(open: Option<real>, target: real, held: real, equity: real)
    requires Tradeable(open, false)
    ensures TargetShares(open, false, target, held, equity) * PriceOrZero(open) == equity * target
  {
    assert target * equity / open.value * open.value == target * equity;
  }

  function WantedRow(di: DayInputs, b: Book): (row: seq<real>)
    requires Fits(di, |b.shares|)
    ensures |row| == |b.shares|
  {
    seq(|b.shares|, i requires 0 <= i < |b.shares| => WantedShares(di, b, i))
  }

  lemma {:induction false} WantedWorth(di: DayInputs, b: Book, n: nat)
    requires Fits(di, |b.shares|) && n <= |b.shares|
    requires forall i :: 0 <= i < n ==> Tradeable(di.open[i], di.halted[i])
    ensures Worth(WantedRow(di, b), di.open, n) == EquityAtOpen(di, b) * Sum(di.target[..n])
  {
    if n > 0 {
      var equity, i := EquityAtOpen(di, b), n - 1;
      WantedWorth(di, b, i);
      InvestedAmount(di.open[i], di.target[i], b.shares[i], equity);
      assert di.target[..n][..i] == di.target[..i];
      SumTimes(equity, Sum(di.target[..i]), di.target[i]);
    }
  }

  lemma SumTimes(k: real, a: real, b: real)
    ensures k * (a + b) == k * a + k * b
  {
  }

  /** With every name tradeable and no cap binding, the cash left is the uninvested part of the equity at the open, less
      the trade cost. */
  lemma CashAfterFullRebalance(di: DayInputs, b: Book, cfg: Config)
    requires Fits(di, |b.shares|) && cfg.impact.Valid() && FullyFilled(di, b, cfg)
    ensures
      var (b', day) := Rebalance(di, b, cfg);
      b'.cash == EquityAtOpen(di, b) * (1.0 - Sum(di.target)) - day.cost
  {
    RebalanceConservesValue(di, b, cfg);
    FullyFilledWorth(di, b, cfg);
    UninvestedPart(EquityAtOpen(di, b), Sum(di.target));
  }

  lemma UncappedReachesTarget(di: DayInputs, b: Book, cfg: Config, i: nat)
    requires Fits(di, |b.shares|) && cfg.impact.Valid() && FullyFilled(di, b, cfg) && i < |b.shares|
    ensures SharesAfter(di, b, cfg)[i] == WantedShares(di, b, i)
  {
    FilledIsCappedMove(di, b, cfg, i);
    HoldingMoves(b.shares[i], WantedShares(di, b, i), di.adv[i], cfg.impact.maxAdvParticipation);
  }

  lemma FullyFilledShares(di: DayInputs, b: Book, cfg: Config)
    requires Fits(di, |b.shares|) && cfg.impact.Valid() && FullyFilled(di, b, cfg)
    ensures SharesAfter(di, b, cfg) == WantedRow(di, b)
  {
    forall i | 0 <= i < |b.shares|
      ensures SharesAfter(di, b, cfg)[i] == WantedRow(di, b)[i]
    {
      UncappedReachesTarget(di, b, cfg, i);
    }
  }

  lemma FullyFilledWorth(di: DayInputs, b: Book, cfg: Config)
    requires Fits(di, |b.shares|) && cfg.impact.Valid() && FullyFilled(di, b, cfg)
    ensures Worth(SharesAfter(di, b, cfg), di.open, |b.shares|) == EquityAtOpen(di, b) * Sum(di.target)
  {
    FullyFilledShares(di, b, cfg);
    WantedWorth(di, b, |b.shares|);
    assert di.target[..|b.shares|] == di.target;
  }

  lemma UninvestedPart(equity: real, invested: real)
    ensures equity * (1.0 - invested) == equity - equity * invested
  {
  }

  // --- the book moves only when the target does ---

  lemma {:induction false} PreviousTarget(dis: seq<DayInputs>, symbols: nat, cfg: Config, d: nat)
    requires 0 < d <= |dis| && FitAll(dis, symbols)
    ensures BookAfter(dis, symbols, cfg, d).prevTarget == dis[d - 1].target
  {
    if d > 1 {
      PreviousTarget(dis, symbols, cfg, d - 1);
    }
  }

  lemma StepIdle(di: DayInputs, b: Book, cfg: Config)
    requires Fits(di, |b.shares|) && di.target == b.prevTarget
    ensures Step(di, b, false, cfg) == (b, Day(Zeros(|b.shares|), 0.0, 0.0))
  {
  }

  lemma UnchangedTargetIdle(dis: seq<DayInputs>, symbols: nat, cfg: Config, d: nat)
    requires 0 < d < |dis| && FitAll(dis, symbols) && dis[d].target == dis[d - 1].target
    ensures BookAfter(dis, symbols, cfg, d + 1) == BookAfter(dis, symbols, cfg, d)
    ensures DayOf(dis, symbols, cfg, d) == Day(Zeros(symbols), 0.0, 0.0)
  {
    PreviousTarget(dis, symbols, cfg, d);
    StepIdle(dis[d], BookAfter(dis, symbols, cfg, d), cfg);
  }

  /** Shares and cash do not move over a stretch of days with the same executed target, however the first day's orders
      were capped or blocked; such days have no fills, costs or turnover. */
  lemma {:induction false} ConstantBetweenChanges(
    dis: seq<DayInputs>, symbols: nat, cfg: Config, from: nat, d: nat)
    requires from <= d < |dis| && FitAll(dis, symbols)
    requires forall k :: from <= k <= d ==> dis[k].target == dis[from].target
    ensures BookAfter(dis, symbols, cfg, d + 1) == BookAfter(dis, symbols, cfg, from + 1)
    ensures d > from ==> DayOf(dis, symbols, cfg, d) == Day(Zeros(symbols), 0.0, 0.0)
  {
    if d > from {
      ConstantBetweenChanges(dis, symbols, cfg, from, d - 1);
      assert dis[d].target == dis[d - 1].target;
      UnchangedTargetIdle(dis, symbols, cfg, d);
    }
  }

  lemma {:induction false} TurnoverOfZeros(open: Row, symbols: nat, n: nat)
    requires n <= symbols == |open|
    ensures Turnover(open, Zeros(symbols), n) == 0.0
  {
    if n > 0 {
      TurnoverOfZeros(open, symbols, n - 1);
    }
  }

  lemma NothingWanted(open: Option<real>, halted: bool, equity: real)
    ensures Desired(open, halted, 0.0, 0.0, equity) == 0.0
  {
    if Tradeable(open, halted) {
      assert 0.0 * equity == 0.0;
    }
  }

  /** From an empty book, a zero target trades nothing. */
  lemma ZeroTargetIdle(di: DayInputs, cash: real, symbols: nat, cfg: Config)
    requires Fits(di, symbols) && di.target == Zeros(symbols)
    ensures
      var day := Rebalance(di, Book(Zeros(symbols), cash, Zeros(symbols)), cfg).1;
      day.filled == Zeros(symbols) && day.turnover == 0.0
  {
    var b := Book(Zeros(symbols), cash, Zeros(symbols));
    forall i | 0 <= i < symbols
      ensures FilledQuantity(di, b, cfg, i) == 0.0
    {
      NothingWanted(di.open[i], di.halted[i], EquityAtOpen(di, b));
    }
    assert Filled(di, b, cfg) == Zeros(symbols);
    TurnoverOfZeros(di.open, symbols, symbols);
  }

  /** On the first day the executed target is zero and nothing is held, so nothing trades. */
  lemma FirstDayIsIdle(dis: seq<DayInputs>, symbols: nat, cfg: Config)
    requires 0 < |dis| && FitAll(dis, symbols) && dis[0].target == Zeros(symbols)
    ensures DayOf(dis, symbols, cfg, 0).turnover == 0.0
    ensures DayOf(dis, symbols, cfg, 0).filled == Zeros(symbols)
  {
    ZeroTargetIdle(dis[0], cfg.initialCapital, symbols, cfg);
  }

  function TurnoverSeries(dis: seq<DayInputs>, symbols: nat, cfg: Config, d: nat): (r: seq<real>)
    requires d <= |dis| && FitAll(dis, symbols)
    ensures |r| == d
  {
    seq(d, k requires 0 <= k < d && FitAll(dis, symbols) => DayOf(dis, symbols, cfg, k).turnover)
  }

  /** Days, among the first d, on which the executed target differs from the day before. */
  function TargetChanges(dis: seq<DayInputs>, d: nat): nat
    requires d <= |dis|
  {
    if d <= 1 then 0 else TargetChanges(dis, d - 1) + if dis[d - 1].target != dis[d - 2].target then 1 else 0
  }

  lemma UnchangedDayIdle(dis: seq<DayInputs>, symbols: nat, cfg: Config, d: nat)
    requires d < |dis| && FitAll(dis, symbols) && dis[0].target == Zeros(symbols)
    requires d > 0 ==> dis[d].target == dis[d - 1].target
    ensures DayOf(dis, symbols, cfg, d).turnover == 0.0
  {
    if d == 0 {
      FirstDayIsIdle(dis, symbols, cfg);
    } else {
      UnchangedTargetIdle(dis, symbols, cfg, d);
    }
  }

  lemma TurnoverSeriesFront(dis: seq<DayInputs>, symbols: nat, cfg: Config, d: nat)
    requires 0 < d <= |dis| && FitAll(dis, symbols)
    ensures TurnoverSeries(dis, symbols, cfg, d)[..d - 1] == TurnoverSeries(dis, symbols, cfg, d - 1)
  {
  }

  lemma LastDayCounts(dis: seq<DayInputs>, symbols: nat, cfg: Config, d: nat)
    requires 0 < d <= |dis| && FitAll(dis, symbols) && dis[0].target == Zeros(symbols)
    ensures TurnoverSeries(dis, symbols, cfg, d)[d - 1] > 0.0 ==> d > 1 && dis[d - 1].target != dis[d - 2].target
  {
    if d == 1 || dis[d - 1].target == dis[d - 2].target {
      UnchangedDayIdle(dis, symbols, cfg, d - 1);
    }
  }

  lemma {:induction false} RebalancesOfSchedule(dis: seq<DayInputs>, symbols: nat, cfg: Config, d: nat)
    requires d <= |dis| && FitAll(dis, symbols) && (|dis| > 0 ==> dis[0].target == Zeros(symbols))
    ensures Rebalances(TurnoverSeries(dis, symbols, cfg, d)) <= TargetChanges(dis, d)
  {
    if d > 0 {
      RebalancesOfSchedule(dis, symbols, cfg, d - 1);
      TurnoverSeriesFront(dis, symbols, cfg, d);
      LastDayCounts(dis, symbols, cfg, d);
    }
  }

  /** No more days trade than days on which the executed target changes. */
  lemma RebalancesBounded(prices: PriceData, target: Frame, symbols: nat, cfg: Config)
    requires Aligned(prices, target, |prices.open|, symbols)
    ensures
      var dis := Schedule(prices, target, symbols, cfg);
      Rebalances(TurnoverSeries(dis, symbols, cfg, |dis|)) <= TargetChanges(dis, |dis|)
  {
    var dis := Schedule(prices, target, symbols, cfg);
    if |dis| > 0 {
      assert dis[0].target == ExecTarget(target, 0, symbols) == Zeros(symbols);
    }
    RebalancesOfSchedule(dis, symbols, cfg, |dis|);
  }

  // --- realised weights ---

  lemma WeightTimesEquity(held: real, price: Option<real>, equity: real)
    requires equity != 0.0
    ensures equity * RealisedWeight(held, price, equity) == held * PriceOrZero(price)
  {
    if price.Some? {
      var value := held * price.value;
      assert equity * (value / equity) == value;
    }
  }

  /** Each weight of the row, times the equity, is the worth of its holding. */
  ghost predicate Weighs(row: seq<real>, shares: seq<real>, close: Row, equity: real)
    requires |row| == |shares| <= |close|
  {
    forall i :: 0 <= i < |row| ==> equity * row[i] == shares[i] * PriceOrZero(close[i])
  }

  lemma {:induction false} WeighsWorth(row: seq<real>, shares: seq<real>, close: Row, equity: real, n: nat)
    requires n <= |row| == |shares| <= |close| && Weighs(row, shares, close, equity)
    ensures equity * Sum(row[..n]) == Worth(shares, close, n)
  {
    if n > 0 {
      WeighsWorth(row, shares, close, equity, n - 1);
      assert row[..n][..n - 1] == row[..n - 1];
      SumTimes(equity, Sum(row[..n - 1]), row[n - 1]);
    }
  }

  /** What is left of the equity when the weights of the row are taken out. */
  function Rest(equity: real, row: seq<real>): real {
    equity * (1.0 - Sum(row))
  }

  lemma RestOfProduct(equity: real, invested: real, cash: real, worth: real)
    requires equity == cash + worth && equity * invested == worth
    ensures equity * (1.0 - invested) == cash
  {
    UninvestedPart(equity, invested);
  }

  lemma RowWorth(row: seq<real>, shares: seq<real>, close: Row, equity: real)
    requires |row| == |shares| <= |close| && Weighs(row, shares, close, equity)
    ensures equity * Sum(row) == Worth(shares, close, |row|)
  {
    assert row[..|row|] == row;
    WeighsWorth(row, shares, close, equity, |row|);
  }

  lemma RestIs(equity: real, row: seq<real>, cash: real, worth: real)
    requires equity == cash + worth && equity * Sum(row) == worth
    ensures Rest(equity, row) == cash
  {
    RestOfProduct(equity, Sum(row), cash, worth);
  }

  lemma WeighsRest(row: seq<real>, shares: seq<real>, close: Row, equity: real, cash: real)
    requires |row| == |shares| <= |close| && Weighs(row, shares, close, equity)
    requires equity == cash + Worth(shares, close, |row|)
    ensures Rest(equity, row) == cash
  {
    RowWorth(row, shares, close, equity);
    RestIs(equity, row, cash, Worth(shares, close, |row|));
  }

  lemma RealisedWeighs(shares: seq<real>, close: Row, equity: real)
    requires |shares| <= |close| && equity != 0.0
    ensures Weighs(RealisedRow(shares, close, equity), shares, close, equity)
  {
    forall i | 0 <= i < |shares|
      ensures equity * RealisedRow(shares, close, equity)[i] == shares[i] * PriceOrZero(close[i])
    {
      WeightTimesEquity(shares[i], close[i], equity);
    }
  }

  /** Whatever the realised weights of a day leave of its equity is the cash. */
  lemma RealisedWeightsLeaveCash(dis: seq<DayInputs>, close: Row, symbols: nat, cfg: Config, d: nat)
    requires d < |dis| && FitAll(dis, symbols) && |close| == symbols
    requires EquityOn(dis, close, symbols, cfg, d) != 0.0
    ensures
      var b, equity := BookAfter(dis, symbols, cfg, d + 1), EquityOn(dis, close, symbols, cfg, d);
      Rest(equity, RealisedRow(b.shares, close, equity)) == b.cash
  {
    var b, equity := BookAfter(dis, symbols, cfg, d + 1), EquityOn(dis, close, symbols, cfg, d);
    RealisedWeighs(b.shares, close, equity);
    WeighsRest(RealisedRow(b.shares, close, equity), b.shares, close, equity, b.cash);
  }
}
