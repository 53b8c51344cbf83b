/** The backtest as functions on values: what the engine knows on each day, what a rebalance does to the book, and the
    book after each day. Frames are rows of dates by columns of symbols, already aligned; a missing cell is None. */
module BacktestModel {
  import opened Numbers
  import opened Frames
  import opened Costs
  import opened Impact

  datatype PriceData = PriceData(
    open: Frame,
    close: Frame,
    volume: Option<Frame>,
    halted: Option<seq<seq<bool>>>)

  /** The numerical routines the engine calls on a full trailing window, and one switch: whether percentage changes
      are taken over forward-filled closes, which depends on the pandas release. */
  datatype Numerics = Numerics(
    median: seq<real> -> Option<real>,
    stdev: seq<real> -> Option<real>,
    sqrt: real -> real,
    padReturns: bool)

  datatype Config = Config(
    cost: CostConfig,
    impact: ImpactConfig,
    initialCapital: real,
    segment: Segment,
    volWindow: nat,
    advWindow: nat,
    numerics: Numerics)

  predicate ShapedMask(mask: seq<seq<bool>>, days: nat, symbols: nat) {
    |mask| == days && forall d :: 0 <= d < days ==> |mask[d]| == symbols
  }

  predicate Aligned(prices: PriceData, target: Frame, days: nat, symbols: nat) {
    && Shaped(prices.open, days, symbols)
    && Shaped(prices.close, days, symbols)
    && Shaped(target, days, symbols)
    && (prices.volume.Some? ==> Shaped(prices.volume.value, days, symbols))
    && (prices.halted.Some? ==> ShapedMask(prices.halted.value, days, symbols))
  }

  // --- what is known on a day ---

  /** The target executed on day d was decided on an earlier day; before any decision it is zero. */
  function ExecTarget(target: Frame, d: nat, symbols: nat): (row: seq<real>)
    requires d < |target| && Shaped(target, |target|, symbols)
    ensures |row| == symbols
  {
    seq(symbols, s requires 0 <= s < symbols =>
      if d == 0 then 0.0 else FilledForward(target, d - 1, s).GetOr(0.0))
  }

  /** The first d entries of a column: what is known the day before d. */
  function ColumnBefore(frame: Frame, d: nat, s: nat): seq<Option<real>>
    requires d <= |frame| && forall k :: 0 <= k < d ==> s < |frame[k]|
  {
    seq(d, k requires 0 <= k < d => frame[k][s])
  }

  function PaddedClose(frame: Frame, d: nat, s: nat, pad: bool): Option<real>
    requires d < |frame| && forall k :: 0 <= k <= d ==> s < |frame[k]|
  {
    if pad then FilledForward(frame, d, s) else frame[d][s]
  }

  /** Percentage changes for the days before d; the first has none, and a change from zero counts as missing. */
  function ReturnsBefore(frame: Frame, d: nat, s: nat, pad: bool): seq<Option<real>>
    requires d <= |frame| && forall k :: 0 <= k < d ==> s < |frame[k]|
  {
    seq(d, k requires 0 <= k < d =>
      if k == 0 then None
      else
        var now, before := PaddedClose(frame, k, s, pad), PaddedClose(frame, k - 1, s, pad);
        if now.Some? && before.Some? && before.value != 0.0 then Some(now.value / before.value - 1.0) else None)
  }

  /** Everything a rebalance on day d reads, apart from the book. */
  datatype DayInputs = DayInputs(open: Row, target: seq<real>, adv: Row, vol: Row, halted: seq<bool>)

  function InputsOn(prices: PriceData, target: Frame, symbols: nat, cfg: Config, d: nat): (di: DayInputs)
    requires d < |prices.open| && Aligned(prices, target, |prices.open|, symbols)
    ensures |di.open| == |di.target| == |di.adv| == |di.vol| == |di.halted| == symbols
  {
    DayInputs(
      prices.open[d],
      ExecTarget(target, d, symbols),
      seq(symbols, s requires 0 <= s < symbols =>
        if prices.volume.None? then None
        else Trailing(ColumnBefore(prices.volume.value, d, s), cfg.advWindow, cfg.numerics.median)),
      seq(symbols, s requires 0 <= s < symbols =>
        Trailing(ReturnsBefore(prices.close, d, s, cfg.numerics.padReturns), cfg.volWindow, cfg.numerics.stdev)),
      if prices.halted.None? then seq(symbols, s => false) else prices.halted.value[d])
  }

  // --- a rebalance, symbol by symbol ---

  predicate Tradeable(open: Option<real>, halted: bool) {
    open.Some? && open.value > 0.0 && !halted
  }

  function PriceOrZero(p: Option<real>): real {
    p.GetOr(0.0)
  }

  /** Value of the first n holdings at the given prices; a holding without a price counts as nothing. */
  function Worth(shares: seq<real>, prices: Row, n: nat): real
    requires n <= |shares| && n <= |prices|
  {
    if n == 0 then 0.0 else Worth(shares, prices, n - 1) + shares[n - 1] * PriceOrZero(prices[n - 1])
  }

  /** The share count that a target weight asks for; a name that cannot be traded asks for what it holds. */
  function TargetShares(open: Option<real>, halted: bool, target: real, held: real, equity: real): real {
    if Tradeable(open, halted) then target * equity / open.value else held
  }

  function Desired(open: Option<real>, halted: bool, target: real, held: real, equity: real): real {
    if Tradeable(open, halted) then TargetShares(open, halted, target, held, equity) - held else 0.0
  }

  /** A trade costs its explicit charges and its impact; a lane without a price is dropped from the sum. */
  function LaneCost(open: Option<real>, filled: real, adv: Option<real>, vol: Option<real>, cfg: Config): real {
    match open
    case None => 0.0
    case Some(p) =>
      TotalCost(p, filled, cfg.cost, cfg.segment) + ImpactCost(filled, p, adv, vol, cfg.impact, cfg.numerics.sqrt)
  }

  function TradeCost(di: DayInputs, filled: seq<real>, cfg: Config, n: nat): real
    requires n <= |filled| == |di.open| == |di.adv| == |di.vol|
  {
    if n == 0 then 0.0
    else TradeCost(di, filled, cfg, n - 1)
         + LaneCost(di.open[n - 1], filled[n - 1], di.adv[n - 1], di.vol[n - 1], cfg)
  }

  function Turnover(open: Row, filled: seq<real>, n: nat): real
    requires n <= |filled| == |open|
  {
    if n == 0 then 0.0 else Turnover(open, filled, n - 1) + Abs(filled[n - 1]) * PriceOrZero(open[n - 1])
  }

  datatype Book = Book(shares: seq<real>, cash: real, prevTarget: seq<real>)

  /** What happened on one day. */
  datatype Day = Day(filled: seq<real>, cost: real, turnover: real)

  predicate Fits(di: DayInputs, symbols: nat) {
    |di.open| == |di.target| == |di.adv| == |di.vol| == |di.halted| == symbols
  }

  function EquityAtOpen(di: DayInputs, b: Book): real
    requires Fits(di, |b.shares|)
  {
    b.cash + Worth(b.shares, di.open, |b.shares|)
  }

  function WantedShares(di: DayInputs, b: Book, i: nat): real
    requires Fits(di, |b.shares|) && i < |b.shares|
  {
    TargetShares(di.open[i], di.halted[i], di.target[i], b.shares[i], EquityAtOpen(di, b))
  }

  function FilledQuantity(di: DayInputs, b: Book, cfg: Config, i: nat): real
    requires Fits(di, |b.shares|) && i < |b.shares|
  {
    CapLane(
      Desired(di.open[i], di.halted[i], di.target[i], b.shares[i], EquityAtOpen(di, b)),
      di.adv[i],
      cfg.impact.maxAdvParticipation)
  }

  function Filled(di: DayInputs, b: Book, cfg: Config): (filled: seq<real>)
    requires Fits(di, |b.shares|)
    ensures |filled| == |b.shares|
  {
    seq(|b.shares|, i requires 0 <= i < |b.shares| => FilledQuantity(di, b, cfg, i))
  }

  function Plus(a: seq<real>, b: seq<real>): (c: seq<real>)
    requires |a| == |b|
    ensures |c| == |a|
  {
    seq(|a|, i requires 0 <= i < |a| => a[i] + b[i])
  }

  function Zeros(n: nat): (z: seq<real>)
    ensures |z| == n && forall i :: 0 <= i < n ==> z[i] == 0.0
  {
    seq(n, i => 0.0)
  }

  function SharesAfter(di: DayInputs, b: Book, cfg: Config): (shares: seq<real>)
    requires Fits(di, |b.shares|)
    ensures |shares| == |b.shares|
  {
    Plus(b.shares, Filled(di, b, cfg))
  }

  function Rebalance(di: DayInputs, b: Book, cfg: Config): (r: (Book, Day))
    requires Fits(di, |b.shares|)
    ensures |r.0.shares| == |r.1.filled| == |b.shares|
  {
    var n := |b.shares|;
    var filled := Filled(di, b, cfg);
    var cost := TradeCost(di, filled, cfg, n);
    (Book(SharesAfter(di, b, cfg), b.cash - Worth(filled, di.open, n) - cost, di.target),
     Day(filled, cost, Turnover(di.open, filled, n)))
  }

  /** The book is touched on the first day and whenever the executed target changes. */
  function Step(di: DayInputs, b: Book, first: bool, cfg: Config): (r: (Book, Day))
    requires Fits(di, |b.shares|)
    ensures |r.0.shares| == |r.1.filled| == |b.shares|
  {
    if first || di.target != b.prevTarget then
      Rebalance(di, b, cfg)
    else
      (b, Day(Zeros(|b.shares|), 0.0, 0.0))
  }

  // --- the run ---

  ghost predicate FitAll(dis: seq<DayInputs>, symbols: nat) {
    forall d :: 0 <= d < |dis| ==> Fits(dis[d], symbols)
  }

  function Opening(symbols: nat, cfg: Config): (b: Book)
    ensures |b.shares| == symbols
  {
    Book(Zeros(symbols), cfg.initialCapital, Zeros(symbols))
  }

  /** The book after the first d days. */
  function BookAfter(dis: seq<DayInputs>, symbols: nat, cfg: Config, d: nat): (b: Book)
    requires d <= |dis| && FitAll(dis, symbols)
    ensures |b.shares| == symbols
  {
    if d == 0 then Opening(symbols, cfg)
    else Step(dis[d - 1], BookAfter(dis, symbols, cfg, d - 1), d == 1, cfg).0
  }

  /** What happened on day d. */
  function DayOf(dis: seq<DayInputs>, symbols: nat, cfg: Config, d: nat): (day: Day)
    requires d < |dis| && FitAll(dis, symbols)
    ensures |day.filled| == symbols
  {
    Step(dis[d], BookAfter(dis, symbols, cfg, d), d == 0, cfg).1
  }

  /** The inputs of every day, read off the frames. */
  function Schedule(prices: PriceData, target: Frame, symbols: nat, cfg: Config): (dis: seq<DayInputs>)
    requires Aligned(prices, target, |prices.open|, symbols)
    ensures |dis| == |prices.open| && FitAll(dis, symbols)
  {
    seq(|prices.open|, d requires 0 <= d < |prices.open| => InputsOn(prices, target, symbols, cfg, d))
  }

  /** The book valued at a row of closes. */
  function EquityOn(dis: seq<DayInputs>, close: Row, symbols: nat, cfg: Config, d: nat): real
    requires d < |dis| && FitAll(dis, symbols) && |close| == symbols
  {
    var b := BookAfter(dis, symbols, cfg, d + 1);
    b.cash + Worth(b.shares, close, symbols)
  }

  // --- outputs derived from the records ---

  /** The change of an equity curve into day d. It is zero on the first day and where nothing comes after nothing; None
      stands for the infinite change away from zero. */
  function ReturnOn(equity: seq<real>, d: nat): Option<real>
    requires d < |equity|
  {
    if d == 0 then Some(0.0)
    else if equity[d - 1] != 0.0 then Some(equity[d] / equity[d - 1] - 1.0)
    else if equity[d] == 0.0 then Some(0.0)
    else None
  }

  function ReturnSeries(equity: seq<real>): (r: seq<Option<real>>)
    ensures |r| == |equity|
  {
    seq(|equity|, d requires 0 <= d < |equity| => ReturnOn(equity, d))
  }

  /** The part of the equity a holding makes up; zero without a price, and where the equity is zero. */
  function RealisedWeight(held: real, price: Option<real>, equity: real): real {
    if price.Some? && equity != 0.0 then held * price.value / equity else 0.0
  }

  function RealisedRow(shares: seq<real>, close: Row, equity: real): (row: seq<real>)
    requires |shares| <= |close|
    ensures |row| == |shares|
  {
    seq(|shares|, i requires 0 <= i < |shares| => RealisedWeight(shares[i], close[i], equity))
  }

  /** Days whose turnover is positive, among the first d. */
  function Rebalances(turnover: seq<real>): nat
    decreases |turnover|
  {
    if turnover == [] then 0
    else Rebalances(turnover[..|turnover| - 1]) + if turnover[|turnover| - 1] > 0.0 then 1 else 0
  }
}
