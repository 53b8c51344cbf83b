/** The pairs signal as an automaton over a stream of z-scores, and the leg weights it produces. */
module PairsModel {
  import opened Numbers
  import opened Frames

  datatype PairConfig = PairConfig(
    entryZscore: real,
    exitZscore: real,
    stopZscore: real,
    zscoreWindow: nat,
    grossPerPair: real,
    breakHalfLifeMult: real,
    breakMaxNoCross: int)

  /** The legs are columns of the close frame. A half-life that is not finite is None. */
  datatype ValidatedPair = ValidatedPair(
    y: nat, x: nat, hedgeRatio: real, intercept: real, halfLife: Option<real>)

  /** How many bars the spread may go without crossing its mean. */
  function MaxNoCross(pair: ValidatedPair, cfg: PairConfig): real {
    var cap := cfg.breakMaxNoCross as real;
    if pair.halfLife.Some? && pair.halfLife.value > 0.0 then Min(cfg.breakHalfLifeMult * pair.halfLife.value, cap)
    else cap
  }

  /** pos is +1 long the spread, -1 short, 0 flat; broken retires the pair. */
  datatype Signal = Signal(pos: int, entryRatio: real, broken: bool, prevSign: int, barsNoCross: nat)

  const START := Signal(0, 0.0, false, 0, 0)

  predicate Exits(pos: int, z: real, cfg: PairConfig) {
    || (pos == 1 && (z >= cfg.exitZscore || z <= -cfg.stopZscore))
    || (pos == -1 && (z <= cfg.exitZscore || z >= cfg.stopZscore))
  }

  function Entry(z: real, cfg: PairConfig): int {
    if z <= -cfg.entryZscore then 1 else if z >= cfg.entryZscore then -1 else 0
  }

  /** One bar. The dollar hedge ratio is frozen at entry. */
  function Next(s: Signal, z: Option<real>, ratio: real, maxNoCross: real, cfg: PairConfig): Signal {
    if s.broken || z.None? then s
    else
      var sign := Sign(z.value);
      var crossed := s.prevSign != 0 && sign != 0 && sign != s.prevSign;
      var bars := if crossed then 0 else s.barsNoCross + 1;
      var prevSign := if sign != 0 then sign else s.prevSign;
      if bars as real > maxNoCross then
        Signal(0, s.entryRatio, true, prevSign, bars)
      else if s.pos == 0 then
        var pos := Entry(z.value, cfg);
        Signal(pos, if pos != 0 then ratio else s.entryRatio, false, prevSign, bars)
      else
        Signal(if Exits(s.pos, z.value, cfg) then 0 else s.pos, s.entryRatio, false, prevSign, bars)
  }

  /** The automaton after the first i bars. */
  function SignalAfter(
    z: seq<Option<real>>, ratios: seq<real>, maxNoCross: real, cfg: PairConfig, i: nat): Signal
    requires i <= |z| == |ratios|
  {
    if i == 0 then START
    else Next(SignalAfter(z, ratios, maxNoCross, cfg, i - 1), z[i - 1], ratios[i - 1], maxNoCross, cfg)
  }

  function LegY(s: Signal, cfg: PairConfig): real {
    s.pos as real * cfg.grossPerPair
  }

  function LegX(s: Signal, cfg: PairConfig): real {
    if s.pos != 0 then -(s.pos as real) * cfg.grossPerPair * s.entryRatio else 0.0
  }

  // --- from closes to z-scores ---

  function Residual(y: Option<real>, x: Option<real>, pair: ValidatedPair): Option<real> {
    if y.Some? && x.Some? then Some(y.value - (pair.intercept + pair.hedgeRatio * x.value)) else None
  }

  function Spread(cy: seq<Option<real>>, cx: seq<Option<real>>, pair: ValidatedPair): seq<Option<real>>
    requires |cy| == |cx|
  {
    seq(|cy|, i requires 0 <= i < |cy| => Residual(cy[i], cx[i], pair))
  }

  function Mean(values: seq<real>): Option<real> {
    if values == [] then None else Some(Sum(values) / |values| as real)
  }

  /** The distance of the last spread from its rolling mean in rolling deviations; a zero deviation gives no score. */
  function ZScore(spread: seq<Option<real>>, i: nat, window: nat, stdev: seq<real> -> Option<real>): Option<real>
    requires i < |spread|
  {
    var mean := Trailing(spread[..i + 1], window, Mean);
    var std := Trailing(spread[..i + 1], window, stdev);
    if spread[i].Some? && mean.Some? && std.Some? && std.value != 0.0 then
      Some((spread[i].value - mean.value) / std.value)
    else
      None
  }

  function ZScores(
    cy: seq<Option<real>>, cx: seq<Option<real>>, pair: ValidatedPair, cfg: PairConfig,
    stdev: seq<real> -> Option<real>)
    : (z: seq<Option<real>>)
    requires |cy| == |cx|
    ensures |z| == |cy|
  {
    var spread := Spread(cy, cx, pair);
    seq(|cy|, i requires 0 <= i < |cy| => ZScore(spread, i, cfg.zscoreWindow, stdev))
  }

  /** Dollar hedge ratio of each bar, used only where a position is entered. Without both closes there is no z-score and
      no entry; where the first leg closes at zero the ratio is undefined and stands as zero here. */
  function HedgeRatios(cy: seq<Option<real>>, cx: seq<Option<real>>, pair: ValidatedPair): (r: seq<real>)
    requires |cy| == |cx|
    ensures |r| == |cy|
  {
    seq(|cy|, i requires 0 <= i < |cy| =>
      if cy[i].Some? && cx[i].Some? && cy[i].value != 0.0 then pair.hedgeRatio * cx[i].value / cy[i].value else 0.0)
  }

  // --- the strategy: leg weights of all pairs, accumulated by column ---

  function Column(frame: Frame, symbols: nat, s: nat): (c: seq<Option<real>>)
    requires Shaped(frame, |frame|, symbols) && s < symbols
    ensures |c| == |frame|
  {
    seq(|frame|, d requires 0 <= d < |frame| => frame[d][s])
  }

  predicate Traded(pair: ValidatedPair, symbols: nat) {
    pair.y < symbols && pair.x < symbols
  }

  datatype Strategy = Strategy(pairs: seq<ValidatedPair>, cfg: PairConfig, stdev: seq<real> -> Option<real>)

  function PairScores(close: Frame, symbols: nat, pair: ValidatedPair, st: Strategy): (z: seq<Option<real>>)
    requires Shaped(close, |close|, symbols) && Traded(pair, symbols)
    ensures |z| == |close|
  {
    ZScores(Column(close, symbols, pair.y), Column(close, symbols, pair.x), pair, st.cfg, st.stdev)
  }

  function PairRatios(close: Frame, symbols: nat, pair: ValidatedPair): (r: seq<real>)
    requires Shaped(close, |close|, symbols) && Traded(pair, symbols)
    ensures |r| == |close|
  {
    HedgeRatios(Column(close, symbols, pair.y), Column(close, symbols, pair.x), pair)
  }

  /** The pair's signal at the close of bar d. */
  function PairSignal(close: Frame, symbols: nat, pair: ValidatedPair, st: Strategy, d: nat): Signal
    requires Shaped(close, |close|, symbols) && Traded(pair, symbols) && d < |close|
  {
    SignalAfter(
      PairScores(close, symbols, pair, st), PairRatios(close, symbols, pair), MaxNoCross(pair, st.cfg), st.cfg, d + 1)
  }

  /** The pair enters a position on a bar whose first leg closed at zero: the division by that close raises. */
  predicate EntersAtZero(close: Frame, symbols: nat, pair: ValidatedPair, st: Strategy, d: nat)
    requires Shaped(close, |close|, symbols) && Traded(pair, symbols) && d < |close|
  {
    && close[d][pair.y] == Some(0.0)
    && (d == 0 || PairSignal(close, symbols, pair, st, d - 1).pos == 0)
    && PairSignal(close, symbols, pair, st, d).pos != 0
  }

  /** Weight of a column on bar d from the first k pairs. */
  function ColumnWeight(close: Frame, symbols: nat, st: Strategy, k: nat, d: nat, s: nat): real
    requires Shaped(close, |close|, symbols) && d < |close|
    requires k <= |st.pairs| && forall p :: p in st.pairs ==> Traded(p, symbols)
  {
    if k == 0 then 0.0
    else
      var pair := st.pairs[k - 1];
      var signal := PairSignal(close, symbols, pair, st, d);
      ColumnWeight(close, symbols, st, k - 1, d, s)
      + (if pair.y == s then LegY(signal, st.cfg) else 0.0)
      + (if pair.x == s then LegX(signal, st.cfg) else 0.0)
  }

  /** The target frame handed to the engine. */
  function TargetWeights(close: Frame, symbols: nat, st: Strategy): (target: Frame)
    requires Shaped(close, |close|, symbols) && forall p :: p in st.pairs ==> Traded(p, symbols)
    ensures Shaped(target, |close|, symbols)
  {
    seq(|close|, d requires 0 <= d < |close| => TargetRow(close, symbols, st, d))
  }

  function TargetRow(close: Frame, symbols: nat, st: Strategy, d: nat): (row: Row)
    requires Shaped(close, |close|, symbols) && d < |close| && forall p :: p in st.pairs ==> Traded(p, symbols)
    ensures |row| == symbols
  {
    seq(symbols, s requires 0 <= s < symbols => Some(ColumnWeight(close, symbols, st, |st.pairs|, d, s)))
  }
}
