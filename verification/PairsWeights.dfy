/** What the pairs strategy holds, from the closes: how a close becomes a z-score, and what the two legs of a pair and
    the columns of the weight frame are. */
module PairsWeights {
  import opened Numbers
  import opened Frames
  import opened PairsModel
  import opened PairsTheorems

  // --- scores ---

  /** The spread is what the regression of the first leg on the second leaves over, and missing if a close is. */
  lemma SpreadIs(cy: seq<Option<real>>, cx: seq<Option<real>>, pair: ValidatedPair, i: nat)
    requires i < |cy| == |cx|
    ensures |Spread(cy, cx, pair)| == |cy|
    ensures
      match Spread(cy, cx, pair)[i]
      case Some(left) =>
        cy[i].Some? && cx[i].Some? && cy[i].value == pair.intercept + pair.hedgeRatio * cx[i].value + left
      case None => cy[i].None? || cx[i].None?
  {
  }

  lemma MeanIs(window: seq<real>)
    ensures window == [] ==> Mean(window) == None
    ensures window != [] ==> Mean(window).Some? && Mean(window).value * |window| as real == Sum(window)
  {
  }

  lemma ScoreIs(spread: seq<Option<real>>, i: nat, w: nat, stdev: seq<real> -> Option<real>, window: seq<real>)
    requires i < |spread|
    requires FullWindow(spread[..i + 1], i + 1, w) ==>
      |window| == w && forall k :: 0 <= k < w ==> window[k] == spread[..i + 1][i + 1 - w + k].value
    ensures
      match ZScore(spread, i, w, stdev)
      case Some(z) =>
        && FullWindow(spread[..i + 1], i + 1, w) && w > 0 && stdev(window).Some? && spread[i].Some?
        && Standardises(z, spread[i].value, window, stdev(window).value)
      case None =>
        !FullWindow(spread[..i + 1], i + 1, w) || w == 0 || stdev(window).None? || stdev(window).value == 0.0
  {
    var past := spread[..i + 1];
    TrailingIsWindow(past, w, Mean, window);
    TrailingIsWindow(past, w, stdev, window);
    MeanIs(window);
    if FullWindow(past, i + 1, w) && w > 0 {
      assert past[i].Some?;
    }
    var z := ZScore(spread, i, w, stdev);
    if z.Some? {
      DeviationsFromMean(spread[i].value, Mean(window).value, stdev(window).value);
    }
  }

  /** Taking z deviations off the value leaves the mean of the window. */
  predicate Standardises(z: real, value: real, window: seq<real>, deviation: real) {
    (value - z * deviation) * |window| as real == Sum(window)
  }

  /** The residual of the regression on a bar with both closes. */
  predicate Leaves(close: Frame, symbols: nat, pair: ValidatedPair, k: nat, left: real)
    requires Shaped(close, |close|, symbols) && Traded(pair, symbols) && k < |close|
  {
    && close[k][pair.y].Some? && close[k][pair.x].Some?
    && close[k][pair.y].value == pair.intercept + pair.hedgeRatio * close[k][pair.x].value + left
  }

  /** The w bars that end with bar i are all there, with both closes; window holds their residuals. */
  predicate ResidualWindow(
    close: Frame, symbols: nat, pair: ValidatedPair, i: nat, w: nat, window: seq<real>)
    requires Shaped(close, |close|, symbols) && Traded(pair, symbols) && i < |close|
  {
    && 0 < w <= i + 1 && |window| == w
    && forall k :: 0 <= k < w ==> Leaves(close, symbols, pair, i + 1 - w + k, window[k])
  }

  lemma ResidualIs(y: Option<real>, x: Option<real>, pair: ValidatedPair, left: real)
    ensures Residual(y, x, pair) == Some(left)
       <==> y.Some? && x.Some? && y.value == pair.intercept + pair.hedgeRatio * x.value + left
  {
  }

  lemma SpreadLeaves(close: Frame, symbols: nat, pair: ValidatedPair, k: nat, left: real)
    requires Shaped(close, |close|, symbols) && Traded(pair, symbols) && k < |close|
    ensures
      var spread := Spread(Column(close, symbols, pair.y), Column(close, symbols, pair.x), pair);
      Leaves(close, symbols, pair, k, left) <==> spread[k] == Some(left)
  {
    ResidualIs(close[k][pair.y], close[k][pair.x], pair, left);
    assert Column(close, symbols, pair.y)[k] == close[k][pair.y];
    assert Column(close, symbols, pair.x)[k] == close[k][pair.x];
  }

  /** The score of a bar is the distance of its residual from the mean of the residuals of the window that ends there,
      in deviations of that window; a bar without a full window, or whose window has no deviation other than zero, has
      no score. */
  lemma PairScoreIs(
    close: Frame, symbols: nat, pair: ValidatedPair, st: Strategy, i: nat, window: seq<real>)
    requires Shaped(close, |close|, symbols) && Traded(pair, symbols) && i < |close|
    requires ResidualWindow(close, symbols, pair, i, st.cfg.zscoreWindow, window)
    ensures
      match PairScores(close, symbols, pair, st)[i]
      case Some(z) =>
        st.stdev(window).Some? && Standardises(z, window[|window| - 1], window, st.stdev(window).value)
      case None =>
        st.stdev(window).None? || st.stdev(window).value == 0.0
  {
    var spread := Spread(Column(close, symbols, pair.y), Column(close, symbols, pair.x), pair);
    var w, past := st.cfg.zscoreWindow, spread[..i + 1];
    forall k | 0 <= k < w
      ensures past[i + 1 - w + k] == Some(window[k])
    {
      SpreadLeaves(close, symbols, pair, i + 1 - w + k, window[k]);
    }
    assert spread[i] == past[i + 1 - w + (w - 1)];
    assert FullWindow(past, i + 1, w) by {
      forall k | i + 1 - w <= k < i + 1
        ensures past[k].Some?
      {
        var j := k - (i + 1 - w);
        assert past[i + 1 - w + j] == Some(window[j]);
      }
    }
    ScoreIs(spread, i, w, st.stdev, window);
  }

  lemma NoWindowNoScore(close: Frame, symbols: nat, pair: ValidatedPair, st: Strategy, i: nat)
    requires Shaped(close, |close|, symbols) && Traded(pair, symbols) && i < |close|
    requires forall window :: !ResidualWindow(close, symbols, pair, i, st.cfg.zscoreWindow, window)
    ensures PairScores(close, symbols, pair, st)[i] == None
  {
    var spread := Spread(Column(close, symbols, pair.y), Column(close, symbols, pair.x), pair);
    var w, past := st.cfg.zscoreWindow, spread[..i + 1];
    if FullWindow(past, i + 1, w) && w > 0 {
      var window := seq(w, k requires 0 <= k < w && FullWindow(past, i + 1, w) => past[i + 1 - w + k].value);
      forall k | 0 <= k < w
        ensures Leaves(close, symbols, pair, i + 1 - w + k, window[k])
      {
        assert past[i + 1 - w + k].Some?;
        SpreadLeaves(close, symbols, pair, i + 1 - w + k, window[k]);
      }
      assert ResidualWindow(close, symbols, pair, i, w, window);
    } else {
      ScoreIs(spread, i, w, st.stdev, []);
    }
  }

  lemma DeviationsFromMean(x: real, mean: real, deviation: real)
    requires deviation != 0.0
    ensures x - (x - mean) / deviation * deviation == mean
  {
  }

  /** The limit on bars without a crossing is the smaller of the cap and, for a finite positive half-life, its
      multiple: a count exceeds it exactly if it exceeds one of them. */
  lemma MaxNoCrossIs(pair: ValidatedPair, cfg: PairConfig, bars: real)
    ensures bars > MaxNoCross(pair, cfg)
       <==> bars > cfg.breakMaxNoCross as real
            || (pair.halfLife.Some? && pair.halfLife.value > 0.0 && bars > cfg.breakHalfLifeMult * pair.halfLife.value)
  {
  }

  // --- legs ---

  /** The pair is held on a side on bar d since bar e: not retired by its own limit, entered at e from flat beyond the
      entry band, and no score at the exit or stop band since. */
  ghost predicate HeldSince(
    close: Frame, symbols: nat, pair: ValidatedPair, st: Strategy, d: nat, side: int, e: nat)
    requires Shaped(close, |close|, symbols) && Traded(pair, symbols) && d < |close|
  {
    var m := MaxNoCross(pair, st.cfg);
    var z, ratios := PairScores(close, symbols, pair, st), PairRatios(close, symbols, pair);
    side in {-1, 1} && e <= d && !Stuck(z, d + 1, m) && OpenedAt(z, ratios, m, st.cfg, side, e, d + 1)
  }

  /** The y leg carries the gross weight on the side of the position, the x leg the opposite side of it at the hedge
      ratio in money at the opening bar; a pair that is not held has neither. */
  ghost predicate LegsAre(
    close: Frame, symbols: nat, pair: ValidatedPair, st: Strategy, d: nat, wy: real, wx: real)
    requires Shaped(close, |close|, symbols) && Traded(pair, symbols) && d < |close|
  {
    || (exists side: int, e: nat ::
          && HeldSince(close, symbols, pair, st, d, side, e)
          && LegsOpened(close, symbols, pair, st.cfg, side, e, wy, wx))
    || (wy == 0.0 && wx == 0.0
        && forall side: int, e: nat :: !HeldSince(close, symbols, pair, st, d, side, e))
  }

  /** The x leg times the close of y is minus the y leg times what hedges one share of y. */
  predicate LegsOpened(
    close: Frame, symbols: nat, pair: ValidatedPair, cfg: PairConfig, side: int, e: nat, wy: real, wx: real)
    requires Shaped(close, |close|, symbols) && Traded(pair, symbols) && e < |close|
  {
    && wy == side as real * cfg.grossPerPair
    && close[e][pair.y].Some? && close[e][pair.x].Some?
    && (close[e][pair.y].value != 0.0 ==>
          wx * close[e][pair.y].value == -wy * (pair.hedgeRatio * close[e][pair.x].value))
  }

  lemma HedgeRatioIs(cy: seq<Option<real>>, cx: seq<Option<real>>, pair: ValidatedPair, e: nat)
    requires e < |cy| == |cx| && cy[e].Some? && cx[e].Some? && cy[e].value != 0.0
    ensures HedgeRatios(cy, cx, pair)[e] * cy[e].value == pair.hedgeRatio * cx[e].value
  {
    var a := pair.hedgeRatio * cx[e].value;
    assert a / cy[e].value * cy[e].value == a;
  }

  /** A bar with a score has both closes. */
  lemma ScoredBarHasCloses(cy: seq<Option<real>>, cx: seq<Option<real>>, pair: ValidatedPair, st: Strategy, e: nat)
    requires e < |cy| == |cx| && ZScores(cy, cx, pair, st.cfg, st.stdev)[e].Some?
    ensures cy[e].Some? && cx[e].Some?
  {
    assert ZScore(Spread(cy, cx, pair), e, st.cfg.zscoreWindow, st.stdev).Some?;
    SpreadIs(cy, cx, pair, e);
  }

  lemma LegProduct(wy: real, ratio: real, y: real, hedge: real)
    requires ratio * y == hedge
    ensures (-wy * ratio) * y == -wy * hedge
  {
    assert (-wy * ratio) * y == -wy * (ratio * y);
  }

  lemma LegXIs(s: Signal, cfg: PairConfig)
    requires s.pos != 0
    ensures LegX(s, cfg) == -LegY(s, cfg) * s.entryRatio
  {
    assert -(s.pos as real) * cfg.grossPerPair == -(s.pos as real * cfg.grossPerPair);
  }

  lemma LegsOfOpening(
    close: Frame, symbols: nat, pair: ValidatedPair, st: Strategy, e: nat, wy: real, ratio: real, side: int)
    requires Shaped(close, |close|, symbols) && Traded(pair, symbols) && e < |close|
    requires PairScores(close, symbols, pair, st)[e].Some? && ratio == PairRatios(close, symbols, pair)[e]
    requires wy == side as real * st.cfg.grossPerPair
    ensures LegsOpened(close, symbols, pair, st.cfg, side, e, wy, -wy * ratio)
  {
    var cy, cx := Column(close, symbols, pair.y), Column(close, symbols, pair.x);
    ScoredBarHasCloses(cy, cx, pair, st, e);
    if cy[e].value != 0.0 {
      HedgeRatioIs(cy, cx, pair, e);
      LegProduct(wy, ratio, cy[e].value, pair.hedgeRatio * cx[e].value);
    }
  }

  lemma OpeningBar(close: Frame, symbols: nat, pair: ValidatedPair, st: Strategy, d: nat) returns (e: nat)
    requires Shaped(close, |close|, symbols) && Traded(pair, symbols) && d < |close|
    requires PairSignal(close, symbols, pair, st, d).pos != 0
    ensures
      var s := PairSignal(close, symbols, pair, st, d);
      && HeldSince(close, symbols, pair, st, d, s.pos, e) && PairScores(close, symbols, pair, st)[e].Some?
      && s.entryRatio == PairRatios(close, symbols, pair)[e]
  {
    var m := MaxNoCross(pair, st.cfg);
    var z, ratios := PairScores(close, symbols, pair, st), PairRatios(close, symbols, pair);
    var s := PairSignal(close, symbols, pair, st, d);
    PositionInRange(z, ratios, m, st.cfg, d + 1);
    PositionExact(z, ratios, m, st.cfg, s.pos, d + 1);
    e :| 0 <= e < d + 1 && OpenedAt(z, ratios, m, st.cfg, s.pos, e, d + 1) && s.entryRatio == ratios[e];
  }

  lemma FlatIsNotHeld(close: Frame, symbols: nat, pair: ValidatedPair, st: Strategy, d: nat, side: int, e: nat)
    requires Shaped(close, |close|, symbols) && Traded(pair, symbols) && d < |close|
    requires HeldSince(close, symbols, pair, st, d, side, e)
    ensures PairSignal(close, symbols, pair, st, d).pos == side
  {
    var m := MaxNoCross(pair, st.cfg);
    PositionExact(
      PairScores(close, symbols, pair, st), PairRatios(close, symbols, pair), m, st.cfg, side, d + 1);
  }

  lemma LegsOfSignal(close: Frame, symbols: nat, pair: ValidatedPair, st: Strategy, d: nat)
    requires Shaped(close, |close|, symbols) && Traded(pair, symbols) && d < |close|
    ensures
      var s := PairSignal(close, symbols, pair, st, d);
      LegsAre(close, symbols, pair, st, d, LegY(s, st.cfg), LegX(s, st.cfg))
  {
    var s := PairSignal(close, symbols, pair, st, d);
    if s.pos != 0 {
      var e := OpeningBar(close, symbols, pair, st, d);
      SignalLegsOpened(close, symbols, pair, st, s, e);
      LegsFrom(close, symbols, pair, st, d, s.pos, e, LegY(s, st.cfg), LegX(s, st.cfg));
    } else {
      FlatLegs(s, st.cfg);
      forall side: int, e: nat
        ensures !HeldSince(close, symbols, pair, st, d, side, e)
      {
        if HeldSince(close, symbols, pair, st, d, side, e) {
          FlatIsNotHeld(close, symbols, pair, st, d, side, e);
        }
      }
    }
  }

  lemma FlatLegs(s: Signal, cfg: PairConfig)
    requires s.pos == 0
    ensures LegY(s, cfg) == 0.0 && LegX(s, cfg) == 0.0
  {
  }

  lemma SignalLegsOpened(close: Frame, symbols: nat, pair: ValidatedPair, st: Strategy, s: Signal, e: nat)
    requires Shaped(close, |close|, symbols) && Traded(pair, symbols) && e < |close| && s.pos != 0
    requires PairScores(close, symbols, pair, st)[e].Some? && s.entryRatio == PairRatios(close, symbols, pair)[e]
    ensures LegsOpened(close, symbols, pair, st.cfg, s.pos, e, LegY(s, st.cfg), LegX(s, st.cfg))
  {
    LegsOfOpening(close, symbols, pair, st, e, LegY(s, st.cfg), s.entryRatio, s.pos);
    LegXIs(s, st.cfg);
  }

  lemma LegsFrom(
    close: Frame, symbols: nat, pair: ValidatedPair, st: Strategy, d: nat, side: int, e: nat, wy: real, wx: real)
    requires Shaped(close, |close|, symbols) && Traded(pair, symbols) && d < |close|
    requires HeldSince(close, symbols, pair, st, d, side, e)
    requires LegsOpened(close, symbols, pair, st.cfg, side, e, wy, wx)
    ensures LegsAre(close, symbols, pair, st, d, wy, wx)
  {
  }

  // --- cells ---

  /** What the legs of the first k pairs put into a column. */
  function Contributed(pairs: seq<ValidatedPair>, wys: seq<real>, wxs: seq<real>, s: nat, k: nat): real
    requires k <= |pairs| == |wys| == |wxs|
  {
    if k == 0 then 0.0
    else Contributed(pairs, wys, wxs, s, k - 1)
         + (if pairs[k - 1].y == s then wys[k - 1] else 0.0) + (if pairs[k - 1].x == s then wxs[k - 1] else 0.0)
  }

  lemma {:induction false} ColumnIsContributed(
    close: Frame, symbols: nat, st: Strategy, d: nat, s: nat, wys: seq<real>, wxs: seq<real>, k: nat)
    requires Shaped(close, |close|, symbols) && d < |close|
    requires k <= |st.pairs| == |wys| == |wxs| && forall p :: p in st.pairs ==> Traded(p, symbols)
    requires forall j :: 0 <= j < |wys| ==>
      wys[j] == LegY(PairSignal(close, symbols, st.pairs[j], st, d), st.cfg)
    requires forall j :: 0 <= j < |wxs| ==>
      wxs[j] == LegX(PairSignal(close, symbols, st.pairs[j], st, d), st.cfg)
    ensures ColumnWeight(close, symbols, st, k, d, s) == Contributed(st.pairs, wys, wxs, s, k)
  {
    if k > 0 {
      ColumnIsContributed(close, symbols, st, d, s, wys, wxs, k - 1);
    }
  }

  /** Every cell of a row of the weight frame is the sum of the legs that the pairs have in its column. */
  lemma RowIsSumOfLegs(close: Frame, symbols: nat, st: Strategy, d: nat) returns (wys: seq<real>, wxs: seq<real>)
    requires Shaped(close, |close|, symbols) && d < |close| && forall p :: p in st.pairs ==> Traded(p, symbols)
    ensures |wys| == |wxs| == |st.pairs|
    ensures forall j :: 0 <= j < |st.pairs| ==> LegsAre(close, symbols, st.pairs[j], st, d, wys[j], wxs[j])
    ensures forall s :: 0 <= s < symbols ==>
      TargetWeights(close, symbols, st)[d][s] == Some(Contributed(st.pairs, wys, wxs, s, |st.pairs|))
  {
    wys := seq(|st.pairs|, j requires 0 <= j < |st.pairs| =>
      LegY(PairSignal(close, symbols, st.pairs[j], st, d), st.cfg));
    wxs := seq(|st.pairs|, j requires 0 <= j < |st.pairs| =>
      LegX(PairSignal(close, symbols, st.pairs[j], st, d), st.cfg));
    forall j | 0 <= j < |st.pairs|
      ensures LegsAre(close, symbols, st.pairs[j], st, d, wys[j], wxs[j])
    {
      LegsOfSignal(close, symbols, st.pairs[j], st, d);
    }
    forall s | 0 <= s < symbols
      ensures TargetWeights(close, symbols, st)[d][s] == Some(Contributed(st.pairs, wys, wxs, s, |st.pairs|))
    {
      ColumnIsContributed(close, symbols, st, d, s, wys, wxs, |st.pairs|);
    }
  }

  lemma {:induction false} OnlyOneContributes(
    pairs: seq<ValidatedPair>, wys: seq<real>, wxs: seq<real>, s: nat, j: nat, k: nat)
    requires j < |pairs| && k <= |pairs| == |wys| == |wxs|
    requires forall i :: 0 <= i < |pairs| && i != j ==> pairs[i].y != s && pairs[i].x != s
    ensures Contributed(pairs, wys, wxs, s, k)
         == if j < k then (if pairs[j].y == s then wys[j] else 0.0) + (if pairs[j].x == s then wxs[j] else 0.0) else 0.0
  {
    if k > 0 {
      OnlyOneContributes(pairs, wys, wxs, s, j, k - 1);
    }
  }

  predicate Apart(a: ValidatedPair, b: ValidatedPair) {
    a.y != b.y && a.y != b.x && a.x != b.y && a.x != b.x
  }

  /** A pair that shares no column with another has its two legs, and nothing else, in the weight frame: nothing while
      it is flat; while it is held, the gross weight on its side in the first column, and on the other side the gross
      weight times hedge ratio times the ratio of the closes of the opening bar in the second. */
  lemma CellsOfLonePair(close: Frame, symbols: nat, st: Strategy, d: nat, j: nat)
    requires Shaped(close, |close|, symbols) && d < |close| && forall p :: p in st.pairs ==> Traded(p, symbols)
    requires j < |st.pairs| && Traded(st.pairs[j], symbols) && st.pairs[j].y != st.pairs[j].x
    requires forall i :: 0 <= i < |st.pairs| && i != j ==> Apart(st.pairs[i], st.pairs[j])
    ensures
      var row, pair := TargetWeights(close, symbols, st)[d], st.pairs[j];
      && row[pair.y].Some? && row[pair.x].Some?
      && LegsAre(close, symbols, pair, st, d, row[pair.y].value, row[pair.x].value)
  {
    var pair := st.pairs[j];
    var wys, wxs := RowIsSumOfLegs(close, symbols, st, d);
    OnlyOneContributes(st.pairs, wys, wxs, pair.y, j, |st.pairs|);
    OnlyOneContributes(st.pairs, wys, wxs, pair.x, j, |st.pairs|);
  }
}
