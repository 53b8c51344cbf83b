/** The pairs strategy run through the backtest engine: no look-ahead end to end. */
module PairsBacktest {
  import opened Numbers
  import opened Frames
  import opened PairsModel
  import opened PairsTheorems
  import Model = BacktestModel
  import Theorems = BacktestTheorems

  lemma TrailingLocal(
    a: seq<Option<real>>, b: seq<Option<real>>, i: nat, window: nat, stdev: seq<real> -> Option<real>)
    requires i < |a| && i < |b| && a[..i + 1] == b[..i + 1]
    ensures ZScore(a, i, window, stdev) == ZScore(b, i, window, stdev)
  {
    assert a[i] == a[..i + 1][i] && b[i] == b[..i + 1][i];
  }

  lemma ScoresLocal(c1: Frame, c2: Frame, symbols: nat, pair: ValidatedPair, st: Strategy, d: nat)
    requires Shaped(c1, |c1|, symbols) && Shaped(c2, |c2|, symbols) && Traded(pair, symbols)
    requires d < |c1| && d < |c2| && forall k :: 0 <= k <= d ==> c1[k] == c2[k]
    ensures PairScores(c1, symbols, pair, st)[..d + 1] == PairScores(c2, symbols, pair, st)[..d + 1]
  {
    var y1, x1, y2, x2 := Column(c1, symbols, pair.y), Column(c1, symbols, pair.x),
                          Column(c2, symbols, pair.y), Column(c2, symbols, pair.x);
    var s1, s2 := Spread(y1, x1, pair), Spread(y2, x2, pair);
    var z1, z2 := PairScores(c1, symbols, pair, st), PairScores(c2, symbols, pair, st);
    forall k | 0 <= k <= d
      ensures s1[k] == s2[k]
    {
      assert c1[k] == c2[k];
      assert y1[k] == y2[k] && x1[k] == x2[k];
    }
    forall i | 0 <= i <= d
      ensures z1[i] == z2[i]
    {
      assert s1[..i + 1] == s2[..i + 1];
      TrailingLocal(s1, s2, i, st.cfg.zscoreWindow, st.stdev);
    }
  }

  lemma RatiosLocal(c1: Frame, c2: Frame, symbols: nat, pair: ValidatedPair, d: nat)
    requires Shaped(c1, |c1|, symbols) && Shaped(c2, |c2|, symbols) && Traded(pair, symbols)
    requires d < |c1| && d < |c2| && forall k :: 0 <= k <= d ==> c1[k] == c2[k]
    ensures PairRatios(c1, symbols, pair)[..d + 1] == PairRatios(c2, symbols, pair)[..d + 1]
  {
    var r1, r2 := PairRatios(c1, symbols, pair), PairRatios(c2, symbols, pair);
    forall i | 0 <= i <= d
      ensures r1[i] == r2[i]
    {
      assert c1[i] == c2[i];
    }
  }

  lemma PairSignalLocal(c1: Frame, c2: Frame, symbols: nat, pair: ValidatedPair, st: Strategy, d: nat)
    requires Shaped(c1, |c1|, symbols) && Shaped(c2, |c2|, symbols) && Traded(pair, symbols)
    requires d < |c1| && d < |c2| && forall k :: 0 <= k <= d ==> c1[k] == c2[k]
    ensures PairSignal(c1, symbols, pair, st, d) == PairSignal(c2, symbols, pair, st, d)
  {
    ScoresLocal(c1, c2, symbols, pair, st, d);
    RatiosLocal(c1, c2, symbols, pair, d);
    SignalLocal(
      PairScores(c1, symbols, pair, st), PairRatios(c1, symbols, pair),
      PairScores(c2, symbols, pair, st), PairRatios(c2, symbols, pair), MaxNoCross(pair, st.cfg), st.cfg, d + 1);
  }

  lemma {:induction false} ColumnWeightLocal(
    c1: Frame, c2: Frame, symbols: nat, st: Strategy, k: nat, d: nat, s: nat)
    requires Shaped(c1, |c1|, symbols) && Shaped(c2, |c2|, symbols)
    requires k <= |st.pairs| && forall p :: p in st.pairs ==> Traded(p, symbols)
    requires d < |c1| && d < |c2| && forall j :: 0 <= j <= d ==> c1[j] == c2[j]
    ensures ColumnWeight(c1, symbols, st, k, d, s) == ColumnWeight(c2, symbols, st, k, d, s)
  {
    if k > 0 {
      ColumnWeightLocal(c1, c2, symbols, st, k - 1, d, s);
      PairSignalLocal(c1, c2, symbols, st.pairs[k - 1], st, d);
    }
  }

  /** The weights of a bar depend on the closes up to that bar only. */
  lemma WeightsLocal(c1: Frame, c2: Frame, symbols: nat, st: Strategy, d: nat)
    requires Shaped(c1, |c1|, symbols) && Shaped(c2, |c2|, symbols) && forall p :: p in st.pairs ==> Traded(p, symbols)
    requires d < |c1| && d < |c2| && forall k :: 0 <= k <= d ==> c1[k] == c2[k]
    ensures TargetWeights(c1, symbols, st)[d] == TargetWeights(c2, symbols, st)[d]
  {
    forall s | 0 <= s < symbols
      ensures TargetRow(c1, symbols, st, d)[s] == TargetRow(c2, symbols, st, d)[s]
    {
      ColumnWeightLocal(c1, c2, symbols, st, |st.pairs|, d, s);
    }
  }

  /** Running the strategy's own weights through the engine: the book after day d depends on opens and halts through d
      and on closes and volumes through d-1, and on nothing later. */
  lemma StrategyNoLookAhead(
    p1: Model.PriceData, p2: Model.PriceData, symbols: nat, st: Strategy, cfg: Model.Config, d: nat)
    requires Shaped(p1.close, |p1.close|, symbols) && Shaped(p2.close, |p2.close|, symbols)
    requires forall p :: p in st.pairs ==> Traded(p, symbols)
    requires
      var t1, t2 := TargetWeights(p1.close, symbols, st), TargetWeights(p2.close, symbols, st);
      && Model.Aligned(p1, t1, |p1.open|, symbols) && Model.Aligned(p2, t2, |p2.open|, symbols)
      && d < |p1.open| && d < |p2.open|
      && Theorems.AgreeUpTo(p1, p1.close, p2, p2.close, d)
    ensures
      var t1, t2 := TargetWeights(p1.close, symbols, st), TargetWeights(p2.close, symbols, st);
      var dis1, dis2 := Model.Schedule(p1, t1, symbols, cfg), Model.Schedule(p2, t2, symbols, cfg);
      && Model.BookAfter(dis1, symbols, cfg, d + 1) == Model.BookAfter(dis2, symbols, cfg, d + 1)
      && Model.DayOf(dis1, symbols, cfg, d) == Model.DayOf(dis2, symbols, cfg, d)
  {
    var t1, t2 := TargetWeights(p1.close, symbols, st), TargetWeights(p2.close, symbols, st);
    Theorems.TakeAgree(p1.close, p2.close, d);
    forall k | 0 <= k < d
      ensures t1[k] == t2[k]
    {
      WeightsLocal(p1.close, p2.close, symbols, st, k);
    }
    assert t1[..d] == t2[..d];
    Theorems.NoLookAhead(p1, t1, p2, t2, symbols, cfg, d);
  }
}
