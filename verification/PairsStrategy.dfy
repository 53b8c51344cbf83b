/** The pairs strategy as it runs: one loop over bars per pair, and one over pairs that adds their legs into the weight
    frame in place. */
module PairsStrategy {
  import opened Numbers
  import opened Frames
  import opened PairsModel

  method PairLegWeights(z: seq<Option<real>>, ratios: seq<real>, pair: ValidatedPair, cfg: PairConfig)
    returns (wy: array<real>, wx: array<real>)
    requires |z| == |ratios|
    ensures fresh(wy) && fresh(wx) && wy.Length == wx.Length == |z|
    ensures forall i :: 0 <= i < |z| ==>
      var s := SignalAfter(z, ratios, MaxNoCross(pair, cfg), cfg, i + 1);
      wy[i] == LegY(s, cfg) && wx[i] == LegX(s, cfg)
  {
    wy, wx := new real[|z|](_ => 0.0), new real[|z|](_ => 0.0);
    var pos, entryRatio, broken, prevSign, barsNoCross := 0, 0.0, false, 0, 0;
    var maxNoCross := MaxNoCross(pair, cfg);
    for i := 0 to |z|
      invariant wy != wx && fresh(wy) && fresh(wx)
      invariant Signal(pos, entryRatio, broken, prevSign, barsNoCross) == SignalAfter(z, ratios, maxNoCross, cfg, i)
      invariant forall k :: 0 <= k < i ==>
        var s := SignalAfter(z, ratios, maxNoCross, cfg, k + 1);
        wy[k] == LegY(s, cfg) && wx[k] == LegX(s, cfg)
    {
      pos, entryRatio, broken, prevSign, barsNoCross :=
        Advance(pos, entryRatio, broken, prevSign, barsNoCross, z[i], ratios[i], maxNoCross, cfg);
      wy[i] := pos as real * cfg.grossPerPair;
      wx[i] := if pos != 0 then -(pos as real) * cfg.grossPerPair * entryRatio else 0.0;
    }
  }

  /** The body of the loop over bars. */
  method Advance(
    pos0: int, entryRatio0: real, broken0: bool, prevSign0: int, barsNoCross0: nat,
    z: Option<real>, ratio: real, maxNoCross: real, cfg: PairConfig)
    returns (pos: int, entryRatio: real, broken: bool, prevSign: int, barsNoCross: nat)
    ensures Signal(pos, entryRatio, broken, prevSign, barsNoCross)
         == Next(Signal(pos0, entryRatio0, broken0, prevSign0, barsNoCross0), z, ratio, maxNoCross, cfg)
  {
    pos, entryRatio, broken, prevSign, barsNoCross := pos0, entryRatio0, broken0, prevSign0, barsNoCross0;
    if !broken && z.Some? {
      var zi := z.value;
      var sign := if zi > 0.0 then 1 else if zi < 0.0 then -1 else 0;
      if prevSign != 0 && sign != 0 && sign != prevSign {
        barsNoCross := 0;
      } else {
        barsNoCross := barsNoCross + 1;
      }
      if sign != 0 {
        prevSign := sign;
      }
      if barsNoCross as real > maxNoCross {
        broken, pos := true, 0;
      }
      if !broken {
        if pos == 0 {
          if zi <= -cfg.entryZscore {
            pos := 1;
          } else if zi >= cfg.entryZscore {
            pos := -1;
          }
          if pos != 0 {
            entryRatio := ratio;
          }
        } else if (pos == 1 && (zi >= cfg.exitZscore || zi <= -cfg.stopZscore))
               || (pos == -1 && (zi <= cfg.exitZscore || zi >= cfg.stopZscore)) {
          pos := 0;
        }
      }
    }
  }

  method GenerateWeights(close: Frame, symbols: nat, st: Strategy) returns (weights: array2<real>)
    requires Shaped(close, |close|, symbols) && forall p :: p in st.pairs ==> Traded(p, symbols)
    requires forall p, d :: p in st.pairs && 0 <= d < |close| ==> !EntersAtZero(close, symbols, p, st, d)
    ensures fresh(weights) && weights.Length0 == |close| && weights.Length1 == symbols
    ensures forall d, s :: 0 <= d < |close| && 0 <= s < symbols ==>
      TargetWeights(close, symbols, st)[d][s] == Some(weights[d, s])
  {
    weights := new real[|close|, symbols]((_, _) => 0.0);
    for k := 0 to |st.pairs|
      invariant fresh(weights)
      invariant forall d, s :: 0 <= d < |close| && 0 <= s < symbols ==>
        weights[d, s] == ColumnWeight(close, symbols, st, k, d, s)
    {
      var pair := st.pairs[k];
      var z, ratios := PairScores(close, symbols, pair, st), PairRatios(close, symbols, pair);
      var wy, wx := PairLegWeights(z, ratios, pair, st.cfg);
      AddColumn(weights, pair.y, wy);
      AddColumn(weights, pair.x, wx);
    }
  }

  method AddColumn(weights: array2<real>, column: nat, leg: array<real>)
    requires column < weights.Length1 && leg.Length == weights.Length0
    modifies weights
    ensures forall d, s :: 0 <= d < weights.Length0 && 0 <= s < weights.Length1 ==>
      weights[d, s] == old(weights[d, s]) + if s == column then leg[d] else 0.0
  {
    for d := 0 to leg.Length
      invariant forall k, s :: 0 <= k < weights.Length0 && 0 <= s < weights.Length1 ==>
        weights[k, s] == old(weights[k, s]) + if s == column && k < d then leg[k] else 0.0
    {
      weights[d, column] := weights[d, column] + leg[d];
    }
  }
}
