/** What the pairs automaton guarantees for every stream of z-scores. */
module PairsTheorems {
  import opened Numbers
  import opened PairsModel

  type Scores = seq<Option<real>>

  // --- reference definitions on the stream itself ---

  function ValidBars(z: Scores, lo: nat, hi: nat): nat
    requires lo <= hi <= |z|
  {
    if lo == hi then 0 else ValidBars(z, lo, hi - 1) + if z[hi - 1].Some? then 1 else 0
  }

  /** Sign of the last score before bar i that was not zero. */
  function LastSign(z: Scores, i: nat): int
    requires i <= |z|
  {
    if i == 0 then 0
    else if z[i - 1].Some? && Sign(z[i - 1].value) != 0 then Sign(z[i - 1].value)
    else LastSign(z, i - 1)
  }

  /** The score crosses its mean at bar i: it has the opposite sign to the last score that was not zero. */
  predicate Crosses(z: Scores, i: nat)
    requires i < |z|
  {
    && z[i].Some? && Sign(z[i].value) != 0
    && LastSign(z, i) != 0 && Sign(z[i].value) != LastSign(z, i)
  }

  ghost predicate NoCrossing(z: Scores, lo: nat, hi: nat)
    requires lo <= hi <= |z|
  {
    forall k :: lo <= k < hi ==> !Crosses(z, k)
  }

  /** A stretch of scores without a crossing that is longer, in valid bars, than allowed. */
  predicate TooLong(z: Scores, lo: nat, hi: nat, maxNoCross: real)
    requires lo <= hi <= |z|
  {
    ValidBars(z, lo, hi) >= 1 && ValidBars(z, lo, hi) as real > maxNoCross
  }

  ghost predicate Stuck(z: Scores, i: nat, maxNoCross: real)
    requires i <= |z|
  {
    exists lo, hi :: 0 <= lo <= hi <= i && NoCrossing(z, lo, hi) && TooLong(z, lo, hi, maxNoCross)
  }

  // --- the counter ---

  /** Valid bars since the last crossing, computed on the stream. */
  function SinceCrossing(z: Scores, i: nat): nat
    requires i <= |z|
  {
    if i == 0 then 0
    else if z[i - 1].None? then SinceCrossing(z, i - 1)
    else if Crosses(z, i - 1) then 0
    else SinceCrossing(z, i - 1) + 1
  }

  lemma {:induction false} CounterIsSinceCrossing(z: Scores, ratios: seq<real>, m: real, cfg: PairConfig, i: nat)
    requires i <= |z| == |ratios|
    ensures
      var s := SignalAfter(z, ratios, m, cfg, i);
      !s.broken ==> s.barsNoCross == SinceCrossing(z, i) && s.prevSign == LastSign(z, i)
  {
    if i > 0 {
      CounterIsSinceCrossing(z, ratios, m, cfg, i - 1);
    }
  }

  lemma {:induction false} StretchSince(z: Scores, i: nat) returns (lo: nat)
    requires i <= |z|
    ensures lo <= i && NoCrossing(z, lo, i) && ValidBars(z, lo, i) == SinceCrossing(z, i)
  {
    if i == 0 {
      lo := 0;
    } else if z[i - 1].Some? && Crosses(z, i - 1) {
      lo := i;
    } else {
      lo := StretchSince(z, i - 1);
    }
  }

  lemma {:induction false} SinceCoversStretch(z: Scores, lo: nat, hi: nat)
    requires lo <= hi <= |z| && NoCrossing(z, lo, hi)
    ensures ValidBars(z, lo, hi) <= SinceCrossing(z, hi)
  {
    if lo < hi {
      SinceCoversStretch(z, lo, hi - 1);
    }
  }

  // --- retirement ---

  /** Retirement is permanent, and a retired pair is flat. */
  lemma {:induction false} BrokenStays(z: Scores, ratios: seq<real>, m: real, cfg: PairConfig, i: nat, j: nat)
    requires i <= j <= |z| == |ratios| && SignalAfter(z, ratios, m, cfg, i).broken
    ensures SignalAfter(z, ratios, m, cfg, j).broken
    ensures LegY(SignalAfter(z, ratios, m, cfg, j), cfg) == 0.0 && LegX(SignalAfter(z, ratios, m, cfg, j), cfg) == 0.0
    decreases j - i
  {
    BrokenIsFlat(z, ratios, m, cfg, j);
    if i < j {
      BrokenStays(z, ratios, m, cfg, i + 1, j);
    }
  }

  lemma {:induction false} BrokenIsFlat(z: Scores, ratios: seq<real>, m: real, cfg: PairConfig, i: nat)
    requires i <= |z| == |ratios|
    ensures SignalAfter(z, ratios, m, cfg, i).broken ==> SignalAfter(z, ratios, m, cfg, i).pos == 0
  {
    if i > 0 {
      BrokenIsFlat(z, ratios, m, cfg, i - 1);
    }
  }

  /** Until the pair is retired its counter stays within bounds, once there has been a score to count. */
  lemma {:induction false} CounterBounded(z: Scores, ratios: seq<real>, m: real, cfg: PairConfig, i: nat)
    requires i <= |z| == |ratios|
    ensures
      var s := SignalAfter(z, ratios, m, cfg, i);
      !s.broken ==> (s.prevSign != 0 || s.pos != 0 || s.barsNoCross > 0 ==> s.barsNoCross as real <= m)
  {
    if i > 0 {
      CounterBounded(z, ratios, m, cfg, i - 1);
    }
  }

  lemma {:induction false} BrokenMeansStuck(z: Scores, ratios: seq<real>, m: real, cfg: PairConfig, i: nat)
    requires i <= |z| == |ratios| && SignalAfter(z, ratios, m, cfg, i).broken
    ensures Stuck(z, i, m)
  {
    if SignalAfter(z, ratios, m, cfg, i - 1).broken {
      BrokenMeansStuck(z, ratios, m, cfg, i - 1);
      var lo, hi :| 0 <= lo <= hi <= i - 1 && NoCrossing(z, lo, hi) && TooLong(z, lo, hi, m);
      assert hi <= i;
    } else {
      CounterIsSinceCrossing(z, ratios, m, cfg, i - 1);
      CounterBounded(z, ratios, m, cfg, i - 1);
      var lo := StretchSince(z, i);
      assert TooLong(z, lo, i, m);
    }
  }

  lemma {:induction false} LongCountBreaks(z: Scores, ratios: seq<real>, m: real, cfg: PairConfig, i: nat)
    requires i <= |z| == |ratios|
    requires SinceCrossing(z, i) >= 1 && SinceCrossing(z, i) as real > m
    ensures SignalAfter(z, ratios, m, cfg, i).broken
  {
    if z[i - 1].None? {
      LongCountBreaks(z, ratios, m, cfg, i - 1);
    } else {
      CounterIsSinceCrossing(z, ratios, m, cfg, i - 1);
    }
  }

  lemma StuckMeansBroken(z: Scores, ratios: seq<real>, m: real, cfg: PairConfig, i: nat)
    requires i <= |z| == |ratios| && Stuck(z, i, m)
    ensures SignalAfter(z, ratios, m, cfg, i).broken
  {
    var lo, hi :| 0 <= lo <= hi <= i && NoCrossing(z, lo, hi) && TooLong(z, lo, hi, m);
    SinceCoversStretch(z, lo, hi);
    LongCountBreaks(z, ratios, m, cfg, hi);
    BrokenStays(z, ratios, m, cfg, hi, i);
  }

  /** The pair is retired after bar i exactly when some earlier stretch went longer than allowed without a crossing. */
  lemma RetirementExact(z: Scores, ratios: seq<real>, m: real, cfg: PairConfig, i: nat)
    requires i <= |z| == |ratios|
    ensures SignalAfter(z, ratios, m, cfg, i).broken <==> Stuck(z, i, m)
  {
    if SignalAfter(z, ratios, m, cfg, i).broken {
      BrokenMeansStuck(z, ratios, m, cfg, i);
    }
    if Stuck(z, i, m) {
      StuckMeansBroken(z, ratios, m, cfg, i);
    }
  }

  // --- moves ---

  lemma {:induction false} PositionInRange(z: Scores, ratios: seq<real>, m: real, cfg: PairConfig, i: nat)
    requires i <= |z| == |ratios|
    ensures SignalAfter(z, ratios, m, cfg, i).pos in {-1, 0, 1}
  {
    if i > 0 {
      PositionInRange(z, ratios, m, cfg, i - 1);
    }
  }

  /** A position is opened from flat and closed to flat, never reversed in one bar; the legs do not move while it is
      held, or over a bar without a score; and it is opened only beyond the entry band, on the side that bets on
      reversion. */
  lemma LegMoves(z: Scores, ratios: seq<real>, m: real, cfg: PairConfig, i: nat)
    requires i < |z| == |ratios|
    ensures
      var s, s' := SignalAfter(z, ratios, m, cfg, i), SignalAfter(z, ratios, m, cfg, i + 1);
      && s.pos in {-1, 0, 1} && s'.pos in {-1, 0, 1}
      && (s.pos == s'.pos || s.pos == 0 || s'.pos == 0)
      && (s.pos == s'.pos || z[i].None? ==> LegY(s, cfg) == LegY(s', cfg) && LegX(s, cfg) == LegX(s', cfg))
      && (s.pos == 0 && s'.pos == 1 ==> z[i].value <= -cfg.entryZscore && s'.entryRatio == ratios[i])
      && (s.pos == 0 && s'.pos == -1 ==> z[i].value >= cfg.entryZscore && s'.entryRatio == ratios[i])
  {
    PositionInRange(z, ratios, m, cfg, i);
  }

  // --- positions, from the stream alone ---

  /** Side 1 is long the spread, side -1 short. */
  predicate Enters(side: int, z: real, cfg: PairConfig) {
    if side == 1 then z <= -cfg.entryZscore else z >= cfg.entryZscore && z > -cfg.entryZscore
  }

  predicate StaysIn(side: int, z: real, cfg: PairConfig) {
    if side == 1 then -cfg.stopZscore < z < cfg.exitZscore else cfg.exitZscore < z < cfg.stopZscore
  }

  /** The position on this side was opened at bar e, from flat, and no later score reached the exit or stop band. */
  ghost predicate OpenedAt(
    z: Scores, ratios: seq<real>, m: real, cfg: PairConfig, side: int, e: nat, i: nat)
    requires e < i <= |z| == |ratios|
  {
    && SignalAfter(z, ratios, m, cfg, e).pos == 0
    && z[e].Some? && Enters(side, z[e].value, cfg)
    && forall k :: e < k < i && z[k].Some? ==> StaysIn(side, z[k].value, cfg)
  }

  lemma {:induction false} HeldWasOpened(
    z: Scores, ratios: seq<real>, m: real, cfg: PairConfig, side: int, i: nat) returns (e: nat)
    requires i <= |z| == |ratios| && side in {-1, 1} && SignalAfter(z, ratios, m, cfg, i).pos == side
    ensures e < i && OpenedAt(z, ratios, m, cfg, side, e, i)
    ensures SignalAfter(z, ratios, m, cfg, i).entryRatio == ratios[e]
  {
    var before := SignalAfter(z, ratios, m, cfg, i - 1);
    PositionInRange(z, ratios, m, cfg, i - 1);
    BrokenIsFlat(z, ratios, m, cfg, i - 1);
    if before.pos == 0 {
      e := i - 1;
    } else {
      e := HeldWasOpened(z, ratios, m, cfg, side, i - 1);
    }
  }

  lemma {:induction false} OpenedIsHeld(
    z: Scores, ratios: seq<real>, m: real, cfg: PairConfig, side: int, e: nat, i: nat)
    requires e < i <= |z| == |ratios| && side in {-1, 1} && OpenedAt(z, ratios, m, cfg, side, e, i)
    requires !SignalAfter(z, ratios, m, cfg, i).broken
    ensures SignalAfter(z, ratios, m, cfg, i).pos == side
  {
    if e < i - 1 {
      OpenedIsHeld(z, ratios, m, cfg, side, e, i - 1);
    }
  }

  /** After bar i the pair is held on a side exactly if it is not retired and was opened on that side, beyond the entry
      band and from flat, with no score at the exit or stop band since; and its legs use the hedge ratio of that bar. */
  lemma PositionExact(z: Scores, ratios: seq<real>, m: real, cfg: PairConfig, side: int, i: nat)
    requires i <= |z| == |ratios| && side in {-1, 1}
    ensures SignalAfter(z, ratios, m, cfg, i).pos == side
       <==> !Stuck(z, i, m) && exists e :: 0 <= e < i && OpenedAt(z, ratios, m, cfg, side, e, i)
    ensures SignalAfter(z, ratios, m, cfg, i).pos == side ==>
      exists e ::
        && 0 <= e < i && OpenedAt(z, ratios, m, cfg, side, e, i)
        && SignalAfter(z, ratios, m, cfg, i).entryRatio == ratios[e]
  {
    RetirementExact(z, ratios, m, cfg, i);
    BrokenIsFlat(z, ratios, m, cfg, i);
    if SignalAfter(z, ratios, m, cfg, i).pos == side {
      var e := HeldWasOpened(z, ratios, m, cfg, side, i);
    }
    if e :| !Stuck(z, i, m) && 0 <= e < i && OpenedAt(z, ratios, m, cfg, side, e, i) {
      OpenedIsHeld(z, ratios, m, cfg, side, e, i);
    }
  }

  // --- holding time ---

  ghost predicate HeldThroughout(z: Scores, ratios: seq<real>, m: real, cfg: PairConfig, lo: nat, hi: nat)
    requires lo <= hi <= |z| == |ratios|
  {
    forall k :: lo < k <= hi ==> SignalAfter(z, ratios, m, cfg, k).pos != 0
  }

  /** With the exit band at the mean, a held position is always on the far side of the mean. */
  lemma {:induction false} HeldOnFarSide(z: Scores, ratios: seq<real>, m: real, cfg: PairConfig, i: nat)
    requires i <= |z| == |ratios| && cfg.exitZscore == 0.0 && cfg.entryZscore > 0.0
    ensures
      var s := SignalAfter(z, ratios, m, cfg, i);
      s.pos != 0 ==> s.prevSign == -s.pos && s.pos in {-1, 1} && !s.broken && s.barsNoCross as real <= m
  {
    if i > 0 {
      HeldOnFarSide(z, ratios, m, cfg, i - 1);
      BrokenIsFlat(z, ratios, m, cfg, i);
      PositionInRange(z, ratios, m, cfg, i);
    }
  }

  lemma {:induction false} HeldBarsCounted(z: Scores, ratios: seq<real>, m: real, cfg: PairConfig, lo: nat, hi: nat)
    requires lo < hi <= |z| == |ratios| && cfg.exitZscore == 0.0 && cfg.entryZscore > 0.0
    requires HeldThroughout(z, ratios, m, cfg, lo, hi)
    ensures ValidBars(z, lo, hi) <= SignalAfter(z, ratios, m, cfg, hi).barsNoCross + 1
  {
    assert SignalAfter(z, ratios, m, cfg, hi).pos != 0;
    if lo < hi - 1 {
      HeldBarsCounted(z, ratios, m, cfg, lo, hi - 1);
      assert SignalAfter(z, ratios, m, cfg, hi - 1).pos != 0;
      HeldOnFarSide(z, ratios, m, cfg, hi - 1);
      HeldOnFarSide(z, ratios, m, cfg, hi);
    } else {
      assert ValidBars(z, lo, lo) == 0;
    }
  }

  /** With the exit band at the mean, no position survives more than floor(maxNoCross)+1 valid bars: it cannot cross the
      mean while it is held, so the counter retires the pair. */
  lemma HoldingTimeBounded(z: Scores, ratios: seq<real>, pair: ValidatedPair, cfg: PairConfig, lo: nat, hi: nat)
    requires lo < hi <= |z| == |ratios| && cfg.exitZscore == 0.0 && cfg.entryZscore > 0.0
    requires HeldThroughout(z, ratios, MaxNoCross(pair, cfg), cfg, lo, hi)
    ensures ValidBars(z, lo, hi) <= MaxNoCross(pair, cfg).Floor + 1 <= cfg.breakMaxNoCross + 1
  {
    var m := MaxNoCross(pair, cfg);
    HeldBarsCounted(z, ratios, m, cfg, lo, hi);
    assert SignalAfter(z, ratios, m, cfg, hi).pos != 0;
    HeldOnFarSide(z, ratios, m, cfg, hi);
  }

  // --- and only there ---

  /** Enter at the band, then swing by delta across the mean on every bar. */
  function Swings(entry: real, delta: real, n: nat): (z: Scores)
    ensures |z| == n + 1
  {
    seq(n + 1, k requires 0 <= k => Some(if k == 0 then entry else if k % 2 == 1 then -delta else delta))
  }

  lemma {:induction false} SwingsHeld(
    z: Scores, entry: real, delta: real, ratios: seq<real>, m: real, cfg: PairConfig, n: nat, i: nat)
    requires z == Swings(entry, delta, n) && |ratios| == n + 1 && 1 <= i <= n + 1
    requires cfg.entryZscore > 0.0 && m >= 1.0
    requires 0.0 < Abs(delta) < cfg.stopZscore
    requires entry == (if delta < 0.0 then -cfg.entryZscore else cfg.entryZscore)
    requires if delta < 0.0 then -delta < cfg.exitZscore else -delta > cfg.exitZscore
    ensures
      var s := SignalAfter(z, ratios, m, cfg, i);
      && s.pos == (if delta < 0.0 then 1 else -1) && !s.broken
      && s.barsNoCross <= 1 && s.prevSign == Sign(z[i - 1].value)
  {
    if i > 1 {
      SwingsHeld(z, entry, delta, ratios, m, cfg, n, i - 1);
    } else {
      assert SignalAfter(z, ratios, m, cfg, 0) == START;
    }
  }

  lemma {:induction false} SwingsAllValid(entry: real, delta: real, n: nat, i: nat)
    requires i <= n + 1
    ensures ValidBars(Swings(entry, delta, n), 0, i) == i
  {
    if i > 0 {
      SwingsAllValid(entry, delta, n, i - 1);
    }
  }

  /** With the exit band anywhere else, positions can be held for any number of bars. */
  lemma HoldingTimeUnbounded(m: real, cfg: PairConfig, n: nat) returns (z: Scores, ratios: seq<real>)
    requires cfg.exitZscore != 0.0 && cfg.entryZscore > 0.0 && cfg.stopZscore > 0.0 && m >= 1.0
    ensures |z| == |ratios| == n + 1
    ensures HeldThroughout(z, ratios, m, cfg, 0, n + 1) && ValidBars(z, 0, n + 1) == n + 1
  {
    var size := Min(Abs(cfg.exitZscore), cfg.stopZscore) / 2.0;
    var delta := if cfg.exitZscore > 0.0 then -size else size;
    var entry := if delta < 0.0 then -cfg.entryZscore else cfg.entryZscore;
    z, ratios := Swings(entry, delta, n), seq(n + 1, _ => 0.0);
    forall k | 0 < k <= n + 1
      ensures SignalAfter(z, ratios, m, cfg, k).pos != 0
    {
      SwingsHeld(z, entry, delta, ratios, m, cfg, n, k);
    }
    SwingsAllValid(entry, delta, n, n + 1);
  }

  ghost predicate HoldingBoundedBy(m: real, cfg: PairConfig, bound: nat) {
    forall z: Scores, ratios: seq<real>, lo: nat, hi: nat ::
      lo < hi <= |z| == |ratios| && HeldThroughout(z, ratios, m, cfg, lo, hi) ==> ValidBars(z, lo, hi) <= bound
  }

  /** Below one, the first valid bar already retires the pair. */
  lemma {:induction false} NeverOpened(z: Scores, ratios: seq<real>, m: real, cfg: PairConfig, i: nat)
    requires i <= |z| == |ratios| && m < 1.0
    ensures SignalAfter(z, ratios, m, cfg, i).pos == 0
    ensures !SignalAfter(z, ratios, m, cfg, i).broken ==> SignalAfter(z, ratios, m, cfg, i) == START
  {
    if i > 0 {
      NeverOpened(z, ratios, m, cfg, i - 1);
    }
  }

  lemma BoundedAtMean(pair: ValidatedPair, cfg: PairConfig, bound: nat)
    requires cfg.exitZscore == 0.0 && cfg.entryZscore > 0.0 && bound == MaxNoCross(pair, cfg).Floor + 1
    ensures HoldingBoundedBy(MaxNoCross(pair, cfg), cfg, bound)
  {
    forall z: Scores, ratios: seq<real>, lo: nat, hi: nat
      | lo < hi <= |z| == |ratios| && HeldThroughout(z, ratios, MaxNoCross(pair, cfg), cfg, lo, hi)
      ensures ValidBars(z, lo, hi) <= bound
    {
      HoldingTimeBounded(z, ratios, pair, cfg, lo, hi);
    }
  }

  lemma BoundedBelowOne(m: real, cfg: PairConfig)
    requires m < 1.0
    ensures HoldingBoundedBy(m, cfg, 0)
  {
    forall z: Scores, ratios: seq<real>, lo: nat, hi: nat | lo < hi <= |z| == |ratios|
      ensures !HeldThroughout(z, ratios, m, cfg, lo, hi)
    {
      NeverOpened(z, ratios, m, cfg, hi);
    }
  }

  /** So for positive entry and stop bands the holding time is bounded over all streams exactly when the exit band is
      the mean, or when the pair is retired before it can be held at all. */
  lemma HoldingTimeBoundedIff(pair: ValidatedPair, cfg: PairConfig)
    requires cfg.entryZscore > 0.0 && cfg.stopZscore > 0.0
    ensures (exists bound: nat :: HoldingBoundedBy(MaxNoCross(pair, cfg), cfg, bound))
       <==> cfg.exitZscore == 0.0 || MaxNoCross(pair, cfg) < 1.0
  {
    var m := MaxNoCross(pair, cfg);
    if m < 1.0 {
      BoundedBelowOne(m, cfg);
    } else if cfg.exitZscore == 0.0 {
      BoundedAtMean(pair, cfg, m.Floor + 1);
    } else {
      forall bound: nat
        ensures !HoldingBoundedBy(m, cfg, bound)
      {
        var z, ratios := HoldingTimeUnbounded(m, cfg, bound);
        assert HeldThroughout(z, ratios, m, cfg, 0, bound + 1);
      }
    }
  }

  // --- no look-ahead ---

  /** The signal after bar i depends only on the scores and ratios of the first i bars. */
  lemma {:induction false} SignalLocal(
    z1: Scores, r1: seq<real>, z2: Scores, r2: seq<real>, m: real, cfg: PairConfig, i: nat)
    requires i <= |z1| == |r1| && i <= |z2| == |r2|
    requires z1[..i] == z2[..i] && r1[..i] == r2[..i]
    ensures SignalAfter(z1, r1, m, cfg, i) == SignalAfter(z2, r2, m, cfg, i)
  {
    if i > 0 {
      assert z1[..i - 1] == z1[..i][..i - 1] == z2[..i - 1];
      assert r1[..i - 1] == r1[..i][..i - 1] == r2[..i - 1];
      assert z1[i - 1] == z1[..i][i - 1] && r1[i - 1] == r1[..i][i - 1];
      SignalLocal(z1, r1, z2, r2, m, cfg, i - 1);
    }
  }
}
