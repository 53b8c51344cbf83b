/** The drawdown circuit breaker, in its stateful and its array form, and the drawdown series of a run. */
module Drawdown {
  import opened Numbers
  import Engine = BacktestModel

  // --- the array forms ---

  /** Running maximum up to and including t. */
  function PeakAt(series: seq<real>, t: nat): real
    requires t < |series|
  {
    if t == 0 then series[0] else Max(PeakAt(series, t - 1), series[t])
  }

  lemma {:induction false} PeakIsLargest(series: seq<real>, t: nat)
    requires t < |series|
    ensures forall i :: 0 <= i <= t ==> series[i] <= PeakAt(series, t)
  {
    if t > 0 {
      PeakIsLargest(series, t - 1);
    }
  }

  lemma {:induction false} PeakIsReached(series: seq<real>, t: nat) returns (i: nat)
    requires t < |series|
    ensures i <= t && series[i] == PeakAt(series, t)
  {
    if t == 0 || series[t] == PeakAt(series, t) {
      i := t;
    } else {
      i := PeakIsReached(series, t - 1);
    }
  }

  /** Each value against the running maximum; the maximum never falls, so a positive first value keeps it positive. */
  function DrawdownAt(series: seq<real>, t: nat): real
    requires t < |series| && series[0] > 0.0
  {
    PeakIsLargest(series, t);
    series[t] / PeakAt(series, t) - 1.0
  }

  predicate Latched(series: seq<real>, maxDrawdown: real, t: nat)
    requires t < |series| && series[0] > 0.0
  {
    DrawdownAt(series, t) <= -maxDrawdown || (t > 0 && Latched(series, maxDrawdown, t - 1))
  }

  /** True where trading is allowed. */
  function BreakerMask(series: seq<real>, maxDrawdown: real): (mask: seq<bool>)
    requires series != [] ==> series[0] > 0.0
    ensures |mask| == |series|
  {
    seq(|series|, t requires 0 <= t < |series| && (series != [] ==> series[0] > 0.0) =>
      !Latched(series, maxDrawdown, t))
  }

  // --- the stateful form ---

  /** A peak of None stands for minus infinity. */
  datatype MonitorState = MonitorState(peak: Option<real>, halted: bool)

  datatype DrawdownState = DrawdownState(peak: real, drawdown: real, halted: bool)

  const FRESH := MonitorState(None, false)

  function Observe(m: MonitorState, equity: real, maxDrawdown: real): (MonitorState, DrawdownState) {
    var peak := Max(m.peak.GetOr(equity), equity);
    var dd := if peak > 0.0 then equity / peak - 1.0 else 0.0;
    var halted := m.halted || dd <= -maxDrawdown;
    (MonitorState(Some(peak), halted), DrawdownState(peak, dd, halted))
  }

  function ObserveAll(series: seq<real>, maxDrawdown: real, n: nat): MonitorState
    requires n <= |series|
  {
    if n == 0 then FRESH else Observe(ObserveAll(series, maxDrawdown, n - 1), series[n - 1], maxDrawdown).0
  }

  class DrawdownMonitor {
    const maxDrawdown: real
    var peak: Option<real>
    var halted: bool

    ghost function State(): MonitorState
      reads this
    {
      MonitorState(peak, halted)
    }

    constructor (maxDrawdown: real)
      ensures State() == FRESH && this.maxDrawdown == maxDrawdown
    {
      this.maxDrawdown := maxDrawdown;
      peak, halted := None, false;
    }

    method Update(equity: real) returns (s: DrawdownState)
      modifies this
      ensures (State(), s) == Observe(old(State()), equity, maxDrawdown)
    {
      var p := if peak.None? || peak.value < equity then equity else peak.value;
      peak := Some(p);
      var dd := if p > 0.0 then equity / p - 1.0 else 0.0;
      if dd <= -maxDrawdown {
        halted := true;
      }
      s := DrawdownState(p, dd, halted);
    }

    method Reset()
      modifies this
      ensures State() == FRESH
    {
      peak, halted := None, false;
    }
  }

  // --- the two forms coincide ---

  lemma {:induction false} MonitorTracksPeak(series: seq<real>, maxDrawdown: real, t: nat)
    requires t < |series| && series[0] > 0.0
    ensures ObserveAll(series, maxDrawdown, t + 1)
         == MonitorState(Some(PeakAt(series, t)), Latched(series, maxDrawdown, t))
  {
    PeakIsLargest(series, t);
    if t > 0 {
      MonitorTracksPeak(series, maxDrawdown, t - 1);
    } else {
      assert ObserveAll(series, maxDrawdown, 0) == FRESH;
    }
  }

  lemma ObserveAtStep(series: seq<real>, maxDrawdown: real, t: nat)
    requires t < |series| && series[0] > 0.0
    ensures Observe(ObserveAll(series, maxDrawdown, t), series[t], maxDrawdown).1
         == DrawdownState(PeakAt(series, t), DrawdownAt(series, t), Latched(series, maxDrawdown, t))
  {
    PeakIsLargest(series, t);
    if t > 0 {
      MonitorTracksPeak(series, maxDrawdown, t - 1);
    } else {
      assert ObserveAll(series, maxDrawdown, 0) == FRESH;
    }
  }

  predicate FallsBy(peak: real, drawdown: real, value: real) {
    peak * (1.0 + drawdown) == value
  }

  lemma PeakTimesDrawdown(series: seq<real>, t: nat)
    requires t < |series| && series[0] > 0.0
    ensures FallsBy(PeakAt(series, t), DrawdownAt(series, t), series[t])
  {
    PeakIsLargest(series, t);
    QuotientOf(series[t], PeakAt(series, t));
  }

  /** What the monitor returns at step t: the largest value so far, whether the breaker has tripped, and the drawdown
      that takes that peak to the value observed. */
  lemma MonitorReports(series: seq<real>, maxDrawdown: real, t: nat)
    requires t < |series| && series[0] > 0.0
    ensures
      var s := Observe(ObserveAll(series, maxDrawdown, t), series[t], maxDrawdown).1;
      && (forall i :: 0 <= i <= t ==> series[i] <= s.peak) && (exists i :: 0 <= i <= t && series[i] == s.peak)
      && FallsBy(s.peak, s.drawdown, series[t])
      && (s.halted <==> exists j :: 0 <= j <= t && BelowPeak(series, maxDrawdown, j))
  {
    ObserveAtStep(series, maxDrawdown, t);
    PeakTimesDrawdown(series, t);
    PeakIsLargest(series, t);
    var i := PeakIsReached(series, t);
    LatchedIffBelowPeak(series, maxDrawdown, t);
  }

  /** Before any positive value there is no drawdown to report. */
  lemma NoPeakNoDrawdown(m: MonitorState, equity: real, maxDrawdown: real)
    requires equity <= 0.0 && (m.peak.Some? ==> m.peak.value <= 0.0)
    ensures
      var s := Observe(m, equity, maxDrawdown).1;
      s.drawdown == 0.0 && (s.halted <==> m.halted || maxDrawdown <= 0.0)
  {
  }

  /** Fed the same equity series, the latching monitor is halted after step t exactly where the mask forbids trading. */
  lemma MonitorMatchesMask(series: seq<real>, maxDrawdown: real, t: nat)
    requires t < |series| && series[0] > 0.0
    ensures ObserveAll(series, maxDrawdown, t + 1).halted == !BreakerMask(series, maxDrawdown)[t]
  {
    MonitorTracksPeak(series, maxDrawdown, t);
  }

  lemma QuotientOf(e: real, peak: real)
    requires peak > 0.0
    ensures peak * (e / peak) == e
  {
  }

  lemma ScaledOrder(peak: real, x: real, y: real)
    requires peak > 0.0
    ensures x <= y <==> peak * x <= peak * y
  {
    if x <= y {
      MulMonotone(peak, x, y);
    } else {
      MulStrict(peak, y, x);
    }
  }

  lemma RatioBelow(e: real, peak: real, m: real)
    requires peak > 0.0
    ensures e / peak - 1.0 <= -m <==> e <= peak * (1.0 - m)
  {
    QuotientOf(e, peak);
    ScaledOrder(peak, e / peak, 1.0 - m);
  }

  ghost predicate FellFrom(series: seq<real>, maxDrawdown: real, i: nat, j: nat)
    requires i <= j < |series|
  {
    series[j] <= (1.0 - maxDrawdown) * series[i]
  }

  ghost predicate HasFallen(series: seq<real>, maxDrawdown: real, t: nat)
    requires t < |series|
  {
    exists i, j :: 0 <= i <= j <= t && FellFrom(series, maxDrawdown, i, j)
  }

  ghost predicate BelowPeak(series: seq<real>, maxDrawdown: real, j: nat)
    requires j < |series|
  {
    series[j] <= PeakAt(series, j) * (1.0 - maxDrawdown)
  }

  lemma BelowPeakIff(series: seq<real>, maxDrawdown: real, t: nat)
    requires t < |series| && series[0] > 0.0
    ensures DrawdownAt(series, t) <= -maxDrawdown <==> BelowPeak(series, maxDrawdown, t)
  {
    PeakIsLargest(series, t);
    RatioBelow(series[t], PeakAt(series, t), maxDrawdown);
  }

  lemma {:induction false} LatchedIffBelowPeak(series: seq<real>, maxDrawdown: real, t: nat)
    requires t < |series| && series[0] > 0.0
    ensures Latched(series, maxDrawdown, t)
       <==> exists j :: 0 <= j <= t && BelowPeak(series, maxDrawdown, j)
  {
    BelowPeakIff(series, maxDrawdown, t);
    if t > 0 {
      LatchedIffBelowPeak(series, maxDrawdown, t - 1);
    }
  }

  /** The breaker is tripped by t exactly if some value fell, from some earlier value, by the whole allowed fraction. */
  lemma TrippedIffFallen(series: seq<real>, maxDrawdown: real, t: nat)
    requires t < |series| && series[0] > 0.0 && maxDrawdown <= 1.0
    ensures Latched(series, maxDrawdown, t) <==> HasFallen(series, maxDrawdown, t)
  {
    LatchedIffBelowPeak(series, maxDrawdown, t);
    if Latched(series, maxDrawdown, t) {
      var j :| 0 <= j <= t && BelowPeak(series, maxDrawdown, j);
      var i := PeakIsReached(series, j);
      assert FellFrom(series, maxDrawdown, i, j);
    }
    if HasFallen(series, maxDrawdown, t) {
      var i, j :| 0 <= i <= j <= t && FellFrom(series, maxDrawdown, i, j);
      FallFromPeak(series, maxDrawdown, i, j);
    }
  }

  lemma FallFromPeak(series: seq<real>, maxDrawdown: real, i: nat, j: nat)
    requires i <= j < |series| && maxDrawdown <= 1.0 && FellFrom(series, maxDrawdown, i, j)
    ensures BelowPeak(series, maxDrawdown, j)
  {
    PeakIsLargest(series, j);
    MulMonotone(1.0 - maxDrawdown, series[i], PeakAt(series, j));
    assert (1.0 - maxDrawdown) * PeakAt(series, j) == PeakAt(series, j) * (1.0 - maxDrawdown);
  }

  ghost predicate PositiveUpTo(series: seq<real>, t: nat)
    requires t < |series|
  {
    forall j :: 0 <= j <= t ==> series[j] > 0.0
  }

  lemma NonPositiveIsFallen(x: real, maxDrawdown: real)
    requires x <= 0.0 && maxDrawdown > 1.0
    ensures x <= (1.0 - maxDrawdown) * x
  {
    MulMonotone(maxDrawdown, x, 0.0);
    assert (1.0 - maxDrawdown) * x == x - maxDrawdown * x;
  }

  lemma NegativeShare(x: real, maxDrawdown: real)
    requires x > 0.0 && maxDrawdown > 1.0
    ensures (1.0 - maxDrawdown) * x < 0.0
  {
    MulStrict(x, 1.0 - maxDrawdown, 0.0);
  }

  lemma FallAboveOne(series: seq<real>, maxDrawdown: real, i: nat, j: nat)
    requires i <= j < |series| && maxDrawdown > 1.0 && FellFrom(series, maxDrawdown, i, j)
    ensures series[i] <= 0.0 || series[j] <= 0.0
  {
    if series[i] > 0.0 {
      FallTurnsNegative(series[i], series[j], maxDrawdown);
    }
  }

  lemma FallTurnsNegative(x: real, y: real, maxDrawdown: real)
    requires x > 0.0 && maxDrawdown > 1.0 && y <= (1.0 - maxDrawdown) * x
    ensures y < 0.0
  {
    NegativeShare(x, maxDrawdown);
  }

  lemma WipedOutIsFall(series: seq<real>, maxDrawdown: real, j: nat)
    requires j < |series| && maxDrawdown > 1.0 && series[j] <= 0.0
    ensures FellFrom(series, maxDrawdown, j, j)
  {
    NonPositiveIsFallen(series[j], maxDrawdown);
  }

  /** A limit above one asks for a fall below zero: then any value that is not positive counts as a fall. */
  lemma FallenAboveOne(series: seq<real>, maxDrawdown: real, t: nat)
    requires t < |series| && maxDrawdown > 1.0
    ensures HasFallen(series, maxDrawdown, t) <==> !PositiveUpTo(series, t)
  {
    if HasFallen(series, maxDrawdown, t) {
      var i, j :| 0 <= i <= j <= t && FellFrom(series, maxDrawdown, i, j);
      FallAboveOne(series, maxDrawdown, i, j);
    }
    if !PositiveUpTo(series, t) {
      var j :| 0 <= j <= t && series[j] <= 0.0;
      WipedOutIsFall(series, maxDrawdown, j);
    }
  }

  /** So the equivalence holds exactly for limits up to one, for series that stay positive, and where some value lies
      below its running peak by the whole limit. */
  lemma TrippedIffFallenExactly(series: seq<real>, maxDrawdown: real, t: nat)
    requires t < |series| && series[0] > 0.0
    ensures (Latched(series, maxDrawdown, t) <==> HasFallen(series, maxDrawdown, t))
       <==> maxDrawdown <= 1.0 || PositiveUpTo(series, t)
            || exists j :: 0 <= j <= t && BelowPeak(series, maxDrawdown, j)
  {
    LatchedIffBelowPeak(series, maxDrawdown, t);
    if maxDrawdown <= 1.0 {
      TrippedIffFallen(series, maxDrawdown, t);
    } else {
      FallenAboveOne(series, maxDrawdown, t);
      if Latched(series, maxDrawdown, t) {
        var j :| 0 <= j <= t && BelowPeak(series, maxDrawdown, j);
        PeakIsLargest(series, j);
        MulStrict(PeakAt(series, j), 1.0 - maxDrawdown, 0.0);
      }
    }
  }

  /** Where it fails: equity goes to zero, which counts as a fall by twice any value, and a limit of two never trips. */
  lemma WipedOutButNotTripped()
    ensures HasFallen([1.0, 0.0], 2.0, 1) && !Latched([1.0, 0.0], 2.0, 1)
  {
    var series := [1.0, 0.0];
    FallenAboveOne(series, 2.0, 1);
    LatchedIffBelowPeak(series, 2.0, 1);
    assert PeakAt(series, 0) == 1.0 && PeakAt(series, 1) == 1.0;
  }

  /** Once tripped the breaker stays tripped: the mask never allows trading again. */
  lemma {:induction false} MaskLatches(series: seq<real>, maxDrawdown: real, s: nat, t: nat)
    requires s <= t < |series| && series[0] > 0.0 && !BreakerMask(series, maxDrawdown)[s]
    ensures !BreakerMask(series, maxDrawdown)[t]
    decreases t - s
  {
    if s < t {
      MaskLatches(series, maxDrawdown, s, t - 1);
    }
  }

  // --- the drawdown series of returns ---

  ghost predicate AllPositive(series: seq<real>) {
    forall i :: 0 <= i < |series| ==> series[i] > 0.0
  }

  /** Daily returns of a positive equity curve as the engine reports them: zero on the first day, and never infinite. */
  function ReturnsOf(equity: seq<real>): (r: seq<real>)
    requires forall i :: 0 <= i < |equity| ==> equity[i] > 0.0
    ensures |r| == |equity|
  {
    seq(|equity|, t requires 0 <= t < |equity| && (forall i :: 0 <= i < |equity| ==> equity[i] > 0.0) =>
      Engine.ReturnOn(equity, t).value)
  }

  function Compounded(changes: seq<real>, t: nat): real
    requires t < |changes|
  {
    (if t == 0 then 1.0 else Compounded(changes, t - 1)) * (1.0 + changes[t])
  }

  function CompoundedSeries(changes: seq<real>): (c: seq<real>)
    ensures |c| == |changes|
  {
    seq(|changes|, t requires 0 <= t < |changes| => Compounded(changes, t))
  }

  lemma CancelStep(a: real, b: real, c: real)
    requires b > 0.0 && c > 0.0
    ensures b / c * (1.0 + (a / b - 1.0)) == a / c
  {
    var x := b / c;
    assert x * (a / b) * c == (x * c) * (a / b) == b * (a / b) == a;
    assert a / c * c == a;
  }

  lemma {:induction false} CompoundingUndoesReturns(equity: seq<real>, t: nat)
    requires t < |equity| && AllPositive(equity)
    ensures Compounded(ReturnsOf(equity), t) == equity[t] / equity[0]
  {
    if t == 0 {
      assert equity[0] / equity[0] == 1.0;
    } else {
      CompoundingUndoesReturns(equity, t - 1);
      CancelStep(equity[t], equity[t - 1], equity[0]);
    }
  }

  lemma MaxOfQuotients(a: real, b: real, c: real)
    requires c > 0.0
    ensures Max(a / c, b / c) == Max(a, b) / c
  {
    QuotientOf(a, c);
    QuotientOf(b, c);
    ScaledOrder(c, b / c, a / c);
  }

  lemma {:induction false} PeakOfCompounded(equity: seq<real>, t: nat)
    requires t < |equity| && AllPositive(equity)
    ensures PeakAt(CompoundedSeries(ReturnsOf(equity)), t) == PeakAt(equity, t) / equity[0]
  {
    CompoundingUndoesReturns(equity, t);
    if t > 0 {
      PeakOfCompounded(equity, t - 1);
      MaxOfQuotients(PeakAt(equity, t - 1), equity[t], equity[0]);
    }
  }

  lemma QuotientOfQuotients(a: real, b: real, c: real)
    requires b > 0.0 && c > 0.0
    ensures b / c > 0.0 && (a / c) / (b / c) == a / b
  {
    var x, y := a / c, b / c;
    assert x * c == a && y * c == b;
    assert y > 0.0;
    var r := a / b;
    assert r * b == a;
    assert (r * y) * c == a;
    assert r * y == x;
  }

  /** For a positive equity curve, the drawdown series computed from its returns is each value against the running
      maximum of the curve itself. */
  lemma DrawdownFromReturns(equity: seq<real>, t: nat)
    requires t < |equity| && AllPositive(equity)
    ensures CompoundedSeries(ReturnsOf(equity))[0] > 0.0
    ensures DrawdownAt(CompoundedSeries(ReturnsOf(equity)), t) == DrawdownAt(equity, t)
    ensures FallsBy(PeakAt(equity, t), DrawdownAt(equity, t), equity[t])
  {
    PeakTimesDrawdown(equity, t);
    CompoundingUndoesReturns(equity, 0);
    assert equity[0] / equity[0] == 1.0;
    CompoundingUndoesReturns(equity, t);
    PeakOfCompounded(equity, t);
    PeakIsLargest(equity, t);
    QuotientOfQuotients(equity[t], PeakAt(equity, t), equity[0]);
  }

  // --- the longest time under water ---

  ghost predicate UnderWater(dd: seq<real>, lo: int, hi: int) {
    0 <= lo <= hi <= |dd| && forall k :: lo <= k < hi ==> dd[k] < 0.0
  }

  /** The length of the longest run of days below the peak. */
  method MaxDrawdownDays(dd: seq<real>) returns (longest: nat)
    ensures exists lo, hi :: UnderWater(dd, lo, hi) && hi - lo == longest
    ensures forall lo, hi :: UnderWater(dd, lo, hi) ==> hi - lo <= longest
  {
    longest := 0;
    var current: nat := 0;
    ghost var best := 0;
    for i := 0 to |dd|
      invariant current <= i && UnderWater(dd, i - current, i)
      invariant i - current > 0 ==> dd[i - current - 1] >= 0.0
      invariant UnderWater(dd, best, best + longest)
      invariant forall lo, hi :: UnderWater(dd, lo, hi) && hi <= i ==> hi - lo <= longest
    {
      current := if dd[i] < 0.0 then current + 1 else 0;
      if current > longest {
        longest, best := current, i + 1 - current;
      }
      ghost var end := i + 1;
      forall lo | UnderWater(dd, lo, end)
        ensures end - lo <= current
      {
        if lo <= i {
          assert dd[i] < 0.0;
        }
      }
    }
  }
}
