/** Frames as the engine and the strategies read them: rows of dates by columns of symbols, with None for a missing
    cell, and the two pandas idioms built on them. */
module Frames {
  import opened Numbers

  type Row = seq<Option<real>>
  type Frame = seq<Row>

  predicate Shaped(frame: Frame, days: nat, symbols: nat) {
    |frame| == days && forall d :: 0 <= d < days ==> |frame[d]| == symbols
  }

  /** Forward fill: the latest present value at or before day d. */
  function FilledForward(frame: Frame, d: nat, s: nat): Option<real>
    requires d < |frame| && forall k :: 0 <= k <= d ==> s < |frame[k]|
  {
    if frame[d][s].Some? || d == 0 then frame[d][s] else FilledForward(frame, d - 1, s)
  }

  predicate AllPresent(values: seq<Option<real>>) {
    forall i :: 0 <= i < |values| ==> values[i].Some?
  }

  function Present(values: seq<Option<real>>): seq<real>
    requires AllPresent(values)
  {
    seq(|values|, i requires 0 <= i < |values| => values[i].value)
  }

  /** A statistic of the last window of a column; it needs a full window of present values. */
  function Trailing(values: seq<Option<real>>, window: nat, statistic: seq<real> -> Option<real>): Option<real> {
    if |values| < window then None
    else
      var last := values[|values| - window..];
      if AllPresent(last) then statistic(Present(last)) else None
  }

  lemma {:induction false} FilledForwardLocal(f1: Frame, f2: Frame, d: nat, s: nat)
    requires d < |f1| && d < |f2| && forall k :: 0 <= k <= d ==> s < |f1[k]|
    requires forall k :: 0 <= k <= d ==> f1[k] == f2[k]
    ensures FilledForward(f1, d, s) == FilledForward(f2, d, s)
  {
    if d > 0 {
      FilledForwardLocal(f1, f2, d - 1, s);
    }
  }

  /** All w values before day d are present. */
  ghost predicate FullWindow(column: seq<Option<real>>, d: nat, w: nat)
    requires d <= |column|
  {
    w <= d && forall k :: d - w <= k < d ==> column[k].Some?
  }

  lemma TrailingIsWindow(
    column: seq<Option<real>>, w: nat, statistic: seq<real> -> Option<real>, window: seq<real>)
    requires FullWindow(column, |column|, w) ==>
      |window| == w && forall k :: 0 <= k < w ==> window[k] == column[|column| - w + k].value
    ensures Trailing(column, w, statistic)
         == if FullWindow(column, |column|, w) then statistic(window) else None
  {
    var d := |column|;
    if w <= d {
      var last := column[d - w..];
      assert forall k :: 0 <= k < w ==> last[k] == column[d - w + k];
      if AllPresent(last) {
        forall k | d - w <= k < d
          ensures column[k].Some?
        {
          assert last[k - (d - w)].Some?;
        }
        assert Present(last) == window;
      } else {
        var k :| 0 <= k < w && last[k].None?;
        assert column[d - w + k].None?;
      }
    }
  }
}
