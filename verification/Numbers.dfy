/** Shared vocabulary: optional values (a missing price is NaN in the frames of the program) and
    the few real-valued helpers that numpy supplies there. */
module Numbers {

  datatype Option<+T> = None | Some(value: T) {
    function GetOr(default: T): T {
      match this
      case Some(v) => v
      case None => default
    }
  }

  function Abs(x: real): real {
    if x < 0.0 then -x else x
  }

  function Min(x: real, y: real): real {
    if x <= y then x else y
  }

  function Max(x: real, y: real): real {
    if x >= y then x else y
  }

  function AbsInt(x: int): nat {
    if x < 0 then -x else x
  }

  /** numpy's sign. */
  function Sign(x: real): int {
    if x > 0.0 then 1 else if x < 0.0 then -1 else 0
  }

  function Sum(s: seq<real>): real {
    if s == [] then 0.0 else Sum(s[..|s| - 1]) + s[|s| - 1]
  }

  lemma MulMonotone(a: real, x: real, y: real)
    requires a >= 0.0 && x <= y
    ensures a * x <= a * y
  {
    assert a * (y - x) >= 0.0;
  }

  lemma MulStrict(a: real, x: real, y: real)
    requires a > 0.0 && x < y
    ensures a * x < a * y
  {
    assert a * (y - x) > 0.0;
  }

  lemma MulNonNegative(a: real, b: real)
    requires a >= 0.0 && b >= 0.0
    ensures a * b >= 0.0
  {
  }

  /** If each step from a good state leads to a good state exactly when it is harmless, all states are good exactly
      when all steps are harmless. */
  lemma {:induction false} GoodIffHarmless(good: nat -> bool, harmless: nat -> bool, n: nat)
    requires good(0) && forall k :: 0 <= k < n && good(k) ==> (good(k + 1) <==> harmless(k))
    ensures (forall k :: 0 <= k <= n ==> good(k)) <==> (forall k :: 0 <= k < n ==> harmless(k))
  {
    if n > 0 {
      GoodIffHarmless(good, harmless, n - 1);
      if good(n - 1) {
        assert good(n - 1 + 1) <==> harmless(n - 1);
      }
    }
  }
}
