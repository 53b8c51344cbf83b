/** False-discovery control for the pair scan: sort the p-values, find the last one under its rising threshold, and
    reject everything up to it. */
module BenjaminiHochberg {
  import opened Numbers

  // --- the procedure ---

  function Insert(x: real, s: seq<real>): (r: seq<real>)
    ensures |r| == |s| + 1
  {
    if s == [] || s[|s| - 1] <= x then s + [x] else Insert(x, s[..|s| - 1]) + [s[|s| - 1]]
  }

  function Sort(s: seq<real>): (r: seq<real>)
    ensures |r| == |s|
  {
    if s == [] then [] else Insert(s[|s| - 1], Sort(s[..|s| - 1]))
  }

  /** What the k-th smallest of m p-values may be at most. */
  function Threshold(k: nat, m: nat, alpha: real): real
    requires m > 0
  {
    k as real / m as real * alpha
  }

  /** How many of the first n ranked p-values count as passed: up to the last one under its threshold. */
  function StepUp(ranked: seq<real>, alpha: real, n: nat): nat
    requires n <= |ranked|
  {
    if n == 0 then 0
    else if ranked[n - 1] <= Threshold(n, |ranked|, alpha) then n
    else StepUp(ranked, alpha, n - 1)
  }

  function Benjamini(pvalues: seq<real>, alpha: real): (mask: seq<bool>)
    ensures |mask| == |pvalues|
  {
    var ranked := Sort(pvalues);
    var passed := StepUp(ranked, alpha, |ranked|);
    StepUpRange(ranked, alpha, |ranked|);
    seq(|pvalues|, i requires 0 <= i < |pvalues| && passed <= |ranked| =>
      passed > 0 && pvalues[i] <= ranked[passed - 1])
  }

  ghost function Rejected(pvalues: seq<real>, alpha: real): set<nat> {
    set i: nat | i < |pvalues| && Benjamini(pvalues, alpha)[i]
  }

  // --- sorting ---

  ghost predicate Ascending(s: seq<real>) {
    forall i, j :: 0 <= i <= j < |s| ==> s[i] <= s[j]
  }

  lemma {:induction false} InsertMultiset(x: real, s: seq<real>)
    ensures multiset(Insert(x, s)) == multiset(s) + multiset{x}
  {
    if s != [] && s[|s| - 1] > x {
      InsertMultiset(x, s[..|s| - 1]);
      assert s == s[..|s| - 1] + [s[|s| - 1]];
    }
  }

  lemma {:induction false} InsertAscending(x: real, s: seq<real>, most: real)
    requires Ascending(s) && x <= most && forall i :: 0 <= i < |s| ==> s[i] <= most
    ensures Ascending(Insert(x, s)) && forall i :: 0 <= i <= |s| ==> Insert(x, s)[i] <= most
  {
    if s != [] && s[|s| - 1] > x {
      InsertAscending(x, s[..|s| - 1], s[|s| - 1]);
    }
  }

  lemma {:induction false} SortAscends(s: seq<real>)
    ensures Ascending(Sort(s))
  {
    if s != [] {
      var x, sorted := s[|s| - 1], Sort(s[..|s| - 1]);
      SortAscends(s[..|s| - 1]);
      InsertAscending(x, sorted, if sorted == [] then x else Max(x, sorted[|sorted| - 1]));
    }
  }

  lemma {:induction false} SortPermutes(s: seq<real>)
    ensures multiset(Sort(s)) == multiset(s)
  {
    if s != [] {
      SortPermutes(s[..|s| - 1]);
      InsertMultiset(s[|s| - 1], Sort(s[..|s| - 1]));
      MultisetWithoutLast(s);
    }
  }

  lemma SortFacts(s: seq<real>)
    ensures multiset(Sort(s)) == multiset(s) && Ascending(Sort(s))
  {
    SortAscends(s);
    SortPermutes(s);
  }

  lemma LastIsLargest(s: seq<real>, x: real)
    requires Ascending(s) && x in multiset(s)
    ensures s != [] && x <= s[|s| - 1]
  {
    assert x in s;
  }

  lemma SameLargest(a: seq<real>, b: seq<real>)
    requires Ascending(a) && Ascending(b) && multiset(a) == multiset(b) && a != []
    ensures b != [] && a[|a| - 1] == b[|b| - 1]
  {
    assert a[|a| - 1] in multiset(a);
    LastIsLargest(b, a[|a| - 1]);
    assert b[|b| - 1] in multiset(b);
    LastIsLargest(a, b[|b| - 1]);
  }

  lemma SameFronts(a: seq<real>, b: seq<real>)
    requires Ascending(a) && Ascending(b) && multiset(a) == multiset(b) && a != []
    ensures b != []
    ensures
      var front, front' := a[..|a| - 1], b[..|b| - 1];
      Ascending(front) && Ascending(front') && multiset(front) == multiset(front')
  {
    SameLargest(a, b);
    MultisetWithoutLast(a);
    MultisetWithoutLast(b);
  }

  lemma {:induction false} AscendingUnique(a: seq<real>, b: seq<real>)
    requires Ascending(a) && Ascending(b) && multiset(a) == multiset(b)
    ensures a == b
    decreases |a|
  {
    if a == [] {
      assert |b| == |multiset(b)| == |multiset(a)| == 0;
    } else {
      SameFronts(a, b);
      SameLargest(a, b);
      AscendingUnique(a[..|a| - 1], b[..|b| - 1]);
      Reassemble(a, b);
    }
  }

  lemma Reassemble(a: seq<real>, b: seq<real>)
    requires a != [] && b != [] && a[..|a| - 1] == b[..|b| - 1] && a[|a| - 1] == b[|b| - 1]
    ensures a == b
  {
    assert a == a[..|a| - 1] + [a[|a| - 1]];
    assert b == b[..|b| - 1] + [b[|b| - 1]];
  }

  lemma MultisetWithoutLast(s: seq<real>)
    requires s != []
    ensures multiset(s[..|s| - 1]) == multiset(s) - multiset{s[|s| - 1]}
    ensures multiset(s) == multiset(s[..|s| - 1]) + multiset{s[|s| - 1]}
  {
    assert s == s[..|s| - 1] + [s[|s| - 1]];
  }

  // --- counting ---

  function CountAtMost(s: seq<real>, c: real): nat {
    if s == [] then 0 else CountAtMost(s[..|s| - 1], c) + if s[|s| - 1] <= c then 1 else 0
  }

  lemma CountInsert(x: real, s: seq<real>, c: real)
    ensures CountAtMost(Insert(x, s), c) == CountAtMost(s, c) + if x <= c then 1 else 0
  {
    if s == [] || s[|s| - 1] <= x {
      assert (s + [x])[..|s|] == s;
    } else {
      var front := Insert(x, s[..|s| - 1]);
      assert (front + [s[|s| - 1]])[..|front|] == front;
      CountInsert(x, s[..|s| - 1], c);
    }
  }

  lemma {:induction false} CountSort(s: seq<real>, c: real)
    ensures CountAtMost(Sort(s), c) == CountAtMost(s, c)
  {
    if s != [] {
      CountSort(s[..|s| - 1], c);
      CountInsert(s[|s| - 1], Sort(s[..|s| - 1]), c);
    }
  }

  /** In an ascending sequence the values at most c are exactly the first ones. */
  lemma {:induction false} CountAscending(r: seq<real>, c: real)
    requires Ascending(r)
    ensures CountAtMost(r, c) <= |r|
    ensures forall k :: 0 <= k < |r| ==> (r[k] <= c <==> k < CountAtMost(r, c))
  {
    if r != [] {
      var n := |r| - 1;
      CountAscending(r[..n], c);
      assert forall k :: 0 <= k < n ==> r[..n][k] == r[k];
      if r[n] <= c && n > 0 {
        assert r[..n][n - 1] <= c;
      }
    }
  }

  ghost function IndicesAtMost(p: seq<real>, c: real): set<nat> {
    set i: nat | i < |p| && p[i] <= c
  }

  lemma {:induction false} IndicesCounted(p: seq<real>, c: real)
    ensures |IndicesAtMost(p, c)| == CountAtMost(p, c)
  {
    if p != [] {
      var n := |p| - 1;
      IndicesCounted(p[..n], c);
      var before := IndicesAtMost(p[..n], c);
      assert IndicesAtMost(p, c) == before + if p[n] <= c then {n} else {};
    }
  }

  /** A set of indices all at most c is no larger than the count, and the count in the ranked values is the same. */
  lemma SetWithinCount(p: seq<real>, c: real, s: set<nat>)
    requires forall i :: i in s ==> i < |p| && p[i] <= c
    ensures |s| <= CountAtMost(Sort(p), c)
  {
    IndicesCounted(p, c);
    CountSort(p, c);
    SubsetSize(s, IndicesAtMost(p, c));
  }

  lemma {:induction false} SubsetSize(a: set<nat>, b: set<nat>)
    requires a <= b
    ensures |a| <= |b|
    decreases |a|
  {
    if a != {} {
      var x :| x in a;
      SubsetSize(a - {x}, b - {x});
    }
  }

  // --- thresholds and the step-up index ---

  lemma ThresholdMonotone(j: nat, k: nat, m: nat, alpha: real)
    requires m > 0 && j <= k && alpha >= 0.0
    ensures Threshold(j, m, alpha) <= Threshold(k, m, alpha)
  {
    var a, b := j as real / m as real, k as real / m as real;
    assert b - a == (k - j) as real / m as real >= 0.0;
    MulMonotone(alpha, a, b);
  }

  lemma {:induction false} StepUpRange(ranked: seq<real>, alpha: real, n: nat)
    requires n <= |ranked|
    ensures StepUp(ranked, alpha, n) <= n
    ensures
      var k := StepUp(ranked, alpha, n);
      && (k > 0 ==> ranked[k - 1] <= Threshold(k, |ranked|, alpha))
      && forall j :: k < j <= n ==> ranked[j - 1] > Threshold(j, |ranked|, alpha)
  {
    if n > 0 && ranked[n - 1] > Threshold(n, |ranked|, alpha) {
      StepUpRange(ranked, alpha, n - 1);
    }
  }

  /** If at least n values are under the threshold of n, the procedure passes at least n, and all of them. */
  lemma EnoughSmallValuesPass(p: seq<real>, alpha: real, c: real)
    requires p != [] && alpha >= 0.0
    requires CountAtMost(Sort(p), c) > 0
    requires c <= Threshold(CountAtMost(Sort(p), c), |p|, alpha)
    ensures
      var k := StepUp(Sort(p), alpha, |p|);
      CountAtMost(Sort(p), c) <= k <= |p| && Sort(p)[CountAtMost(Sort(p), c) - 1] <= Sort(p)[k - 1]
  {
    var ranked := Sort(p);
    SortFacts(p);
    CountAscending(ranked, c);
    StepUpRange(ranked, alpha, |p|);
    var n := CountAtMost(ranked, c);
    assert ranked[n - 1] <= c;
  }

  // --- the theorems ---

  /** The p-value is at most k alpha / m, in products only. */
  predicate UnderLine(x: real, k: nat, m: nat, alpha: real) {
    x * m as real <= k as real * alpha
  }

  /** The largest k for which the k-th smallest p-value is at most k alpha / m, zero if there is none. */
  ghost predicate IsStepUpIndex(ranked: seq<real>, alpha: real, k: nat) {
    && k <= |ranked|
    && (k > 0 ==> UnderLine(ranked[k - 1], k, |ranked|, alpha))
    && forall i :: k <= i < |ranked| ==> !UnderLine(ranked[i], i + 1, |ranked|, alpha)
  }

  lemma ThresholdIs(x: real, k: nat, m: nat, alpha: real)
    requires m > 0
    ensures x <= Threshold(k, m, alpha) <==> UnderLine(x, k, m, alpha)
  {
    var n := m as real;
    ThresholdTimes(k as real, n, alpha);
    if x <= Threshold(k, m, alpha) {
      MulMonotone(n, x, Threshold(k, m, alpha));
    } else {
      MulStrict(n, Threshold(k, m, alpha), x);
    }
  }

  lemma ThresholdTimes(k: real, n: real, alpha: real)
    requires n > 0.0
    ensures n * (k / n * alpha) == k * alpha
  {
    assert n * (k / n) == k;
  }

  lemma StepUpIsIndex(ranked: seq<real>, alpha: real)
    ensures IsStepUpIndex(ranked, alpha, StepUp(ranked, alpha, |ranked|))
  {
    var m, k := |ranked|, StepUp(ranked, alpha, |ranked|);
    StepUpRange(ranked, alpha, m);
    if k > 0 {
      ThresholdIs(ranked[k - 1], k, m, alpha);
    }
    forall i | k <= i < m
      ensures !UnderLine(ranked[i], i + 1, m, alpha)
    {
      assert ranked[i + 1 - 1] > Threshold(i + 1, m, alpha);
      ThresholdIs(ranked[i], i + 1, m, alpha);
    }
  }

  /** The number of rejections is the step-up index of the sorted p-values, ties included. */
  lemma RejectionsAreStepUp(p: seq<real>, alpha: real)
    requires alpha >= 0.0
    ensures IsStepUpIndex(Sort(p), alpha, |Rejected(p, alpha)|)
  {
    StepUpIsIndex(Sort(p), alpha);
    RejectionsCounted(p, alpha);
  }

  lemma RejectionsCounted(p: seq<real>, alpha: real)
    requires alpha >= 0.0
    ensures |Rejected(p, alpha)| == StepUp(Sort(p), alpha, |Sort(p)|)
  {
    var ranked := Sort(p);
    SortFacts(p);
    StepUpRange(ranked, alpha, |ranked|);
    var k := StepUp(ranked, alpha, |ranked|);
    if k == 0 {
      assert Rejected(p, alpha) == {};
    } else {
      var cutoff := ranked[k - 1];
      assert Rejected(p, alpha) == IndicesAtMost(p, cutoff);
      IndicesCounted(p, cutoff);
      CountSort(p, cutoff);
      CountAscending(ranked, cutoff);
      var n := CountAtMost(ranked, cutoff);
      assert k - 1 < n;
      ThresholdMonotone(k, n, |p|, alpha);
      EnoughSmallValuesPass(p, alpha, cutoff);
    }
  }

  /** Self-consistency: with R rejections, every rejected p-value is at most R alpha / m. */
  lemma RejectedAreSelfConsistent(p: seq<real>, alpha: real, i: nat)
    requires alpha >= 0.0 && i in Rejected(p, alpha)
    ensures p[i] * |p| as real <= |Rejected(p, alpha)| as real * alpha
  {
    RejectedUnderThreshold(p, alpha, i);
    ThresholdIs(p[i], |Rejected(p, alpha)|, |p|, alpha);
  }

  lemma RejectedUnderThreshold(p: seq<real>, alpha: real, i: nat)
    requires alpha >= 0.0 && i in Rejected(p, alpha)
    ensures p[i] <= Threshold(|Rejected(p, alpha)|, |p|, alpha)
  {
    RejectionsCounted(p, alpha);
    SortFacts(p);
    StepUpRange(Sort(p), alpha, |p|);
  }

  /** Maximality: every set of hypotheses whose p-values are all at most its size times alpha / m is rejected. So the
      procedure returns the largest self-consistent set. */
  lemma SelfConsistentSetsAreRejected(p: seq<real>, alpha: real, s: set<nat>)
    requires p != [] && alpha >= 0.0
    requires forall i :: i in s ==> i < |p| && p[i] * |p| as real <= |s| as real * alpha
    ensures s <= Rejected(p, alpha)
  {
    if s != {} {
      var c := Threshold(|s|, |p|, alpha);
      forall i | i in s
        ensures i < |p| && p[i] <= c
      {
        ThresholdIs(p[i], |s|, |p|, alpha);
      }
      SetWithinCount(p, c, s);
      ThresholdMonotone(|s|, CountAtMost(Sort(p), c), |p|, alpha);
      forall i | i in s
        ensures i in Rejected(p, alpha)
      {
        SmallValueRejected(p, alpha, c, i);
      }
    }
  }

  lemma SmallValueRejected(p: seq<real>, alpha: real, c: real, i: nat)
    requires alpha >= 0.0 && i < |p| && p[i] <= c
    requires c <= Threshold(CountAtMost(Sort(p), c), |p|, alpha)
    ensures i in Rejected(p, alpha)
  {
    InCountBelow(p, c, i);
    EnoughSmallValuesPass(p, alpha, c);
  }

  /** A value at most c is at most the last ranked value that is. */
  lemma InCountBelow(p: seq<real>, c: real, i: nat)
    requires i < |p| && p[i] <= c
    ensures 0 < CountAtMost(Sort(p), c) <= |Sort(p)| && p[i] <= Sort(p)[CountAtMost(Sort(p), c) - 1]
  {
    var ranked := Sort(p);
    SortFacts(p);
    CountAscending(ranked, c);
    assert p[i] in multiset(ranked);
    var k :| 0 <= k < |ranked| && ranked[k] == p[i];
  }

  /** A looser level never rejects less. */
  lemma MonotoneInAlpha(p: seq<real>, alpha: real, beta: real)
    requires 0.0 <= alpha <= beta
    ensures Rejected(p, alpha) <= Rejected(p, beta)
  {
    if p != [] {
      var s := Rejected(p, alpha);
      forall i | i in s
        ensures i < |p| && p[i] * |p| as real <= |s| as real * beta
      {
        RejectedAreSelfConsistent(p, alpha, i);
        MulMonotone(|s| as real, alpha, beta);
      }
      SelfConsistentSetsAreRejected(p, beta, s);
    }
  }

  /** The order in which hypotheses are listed does not matter: in a permutation, equal p-values share their fate. */
  lemma PermutationEquivariant(p: seq<real>, q: seq<real>, alpha: real, i: nat, j: nat)
    requires multiset(p) == multiset(q) && i < |p| && j < |q| && p[i] == q[j]
    ensures Benjamini(p, alpha)[i] == Benjamini(q, alpha)[j]
  {
    SortFacts(p);
    SortFacts(q);
    AscendingUnique(Sort(p), Sort(q));
  }
}
