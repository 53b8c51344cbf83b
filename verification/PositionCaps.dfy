/** Position and sector caps: clip every weight, then scale down any sector whose gross weight exceeds its cap. */
module PositionCaps {
  import opened Numbers

  /** The sector of each position, None if it has none. */
  type Sectors = seq<Option<string>>

  function Clip(x: real, limit: real): real {
    var m := Abs(limit);
    if x > m then m else if x < -m then -m else x
  }

  function ClipAll(weights: seq<real>, limit: real): (c: seq<real>)
    ensures |c| == |weights|
  {
    seq(|weights|, i requires 0 <= i < |weights| => Clip(weights[i], limit))
  }

  /** Gross weight of a sector among the first n positions. */
  function Gross(w: seq<real>, sectors: Sectors, sector: string, n: nat): real
    requires n <= |w| == |sectors|
  {
    if n == 0 then 0.0
    else Gross(w, sectors, sector, n - 1) + if sectors[n - 1] == Some(sector) then Abs(w[n - 1]) else 0.0
  }

  /** A cap of zero, or none, is no cap. */
  predicate Over(w: seq<real>, sectors: Sectors, sector: string, cap: Option<real>)
    requires |w| == |sectors|
  {
    cap.Some? && Gross(w, sectors, sector, |w|) > cap.value > 0.0
  }

  /** What a sector of the given gross weight is scaled by. */
  function Factor(gross: real, cap: Option<real>): real {
    if cap.Some? && gross > cap.value > 0.0 then cap.value / gross else 1.0
  }

  function Scaled(w: seq<real>, sectors: Sectors, cap: Option<real>, i: nat): real
    requires i < |w| == |sectors|
  {
    if sectors[i].Some? then w[i] * Factor(Gross(w, sectors, sectors[i].value, |w|), cap) else w[i]
  }

  function Capped(weights: seq<real>, limit: real, sectors: Sectors, cap: Option<real>): (c: seq<real>)
    requires |weights| == |sectors|
    ensures |c| == |weights|
  {
    var clipped := ClipAll(weights, limit);
    seq(|weights|, i requires 0 <= i < |weights| => Scaled(clipped, sectors, cap, i))
  }

  // --- the code: sectors are collected, then scaled one after the other in place ---

  method ApplyPositionCaps(weights: seq<real>, limit: real, sectors: Sectors, cap: Option<real>)
    returns (w: array<real>)
    requires |weights| == |sectors|
    ensures fresh(w) && w[..] == Capped(weights, limit, sectors, cap)
  {
    ghost var clipped, target := ClipAll(weights, limit), Capped(weights, limit, sectors, cap);
    w := new real[|weights|](i requires 0 <= i < |weights| => Clip(weights[i], limit));
    assert w[..] == clipped;
    var names := SectorNames(sectors);
    if cap.Some? && cap.value != 0.0 {
      for k := 0 to |names|
        invariant fresh(w) && w.Length == |weights|
        invariant forall i :: 0 <= i < |weights| ==>
          w[i] == if sectors[i].Some? && sectors[i].value in names[..k] then target[i] else clipped[i]
      {
        assert names[..k + 1] == names[..k] + [names[k]];
        CapSector(w, clipped, sectors, names[k], cap.value);
      }
      assert names[..|names|] == names;
    }
  }

  method CapSector(w: array<real>, ghost clipped: seq<real>, sectors: Sectors, name: string, cap: real)
    requires w.Length == |clipped| == |sectors|
    requires forall i :: 0 <= i < w.Length && sectors[i] == Some(name) ==> w[i] == clipped[i]
    modifies w
    ensures forall i :: 0 <= i < w.Length ==>
      w[i] == if sectors[i] == Some(name) then Scaled(clipped, sectors, Some(cap), i) else old(w[i])
  {
    GrossLocal(w[..], clipped, sectors, name, |clipped|);
    var gross := Gross(w[..], sectors, name, w.Length);
    if gross > cap > 0.0 {
      ScaleSector(w, sectors, name, cap / gross);
    }
  }

  method ScaleSector(w: array<real>, sectors: Sectors, name: string, factor: real)
    requires w.Length == |sectors|
    modifies w
    ensures forall i :: 0 <= i < w.Length ==>
      w[i] == if sectors[i] == Some(name) then old(w[i]) * factor else old(w[i])
  {
    for i := 0 to w.Length
      invariant forall j :: 0 <= j < i ==> w[j] == if sectors[j] == Some(name) then old(w[j]) * factor else old(w[j])
      invariant forall j :: i <= j < w.Length ==> w[j] == old(w[j])
    {
      if sectors[i] == Some(name) {
        w[i] := w[i] * factor;
      }
    }
  }

  /** The sectors that occur, in order of first occurrence. */
  method SectorNames(sectors: Sectors) returns (names: seq<string>)
    ensures forall i, j :: 0 <= i < j < |names| ==> names[i] != names[j]
    ensures forall name :: name in names <==> Some(name) in sectors
  {
    names := [];
    for i := 0 to |sectors|
      invariant forall a, b :: 0 <= a < b < |names| ==> names[a] != names[b]
      invariant forall name :: name in names <==> Some(name) in sectors[..i]
    {
      assert sectors[..i + 1] == sectors[..i] + [sectors[i]];
      if sectors[i].Some? && sectors[i].value !in names {
        names := names + [sectors[i].value];
      }
    }
    assert sectors[..|sectors|] == sectors;
  }

  // --- gross weights ---

  lemma {:induction false} GrossLocal(a: seq<real>, b: seq<real>, sectors: Sectors, sector: string, n: nat)
    requires n <= |a| == |b| == |sectors|
    requires forall i :: 0 <= i < n && sectors[i] == Some(sector) ==> a[i] == b[i]
    ensures Gross(a, sectors, sector, n) == Gross(b, sectors, sector, n)
  {
    if n > 0 {
      GrossLocal(a, b, sectors, sector, n - 1);
    }
  }

  lemma AbsOfProduct(x: real, f: real)
    requires f >= 0.0
    ensures Abs(x * f) == f * Abs(x)
  {
  }

  lemma {:induction false} GrossScales(
    a: seq<real>, b: seq<real>, sectors: Sectors, sector: string, f: real, n: nat)
    requires n <= |a| == |b| == |sectors| && f >= 0.0
    requires forall i :: 0 <= i < n && sectors[i] == Some(sector) ==> b[i] == a[i] * f
    ensures Gross(b, sectors, sector, n) == f * Gross(a, sectors, sector, n)
  {
    if n > 0 {
      GrossScales(a, b, sectors, sector, f, n - 1);
      var g, x := Gross(a, sectors, sector, n - 1), Abs(a[n - 1]);
      AbsOfProduct(a[n - 1], f);
      assert f * (g + x) == f * g + f * x;
    }
  }

  // --- what the caps guarantee ---

  /** Every sector ends within its cap; one that was over ends exactly at it, and the others keep their clipped
      gross. */
  lemma SectorWithinCap(weights: seq<real>, limit: real, sectors: Sectors, cap: Option<real>, sector: string)
    requires |weights| == |sectors|
    ensures
      var clipped, result := ClipAll(weights, limit), Capped(weights, limit, sectors, cap);
      && (Over(clipped, sectors, sector, cap) ==> Gross(result, sectors, sector, |weights|) == cap.value)
      && (!Over(clipped, sectors, sector, cap) ==>
            Gross(result, sectors, sector, |weights|) == Gross(clipped, sectors, sector, |weights|))
      && !Over(result, sectors, sector, cap)
  {
    var clipped, result := ClipAll(weights, limit), Capped(weights, limit, sectors, cap);
    if Over(clipped, sectors, sector, cap) {
      var gross := Gross(clipped, sectors, sector, |weights|);
      QuotientInUnit(cap.value, gross);
      GrossScales(clipped, result, sectors, sector, cap.value / gross, |weights|);
      assert cap.value / gross * gross == cap.value;
    } else {
      GrossLocal(result, clipped, sectors, sector, |weights|);
    }
  }

  lemma QuotientInUnit(a: real, b: real)
    requires 0.0 < a < b
    ensures 0.0 < a / b < 1.0
  {
    var r := a / b;
    assert r * b == a;
    if r >= 1.0 {
      MulMonotone(b, 1.0, r);
    }
    if r <= 0.0 {
      MulMonotone(b, r, 0.0);
    }
  }

  lemma ProductSign(x: real, f: real)
    requires f > 0.0
    ensures Sign(x * f) == Sign(x)
  {
    if x > 0.0 {
      MulStrict(f, 0.0, x);
    } else if x < 0.0 {
      MulStrict(f, x, 0.0);
    }
  }

  lemma ShrinkMagnitude(y: real, f: real)
    requires y >= 0.0 && f <= 1.0
    ensures f * y <= y
  {
    MulMonotone(y, f, 1.0);
  }

  lemma ShrinkKeepsSide(x: real, f: real)
    requires 0.0 < f < 1.0
    ensures Sign(x * f) == Sign(x) && Abs(x * f) <= Abs(x)
  {
    ProductSign(x, f);
    AbsOfProduct(x, f);
    ShrinkMagnitude(Abs(x), f);
  }

  /** Every weight ends within the position limit, never larger than it was, and on the side it was on; a limit that is
      not zero never wipes out a position. */
  lemma WeightWithinLimit(weights: seq<real>, limit: real, sectors: Sectors, cap: Option<real>, i: nat)
    requires i < |weights| == |sectors|
    ensures
      var now := Capped(weights, limit, sectors, cap)[i];
      && Abs(now) <= Abs(limit)
      && Abs(now) <= Abs(weights[i])
      && (limit != 0.0 ==> Sign(now) == Sign(weights[i]))
  {
    var clipped := ClipAll(weights, limit);
    if sectors[i].Some? && Over(clipped, sectors, sectors[i].value, cap) {
      var gross := Gross(clipped, sectors, sectors[i].value, |weights|);
      QuotientInUnit(cap.value, gross);
      ShrinkKeepsSide(clipped[i], cap.value / gross);
    }
  }

  /** It is merely clipped, to the smaller of its own magnitude and the limit, exactly if it clips to nothing, has no
      sector, or its sector complies once clipped; otherwise it ends smaller. */
  lemma MerelyClippedIff(weights: seq<real>, limit: real, sectors: Sectors, cap: Option<real>, i: nat)
    requires i < |weights| == |sectors|
    ensures
      var now, clipped := Capped(weights, limit, sectors, cap)[i], ClipAll(weights, limit);
      && Abs(clipped[i]) == Min(Abs(weights[i]), Abs(limit))
      && clipped[i] == Clip(weights[i], limit) && clipped[i] * weights[i] >= 0.0
      && (now == clipped[i]
          <==> clipped[i] == 0.0 || sectors[i].None? || !Over(clipped, sectors, sectors[i].value, cap))
  {
    var clipped := ClipAll(weights, limit);
    ClipKeepsSide(weights[i], limit);
    if sectors[i].Some? && Over(clipped, sectors, sectors[i].value, cap) {
      var gross := Gross(clipped, sectors, sectors[i].value, |weights|);
      QuotientInUnit(cap.value, gross);
      ShrinkChanges(clipped[i], cap.value / gross);
    }
  }

  lemma ShrinkChanges(x: real, f: real)
    requires 0.0 < f < 1.0
    ensures x * f == x <==> x == 0.0
  {
    if x > 0.0 {
      MulStrict(x, f, 1.0);
    } else if x < 0.0 {
      MulStrict(-x, f, 1.0);
      assert x * f == -((-x) * f);
    }
  }

  lemma ClipKeepsSide(x: real, limit: real)
    ensures Clip(x, limit) * x >= 0.0
  {
    var c := Clip(x, limit);
    if x >= 0.0 {
      MulNonNegative(c, x);
    } else {
      MulNonNegative(-c, -x);
      assert (-c) * (-x) == c * x;
    }
  }

  /** Within a sector, the caps keep the proportions of the clipped weights. */
  lemma SectorKeepsProportions(weights: seq<real>, limit: real, sectors: Sectors, cap: Option<real>, i: nat, j: nat)
    requires i < |weights| == |sectors| && j < |weights| && sectors[i] == sectors[j]
    ensures
      var clipped, result := ClipAll(weights, limit), Capped(weights, limit, sectors, cap);
      result[i] * clipped[j] == result[j] * clipped[i]
  {
    var clipped := ClipAll(weights, limit);
    if sectors[i].Some? && Over(clipped, sectors, sectors[i].value, cap) {
      var f := cap.value / Gross(clipped, sectors, sectors[i].value, |weights|);
      assert (clipped[i] * f) * clipped[j] == (clipped[j] * f) * clipped[i];
    }
  }

  /** Capping twice is capping once. */
  lemma CapsIdempotent(weights: seq<real>, limit: real, sectors: Sectors, cap: Option<real>)
    requires |weights| == |sectors|
    ensures
      var once := Capped(weights, limit, sectors, cap);
      Capped(once, limit, sectors, cap) == once
  {
    var once := Capped(weights, limit, sectors, cap);
    forall i | 0 <= i < |weights|
      ensures ClipAll(once, limit)[i] == once[i]
    {
      WeightWithinLimit(weights, limit, sectors, cap, i);
    }
    assert ClipAll(once, limit) == once;
    forall i | 0 <= i < |weights|
      ensures Scaled(once, sectors, cap, i) == once[i]
    {
      if sectors[i].Some? {
        SectorWithinCap(weights, limit, sectors, cap, sectors[i].value);
      }
    }
  }
}
