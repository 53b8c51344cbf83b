/** The universe code as it runs: grouping events by name, scanning each group, writing the matrix cell by cell, and the
    membership table of the repository. */
module Universe {
  import opened Numbers
  import opened UniverseModel

  method BuildMembershipIntervals(events: seq<Event>) returns (intervals: seq<Membership>)
    ensures intervals == Intervals(events)
  {
    var order, byKey := GroupByKey(events);
    intervals := [];
    for k := 0 to |order|
      invariant intervals == IntervalsOf(order[..k], events)
    {
      var key := order[k];
      var s := ScanEvents(SortByDate(byKey[key]), key);
      assert order[..k + 1][..k] == order[..k];
      intervals := intervals + Finished(s, key);
    }
    assert order[..|order|] == order;
  }

  method ScanEvents(evs: seq<Event>, key: Key) returns (s: Scan)
    ensures s == ScanAll(evs, key)
  {
    var closed, openFrom := [], None;
    for j := 0 to |evs|
      invariant Scan(closed, openFrom) == ScanAll(evs[..j], key)
    {
      assert evs[..j + 1][..j] == evs[..j];
      var event := evs[j];
      if event.action == Add {
        if openFrom.None? {
          openFrom := Some(event.date);
        }
      } else if openFrom.Some? {
        closed := closed + [Membership(key.index, key.symbol, openFrom.value, Some(event.date))];
        openFrom := None;
      }
    }
    assert evs[..|evs|] == evs;
    s := Scan(closed, openFrom);
  }

  /** The groups hold exactly the events seen so far, name by name. */
  ghost predicate Grouped(order: seq<Key>, byKey: map<Key, seq<Event>>, events: seq<Event>) {
    && order == KeysOf(events)
    && (forall key :: key in order <==> key in byKey)
    && (forall key :: key in byKey ==> byKey[key] == EventsFor(events, key))
    && (forall key :: key !in byKey ==> EventsFor(events, key) == [])
  }

  lemma AppendToGroups(events: seq<Event>, i: nat, key: Key)
    requires i < |events|
    ensures EventsFor(events[..i + 1], key)
         == EventsFor(events[..i], key) + if KeyOf(events[i]) == key then [events[i]] else []
    ensures KeysOf(events[..i + 1])
         == KeysOf(events[..i]) + if KeyOf(events[i]) in KeysOf(events[..i]) then [] else [KeyOf(events[i])]
  {
    assert events[..i + 1][..i] == events[..i];
  }

  method GroupByKey(events: seq<Event>) returns (order: seq<Key>, byKey: map<Key, seq<Event>>)
    ensures Grouped(order, byKey, events)
  {
    order, byKey := [], map[];
    for i := 0 to |events|
      invariant Grouped(order, byKey, events[..i])
    {
      order, byKey := Append(order, byKey, events, i, events[i]);
    }
    assert events[..|events|] == events;
  }

  method Append(order: seq<Key>, byKey: map<Key, seq<Event>>, ghost events: seq<Event>, i: nat, e: Event)
    returns (order': seq<Key>, byKey': map<Key, seq<Event>>)
    requires i < |events| && e == events[i] && Grouped(order, byKey, events[..i])
    ensures Grouped(order', byKey', events[..i + 1])
  {
    var key := KeyOf(e);
    order', byKey' := order, byKey;
    if key !in byKey {
      order', byKey' := order + [key], byKey[key := []];
    }
    byKey' := byKey'[key := byKey'[key] + [e]];
    forall k
      ensures k in byKey' ==> byKey'[k] == EventsFor(events[..i + 1], k)
      ensures k !in byKey' ==> EventsFor(events[..i + 1], k) == []
    {
      AppendToGroups(events, i, k);
    }
    AppendToGroups(events, i, key);
  }

  method MembershipMatrix(intervals: seq<Membership>, dates: seq<int>, symbols: seq<string>)
    returns (mask: array2<bool>)
    ensures fresh(mask) && mask.Length0 == |dates| && mask.Length1 == |symbols|
    ensures forall d, s :: 0 <= d < |dates| && 0 <= s < |symbols| ==>
      (mask[d, s] <==> Eligible(intervals, symbols[s], dates[d]))
  {
    mask := new bool[|dates|, |symbols|]((_, _) => false);
    for k := 0 to |intervals|
      invariant fresh(mask)
      invariant forall d, s :: 0 <= d < |dates| && 0 <= s < |symbols| ==>
        (mask[d, s] <==> Eligible(intervals[..k], symbols[s], dates[d]))
    {
      var m := intervals[k];
      forall d, s | 0 <= d < |dates| && 0 <= s < |symbols|
        ensures Eligible(intervals[..k + 1], symbols[s], dates[d])
           <==> Eligible(intervals[..k], symbols[s], dates[d]) || (m.symbol == symbols[s] && Contains(m, dates[d]))
      {
        EligibleAppend(intervals, k, symbols[s], dates[d]);
      }
      forall d, s | 0 <= d < |dates| && 0 <= s < |symbols| && symbols[s] == m.symbol && Contains(m, dates[d]) {
        mask[d, s] := true;
      }
    }
    assert intervals[..|intervals|] == intervals;
  }

  lemma EligibleAppend(rows: seq<Membership>, k: nat, symbol: string, day: int)
    requires k < |rows|
    ensures Eligible(rows[..k + 1], symbol, day)
       <==> Eligible(rows[..k], symbol, day) || (rows[k].symbol == symbol && Contains(rows[k], day))
  {
    var shorter, longer := rows[..k], rows[..k + 1];
    if Eligible(shorter, symbol, day) {
      var i :| 0 <= i < k && shorter[i].symbol == symbol && Contains(shorter[i], day);
      assert longer[i] == shorter[i];
    }
    if rows[k].symbol == symbol && Contains(rows[k], day) {
      assert longer[k] == rows[k];
    }
    if Eligible(longer, symbol, day) {
      var i :| 0 <= i <= k && longer[i].symbol == symbol && Contains(longer[i], day);
      if i < k {
        assert shorter[i] == longer[i];
      }
    }
  }

  class UniverseRepository {
    var rows: seq<Membership>

    constructor ()
      ensures rows == []
    {
      rows := [];
    }

    method AddUniverseMembership(added: seq<Membership>) returns (n: nat)
      modifies this
      ensures rows == old(rows) + added && n == |added|
    {
      rows := rows + added;
      n := |added|;
    }

    method GetUniverseMembership(index: string, asOf: int) returns (found: seq<Membership>)
      ensures found == MembersOn(rows, index, asOf)
    {
      found := [];
      for i := 0 to |rows|
        invariant found == MembersOn(rows[..i], index, asOf)
      {
        assert rows[..i + 1][..i] == rows[..i];
        var m := rows[i];
        if m.index == index && m.effectiveFrom <= asOf && (m.effectiveTo.None? || m.effectiveTo.value > asOf) {
          found := found + [m];
        }
      }
      assert rows[..|rows|] == rows;
    }
  }
}
