/** Membership and intervals read directly off the list of events, without sorting or replaying it. */
module UniverseEvents {
  import opened UniverseModel
  import opened UniverseTheorems

  /** The event speaks about the name no later than the day. */
  predicate Speaks(e: Event, key: Key, day: int) {
    e.index == key.index && e.symbol == key.symbol && e.date <= day
  }

  /** The i-th event is the latest that speaks about the name by the day; of several on one date, the last listed. */
  ghost predicate LastWord(events: seq<Event>, key: Key, day: int, i: nat) {
    && i < |events| && Speaks(events[i], key, day)
    && forall j :: 0 <= j < |events| && Speaks(events[j], key, day) ==>
         events[j].date < events[i].date || (events[j].date == events[i].date && j <= i)
  }

  /** What a replay has seen of a name by the day. */
  function Seen(events: seq<Event>, key: Key, day: int): seq<Event> {
    UpTo(SortByDate(EventsFor(events, key)), day)
  }

  lemma SeenMore(events: seq<Event>, key: Key, day: int)
    requires events != []
    ensures
      var before, e := events[..|events| - 1], events[|events| - 1];
      Seen(events, key, day) == if Speaks(e, key, day) then InsertByDate(e, Seen(before, key, day))
                                else Seen(before, key, day)
  {
    var before, e := events[..|events| - 1], events[|events| - 1];
    if KeyOf(e) == key {
      SortAppend(EventsFor(before, key), e);
      SortByDateSorts(EventsFor(before, key));
      UpToInsert(e, SortByDate(EventsFor(before, key)), day);
    } else {
      assert EventsFor(events, key) == EventsFor(before, key);
    }
  }

  lemma InsertEndsWith(e: Event, seen: seq<Event>)
    ensures InsertByDate(e, seen) != []
    ensures InsertByDate(e, seen)[|InsertByDate(e, seen)| - 1]
         == if seen == [] || seen[|seen| - 1].date <= e.date then e else seen[|seen| - 1]
  {
  }

  lemma LastWordMore(events: seq<Event>, key: Key, day: int, i: nat)
    requires events != [] && LastWord(events[..|events| - 1], key, day, i)
    ensures
      var e := events[|events| - 1];
      if Speaks(e, key, day) && events[i].date <= e.date then LastWord(events, key, day, |events| - 1)
      else LastWord(events, key, day, i)
  {
    var before := events[..|events| - 1];
    assert forall j :: 0 <= j < |before| ==> before[j] == events[j];
  }

  ghost predicate EndsWith(seen: seq<Event>, events: seq<Event>, key: Key, day: int, i: nat) {
    if seen == [] then
      forall j :: 0 <= j < |events| ==> !Speaks(events[j], key, day)
    else
      LastWord(events, key, day, i) && seen[|seen| - 1] == events[i]
  }

  lemma EndsWithMore(seen: seq<Event>, events: seq<Event>, key: Key, day: int, k: nat) returns (i: nat)
    requires events != [] && EndsWith(seen, events[..|events| - 1], key, day, k)
    ensures
      var e := events[|events| - 1];
      EndsWith(if Speaks(e, key, day) then InsertByDate(e, seen) else seen, events, key, day, i)
  {
    var before, e := events[..|events| - 1], events[|events| - 1];
    assert forall j :: 0 <= j < |before| ==> before[j] == events[j];
    InsertEndsWith(e, seen);
    if seen == [] {
      i := |events| - 1;
    } else {
      LastWordMore(events, key, day, k);
      i := if Speaks(e, key, day) && events[k].date <= e.date then |events| - 1 else k;
    }
  }

  /** A replay ends with the last word, if anything speaks about the name at all. */
  lemma {:induction false} SeenEndsWithLastWord(events: seq<Event>, key: Key, day: int) returns (i: nat)
    ensures EndsWith(Seen(events, key, day), events, key, day, i)
  {
    i := 0;
    if events != [] {
      var k := SeenEndsWithLastWord(events[..|events| - 1], key, day);
      i := EndsWithMore(Seen(events[..|events| - 1], key, day), events, key, day, k);
      SeenMore(events, key, day);
    }
  }

  /** A name is a member on a day exactly if the latest event about it by then, the last listed of its date, is an
      add. */
  lemma MemberIffLastWordIsAdd(events: seq<Event>, key: Key, day: int)
    ensures Member(events, key, day) <==> exists i: nat :: LastWord(events, key, day, i) && events[i].action.Add?
  {
    var seen := Seen(events, key, day);
    var k := SeenEndsWithLastWord(events, key, day);
    forall i: nat | LastWord(events, key, day, i)
      ensures seen != [] && i == k
    {
      assert Speaks(events[i], key, day);
    }
  }

  /** For any list of events in any order: some interval of the name contains the day exactly if the last word on the
      name by that day is an add. */
  lemma IntervalsMatchLastWord(events: seq<Event>, key: Key, day: int)
    ensures SomeIntervalContains(Intervals(events), key, day)
       <==> exists i: nat :: LastWord(events, key, day, i) && events[i].action.Add?
  {
    IntervalsMatchReplay(events, key, day);
    MemberIffLastWordIsAdd(events, key, day);
  }

  // --- where intervals begin and end ---

  ghost predicate Happened(events: seq<Event>, key: Key, action: Action, date: int) {
    Event(key.index, key.symbol, action, date) in events
  }

  /** Every interval begins with an add of the name and ends with a drop of it. */
  ghost predicate BoundedByEvents(m: Membership, events: seq<Event>) {
    && Happened(events, Key(m.index, m.symbol), Add, m.effectiveFrom)
    && (m.effectiveTo.Some? ==> Happened(events, Key(m.index, m.symbol), Drop, m.effectiveTo.value))
  }

  lemma {:induction false} InsertMembers(e: Event, sorted: seq<Event>, x: Event)
    ensures x in InsertByDate(e, sorted) <==> x == e || x in sorted
  {
    if sorted != [] && sorted[|sorted| - 1].date > e.date {
      InsertMembers(e, sorted[..|sorted| - 1], x);
      assert sorted == sorted[..|sorted| - 1] + [sorted[|sorted| - 1]];
    }
  }

  lemma {:induction false} SortMembers(events: seq<Event>, x: Event)
    ensures x in SortByDate(events) <==> x in events
  {
    if events != [] {
      SortMembers(events[..|events| - 1], x);
      InsertMembers(events[|events| - 1], SortByDate(events[..|events| - 1]), x);
      assert events == events[..|events| - 1] + [events[|events| - 1]];
    }
  }

  lemma {:induction false} EventsForMembers(events: seq<Event>, key: Key, x: Event)
    ensures x in EventsFor(events, key) <==> x in events && KeyOf(x) == key
  {
    if events != [] {
      EventsForMembers(events[..|events| - 1], key, x);
      assert events == events[..|events| - 1] + [events[|events| - 1]];
    }
  }

  ghost predicate ScanBounded(s: Scan, key: Key, events: seq<Event>) {
    && (forall m :: m in s.closed ==> m.index == key.index && m.symbol == key.symbol && BoundedByEvents(m, events))
    && (s.openFrom.Some? ==> Happened(events, key, Add, s.openFrom.value))
  }

  lemma {:induction false} ScanIsBounded(evs: seq<Event>, key: Key, events: seq<Event>)
    requires forall e :: e in evs ==> KeyOf(e) == key && e in events
    ensures ScanBounded(ScanAll(evs, key), key, events)
  {
    if evs != [] {
      var before, e := evs[..|evs| - 1], evs[|evs| - 1];
      ScanIsBounded(before, key, events);
      assert e in evs && e == Event(key.index, key.symbol, e.action, e.date);
    }
  }

  lemma IntervalsBoundedByEvents(events: seq<Event>, m: Membership)
    requires m in Intervals(events)
    ensures BoundedByEvents(m, events)
  {
    var key := Key(m.index, m.symbol);
    var evs := SortByDate(EventsFor(events, key));
    IntervalsOfMembers(KeysOf(events), events, m);
    forall e | e in evs
      ensures KeyOf(e) == key && e in events
    {
      SortMembers(EventsFor(events, key), e);
      EventsForMembers(events, key, e);
    }
    ScanIsBounded(evs, key, events);
  }
}
