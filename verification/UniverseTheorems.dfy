/** The intervals say exactly what a replay of the events says. */
module UniverseTheorems {
  import opened Numbers
  import opened UniverseModel

  ghost predicate ByDate(evs: seq<Event>) {
    forall i, j :: 0 <= i <= j < |evs| ==> evs[i].date <= evs[j].date
  }

  lemma {:induction false} InsertKeepsOrder(e: Event, sorted: seq<Event>, last: int)
    requires ByDate(sorted) && e.date <= last && forall i :: 0 <= i < |sorted| ==> sorted[i].date <= last
    ensures ByDate(InsertByDate(e, sorted))
    ensures forall i :: 0 <= i < |InsertByDate(e, sorted)| ==> InsertByDate(e, sorted)[i].date <= last
  {
    if sorted != [] && sorted[|sorted| - 1].date > e.date {
      InsertKeepsOrder(e, sorted[..|sorted| - 1], sorted[|sorted| - 1].date);
    }
  }

  lemma {:induction false} SortByDateSorts(events: seq<Event>)
    ensures ByDate(SortByDate(events))
  {
    if events != [] {
      var e, sorted := events[|events| - 1], SortByDate(events[..|events| - 1]);
      SortByDateSorts(events[..|events| - 1]);
      InsertKeepsOrder(
        e, sorted, if sorted == [] || sorted[|sorted| - 1].date <= e.date then e.date else sorted[|sorted| - 1].date);
    }
  }

  // --- one name ---

  /** The closed intervals are in order and do not overlap, and end no later than the day given. */
  ghost predicate InOrder(closed: seq<Membership>, key: Key, end: int) {
    && (forall i :: 0 <= i < |closed| ==>
          && closed[i].index == key.index && closed[i].symbol == key.symbol
          && closed[i].effectiveTo.Some?
          && closed[i].effectiveFrom <= closed[i].effectiveTo.value <= end)
    && (forall i, j :: 0 <= i < j < |closed| ==> closed[i].effectiveTo.value <= closed[j].effectiveFrom)
  }

  ghost predicate ScanOk(s: Scan, key: Key, last: int) {
    && InOrder(s.closed, key, if s.openFrom.Some? then s.openFrom.value else last)
    && (s.openFrom.Some? ==> s.openFrom.value <= last)
  }

  lemma {:induction false} ScanInOrder(evs: seq<Event>, key: Key, last: int)
    requires ByDate(evs) && forall i :: 0 <= i < |evs| ==> evs[i].date <= last
    ensures ScanOk(ScanAll(evs, key), key, last)
  {
    if evs != [] {
      ScanInOrder(evs[..|evs| - 1], key, evs[|evs| - 1].date);
    }
  }

  ghost predicate Covered(rows: seq<Membership>, day: int) {
    exists i :: 0 <= i < |rows| && Contains(rows[i], day)
  }

  lemma CoveredAppend(rows: seq<Membership>, m: Membership, day: int)
    ensures Covered(rows + [m], day) <==> Covered(rows, day) || Contains(m, day)
  {
    if Covered(rows, day) {
      var i :| 0 <= i < |rows| && Contains(rows[i], day);
      assert (rows + [m])[i] == rows[i];
    }
    if Contains(m, day) {
      assert (rows + [m])[|rows|] == m;
    }
  }

  lemma CoveredFinished(s: Scan, key: Key, day: int)
    ensures Covered(Finished(s, key), day) <==>
      Covered(s.closed, day) || (s.openFrom.Some? && s.openFrom.value <= day)
  {
    if s.openFrom.Some? {
      CoveredAppend(s.closed, Membership(key.index, key.symbol, s.openFrom.value, None), day);
    } else {
      assert Finished(s, key) == s.closed;
    }
  }

  /** After the day of the last event: open exactly if that event is an add, and no closed interval reaches the day. */
  lemma {:induction false} ScanAtEnd(evs: seq<Event>, key: Key, day: int)
    requires ByDate(evs) && evs != [] && evs[|evs| - 1].date <= day
    ensures ScanAll(evs, key).openFrom.Some? <==> Replay(evs)
    ensures !Covered(ScanAll(evs, key).closed, day)
  {
    ScanInOrder(evs, key, evs[|evs| - 1].date);
  }

  lemma {:induction false} UpToAll(evs: seq<Event>, day: int)
    requires forall i :: 0 <= i < |evs| ==> evs[i].date <= day
    ensures UpTo(evs, day) == evs
  {
    if evs != [] {
      UpToAll(evs[..|evs| - 1], day);
    }
  }

  lemma {:induction false} ScanMatchesReplay(evs: seq<Event>, key: Key, day: int)
    requires ByDate(evs)
    ensures Covered(Finished(ScanAll(evs, key), key), day) <==> Replay(UpTo(evs, day))
  {
    CoveredFinished(ScanAll(evs, key), key, day);
    if evs != [] {
      var before, e := evs[..|evs| - 1], evs[|evs| - 1];
      if e.date <= day {
        UpToAll(evs, day);
        ScanAtEnd(evs, key, day);
        ScanInOrder(evs, key, e.date);
      } else {
        var s := ScanAll(before, key);
        ScanMatchesReplay(before, key, day);
        CoveredFinished(s, key, day);
        if e.action.Drop? && s.openFrom.Some? {
          CoveredAppend(s.closed, Membership(key.index, key.symbol, s.openFrom.value, Some(e.date)), day);
        }
      }
    }
  }

  // --- all names ---

  lemma {:induction false} KeysOfFacts(events: seq<Event>)
    ensures forall i, j :: 0 <= i < j < |KeysOf(events)| ==> KeysOf(events)[i] != KeysOf(events)[j]
    ensures forall key :: key !in KeysOf(events) ==> EventsFor(events, key) == []
  {
    if events != [] {
      KeysOfFacts(events[..|events| - 1]);
    }
  }

  lemma IntervalsForKey(events: seq<Event>, key: Key)
    ensures forall m :: m in IntervalsFor(events, key) ==> m.index == key.index && m.symbol == key.symbol
    ensures
      var rows := IntervalsFor(events, key);
      && (forall i :: 0 <= i < |rows| && rows[i].effectiveTo.Some? ==>
            rows[i].effectiveFrom <= rows[i].effectiveTo.value)
      && (forall i, j :: 0 <= i < j < |rows| ==>
            rows[i].effectiveTo.Some? && rows[i].effectiveTo.value <= rows[j].effectiveFrom)
  {
    var evs := SortByDate(EventsFor(events, key));
    SortByDateSorts(EventsFor(events, key));
    ScanInOrder(evs, key, if evs == [] then 0 else evs[|evs| - 1].date);
  }

  lemma IntervalHasKey(events: seq<Event>, key: Key, m: Membership)
    ensures m in IntervalsFor(events, key) ==> Key(m.index, m.symbol) == key
  {
    IntervalsForKey(events, key);
  }

  lemma {:induction false} IntervalsOfMembers(keys: seq<Key>, events: seq<Event>, m: Membership)
    ensures m in IntervalsOf(keys, events) <==>
      Key(m.index, m.symbol) in keys && m in IntervalsFor(events, Key(m.index, m.symbol))
  {
    if keys != [] {
      var before, key := keys[..|keys| - 1], keys[|keys| - 1];
      IntervalsOfMembers(before, events, m);
      IntervalHasKey(events, key, m);
      assert m in IntervalsOf(keys, events) <==> m in IntervalsOf(before, events) || m in IntervalsFor(events, key);
      assert keys == before + [key];
      assert Key(m.index, m.symbol) in keys <==> Key(m.index, m.symbol) in before || Key(m.index, m.symbol) == key;
    }
  }

  ghost predicate SomeIntervalContains(rows: seq<Membership>, key: Key, day: int) {
    exists m :: m in rows && m.index == key.index && m.symbol == key.symbol && Contains(m, day)
  }

  /** For any list of events, every name and every day: some interval of the name contains the day if and only if
      replaying its date-sorted events up to that day leaves the name in the index. */
  lemma IntervalsMatchReplay(events: seq<Event>, key: Key, day: int)
    ensures SomeIntervalContains(Intervals(events), key, day) <==> Member(events, key, day)
  {
    var rows := IntervalsFor(events, key);
    SortByDateSorts(EventsFor(events, key));
    ScanMatchesReplay(SortByDate(EventsFor(events, key)), key, day);
    IntervalsForKey(events, key);
    KeysOfFacts(events);
    if Covered(rows, day) {
      var i :| 0 <= i < |rows| && Contains(rows[i], day);
      IntervalsOfMembers(KeysOf(events), events, rows[i]);
    }
    if SomeIntervalContains(Intervals(events), key, day) {
      var m :| m in Intervals(events) && m.index == key.index && m.symbol == key.symbol && Contains(m, day);
      IntervalsOfMembers(KeysOf(events), events, m);
    }
  }

  /** Two intervals of the same name come in order and do not overlap, wherever they stand in the list. */
  ghost predicate Separated(rows: seq<Membership>) {
    forall i, j :: 0 <= i < j < |rows| && rows[i].index == rows[j].index && rows[i].symbol == rows[j].symbol ==>
      rows[i].effectiveTo.Some? && rows[i].effectiveTo.value <= rows[j].effectiveFrom
  }

  lemma {:induction false} IntervalsOfSeparated(keys: seq<Key>, events: seq<Event>)
    requires forall i, j :: 0 <= i < j < |keys| ==> keys[i] != keys[j]
    ensures Separated(IntervalsOf(keys, events))
  {
    if keys != [] {
      var before, key := keys[..|keys| - 1], keys[|keys| - 1];
      var front, own := IntervalsOf(before, events), IntervalsFor(events, key);
      IntervalsOfSeparated(before, events);
      IntervalsForKey(events, key);
      forall m | m in front
        ensures Key(m.index, m.symbol) != key
      {
        IntervalsOfMembers(before, events, m);
      }
      SeparatedConcat(front, own, key);
    }
  }

  lemma SeparatedConcat(front: seq<Membership>, own: seq<Membership>, key: Key)
    requires Separated(front) && Separated(own)
    requires forall m :: m in front ==> Key(m.index, m.symbol) != key
    requires forall m :: m in own ==> Key(m.index, m.symbol) == key
    ensures Separated(front + own)
  {
    var rows := front + own;
    assert forall i :: 0 <= i < |front| ==> rows[i] in front && Key(rows[i].index, rows[i].symbol) != key;
    assert forall j :: |front| <= j < |rows| ==> rows[j] in own && Key(rows[j].index, rows[j].symbol) == key;
    forall i, j | 0 <= i < j < |rows| && rows[i].index == rows[j].index && rows[i].symbol == rows[j].symbol
      ensures rows[i].effectiveTo.Some? && rows[i].effectiveTo.value <= rows[j].effectiveFrom
    {
      if j < |front| {
        assert rows[i] == front[i] && rows[j] == front[j];
      } else {
        assert rows[i] == own[i - |front|] && rows[j] == own[j - |front|];
      }
    }
  }

  lemma IntervalsSeparated(events: seq<Event>)
    ensures Separated(Intervals(events))
  {
    KeysOfFacts(events);
    IntervalsOfSeparated(KeysOf(events), events);
  }

  // --- nothing after the day matters ---

  lemma {:induction false} UpToEventsFor(events: seq<Event>, key: Key, day: int)
    ensures UpTo(EventsFor(events, key), day) == EventsFor(UpTo(events, day), key)
  {
    if events != [] {
      var before, e := events[..|events| - 1], events[|events| - 1];
      UpToEventsFor(before, key, day);
      UpToAppend(EventsFor(before, key), e, day);
      EventsForAppend(UpTo(before, day), e, key);
      if KeyOf(e) != key {
        assert EventsFor(events, key) == EventsFor(before, key);
      }
      if e.date > day {
        assert UpTo(events, day) == UpTo(before, day);
      }
    }
  }

  lemma EventsForAppend(evs: seq<Event>, e: Event, key: Key)
    ensures EventsFor(evs + [e], key) == EventsFor(evs, key) + if KeyOf(e) == key then [e] else []
  {
    assert (evs + [e])[..|evs|] == evs;
  }

  lemma UpToAppend(evs: seq<Event>, e: Event, day: int)
    ensures UpTo(evs + [e], day) == UpTo(evs, day) + if e.date <= day then [e] else []
  {
    assert (evs + [e])[..|evs|] == evs;
  }

  lemma {:induction false} UpToWithin(evs: seq<Event>, day: int, e: Event)
    requires e in UpTo(evs, day)
    ensures e in evs && e.date <= day
  {
    var before := evs[..|evs| - 1];
    if e in UpTo(before, day) {
      UpToWithin(before, day, e);
    }
  }

  lemma UpToInsertLast(e: Event, sorted: seq<Event>, day: int)
    requires sorted == [] || sorted[|sorted| - 1].date <= e.date
    requires ByDate(sorted)
    ensures UpTo(InsertByDate(e, sorted), day)
         == if e.date <= day then InsertByDate(e, UpTo(sorted, day)) else UpTo(sorted, day)
  {
    UpToAppend(sorted, e, day);
    var kept := UpTo(sorted, day);
    if kept != [] {
      UpToWithin(sorted, day, kept[|kept| - 1]);
      assert kept[|kept| - 1].date <= e.date;
    }
    if e.date > day {
      assert kept + [] == kept;
    }
  }

  lemma InsertBefore(e: Event, front: seq<Event>, last: Event)
    requires last.date > e.date
    ensures InsertByDate(e, front + [last]) == InsertByDate(e, front) + [last]
  {
    assert (front + [last])[..|front|] == front;
  }

  lemma {:induction false} UpToInsert(e: Event, sorted: seq<Event>, day: int)
    requires ByDate(sorted)
    ensures UpTo(InsertByDate(e, sorted), day)
         == if e.date <= day then InsertByDate(e, UpTo(sorted, day)) else UpTo(sorted, day)
  {
    if sorted == [] || sorted[|sorted| - 1].date <= e.date {
      UpToInsertLast(e, sorted, day);
    } else {
      var front, last := sorted[..|sorted| - 1], sorted[|sorted| - 1];
      UpToInsert(e, front, day);
      UpToAppend(InsertByDate(e, front), last, day);
      InsertBefore(e, UpTo(front, day), last);
      if last.date > day {
        assert UpTo(sorted, day) == UpTo(front, day);
      }
    }
  }

  lemma SortAppend(events: seq<Event>, e: Event)
    ensures SortByDate(events + [e]) == InsertByDate(e, SortByDate(events))
  {
    assert (events + [e])[..|events|] == events;
  }

  lemma {:induction false} UpToSort(events: seq<Event>, day: int)
    ensures UpTo(SortByDate(events), day) == SortByDate(UpTo(events, day))
  {
    if events != [] {
      var before, e := events[..|events| - 1], events[|events| - 1];
      UpToSort(before, day);
      SortByDateSorts(before);
      UpToInsert(e, SortByDate(before), day);
      SortAppend(UpTo(before, day), e);
      if e.date > day {
        assert UpTo(events, day) == UpTo(before, day);
      }
    }
  }

  /** Point in time: two event lists that agree on the events dated up to a day agree on who is a member that day; so
      events dated later never change it. */
  lemma FutureEventsDoNotMatter(events1: seq<Event>, events2: seq<Event>, key: Key, day: int)
    requires UpTo(events1, day) == UpTo(events2, day)
    ensures SomeIntervalContains(Intervals(events1), key, day) <==> SomeIntervalContains(Intervals(events2), key, day)
  {
    forall events | events == events1 || events == events2
      ensures Member(events, key, day) == Replay(SortByDate(EventsFor(UpTo(events, day), key)))
    {
      UpToSort(EventsFor(events, key), day);
      UpToEventsFor(events, key, day);
    }
    IntervalsMatchReplay(events1, key, day);
    IntervalsMatchReplay(events2, key, day);
  }

  // --- the repository ---

  lemma {:induction false} MembersOnRows(rows: seq<Membership>, index: string, day: int, m: Membership)
    ensures m in MembersOn(rows, index, day) <==> m in rows && m.index == index && Contains(m, day)
  {
    if rows != [] {
      MembersOnRows(rows[..|rows| - 1], index, day, m);
      assert rows == rows[..|rows| - 1] + [rows[|rows| - 1]];
    }
  }

  ghost predicate DistinctSymbols(found: seq<Membership>) {
    forall i, j :: 0 <= i < j < |found| ==> found[i].symbol != found[j].symbol
  }

  lemma MemberNotYetFound(rows: seq<Membership>, index: string, day: int, i: nat)
    requires rows != [] && Separated(rows)
    requires rows[|rows| - 1].index == index && Contains(rows[|rows| - 1], day)
    requires i < |MembersOn(rows[..|rows| - 1], index, day)|
    ensures MembersOn(rows[..|rows| - 1], index, day)[i].symbol != rows[|rows| - 1].symbol
  {
    var before := rows[..|rows| - 1];
    var m := MembersOn(before, index, day)[i];
    MembersOnRows(before, index, day, m);
    var k :| 0 <= k < |before| && before[k] == m;
    assert rows[k] == m;
  }

  lemma {:induction false} MembersOnDistinct(rows: seq<Membership>, index: string, day: int)
    requires Separated(rows)
    ensures DistinctSymbols(MembersOn(rows, index, day))
  {
    if rows != [] {
      var before, m := rows[..|rows| - 1], rows[|rows| - 1];
      MembersOnDistinct(before, index, day);
      var earlier := MembersOn(before, index, day);
      if m.index == index && Contains(m, day) {
        forall i | 0 <= i < |earlier|
          ensures earlier[i].symbol != m.symbol
        {
          MemberNotYetFound(rows, index, day, i);
        }
        assert MembersOn(rows, index, day) == earlier + [m];
      } else {
        assert MembersOn(rows, index, day) == earlier;
      }
    }
  }

  /** The repository's answer for an index and a day lists exactly the names that a replay leaves in it, each once. */
  lemma RepositoryMatchesReplay(events: seq<Event>, index: string, day: int, symbol: string)
    ensures
      var found := MembersOn(Intervals(events), index, day);
      && ((exists i :: 0 <= i < |found| && found[i].symbol == symbol) <==> Member(events, Key(index, symbol), day))
      && DistinctSymbols(found)
  {
    var rows := Intervals(events);
    var found := MembersOn(rows, index, day);
    IntervalsSeparated(events);
    MembersOnDistinct(rows, index, day);
    IntervalsMatchReplay(events, Key(index, symbol), day);
    if i :| 0 <= i < |found| && found[i].symbol == symbol {
      MembersOnRows(rows, index, day, found[i]);
    }
    if SomeIntervalContains(rows, Key(index, symbol), day) {
      var m :| m in rows && m.index == index && m.symbol == symbol && Contains(m, day);
      MembersOnRows(rows, index, day, m);
      var i :| 0 <= i < |found| && found[i] == m;
    }
  }

  // --- repeated ingests ---

  /** The table after a sequence of ingests: each one appends the intervals of its own events. */
  function Ingested(ingests: seq<seq<Event>>): seq<Membership> {
    if ingests == [] then []
    else Ingested(ingests[..|ingests| - 1]) + Intervals(ingests[|ingests| - 1])
  }

  ghost predicate Listed(rows: seq<Membership>, index: string, symbol: string, day: int) {
    exists m :: m in MembersOn(rows, index, day) && m.symbol == symbol
  }

  lemma {:induction false} MembersOnConcat(a: seq<Membership>, b: seq<Membership>, index: string, day: int)
    ensures MembersOn(a + b, index, day) == MembersOn(a, index, day) + MembersOn(b, index, day)
  {
    if b == [] {
      assert a + b == a;
    } else {
      MembersOnConcat(a, b[..|b| - 1], index, day);
      assert (a + b)[..|a + b| - 1] == a + b[..|b| - 1];
    }
  }

  lemma ListedIffReplay(events: seq<Event>, index: string, symbol: string, day: int)
    ensures Listed(Intervals(events), index, symbol, day) <==> Member(events, Key(index, symbol), day)
  {
    RepositoryMatchesReplay(events, index, day, symbol);
    var found := MembersOn(Intervals(events), index, day);
    if m :| m in found && m.symbol == symbol {
      var i :| 0 <= i < |found| && found[i] == m;
    }
  }

  lemma ListedConcat(a: seq<Membership>, b: seq<Membership>, index: string, symbol: string, day: int)
    ensures Listed(a + b, index, symbol, day) <==> Listed(a, index, symbol, day) || Listed(b, index, symbol, day)
  {
    MembersOnConcat(a, b, index, day);
    forall m
      ensures m in MembersOn(a + b, index, day) <==> m in MembersOn(a, index, day) || m in MembersOn(b, index, day)
    {
    }
  }

  ghost predicate HeldBySome(ingests: seq<seq<Event>>, key: Key, day: int) {
    exists k :: 0 <= k < |ingests| && Member(ingests[k], key, day)
  }

  lemma HeldByLastOrBefore(ingests: seq<seq<Event>>, key: Key, day: int)
    requires ingests != []
    ensures HeldBySome(ingests, key, day)
       <==> HeldBySome(ingests[..|ingests| - 1], key, day) || Member(ingests[|ingests| - 1], key, day)
  {
    var before := ingests[..|ingests| - 1];
    if k :| 0 <= k < |before| && Member(before[k], key, day) {
      assert ingests[k] == before[k];
    }
    if k :| 0 <= k < |ingests| && Member(ingests[k], key, day) {
      assert k < |before| ==> before[k] == ingests[k];
    }
  }

  /** Earlier ingests are never withdrawn: a name is listed exactly if the replay of some ingest, taken alone, holds
      it. */
  lemma {:induction false} ListedIffSomeIngestHolds(
    ingests: seq<seq<Event>>, index: string, symbol: string, day: int)
    ensures Listed(Ingested(ingests), index, symbol, day) <==> HeldBySome(ingests, Key(index, symbol), day)
  {
    if ingests != [] {
      var before, last := ingests[..|ingests| - 1], ingests[|ingests| - 1];
      ListedIffSomeIngestHolds(before, index, symbol, day);
      ListedIffReplay(last, index, symbol, day);
      ListedConcat(Ingested(before), Intervals(last), index, symbol, day);
      HeldByLastOrBefore(ingests, Key(index, symbol), day);
    }
  }

  /** So a drop that only a later ingest reports does not take effect. */
  lemma LaterDropIgnored(add: Event, drop: Event)
    requires add == Event("A", "X", Add, 1) && drop == Event("A", "X", Drop, 5)
    ensures !Member([add, drop], Key("A", "X"), 9)
    ensures Listed(Ingested([[add], [add, drop]]), "A", "X", 9)
  {
    var key := Key("A", "X");
    EventsForTwo(add, drop, key);
    UpToTwo(add, drop, 9);
    ListedIffSomeIngestHolds([[add], [add, drop]], "A", "X", 9);
    assert Member([[add], [add, drop]][0], key, 9);
  }

  lemma EventsForTwo(e1: Event, e2: Event, key: Key)
    requires e1.date <= e2.date
    ensures EventsFor([e1], key) == if KeyOf(e1) == key then [e1] else []
    ensures EventsFor([e1, e2], key) == EventsFor([e1], key) + if KeyOf(e2) == key then [e2] else []
    ensures SortByDate([e1]) == [e1] && SortByDate([e2]) == [e2] && SortByDate([e1, e2]) == [e1, e2]
  {
    assert [e1, e2][..1] == [e1] && [e1][..0] == [] && [e2][..0] == [];
  }

  lemma UpToTwo(e1: Event, e2: Event, day: int)
    ensures UpTo([e1], day) == if e1.date <= day then [e1] else []
    ensures UpTo([e1, e2], day) == UpTo([e1], day) + if e2.date <= day then [e2] else []
  {
    assert [e1, e2][..1] == [e1] && [e1][..0] == [];
  }

  // --- the eligibility matrix ---

  /** A cell of the matrix is true exactly if the name is a member of some index that day. */
  lemma MatrixMatchesSomeIndex(events: seq<Event>, symbol: string, day: int)
    ensures Eligible(Intervals(events), symbol, day) <==> exists index :: Member(events, Key(index, symbol), day)
  {
    var rows := Intervals(events);
    if Eligible(rows, symbol, day) {
      var i :| 0 <= i < |rows| && rows[i].symbol == symbol && Contains(rows[i], day);
      IntervalsMatchReplay(events, Key(rows[i].index, symbol), day);
    }
    if index :| Member(events, Key(index, symbol), day) {
      IntervalsMatchReplay(events, Key(index, symbol), day);
      var m :| m in rows && m.index == index && m.symbol == symbol && Contains(m, day);
      var i :| 0 <= i < |rows| && rows[i] == m;
    }
  }

  /** So it answers for one index exactly when no other index holds the name alone; in particular whenever all events
      are of that index. */
  lemma MatrixMatchesIndexIff(events: seq<Event>, index: string, symbol: string, day: int)
    ensures (Eligible(Intervals(events), symbol, day) <==> Member(events, Key(index, symbol), day))
       <==> (Member(events, Key(index, symbol), day)
             || forall other :: other != index ==> !Member(events, Key(other, symbol), day))
  {
    MatrixMatchesSomeIndex(events, symbol, day);
  }

  /** A name that joined only index B is eligible although it is not in index A. */
  lemma MatrixWrongForIndex()
    ensures
      var events := [Event("B", "X", Add, 1)];
      Eligible(Intervals(events), "X", 2) && !Member(events, Key("A", "X"), 2)
  {
    var e := Event("B", "X", Add, 1);
    EventsForTwo(e, e, Key("A", "X"));
    EventsForTwo(e, e, Key("B", "X"));
    UpToTwo(e, e, 2);
    assert Member([e], Key("B", "X"), 2);
    MatrixMatchesSomeIndex([e], "X", 2);
  }

  lemma {:induction false} ForeignIndexEmpty(events: seq<Event>, key: Key)
    requires forall i :: 0 <= i < |events| ==> events[i].index != key.index
    ensures EventsFor(events, key) == []
  {
    if events != [] {
      ForeignIndexEmpty(events[..|events| - 1], key);
    }
  }

  lemma MatrixMatchesSingleIndex(events: seq<Event>, index: string, symbol: string, day: int)
    requires forall i :: 0 <= i < |events| ==> events[i].index == index
    ensures Eligible(Intervals(events), symbol, day) <==> Member(events, Key(index, symbol), day)
  {
    MatrixMatchesSomeIndex(events, symbol, day);
    forall other | other != index
      ensures !Member(events, Key(other, symbol), day)
    {
      ForeignIndexEmpty(events, Key(other, symbol));
    }
  }
}
