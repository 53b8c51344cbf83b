/** When the cache agrees with its source. */
module CacheTheorems {
  import opened Numbers
  import opened CacheModel

  ghost predicate Rising(rows: seq<Bar>) {
    forall i, j :: 0 <= i < j < |rows| ==> rows[i].date < rows[j].date
  }

  // --- slices ---

  lemma {:induction false} SliceMembers(rows: seq<Bar>, start: int, end: int, b: Bar)
    ensures b in Slice(rows, start, end) <==> b in rows && start <= b.date <= end
  {
    if rows != [] {
      SliceMembers(rows[..|rows| - 1], start, end, b);
      assert rows == rows[..|rows| - 1] + [rows[|rows| - 1]];
    }
  }

  lemma {:induction false} SliceRising(rows: seq<Bar>, start: int, end: int)
    requires Rising(rows)
    ensures Rising(Slice(rows, start, end))
  {
    if rows != [] {
      var before, last := rows[..|rows| - 1], rows[|rows| - 1];
      SliceRising(before, start, end);
      forall i | 0 <= i < |Slice(before, start, end)|
        ensures Slice(before, start, end)[i].date < last.date
      {
        SliceMembers(before, start, end, Slice(before, start, end)[i]);
      }
    }
  }

  /** Rising rows are determined by which rows they hold. */
  lemma {:induction false} RisingUnique(a: seq<Bar>, b: seq<Bar>)
    requires Rising(a) && Rising(b)
    requires forall x :: x in a <==> x in b
    ensures a == b
    decreases |a|
  {
    NonEmptyHasMember(a);
    NonEmptyHasMember(b);
    if a != [] {
      RisingLast(a, b);
      RisingFront(a);
      RisingFront(b);
      var front, front' := a[..|a| - 1], b[..|b| - 1];
      forall x
        ensures x in front <==> x in front'
      {
        assert x in a <==> x in b;
      }
      RisingUnique(front, front');
      assert a == front + [a[|a| - 1]] && b == front' + [b[|b| - 1]];
    }
  }

  lemma NonEmptyHasMember(b: seq<Bar>)
    ensures b != [] ==> exists x :: x in b
  {
    if b != [] {
      assert b[0] in b;
    }
  }

  lemma RisingLast(a: seq<Bar>, b: seq<Bar>)
    requires Rising(a) && Rising(b) && a != [] && b != []
    requires forall x :: x in a <==> x in b
    ensures a[|a| - 1] == b[|b| - 1]
  {
    assert a[|a| - 1] in b && b[|b| - 1] in a;
  }

  lemma RisingFront(a: seq<Bar>)
    requires Rising(a) && a != []
    ensures Rising(a[..|a| - 1])
    ensures forall x :: x in a[..|a| - 1] <==> x in a && x != a[|a| - 1]
  {
    var front := a[..|a| - 1];
    forall x | x in a && x != a[|a| - 1]
      ensures x in front
    {
      var i :| 0 <= i < |a| && a[i] == x;
      assert front[i] == x;
    }
  }

  // --- merging ---

  /** The row last written for a date. */
  function LastRow(rows: seq<Bar>, date: int): Option<Bar> {
    if rows == [] then None
    else if rows[|rows| - 1].date == date then Some(rows[|rows| - 1])
    else LastRow(rows[..|rows| - 1], date)
  }

  lemma {:induction false} LastRowOfTail(rows: seq<Bar>, date: int)
    requires rows != []
    ensures LastRow(rows, date)
         == if HasDate(rows[1..], date) then LastRow(rows[1..], date)
            else if rows[0].date == date then Some(rows[0]) else None
  {
    var n := |rows| - 1;
    if n > 0 {
      LastRowOfTail(rows[..n], date);
      assert rows[..n][1..] == rows[1..][..n - 1];
      assert rows[1..][n - 1] == rows[n];
      if HasDate(rows[..n][1..], date) {
        var i :| 0 <= i < n - 1 && rows[..n][1..][i].date == date;
        assert rows[1..][i].date == date;
      }
      if rows[n].date != date && HasDate(rows[1..], date) {
        var i :| 0 <= i < n && rows[1..][i].date == date;
        assert rows[..n][1..][i].date == date;
      }
    }
  }

  lemma {:induction false} LastRowHasDate(rows: seq<Bar>, date: int)
    ensures HasDate(rows, date) <==> LastRow(rows, date).Some?
    ensures LastRow(rows, date).Some? ==> LastRow(rows, date).value.date == date && LastRow(rows, date).value in rows
  {
    if rows != [] {
      var n := |rows| - 1;
      LastRowHasDate(rows[..n], date);
      if HasDate(rows[..n], date) {
        var i :| 0 <= i < n && rows[..n][i].date == date;
        assert rows[i].date == date;
      }
      if HasDate(rows, date) && rows[n].date != date {
        var i :| 0 <= i < |rows| && rows[i].date == date;
        assert rows[..n][i].date == date;
      }
    }
  }

  ghost predicate DistinctDates(rows: seq<Bar>) {
    forall i, j :: 0 <= i < j < |rows| ==> rows[i].date != rows[j].date
  }

  lemma {:induction false} KeepLastFacts(rows: seq<Bar>)
    ensures forall b :: b in KeepLast(rows) <==> LastRow(rows, b.date) == Some(b)
    ensures DistinctDates(KeepLast(rows))
  {
    if rows != [] {
      var head, tail := rows[0], rows[1..];
      KeepLastFacts(tail);
      forall b
        ensures b in KeepLast(rows) <==> LastRow(rows, b.date) == Some(b)
      {
        LastRowOfTail(rows, b.date);
        LastRowHasDate(tail, b.date);
      }
      if !HasDate(tail, head.date) {
        forall i | 0 <= i < |KeepLast(tail)|
          ensures KeepLast(tail)[i].date != head.date
        {
          var b := KeepLast(tail)[i];
          assert b in KeepLast(tail);
          LastRowHasDate(tail, b.date);
        }
      }
    }
  }

  lemma {:induction false} InsertBarFacts(b: Bar, sorted: seq<Bar>, most: int)
    requires Rising(sorted) && b.date <= most
    requires forall i :: 0 <= i < |sorted| ==> sorted[i].date != b.date && sorted[i].date <= most
    ensures Rising(InsertBar(b, sorted))
    ensures forall i :: 0 <= i < |InsertBar(b, sorted)| ==> InsertBar(b, sorted)[i].date <= most
    ensures forall x :: x in InsertBar(b, sorted) <==> x in sorted || x == b
  {
    if sorted != [] && sorted[|sorted| - 1].date > b.date {
      var front, last := sorted[..|sorted| - 1], sorted[|sorted| - 1];
      InsertBarFacts(b, front, last.date - 1);
      assert sorted == front + [last];
    }
  }

  lemma {:induction false} SortBarsFacts(rows: seq<Bar>)
    requires DistinctDates(rows)
    ensures Rising(SortBars(rows))
    ensures forall x :: x in SortBars(rows) <==> x in rows
  {
    if rows != [] {
      var before, b := rows[..|rows| - 1], rows[|rows| - 1];
      SortBarsFacts(before);
      var sorted := SortBars(before);
      forall i | 0 <= i < |sorted|
        ensures sorted[i].date != b.date
      {
        assert sorted[i] in before;
      }
      assert rows == before + [b];
      var most := if sorted == [] || sorted[|sorted| - 1].date <= b.date then b.date else sorted[|sorted| - 1].date;
      InsertBarFacts(b, sorted, most);
    }
  }

  /** A merge into stored rows leaves one row per date, the last one written, in date order: whatever the stored and the
      new rows were, and in whatever order. */
  lemma MergeKeepsLastWritten(existing: seq<Bar>, added: seq<Bar>)
    requires existing != []
    ensures Rising(Merge(Some(existing), added))
    ensures forall b :: b in Merge(Some(existing), added) <==> LastRow(existing + added, b.date) == Some(b)
  {
    KeepLastFacts(existing + added);
    SortBarsFacts(KeepLast(existing + added));
  }

  // --- the cache against a fixed source ---

  lemma {:induction false} RisingRange(rows: seq<Bar>)
    requires Rising(rows) && rows != []
    ensures Earliest(rows) == rows[0].date && Latest(rows) == rows[|rows| - 1].date
  {
    if |rows| > 1 {
      RisingRange(rows[..|rows| - 1]);
    }
  }

  lemma {:induction false} EndsAreReached(rows: seq<Bar>)
    requires rows != []
    ensures exists b :: b in rows && b.date == Earliest(rows)
    ensures exists b :: b in rows && b.date == Latest(rows)
    ensures forall b :: b in rows ==> Earliest(rows) <= b.date <= Latest(rows)
  {
    var last := rows[|rows| - 1];
    assert last in rows;
    if |rows| > 1 {
      var before := rows[..|rows| - 1];
      EndsAreReached(before);
      assert rows == before + [last];
    }
  }

  /** A request is served from the cache exactly if some cached row is no later than its first day and some no earlier
      than its last; then the cache stays as it is and the source is not asked. */
  lemma HitIff(cached: Option<seq<Bar>>, feed: Feed, start: int, end: int)
    ensures Hit(cached, start, end)
       <==> cached.Some? && (exists b :: b in cached.value && b.date <= start)
            && (exists b :: b in cached.value && b.date >= end)
    ensures Hit(cached, start, end) ==>
      && GetOhlcv(cached, feed, start, end).1 == cached
      && forall other: Feed :: GetOhlcv(cached, other, start, end) == GetOhlcv(cached, feed, start, end)
  {
    if cached.Some? && cached.value != [] {
      EndsAreReached(cached.value);
    }
  }

  lemma {:induction false} InsertBarPermutes(b: Bar, sorted: seq<Bar>)
    ensures multiset(InsertBar(b, sorted)) == multiset(sorted) + multiset{b}
  {
    if sorted != [] && sorted[|sorted| - 1].date > b.date {
      InsertBarPermutes(b, sorted[..|sorted| - 1]);
      assert sorted == sorted[..|sorted| - 1] + [sorted[|sorted| - 1]];
    }
  }

  /** The first write of a symbol stores every row it is given, duplicates included. */
  lemma FirstMergeKeepsAll(existing: Option<seq<Bar>>, added: seq<Bar>)
    requires existing.None? || existing.value == []
    ensures multiset(Merge(existing, added)) == multiset(added)
  {
    SortBarsPermutes(added);
  }

  lemma {:induction false} SortBarsPermutes(rows: seq<Bar>)
    ensures multiset(SortBars(rows)) == multiset(rows)
  {
    if rows != [] {
      SortBarsPermutes(rows[..|rows| - 1]);
      InsertBarPermutes(rows[|rows| - 1], SortBars(rows[..|rows| - 1]));
      assert rows == rows[..|rows| - 1] + [rows[|rows| - 1]];
    }
  }

  /** Every cached row is a row of the source, in date order. */
  ghost predicate Faithful(rows: seq<Bar>, source: seq<Bar>) {
    Rising(rows) && forall b :: b in rows ==> b in source
  }

  /** No row of the source between the first and the last cached date is missing. */
  ghost predicate Gapless(rows: seq<Bar>, source: seq<Bar>) {
    rows != [] ==> forall b :: b in source && Earliest(rows) <= b.date <= Latest(rows) ==> b in rows
  }

  /** A downloader that never answers with less than it was asked for. */
  ghost predicate Generous(feed: Feed) {
    forall s, e :: feed.reach(s, e).0 <= s && e <= feed.reach(s, e).1
  }

  /** Every row of the source in the request is downloaded or already cached. */
  ghost predicate Fetched(cached: Option<seq<Bar>>, feed: Feed, start: int, end: int) {
    forall b :: b in feed.source && start <= b.date <= end ==>
      || feed.reach(start, end).0 <= b.date <= feed.reach(start, end).1
      || (cached.Some? && b in cached.value)
  }

  ghost predicate FaithfulCache(cached: Option<seq<Bar>>, source: seq<Bar>) {
    cached.Some? ==> Faithful(cached.value, source)
  }

  lemma LastRowOfFaithful(rows: seq<Bar>, source: seq<Bar>, b: Bar)
    requires Rising(source) && forall x :: x in rows ==> x in source
    ensures b in rows <==> LastRow(rows, b.date) == Some(b)
  {
    LastRowHasDate(rows, b.date);
    if b in rows {
      var i :| 0 <= i < |rows| && rows[i] == b;
      assert HasDate(rows, b.date);
      var c := LastRow(rows, b.date).value;
      assert c in source && b in source;
    }
  }

  /** A miss stores exactly the cached rows and the downloaded ones. */
  lemma MissStores(cached: Option<seq<Bar>>, feed: Feed, start: int, end: int)
    requires Rising(feed.source) && FaithfulCache(cached, feed.source)
    ensures
      var merged := Merge(cached, feed.Download(start, end));
      && Faithful(merged, feed.source)
      && forall b :: b in merged <==>
           (cached.Some? && b in cached.value) || b in feed.Download(start, end)
  {
    var added := feed.Download(start, end);
    var range := feed.reach(start, end);
    SliceRising(feed.source, range.0, range.1);
    forall b | b in added
      ensures b in feed.source
    {
      SliceMembers(feed.source, range.0, range.1, b);
    }
    if cached.Some? && cached.value != [] {
      MergeKeepsLastWritten(cached.value, added);
      forall b: Bar
        ensures LastRow(cached.value + added, b.date) == Some(b) <==> b in cached.value + added
      {
        LastRowOfFaithful(cached.value + added, feed.source, b);
      }
    } else {
      SortBarsFacts(added);
    }
  }

  ghost predicate Agrees(rows: seq<Bar>, source: seq<Bar>, start: int, end: int) {
    rows == Slice(source, start, end)
  }

  /** Faithful rows answer a request rightly exactly if no row of the source in the request is missing. */
  lemma SliceAgreesIff(rows: seq<Bar>, source: seq<Bar>, start: int, end: int)
    requires Rising(source) && Faithful(rows, source)
    ensures Agrees(Slice(rows, start, end), source, start, end)
       <==> forall b :: b in source && start <= b.date <= end ==> b in rows
  {
    SliceRising(rows, start, end);
    SliceRising(source, start, end);
    forall b
      ensures b in Slice(rows, start, end) <==> b in rows && start <= b.date <= end
      ensures b in Slice(source, start, end) <==> b in source && start <= b.date <= end
    {
      SliceMembers(rows, start, end, b);
      SliceMembers(source, start, end, b);
    }
    if forall b :: b in source && start <= b.date <= end ==> b in rows {
      RisingUnique(Slice(rows, start, end), Slice(source, start, end));
    }
  }

  /** On a miss the answer is right exactly if the download and the cache together hold what was asked for. */
  lemma MissAgreesIff(cached: Option<seq<Bar>>, feed: Feed, start: int, end: int)
    requires Rising(feed.source) && FaithfulCache(cached, feed.source)
    ensures Agrees(Slice(Merge(cached, feed.Download(start, end)), start, end), feed.source, start, end)
       <==> Fetched(cached, feed, start, end)
  {
    var merged := Merge(cached, feed.Download(start, end));
    var range := feed.reach(start, end);
    MissStores(cached, feed, start, end);
    SliceAgreesIff(merged, feed.source, start, end);
    forall b
      ensures b in feed.Download(start, end) <==> b in feed.source && range.0 <= b.date <= range.1
    {
      SliceMembers(feed.source, range.0, range.1, b);
    }
  }

  /** On a hit it is right for every covered request exactly if the cache has no gap. */
  lemma HitsAgreeIffGapless(rows: seq<Bar>, source: seq<Bar>)
    requires Rising(source) && Faithful(rows, source) && rows != []
    ensures (forall start, end :: Covers(rows, start, end) ==> Agrees(Slice(rows, start, end), source, start, end))
       <==> Gapless(rows, source)
  {
    forall start, end
      ensures Agrees(Slice(rows, start, end), source, start, end)
         <==> forall b :: b in source && start <= b.date <= end ==> b in rows
    {
      SliceAgreesIff(rows, source, start, end);
    }
    if !Gapless(rows, source) {
      assert Covers(rows, Earliest(rows), Latest(rows));
    }
  }

  ghost predicate AnswersRight(cached: Option<seq<Bar>>, feed: Feed) {
    forall start, end :: Agrees(GetOhlcv(cached, feed, start, end).0, feed.source, start, end)
  }

  ghost predicate MissesFetched(cached: Option<seq<Bar>>, feed: Feed) {
    forall start, end :: !Hit(cached, start, end) ==> Fetched(cached, feed, start, end)
  }

  ghost predicate GaplessCache(cached: Option<seq<Bar>>, source: seq<Bar>) {
    cached.Some? ==> Gapless(cached.value, source)
  }

  /** Comparing only the first and last cached dates is sound exactly for a cache without gaps: every request is
      answered with the rows of the source, hit or miss, if and only if no row between those dates is missing and
      no miss falls short of what was asked for. */
  lemma EveryAnswerRightIff(cached: Option<seq<Bar>>, feed: Feed)
    requires Rising(feed.source) && FaithfulCache(cached, feed.source)
    ensures AnswersRight(cached, feed) <==> GaplessCache(cached, feed.source) && MissesFetched(cached, feed)
  {
    forall start, end | !Hit(cached, start, end)
      ensures Agrees(GetOhlcv(cached, feed, start, end).0, feed.source, start, end)
         <==> Fetched(cached, feed, start, end)
    {
      MissAgreesIff(cached, feed, start, end);
    }
    if cached.Some? && cached.value != [] {
      HitsAgreeIffGapless(cached.value, feed.source);
      forall start, end | Covers(cached.value, start, end)
        ensures Hit(cached, start, end)
        ensures GetOhlcv(cached, feed, start, end).0 == Slice(cached.value, start, end)
      {
      }
    }
  }

  /** With a downloader that never falls short, the cache alone decides. */
  lemma EveryAnswerRightIffGapless(cached: Option<seq<Bar>>, feed: Feed)
    requires Rising(feed.source) && Generous(feed) && FaithfulCache(cached, feed.source)
    ensures AnswersRight(cached, feed) <==> GaplessCache(cached, feed.source)
  {
    EveryAnswerRightIff(cached, feed);
  }

  /** The default downloader hands the last day of the request to a library that excludes it. */
  function EndExclusive(source: seq<Bar>): Feed {
    Feed(source, (s, e) => (s, e - 1))
  }

  /** A miss then loses exactly the row of the last day, unless it is cached already. */
  lemma EndExclusiveMiss(cached: Option<seq<Bar>>, source: seq<Bar>, start: int, end: int)
    requires Rising(source) && FaithfulCache(cached, source) && start <= end
    ensures
      var merged := Merge(cached, EndExclusive(source).Download(start, end));
      Agrees(Slice(merged, start, end), source, start, end)
      <==> forall b :: b in source && b.date == end ==> cached.Some? && b in cached.value
  {
    MissAgreesIff(cached, EndExclusive(source), start, end);
  }

  // --- keeping the cache without gaps ---

  /** No row of the source lies strictly between the cached dates and the downloaded range: they overlap or adjoin. */
  ghost predicate Adjoins(rows: seq<Bar>, source: seq<Bar>, lo: int, hi: int)
    requires rows != []
  {
    forall b :: b in source ==> !(Latest(rows) < b.date < lo) && !(hi < b.date < Earliest(rows))
  }

  lemma EndsWithin(rows: seq<Bar>, first: Bar, last: Bar)
    requires Rising(rows) && first in rows && last in rows
    ensures rows != [] && Earliest(rows) <= first.date && last.date <= Latest(rows)
  {
    RisingRange(rows);
  }

  lemma FirstDownload(feed: Feed, start: int, end: int, cached: Option<seq<Bar>>)
    requires Rising(feed.source) && (cached.Some? ==> cached.value == [])
    ensures Gapless(Merge(cached, feed.Download(start, end)), feed.source)
  {
    var merged := Merge(cached, feed.Download(start, end));
    var range := feed.reach(start, end);
    MissStores(cached, feed, start, end);
    if merged != [] {
      RisingRange(merged);
      assert merged[0] in merged && merged[|merged| - 1] in merged;
      SliceMembers(feed.source, range.0, range.1, merged[0]);
      SliceMembers(feed.source, range.0, range.1, merged[|merged| - 1]);
      forall b | b in feed.source && Earliest(merged) <= b.date <= Latest(merged)
        ensures b in merged
      {
        SliceMembers(feed.source, range.0, range.1, b);
      }
    }
  }

  lemma AdjoiningDownload(rows: seq<Bar>, feed: Feed, start: int, end: int)
    requires Rising(feed.source) && Faithful(rows, feed.source) && Gapless(rows, feed.source) && rows != []
    requires Adjoins(rows, feed.source, feed.reach(start, end).0, feed.reach(start, end).1)
    ensures Gapless(Merge(Some(rows), feed.Download(start, end)), feed.source)
  {
    var merged := Merge(Some(rows), feed.Download(start, end));
    MissStores(Some(rows), feed, start, end);
    forall b | merged != [] && b in feed.source && Earliest(merged) <= b.date <= Latest(merged)
      ensures b in merged
    {
      BetweenMergedRows(rows, feed, start, end, merged, b);
    }
  }

  lemma BetweenMergedRows(rows: seq<Bar>, feed: Feed, start: int, end: int, merged: seq<Bar>, b: Bar)
    requires Rising(rows) && Gapless(rows, feed.source) && rows != []
    requires Adjoins(rows, feed.source, feed.reach(start, end).0, feed.reach(start, end).1)
    requires Rising(merged) && merged != [] && b in feed.source && Earliest(merged) <= b.date <= Latest(merged)
    requires forall x :: x in merged <==> x in rows || x in feed.Download(start, end)
    ensures b in merged
  {
    var range := feed.reach(start, end);
    var first, last := merged[0], merged[|merged| - 1];
    RisingRange(merged);
    assert first in merged && last in merged;
    SliceMembers(feed.source, range.0, range.1, first);
    SliceMembers(feed.source, range.0, range.1, last);
    SliceMembers(feed.source, range.0, range.1, b);
    WithinRange(rows, first);
    WithinRange(rows, last);
  }

  lemma WithinRange(rows: seq<Bar>, b: Bar)
    requires Rising(rows) && rows != []
    ensures b in rows ==> Earliest(rows) <= b.date <= Latest(rows)
  {
    RisingRange(rows);
  }

  lemma EmptyDownload(rows: seq<Bar>, feed: Feed, start: int, end: int)
    requires Rising(feed.source) && Faithful(rows, feed.source) && rows != [] && feed.Download(start, end) == []
    ensures Merge(Some(rows), feed.Download(start, end)) == rows
  {
    var merged := Merge(Some(rows), feed.Download(start, end));
    MissStores(Some(rows), feed, start, end);
    assert forall b :: b !in feed.Download(start, end);
    forall b
      ensures b in merged <==> b in rows
    {
      assert b !in feed.Download(start, end);
    }
    RisingUnique(merged, rows);
  }

  /** A download that brings anything keeps the cache without gaps exactly when it overlaps or adjoins what is
      cached. */
  lemma GaplessAfterMissIff(rows: seq<Bar>, feed: Feed, start: int, end: int)
    requires Rising(feed.source) && Faithful(rows, feed.source) && Gapless(rows, feed.source) && rows != []
    requires feed.Download(start, end) != []
    ensures Gapless(Merge(Some(rows), feed.Download(start, end)), feed.source)
       <==> Adjoins(rows, feed.source, feed.reach(start, end).0, feed.reach(start, end).1)
  {
    var added, range := feed.Download(start, end), feed.reach(start, end);
    if Adjoins(rows, feed.source, range.0, range.1) {
      AdjoiningDownload(rows, feed, start, end);
    } else {
      var b :| b in feed.source
        && (Latest(rows) < b.date < range.0 || range.1 < b.date < Earliest(rows));
      GapRemains(rows, feed, start, end, b);
    }
  }

  lemma GapRemains(rows: seq<Bar>, feed: Feed, start: int, end: int, b: Bar)
    requires Rising(feed.source) && Faithful(rows, feed.source) && rows != [] && feed.Download(start, end) != []
    requires b in feed.source
    requires
      var range := feed.reach(start, end);
      Latest(rows) < b.date < range.0 || range.1 < b.date < Earliest(rows)
    ensures !Gapless(Merge(Some(rows), feed.Download(start, end)), feed.source)
  {
    var added, range := feed.Download(start, end), feed.reach(start, end);
    var merged := Merge(Some(rows), added);
    MissStores(Some(rows), feed, start, end);
    RisingRange(rows);
    assert added[0] in added && rows[0] in rows && rows[|rows| - 1] in rows;
    SliceMembers(feed.source, range.0, range.1, added[0]);
    SliceMembers(feed.source, range.0, range.1, b);
    if b.date < range.0 {
      EndsWithin(merged, rows[|rows| - 1], added[0]);
    } else {
      EndsWithin(merged, added[0], rows[0]);
    }
    WithinRange(rows, b);
  }

  // --- every sequence of calls ---

  /** A call that misses downloads nothing, or a range that overlaps or adjoins the cache. */
  ghost predicate CallLeavesNoGap(cached: Option<seq<Bar>>, feed: Feed, c: Call) {
    !Hit(cached, c.start, c.end) && cached.Some? && cached.value != [] && feed.Download(c.start, c.end) != [] ==>
      Adjoins(cached.value, feed.source, feed.reach(c.start, c.end).0, feed.reach(c.start, c.end).1)
  }

  ghost predicate LeavesNoGap(feed: Feed, calls: seq<Call>) {
    forall n :: 0 <= n < |calls| ==> NoGapAt(feed, calls, n)
  }

  ghost predicate NoGapAt(feed: Feed, calls: seq<Call>, n: nat)
    requires n < |calls|
  {
    CallLeavesNoGap(CacheAfter(feed, calls[..n]), feed, calls[n])
  }

  /** From a cache without gaps a call leads to one exactly if it leaves no gap. */
  lemma CallGaplessIff(cached: Option<seq<Bar>>, feed: Feed, c: Call)
    requires Rising(feed.source) && FaithfulCache(cached, feed.source) && GaplessCache(cached, feed.source)
    ensures GaplessCache(GetOhlcv(cached, feed, c.start, c.end).1, feed.source) <==> CallLeavesNoGap(cached, feed, c)
  {
    if !Hit(cached, c.start, c.end) {
      if cached.Some? && cached.value != [] {
        if feed.Download(c.start, c.end) == [] {
          EmptyDownload(cached.value, feed, c.start, c.end);
        } else {
          GaplessAfterMissIff(cached.value, feed, c.start, c.end);
        }
      } else {
        FirstDownload(feed, c.start, c.end, cached);
      }
    }
  }

  lemma {:induction false} CacheStaysFaithful(feed: Feed, calls: seq<Call>)
    requires Rising(feed.source)
    ensures FaithfulCache(CacheAfter(feed, calls), feed.source)
  {
    if calls != [] {
      var before, c := calls[..|calls| - 1], calls[|calls| - 1];
      CacheStaysFaithful(feed, before);
      if !Hit(CacheAfter(feed, before), c.start, c.end) {
        MissStores(CacheAfter(feed, before), feed, c.start, c.end);
      }
    }
  }

  ghost predicate GaplessAt(feed: Feed, calls: seq<Call>, n: nat)
    requires n <= |calls|
  {
    GaplessCache(CacheAfter(feed, calls[..n]), feed.source)
  }

  ghost predicate RightAt(feed: Feed, calls: seq<Call>, n: nat)
    requires n <= |calls|
  {
    AnswersRight(CacheAfter(feed, calls[..n]), feed)
  }

  ghost predicate FetchedAt(feed: Feed, calls: seq<Call>, n: nat)
    requires n <= |calls|
  {
    MissesFetched(CacheAfter(feed, calls[..n]), feed)
  }

  lemma PrefixGaplessIff(feed: Feed, calls: seq<Call>, n: nat)
    requires Rising(feed.source) && n < |calls| && GaplessAt(feed, calls, n)
    ensures GaplessAt(feed, calls, n + 1) <==> NoGapAt(feed, calls, n)
  {
    assert calls[..n + 1][..n] == calls[..n];
    CacheStaysFaithful(feed, calls[..n]);
    CallGaplessIff(CacheAfter(feed, calls[..n]), feed, calls[n]);
  }

  lemma GaplessThroughoutIff(feed: Feed, calls: seq<Call>)
    requires Rising(feed.source)
    ensures (forall n :: 0 <= n <= |calls| ==> GaplessAt(feed, calls, n)) <==> LeavesNoGap(feed, calls)
  {
    var good := (n: nat) => n <= |calls| ==> GaplessAt(feed, calls, n);
    var harmless := (n: nat) => n < |calls| ==> NoGapAt(feed, calls, n);
    assert calls[..0] == [];
    forall k: nat | k < |calls| && good(k)
      ensures good(k + 1) <==> harmless(k)
    {
      PrefixGaplessIff(feed, calls, k);
    }
    GoodIffHarmless(good, harmless, |calls|);
    assert forall n: nat :: n <= |calls| ==> good(n) == GaplessAt(feed, calls, n);
    assert forall n: nat :: n < |calls| ==> harmless(n) == NoGapAt(feed, calls, n);
  }

  /** After every prefix of the calls, every request would be answered with the rows of the source. */
  ghost predicate AlwaysRight(feed: Feed, calls: seq<Call>) {
    forall n :: 0 <= n <= |calls| ==> RightAt(feed, calls, n)
  }

  lemma RightAtIff(feed: Feed, calls: seq<Call>, n: nat)
    requires Rising(feed.source) && n <= |calls|
    ensures RightAt(feed, calls, n) <==> GaplessAt(feed, calls, n) && FetchedAt(feed, calls, n)
  {
    CacheStaysFaithful(feed, calls[..n]);
    EveryAnswerRightIff(CacheAfter(feed, calls[..n]), feed);
  }

  /** Over any sequence of calls, every answer after every prefix is the source restricted to the request, if and only
      if the calls leave no gap and no miss falls short of what was asked for. */
  lemma AnswersAgreeIff(feed: Feed, calls: seq<Call>)
    requires Rising(feed.source)
    ensures AlwaysRight(feed, calls)
       <==> LeavesNoGap(feed, calls) && forall n :: 0 <= n <= |calls| ==> FetchedAt(feed, calls, n)
  {
    GaplessThroughoutIff(feed, calls);
    forall n | 0 <= n <= |calls|
      ensures RightAt(feed, calls, n) <==> GaplessAt(feed, calls, n) && FetchedAt(feed, calls, n)
    {
      RightAtIff(feed, calls, n);
    }
  }

  /** With a downloader that never falls short: if and only if the calls leave no gap. */
  lemma AnswersAgreeWithSource(feed: Feed, calls: seq<Call>)
    requires Rising(feed.source) && Generous(feed)
    ensures AlwaysRight(feed, calls) <==> LeavesNoGap(feed, calls)
  {
    AnswersAgreeIff(feed, calls);
  }

  /** What the answer to one request needs: on a hit that the cache holds every row of it, on a miss that the cache and
      the download together do. */
  ghost predicate Supplied(cached: Option<seq<Bar>>, feed: Feed, start: int, end: int) {
    if Hit(cached, start, end) then
      forall b :: b in feed.source && start <= b.date <= end ==> b in cached.value
    else
      Fetched(cached, feed, start, end)
  }

  /** The answers that a sequence of calls actually receives are all right exactly if each is supplied in its turn. */
  lemma ReceivedAnswersRightIff(feed: Feed, calls: seq<Call>)
    requires Rising(feed.source)
    ensures (forall n :: 0 <= n < |calls| ==>
              Agrees(GetOhlcv(CacheAfter(feed, calls[..n]), feed, calls[n].start, calls[n].end).0,
                     feed.source, calls[n].start, calls[n].end))
       <==> (forall n :: 0 <= n < |calls| ==>
              Supplied(CacheAfter(feed, calls[..n]), feed, calls[n].start, calls[n].end))
  {
    forall n | 0 <= n < |calls|
      ensures Agrees(GetOhlcv(CacheAfter(feed, calls[..n]), feed, calls[n].start, calls[n].end).0,
                     feed.source, calls[n].start, calls[n].end)
         <==> Supplied(CacheAfter(feed, calls[..n]), feed, calls[n].start, calls[n].end)
    {
      CacheStaysFaithful(feed, calls[..n]);
      AnswerRightIff(CacheAfter(feed, calls[..n]), feed, calls[n].start, calls[n].end);
    }
  }

  lemma AnswerRightIff(cached: Option<seq<Bar>>, feed: Feed, start: int, end: int)
    requires Rising(feed.source) && FaithfulCache(cached, feed.source)
    ensures Agrees(GetOhlcv(cached, feed, start, end).0, feed.source, start, end)
       <==> Supplied(cached, feed, start, end)
  {
    if Hit(cached, start, end) {
      SliceAgreesIff(cached.value, feed.source, start, end);
    } else {
      MissAgreesIff(cached, feed, start, end);
    }
  }

  function ThreeDays(): Feed {
    Feed([Bar(1, []), Bar(2, []), Bar(3, [])], (s, e) => (s, e))
  }

  /** Two disjoint requests are enough for a wrong third answer: the second day is never returned. */
  lemma DisjointRangesLoseRows(calls: seq<Call>)
    requires calls == [Call(1, 1), Call(3, 3)]
    ensures Rising(ThreeDays().source) && Generous(ThreeDays())
    ensures GetOhlcv(CacheAfter(ThreeDays(), calls), ThreeDays(), 1, 3).0 == [Bar(1, []), Bar(3, [])]
    ensures Slice(ThreeDays().source, 1, 3) == [Bar(1, []), Bar(2, []), Bar(3, [])]
  {
    CacheOfDisjointRanges(calls);
    HitWithGap(Bar(1, []), Bar(3, []));
    SliceOfThree(Bar(1, []), Bar(2, []), Bar(3, []), 1, 3);
  }

  /** On an empty cache the exclusive end loses the last of three days. */
  lemma ExclusiveEndLosesRow()
    ensures
      var feed := EndExclusive(ThreeDays().source);
      && GetOhlcv(None, feed, 1, 3).0 == [Bar(1, []), Bar(2, [])]
      && Slice(feed.source, 1, 3) == [Bar(1, []), Bar(2, []), Bar(3, [])]
  {
    var b1, b2, b3 := Bar(1, []), Bar(2, []), Bar(3, []);
    SliceOfThree(b1, b2, b3, 1, 2);
    SliceOfThree(b1, b2, b3, 1, 3);
    SliceOfTwo(b1, b2, 1, 3);
    MergeFirstTwo(b1, b2);
    assert EndExclusive(ThreeDays().source).Download(1, 3) == [b1, b2];
  }

  lemma MergeFirstTwo(b1: Bar, b2: Bar)
    requires b1.date < b2.date
    ensures Merge(None, [b1, b2]) == [b1, b2]
  {
    SortBarsFacts([b1, b2]);
    RisingUnique(SortBars([b1, b2]), [b1, b2]);
  }

  lemma HitWithGap(b1: Bar, b3: Bar)
    requires b1.date == 1 && b3.date == 3
    ensures GetOhlcv(Some([b1, b3]), ThreeDays(), 1, 3).0 == [b1, b3]
  {
    RisingRange([b1, b3]);
    SliceOfTwo(b1, b3, 1, 3);
  }

  lemma CacheOfDisjointRanges(calls: seq<Call>)
    requires calls == [Call(1, 1), Call(3, 3)]
    ensures CacheAfter(ThreeDays(), calls) == Some([Bar(1, []), Bar(3, [])])
  {
    var b1, b3 := Bar(1, []), Bar(3, []);
    var first := calls[..1];
    assert first == [Call(1, 1)];
    CacheOfFirstDay(first);
    DownloadOneDay(3);
    MergeTwo(b1, b3);
    assert GetOhlcv(Some([b1]), ThreeDays(), 3, 3).1 == Some([b1, b3]);
  }

  lemma CacheOfFirstDay(calls: seq<Call>)
    requires calls == [Call(1, 1)]
    ensures CacheAfter(ThreeDays(), calls) == Some([Bar(1, [])])
  {
    assert calls[..0] == [];
    DownloadOneDay(1);
    MergeSingle(Bar(1, []));
  }

  lemma DownloadOneDay(day: int)
    requires day == 1 || day == 3
    ensures ThreeDays().Download(day, day) == [Bar(day, [])]
  {
    SliceOfThree(Bar(1, []), Bar(2, []), Bar(3, []), day, day);
  }

  lemma SliceAppend(rows: seq<Bar>, b: Bar, start: int, end: int)
    ensures Slice(rows + [b], start, end) == Slice(rows, start, end) + if start <= b.date <= end then [b] else []
  {
    assert (rows + [b])[..|rows|] == rows;
  }

  lemma SliceOfTwo(b1: Bar, b2: Bar, start: int, end: int)
    ensures Slice([b1, b2], start, end)
         == (if start <= b1.date <= end then [b1] else []) + (if start <= b2.date <= end then [b2] else [])
  {
    SliceAppend([], b1, start, end);
    SliceAppend([b1], b2, start, end);
    assert [] + [b1] == [b1] && [b1] + [b2] == [b1, b2];
  }

  lemma SliceOfThree(b1: Bar, b2: Bar, b3: Bar, start: int, end: int)
    ensures Slice([b1, b2, b3], start, end)
         == Slice([b1, b2], start, end) + (if start <= b3.date <= end then [b3] else [])
    ensures Slice([b1, b2], start, end)
         == (if start <= b1.date <= end then [b1] else []) + (if start <= b2.date <= end then [b2] else [])
  {
    SliceOfTwo(b1, b2, start, end);
    SliceAppend([b1, b2], b3, start, end);
    assert [b1, b2] + [b3] == [b1, b2, b3];
  }

  lemma MergeSingle(b: Bar)
    ensures Merge(None, [b]) == [b]
  {
    SortBarsFacts([b]);
    RisingUnique(SortBars([b]), [b]);
  }

  lemma LastRowAppend(rows: seq<Bar>, b: Bar, date: int)
    ensures LastRow(rows + [b], date) == if b.date == date then Some(b) else LastRow(rows, date)
  {
    assert (rows + [b])[..|rows|] == rows;
  }

  lemma MergeTwo(b1: Bar, b2: Bar)
    requires b1.date < b2.date
    ensures Merge(Some([b1]), [b2]) == [b1, b2]
  {
    var merged := Merge(Some([b1]), [b2]);
    MergeKeepsLastWritten([b1], [b2]);
    forall b: Bar
      ensures b in merged <==> b in [b1, b2]
    {
      LastRowAppend([b1], b2, b.date);
      LastRowAppend([], b1, b.date);
      assert [] + [b1] == [b1];
    }
    RisingUnique(merged, [b1, b2]);
  }
}
