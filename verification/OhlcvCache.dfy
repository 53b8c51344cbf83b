/** The cache and the provider as they run: the cache replaces the stored rows of a symbol, the provider reads it,
    downloads on a miss, and slices. */
module OhlcvCache {
  import opened Numbers
  import opened CacheModel

  class OHLCVCache {
    var files: map<string, seq<Bar>>

    ghost function Rows(symbol: string): Option<seq<Bar>>
      reads this
    {
      if symbol in files then Some(files[symbol]) else None
    }

    constructor ()
      ensures files == map[]
    {
      files := map[];
    }

    method Read(symbol: string) returns (rows: Option<seq<Bar>>)
      ensures rows == Rows(symbol)
    {
      rows := if symbol in files then Some(files[symbol]) else None;
    }

    method Write(symbol: string, rows: seq<Bar>)
      modifies this
      ensures files == old(files)[symbol := SortBars(rows)]
    {
      files := files[symbol := SortBars(rows)];
    }

    method MergeWrite(symbol: string, added: seq<Bar>) returns (combined: seq<Bar>)
      modifies this
      ensures combined == Merge(old(Rows(symbol)), added)
      ensures files == old(files)[symbol := combined]
    {
      var existing := Read(symbol);
      if existing.Some? && existing.value != [] {
        combined := SortBars(KeepLast(existing.value + added));
      } else {
        combined := SortBars(added);
      }
      MergeIsSorted(existing, added);
      Write(symbol, combined);
    }
  }

  class MarketDataProvider {
    const cache: OHLCVCache
    const feeds: string -> Feed

    constructor (cache: OHLCVCache, feeds: string -> Feed)
      ensures this.cache == cache && this.feeds == feeds
    {
      this.cache, this.feeds := cache, feeds;
    }

    method GetOhlcv(symbol: string, start: int, end: int) returns (rows: seq<Bar>)
      modifies cache
      ensures (rows, cache.Rows(symbol)) == CacheModel.GetOhlcv(old(cache.Rows(symbol)), feeds(symbol), start, end)
      ensures forall other :: other != symbol ==> cache.Rows(other) == old(cache.Rows(other))
    {
      var cached := cache.Read(symbol);
      if cached.Some? && cached.value != [] && Covers(cached.value, start, end) {
        return Slice(cached.value, start, end);
      }
      var downloaded := feeds(symbol).Download(start, end);
      var merged := cache.MergeWrite(symbol, downloaded);
      return Slice(merged, start, end);
    }
  }

  ghost predicate NonFalling(rows: seq<Bar>) {
    forall i, j :: 0 <= i <= j < |rows| ==> rows[i].date <= rows[j].date
  }

  lemma {:induction false} InsertNonFalling(b: Bar, sorted: seq<Bar>, most: int)
    requires NonFalling(sorted) && b.date <= most && forall i :: 0 <= i < |sorted| ==> sorted[i].date <= most
    ensures NonFalling(InsertBar(b, sorted))
    ensures forall i :: 0 <= i < |InsertBar(b, sorted)| ==> InsertBar(b, sorted)[i].date <= most
  {
    if sorted != [] && sorted[|sorted| - 1].date > b.date {
      InsertNonFalling(b, sorted[..|sorted| - 1], sorted[|sorted| - 1].date);
    }
  }

  lemma {:induction false} SortNonFalling(rows: seq<Bar>)
    ensures NonFalling(SortBars(rows))
  {
    if rows != [] {
      var b, sorted := rows[|rows| - 1], SortBars(rows[..|rows| - 1]);
      SortNonFalling(rows[..|rows| - 1]);
      InsertNonFalling(
        b, sorted, if sorted == [] || sorted[|sorted| - 1].date <= b.date then b.date else sorted[|sorted| - 1].date);
    }
  }

  lemma {:induction false} SortOfSorted(rows: seq<Bar>)
    requires NonFalling(rows)
    ensures SortBars(rows) == rows
  {
    if rows != [] {
      var front, last := rows[..|rows| - 1], rows[|rows| - 1];
      SortOfSorted(front);
      assert front == [] || front[|front| - 1].date <= last.date;
      assert rows == front + [last];
    }
  }

  /** Writing sorts once more; what a merge stores is sorted already. */
  lemma MergeIsSorted(existing: Option<seq<Bar>>, added: seq<Bar>)
    ensures SortBars(Merge(existing, added)) == Merge(existing, added)
  {
    if existing.Some? && existing.value != [] {
      SortNonFalling(KeepLast(existing.value + added));
    } else {
      SortNonFalling(added);
    }
    SortOfSorted(Merge(existing, added));
  }
}
