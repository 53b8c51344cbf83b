/** The price cache and the provider in front of it, for one symbol at a time. Dates are day numbers. */
module CacheModel {
  import opened Numbers

  datatype Bar = Bar(date: int, fields: seq<real>)

  // --- the store ---

  function InsertBar(b: Bar, sorted: seq<Bar>): seq<Bar> {
    if sorted == [] || sorted[|sorted| - 1].date <= b.date then sorted + [b]
    else InsertBar(b, sorted[..|sorted| - 1]) + [sorted[|sorted| - 1]]
  }

  function SortBars(rows: seq<Bar>): seq<Bar> {
    if rows == [] then [] else InsertBar(rows[|rows| - 1], SortBars(rows[..|rows| - 1]))
  }

  predicate HasDate(rows: seq<Bar>, date: int) {
    exists i :: 0 <= i < |rows| && rows[i].date == date
  }

  /** Of several rows with one date, only the last stays. */
  function KeepLast(rows: seq<Bar>): seq<Bar> {
    if rows == [] then []
    else (if HasDate(rows[1..], rows[0].date) then [] else [rows[0]]) + KeepLast(rows[1..])
  }

  /** Union of the stored rows and the new ones, last write wins, sorted. Nothing is deduplicated on a first write. */
  function Merge(existing: Option<seq<Bar>>, added: seq<Bar>): seq<Bar> {
    if existing.Some? && existing.value != [] then SortBars(KeepLast(existing.value + added)) else SortBars(added)
  }

  // --- the provider ---

  function Slice(rows: seq<Bar>, start: int, end: int): seq<Bar> {
    if rows == [] then []
    else Slice(rows[..|rows| - 1], start, end)
         + if start <= rows[|rows| - 1].date <= end then [rows[|rows| - 1]] else []
  }

  function Earliest(rows: seq<Bar>): int
    requires rows != []
  {
    if |rows| == 1 then rows[0].date
    else
      var m := Earliest(rows[..|rows| - 1]);
      if rows[|rows| - 1].date < m then rows[|rows| - 1].date else m
  }

  function Latest(rows: seq<Bar>): int
    requires rows != []
  {
    if |rows| == 1 then rows[0].date
    else
      var m := Latest(rows[..|rows| - 1]);
      if rows[|rows| - 1].date > m then rows[|rows| - 1].date else m
  }

  /** Only the first and the last cached date are compared with the request. */
  predicate Covers(rows: seq<Bar>, start: int, end: int)
    requires rows != []
  {
    Earliest(rows) <= start && Latest(rows) >= end
  }

  /** A data source that answers a request with its rows over some range, wider or narrower. */
  datatype Feed = Feed(source: seq<Bar>, reach: (int, int) -> (int, int)) {
    function Download(start: int, end: int): seq<Bar> {
      var range := reach(start, end);
      Slice(source, range.0, range.1)
    }
  }

  predicate Hit(cached: Option<seq<Bar>>, start: int, end: int) {
    cached.Some? && cached.value != [] && Covers(cached.value, start, end)
  }

  /** The rows returned, and the cache afterwards. */
  function GetOhlcv(cached: Option<seq<Bar>>, feed: Feed, start: int, end: int): (seq<Bar>, Option<seq<Bar>>) {
    if Hit(cached, start, end) then
      (Slice(cached.value, start, end), cached)
    else
      var merged := Merge(cached, feed.Download(start, end));
      (Slice(merged, start, end), Some(merged))
  }

  datatype Call = Call(start: int, end: int)

  /** The cache after a sequence of calls on an empty one. */
  function CacheAfter(feed: Feed, calls: seq<Call>): Option<seq<Bar>> {
    if calls == [] then None
    else
      var c := calls[|calls| - 1];
      GetOhlcv(CacheAfter(feed, calls[..|calls| - 1]), feed, c.start, c.end).1
  }
}
