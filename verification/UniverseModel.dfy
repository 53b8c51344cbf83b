/** Point-in-time index membership: add and drop events collapsed into [from, to) intervals, and what the repository and
    the eligibility matrix read off them. Dates are day numbers. */
module UniverseModel {
  import opened Numbers

  datatype Action = Add | Drop

  datatype Event = Event(index: string, symbol: string, action: Action, date: int)

  datatype Membership = Membership(index: string, symbol: string, effectiveFrom: int, effectiveTo: Option<int>)

  datatype Key = Key(index: string, symbol: string)

  function KeyOf(e: Event): Key {
    Key(e.index, e.symbol)
  }

  // --- grouping and sorting ---

  /** The events of one name, in the order given. */
  function EventsFor(events: seq<Event>, key: Key): seq<Event> {
    if events == [] then []
    else EventsFor(events[..|events| - 1], key)
         + if KeyOf(events[|events| - 1]) == key then [events[|events| - 1]] else []
  }

  /** The names, in the order they first occur. */
  function KeysOf(events: seq<Event>): seq<Key> {
    if events == [] then []
    else
      var before, key := KeysOf(events[..|events| - 1]), KeyOf(events[|events| - 1]);
      if key in before then before else before + [key]
  }

  /** Sorting by date keeps the given order among events of the same day. */
  function InsertByDate(e: Event, sorted: seq<Event>): (r: seq<Event>) {
    if sorted == [] || sorted[|sorted| - 1].date <= e.date then sorted + [e]
    else InsertByDate(e, sorted[..|sorted| - 1]) + [sorted[|sorted| - 1]]
  }

  function SortByDate(events: seq<Event>): seq<Event> {
    if events == [] then [] else InsertByDate(events[|events| - 1], SortByDate(events[..|events| - 1]))
  }

  // --- one name ---

  /** The scan over the sorted events of a name: the intervals closed so far, and where the open one began. */
  datatype Scan = Scan(closed: seq<Membership>, openFrom: Option<int>)

  /** Duplicate adds and dangling drops are ignored. */
  function ScanEvent(s: Scan, e: Event, key: Key): Scan {
    match e.action
    case Add => if s.openFrom.None? then s.(openFrom := Some(e.date)) else s
    case Drop =>
      if s.openFrom.Some? then
        Scan(s.closed + [Membership(key.index, key.symbol, s.openFrom.value, Some(e.date))], None)
      else
        s
  }

  function ScanAll(evs: seq<Event>, key: Key): Scan {
    if evs == [] then Scan([], None) else ScanEvent(ScanAll(evs[..|evs| - 1], key), evs[|evs| - 1], key)
  }

  /** A name that is still open at the end has no end date. */
  function Finished(s: Scan, key: Key): seq<Membership> {
    s.closed + if s.openFrom.Some? then [Membership(key.index, key.symbol, s.openFrom.value, None)] else []
  }

  function IntervalsFor(events: seq<Event>, key: Key): seq<Membership> {
    Finished(ScanAll(SortByDate(EventsFor(events, key)), key), key)
  }

  function IntervalsOf(keys: seq<Key>, events: seq<Event>): seq<Membership> {
    if keys == [] then [] else IntervalsOf(keys[..|keys| - 1], events) + IntervalsFor(events, keys[|keys| - 1])
  }

  function Intervals(events: seq<Event>): seq<Membership> {
    IntervalsOf(KeysOf(events), events)
  }

  // --- reading the intervals ---

  predicate Contains(m: Membership, day: int) {
    m.effectiveFrom <= day && (m.effectiveTo.None? || day < m.effectiveTo.value)
  }

  /** The repository's query: rows of an index that contain the day. */
  function MembersOn(rows: seq<Membership>, index: string, day: int): seq<Membership> {
    if rows == [] then []
    else MembersOn(rows[..|rows| - 1], index, day)
         + if rows[|rows| - 1].index == index && Contains(rows[|rows| - 1], day) then [rows[|rows| - 1]] else []
  }

  /** A cell of the eligibility matrix; the index of an interval is not looked at. */
  ghost predicate Eligible(rows: seq<Membership>, symbol: string, day: int) {
    exists i :: 0 <= i < |rows| && rows[i].symbol == symbol && Contains(rows[i], day)
  }

  // --- the reference: replaying events ---

  function UpTo(events: seq<Event>, day: int): seq<Event> {
    if events == [] then []
    else UpTo(events[..|events| - 1], day) + if events[|events| - 1].date <= day then [events[|events| - 1]] else []
  }

  /** An add opens the name, a drop closes it. */
  function Replay(events: seq<Event>): bool {
    if events == [] then false
    else match events[|events| - 1].action
      case Add => true
      case Drop => false
  }

  /** Is the name in the index on the day? */
  function Member(events: seq<Event>, key: Key, day: int): bool {
    Replay(UpTo(SortByDate(EventsFor(events, key)), day))
  }
}
