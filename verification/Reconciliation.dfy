/** Comparing the broker's positions with an internal book. */
module Reconciliation {
  import opened Numbers
  import opened BrokerModel
  import opened BrokerRuns
  import opened BrokerLedger

  datatype PositionMismatch = PositionMismatch(symbol: string, brokerQty: int, bookQty: int)

  datatype ReconciliationReport = ReconciliationReport(ok: bool, mismatches: seq<PositionMismatch>)

  /** The dictionary built from a list of reports: of two entries for a symbol the later one stays. */
  function QuantityIn(report: seq<PositionReport>, symbol: string): int
    decreases |report|
  {
    if report == [] then 0
    else if report[|report| - 1].symbol == symbol then report[|report| - 1].quantity
    else QuantityIn(report[..|report| - 1], symbol)
  }

  function BookQuantity(book: map<string, int>, symbol: string): int {
    if symbol in book then book[symbol] else 0
  }

  function Symbols(report: seq<PositionReport>): set<string> {
    set i | 0 <= i < |report| :: report[i].symbol
  }

  function Difference(report: seq<PositionReport>, book: map<string, int>, symbol: string): nat {
    AbsInt(QuantityIn(report, symbol) - BookQuantity(book, symbol))
  }

  // --- symbols in order ---

  /** Strings are compared character by character; a proper prefix comes first. */
  predicate Precedes(a: string, b: string) {
    b != [] && (a == [] || a[0] < b[0] || (a[0] == b[0] && Precedes(a[1..], b[1..])))
  }

  lemma {:induction false} PrecedesTotal(a: string, b: string)
    ensures a == b || Precedes(a, b) || Precedes(b, a)
    ensures !(Precedes(a, b) && Precedes(b, a)) && !Precedes(a, a)
  {
    if a != [] && b != [] {
      PrecedesTotal(a[1..], b[1..]);
      assert a == [a[0]] + a[1..] && b == [b[0]] + b[1..];
    }
    if a != [] {
      PrecedesTotal(a[1..], a[1..]);
    }
  }

  lemma {:induction false} PrecedesTransitive(a: string, b: string, c: string)
    requires Precedes(a, b) && Precedes(b, c)
    ensures Precedes(a, c)
  {
    if a != [] && a[0] == b[0] == c[0] {
      PrecedesTransitive(a[1..], b[1..], c[1..]);
    }
  }

  ghost predicate IsFirst(x: string, symbols: set<string>) {
    x in symbols && forall y :: y in symbols ==> y == x || Precedes(x, y)
  }

  lemma {:induction false} SomeIsFirst(symbols: set<string>) returns (x: string)
    requires symbols != {}
    ensures IsFirst(x, symbols)
  {
    var s :| s in symbols;
    var rest := symbols - {s};
    assert forall y :: y in symbols ==> y == s || y in rest;
    if rest == {} {
      x := s;
    } else {
      x := SomeIsFirst(rest);
      PrecedesTotal(s, x);
      if Precedes(s, x) {
        forall y | y in symbols
          ensures y == s || Precedes(s, y)
        {
          if y != s && y != x {
            PrecedesTransitive(s, x, y);
          }
        }
        x := s;
      }
    }
  }

  lemma FirstExists(symbols: set<string>)
    requires symbols != {}
    ensures exists x :: IsFirst(x, symbols)
  {
    var x := SomeIsFirst(symbols);
  }

  ghost function InOrder(symbols: set<string>): (r: seq<string>)
    ensures forall x :: x in r <==> x in symbols
    ensures forall i, j :: 0 <= i < j < |r| ==> Precedes(r[i], r[j])
  {
    if symbols == {} then []
    else
      FirstExists(symbols);
      var x :| IsFirst(x, symbols);
      var rest := InOrder(symbols - {x});
      assert forall j :: 0 <= j < |rest| ==> rest[j] in rest;
      [x] + rest
  }

  // --- the report ---

  function Mismatched(report: seq<PositionReport>, book: map<string, int>, tolerance: int): set<string> {
    set s | s in Symbols(report) + book.Keys && Difference(report, book, s) > tolerance
  }

  function MismatchOf(report: seq<PositionReport>, book: map<string, int>, symbol: string): PositionMismatch {
    PositionMismatch(symbol, QuantityIn(report, symbol), BookQuantity(book, symbol))
  }

  ghost function ReconcilePositions(
    report: seq<PositionReport>, book: map<string, int>, tolerance: int): ReconciliationReport
  {
    var symbols := InOrder(Mismatched(report, book, tolerance));
    ReconciliationReport(
      Mismatched(report, book, tolerance) == {},
      seq(|symbols|, i requires 0 <= i < |symbols| => MismatchOf(report, book, symbols[i])))
  }

  /** The report is clean exactly when every symbol, listed or not, is within tolerance; and it lists, with both
      quantities and sorted by symbol, exactly the symbols that are not, each once. */
  lemma ReportIsExact(report: seq<PositionReport>, book: map<string, int>, tolerance: int)
    requires tolerance >= 0
    ensures
      var r := ReconcilePositions(report, book, tolerance);
      && (r.ok <==> forall symbol :: Difference(report, book, symbol) <= tolerance)
      && (forall m: PositionMismatch :: m in r.mismatches <==>
            m == MismatchOf(report, book, m.symbol) && Difference(report, book, m.symbol) > tolerance)
      && (forall i, j :: 0 <= i < j < |r.mismatches| ==> Precedes(r.mismatches[i].symbol, r.mismatches[j].symbol))
      && (forall m: PositionMismatch :: m in r.mismatches ==>
            && m.bookQty == (if m.symbol in book then book[m.symbol] else 0)
            && (m.brokerQty - m.bookQty > tolerance || m.bookQty - m.brokerQty > tolerance))
  {
    var r, symbols := ReconcilePositions(report, book, tolerance), InOrder(Mismatched(report, book, tolerance));
    forall symbol
      ensures symbol in symbols <==> Difference(report, book, symbol) > tolerance
    {
      if symbol !in Symbols(report) {
        NotListed(report, symbol);
      }
    }
    forall m: PositionMismatch | m == MismatchOf(report, book, m.symbol) && m.symbol in symbols
      ensures m in r.mismatches
    {
      var i :| 0 <= i < |symbols| && symbols[i] == m.symbol;
      assert r.mismatches[i] == m;
    }
  }

  lemma NotListed(report: seq<PositionReport>, symbol: string)
    requires symbol !in Symbols(report)
    ensures QuantityIn(report, symbol) == 0
    decreases |report|
  {
    if report != [] {
      var shorter := report[..|report| - 1];
      assert forall i :: 0 <= i < |shorter| ==> shorter[i] == report[i];
      assert report[|report| - 1].symbol in Symbols(report);
      NotListed(shorter, symbol);
    }
  }

  lemma {:induction false} ListedQuantity(report: seq<PositionReport>, symbol: string, i: nat)
    requires i < |report| && report[i].symbol == symbol
    requires forall j, k :: 0 <= j < k < |report| ==> report[j].symbol != report[k].symbol
    ensures QuantityIn(report, symbol) == report[i].quantity
    decreases |report|
  {
    if i < |report| - 1 {
      ListedQuantity(report[..|report| - 1], symbol, i);
    }
  }

  lemma ReportMatchesPositions(report: seq<PositionReport>, positions: map<string, Position>, symbol: string)
    requires Lists(report, positions)
    ensures QuantityIn(report, symbol) == Held(positions, symbol).shares
  {
    if symbol in positions {
      var i :| 0 <= i < |report| && report[i].symbol == symbol;
      ListedQuantity(report, symbol, i);
    } else {
      NotListed(report, symbol);
    }
  }

  /** A book that gives every symbol the sum of its signed fills always reconciles with zero tolerance, in every
      reachable state and however get_positions orders its list; and no other book does. */
  lemma BookOfFillsReconciles(
    initialCash: real, ops: seq<Op>, cfg: Config, report: seq<PositionReport>, book: map<string, int>)
    requires Lists(report, Run(Opened(initialCash), ops, cfg).positions)
    ensures ReconcilePositions(report, book, 0).ok
       <==> forall symbol: string ::
              BookQuantity(book, symbol) == NetQuantity(Run(Opened(initialCash), ops, cfg).fills, symbol)
    ensures forall m: PositionMismatch :: m in ReconcilePositions(report, book, 0).mismatches ==>
      m.brokerQty == NetQuantity(Run(Opened(initialCash), ops, cfg).fills, m.symbol) != m.bookQty
  {
    var b := Run(Opened(initialCash), ops, cfg);
    forall symbol: string
      ensures QuantityIn(report, symbol) == NetQuantity(b.fills, symbol)
    {
      ReportMatchesPositions(report, b.positions, symbol);
      LedgerConservation(initialCash, ops, cfg, symbol);
    }
    ReportIsExact(report, book, 0);
    forall symbol: string
      ensures Difference(report, book, symbol) <= 0 <==> BookQuantity(book, symbol) == NetQuantity(b.fills, symbol)
    {
    }
  }
}
