/** Where at-most-once execution stops: a limit order that rests at the broker stays PENDING in the repository, so it
    passes the approval guard again, also after the broker has filled it. */
module LimitOrders {
  import opened Numbers
  import opened Costs
  import opened BrokerModel
  import opened BrokerRuns
  import opened BrokerSafety
  import opened OrderProtocol

  predicate FilledAtBroker(b: Broker, id: string) {
    id in b.orders && b.orders[id].status.Filled?
  }

  /** The broker's own record of every id is truthful: one execution if it says FILLED, none otherwise. */
  ghost predicate Truthful(d: Desk) {
    forall id :: Executions(d.broker.fills, id) == if FilledAtBroker(d.broker, id) then 1 else 0
  }

  /** An approval that passes the repository's guard although the broker has already filled the order. */
  predicate Regrant(d: Desk, e: Event) {
    && e.Approve? && e.id in d.orders && d.orders[e.id].status.Pending?
    && FilledAtBroker(d.broker, e.id)
  }

  /** The state before the n-th event of a run on a fresh desk. */
  function Before(initialCash: real, events: seq<Event>, cfg: Config, n: nat): Desk
    requires n <= |events|
  {
    After(Fresh(initialCash), events[..n], cfg)
  }

  lemma BeforeNext(initialCash: real, events: seq<Event>, cfg: Config, n: nat)
    requires n < |events|
    ensures Before(initialCash, events, cfg, n + 1) == Step(Before(initialCash, events, cfg, n), events[n], cfg).0
  {
    assert events[..n + 1] == events[..n] + [events[n]];
    AfterAppend(Fresh(initialCash), events[..n], events[n], cfg);
  }

  lemma BeforeSound(initialCash: real, events: seq<Event>, cfg: Config, n: nat)
    requires DistinctIds(events) && n <= |events|
    ensures Sound(Before(initialCash, events, cfg, n))
  {
    AfterSound(initialCash, events[..n], cfg);
  }

  lemma StepTruthful(d: Desk, e: Event, cfg: Config)
    requires Sound(d) && Truthful(d) && !Regrant(d, e)
    ensures Truthful(Step(d, e, cfg).0)
  {
    var d' := Step(d, e, cfg).0;
    forall id
      ensures Executions(d'.broker.fills, id) == if FilledAtBroker(d'.broker, id) then 1 else 0
    {
      assert Tracked(d, id);
      match e
      case Approve(approved, ticket) =>
        assert Tracked(d, approved);
        if approved in d.orders {
          PlaceShape(d.broker, d.orders[approved], ticket, cfg);
          PlaceCounts(d.broker, d.orders[approved], ticket, cfg, id);
        }
      case Marks(prices) =>
        ProcessPasses(d.broker.(marks := d.broker.marks + prices), d.broker.arrival, id, cfg);
      case _ =>
    }
  }

  /** From a truthful state, one event keeps the record truthful exactly if it does not approve an order that the broker
      has filled. */
  lemma StepTruthfulIff(d: Desk, e: Event, cfg: Config)
    requires Sound(d) && Truthful(d)
    ensures Truthful(Step(d, e, cfg).0) <==> !Regrant(d, e)
  {
    if Regrant(d, e) {
      assert Tracked(d, e.id);
      PlaceShape(d.broker, d.orders[e.id], e.ticket, cfg);
      PlaceCounts(d.broker, d.orders[e.id], e.ticket, cfg, e.id);
    } else {
      StepTruthful(d, e, cfg);
    }
  }

  lemma OpeningTruthful(initialCash: real, events: seq<Event>, cfg: Config)
    ensures Truthful(Before(initialCash, events, cfg, 0))
  {
    assert events[..0] == [];
  }

  lemma PrefixTruthfulIff(initialCash: real, events: seq<Event>, cfg: Config, n: nat)
    requires DistinctIds(events) && n < |events| && Truthful(Before(initialCash, events, cfg, n))
    ensures Truthful(Before(initialCash, events, cfg, n + 1))
       <==> !Regrant(Before(initialCash, events, cfg, n), events[n])
  {
    BeforeSound(initialCash, events, cfg, n);
    BeforeNext(initialCash, events, cfg, n);
    StepTruthfulIff(Before(initialCash, events, cfg, n), events[n], cfg);
  }

  /** Through a whole run every order, limit orders included, has executed once if the broker records it as filled and
      not at all otherwise, if and only if no approval regrants an order that the broker has filled. */
  lemma TruthfulIffNeverRegrants(initialCash: real, events: seq<Event>, cfg: Config)
    requires DistinctIds(events)
    ensures (forall n :: 0 <= n <= |events| ==> Truthful(Before(initialCash, events, cfg, n)))
       <==> (forall n :: 0 <= n < |events| ==> !Regrant(Before(initialCash, events, cfg, n), events[n]))
  {
    var good := (n: nat) => n <= |events| ==> Truthful(Before(initialCash, events, cfg, n));
    var harmless := (n: nat) => n < |events| ==> !Regrant(Before(initialCash, events, cfg, n), events[n]);
    OpeningTruthful(initialCash, events, cfg);
    forall k: nat | k < |events| && good(k)
      ensures good(k + 1) <==> harmless(k)
    {
      PrefixTruthfulIff(initialCash, events, cfg, k);
    }
    GoodIffHarmless(good, harmless, |events|);
    assert forall n: nat :: n <= |events| ==> good(n) == Truthful(Before(initialCash, events, cfg, n));
    assert forall n: nat :: n < |events| ==> harmless(n) == !Regrant(Before(initialCash, events, cfg, n), events[n]);
  }

  // --- which events execute an order, whatever has happened before ---

  /** New marks execute a resting order if the orders that arrived before it leave it triggered and payable. */
  ghost predicate MarksFill(b: Broker, prices: map<string, real>, id: string, cfg: Config) {
    var moved := b.(marks := b.marks + prices);
    exists k :: 0 <= k < |b.arrival| && b.arrival[k] == id
                && WouldFill(ProcessFrom(moved, b.arrival[..k], cfg), id, cfg)
  }

  /** An event executes an order if it is an approval that passes the guard and finds the order executable, or brings
      marks that fill it while it rests at the broker. */
  ghost predicate Fills(d: Desk, e: Event, id: string, cfg: Config) {
    match e
    case Approve(approved, _) =>
      approved == id && id in d.orders && d.orders[id].status.Pending? && ExecutesNow(d.broker, d.orders[id], cfg)
    case Marks(prices) => MarksFill(d.broker, prices, id, cfg)
    case _ => false
  }

  lemma FilledInPass(b: Broker, id: string, k: nat, cfg: Config)
    requires WellKept(b) && k < |b.arrival| && b.arrival[k] == id
    ensures WouldFill(ProcessFrom(b, b.arrival[..k], cfg), id, cfg)
       <==> (id in b.orders && b.orders[id].status.Pending?
             && id in ProcessPending(b, cfg).orders && ProcessPending(b, cfg).orders[id].status.Filled?)
  {
    assert id in b.orders;
    if b.orders[id].status.Pending? {
      PassFillsIff(b, k, cfg);
    } else {
      ProcessOthers(b, b.arrival[..k], id, cfg);
    }
  }

  lemma MarksExecuteIff(b: Broker, prices: map<string, real>, id: string, cfg: Config)
    requires WellKept(b)
    ensures Executions(UpdateMarks(b, prices, cfg).fills, id)
         == Executions(b.fills, id) + if MarksFill(b, prices, id, cfg) then 1 else 0
  {
    var moved := b.(marks := b.marks + prices);
    ProcessPasses(moved, moved.arrival, id, cfg);
    forall k | 0 <= k < |b.arrival| && b.arrival[k] == id
      ensures WouldFill(ProcessFrom(moved, b.arrival[..k], cfg), id, cfg)
         <==> (id in b.orders && b.orders[id].status.Pending?
               && id in ProcessPending(moved, cfg).orders && ProcessPending(moved, cfg).orders[id].status.Filled?)
    {
      FilledInPass(moved, id, k, cfg);
    }
    if id in b.orders {
      assert id in b.arrival;
    }
  }

  /** An event of either kind executes an order at most once, and exactly in the cases of Fills. */
  lemma ExecutesIff(d: Desk, e: Event, id: string, cfg: Config)
    requires Sound(d)
    ensures Executions(Step(d, e, cfg).0.broker.fills, id)
         == Executions(d.broker.fills, id) + if Fills(d, e, id, cfg) then 1 else 0
  {
    match e
    case Approve(approved, ticket) =>
      assert Tracked(d, approved);
      if approved in d.orders {
        PlaceCounts(d.broker, d.orders[approved], ticket, cfg, id);
        PlaceExecutesIff(d.broker, d.orders[approved], ticket, cfg);
      }
    case Marks(prices) => MarksExecuteIff(d.broker, prices, id, cfg);
    case _ =>
  }

  /** So an order that has executed once executes again on exactly these events, whatever approvals came before: on an
      approval that is filled at once, or on marks that fill it after an approval that rested. */
  lemma SecondExecutionIff(d: Desk, e: Event, id: string, cfg: Config)
    requires Sound(d) && Executions(d.broker.fills, id) == 1
    ensures Executions(Step(d, e, cfg).0.broker.fills, id) == 2 <==> Fills(d, e, id, cfg)
    ensures Executions(Step(d, e, cfg).0.broker.fills, id) <= 2
  {
    ExecutesIff(d, e, id, cfg);
  }

  ghost predicate FillsAt(initialCash: real, events: seq<Event>, cfg: Config, id: string, n: nat)
    requires n < |events|
  {
    Fills(Before(initialCash, events, cfg, n), events[n], id, cfg)
  }

  lemma CountsNext(initialCash: real, events: seq<Event>, cfg: Config, id: string, n: nat)
    requires DistinctIds(events) && n < |events|
    ensures Executions(Before(initialCash, events, cfg, n + 1).broker.fills, id)
         == Executions(Before(initialCash, events, cfg, n).broker.fills, id)
            + if FillsAt(initialCash, events, cfg, id, n) then 1 else 0
  {
    BeforeSound(initialCash, events, cfg, n);
    BeforeNext(initialCash, events, cfg, n);
    ExecutesIff(Before(initialCash, events, cfg, n), events[n], id, cfg);
  }

  /** A count that grows by one at every hit is at most one exactly if no two steps hit. */
  lemma {:induction false} CountAtMostOne(count: nat -> nat, hit: nat -> bool, n: nat)
    requires count(0) == 0 && forall k :: 0 <= k < n ==> count(k + 1) == count(k) + if hit(k) then 1 else 0
    ensures count(n) == 0 <==> forall i :: 0 <= i < n ==> !hit(i)
    ensures count(n) <= 1 <==> forall i, j :: 0 <= i < j < n && hit(i) ==> !hit(j)
  {
    if n > 0 {
      CountAtMostOne(count, hit, n - 1);
      assert count(n - 1 + 1) == count(n - 1) + if hit(n - 1) then 1 else 0;
    }
  }

  /** Over a whole run an order has executed at most once if and only if no two events found it executable. */
  lemma AtMostOnceIff(initialCash: real, events: seq<Event>, cfg: Config, id: string)
    requires DistinctIds(events)
    ensures Executions(After(Fresh(initialCash), events, cfg).broker.fills, id) <= 1
       <==> forall i, j :: 0 <= i < j < |events| && FillsAt(initialCash, events, cfg, id, i) ==>
              !FillsAt(initialCash, events, cfg, id, j)
  {
    var count: nat -> nat := (n: nat) =>
      if n <= |events| then Executions(Before(initialCash, events, cfg, n).broker.fills, id) else 0;
    var hit := (n: nat) => n < |events| && FillsAt(initialCash, events, cfg, id, n);
    assert events[..0] == [] && events[..|events|] == events;
    forall k: nat | k < |events|
      ensures count(k + 1) == count(k) + if hit(k) then 1 else 0
    {
      CountsNext(initialCash, events, cfg, id, k);
    }
    CountAtMostOne(count, hit, |events|);
    assert forall n: nat :: n < |events| ==> hit(n) == FillsAt(initialCash, events, cfg, id, n);
  }

  // --- one proposal, any number of executions ---

  function Proposal(): Event {
    Propose("id", "AAA", Sell, 1, LimitOrder, Some(101.0))
  }

  /** Approve while the limit is out of reach, let the mark reach it, and take the mark back. */
  function Round(): seq<Event> {
    [Approve("id", "ticket"), Marks(map["AAA" := 102.0]), Marks(map["AAA" := 100.0])]
  }

  function Rounds(n: nat): seq<Event> {
    if n == 0 then [Marks(map["AAA" := 100.0]), Proposal()] else Rounds(n - 1) + Round()
  }

  /** Between rounds: the order is pending in the repository although the broker has filled it n times. */
  ghost predicate Poised(d: Desk, n: nat) {
    && "id" in d.orders
    && d.orders["id"].(brokerOrderId := None) == Drafted(Proposal())
    && !d.broker.halted
    && d.broker.marks == map["AAA" := 100.0]
    && (|| (d.broker.orders == map[] && d.broker.arrival == [])
        || (d.broker.orders.Keys == {"id"} && d.broker.arrival == ["id"]))
    && Executions(d.broker.fills, "id") == n
  }

  lemma AfterAppend(d: Desk, events: seq<Event>, e: Event, cfg: Config)
    ensures After(d, events + [e], cfg) == Step(After(d, events, cfg), e, cfg).0
  {
    assert (events + [e])[..|events|] == events;
  }

  lemma SinglePass(b: Broker, cfg: Config)
    requires b.arrival == ["id"]
    ensures ProcessPending(b, cfg) == Touch(b, "id", cfg)
  {
    assert b.arrival[1..] == [];
    assert ProcessFrom(b, ["id"], cfg) == ProcessFrom(Touch(b, "id", cfg), ["id"][1..], cfg);
  }

  lemma RoundRests(d: Desk, n: nat, cfg: Config)
    requires Poised(d, n)
    ensures
      var d' := ApproveOrder(d, "id", "ticket", cfg).0;
      && "id" in d'.orders && d'.orders["id"].(brokerOrderId := None) == Drafted(Proposal())
      && d'.broker.orders == map["id" := d'.orders["id"]]
      && d'.broker.arrival == ["id"] && !d'.broker.halted && d'.broker.marks == map["AAA" := 100.0]
      && d'.broker.fills == d.broker.fills
  {
    var d' := ApproveOrder(d, "id", "ticket", cfg).0;
    assert d'.broker.orders == map["id" := d'.orders["id"]];
  }

  lemma RoundFills(b: Broker, cfg: Config)
    requires "id" in b.orders && b.arrival == ["id"] && b.orders == map["id" := b.orders["id"]]
    requires b.orders["id"].(brokerOrderId := None) == Drafted(Proposal())
    requires !b.halted && b.marks == map["AAA" := 100.0]
    ensures
      var b' := UpdateMarks(b, map["AAA" := 102.0], cfg);
      && b'.orders.Keys == {"id"} && b'.orders["id"].status.Filled? && b'.orders["id"].id == "id"
      && b'.arrival == ["id"] && !b'.halted && b'.marks == map["AAA" := 102.0]
      && Executions(b'.fills, "id") == Executions(b.fills, "id") + 1
  {
    var moved := b.(marks := b.marks + map["AAA" := 102.0]);
    assert moved.marks == map["AAA" := 102.0];
    SinglePass(moved, cfg);
    assert Live(moved, "id");
    var o := moved.orders["id"];
    ExecuteCounts(moved, o, QuoteFor(o, 102.0, cfg), "id");
  }

  lemma RoundReturns(b: Broker, cfg: Config)
    requires b.orders.Keys == {"id"} && b.orders["id"].status.Filled? && b.orders["id"].id == "id"
    requires b.arrival == ["id"] && b.marks == map["AAA" := 102.0]
    ensures UpdateMarks(b, map["AAA" := 100.0], cfg) == b.(marks := map["AAA" := 100.0])
  {
    assert b.marks + map["AAA" := 100.0] == map["AAA" := 100.0];
    SinglePass(b.(marks := map["AAA" := 100.0]), cfg);
  }

  lemma RoundPoised(d: Desk, n: nat, cfg: Config)
    requires Poised(d, n)
    ensures
      var d1 := Step(d, Round()[0], cfg).0;
      var d2 := Step(d1, Round()[1], cfg).0;
      Poised(Step(d2, Round()[2], cfg).0, n + 1)
  {
    var d1 := Step(d, Round()[0], cfg).0;
    RoundRests(d, n, cfg);
    RoundFills(d1.broker, cfg);
    RoundReturns(Step(d1, Round()[1], cfg).0.broker, cfg);
  }

  lemma OpeningPoised(cfg: Config)
    ensures Poised(After(Fresh(0.0), Rounds(0), cfg), 0)
  {
    var mark := Marks(map["AAA" := 100.0]);
    assert [] + [mark] == [mark] && [mark] + [Proposal()] == Rounds(0);
    AfterAppend(Fresh(0.0), [], mark, cfg);
    AfterAppend(Fresh(0.0), [mark], Proposal(), cfg);
    assert map[] + map["AAA" := 100.0] == map["AAA" := 100.0];
  }

  lemma RoundAppends(events: seq<Event>, cfg: Config)
    ensures
      var d1 := Step(After(Fresh(0.0), events, cfg), Round()[0], cfg).0;
      var d2 := Step(d1, Round()[1], cfg).0;
      After(Fresh(0.0), events + Round(), cfg) == Step(d2, Round()[2], cfg).0
  {
    var r := Round();
    AfterAppend(Fresh(0.0), events, r[0], cfg);
    AfterAppend(Fresh(0.0), events + [r[0]], r[1], cfg);
    AfterAppend(Fresh(0.0), events + [r[0]] + [r[1]], r[2], cfg);
    assert events + [r[0]] + [r[1]] + [r[2]] == events + r;
  }

  lemma {:induction false} RoundsPoised(cfg: Config, n: nat)
    ensures Poised(After(Fresh(0.0), Rounds(n), cfg), n)
  {
    if n == 0 {
      OpeningPoised(cfg);
    } else {
      RoundsPoised(cfg, n - 1);
      RoundPoised(After(Fresh(0.0), Rounds(n - 1), cfg), n - 1, cfg);
      RoundAppends(Rounds(n - 1), cfg);
    }
  }

  lemma {:induction false} RoundsProposeOnce(n: nat)
    ensures |Rounds(n)| >= 2
    ensures forall i :: 0 <= i < |Rounds(n)| ==> (Rounds(n)[i].Propose? <==> i == 1)
  {
    if n > 0 {
      RoundsProposeOnce(n - 1);
    }
  }

  /** For every n there is a run in which a single proposed order, still PENDING in the repository, has been executed n
      times, whatever the fees and slippage. */
  lemma LimitOrderExecutesAnyNumberOfTimes(cfg: Config, n: nat)
    ensures DistinctIds(Rounds(n))
    ensures
      var d := After(Fresh(0.0), Rounds(n), cfg);
      && Proposals(d.log, "id") == 1 && "id" in d.orders && d.orders["id"].status.Pending?
      && Executions(d.broker.fills, "id") == n
  {
    RoundsProposeOnce(n);
    RoundsPoised(cfg, n);
    AuditLogComplete(0.0, Rounds(n), cfg, "id");
  }
}
