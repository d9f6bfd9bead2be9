/** The control plane's money tables: request events with their daily totals, prepaid balances,
    payments. Each transaction is one step; money is whole micro-dollars. The purge of old events
    is not modelled, and keys do not change teams. */
module EventLedger {
  import opened Wrappers
  import opened Sums

  type Key = nat
  type Team = nat

  /** Events are unique per gateway and request. */
  datatype Id = Id(gateway: nat, request: nat)

  datatype Event = Event(id: Id, key: Option<Key>, day: int, cost: nat, tokensIn: nat, tokensOut: nat, success: bool)

  datatype KeyDay = KeyDay(key: Key, day: int)

  datatype Totals = Totals(cost: int, tokensIn: int, tokensOut: int, requests: int)

  /** A payment is unique by the id its provider gave it. */
  datatype PaymentId = PaymentId(external: nat)

  datatype Payment = Payment(id: PaymentId, team: Team, amount: int)

  datatype Books = Books(
    events: map<Id, Event>, spend: map<KeyDay, Totals>, credits: map<PaymentId, Payment>, balance: map<Team, int>)

  /* ---- sums over a table and over a batch ---- */

  type Measure = Event -> int

  function Worth(events: map<Id, Event>, m: Measure): Id -> int { id => if id in events then m(events[id]) else 0 }

  /** The sum over all stored events. */
  ghost function TotalOf(events: map<Id, Event>, m: Measure): int { Sum(events.Keys, Worth(events, m)) }

  function BatchTotal(s: seq<Event>, m: Measure): int {
    if s == [] then 0 else BatchTotal(s[..|s| - 1], m) + m(s[|s| - 1])
  }

  lemma {:induction false} TotalOfOneMore(events: map<Id, Event>, e: Event, m: Measure)
    requires e.id !in events
    ensures TotalOf(events[e.id := e], m) == TotalOf(events, m) + m(e)
  {
    var after := events[e.id := e];
    assert after.Keys == events.Keys + {e.id};
    SumAdd(events.Keys, Worth(after, m), e.id);
    SumEqual(events.Keys, Worth(events, m), Worth(after, m));
  }

  /* ---- storing a batch ---- */

  /** The events table after a batch: the first event under an id stays. */
  function Inserted(events: map<Id, Event>, batch: seq<Event>): map<Id, Event> {
    if batch == [] then events
    else
      var before, e := Inserted(events, batch[..|batch| - 1]), batch[|batch| - 1];
      if e.id in before then before else before[e.id := e]
  }

  /** The events of a batch that were new. */
  function NewOf(events: map<Id, Event>, batch: seq<Event>): seq<Event> {
    if batch == [] then []
    else
      var front, e := batch[..|batch| - 1], batch[|batch| - 1];
      if e.id in Inserted(events, front) then NewOf(events, front) else NewOf(events, front) + [e]
  }

  /** What a batch adds to any total is the total of its new events. */
  lemma {:induction false} BatchAddsNew(events: map<Id, Event>, batch: seq<Event>, m: Measure)
    ensures TotalOf(Inserted(events, batch), m) == TotalOf(events, m) + BatchTotal(NewOf(events, batch), m)
  {
    if batch != [] {
      var front, e := batch[..|batch| - 1], batch[|batch| - 1];
      BatchAddsNew(events, front, m);
      if e.id !in Inserted(events, front) {
        TotalOfOneMore(Inserted(events, front), e, m);
        assert NewOf(events, batch)[..|NewOf(events, front)|] == NewOf(events, front);
      }
    }
  }

  predicate Counts(e: Event, kd: KeyDay) { e.success && e.key == Some(kd.key) && e.day == kd.day }

  function CostOf(kd: KeyDay): Measure { (e: Event) => if Counts(e, kd) then e.cost else 0 }
  function TokensInOf(kd: KeyDay): Measure { (e: Event) => if Counts(e, kd) then e.tokensIn else 0 }
  function TokensOutOf(kd: KeyDay): Measure { (e: Event) => if Counts(e, kd) then e.tokensOut else 0 }
  function CountOf(kd: KeyDay): Measure { (e: Event) => if Counts(e, kd) then 1 else 0 }

  /** The totals of a key and day over all stored events. */
  ghost function TotalsOf(events: map<Id, Event>, kd: KeyDay): Totals {
    Totals(TotalOf(events, CostOf(kd)), TotalOf(events, TokensInOf(kd)), TotalOf(events, TokensOutOf(kd)),
        TotalOf(events, CountOf(kd)))
  }

  function BatchTotals(s: seq<Event>, kd: KeyDay): Totals {
    Totals(BatchTotal(s, CostOf(kd)), BatchTotal(s, TokensInOf(kd)), BatchTotal(s, TokensOutOf(kd)),
        BatchTotal(s, CountOf(kd)))
  }

  function Plus(a: Totals, b: Totals): Totals {
    Totals(a.cost + b.cost, a.tokensIn + b.tokensIn, a.tokensOut + b.tokensOut, a.requests + b.requests)
  }

  const NOTHING := Totals(0, 0, 0, 0)

  function RowOf(spend: map<KeyDay, Totals>, kd: KeyDay): Totals { if kd in spend then spend[kd] else NOTHING }

  function Touched(s: seq<Event>): set<KeyDay> { set e <- s | e.success && e.key.Some? :: KeyDay(e.key.value, e.day) }

  /** The grouped upsert into the daily totals. */
  function Upserted(spend: map<KeyDay, Totals>, s: seq<Event>): map<KeyDay, Totals> {
    map kd | kd in spend.Keys + Touched(s) ::
      Plus(RowOf(spend, kd), if kd in Touched(s) then BatchTotals(s, kd) else NOTHING)
  }

  lemma {:induction false} UntouchedAddsNothing(s: seq<Event>, kd: KeyDay)
    requires kd !in Touched(s)
    ensures BatchTotals(s, kd) == NOTHING
  {
    if s != [] {
      var front, e := s[..|s| - 1], s[|s| - 1];
      assert forall x :: x in front ==> x in s;
      UntouchedAddsNothing(front, kd);
      assert e in s;
      assert !Counts(e, kd);
    }
  }

  lemma {:induction false} UpsertAdds(spend: map<KeyDay, Totals>, s: seq<Event>, kd: KeyDay)
    ensures RowOf(Upserted(spend, s), kd) == Plus(RowOf(spend, kd), BatchTotals(s, kd))
  {
    hide BatchTotals;
    hide Touched;
    if kd !in Touched(s) { UntouchedAddsNothing(s, kd); }
    assert kd in Upserted(spend, s) <==> kd in spend || kd in Touched(s);
  }

  /* ---- balances ---- */

  function TeamCost(teamOf: Key -> Option<Team>, t: Team): Measure {
    (e: Event) => if e.success && e.key.Some? && teamOf(e.key.value) == Some(t) then e.cost else 0
  }

  /** A batch is charged to teams whose balance is positive; the others are passed over. */
  function Debited(balance: map<Team, int>, s: seq<Event>, teamOf: Key -> Option<Team>): map<Team, int> {
    map t | t in balance :: if balance[t] > 0 then balance[t] - BatchTotal(s, TeamCost(teamOf, t)) else balance[t]
  }

  function Deliver(b: Books, batch: seq<Event>, teamOf: Key -> Option<Team>): Books {
    var added := NewOf(b.events, batch);
    Books(Inserted(b.events, batch), Upserted(b.spend, added), b.credits, Debited(b.balance, added, teamOf))
  }

  /** A payment is credited in the transaction that records it, and only then; an unknown team is
      an error that records nothing. */
  function Pay(b: Books, p: Payment): Books {
    if p.id in b.credits || p.team !in b.balance || p.amount <= 0 then b
    else b.(credits := b.credits[p.id := p], balance := b.balance[p.team := b.balance[p.team] + p.amount])
  }

  function Amount(credits: map<PaymentId, Payment>, t: Team): PaymentId -> int {
    id => if id in credits && credits[id].team == t then credits[id].amount else 0
  }

  ghost function CreditsOf(b: Books, t: Team): int { Sum(b.credits.Keys, Amount(b.credits, t)) }

  ghost function SpendOf(b: Books, teamOf: Key -> Option<Team>, t: Team): int { TotalOf(b.events, TeamCost(teamOf, t)) }

  /** What the ledger says a team has left. */
  ghost function Computed(b: Books, teamOf: Key -> Option<Team>, t: Team): int { CreditsOf(b, t) - SpendOf(b, teamOf,
                          t) }

  function Max(a: int, b: int): int { if a < b then b else a }

  ghost function Reconciled(b: Books, teamOf: Key -> Option<Team>): Books {
    b.(balance := map t | t in b.balance :: Max(Computed(b, teamOf, t), 0))
  }

  /* ---- runs ---- */

  datatype Step = Delivery(batch: seq<Event>) | PaymentStep(payment: Payment) | Reconcile

  ghost function Next(b: Books, step: Step, teamOf: Key -> Option<Team>): Books {
    match step
    case Delivery(batch) => Deliver(b, batch, teamOf)
    case PaymentStep(p) => Pay(b, p)
    case Reconcile => Reconciled(b, teamOf)
  }

  ghost function After(b: Books, run: seq<Step>, teamOf: Key -> Option<Team>): Books {
    if run == [] then b else Next(After(b, run[..|run| - 1], teamOf), run[|run| - 1], teamOf)
  }

  /** New books: the teams exist, nothing is stored. */
  function Opened(teams: set<Team>): Books { Books(map[], map[], map[], map t | t in teams :: 0) }

  /* ---- daily totals ---- */

  lemma {:induction false} DeliverTotals(b: Books, batch: seq<Event>, teamOf: Key -> Option<Team>, kd: KeyDay)
    requires RowOf(b.spend, kd) == TotalsOf(b.events, kd)
    ensures RowOf(Deliver(b, batch, teamOf).spend, kd) == TotalsOf(Deliver(b, batch, teamOf).events, kd)
  {
    UpsertAdds(b.spend, NewOf(b.events, batch), kd);
    BatchAddsNew(b.events, batch, CostOf(kd));
    BatchAddsNew(b.events, batch, TokensInOf(kd));
    BatchAddsNew(b.events, batch, TokensOutOf(kd));
    BatchAddsNew(b.events, batch, CountOf(kd));
    hide TotalOf;
    hide BatchTotal;
    hide NewOf;
    hide Inserted;
    hide Upserted;
  }

  /** In every run, the daily totals of a key are the sums over the distinct successful events
      stored for it: redelivery, batching and order do not matter. */
  lemma {:induction false} TotalsAreExact(teams: set<Team>, run: seq<Step>, teamOf: Key -> Option<Team>, kd: KeyDay)
    ensures var b := After(Opened(teams), run, teamOf); RowOf(b.spend, kd) == TotalsOf(b.events, kd)
  {
    hide NewOf;
    hide Inserted;
    hide Upserted;
    hide Debited;
    if run != [] {
      var front, step := run[..|run| - 1], run[|run| - 1];
      TotalsAreExact(teams, front, teamOf, kd);
      if step.Delivery? { DeliverTotals(After(Opened(teams), front, teamOf), step.batch, teamOf, kd); }
    }
  }

  /** The stored events that a row of the daily totals is for. */
  function EventsOf(events: map<Id, Event>, kd: KeyDay): set<Id> {
    set id | id in events && events[id].success && events[id].key == Some(kd.key) && events[id].day == kd.day
  }

  lemma {:induction false} TotalsWrittenOut(events: map<Id, Event>, kd: KeyDay)
    ensures var ids, totals := EventsOf(events, kd), TotalsOf(events, kd);
            && totals.cost == Sum(ids, (id: Id) => if id in events then events[id].cost else 0)
            && totals.tokensIn == Sum(ids, (id: Id) => if id in events then events[id].tokensIn else 0)
            && totals.tokensOut == Sum(ids, (id: Id) => if id in events then events[id].tokensOut else 0)
            && totals.requests == |ids|
  {
    var ids := EventsOf(events, kd);
    SumWithin(events.Keys, ids, Worth(events, CostOf(kd)), (id: Id) => if id in events then events[id].cost else 0);
    SumWithin(events.Keys, ids, Worth(events, TokensInOf(kd)),
              (id: Id) => if id in events then events[id].tokensIn else 0);
    SumWithin(events.Keys, ids, Worth(events, TokensOutOf(kd)),
              (id: Id) => if id in events then events[id].tokensOut else 0);
    SumWithin(events.Keys, ids, Worth(events, CountOf(kd)), (id: Id) => 1);
    SumOnes(ids, (id: Id) => 1);
  }

  lemma {:induction false} InsertedRows(events: map<Id, Event>, batch: seq<Event>, kd: KeyDay)
    ensures EventsOf(Inserted(events, batch), kd) != {}
            <==> EventsOf(events, kd) != {} || kd in Touched(NewOf(events, batch))
  {
    if batch != [] {
      var front, e := batch[..|batch| - 1], batch[|batch| - 1];
      InsertedRows(events, front, kd);
      var before := Inserted(events, front);
      if e.id !in before {
        OneMoreRow(before, e, kd);
        TouchedOneMore(NewOf(events, front), e);
      }
    }
  }

  lemma {:induction false} TouchedOneMore(s: seq<Event>, e: Event)
    ensures Touched(s + [e]) == Touched(s) + Touched([e])
  {
  }

  lemma {:induction false} OneMoreRow(events: map<Id, Event>, e: Event, kd: KeyDay)
    requires e.id !in events
    ensures EventsOf(events[e.id := e], kd) != {} <==> EventsOf(events, kd) != {} || kd in Touched([e])
  {
    var after := events[e.id := e];
    if id :| id in EventsOf(events, kd) { assert id in EventsOf(after, kd); }
    if id :| id in EventsOf(after, kd) { assert id == e.id || id in EventsOf(events, kd); }
    if kd in Touched([e]) { assert e.id in EventsOf(after, kd); }
  }

  /** There is a row for a key and day exactly when some stored event succeeded for them. */
  lemma {:induction false} RowsExistIff(teams: set<Team>, run: seq<Step>, teamOf: Key -> Option<Team>, kd: KeyDay)
    ensures var b := After(Opened(teams), run, teamOf); kd in b.spend <==> EventsOf(b.events, kd) != {}
  {
    hide NewOf;
    hide Inserted;
    hide Debited;
    hide Touched;
    hide EventsOf;
    if run == [] {
      assert EventsOf(map[], kd) == {} by { NoEvents(kd); }
    } else {
      var front, step := run[..|run| - 1], run[|run| - 1];
      RowsExistIff(teams, front, teamOf, kd);
      if step.Delivery? { InsertedRows(After(Opened(teams), front, teamOf).events, step.batch, kd); }
    }
  }

  lemma {:induction false} NoEvents(kd: KeyDay)
    ensures EventsOf(map[], kd) == {}
  {
  }

  /** In every run, a key's row for a day holds the number, cost and tokens of the stored events that
      succeeded for that key on that day. */
  lemma {:induction false} RowsCountEvents(teams: set<Team>, run: seq<Step>, teamOf: Key -> Option<Team>, kd: KeyDay)
    ensures var b := After(Opened(teams), run, teamOf);
            var ids, row := EventsOf(b.events, kd), RowOf(b.spend, kd);
            && row.cost == Sum(ids, (id: Id) => if id in b.events then b.events[id].cost else 0)
            && row.tokensIn == Sum(ids, (id: Id) => if id in b.events then b.events[id].tokensIn else 0)
            && row.tokensOut == Sum(ids, (id: Id) => if id in b.events then b.events[id].tokensOut else 0)
            && row.requests == |ids|
  {
    hide TotalsOf;
    hide EventsOf;
    TotalsAreExact(teams, run, teamOf, kd);
    TotalsWrittenOut(After(Opened(teams), run, teamOf).events, kd);
  }

  /** Every delivered event with an id carries the payload of that id. */
  predicate Consistent(batch: seq<Event>, payload: Id -> Event) {
    forall i :: 0 <= i < |batch| ==> batch[i] == payload(batch[i].id)
  }

  predicate ConsistentRun(run: seq<Step>, payload: Id -> Event) {
    forall i :: 0 <= i < |run| && run[i].Delivery? ==> Consistent(run[i].batch, payload)
  }

  function BatchIds(batch: seq<Event>): set<Id> { set e <- batch :: e.id }

  function DeliveredIds(run: seq<Step>): set<Id> {
    if run == [] then {}
    else DeliveredIds(run[..|run| - 1]) + if run[|run| - 1].Delivery? then BatchIds(run[|run| - 1].batch) else {}
  }

  /** The table holds exactly these ids, each with its payload. */
  ghost predicate Holds(events: map<Id, Event>, ids: set<Id>, payload: Id -> Event) {
    events.Keys == ids && forall id :: id in ids ==> events[id] == payload(id)
  }

  lemma {:induction false} InsertedHolds(events: map<Id, Event>, batch: seq<Event>, ids: set<Id>, payload: Id -> Event)
    requires Holds(events, ids, payload) && Consistent(batch, payload)
    ensures Holds(Inserted(events, batch), ids + BatchIds(batch), payload)
  {
    if batch == [] {
      assert ids + BatchIds(batch) == ids;
    } else {
      var front, e := batch[..|batch| - 1], batch[|batch| - 1];
      InsertedHolds(events, front, ids, payload);
      assert batch == front + [e];
      assert BatchIds(batch) == BatchIds(front) + {e.id};
      assert ids + BatchIds(batch) == ids + BatchIds(front) + {e.id};
    }
  }

  lemma {:induction false} RunHolds(teams: set<Team>, run: seq<Step>, teamOf: Key -> Option<Team>, payload: Id -> Event)
    requires ConsistentRun(run, payload)
    ensures Holds(After(Opened(teams), run, teamOf).events, DeliveredIds(run), payload)
  {
    hide NewOf;
    hide Inserted;
    hide Upserted;
    hide Debited;
    if run != [] {
      var front, step := run[..|run| - 1], run[|run| - 1];
      RunHolds(teams, front, teamOf, payload);
      if step.Delivery? {
        InsertedHolds(After(Opened(teams), front, teamOf).events, step.batch, DeliveredIds(front), payload);
      } else {
        assert DeliveredIds(run) == DeliveredIds(front);
      }
    }
  }

  /** Two runs that deliver the same events, each any number of times, in any batches and order, and
      with any payments and reconciles in between, end with the same daily totals. */
  lemma {:induction false} DeliveryOrderIsIrrelevant(teams: set<Team>, one: seq<Step>, two: seq<Step>,
                                                     teamOf: Key -> Option<Team>,
                                  payload: Id -> Event, kd: KeyDay)
    requires ConsistentRun(one, payload) && ConsistentRun(two, payload) && DeliveredIds(one) == DeliveredIds(two)
    ensures RowOf(After(Opened(teams), one, teamOf).spend, kd) == RowOf(After(Opened(teams), two, teamOf).spend, kd)
  {
    TotalsAreExact(teams, one, teamOf, kd);
    TotalsAreExact(teams, two, teamOf, kd);
    RunHolds(teams, one, teamOf, payload);
    RunHolds(teams, two, teamOf, payload);
    assert After(Opened(teams), one, teamOf).events == After(Opened(teams), two, teamOf).events;
  }

  /* ---- payments ---- */

  lemma {:induction false} PayCredits(b: Books, p: Payment, t: Team)
    ensures CreditsOf(Pay(b, p), t) == CreditsOf(b, t) + if Pay(b, p) != b && p.team == t then p.amount else 0
  {
    var c := Pay(b, p);
    if p.id !in b.credits && p.team in b.balance && p.amount > 0 {
      assert c.credits.Keys == b.credits.Keys + {p.id};
      assert c != b;
      SumAdd(b.credits.Keys, Amount(c.credits, t), p.id);
      SumEqual(b.credits.Keys, Amount(b.credits, t), Amount(c.credits, t));
    }
  }

  /** Once credited, a payment is never credited again: in any later run its row is unchanged and
      delivering it once more does nothing. */
  lemma {:induction false} CreditedOnce(b: Books, p: Payment, run: seq<Step>, teamOf: Key -> Option<Team>)
    requires p.team in b.balance && p.amount > 0
    ensures var c := After(Pay(b, p), run, teamOf);
            p.id in c.credits && c.credits[p.id] == Pay(b, p).credits[p.id] && Pay(c, p) == c
  {
    hide Deliver;
    if run != [] {
      CreditedOnce(b, p, run[..|run| - 1], teamOf);
      if run[|run| - 1].Delivery? {
        DeliverLeavesCredits(After(Pay(b, p), run[..|run| - 1], teamOf), run[|run| - 1].batch, teamOf);
      }
    }
  }

  lemma {:induction false} DeliverLeavesCredits(b: Books, batch: seq<Event>, teamOf: Key -> Option<Team>)
    ensures Deliver(b, batch, teamOf).credits == b.credits && Deliver(b, batch, teamOf).balance.Keys == b.balance.Keys
  {
  }

  /* ---- balances ---- */

  /** The live balance is never below what the ledger says. */
  ghost predicate Covered(b: Books, teamOf: Key -> Option<Team>, t: Team) {
    t in b.balance ==> b.balance[t] >= Computed(b, teamOf, t)
  }

  ghost predicate InStep(b: Books, teamOf: Key -> Option<Team>, t: Team) {
    t in b.balance ==> b.balance[t] == Computed(b, teamOf, t)
  }

  /** A debit that is passed over although it is not zero. */
  predicate Skips(b: Books, step: Step, teamOf: Key -> Option<Team>, t: Team) {
    && step.Delivery? && t in b.balance && b.balance[t] <= 0
    && BatchTotal(NewOf(b.events, step.batch), TeamCost(teamOf, t)) != 0
  }

  /** A reconcile that lifts an overdrawn team to zero. */
  ghost predicate Lifts(b: Books, step: Step, teamOf: Key -> Option<Team>, t: Team) {
    step.Reconcile? && t in b.balance && Computed(b, teamOf, t) < 0
  }

  lemma {:induction false} CostNonNegative(e: Event, teamOf: Key -> Option<Team>, t: Team)
    ensures TeamCost(teamOf, t)(e) >= 0
  {
  }

  lemma {:induction false} BatchCostNonNegative(s: seq<Event>, teamOf: Key -> Option<Team>, t: Team)
    ensures BatchTotal(s, TeamCost(teamOf, t)) >= 0
  {
    if s != [] {
      BatchCostNonNegative(s[..|s| - 1], teamOf, t);
      CostNonNegative(s[|s| - 1], teamOf, t);
    }
  }

  lemma {:induction false} DeliverBalance(b: Books, batch: seq<Event>, teamOf: Key -> Option<Team>, t: Team)
    requires t in b.balance
    ensures var c, cost := Deliver(b, batch, teamOf), BatchTotal(NewOf(b.events, batch), TeamCost(teamOf, t));
            && cost >= 0 && t in c.balance && Computed(c, teamOf, t) == Computed(b, teamOf, t) - cost
            && c.balance[t] == if b.balance[t] > 0 then b.balance[t] - cost else b.balance[t]
  {
    BatchAddsNew(b.events, batch, TeamCost(teamOf, t));
    BatchCostNonNegative(NewOf(b.events, batch), teamOf, t);
    hide TotalOf;
    hide Inserted;
    hide NewOf;
    hide BatchTotal;
    hide Upserted;
  }

  lemma {:induction false} PayBalance(b: Books, p: Payment, teamOf: Key -> Option<Team>, t: Team)
    requires t in b.balance
    ensures var c := Pay(b, p);
            t in c.balance && c.balance[t] - b.balance[t] == Computed(c, teamOf, t) - Computed(b, teamOf, t)
  {
    PayCredits(b, p, t);
    hide CreditsOf;
    hide TotalOf;
  }

  lemma {:induction false} ReconcileBalance(b: Books, teamOf: Key -> Option<Team>, t: Team)
    requires t in b.balance
    ensures var c := Reconciled(b, teamOf);
            && t in c.balance && c.balance[t] == Max(Computed(b, teamOf, t), 0)
            && Computed(c, teamOf, t) == Computed(b, teamOf, t)
  {
  }

  /** What a team has spent: the cost of the stored events that succeeded for one of its keys. */
  lemma {:induction false} TeamSpendIs(b: Books, teamOf: Key -> Option<Team>, t: Team)
    ensures SpendOf(b, teamOf, t)
            == Sum(set id | id in b.events && b.events[id].success && b.events[id].key.Some?
                            && teamOf(b.events[id].key.value) == Some(t),
                   (id: Id) => if id in b.events then b.events[id].cost else 0)
  {
    var ids := set id | id in b.events && b.events[id].success && b.events[id].key.Some?
                        && teamOf(b.events[id].key.value) == Some(t);
    SumWithin(b.events.Keys, ids, Worth(b.events, TeamCost(teamOf, t)),
              (id: Id) => if id in b.events then b.events[id].cost else 0);
  }

  /** One step keeps the balance covered; from a balance in step, exactly a skipped debit or a
      lifting reconcile puts it out of step; a reconcile puts it back unless it lifts. */
  lemma {:induction false} BalanceStep(b: Books, step: Step, teamOf: Key -> Option<Team>, t: Team)
    requires Covered(b, teamOf, t)
    ensures Covered(Next(b, step, teamOf), teamOf, t)
    ensures InStep(b, teamOf, t) ==>
              (InStep(Next(b, step, teamOf), teamOf, t) <==> !Skips(b, step, teamOf, t) && !Lifts(b, step, teamOf, t))
    ensures step.Reconcile? ==> (InStep(Next(b, step, teamOf), teamOf, t) <==> !Lifts(b, step, teamOf, t))
    ensures !step.Reconcile? ==>
              (InStep(Next(b, step, teamOf), teamOf, t) <==> InStep(b, teamOf, t) && !Skips(b, step, teamOf, t))
  {
    hide Computed;
    hide Deliver;
    hide Pay;
    hide NewOf;
    hide BatchTotal;
    SameTeams(b, step, teamOf);
    if t in b.balance {
      match step
      case Delivery(batch) => DeliverBalance(b, batch, teamOf, t);
      case PaymentStep(p) => PayBalance(b, p, teamOf, t);
      case Reconcile => ReconcileBalance(b, teamOf, t);
    }
  }

  lemma {:induction false} SameTeams(b: Books, step: Step, teamOf: Key -> Option<Team>)
    ensures Next(b, step, teamOf).balance.Keys == b.balance.Keys
  {
    hide Inserted;
    hide NewOf;
    hide Upserted;
    hide BatchTotal;
    hide Computed;
  }

  /** Since the last reconcile, which did not lift, or since the start, no debit was skipped. */
  ghost predicate Settled(b: Books, run: seq<Step>, teamOf: Key -> Option<Team>, t: Team) {
    run == [] ||
    var front, step := run[..|run| - 1], run[|run| - 1];
    var before := After(b, front, teamOf);
    if step.Reconcile? then !Lifts(before, step, teamOf, t)
    else Settled(b, front, teamOf, t) && !Skips(before, step, teamOf, t)
  }

  /** In every run a team's live balance is at least its credits minus its successful spend, and equal
      to it exactly when no debit was skipped since the start or the last reconcile, and that reconcile
      did not lift the balance: deliveries and payments never close a gap. */
  lemma {:induction false} BalancesCover(teams: set<Team>, run: seq<Step>, teamOf: Key -> Option<Team>, t: Team)
    ensures var b := After(Opened(teams), run, teamOf);
            && Covered(b, teamOf, t)
            && (InStep(b, teamOf, t) <==> Settled(Opened(teams), run, teamOf, t))
  {
    if run != [] {
      hide Next;
      hide Covered;
      hide InStep;
      hide Skips;
      hide Lifts;
      var front, b := run[..|run| - 1], After(Opened(teams), run[..|run| - 1], teamOf);
      BalancesCover(teams, front, teamOf, t);
      BalanceStep(b, run[|run| - 1], teamOf, t);
    }
  }

  lemma {:induction false} ComputedSame(b: Books, c: Books, teamOf: Key -> Option<Team>, t: Team)
    requires c.events == b.events && c.credits == b.credits
    ensures Computed(c, teamOf, t) == Computed(b, teamOf, t)
  {
  }

  /** A second reconcile in a row finds nothing to do. */
  lemma {:induction false} ReconcileTwice(b: Books, teamOf: Key -> Option<Team>)
    ensures Reconciled(Reconciled(b, teamOf), teamOf) == Reconciled(b, teamOf)
  {
    hide Computed;
    var c := Reconciled(b, teamOf);
    forall t | t in b.balance ensures Computed(c, teamOf, t) == Computed(b, teamOf, t) {
      ComputedSame(b, c, teamOf, t);
    }
    assert Reconciled(c, teamOf).balance == c.balance;
  }

  lemma {:induction false} NothingYet(teams: set<Team>, teamOf: Key -> Option<Team>, t: Team)
    ensures Computed(Opened(teams), teamOf, t) == 0
  {
  }

  lemma {:induction false} OneNew(events: map<Id, Event>, e: Event, m: Measure)
    requires e.id !in events
    ensures BatchTotal(NewOf(events, [e]), m) == m(e)
  {
    assert [e][..0] == [] && Inserted(events, []) == events && NewOf(events, []) == [];
    assert NewOf(events, [e]) == [e];
    assert BatchTotal([], m) == 0;
  }

  /** A team can be overdrawn by one batch and then lifted: a top-up of 5, one request of 8, a
      reconcile. Its balance is then 0 while the ledger says -3. */
  lemma {:induction false} LiftedOutOfStep(teamOf: Key -> Option<Team>, t: Team, k: Key)
    requires teamOf(k) == Some(t)
    ensures var run := [PaymentStep(Payment(PaymentId(1), t, 5)),
            Delivery([Event(Id(1, 1), Some(k), 0, 8, 0, 0, true)])];
            var b := After(Opened({t}), run, teamOf);
            && InStep(b, teamOf, t) && Lifts(b, Reconcile, teamOf, t)
            && Next(b, Reconcile, teamOf).balance[t] == 0 && !InStep(Next(b, Reconcile, teamOf), teamOf, t)
  {
    hide Computed;
    hide NewOf;
    hide Inserted;
    hide Upserted;
    hide Debited;
    var p, e := Payment(PaymentId(1), t, 5), Event(Id(1, 1), Some(k), 0, 8, 0, 0, true);
    var run := [PaymentStep(p), Delivery([e])];
    var none := Opened({t});
    var paid := Pay(none, p);
    assert run[..1] == [PaymentStep(p)] && run[..1][..0] == [];
    assert After(none, [], teamOf) == none;
    assert After(none, run[..1], teamOf) == Next(After(none, [], teamOf), PaymentStep(p), teamOf) == paid;
    assert After(none, run, teamOf) == Next(paid, Delivery([e]), teamOf) == Deliver(paid, [e], teamOf);
    NothingYet({t}, teamOf, t);
    PayBalance(none, p, teamOf, t);
    DeliverBalance(paid, [e], teamOf, t);
    OneNew(paid.events, e, TeamCost(teamOf, t));
    BalanceStep(After(none, run, teamOf), Reconcile, teamOf, t);
    ReconcileBalance(After(none, run, teamOf), teamOf, t);
  }

  /* ---- the transactions as they run ---- */

  class Ledger {
    const teamOf: Key -> Option<Team>
    var events: map<Id, Event>
    var spend: map<KeyDay, Totals>
    var credits: map<PaymentId, Payment>
    var balance: map<Team, int>

    function View(): Books
      reads this
    {
      Books(events, spend, credits, balance)
    }

    constructor (teams: set<Team>, teamOf: Key -> Option<Team>)
      ensures View() == Opened(teams) && this.teamOf == teamOf
    {
      this.teamOf := teamOf;
      events, spend, credits, balance := map[], map[], map[], map t | t in teams :: 0;
    }

    /** Insert one by one, keep what was new, then charge the new ones in two grouped updates. */
    method StoreRequestEvents(batch: seq<Event>) returns (inserted: nat)
      modifies this
      ensures View() == Deliver(old(View()), batch, teamOf)
      ensures inserted == |NewOf(old(events), batch)|
    {
      hide Upserted;
      hide Debited;
      var kept: seq<Event> := [];
      inserted := 0;
      var i := 0;
      while i < |batch|
        invariant 0 <= i <= |batch|
        invariant events == Inserted(old(events), batch[..i]) && kept == NewOf(old(events), batch[..i])
        invariant inserted == |kept|
        invariant spend == old(spend) && credits == old(credits) && balance == old(balance)
      {
        assert batch[..i + 1][..i] == batch[..i];
        var e := batch[i];
        if e.id !in events {
          events := events[e.id := e];
          inserted := inserted + 1;
          kept := kept + [e];
        }
        i := i + 1;
      }
      assert batch[..i] == batch;
      if |kept| > 0 {
        spend := Upserted(spend, kept);
        balance := Debited(balance, kept, teamOf);
      } else {
        NothingNew(spend, balance, teamOf);
      }
    }

    method CreditPayment(p: Payment) returns (credited: bool)
      modifies `credits, `balance
      ensures View() == Pay(old(View()), p)
      ensures credited <==> p.id !in old(credits) && p.team in old(balance) && p.amount > 0
    {
      if p.amount <= 0 || p.team !in balance { return false; }
      credited := p.id !in credits;
      if credited {
        credits := credits[p.id := p];
        balance := balance[p.team := balance[p.team] + p.amount];
      }
    }

    /** The nightly loop over the teams, given the sums the query computed. */
    method ReconcileTeamBalances(computed: map<Team, int>) returns (updated: nat, drifted: nat)
      requires computed.Keys == balance.Keys && forall t :: t in computed ==> computed[t] == Computed(View(), teamOf, t)
      modifies `balance
      ensures View() == Reconciled(old(View()), teamOf)
      ensures updated == |old(balance)|
      ensures drifted == |DriftedTeams(old(balance), computed, old(balance).Keys)|
      ensures drifted == |set t | t in old(balance)
                                  && (computed[t] - old(balance)[t] > 1 || old(balance)[t] - computed[t] > 1)|
    {
      hide Computed;
      hide DriftedTeams;
      hide Drifted;
      hide Max;
      hide Reconciled;
      updated, drifted := 0, 0;
      ghost var live := balance;
      var left := balance.Keys;
      ghost var found: set<Team> := {};
      assert live.Keys - left == {} && DriftedTeams(live, computed, {}) == {} by { NobodyDrifted(live, computed); }
      while left != {}
        invariant left <= live.Keys && balance.Keys == live.Keys && updated + |left| == |live.Keys|
        invariant forall t :: t in live ==> balance[t] == if t in left then live[t] else Max(computed[t], 0)
        invariant found == DriftedTeams(live, computed, live.Keys - left) && drifted == |found|
        decreases left
      {
        var t :| t in left;
        DriftStep(live, computed, left, t);
        if Drifted(computed[t], balance[t]) {
          drifted := drifted + 1;
          found := found + {t};
        }
        balance := balance[t := Max(computed[t], 0)];
        left := left - {t};
        updated := updated + 1;
      }
      assert live.Keys - left == live.Keys;
      assert |live| == |live.Keys|;
      AllSet(old(View()), teamOf, computed, balance);
      DriftedAre(live, computed);
    }
  }

  lemma {:induction false} AllSet(b: Books, teamOf: Key -> Option<Team>, computed: map<Team, int>,
                                  balance: map<Team, int>)
    requires computed.Keys == b.balance.Keys && forall t :: t in computed ==> computed[t] == Computed(b, teamOf, t)
    requires balance.Keys == b.balance.Keys && forall t :: t in balance ==> balance[t] == Max(computed[t], 0)
    ensures b.(balance := balance) == Reconciled(b, teamOf)
  {
    hide Computed;
    hide Max;
    assert balance == Reconciled(b, teamOf).balance;
  }

  /** More than one micro-dollar apart. */
  predicate Drifted(computed: int, live: int) { computed - live > 1 || live - computed > 1 }

  function DriftedTeams(live: map<Team, int>, computed: map<Team, int>, teams: set<Team>): set<Team> {
    set t | t in teams && t in live && t in computed && Drifted(computed[t], live[t])
  }

  lemma {:induction false} DriftedAre(live: map<Team, int>, computed: map<Team, int>)
    requires computed.Keys == live.Keys
    ensures DriftedTeams(live, computed, live.Keys)
            == set t | t in live && (computed[t] - live[t] > 1 || live[t] - computed[t] > 1)
  {
  }

  lemma {:induction false} NobodyDrifted(live: map<Team, int>, computed: map<Team, int>)
    ensures DriftedTeams(live, computed, {}) == {}
  {
  }

  lemma {:induction false} DriftStep(live: map<Team, int>, computed: map<Team, int>, left: set<Team>, t: Team)
    requires t in left && left <= live.Keys && computed.Keys == live.Keys
    ensures var before := DriftedTeams(live, computed, live.Keys - left);
            && t !in before
            && DriftedTeams(live, computed, live.Keys - (left - {t}))
               == if Drifted(computed[t], live[t]) then before + {t} else before
  {
  }

  lemma {:induction false} NothingNew(spend: map<KeyDay, Totals>, balance: map<Team, int>, teamOf: Key -> Option<Team>)
    ensures Upserted(spend, []) == spend && Debited(balance, [], teamOf) == balance
  {
    assert Touched([]) == {};
  }
}
