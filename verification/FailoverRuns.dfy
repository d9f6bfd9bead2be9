/** Any number of requests planning and attempting over one shared account state.

    Each step is one critical section of that state. Which request moves next, what an upstream
    answers and how long anything takes are arbitrary. */
module FailoverRuns {
  import opened Wrappers
  import opened Sums
  import opened Resilience

  datatype Id = Id(number: nat)

  /** One call of a request into the shared state, as far as slots and failures are concerned. */
  datatype Call =
    | SeesClosed(account: Name)      // the circuit check said closed: a candidate for the plan
    | Discards(account: Name)        // a candidate is dropped, cut, saturated, or left behind
    | Acquires(account: Name)        // a slot was taken: a probe while planning, or an attempt
    | Releases(account: Name)
    | Fails(account: Name)           // an attempt is counted as a failure
    | Succeeds(account: Name)
    | ChecksLockout(account: Name)   // the failure count is read against the lockout limit

  /** What one request still has in hand: plan entries that may yet be counted as failures (the
      live entries), and the slot it holds. */
  datatype Local = Local(entries: multiset<Name>, holding: Option<Name>)

  const IDLE := Local(multiset{}, None)

  /** The order of calls within one request. */
  predicate Enabled(l: Local, c: Call) {
    match c
    case SeesClosed(_) => l.holding.None?
    case Discards(a) => a in l.entries
    case Acquires(a) => l.holding.None? && a in l.entries
    case Releases(a) => l.holding == Some(a)
    case Fails(a) => l.holding.None? && a in l.entries
    case Succeeds(a) => l.holding.None? && a in l.entries
    case ChecksLockout(_) => true
  }

  function Apply(l: Local, c: Call): Local
    requires Enabled(l, c)
  {
    match c
    case SeesClosed(a) => l.(entries := l.entries + multiset{a})
    case Discards(a) => l.(entries := l.entries - multiset{a})
    case Acquires(a) => l.(holding := Some(a))
    case Releases(a) => l.(holding := None)
    case Fails(a) => l.(entries := l.entries - multiset{a})
    case Succeeds(a) => l.(entries := l.entries - multiset{a})
    case ChecksLockout(_) => l
  }

  /** The calls of one request from start to end: in order, and nothing left in hand. */
  predicate Obeys(l: Local, calls: seq<Call>, end: Local)
    decreases |calls|
  {
    if calls == [] then l == end else Enabled(l, calls[0]) && Obeys(Apply(l, calls[0]), calls[1..], end)
  }

  lemma {:induction false} ObeysConcat(l: Local, first: seq<Call>, mid: Local, second: seq<Call>, end: Local)
    requires Obeys(l, first, mid) && Obeys(mid, second, end)
    ensures Obeys(l, first + second, end)
    decreases |first|
  {
    if first == [] {
      assert first + second == second;
    } else {
      assert (first + second)[1..] == first[1..] + second;
      ObeysConcat(Apply(l, first[0]), first[1..], mid, second, end);
    }
  }

  /* ---- the shared system ---- */

  datatype Limits = Limits(circuitFailures: int, lockoutFailures: int, lockout: real, reset: real, cap: Name -> int)

  datatype Sys = Sys(health: Health, requests: map<Id, Local>, now: real)

  /** A call of a request at some time, and how long the attempt took that it reports as good. */
  datatype Event = Event(id: Id, call: Call, now: real, latency: nat)

  function LocalOf(s: Sys, id: Id): Local { if id in s.requests then s.requests[id] else IDLE }

  /** A step that can happen: in order for its request, time not going back, and with the answer
      the shared state gives. */
  predicate Possible(s: Sys, e: Event, c: Limits) {
    && Enabled(LocalOf(s, e.id), e.call) && e.now >= s.now
    && (e.call.SeesClosed? ==> !SeeCircuit(s.health, e.call.account, e.now, c.reset).1)
    && (e.call.Acquires? ==> AcquireSlot(s.health, e.call.account, c.cap(e.call.account)).1)
  }

  function Touch(h: Health, e: Event, c: Limits): Health {
    match e.call
    case SeesClosed(a) => SeeCircuit(h, a, e.now, c.reset).0
    case Discards(_) => h
    case Acquires(a) => AcquireSlot(h, a, c.cap(a)).0
    case Releases(a) => FreeSlot(h, a)
    case Fails(a) => FailOnce(h, a, c.circuitFailures, e.now)
    case Succeeds(a) => SucceedOnce(h, a, e.latency)
    case ChecksLockout(a) => if LockoutFires(h, a, c) then LockOut(h, a, e.now, c.lockout) else h
  }

  predicate LockoutFires(h: Health, a: Name, c: Limits) {
    c.lockoutFailures > 0 && Get(h.fails, a) >= c.lockoutFailures
  }

  /** Reading the count against the limit locks the account out for the configured time exactly when the
      limit is set and reached; otherwise it leaves the lockout as it was. */
  lemma {:induction false} LockoutFollowsCount(h: Health, e: Event, c: Limits, a: Name, t: real)
    requires e.call == ChecksLockout(a) && e.now <= t
    ensures Locked(Touch(h, e, c), a, t)
            <==> if 0 < c.lockoutFailures <= Get(h.fails, a) && c.lockout > 0.0 then t <= e.now + c.lockout
                 else Locked(h, a, t)
    ensures Touch(h, e, c).fails == h.fails && Touch(h, e, c).active == h.active
  {
  }

  function Next(s: Sys, e: Event, c: Limits): Sys
    requires Possible(s, e, c)
  {
    Sys(Touch(s.health, e, c), s.requests[e.id := Apply(LocalOf(s, e.id), e.call)], e.now)
  }

  predicate IsRun(s: Sys, run: seq<Event>, c: Limits)
    decreases |run|
  {
    run == [] || (Possible(s, run[0], c) && IsRun(Next(s, run[0], c), run[1..], c))
  }

  function After(s: Sys, run: seq<Event>, c: Limits): Sys
    requires IsRun(s, run, c)
    decreases |run|
  {
    if run == [] then s else After(Next(s, run[0], c), run[1..], c)
  }

  function Start(now: real): Sys { Sys(HEALTHY, map[], now) }

  /* ---- requests run on their own make a run together ---- */

  /** Calls a request can make in this order. */
  predicate InOrder(l: Local, calls: seq<Call>)
    decreases |calls|
  {
    calls == [] || (Enabled(l, calls[0]) && InOrder(Apply(l, calls[0]), calls[1..]))
  }

  lemma {:induction false} ObeyingInOrder(l: Local, calls: seq<Call>, end: Local, n: nat)
    requires Obeys(l, calls, end) && n <= |calls|
    ensures InOrder(l, calls[..n])
    decreases |calls|
  {
    if n > 0 {
      assert calls[..n][1..] == calls[1..][..n - 1];
      ObeyingInOrder(Apply(l, calls[0]), calls[1..], end, n - 1);
    }
  }

  function CallsBy(run: seq<Event>, id: Id): seq<Call> {
    if run == [] then [] else (if run[0].id == id then [run[0].call] else []) + CallsBy(run[1..], id)
  }

  /** Time moves forward and the shared state gives the answers the calls report. */
  predicate AnswersHold(s: Sys, run: seq<Event>, c: Limits)
    decreases |run|
  {
    run == [] ||
    (var e := run[0];
     && e.now >= s.now
     && (e.call.SeesClosed? ==> !SeeCircuit(s.health, e.call.account, e.now, c.reset).1)
     && (e.call.Acquires? ==> AcquireSlot(s.health, e.call.account, c.cap(e.call.account)).1)
     && (Possible(s, e, c) ==> AnswersHold(Next(s, e, c), run[1..], c)))
  }

  /** Whatever the interleaving: if each request's own calls are in order, as those of the attempt
      loop are, the whole is a run, and the theorems about runs apply to it. */
  lemma {:induction false} InterleavingIsRun(s: Sys, run: seq<Event>, c: Limits)
    requires AnswersHold(s, run, c) && forall id :: InOrder(LocalOf(s, id), CallsBy(run, id))
    ensures IsRun(s, run, c)
    decreases |run|
  {
    if run != [] {
      var e := run[0];
      assert CallsBy(run, e.id)[0] == e.call && CallsBy(run, e.id)[1..] == CallsBy(run[1..], e.id);
      assert InOrder(LocalOf(s, e.id), CallsBy(run, e.id));
      var t := Next(s, e, c);
      forall id ensures InOrder(LocalOf(t, id), CallsBy(run[1..], id)) {
        if id != e.id { assert LocalOf(t, id) == LocalOf(s, id) && CallsBy(run, id) == CallsBy(run[1..], id); }
      }
      InterleavingIsRun(t, run[1..], c);
    }
  }

  /* ---- counting over requests ---- */

  function Holds(s: Sys, a: Name): Id -> int { id => if LocalOf(s, id).holding == Some(a) then 1 else 0 }

  /** The requests holding a slot of an account. */
  ghost function Holders(s: Sys, a: Name): int { Sum(s.requests.Keys, Holds(s, a)) }

  function Entries(s: Sys, a: Name): Id -> int { id => LocalOf(s, id).entries[a] }

  /** The live plan entries of an account. */
  ghost function Live(s: Sys, a: Name): int { Sum(s.requests.Keys, Entries(s, a)) }

  /** A count over requests moves by what the moving request's own part moves. */
  lemma {:induction false} CountStep(s: Sys, t: Sys, id: Id, l: Local, f: Id -> int, g: Id -> int)
    requires t.requests == s.requests[id := l]
    requires forall i :: i != id ==> f(i) == g(i)
    requires id !in s.requests ==> f(id) == 0
    ensures Sum(t.requests.Keys, g) == Sum(s.requests.Keys, f) + g(id) - f(id)
  {
    var keys := s.requests.Keys;
    if id in keys {
      assert t.requests.Keys == keys;
      SumChange(keys, f, g, id);
    } else {
      assert t.requests.Keys == keys + {id};
      SumAdd(keys, g, id);
      SumEqual(keys, f, g);
    }
  }

  lemma {:induction false} HoldersStep(s: Sys, e: Event, c: Limits, a: Name)
    requires Possible(s, e, c)
    ensures Holders(Next(s, e, c), a) - Holders(s, a)
            == if e.call.account != a then 0 else if e.call.Acquires? then 1 else if e.call.Releases? then -1 else 0
  {
    hide Touch;
    var t := Next(s, e, c);
    CountStep(s, t, e.id, Apply(LocalOf(s, e.id), e.call), Holds(s, a), Holds(t, a));
  }

  lemma {:induction false} LiveStep(s: Sys, e: Event, c: Limits, a: Name)
    requires Possible(s, e, c)
    ensures Live(Next(s, e, c), a) - Live(s, a)
            == if e.call.account != a then 0
               else if e.call.SeesClosed? then 1
               else if e.call.Discards? || e.call.Fails? || e.call.Succeeds? then -1 else 0
  {
    hide Touch;
    var t := Next(s, e, c);
    CountStep(s, t, e.id, Apply(LocalOf(s, e.id), e.call), Entries(s, a), Entries(t, a));
  }

  lemma {:induction false} CountsNonNegative(s: Sys, a: Name)
    ensures Holders(s, a) >= 0 && Live(s, a) >= 0
    ensures forall id :: id in s.requests && s.requests[id].holding == Some(a) ==> Holders(s, a) > 0
  {
    SumNonNegative(s.requests.Keys, Holds(s, a));
    SumNonNegative(s.requests.Keys, Entries(s, a));
    forall id | id in s.requests && s.requests[id].holding == Some(a) ensures Holders(s, a) > 0 {
      assert Holds(s, a)(id) == 1;
    }
  }

  /* ---- slots ---- */

  /** The slots in use are exactly those held, and within the cap. */
  ghost predicate SlotsInv(s: Sys, a: Name, c: Limits) {
    Get(s.health.active, a) == Holders(s, a) && (c.cap(a) > 0 ==> Get(s.health.active, a) <= c.cap(a))
  }

  lemma {:induction false} TouchActive(h: Health, e: Event, c: Limits, a: Name)
    ensures Get(Touch(h, e, c).active, a)
            == if e.call.account != a then Get(h.active, a)
               else match e.call
                 case Acquires(_) => if AcquireSlot(h, a, c.cap(a)).1 then Get(h.active, a) + 1 else Get(h.active, a)
                 case Releases(_) => if Get(h.active, a) > 0 then Get(h.active, a) - 1 else 0
                 case _ => Get(h.active, a)
  {
    hide SeeCircuit;
    hide FailOnce;
    hide SucceedOnce;
    hide LockOut;
  }

  lemma {:induction false} SlotsStep(s: Sys, e: Event, c: Limits, a: Name)
    requires Possible(s, e, c) && SlotsInv(s, a, c)
    ensures SlotsInv(Next(s, e, c), a, c)
  {
    HoldersStep(s, e, c, a);
    CountsNonNegative(s, a);
    TouchActive(s.health, e, c, a);
    hide Holders;
    hide Touch;
    hide Apply;
  }

  lemma {:induction false} SlotsRun(s: Sys, run: seq<Event>, c: Limits, a: Name)
    requires IsRun(s, run, c) && SlotsInv(s, a, c)
    ensures SlotsInv(After(s, run, c), a, c)
    decreases |run|
  {
    hide Next;
    hide SlotsInv;
    if run != [] {
      SlotsStep(s, run[0], c, a);
      SlotsRun(Next(s, run[0], c), run[1..], c, a);
    }
  }

  /** In every interleaving, the active count of an account is the number of requests holding one
      of its slots, for attempts and probes alike, and never exceeds its cap. */
  lemma {:induction false} ActiveIsHolders(run: seq<Event>, c: Limits, a: Name, now: real)
    requires IsRun(Start(now), run, c)
    ensures var s := After(Start(now), run, c);
            Get(s.health.active, a) == Holders(s, a) && (c.cap(a) > 0 ==> Holders(s, a) <= c.cap(a))
  {
    SlotsRun(Start(now), run, c, a);
  }

  /* ---- the breaker ---- */

  /** At every state of the run the account has at most k live plan entries. */
  ghost predicate LiveWithin(s: Sys, run: seq<Event>, c: Limits, a: Name, k: int)
    requires IsRun(s, run, c)
    decreases |run|
  {
    Live(s, a) <= k && (run == [] || LiveWithin(Next(s, run[0], c), run[1..], c, a, k))
  }

  /** Past the threshold every further failure uses up one of the entries that were live then. */
  ghost predicate FailsInv(s: Sys, a: Name, c: Limits, k: int) {
    && BreakerInv(s.health, a, c.circuitFailures)
    && (Get(s.health.fails, a) >= c.circuitFailures ==>
          Get(s.health.fails, a) + Live(s, a) <= c.circuitFailures - 1 + k)
  }

  lemma {:induction false} TouchFails(h: Health, e: Event, c: Limits, a: Name)
    requires c.circuitFailures > 0 && BreakerInv(h, a, c.circuitFailures)
    requires e.call.SeesClosed? ==> !SeeCircuit(h, e.call.account, e.now, c.reset).1
    ensures var t := Touch(h, e, c);
            && BreakerInv(t, a, c.circuitFailures)
            && (e.call.account == a && e.call.Fails? ==> Get(t.fails, a) == Get(h.fails, a) + 1)
            && (e.call.account == a && e.call.SeesClosed? ==> Get(t.fails, a) < c.circuitFailures)
            && (e.call.account == a && e.call.Succeeds? ==> Get(t.fails, a) == 0)
            && (e.call.account != a || !(e.call.Fails? || e.call.SeesClosed? || e.call.Succeeds?) ==>
                  Get(t.fails, a) == Get(h.fails, a))
  {
    hide AcquireSlot;
    hide FreeSlot;
    hide SucceedOnce;
    hide LockOut;
    hide SeeCircuit;
    hide FailOnce;
    SeeingCircuit(h, e.call.account, e.now, c.reset, a, c.circuitFailures);
    FailingOnce(h, e.call.account, e.now, a, c.circuitFailures);
  }

  lemma {:induction false} FailsStep(s: Sys, e: Event, c: Limits, a: Name, k: int)
    requires Possible(s, e, c) && c.circuitFailures > 0 && FailsInv(s, a, c, k) && Live(s, a) <= k
    ensures FailsInv(Next(s, e, c), a, c, k)
  {
    LiveStep(s, e, c, a);
    TouchFails(s.health, e, c, a);
    hide Live;
    hide Touch;
    hide Apply;
    hide BreakerInv;
  }

  lemma {:induction false} FailsRun(s: Sys, run: seq<Event>, c: Limits, a: Name, k: int)
    requires IsRun(s, run, c) && c.circuitFailures > 0 && FailsInv(s, a, c, k) && LiveWithin(s, run, c, a, k)
    ensures FailsInv(After(s, run, c), a, c, k) && Live(After(s, run, c), a) <= k
    decreases |run|
  {
    hide Next;
    hide FailsInv;
    hide Live;
    if run != [] {
      FailsStep(s, run[0], c, a, k);
      FailsRun(Next(s, run[0], c), run[1..], c, a, k);
    }
  }

  /** In every interleaving with at most K live plan entries of an account: a failure count at the
      threshold F means the circuit is recorded open, the count never exceeds F - 1 + K, and a
      lockout at L can fire only if K >= L - F + 1. */
  lemma {:induction false} FailuresAreBounded(run: seq<Event>, c: Limits, a: Name, k: nat, now: real)
    requires IsRun(Start(now), run, c) && c.circuitFailures > 0 && LiveWithin(Start(now), run, c, a, k)
    ensures var h := After(Start(now), run, c).health;
            && BreakerInv(h, a, c.circuitFailures)
            && Get(h.fails, a) <= c.circuitFailures - 1 + k
            && (LockoutFires(h, a, c) ==> k >= c.lockoutFailures - c.circuitFailures + 1)
  {
    FailsRun(Start(now), run, c, a, k);
    CountsNonNegative(After(Start(now), run, c), a);
  }

  /** One request at a time, each account at most once in its plan: never when L > F. */
  predicate OneAtATime(s: Sys, run: seq<Event>, c: Limits)
    requires IsRun(s, run, c)
    decreases |run|
  {
    && OneBusy(s)
    && (forall i :: i in s.requests ==> NoTwice(s.requests[i].entries))
    && (run == [] || OneAtATime(Next(s, run[0], c), run[1..], c))
  }

  predicate OneBusy(s: Sys) {
    forall i, j :: i in s.requests && j in s.requests && s.requests[i] != IDLE && s.requests[j] != IDLE ==> i == j
  }

  predicate NoTwice(m: multiset<Name>) { forall a :: a in m ==> m[a] == 1 }

  lemma {:induction false} SequentialLive(s: Sys, a: Name)
    requires OneBusy(s)
    requires forall i :: i in s.requests ==> NoTwice(s.requests[i].entries)
    ensures Live(s, a) <= 1
  {
    var keys, f := s.requests.Keys, Entries(s, a);
    if busy :| busy in keys && s.requests[busy] != IDLE {
      SumRemove(keys, f, busy);
      SumEqual(keys - {busy}, f, (id: Id) => 0);
      SumZero(keys - {busy});
    } else {
      SumEqual(keys, f, (id: Id) => 0);
      SumZero(keys);
    }
  }

  lemma {:induction false} SumZero(keys: set<Id>)
    ensures Sum(keys, (id: Id) => 0) == 0
    decreases keys
  {
    if keys != {} {
      var k :| k in keys;
      SumRemove(keys, (id: Id) => 0, k);
      SumZero(keys - {k});
    }
  }

  lemma {:induction false} SequentialWithin(s: Sys, run: seq<Event>, c: Limits, a: Name)
    requires IsRun(s, run, c) && OneAtATime(s, run, c)
    ensures LiveWithin(s, run, c, a, 1)
    decreases |run|
  {
    hide Next;
    hide Live;
    SequentialLive(s, a);
    if run != [] { SequentialWithin(Next(s, run[0], c), run[1..], c, a); }
  }

  lemma {:induction false} NoLockoutOneAtATime(run: seq<Event>, c: Limits, a: Name, now: real)
    requires IsRun(Start(now), run, c) && OneAtATime(Start(now), run, c)
    requires 0 < c.circuitFailures < c.lockoutFailures
    ensures !LockoutFires(After(Start(now), run, c).health, a, c)
  {
    SequentialWithin(Start(now), run, c, a);
    FailuresAreBounded(run, c, a, 1, now);
  }
}
