/** Any number of attempt loops over one shared account state: what holds of every interleaving of
    the calls they make, and that the failure bound is reached by such loops. */
module AttemptLoops {
  import opened Wrappers
  import Sums
  import opened Resilience
  import opened FailoverRuns
  import opened Endpoint

  /** Each request has made some first part of the calls of its loop. */
  ghost predicate Interleaves(run: seq<Event>, scripts: Id -> Script) {
    forall id :: IsScript(scripts(id)) && CallsBy(run, id) <= LoopCalls(scripts(id))
  }

  lemma {:induction false} LoopsAreARun(run: seq<Event>, scripts: Id -> Script, c: Limits, now: real)
    requires Interleaves(run, scripts) && AnswersHold(Start(now), run, c)
    ensures IsRun(Start(now), run, c)
  {
    forall id ensures InOrder(LocalOf(Start(now), id), CallsBy(run, id)) {
      var calls := LoopCalls(scripts(id));
      assert CallsBy(run, id) == calls[..|CallsBy(run, id)|];
      LoopObeys(scripts(id));
      ObeyingInOrder(IDLE, calls, Local(multiset{}, Leak(scripts(id))), |CallsBy(run, id)|);
    }
    InterleavingIsRun(Start(now), run, c);
  }

  /** Whatever scripts any number of requests follow and however their calls interleave: the active
      count of an account is the number of requests holding one of its slots and stays within its
      cap; a failure count at F means the circuit is recorded open; and with at most K live plan
      entries the count stays within F - 1 + K, so a lockout at L fires only if K >= L - F + 1. */
  lemma {:induction false} LoopsAreSafe(run: seq<Event>, scripts: Id -> Script, c: Limits, a: Name, k: nat, now: real)
    requires Interleaves(run, scripts) && AnswersHold(Start(now), run, c) && c.circuitFailures > 0
    ensures IsRun(Start(now), run, c)
    ensures var s := After(Start(now), run, c);
            && Get(s.health.active, a) == Holders(s, a) && (c.cap(a) > 0 ==> Holders(s, a) <= c.cap(a))
            && (LiveWithin(Start(now), run, c, a, k) ==>
                  && BreakerInv(s.health, a, c.circuitFailures)
                  && Get(s.health.fails, a) <= c.circuitFailures - 1 + k
                  && (LockoutFires(s.health, a, c) ==> k >= c.lockoutFailures - c.circuitFailures + 1))
  {
    LoopsAreARun(run, scripts, c, now);
    ActiveIsHolders(run, c, a, now);
    if LiveWithin(Start(now), run, c, a, k) { FailuresAreBounded(run, c, a, k, now); }
  }

  /** A request that has made all its calls has in hand what its loop leaves in hand. */
  lemma {:induction false} FinishedHolds(s: Sys, run: seq<Event>, c: Limits, id: Id, end: Local)
    requires IsRun(s, run, c) && Obeys(LocalOf(s, id), CallsBy(run, id), end)
    ensures LocalOf(After(s, run, c), id) == end
    decreases |run|
  {
    hide Touch;
    if run != [] {
      var t := Next(s, run[0], c);
      if run[0].id == id {
        assert CallsBy(run, id)[1..] == CallsBy(run[1..], id);
      } else {
        assert CallsBy(run, id) == CallsBy(run[1..], id);
      }
      FinishedHolds(t, run[1..], c, id, end);
    }
  }

  /** Every request that has made a call has made them all. */
  ghost predicate AllEnded(run: seq<Event>, scripts: Id -> Script) {
    forall id :: CallsBy(run, id) != [] ==> IsScript(scripts(id)) && CallsBy(run, id) == LoopCalls(scripts(id))
  }

  /** Some request that ran left a slot of the account taken. */
  ghost predicate SomeLeaks(run: seq<Event>, scripts: Id -> Script, a: Name) {
    exists id :: CallsBy(run, id) != [] && IsScript(scripts(id)) && Leak(scripts(id)) == Some(a)
  }

  lemma {:induction false} EndedHolds(run: seq<Event>, scripts: Id -> Script, c: Limits, now: real, id: Id)
    requires IsRun(Start(now), run, c) && IsScript(scripts(id))
    requires CallsBy(run, id) != [] ==> CallsBy(run, id) == LoopCalls(scripts(id))
    ensures LocalOf(After(Start(now), run, c), id)
            == Local(multiset{}, if CallsBy(run, id) == [] then None else Leak(scripts(id)))
  {
    LoopObeys(scripts(id));
    ObeysNothing(IDLE);
    FinishedHolds(Start(now), run, c, id, Local(multiset{}, if CallsBy(run, id) == [] then None
        else Leak(scripts(id))));
  }

  /** Once every request has ended, whatever the interleaving, no slot of an account is taken exactly
      when no request that ran reached an attempt on it that panicked. */
  lemma {:induction false} NoSlotLeaksIff(run: seq<Event>, scripts: Id -> Script, c: Limits, a: Name, now: real)
    requires Interleaves(run, scripts) && AnswersHold(Start(now), run, c) && AllEnded(run, scripts)
    ensures IsRun(Start(now), run, c)
    ensures Get(After(Start(now), run, c).health.active, a) == 0 <==> !SomeLeaks(run, scripts, a)
  {
    LoopsAreARun(run, scripts, c, now);
    ActiveIsHolders(run, c, a, now);
    var s := After(Start(now), run, c);
    forall id ensures LocalOf(s, id)
                      == Local(multiset{}, if CallsBy(run, id) == [] then None else Leak(scripts(id)))
    {
      EndedHolds(run, scripts, c, now, id);
    }
    if SomeLeaks(run, scripts, a) {
      var id :| CallsBy(run, id) != [] && IsScript(scripts(id)) && Leak(scripts(id)) == Some(a);
      assert LocalOf(s, id).holding == Some(a) && id in s.requests;
      CountsNonNegative(s, a);
    } else {
      forall id | id in s.requests ensures Holds(s, a)(id) == 0 {
        assert CallsBy(run, id) != [] ==> Leak(scripts(id)) != Some(a);
      }
      Sums.SumEqual(s.requests.Keys, Holds(s, a), (id: Id) => 0);
      SumZero(s.requests.Keys);
    }
  }

  /* ---- the bound is reached ---- */

  /** A request whose one account fails. */
  function Failing(a: Name): Script { Once(a, OtherError) }

  function AttemptCalls(a: Name): seq<Call> { [Acquires(a), Releases(a), Fails(a), ChecksLockout(a)] }

  lemma {:induction false} FailingCalls(a: Name)
    ensures IsScript(Failing(a)) && LoopCalls(Failing(a)) == ProbeCalls(a) + AttemptCalls(a)
  {
    var p, v := Failing(a).plans[0], Visit(a, false, true, OtherError, false, false);
    var cs := p.candidates;
    assert cs[1..] == [] && p.visits[1..] == [] && Failing(a).plans[1..] == [];
    assert Probed([]) == multiset{} && Accounts([]) == multiset{};
    assert Probed(cs) == multiset{a} == Accounts(p.visits) + multiset(p.cut);
    assert ScanCalls([]) == [] && CutCalls([]) == [] && ScriptCalls([]) == [] && RunCalls([]) == [];
    assert PlanningCalls(p) == ProbeCalls(a);
    assert Passed(v) && OutcomeCalls(v) == [Fails(a), ChecksLockout(a)];
    assert RunCalls(p.visits) == VisitCalls(v) + RunCalls([]) == AttemptCalls(a);
    StopUnique(p.visits, 1);
  }

  /* runs one after the other */

  lemma {:induction false} RunConcat(s: Sys, one: seq<Event>, two: seq<Event>, c: Limits, a: Name, k: int)
    requires IsRun(s, one, c) && IsRun(After(s, one, c), two, c)
    requires LiveWithin(s, one, c, a, k) && LiveWithin(After(s, one, c), two, c, a, k)
    ensures IsRun(s, one + two, c) && After(s, one + two, c) == After(After(s, one, c), two, c)
    ensures LiveWithin(s, one + two, c, a, k)
    decreases |one|
  {
    hide Next;
    hide Live;
    if one == [] {
      assert one + two == two;
    } else {
      assert (one + two)[1..] == one[1..] + two;
      RunConcat(Next(s, one[0], c), one[1..], two, c, a, k);
    }
  }

  lemma {:induction false} CallsByConcat(one: seq<Event>, two: seq<Event>, id: Id)
    ensures CallsBy(one + two, id) == CallsBy(one, id) + CallsBy(two, id)
    decreases |one|
  {
    if one == [] {
      assert one + two == two;
    } else {
      assert (one + two)[1..] == one[1..] + two;
      CallsByConcat(one[1..], two, id);
    }
  }

  /** The events of one request making these calls now. */
  function EventsOf(id: Id, calls: seq<Call>, now: real): seq<Event> {
    if calls == [] then [] else [Event(id, calls[0], now, 0)] + EventsOf(id, calls[1..], now)
  }

  lemma {:induction false} CallsOfEvents(id: Id, calls: seq<Call>, now: real, other: Id)
    ensures CallsBy(EventsOf(id, calls, now), other) == if other == id then calls else []
    decreases |calls|
  {
    if calls != [] {
      var run := EventsOf(id, calls, now);
      assert run[1..] == EventsOf(id, calls[1..], now);
      CallsOfEvents(id, calls[1..], now, other);
    }
  }

  /** Requests numbered from `first` up to `next` have planned the account and not tried it yet; no
      slot is taken, f failures are counted, and below the threshold the circuit is closed. */
  ghost predicate Waiting(s: Sys, c: Limits, a: Name, first: nat, next: nat, f: nat, now: real) {
    && first <= next && s.now == now
    && Get(s.health.active, a) == 0 && Get(s.health.fails, a) == f
    && (f < c.circuitFailures ==> a !in s.health.openedAt)
    && Live(s, a) == next - first
    && forall id :: LocalOf(s, id) == if first <= id.number < next then Local(multiset{a}, None) else IDLE
  }

  /** One more step of a run of one request. */
  lemma {:induction false} StepOn(s: Sys, e: Event, rest: seq<Event>, c: Limits, a: Name, k: int)
    requires Possible(s, e, c) && IsRun(Next(s, e, c), rest, c)
    requires Live(s, a) <= k && LiveWithin(Next(s, e, c), rest, c, a, k)
    ensures IsRun(s, [e] + rest, c) && After(s, [e] + rest, c) == After(Next(s, e, c), rest, c)
    ensures LiveWithin(s, [e] + rest, c, a, k)
  {
    hide Next;
    hide Live;
    hide Possible;
    assert ([e] + rest)[1..] == rest;
  }

  lemma {:induction false} NoStep(s: Sys, c: Limits, a: Name, k: int)
    requires Live(s, a) <= k
    ensures IsRun(s, [], c) && After(s, [], c) == s && LiveWithin(s, [], c, a, k)
  {
  }

  /** What a request does on its own to everything the bound speaks of. */
  ghost predicate Single(s: Sys, id: Id, l: Local, a: Name, active: nat, f: nat, live: int) {
    && LocalOf(s, id) == l && Get(s.health.active, a) == active && Get(s.health.fails, a) == f && Live(s, a) == live
  }

  ghost predicate OthersSame(s: Sys, t: Sys, id: Id) {
    t.now == s.now && forall other :: other != id ==> LocalOf(t, other) == LocalOf(s, other)
  }

  lemma {:induction false} OthersSameTwice(s: Sys, t: Sys, u: Sys, id: Id)
    requires OthersSame(s, t, id) && OthersSame(t, u, id)
    ensures OthersSame(s, u, id)
  {
  }

  lemma {:induction false} Sees(s: Sys, id: Id, c: Limits, a: Name, f: nat, live: int)
    requires Single(s, id, IDLE, a, 0, f, live) && a !in s.health.openedAt
    ensures var e := Event(id, SeesClosed(a), s.now, 0);
            && Possible(s, e, c) && Single(Next(s, e, c), id, Local(multiset{a}, None), a, 0, f, live + 1)
            && OthersSame(s, Next(s, e, c), id) && a !in Next(s, e, c).health.openedAt
  {
    var e := Event(id, SeesClosed(a), s.now, 0);
    LiveStep(s, e, c, a);
    hide Live;
    assert IDLE.entries + multiset{a} == multiset{a};
  }

  /** Taking the one slot and giving it back. */
  lemma {:induction false} Takes(s: Sys, id: Id, c: Limits, a: Name, f: nat, live: int)
    requires Single(s, id, Local(multiset{a}, None), a, 0, f, live)
    ensures var e := Event(id, Acquires(a), s.now, 0);
            && Possible(s, e, c) && Single(Next(s, e, c), id, Local(multiset{a}, Some(a)), a, 1, f, live)
            && OthersSame(s, Next(s, e, c), id) && Next(s, e, c).health.openedAt == s.health.openedAt
  {
    LiveStep(s, Event(id, Acquires(a), s.now, 0), c, a);
    hide Live;
  }

  lemma {:induction false} GivesBack(s: Sys, id: Id, c: Limits, a: Name, f: nat, live: int)
    requires Single(s, id, Local(multiset{a}, Some(a)), a, 1, f, live)
    ensures var e := Event(id, Releases(a), s.now, 0);
            && Possible(s, e, c) && Single(Next(s, e, c), id, Local(multiset{a}, None), a, 0, f, live)
            && OthersSame(s, Next(s, e, c), id) && Next(s, e, c).health.openedAt == s.health.openedAt
  {
    LiveStep(s, Event(id, Releases(a), s.now, 0), c, a);
    hide Live;
  }

  lemma {:induction false} FailsOnce(s: Sys, id: Id, c: Limits, a: Name, f: nat, live: int)
    requires Single(s, id, Local(multiset{a}, None), a, 0, f, live) && c.circuitFailures > 0
    requires f < c.circuitFailures ==> a !in s.health.openedAt
    ensures var e := Event(id, Fails(a), s.now, 0);
            && Possible(s, e, c) && Single(Next(s, e, c), id, IDLE, a, 0, f + 1, live - 1)
            && OthersSame(s, Next(s, e, c), id)
            && (f + 1 < c.circuitFailures ==> a !in Next(s, e, c).health.openedAt)
  {
    LiveStep(s, Event(id, Fails(a), s.now, 0), c, a);
    hide Live;
  }

  lemma {:induction false} Checks(s: Sys, id: Id, c: Limits, a: Name, f: nat, live: int)
    requires Single(s, id, IDLE, a, 0, f, live)
    ensures var e := Event(id, ChecksLockout(a), s.now, 0);
            && Possible(s, e, c) && Single(Next(s, e, c), id, IDLE, a, 0, f, live)
            && OthersSame(s, Next(s, e, c), id) && Next(s, e, c).health.openedAt == s.health.openedAt
  {
    LiveStep(s, Event(id, ChecksLockout(a), s.now, 0), c, a);
    hide Live;
  }

  lemma {:induction false} Planning(s: Sys, id: Id, c: Limits, a: Name, f: nat, live: int, k: int)
    requires Single(s, id, IDLE, a, 0, f, live) && a !in s.health.openedAt && live + 1 <= k
    ensures var run := EventsOf(id, ProbeCalls(a), s.now);
            && IsRun(s, run, c) && LiveWithin(s, run, c, a, k)
            && var t := After(s, run, c);
               && Single(t, id, Local(multiset{a}, None), a, 0, f, live + 1)
               && OthersSame(s, t, id) && a !in t.health.openedAt
  {
    hide Next;
    hide Possible;
    hide IsRun;
    hide LiveWithin;
    hide After;
    hide OthersSame;
    var now := s.now;
    var e1, e2, e3 := Event(id, SeesClosed(a), now, 0), Event(id, Acquires(a), now, 0), Event(id, Releases(a), now, 0);
    Sees(s, id, c, a, f, live);
    var s1 := Next(s, e1, c);
    assert s1.now == now by { NowSame(s, s1, id); }
    Takes(s1, id, c, a, f, live + 1);
    var s2 := Next(s1, e2, c);
    assert s2.now == now by { NowSame(s1, s2, id); }
    GivesBack(s2, id, c, a, f, live + 1);
    var s3 := Next(s2, e3, c);
    OthersSameTwice(s, s1, s2, id);
    OthersSameTwice(s, s2, s3, id);
    NoStep(s3, c, a, k);
    StepOn(s2, e3, [], c, a, k);
    StepOn(s1, e2, [e3] + [], c, a, k);
    StepOn(s, e1, [e2] + ([e3] + []), c, a, k);
    assert EventsOf(id, ProbeCalls(a), now) == [e1] + ([e2] + ([e3] + [])) by { ThreeEvents(id, e1, e2, e3, now); }
  }

  lemma {:induction false} NowSame(s: Sys, t: Sys, id: Id)
    requires OthersSame(s, t, id)
    ensures t.now == s.now
  {
  }

  lemma {:induction false} ThreeEvents(id: Id, e1: Event, e2: Event, e3: Event, now: real)
    requires e1 == Event(id, e1.call, now, 0) && e2 == Event(id, e2.call, now, 0) && e3 == Event(id, e3.call, now, 0)
    ensures EventsOf(id, [e1.call, e2.call, e3.call], now) == [e1] + ([e2] + ([e3] + []))
  {
    var calls := [e1.call, e2.call, e3.call];
    assert calls[1..] == [e2.call, e3.call] && calls[1..][1..] == [e3.call] && calls[1..][1..][1..] == [];
    assert EventsOf(id, [], now) == [] && EventsOf(id, [e3.call], now) == [e3] + [];
    assert EventsOf(id, [e2.call, e3.call], now) == [e2] + ([e3] + []);
  }

  lemma {:induction false} FourEvents(id: Id, a: Name, now: real)
    ensures var e1, e2 := Event(id, Acquires(a), now, 0), Event(id, Releases(a), now, 0);
            var e3, e4 := Event(id, Fails(a), now, 0), Event(id, ChecksLockout(a), now, 0);
            EventsOf(id, AttemptCalls(a), now) == [e1] + ([e2] + ([e3] + ([e4] + [])))
  {
    var e2, e3 := Event(id, Releases(a), now, 0), Event(id, Fails(a), now, 0);
    var e4 := Event(id, ChecksLockout(a), now, 0);
    ThreeEvents(id, e2, e3, e4, now);
    assert AttemptCalls(a)[1..] == [e2.call, e3.call, e4.call];
  }

  lemma {:induction false} Trying(s: Sys, id: Id, c: Limits, a: Name, f: nat, live: int, k: int)
    requires Single(s, id, Local(multiset{a}, None), a, 0, f, live) && live <= k && c.circuitFailures > 0
    requires f < c.circuitFailures ==> a !in s.health.openedAt
    ensures var run := EventsOf(id, AttemptCalls(a), s.now);
            && IsRun(s, run, c) && LiveWithin(s, run, c, a, k)
            && var t := After(s, run, c);
               && Single(t, id, IDLE, a, 0, f + 1, live - 1) && OthersSame(s, t, id)
               && (f + 1 < c.circuitFailures ==> a !in t.health.openedAt)
  {
    hide Next;
    hide Possible;
    hide IsRun;
    hide LiveWithin;
    hide After;
    hide OthersSame;
    hide EventsOf;
    var now := s.now;
    var e1, e2 := Event(id, Acquires(a), now, 0), Event(id, Releases(a), now, 0);
    var e3, e4 := Event(id, Fails(a), now, 0), Event(id, ChecksLockout(a), now, 0);
    Takes(s, id, c, a, f, live);
    var s1 := Next(s, e1, c);
    assert s1.now == now by { NowSame(s, s1, id); }
    GivesBack(s1, id, c, a, f, live);
    var s2 := Next(s1, e2, c);
    assert s2.now == now by { NowSame(s1, s2, id); }
    FailsOnce(s2, id, c, a, f, live);
    var s3 := Next(s2, e3, c);
    assert s3.now == now by { NowSame(s2, s3, id); }
    Checks(s3, id, c, a, f + 1, live - 1);
    var s4 := Next(s3, e4, c);
    OthersSameTwice(s, s1, s2, id);
    OthersSameTwice(s, s2, s3, id);
    OthersSameTwice(s, s3, s4, id);
    NoStep(s4, c, a, k);
    StepOn(s3, e4, [], c, a, k);
    StepOn(s2, e3, [e4] + [], c, a, k);
    StepOn(s1, e2, [e3] + ([e4] + []), c, a, k);
    StepOn(s, e1, [e2] + ([e3] + ([e4] + [])), c, a, k);
    FourEvents(id, a, now);
  }

  lemma {:induction false} OneMoreWaits(s: Sys, t: Sys, c: Limits, a: Name, first: nat, next: nat, f: nat, now: real)
    requires Waiting(s, c, a, first, next, f, now) && OthersSame(s, t, Id(next))
    requires Single(t, Id(next), Local(multiset{a}, None), a, 0, f, Live(s, a) + 1) && a !in t.health.openedAt
    ensures Waiting(t, c, a, first, next + 1, f, now)
  {
    hide Live;
  }

  lemma {:induction false} OneMoreFailed(s: Sys, t: Sys, c: Limits, a: Name, first: nat, next: nat, f: nat, now: real)
    requires Waiting(s, c, a, first, next, f, now) && first < next && OthersSame(s, t, Id(first))
    requires Single(t, Id(first), IDLE, a, 0, f + 1, Live(s, a) - 1)
    requires f + 1 < c.circuitFailures ==> a !in t.health.openedAt
    ensures Waiting(t, c, a, first + 1, next, f + 1, now)
  {
    hide Live;
  }

  /** Who has made these calls: the requests of a range, and nobody else. */
  ghost predicate MadeBy(run: seq<Event>, from: nat, to: nat, calls: seq<Call>) {
    forall id :: CallsBy(run, id) == if from <= id.number < to then calls else []
  }

  lemma {:induction false} MadeByOne(n: nat, calls: seq<Call>, now: real)
    ensures MadeBy(EventsOf(Id(n), calls, now), n, n + 1, calls)
  {
    forall id ensures CallsBy(EventsOf(Id(n), calls, now), id) == if n <= id.number < n + 1 then calls else [] {
      CallsOfEvents(Id(n), calls, now, id);
      assert id.number == n ==> id == Id(n);
    }
  }

  lemma {:induction false} MadeByMore(one: seq<Event>, two: seq<Event>, from: nat, mid: nat, to: nat, calls: seq<Call>)
    requires from <= mid <= to && MadeBy(one, from, mid, calls) && MadeBy(two, mid, to, calls)
    ensures MadeBy(one + two, from, to, calls)
  {
    forall id ensures CallsBy(one + two, id) == if from <= id.number < to then calls else [] {
      CallsByConcat(one, two, id);
    }
  }

  /** First one part of the calls by everyone in the range, then the other. */
  lemma {:induction false} MadeByBoth(one: seq<Event>, two: seq<Event>, from: nat, to: nat, calls: seq<Call>,
                                      more: seq<Call>)
    requires MadeBy(one, from, to, calls) && MadeBy(two, from, to, more)
    ensures MadeBy(one + two, from, to, calls + more)
  {
    forall id ensures CallsBy(one + two, id) == if from <= id.number < to then calls + more else [] {
      CallsByConcat(one, two, id);
    }
  }

  /** A run between two waiting states that keeps the live entries within k. */
  ghost predicate Leads(s: Sys, run: seq<Event>, c: Limits, a: Name, k: int, first: nat, next: nat, f: nat, now: real) {
    IsRun(s, run, c) && LiveWithin(s, run, c, a, k) && Waiting(After(s, run, c), c, a, first, next, f, now)
  }

  lemma {:induction false} LeadsOn(s: Sys, one: seq<Event>, two: seq<Event>, c: Limits, a: Name, k: int, first: nat,
                                   next: nat, f: nat,
                now: real)
    requires IsRun(s, one, c) && LiveWithin(s, one, c, a, k)
    requires Leads(After(s, one, c), two, c, a, k, first, next, f, now)
    ensures Leads(s, one + two, c, a, k, first, next, f, now)
  {
    hide Waiting;
    RunConcat(s, one, two, c, a, k);
  }

  lemma {:induction false} PlanNext(s: Sys, c: Limits, a: Name, first: nat, next: nat, f: nat, k: nat, now: real)
    returns (run: seq<Event>)
    requires Waiting(s, c, a, first, next, f, now) && f < c.circuitFailures && next - first < k
    ensures Leads(s, run, c, a, k, first, next + 1, f, now) && MadeBy(run, next, next + 1, ProbeCalls(a))
  {
    run := EventsOf(Id(next), ProbeCalls(a), now);
    MadeByOne(next, ProbeCalls(a), now);
    Planning(s, Id(next), c, a, f, Live(s, a), k);
    OneMoreWaits(s, After(s, run, c), c, a, first, next, f, now);
  }

  lemma {:induction false} TryNext(s: Sys, c: Limits, a: Name, first: nat, next: nat, f: nat, k: nat, now: real)
    returns (run: seq<Event>)
    requires Waiting(s, c, a, first, next, f, now) && first < next && next - first <= k && c.circuitFailures > 0
    ensures Leads(s, run, c, a, k, first + 1, next, f + 1, now) && MadeBy(run, first, first + 1, AttemptCalls(a))
  {
    run := EventsOf(Id(first), AttemptCalls(a), now);
    MadeByOne(first, AttemptCalls(a), now);
    Trying(s, Id(first), c, a, f, Live(s, a), k);
    OneMoreFailed(s, After(s, run, c), c, a, first, next, f, now);
  }

  /** Requests up to `limit` plan the account while its circuit is closed. */
  lemma {:induction false} PlanAll(s: Sys, c: Limits, a: Name, first: nat, next: nat, limit: nat, f: nat, k: nat,
                                   now: real)
    returns (run: seq<Event>)
    requires Waiting(s, c, a, first, next, f, now) && f < c.circuitFailures && next <= limit && limit - first <= k
    ensures Leads(s, run, c, a, k, first, limit, f, now) && MadeBy(run, next, limit, ProbeCalls(a))
    decreases limit - next
  {
    hide Waiting;
    hide MadeBy;
    if next == limit {
      run := Nobody(s, c, a, first, next, f, k, now, ProbeCalls(a));
    } else {
      var one := PlanNext(s, c, a, first, next, f, k, now);
      var rest := PlanAll(After(s, one, c), c, a, first, next + 1, limit, f, k, now);
      LeadsOn(s, one, rest, c, a, k, first, limit, f, now);
      MadeByMore(one, rest, next, next + 1, limit, ProbeCalls(a));
      run := one + rest;
    }
  }

  lemma {:induction false} Nobody(s: Sys, c: Limits, a: Name, first: nat, next: nat, f: nat, k: nat, now: real,
                                  calls: seq<Call>)
    returns (run: seq<Event>)
    requires Waiting(s, c, a, first, next, f, now) && next - first <= k
    ensures run == [] && Leads(s, run, c, a, k, first, next, f, now) && forall n :: MadeBy(run, n, n, calls)
  {
    run := [];
  }

  /** All that wait try the account and fail. */
  lemma {:induction false} TryAll(s: Sys, c: Limits, a: Name, first: nat, next: nat, f: nat, k: nat, now: real)
    returns (run: seq<Event>)
    requires Waiting(s, c, a, first, next, f, now) && first <= next && next - first <= k && c.circuitFailures > 0
    ensures Leads(s, run, c, a, k, next, next, f + (next - first), now) && MadeBy(run, first, next, AttemptCalls(a))
    decreases next - first
  {
    hide Waiting;
    hide MadeBy;
    if first == next {
      run := Nobody(s, c, a, first, next, f, k, now, AttemptCalls(a));
    } else {
      var one := TryNext(s, c, a, first, next, f, k, now);
      var rest := TryAll(After(s, one, c), c, a, first + 1, next, f + 1, k, now);
      LeadsOn(s, one, rest, c, a, k, next, next, f + (next - first), now);
      MadeByMore(one, rest, first, first + 1, next, AttemptCalls(a));
      run := one + rest;
    }
  }

  /** A group of requests plans the account together and then tries it. */
  lemma {:induction false} Group(s: Sys, c: Limits, a: Name, next: nat, size: nat, f: nat, k: nat, now: real)
    returns (run: seq<Event>)
    requires Waiting(s, c, a, next, next, f, now) && f < c.circuitFailures && size <= k
    ensures Leads(s, run, c, a, k, next + size, next + size, f + size, now)
    ensures MadeBy(run, next, next + size, ProbeCalls(a) + AttemptCalls(a))
  {
    hide Waiting;
    hide MadeBy;
    hide ProbeCalls;
    hide AttemptCalls;
    var plans := PlanAll(s, c, a, next, next, next + size, f, k, now);
    var tries := TryAll(After(s, plans, c), c, a, next, next + size, f, k, now);
    LeadsOn(s, plans, tries, c, a, k, next + size, next + size, f + size, now);
    MadeByBoth(plans, tries, next, next + size, ProbeCalls(a), AttemptCalls(a));
    run := plans + tries;
  }

  /** One request at a time up to the threshold, then k together. */
  lemma {:induction false} Climb(s: Sys, c: Limits, a: Name, f: nat, k: nat, now: real) returns (run: seq<Event>)
    requires Waiting(s, c, a, f, f, f, now) && f < c.circuitFailures && k > 0
    ensures var n := c.circuitFailures - 1 + k;
            Leads(s, run, c, a, k, n, n, n, now) && MadeBy(run, f, n, ProbeCalls(a) + AttemptCalls(a))
    decreases c.circuitFailures - f
  {
    hide Waiting;
    hide MadeBy;
    hide ProbeCalls;
    hide AttemptCalls;
    var n := c.circuitFailures - 1 + k;
    if f == c.circuitFailures - 1 {
      run := Group(s, c, a, f, k, f, k, now);
    } else {
      var one := Group(s, c, a, f, 1, f, k, now);
      var rest := Climb(After(s, one, c), c, a, f + 1, k, now);
      LeadsOn(s, one, rest, c, a, k, n, n, n, now);
      MadeByMore(one, rest, f, f + 1, n, ProbeCalls(a) + AttemptCalls(a));
      run := one + rest;
    }
  }

  /** F - 1 + K is reached by attempt loops: F - 1 requests fail one after the other, then K plan the
      account together and fail. So a lockout at L does fire whenever 0 < L <= F - 1 + K. */
  lemma {:induction false} BoundIsReached(c: Limits, a: Name, k: nat, now: real) returns (run: seq<Event>)
    requires c.circuitFailures > 0 && k > 0
    ensures Interleaves(run, (id: Id) => Failing(a))
    ensures IsRun(Start(now), run, c) && LiveWithin(Start(now), run, c, a, k)
    ensures Get(After(Start(now), run, c).health.fails, a) == c.circuitFailures - 1 + k
    ensures 0 < c.lockoutFailures <= c.circuitFailures - 1 + k ==> LockoutFires(After(Start(now), run, c).health, a, c)
  {
    run := Climb(Start(now), c, a, 0, k, now);
    FailingCalls(a);
  }
}
