/** One request through the attempt loop: fallback aliases, planned accounts, upstream answers.

    Whatever the loop cannot see coming (the plans, whether a slot is free, what an upstream
    answers, when the client goes away) is a script; the statements hold for every script. */
module Endpoint {
  import opened Wrappers
  import opened Resilience
  import opened FailoverRuns

  /** How executing one attempt ends. A response also says whether rewriting its body fails. */
  datatype Upstream =
    | NoAdapter
    | ContextError                 // the adapter's error is a cancelled or expired context
    | InvalidError                 // the error text contains "invalid"
    | OtherError
    | NoBody
    | Answered(status: int, rewriteFails: bool)

  /** One planned account and what happens when the loop reaches it. The three flags say whether
      the request's own context has ended before, during and after the attempt. */
  datatype Visit = Visit(account: Name, endedBefore: bool, acquired: bool, upstream: Upstream,
                         endedDuring: bool, endedAfter: bool)

  /** An account whose circuit the planner saw closed; the slot probe that follows may be missed,
      because the account is locked out or saturated. */
  datatype Candidate = Candidate(account: Name, probed: bool)

  /** What planning one alias looked at, what the attempt limit cut off, and what is left to visit. */
  datatype Plan = Plan(candidates: seq<Candidate>, cut: seq<Name>, visits: seq<Visit>)

  /** The plan of every alias in the chain, and the context after the last. */
  datatype Script = Script(plans: seq<Plan>, endedAtEnd: bool)

  /** An entry of the request event; a saturated account has no status. */
  datatype Attempt = Attempt(account: Name, status: Option<int>)

  /** Everything the loop does to the world. */
  datatype Exchange = Exchange(
    written: seq<int>,           // the statuses a response was started with
    headersFrom: seq<Name>,      // accounts whose response headers were added
    attempts: seq<Attempt>,
    cooled: seq<Name>, failed: seq<Name>,
    good: Option<Name>,          // the account remembered as good, and the usage charged
    calls: seq<Call>)            // calls into the shared account state

  const FRESH := Exchange([], [], [], [], [], None, [])

  /* ---- what a visit means ---- */

  predicate Refusal(status: int) { status == 429 || status >= 500 }

  predicate Errored(v: Visit) { v.upstream.ContextError? || v.upstream.InvalidError? || v.upstream.OtherError? }

  /** The attempt is abandoned as the client's own ending. */
  predicate ContextDone(v: Visit) { Errored(v) && (v.upstream.ContextError? || v.endedDuring) }

  predicate Rejected(v: Visit) { v.upstream.InvalidError? && !v.endedDuring }

  /** The response is to be passed on to the client. */
  predicate Taken(v: Visit) { v.upstream.Answered? && !Refusal(v.upstream.status) && !v.upstream.rewriteFails }

  const LOWEST_STATUS := 100

  /** The HTTP server refuses to start a response with a lower status: it panics. */
  predicate Panics(v: Visit) { Taken(v) && v.upstream.status < LOWEST_STATUS }

  predicate Forwards(v: Visit) { Taken(v) && v.upstream.status >= LOWEST_STATUS }

  /** Nothing was sent and another account may be tried. */
  predicate GivesUp(v: Visit) { !ContextDone(v) && !Rejected(v) && !Taken(v) }

  /** The panic happens: the handler is unwound with the slot in hand, and nothing recovers it. */
  predicate Crashes(v: Visit) { !v.endedBefore && v.acquired && Panics(v) }

  /** The loop goes on to the next account. */
  predicate Passed(v: Visit) { !v.endedBefore && (v.acquired ==> GivesUp(v) && !v.endedAfter) }

  /** What the client gets from the visit that ends the loop. */
  function ReplyOf(v: Visit): seq<int> {
    if v.endedBefore || !v.acquired then []
    else if Forwards(v) then [v.upstream.status] else if Rejected(v) then [400] else []
  }

  function HeadersOf(v: Visit): seq<Name> {
    if !v.endedBefore && v.acquired && Taken(v) then [v.account] else []
  }

  /** The status an uncommitted attempt is judged by. */
  function GivenUpStatus(v: Visit): int {
    if v.upstream.Answered? && Refusal(v.upstream.status) then v.upstream.status else 0
  }

  function StatusOf(v: Visit): int {
    if Forwards(v) then v.upstream.status else if Rejected(v) then 400 else if GivesUp(v) then GivenUpStatus(v) else 0
  }

  predicate GoodStatus(status: int) { 200 <= status < 500 && status != 429 }

  function GoodOf(v: Visit): Option<Name> {
    if !v.endedBefore && v.acquired && !v.endedAfter && GoodStatus(StatusOf(v)) then Some(v.account) else None
  }

  /** The first visit the loop does not pass. */
  function FirstStop(vs: seq<Visit>): (n: nat)
    ensures n <= |vs| && (forall i :: 0 <= i < n ==> Passed(vs[i])) && (n < |vs| ==> !Passed(vs[n]))
  {
    if vs == [] || !Passed(vs[0]) then 0 else FirstStop(vs[1..]) + 1
  }

  function AttemptOf(v: Visit): seq<Attempt> {
    if v.endedBefore || Crashes(v) then []
    else [Attempt(v.account, if v.acquired then Some(StatusOf(v)) else None)]
  }

  function CooledOf(v: Visit): seq<Name> { if v.acquired && GivenUpStatus(v) == 429 then [v.account] else [] }

  function FailedOf(v: Visit): seq<Name> { if v.acquired && GivenUpStatus(v) != 429 then [v.account] else [] }

  function Collect<T>(vs: seq<Visit>, f: Visit -> seq<T>): seq<T> {
    if vs == [] then [] else f(vs[0]) + Collect(vs[1..], f)
  }

  lemma {:induction false} CollectConcat<T>(a: seq<Visit>, b: seq<Visit>, f: Visit -> seq<T>)
    ensures Collect(a + b, f) == Collect(a, f) + Collect(b, f)
    decreases |a|
  {
    if a == [] {
      assert a + b == b;
    } else {
      assert (a + b)[1..] == a[1..] + b;
      CollectConcat(a[1..], b, f);
    }
  }

  lemma {:induction false} StopUnique(vs: seq<Visit>, n: nat)
    requires n <= |vs| && (forall i :: 0 <= i < n ==> Passed(vs[i])) && (n < |vs| ==> !Passed(vs[n]))
    ensures FirstStop(vs) == n
  {
    var m := FirstStop(vs);
  }

  /* ---- calls into the shared state ---- */

  function Accounts(vs: seq<Visit>): multiset<Name> {
    if vs == [] then multiset{} else multiset{vs[0].account} + Accounts(vs[1..])
  }

  function Kept(c: Candidate): multiset<Name> { if c.probed then multiset{c.account} else multiset{} }

  function Probed(cs: seq<Candidate>): multiset<Name> {
    if cs == [] then multiset{} else Kept(cs[0]) + Probed(cs[1..])
  }

  /** What the planner keeps is what it probed, reordered and cut. */
  predicate IsPlan(p: Plan) { Probed(p.candidates) == Accounts(p.visits) + multiset(p.cut) }

  predicate IsScript(script: Script) {
    script.plans != [] && forall i :: 0 <= i < |script.plans| ==> IsPlan(script.plans[i])
  }

  function ProbeCalls(a: Name): seq<Call> { [SeesClosed(a), Acquires(a), Releases(a)] }

  function CandidateCalls(c: Candidate): seq<Call> {
    if c.probed then ProbeCalls(c.account) else [SeesClosed(c.account), Discards(c.account)]
  }

  function ScanCalls(cs: seq<Candidate>): seq<Call> {
    if cs == [] then [] else CandidateCalls(cs[0]) + ScanCalls(cs[1..])
  }

  function CutCalls(names: seq<Name>): seq<Call> {
    if names == [] then [] else [Discards(names[0])] + CutCalls(names[1..])
  }

  /** Planning: every candidate is looked at and probed, the cut ones are dropped. */
  function PlanningCalls(p: Plan): seq<Call> { ScanCalls(p.candidates) + CutCalls(p.cut) }

  /** How an attempt that took a slot is accounted for. */
  function Outcome(v: Visit): (c: Call)
    ensures c.account == v.account && (c.Discards? || c.Succeeds? || c.Fails?)
  {
    if v.endedAfter then Discards(v.account)
    else if GoodStatus(StatusOf(v)) then Succeeds(v.account)
    else if GivesUp(v) && GivenUpStatus(v) != 429 then Fails(v.account)
    else Discards(v.account)
  }

  /** After a counted failure the count is read against the lockout limit. */
  function OutcomeCalls(v: Visit): seq<Call> {
    [Outcome(v)] + if Outcome(v).Fails? then [ChecksLockout(v.account)] else []
  }

  function VisitCalls(v: Visit): seq<Call> {
    if v.endedBefore then []
    else if !v.acquired then [Discards(v.account)]
    else if Panics(v) then [Acquires(v.account)]
    else [Acquires(v.account), Releases(v.account)] + OutcomeCalls(v)
  }

  /** What of a plan is still in hand after its first visit. */
  function Remaining(vs: seq<Visit>): seq<Visit>
    requires vs != []
  {
    if vs[0].endedBefore || Crashes(vs[0]) then vs else vs[1..]
  }

  /** The rest of a plan is left behind when the request ends. */
  function LeaveCalls(vs: seq<Visit>): seq<Call> {
    if vs == [] then [] else [Discards(vs[0].account)] + LeaveCalls(vs[1..])
  }

  function RunCalls(vs: seq<Visit>): seq<Call> {
    if vs == [] then []
    else if Passed(vs[0]) then VisitCalls(vs[0]) + RunCalls(vs[1..])
    else VisitCalls(vs[0]) + LeaveCalls(Remaining(vs))
  }

  function ScriptCalls(plans: seq<Plan>): seq<Call> {
    if plans == [] then []
    else
      var p := plans[0];
      PlanningCalls(p) + (RunCalls(p.visits) + if FirstStop(p.visits) < |p.visits| then [] else ScriptCalls(plans[1..]))
  }

  /** All calls of one request into the shared account state, in order. */
  function LoopCalls(script: Script): seq<Call>
    requires script.plans != []
  {
    if script.plans[0].visits == [] then PlanningCalls(script.plans[0]) else ScriptCalls(script.plans)
  }

  /** The account whose slot the visits leave taken: that of the attempt that panics, if one is reached. */
  function LeakOf(vs: seq<Visit>): Option<Name> {
    var n := FirstStop(vs);
    if n < |vs| && Crashes(vs[n]) then Some(vs[n].account) else None
  }

  function LeakIn(plans: seq<Plan>): Option<Name> {
    if plans == [] then None
    else if FirstStop(plans[0].visits) < |plans[0].visits| then LeakOf(plans[0].visits)
    else LeakIn(plans[1..])
  }

  function Leak(script: Script): Option<Name>
    requires script.plans != []
  {
    if script.plans[0].visits == [] then None else LeakIn(script.plans)
  }

  /* ---- the calls keep their order; only a leaked slot is left in hand ---- */

  function InHand(vs: seq<Visit>): Local { Local(Accounts(vs), None) }

  lemma {:induction false} ObeysOne(l: Local, c: Call)
    requires Enabled(l, c)
    ensures Obeys(l, [c], Apply(l, c))
  {
    assert Obeys(Apply(l, c), [], Apply(l, c));
    assert [c][1..] == [];
  }

  lemma {:induction false} ObeysTwo(l: Local, c: Call, d: Call)
    requires Enabled(l, c) && Enabled(Apply(l, c), d)
    ensures Obeys(l, [c, d], Apply(Apply(l, c), d))
  {
    hide Enabled;
    hide Apply;
    ObeysOne(Apply(l, c), d);
    assert [c, d][1..] == [d];
  }

  lemma {:induction false} ProbeObeys(e: multiset<Name>, a: Name)
    ensures Obeys(Local(e, None), ProbeCalls(a), Local(e + multiset{a}, None))
  {
    hide Obeys;
    var l, seen := Local(e, None), Local(e + multiset{a}, None);
    assert Apply(l, SeesClosed(a)) == seen && Apply(Apply(seen, Acquires(a)), Releases(a)) == seen;
    ObeysOne(l, SeesClosed(a));
    ObeysTwo(seen, Acquires(a), Releases(a));
    assert ProbeCalls(a) == [SeesClosed(a)] + [Acquires(a), Releases(a)];
    ObeysConcat(l, [SeesClosed(a)], seen, [Acquires(a), Releases(a)], seen);
  }

  lemma {:induction false} CandidateObeys(c: Candidate, e: multiset<Name>)
    ensures Obeys(Local(e, None), CandidateCalls(c), Local(e + Kept(c), None))
  {
    hide Obeys;
    if c.probed {
      ProbeObeys(e, c.account);
    } else {
      ObeysTwo(Local(e, None), SeesClosed(c.account), Discards(c.account));
      assert e + multiset{c.account} - multiset{c.account} == e == e + Kept(c);
    }
  }

  lemma {:induction false} ScanObeys(cs: seq<Candidate>, e: multiset<Name>)
    ensures Obeys(Local(e, None), ScanCalls(cs), Local(e + Probed(cs), None))
    decreases |cs|
  {
    hide Obeys;
    hide Kept;
    hide CandidateCalls;
    if cs == [] {
      ObeysNothing(Local(e, None));
      assert e + Probed(cs) == e;
    } else {
      var next := e + Kept(cs[0]);
      CandidateObeys(cs[0], e);
      ScanObeys(cs[1..], next);
      assert e + Probed(cs) == next + Probed(cs[1..]);
      ObeysConcat(Local(e, None), CandidateCalls(cs[0]), Local(next, None), ScanCalls(cs[1..]),
          Local(e + Probed(cs), None));
    }
  }

  lemma {:induction false} CutObeys(names: seq<Name>, e: multiset<Name>)
    ensures Obeys(Local(e + multiset(names), None), CutCalls(names), Local(e, None))
    decreases |names|
  {
    if names == [] {
      assert e + multiset(names) == e;
    } else {
      assert names == [names[0]] + names[1..];
      assert e + multiset(names) - multiset{names[0]} == e + multiset(names[1..]);
      CutObeys(names[1..], e);
      assert CutCalls(names)[1..] == CutCalls(names[1..]);
    }
  }

  lemma {:induction false} PlanningObeys(p: Plan)
    requires IsPlan(p)
    ensures Obeys(IDLE, PlanningCalls(p), InHand(p.visits))
  {
    hide Obeys;
    ScanObeys(p.candidates, multiset{});
    CutObeys(p.cut, Accounts(p.visits));
    assert multiset{} + Probed(p.candidates) == Accounts(p.visits) + multiset(p.cut);
    ObeysConcat(IDLE, ScanCalls(p.candidates), Local(Probed(p.candidates), None), CutCalls(p.cut), InHand(p.visits));
  }

  lemma {:induction false} LeaveObeys(vs: seq<Visit>, holding: Option<Name>)
    ensures Obeys(Local(Accounts(vs), holding), LeaveCalls(vs), Local(multiset{}, holding))
    decreases |vs|
  {
    if vs != [] {
      var calls := LeaveCalls(vs);
      assert calls[1..] == LeaveCalls(vs[1..]);
      assert Apply(Local(Accounts(vs), holding), calls[0]) == Local(Accounts(vs[1..]), holding);
      LeaveObeys(vs[1..], holding);
    }
  }

  lemma {:induction false} TakesOff(vs: seq<Visit>, c: Call)
    requires vs != [] && c.account == vs[0].account && (c.Discards? || c.Succeeds? || c.Fails?)
    ensures Enabled(InHand(vs), c) && Apply(InHand(vs), c) == InHand(vs[1..])
  {
  }

  lemma {:induction false} OutcomeObeys(vs: seq<Visit>)
    requires vs != []
    ensures Obeys(InHand(vs), OutcomeCalls(vs[0]), InHand(vs[1..]))
  {
    hide Outcome;
    hide Obeys;
    hide InHand;
    var c := Outcome(vs[0]);
    TakesOff(vs, c);
    ObeysOne(InHand(vs), c);
    if c.Fails? {
      ObeysOne(InHand(vs[1..]), ChecksLockout(vs[0].account));
      ObeysConcat(InHand(vs), [c], InHand(vs[1..]), [ChecksLockout(vs[0].account)], InHand(vs[1..]));
    } else {
      assert OutcomeCalls(vs[0]) == [c];
    }
  }

  lemma {:induction false} VisitObeys(vs: seq<Visit>)
    requires vs != []
    ensures var holding := if Crashes(vs[0]) then Some(vs[0].account) else None;
            Obeys(InHand(vs), VisitCalls(vs[0]), Local(Accounts(Remaining(vs)), holding))
  {
    hide Obeys;
    hide OutcomeCalls;
    var l, a := InHand(vs), vs[0].account;
    if vs[0].endedBefore {
      ObeysNothing(l);
    } else if !vs[0].acquired {
      TakesOff(vs, Discards(a));
      ObeysOne(l, Discards(a));
    } else if Panics(vs[0]) {
      ObeysOne(l, Acquires(a));
    } else {
      ObeysTwo(l, Acquires(a), Releases(a));
      OutcomeObeys(vs);
      ObeysConcat(l, [Acquires(a), Releases(a)], l, OutcomeCalls(vs[0]), InHand(vs[1..]));
    }
  }

  lemma {:induction false} RunObeys(vs: seq<Visit>)
    ensures Obeys(InHand(vs), RunCalls(vs), Local(multiset{}, LeakOf(vs)))
    decreases |vs|
  {
    hide Obeys;
    hide VisitCalls;
    if vs == [] {
      ObeysNothing(IDLE);
    } else {
      var left, holding := Remaining(vs), if Crashes(vs[0]) then Some(vs[0].account) else None;
      var end := Local(multiset{}, LeakOf(vs));
      VisitObeys(vs);
      LeakStep(vs);
      if Passed(vs[0]) {
        RunObeys(left);
        ObeysConcat(InHand(vs), VisitCalls(vs[0]), InHand(left), RunCalls(left), end);
      } else {
        LeaveObeys(left, holding);
        ObeysConcat(InHand(vs), VisitCalls(vs[0]), Local(Accounts(left), holding), LeaveCalls(left), end);
      }
    }
  }

  lemma {:induction false} LeakStep(vs: seq<Visit>)
    requires vs != []
    ensures Passed(vs[0]) ==> Remaining(vs) == vs[1..] && LeakOf(vs) == LeakOf(vs[1..]) && !Crashes(vs[0])
    ensures !Passed(vs[0]) ==> LeakOf(vs) == if Crashes(vs[0]) then Some(vs[0].account) else None
  {
  }

  lemma {:induction false} ScriptObeys(plans: seq<Plan>)
    requires forall i :: 0 <= i < |plans| ==> IsPlan(plans[i])
    ensures Obeys(IDLE, ScriptCalls(plans), Local(multiset{}, LeakIn(plans)))
    decreases |plans|
  {
    hide Obeys;
    hide IsPlan;
    hide RunCalls;
    hide PlanningCalls;
    hide LeakOf;
    if plans == [] {
      ObeysNothing(IDLE);
    } else {
      var p, end := plans[0], Local(multiset{}, LeakIn(plans));
      PlanningObeys(p);
      RunObeys(p.visits);
      if FirstStop(p.visits) < |p.visits| {
        assert RunCalls(p.visits) + [] == RunCalls(p.visits);
        ObeysConcat(IDLE, PlanningCalls(p), InHand(p.visits), RunCalls(p.visits), end);
      } else {
        NoLeakUnlessStopped(p.visits);
        ScriptObeys(plans[1..]);
        ObeysConcat(InHand(p.visits), RunCalls(p.visits), IDLE, ScriptCalls(plans[1..]), end);
        ObeysConcat(IDLE, PlanningCalls(p), InHand(p.visits), RunCalls(p.visits) + ScriptCalls(plans[1..]), end);
      }
    }
  }

  lemma {:induction false} NoLeakUnlessStopped(vs: seq<Visit>)
    requires FirstStop(vs) == |vs|
    ensures LeakOf(vs) == None
  {
  }

  /** For every script the calls of the loop are in order: a slot is taken only for an account in
      hand and given back before anything else, and at the end nothing is in hand but the slot of an
      attempt that panicked. */
  lemma {:induction false} LoopObeys(script: Script)
    requires IsScript(script)
    ensures Obeys(IDLE, LoopCalls(script), Local(multiset{}, Leak(script)))
  {
    var p := script.plans[0];
    if p.visits == [] { PlanningObeys(p); } else { ScriptObeys(script.plans); }
  }

  lemma {:induction false} ObeysNothing(l: Local)
    ensures Obeys(l, [], l)
  {
  }

  /* ---- the loop ---- */

  /** How an attempt ends for the loop; after a panic there is no loop left to tell. */
  datatype Ending = Returns(status: int, committed: bool) | Panicked

  /** One attempt. An attempt that returns uncommitted leaves the client's response untouched. */
  method Try(v: Visit, x: Exchange) returns (ending: Ending, y: Exchange)
    requires v.acquired && !v.endedBefore
    ensures ending == if Panics(v) then Panicked else Returns(StatusOf(v), !GivesUp(v))
    ensures y == x.(written := x.written + ReplyOf(v), headersFrom := x.headersFrom + HeadersOf(v))
    ensures ending.Returns? && !ending.committed ==> y == x
  {
    y := x;
    if v.upstream.NoAdapter? { return Returns(0, false), y; }
    if v.upstream.ContextError? || v.upstream.InvalidError? || v.upstream.OtherError? {
      if v.upstream.ContextError? || v.endedDuring { return Returns(0, true), y; }
      if v.upstream.InvalidError? {
        y := y.(written := y.written + [400]);
        return Returns(400, true), y;
      }
      return Returns(0, false), y;
    }
    if v.upstream.NoBody? { return Returns(0, false), y; }
    if v.upstream.status == 429 || v.upstream.status >= 500 { return Returns(v.upstream.status, false), y; }
    if v.upstream.rewriteFails { return Returns(0, false), y; }
    y := y.(headersFrom := y.headersFrom + [v.account]);
    if v.upstream.status < 100 { return Panicked, y; }
    y := y.(written := y.written + [v.upstream.status]);
    return Returns(v.upstream.status, true), y;
  }

  /** One iteration over a plan. */
  method Attend(v: Visit, x: Exchange) returns (stopped: bool, y: Exchange)
    ensures stopped <==> !Passed(v)
    ensures y.attempts == x.attempts + AttemptOf(v) && y.calls == x.calls + VisitCalls(v)
    ensures y.written == x.written + ReplyOf(v) && y.headersFrom == x.headersFrom + HeadersOf(v)
    ensures y.cooled == x.cooled + (if stopped then [] else CooledOf(v))
    ensures y.failed == x.failed + (if stopped then [] else FailedOf(v))
    ensures y.good == if GoodOf(v).Some? then GoodOf(v) else x.good
  {
    y := x;
    if v.endedBefore { return true, y; }
    if !v.acquired {
      y := y.(attempts := y.attempts + [Attempt(v.account, None)], calls := y.calls + [Discards(v.account)]);
      return false, y;
    }
    y := y.(calls := y.calls + [Acquires(v.account)]);
    var ending: Ending;
    ending, y := Try(v, y);
    if ending.Panicked? { return true, y; }
    y := y.(calls := y.calls + [Releases(v.account)],
            attempts := y.attempts + [Attempt(v.account, Some(ending.status))]);
    assert y.calls == x.calls + [Acquires(v.account), Releases(v.account)];
    stopped, y := Settle(v, y, ending.status, ending.committed);
    assert y.calls == x.calls + ([Acquires(v.account), Releases(v.account)] + OutcomeCalls(v));
  }

  /** What follows an attempt: success, a committed failure, a cooldown or a counted failure, with
      exactly the calls this needs. */
  method Settle(v: Visit, x: Exchange, status: int, committed: bool) returns (stopped: bool, y: Exchange)
    requires v.acquired && !v.endedBefore && !Panics(v) && status == StatusOf(v) && (committed <==> !GivesUp(v))
    ensures stopped <==> !Passed(v)
    ensures y == x.(cooled := y.cooled, failed := y.failed, good := y.good, calls := x.calls + OutcomeCalls(v))
    ensures y.cooled == x.cooled + (if stopped then [] else CooledOf(v))
    ensures y.failed == x.failed + (if stopped then [] else FailedOf(v))
    ensures y.good == if GoodOf(v).Some? then GoodOf(v) else x.good
  {
    var a := v.account;
    y := x;
    if v.endedAfter {
      y := y.(calls := y.calls + [Discards(a)]);
      return true, y;
    }
    if 200 <= status < 500 && status != 429 {
      y := y.(calls := y.calls + [Succeeds(a)], good := Some(a));
      return true, y;
    }
    if committed {
      y := y.(calls := y.calls + [Discards(a)]);
      return true, y;
    }
    if status == 429 {
      y := y.(calls := y.calls + [Discards(a)], cooled := y.cooled + [a]);
    } else if status >= 500 || status == 0 {
      y := y.(calls := y.calls + [Fails(a), ChecksLockout(a)], failed := y.failed + [a]);
    }
    return false, y;
  }

  /** The request still has everything ahead of it: nothing sent, nobody credited. */
  predicate Unanswered(x: Exchange) { x.written == [] && x.headersFrom == [] && x.good.None? }

  /** How the exchange stands after the visits up to the first stop. */
  predicate Visited(x: Exchange, vs: seq<Visit>, y: Exchange) {
    var n := FirstStop(vs);
    && y.attempts == x.attempts + Collect(if n < |vs| then vs[..n + 1] else vs, AttemptOf)
    && y.cooled == x.cooled + Collect(vs[..n], CooledOf)
    && y.failed == x.failed + Collect(vs[..n], FailedOf)
    && (n < |vs| ==> y.written == ReplyOf(vs[n]) && y.headersFrom == HeadersOf(vs[n]) && y.good == GoodOf(vs[n]))
    && (n == |vs| ==> Unanswered(y))
  }

  /** The visits before some point have all been passed. */
  predicate AllPassed(x: Exchange, vs: seq<Visit>, y: Exchange) {
    && Unanswered(y) && FirstStop(vs) == |vs|
    && y.attempts == x.attempts + Collect(vs, AttemptOf)
    && y.cooled == x.cooled + Collect(vs, CooledOf)
    && y.failed == x.failed + Collect(vs, FailedOf)
  }

  lemma {:induction false} PassOne(x: Exchange, vs: seq<Visit>, y: Exchange, v: Visit, z: Exchange)
    requires AllPassed(x, vs, y) && Passed(v) && Unanswered(z)
    requires z.attempts == y.attempts + AttemptOf(v) && z.cooled == y.cooled + CooledOf(v)
    requires z.failed == y.failed + FailedOf(v)
    ensures AllPassed(x, vs + [v], z)
  {
    hide AttemptOf;
    hide CooledOf;
    hide FailedOf;
    hide Passed;
    StopUnique(vs + [v], |vs| + 1);
    CollectConcat(vs, [v], AttemptOf);
    CollectConcat(vs, [v], CooledOf);
    CollectConcat(vs, [v], FailedOf);
    CollectOne(v, AttemptOf);
    CollectOne(v, CooledOf);
    CollectOne(v, FailedOf);
  }

  lemma {:induction false} PassedQuietly(v: Visit)
    requires Passed(v)
    ensures !v.endedBefore && ReplyOf(v) == [] && HeadersOf(v) == [] && GoodOf(v).None?
  {
  }

  lemma {:induction false} CollectOne<T>(v: Visit, f: Visit -> seq<T>)
    ensures Collect([v], f) == f(v)
  {
    assert Collect([v][1..], f) == [];
  }

  lemma {:induction false} StopOne(x: Exchange, vs: seq<Visit>, y: Exchange, v: Visit, rest: seq<Visit>, z: Exchange)
    requires AllPassed(x, vs, y) && !Passed(v)
    requires z.attempts == y.attempts + AttemptOf(v) && z.cooled == y.cooled && z.failed == y.failed
    requires z.written == ReplyOf(v) && z.headersFrom == HeadersOf(v) && z.good == GoodOf(v)
    ensures Visited(x, vs + [v] + rest, z) && FirstStop(vs + [v] + rest) == |vs|
  {
    hide AttemptOf;
    hide Passed;
    var all := vs + [v] + rest;
    StopUnique(all, |vs|);
    assert all[..|vs| + 1] == vs + [v] && all[..|vs|] == vs;
    CollectConcat(vs, [v], AttemptOf);
    CollectOne(v, AttemptOf);
  }

  lemma {:induction false} StopPlan(x: Exchange, before: seq<Visit>, plan: seq<Visit>, j: nat, y: Exchange, z: Exchange)
    requires j < |plan| && AllPassed(x, before + plan[..j], y) && !Passed(plan[j])
    requires forall i :: 0 <= i < j ==> Passed(plan[i])
    requires z.attempts == y.attempts + AttemptOf(plan[j]) && z.cooled == y.cooled && z.failed == y.failed
    requires z.written == ReplyOf(plan[j]) && z.headersFrom == HeadersOf(plan[j]) && z.good == GoodOf(plan[j])
    ensures FirstStop(plan) == j && StopsWithin(x, before + plan, z)
  {
    hide AttemptOf;
    hide Passed;
    hide ReplyOf;
    hide HeadersOf;
    hide GoodOf;
    hide Visited;
    hide AllPassed;
    hide FirstStop;
    StopUnique(plan, j);
    forall rest ensures Visited(x, before + plan + rest, z) && FirstStop(before + plan + rest) < |before + plan| {
      Regroup(before, plan, j, rest);
      StopOne(x, before + plan[..j], y, plan[j], plan[j + 1..] + rest, z);
    }
  }

  lemma {:induction false} Regroup(before: seq<Visit>, plan: seq<Visit>, j: nat, rest: seq<Visit>)
    requires j < |plan|
    ensures before + plan + rest == before + plan[..j] + [plan[j]] + (plan[j + 1..] + rest)
  {
    assert plan == plan[..j] + [plan[j]] + plan[j + 1..];
  }

  /** The loop ends among these visits, whatever would follow. */
  ghost predicate StopsWithin(x: Exchange, vs: seq<Visit>, y: Exchange) {
    forall rest :: Visited(x, vs + rest, y) && FirstStop(vs + rest) < |vs|
  }

  /** One visit of the calls of a plan. */
  lemma {:induction false} RunCallsStep(done: seq<Call>, vs: seq<Visit>, all: seq<Call>)
    requires vs != [] && done + RunCalls(vs) == all
    ensures Passed(vs[0]) ==> done + VisitCalls(vs[0]) + RunCalls(vs[1..]) == all
    ensures !Passed(vs[0]) ==>
              done + VisitCalls(vs[0]) + LeaveCalls(Remaining(vs)) == all
  {
    hide VisitCalls;
    hide LeaveCalls;
    hide Passed;
    var v, left := vs[0], Remaining(vs);
    CallsAssoc(done, VisitCalls(v), RunCalls(vs[1..]));
    CallsAssoc(done, VisitCalls(v), LeaveCalls(left));
  }

  lemma {:induction false} CallsAssoc(a: seq<Call>, b: seq<Call>, c: seq<Call>)
    ensures a + b + c == a + (b + c)
  {
  }

  /** What the inner loop owes: it stops at the first visit of the plan it does not pass, and its calls
      are those of the plan's visits up to there. */
  ghost predicate PlanRun(start: Exchange, before: seq<Visit>, plan: seq<Visit>, x: Exchange, stopped: bool,
                          y: Exchange) {
    && y.calls == x.calls + RunCalls(plan)
    && (stopped <==> FirstStop(plan) < |plan|)
    && (if stopped then StopsWithin(start, before + plan, y) else AllPassed(start, before + plan, y))
  }

  /** The inner loop over one plan, after visits that were all passed. */
  method RunPlan(before: seq<Visit>, plan: seq<Visit>, start: Exchange, x: Exchange)
    returns (stopped: bool, y: Exchange)
    requires AllPassed(start, before, x)
    ensures PlanRun(start, before, plan, x, stopped, y)
  {
    hide Passed;
    hide Collect;
    hide AttemptOf;
    hide CooledOf;
    hide FailedOf;
    hide ReplyOf;
    hide HeadersOf;
    hide GoodOf;
    hide StopsWithin;
    hide FirstStop;
    hide VisitCalls;
    hide Remaining;
    hide LeaveCalls;
    y := x;
    var j := 0;
    assert before + plan[..0] == before && plan[0..] == plan;
    while j < |plan|
      invariant 0 <= j <= |plan| && y.calls + RunCalls(plan[j..]) == x.calls + RunCalls(plan)
      invariant AllPassed(start, before + plan[..j], y) && forall i :: 0 <= i < j ==> Passed(plan[i])
    {
      ghost var y0 := y;
      RunCallsStep(y.calls, plan[j..], x.calls + RunCalls(plan));
      assert plan[j..][1..] == plan[j + 1..];
      stopped, y := Attend(plan[j], y);
      if stopped {
        y := y.(calls := y.calls + LeaveCalls(Remaining(plan[j..])));
        StopPlan(start, before, plan, j, y0, y);
        return;
      }
      PassedQuietly(plan[j]);
      PassOne(start, before + plan[..j], y0, plan[j], y);
      assert before + plan[..j] + [plan[j]] == before + plan[..j + 1];
      j := j + 1;
    }
    assert plan[..|plan|] == plan && plan[|plan|..] == [];
    StopUnique(plan, |plan|);
    return false, y;
  }

  /** All visits in order. */
  function Flatten(plans: seq<Plan>): seq<Visit> {
    if plans == [] then [] else Flatten(plans[..|plans| - 1]) + plans[|plans| - 1].visits
  }

  /** What the client is owed: "no account" if the first alias has no plan; the reply of the first
      visit the loop does not pass; "all failed" if it passes all of them and the client is there. */
  function Reply(script: Script): (r: seq<int>)
    requires script.plans != []
    ensures |r| <= 1
  {
    var vs := Flatten(script.plans);
    var n := FirstStop(vs);
    if script.plans[0].visits == [] then [503]
    else if n < |vs| then ReplyOf(vs[n])
    else if script.endedAtEnd then [] else [502]
  }

  lemma {:induction false} FlattenPrefix(plans: seq<Plan>, i: nat) returns (rest: seq<Visit>)
    requires i <= |plans|
    ensures Flatten(plans) == Flatten(plans[..i]) + rest
    decreases |plans| - i
  {
    if i == |plans| {
      assert plans[..i] == plans;
      rest := [];
    } else {
      var later := FlattenPrefix(plans, i + 1);
      assert plans[..i + 1][..i] == plans[..i];
      rest := plans[i].visits + later;
    }
  }

  /** What the loop owes a script: exactly the response the client is owed (so at most one), no visit
      after the stop, headers only from the attempt committed to, cooled and failed accounts exactly
      those given up on, and exactly the calls the script asks for. */
  predicate Served(script: Script, x: Exchange)
    requires script.plans != []
  {
    var vs := Flatten(script.plans);
    && x.written == Reply(script)
    && x.calls == LoopCalls(script)
    && (if script.plans[0].visits == [] then x == FRESH.(written := [503], calls := x.calls)
        else if FirstStop(vs) < |vs| then Visited(FRESH, vs, x)
        else AllPassed(FRESH, vs, x.(written := [])))
  }

  /** The loop over the aliases: what it owes, for every script. */
  method Serve(script: Script) returns (x: Exchange)
    requires script.plans != []
    ensures Served(script, x)
  {
    hide Served;
    hide Ongoing;
    hide PlanRun;
    x := FRESH;
    OngoingFirst(script);
    var i := 0;
    while i < |script.plans|
      invariant 0 <= i <= |script.plans| && Ongoing(script, i, x)
    {
      var plan := script.plans[i];
      ghost var before := x;
      x := x.(calls := x.calls + PlanningCalls(plan));
      if plan.visits == [] {
        if i == 0 {
          x := x.(written := [503]);
          NoFirstPlan(script, before);
          return;
        }
        SkipPlan(script, i, before);
      } else {
        var stopped: bool;
        OngoingPassed(script, i, before);
        stopped, x := RunPlan(Flatten(script.plans[..i]), plan.visits, FRESH, x);
        AfterPlan(script, i, before, x, stopped);
        if stopped { return; }
      }
      i := i + 1;
    }
    OngoingLast(script, x);
    if script.endedAtEnd { return; }
    x := x.(written := [502]);
  }

  /** The aliases before i have been tried in vain. */
  predicate Ongoing(script: Script, i: nat, x: Exchange)
    requires script.plans != [] && i <= |script.plans|
  {
    && AllPassed(FRESH, Flatten(script.plans[..i]), x)
    && x.calls + ScriptCalls(script.plans[i..]) == ScriptCalls(script.plans)
    && (if i == 0 then x == FRESH else script.plans[0].visits != [])
  }

  lemma {:induction false} OngoingFirst(script: Script)
    requires script.plans != []
    ensures Ongoing(script, 0, FRESH)
  {
    hide AllPassed;
    NothingVisited();
    assert script.plans[..0] == [] && script.plans[0..] == script.plans;
    assert Flatten([]) == [] && [] + ScriptCalls(script.plans) == ScriptCalls(script.plans);
    hide ScriptCalls;
    hide Flatten;
  }

  lemma {:induction false} NoFirstPlan(script: Script, x: Exchange)
    requires script.plans != [] && script.plans[0].visits == [] && Ongoing(script, 0, x)
    ensures Served(script, x.(written := [503], calls := x.calls + PlanningCalls(script.plans[0])))
  {
    hide PlanningCalls;
  }

  lemma {:induction false} SkipPlan(script: Script, i: nat, x: Exchange)
    requires 0 < i < |script.plans| && script.plans[i].visits == [] && Ongoing(script, i, x)
    ensures Ongoing(script, i + 1, x.(calls := x.calls + PlanningCalls(script.plans[i])))
  {
    hide PlanningCalls;
    hide ScriptCalls;
    hide AllPassed;
    FlattenStep(script.plans, i);
    ScriptCallsStep(x.calls, script.plans[i..], ScriptCalls(script.plans));
    CallsAside(FRESH, Flatten(script.plans[..i]), x, x.calls + PlanningCalls(script.plans[i]));
    NoVisits(script.plans[i]);
  }

  lemma {:induction false} OngoingPassed(script: Script, i: nat, x: Exchange)
    requires i < |script.plans| && Ongoing(script, i, x)
    ensures AllPassed(FRESH, Flatten(script.plans[..i]), x.(calls := x.calls + PlanningCalls(script.plans[i])))
  {
    hide AllPassed;
    CallsAside(FRESH, Flatten(script.plans[..i]), x, x.calls + PlanningCalls(script.plans[i]));
  }

  lemma {:induction false} AfterPlan(script: Script, i: nat, x: Exchange, y: Exchange, stopped: bool)
    requires i < |script.plans| && script.plans[i].visits != [] && Ongoing(script, i, x)
    requires PlanRun(FRESH, Flatten(script.plans[..i]), script.plans[i].visits,
                     x.(calls := x.calls + PlanningCalls(script.plans[i])), stopped, y)
    ensures if stopped then Served(script, y) else Ongoing(script, i + 1, y)
  {
    hide PlanningCalls;
    hide RunCalls;
    hide ScriptCalls;
    hide AllPassed;
    hide StopsWithin;
    hide Visited;
    hide FirstStop;
    hide ReplyOf;
    FlattenStep(script.plans, i);
    ScriptCallsStep(x.calls, script.plans[i..], ScriptCalls(script.plans));
    if stopped { StopsInScript(script.plans, i + 1, y); }
  }

  lemma {:induction false} OngoingLast(script: Script, x: Exchange)
    requires script.plans != [] && Ongoing(script, |script.plans|, x)
    ensures Served(script, if script.endedAtEnd then x else x.(written := [502]))
  {
    hide AllPassed;
    assert script.plans[..|script.plans|] == script.plans && script.plans[|script.plans|..] == [];
    PassedToTheEnd(FRESH, Flatten(script.plans), x);
    assert x.(written := [502]).(written := []) == x;
  }

  lemma {:induction false} NothingVisited()
    ensures AllPassed(FRESH, [], FRESH)
  {
  }

  /** The calls are accounted for apart from the visits. */
  lemma {:induction false} CallsAside(start: Exchange, vs: seq<Visit>, x: Exchange, calls: seq<Call>)
    requires AllPassed(start, vs, x)
    ensures AllPassed(start, vs, x.(calls := calls))
  {
  }

  lemma {:induction false} PassedToTheEnd(start: Exchange, vs: seq<Visit>, x: Exchange)
    requires AllPassed(start, vs, x)
    ensures FirstStop(vs) == |vs| && x.written == [] && AllPassed(start, vs, x.(written := []))
  {
  }

  lemma {:induction false} FlattenStep(plans: seq<Plan>, i: nat)
    requires i < |plans|
    ensures Flatten(plans[..i + 1]) == Flatten(plans[..i]) + plans[i].visits && plans[i..][1..] == plans[i + 1..]
    ensures plans[i].visits == [] ==> Flatten(plans[..i + 1]) == Flatten(plans[..i])
  {
    assert plans[..i + 1][..i] == plans[..i];
  }

  lemma {:induction false} StopsInScript(plans: seq<Plan>, i: nat, x: Exchange)
    requires i <= |plans| && StopsWithin(FRESH, Flatten(plans[..i]), x)
    ensures var vs := Flatten(plans);
            FirstStop(vs) < |vs| && Visited(FRESH, vs, x) && x.written == ReplyOf(vs[FirstStop(vs)])
  {
    var rest := FlattenPrefix(plans, i);
    assert Visited(FRESH, Flatten(plans[..i]) + rest, x);
  }

  lemma {:induction false} ScriptCallsStep(done: seq<Call>, plans: seq<Plan>, all: seq<Call>)
    requires plans != [] && done + ScriptCalls(plans) == all
    ensures var p := plans[0];
            var after := done + PlanningCalls(p) + RunCalls(p.visits);
            if FirstStop(p.visits) < |p.visits| then after == all else after + ScriptCalls(plans[1..]) == all
  {
    hide PlanningCalls;
    hide RunCalls;
    hide FirstStop;
  }

  lemma {:induction false} NoVisits(p: Plan)
    requires p.visits == []
    ensures RunCalls(p.visits) == [] && FirstStop(p.visits) == 0
  {
  }

  /* ---- exactly one response ---- */

  /** The client's context never ends while the request runs. */
  predicate Alive(script: Script) {
    && !script.endedAtEnd
    && forall v :: v in Flatten(script.plans) ==> !v.endedBefore && !v.endedDuring && !v.endedAfter
  }

  /** An attempt reached after all earlier visits were passed. */
  predicate Reached(vs: seq<Visit>, i: nat)
    requires i < |vs|
  {
    !vs[i].endedBefore && vs[i].acquired && forall j :: 0 <= j < i ==> Passed(vs[j])
  }

  /** A reached attempt fails with a context error of its own, or answers with a status too low to send. */
  predicate ReachesSilence(vs: seq<Visit>) {
    exists i :: 0 <= i < |vs| && Reached(vs, i) && (vs[i].upstream.ContextError? || Panics(vs[i]))
  }

  predicate ReachesPanic(vs: seq<Visit>) { exists i :: 0 <= i < |vs| && Reached(vs, i) && Panics(vs[i]) }

  /** A client that stays gets exactly one response unless a reached attempt fails with a context error
      of its own, when the loop returns in silence, or answers with a status below 100, when the
      handler panics. */
  lemma {:induction false} OneResponseIff(script: Script)
    requires script.plans != [] && Alive(script)
    ensures |Reply(script)| == 1
            <==> script.plans[0].visits == [] || !ReachesSilence(Flatten(script.plans))
  {
    var vs := Flatten(script.plans);
    var n := FirstStop(vs);
    if n < |vs| {
      assert vs[n] in vs;
      assert Reached(vs, n) && !GivesUp(vs[n]);
    }
    if i :| 0 <= i < |vs| && Reached(vs, i) && (vs[i].upstream.ContextError? || Panics(vs[i])) { StopUnique(vs, i); }
  }

  lemma {:induction false} FlattenCons(plans: seq<Plan>)
    requires plans != []
    ensures Flatten(plans) == plans[0].visits + Flatten(plans[1..])
    decreases |plans|
  {
    var front, last := plans[..|plans| - 1], plans[|plans| - 1];
    if front == [] {
      assert plans[1..] == [] && Flatten(front) == [] && plans[0].visits + [] == plans[0].visits;
    } else {
      FlattenCons(front);
      assert plans[1..][..|plans| - 2] == front[1..] && front[0] == plans[0];
    }
  }

  lemma {:induction false} LeakConcat(a: seq<Visit>, b: seq<Visit>)
    ensures LeakOf(a + b) == if FirstStop(a) < |a| then LeakOf(a) else LeakOf(b)
  {
    hide Passed;
    hide Crashes;
    var n := FirstStop(a);
    if n < |a| {
      StopUnique(a + b, n);
    } else {
      StopUnique(a + b, |a| + FirstStop(b));
    }
  }

  lemma {:induction false} LeakInAll(plans: seq<Plan>)
    ensures LeakIn(plans) == LeakOf(Flatten(plans))
    decreases |plans|
  {
    hide LeakOf;
    if plans == [] {
      NoLeakUnlessStopped([]);
    } else {
      FlattenCons(plans);
      LeakConcat(plans[0].visits, Flatten(plans[1..]));
      LeakInAll(plans[1..]);
    }
  }

  /** The loop leaves a slot taken exactly when a reached attempt answers with a status below 100. */
  lemma {:induction false} LeaksIff(script: Script)
    requires script.plans != []
    ensures Leak(script) == None <==> script.plans[0].visits == [] || !ReachesPanic(Flatten(script.plans))
  {
    var vs := Flatten(script.plans);
    var n := FirstStop(vs);
    LeakInAll(script.plans);
    if i :| 0 <= i < |vs| && Reached(vs, i) && Panics(vs[i]) { StopUnique(vs, i); }
    if n < |vs| && Crashes(vs[n]) { assert Reached(vs, n); }
  }

  /** One account, tried once, with the client there all the time. */
  function Once(a: Name, upstream: Upstream): Script {
    Script([Plan([Candidate(a, true)], [], [Visit(a, false, true, upstream, false, false)])], false)
  }

  lemma {:induction false} OnceVisits(a: Name, upstream: Upstream)
    ensures var script := Once(a, upstream);
            IsScript(script) && Alive(script) && Flatten(script.plans) == script.plans[0].visits
  {
    var plans := Once(a, upstream).plans;
    var vs := plans[0].visits;
    assert plans[..0] == [] && Flatten(plans) == Flatten(plans[..0]) + vs == vs;
    assert vs[1..] == [] && plans[0].candidates[1..] == [];
    assert Probed([]) == multiset{} && Accounts([]) == multiset{};
    assert Probed(plans[0].candidates) == multiset{a} == Accounts(vs) + multiset(plans[0].cut);
  }

  /** "A response unless the client left" is not what the loop gives: one attempt whose
      upstream call runs into its own deadline is answered with silence. */
  lemma {:induction false} DeadlineOfUpstreamIsSilent(a: Name)
    ensures var script := Once(a, ContextError);
            IsScript(script) && Alive(script) && Reply(script) == [] && Leak(script) == None
  {
    OnceVisits(a, ContextError);
    LeakInAll(Once(a, ContextError).plans);
    StopUnique(Once(a, ContextError).plans[0].visits, 0);
  }

  /** An upstream that answers with status 42 leaves the client without a response and the account
      without a slot. */
  lemma {:induction false} LowStatusLeaksSlot(a: Name)
    ensures var script := Once(a, Answered(42, false));
            IsScript(script) && Alive(script) && Reply(script) == [] && Leak(script) == Some(a)
  {
    OnceVisits(a, Answered(42, false));
    LeakInAll(Once(a, Answered(42, false)).plans);
    StopUnique(Once(a, Answered(42, false)).plans[0].visits, 0);
  }

  /** The request is remembered as good and its usage charged. */
  function Charged(script: Script): bool
    requires script.plans != []
  {
    var vs := Flatten(script.plans);
    script.plans[0].visits != [] && FirstStop(vs) < |vs| && GoodOf(vs[FirstStop(vs)]).Some?
  }

  /** A script that charges sends a response of its own; a forwarded or rejected response is charged
      exactly if the client is still there when the attempt ends and the status is at least 200. So a
      client that leaves during the last byte is served and not charged. */
  lemma {:induction false} ChargedIffClientStays(script: Script)
    requires script.plans != []
    ensures var vs := Flatten(script.plans);
            var n := FirstStop(vs);
            && (Charged(script) ==> |Reply(script)| == 1 && Reply(script)[0] !in {502, 503})
            && (script.plans[0].visits != [] && n < |vs| && |Reply(script)| == 1 ==>
                  (Charged(script) <==> !vs[n].endedAfter && Reply(script)[0] >= 200))
  {
    var vs := Flatten(script.plans);
    var n := FirstStop(vs);
    if n < |vs| { assert !Passed(vs[n]); }
  }
}
