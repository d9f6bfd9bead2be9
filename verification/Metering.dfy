/** Per-key metering: concurrency slots, the request bucket, the token bucket whose cost is
    committed when a request ends, and the spend ledgers of keys and teams. Time is a real
    number of seconds and money a real number of dollars. */
module Metering {
  import opened Wrappers

  type Name = seq<int>

  datatype Team = Team(id: Name, budget: real, share: real, balance: real, orgBudget: Option<real>)

  datatype VirtualKey = VirtualKey(
    name: Name, maxConcurrency: int, rpm: int, tpm: int, budget: real, monthly: bool, team: Option<Team>)

  datatype Bucket = Bucket(tokens: real, last: real, rate: int)

  /** A ledger label: a calendar day or a calendar month. */
  datatype Window = Day(day: int) | Month(month: int)

  datatype Spend = Spend(window: Window, spent: real)

  /** All shards together: a key's records live in the one shard its name hashes to. */
  datatype Meter = Meter(
    inflight: map<Name, int>, buckets: map<Name, Bucket>, tpm: map<Name, Bucket>,
    spend: map<Name, Spend>, teamSpend: map<Name, Spend>)

  const EMPTY := Meter(map[], map[], map[], map[], map[])

  datatype Verdict = Allowed | ConcurrencyLimited | RateLimited | BudgetExceeded

  /** The calendar: which month a day belongs to. Months only move forward. */
  ghost predicate IsCalendar(monthOf: int -> int) { forall a, b :: a <= b ==> monthOf(a) <= monthOf(b) }

  function DayOf(now: real): int { (now / 86400.0).Floor }

  function BudgetWindow(monthly: bool, now: real, monthOf: int -> int): Window {
    if monthly then Month(monthOf(DayOf(now))) else Day(DayOf(now))
  }

  /* ---- effectiveTeamBudget ---- */

  function EffectiveTeamBudget(team: Option<Team>): real {
    if team.None? then 0.0
    else
      var t := team.value;
      var capped := if t.orgBudget.Some? && t.orgBudget.value > 0.0 && (t.budget == 0.0 || t.budget > t.orgBudget.value)
                    then t.orgBudget.value else t.budget;
      if t.balance > 0.0 && (capped == 0.0 || t.balance < capped) then t.balance else capped
  }

  lemma {:induction false} NoTeamNoBudget()
    ensures EffectiveTeamBudget(None) == 0.0
  {
  }

  /** The caps a team declares. */
  ghost function Caps(t: Team): set<real> {
    {t.budget, t.balance} + (if t.orgBudget.Some? then {t.orgBudget.value} else {})
  }

  /** The least positive cap, or no enforcement when none is positive. */
  ghost predicate IsLeastPositive(t: Team, b: real) {
    if forall c :: c in Caps(t) ==> c <= 0.0 then b <= 0.0
    else b > 0.0 && b in Caps(t) && forall c :: c in Caps(t) && c > 0.0 ==> b <= c
  }

  /** The enforced budget is the least positive of the team, organisation and balance caps exactly
      when the team budget is not negative, or no other cap is positive: a negative team budget
      silently switches the other two off. */
  lemma {:induction false} EffectiveBudgetIsLeastPositiveIff(t: Team)
    ensures IsLeastPositive(t, EffectiveTeamBudget(Some(t)))
            <==> t.budget >= 0.0 || (t.balance <= 0.0 && (t.orgBudget.Some? ==> t.orgBudget.value <= 0.0))
    ensures t.budget < 0.0 ==> EffectiveTeamBudget(Some(t)) == t.budget
  {
    var b := EffectiveTeamBudget(Some(t));
    assert t.budget in Caps(t) && t.balance in Caps(t) && (t.orgBudget.Some? ==> t.orgBudget.value in Caps(t));
    assert forall c :: c in Caps(t) ==>
        c == t.budget || c == t.balance || (t.orgBudget.Some? && c == t.orgBudget.value);
  }

  lemma {:induction false} NegativeTeamBudgetIsUnlimited()
    ensures var t := Team([1], -1.0, 0.0, 5.0, Some(7.0));
            EffectiveTeamBudget(Some(t)) == -1.0 && !IsLeastPositive(t, EffectiveTeamBudget(Some(t)))
  {
    var t := Team([1], -1.0, 0.0, 5.0, Some(7.0));
    assert t.balance in Caps(t);
  }

  /* ---- the stages of Begin ---- */

  function Refill(b: Bucket, now: real): Bucket {
    var filled := b.tokens + (now - b.last) / 60.0 * b.rate as real;
    b.(tokens := if filled > b.rate as real then b.rate as real else filled, last := now)
  }

  function Inflight(m: Meter, name: Name): int { if name in m.inflight then m.inflight[name] else 0 }

  function SlotStage(m: Meter, vk: VirtualKey): Option<Meter> {
    if vk.maxConcurrency <= 0 then Some(m)
    else if Inflight(m, vk.name) >= vk.maxConcurrency then None
    else Some(m.(inflight := m.inflight[vk.name := Inflight(m, vk.name) + 1]))
  }

  function RequestBucket(m: Meter, vk: VirtualKey, now: real): Bucket {
    Refill(if vk.name in m.buckets then m.buckets[vk.name] else Bucket(vk.rpm as real, now, vk.rpm), now)
  }

  /** The request bucket: refilled, then charged one token if it holds one. */
  function RpmStage(m: Meter, vk: VirtualKey, now: real): (r: (Meter, bool))
    ensures r.0 == m.(buckets := r.0.buckets)
  {
    if vk.rpm <= 0 then (m, true)
    else
      var b := RequestBucket(m, vk, now);
      if b.tokens < 1.0 then (m.(buckets := m.buckets[vk.name := b]), false)
      else (m.(buckets := m.buckets[vk.name := b.(tokens := b.tokens - 1.0)]), true)
  }

  function TokenBucket(m: Meter, vk: VirtualKey, now: real): Bucket {
    Refill(if vk.name in m.tpm then m.tpm[vk.name] else Bucket(vk.tpm as real, now, vk.tpm), now)
  }

  /** The token bucket: refilled and checked; its cost is charged when the request ends. */
  function TpmStage(m: Meter, vk: VirtualKey, now: real): (r: (Meter, bool))
    ensures r.0 == m.(tpm := r.0.tpm)
  {
    if vk.tpm <= 0 then (m, true)
    else
      var b := TokenBucket(m, vk, now);
      (m.(tpm := m.tpm[vk.name := b]), b.tokens >= 1.0)
  }

  /** A ledger lookup; a record of another window is deleted and counts as nothing. */
  function LedgerLookup(ledger: map<Name, Spend>, name: Name, window: Window): (map<Name, Spend>, real) {
    if name !in ledger then (ledger, 0.0)
    else if ledger[name].window != window then (ledger - {name}, 0.0)
    else (ledger, ledger[name].spent)
  }

  function KeyBudgetStage(m: Meter, vk: VirtualKey, now: real, monthOf: int -> int, limit: real): (r: (Meter, bool))
    ensures r.0 == m.(spend := r.0.spend)
  {
    if limit <= 0.0 then (m, true)
    else
      var looked := LedgerLookup(m.spend, vk.name, BudgetWindow(vk.monthly, now, monthOf));
      (m.(spend := looked.0), looked.1 < limit)
  }

  function TeamBudgetStage(m: Meter, vk: VirtualKey, now: real): (r: (Meter, bool))
    ensures r.0 == m.(teamSpend := r.0.teamSpend)
  {
    var budget := EffectiveTeamBudget(vk.team);
    if budget <= 0.0 || vk.team.None? then (m, true)
    else
      var looked := LedgerLookup(m.teamSpend, vk.team.value.id, Day(DayOf(now)));
      (m.(teamSpend := looked.0), looked.1 < budget)
  }

  function ShareOf(vk: VirtualKey): real { if vk.team.Some? then vk.team.value.share else 0.0 }

  function BudgetStages(m: Meter, vk: VirtualKey, now: real, monthOf: int -> int): (r: (Meter, bool))
    ensures r.0.inflight == m.inflight && r.0.buckets == m.buckets && r.0.tpm == m.tpm
  {
    var key := KeyBudgetStage(m, vk, now, monthOf, vk.budget);
    if !key.1 then key
    else
      var team := TeamBudgetStage(key.0, vk, now);
      if !team.1 then team else KeyBudgetStage(team.0, vk, now, monthOf, ShareOf(vk))
  }

  /** The slot, request and token stages. */
  function RateStages(m: Meter, vk: VirtualKey, now: real): (r: (Meter, Verdict))
    ensures r.0.spend == m.spend && r.0.teamSpend == m.teamSpend && r.1 != BudgetExceeded
  {
    var slot := SlotStage(m, vk);
    if slot.None? then (m, ConcurrencyLimited)
    else
      var rpm := RpmStage(slot.value, vk, now);
      if !rpm.1 then (rpm.0, RateLimited)
      else
        var tpm := TpmStage(rpm.0, vk, now);
        (tpm.0, if tpm.1 then Allowed else RateLimited)
  }

  /** Auth.Begin: the stages in order; a refusal keeps what earlier stages changed. */
  function BeginMeter(m: Meter, vk: VirtualKey, now: real, monthOf: int -> int): (Meter, Verdict) {
    var rates := RateStages(m, vk, now);
    if rates.1 != Allowed then rates
    else
      var budgets := BudgetStages(rates.0, vk, now, monthOf);
      (budgets.0, if budgets.1 then Allowed else BudgetExceeded)
  }

  /* ---- the parts of Finalize ---- */

  function ReleaseSlot(m: Meter, vk: VirtualKey): Meter {
    if Inflight(m, vk.name) > 0 then m.(inflight := m.inflight[vk.name := Inflight(m, vk.name) - 1]) else m
  }

  function ChargeTokens(m: Meter, vk: VirtualKey, now: real, tokens: int): (t: Meter)
    ensures t == m.(tpm := t.tpm)
  {
    if vk.tpm <= 0 || tokens <= 0 then m
    else
      var b := TokenBucket(m, vk, now);
      m.(tpm := m.tpm[vk.name := b.(tokens := b.tokens - tokens as real)])
  }

  function AddSpend(ledger: map<Name, Spend>, name: Name, window: Window, cost: real): map<Name, Spend> {
    ledger[name := Spend(window, LedgerLookup(ledger, name, window).1 + cost)]
  }

  function ChargeKey(m: Meter, vk: VirtualKey, now: real, monthOf: int -> int, cost: real): (t: Meter)
    ensures t == m.(spend := t.spend)
  {
    if (vk.budget > 0.0 || ShareOf(vk) > 0.0) && cost > 0.0
    then m.(spend := AddSpend(m.spend, vk.name, BudgetWindow(vk.monthly, now, monthOf), cost))
    else m
  }

  function ChargeTeam(m: Meter, vk: VirtualKey, now: real, cost: real): (t: Meter)
    ensures t == m.(teamSpend := t.teamSpend)
  {
    if vk.team.Some? && EffectiveTeamBudget(vk.team) > 0.0 && cost > 0.0
    then m.(teamSpend := AddSpend(m.teamSpend, vk.team.value.id, Day(DayOf(now)), cost))
    else m
  }

  /** Auth.Finalize */
  function FinalizeMeter(m: Meter, vk: VirtualKey, now: real, monthOf: int -> int, tokens: int, cost: real,
                         committed: bool): Meter {
    var released := ReleaseSlot(m, vk);
    if !committed || (tokens <= 0 && cost <= 0.0) then released
    else ChargeTeam(ChargeKey(ChargeTokens(released, vk, now, tokens), vk, now, monthOf, cost), vk, now, cost)
  }

  /** Auth: the maps updated in place, stage by stage, as the two methods do. */
  class Auth {
    var inflight: map<Name, int>
    var buckets: map<Name, Bucket>
    var tpm: map<Name, Bucket>
    var spend: map<Name, Spend>
    var teamSpend: map<Name, Spend>

    ghost function View(): Meter
      reads this
    {
      Meter(inflight, buckets, tpm, spend, teamSpend)
    }

    constructor ()
      ensures View() == EMPTY
    {
      inflight, buckets, tpm, spend, teamSpend := map[], map[], map[], map[], map[];
    }

    method SpendFor(name: Name, window: Window) returns (spent: real)
      modifies `spend
      ensures (spend, spent) == LedgerLookup(old(spend), name, window)
    {
      if name !in spend { return 0.0; }
      if spend[name].window != window {
        spend := spend - {name};
        return 0.0;
      }
      return spend[name].spent;
    }

    method TeamSpendFor(id: Name, window: Window) returns (spent: real)
      modifies `teamSpend
      ensures (teamSpend, spent) == LedgerLookup(old(teamSpend), id, window)
    {
      if id !in teamSpend { return 0.0; }
      if teamSpend[id].window != window {
        teamSpend := teamSpend - {id};
        return 0.0;
      }
      return teamSpend[id].spent;
    }

    method Begin(vk: VirtualKey, now: real, monthOf: int -> int) returns (verdict: Verdict)
      modifies this
      ensures (View(), verdict) == BeginMeter(old(View()), vk, now, monthOf)
    {
      hide RpmStage;
      hide TpmStage;
      hide BudgetStages;
      if vk.maxConcurrency > 0 {
        var cur := if vk.name in inflight then inflight[vk.name] else 0;
        if cur >= vk.maxConcurrency { return ConcurrencyLimited; }
        inflight := inflight[vk.name := cur + 1];
      }
      var ok := TakeRequest(vk, now);
      if !ok { return RateLimited; }
      ok := CheckTokens(vk, now);
      if !ok { return RateLimited; }
      verdict := CheckBudgets(vk, now, monthOf);
    }

    /** The request bucket: refill, then take one token if there is one. */
    method TakeRequest(vk: VirtualKey, now: real) returns (ok: bool)
      modifies `buckets
      ensures (View(), ok) == RpmStage(old(View()), vk, now)
    {
      hide Refill;
      if vk.rpm <= 0 { return true; }
      var b := if vk.name in buckets then buckets[vk.name] else Bucket(vk.rpm as real, now, vk.rpm);
      b := Refill(b, now);
      ok := b.tokens >= 1.0;
      if ok { b := b.(tokens := b.tokens - 1.0); }
      buckets := buckets[vk.name := b];
    }

    /** The token bucket: refill, and look whether there is a token left. */
    method CheckTokens(vk: VirtualKey, now: real) returns (ok: bool)
      modifies `tpm
      ensures (View(), ok) == TpmStage(old(View()), vk, now)
    {
      hide Refill;
      if vk.tpm <= 0 { return true; }
      var b := if vk.name in tpm then tpm[vk.name] else Bucket(vk.tpm as real, now, vk.tpm);
      b := Refill(b, now);
      tpm := tpm[vk.name := b];
      ok := b.tokens >= 1.0;
    }

    method SpendTokens(vk: VirtualKey, now: real, tokens: int)
      modifies `tpm
      ensures View() == ChargeTokens(old(View()), vk, now, tokens)
    {
      hide Refill;
      if vk.tpm <= 0 || tokens <= 0 { return; }
      var b := if vk.name in tpm then tpm[vk.name] else Bucket(vk.tpm as real, now, vk.tpm);
      b := Refill(b, now);
      tpm := tpm[vk.name := b.(tokens := b.tokens - tokens as real)];
    }

    method CheckBudgets(vk: VirtualKey, now: real, monthOf: int -> int) returns (verdict: Verdict)
      modifies this
      ensures var spec := BudgetStages(old(View()), vk, now, monthOf);
              View() == spec.0 && verdict == if spec.1 then Allowed else BudgetExceeded
    {
      if vk.budget > 0.0 {
        var spent := SpendFor(vk.name, BudgetWindow(vk.monthly, now, monthOf));
        if spent >= vk.budget { return BudgetExceeded; }
      }
      var budget := EffectiveTeamBudget(vk.team);
      if budget > 0.0 && vk.team.Some? {
        var spent := TeamSpendFor(vk.team.value.id, Day(DayOf(now)));
        if spent >= budget { return BudgetExceeded; }
      }
      if vk.team.Some? && vk.team.value.share > 0.0 {
        var spent := SpendFor(vk.name, BudgetWindow(vk.monthly, now, monthOf));
        if spent >= vk.team.value.share { return BudgetExceeded; }
      }
      return Allowed;
    }

    method Finalize(vk: VirtualKey, now: real, monthOf: int -> int, tokens: int, cost: real, committed: bool)
      modifies this
      ensures View() == FinalizeMeter(old(View()), vk, now, monthOf, tokens, cost, committed)
    {
      hide ChargeTokens;
      hide BudgetWindow;
      hide EffectiveTeamBudget;
      hide AddSpend;
      assert EffectiveTeamBudget(None) == 0.0 by { NoTeamNoBudget(); }
      var cur := if vk.name in inflight then inflight[vk.name] else 0;
      if cur > 0 { inflight := inflight[vk.name := cur - 1]; }
      if !committed || (tokens <= 0 && cost <= 0.0) { return; }
      SpendTokens(vk, now, tokens);
      if (vk.budget > 0.0 || (vk.team.Some? && vk.team.value.share > 0.0)) && cost > 0.0 {
        AddKeySpend(vk.name, BudgetWindow(vk.monthly, now, monthOf), cost);
      }
      if EffectiveTeamBudget(vk.team) > 0.0 && cost > 0.0 {
        AddTeamSpend(vk.team.value.id, Day(DayOf(now)), cost);
      }
    }

    method AddKeySpend(name: Name, window: Window, cost: real)
      modifies `spend
      ensures spend == AddSpend(old(spend), name, window, cost)
    {
      var spent := SpendFor(name, window);
      spend := spend[name := Spend(window, spent + cost)];
    }

    method AddTeamSpend(id: Name, day: Window, cost: real)
      modifies `teamSpend
      ensures teamSpend == AddSpend(old(teamSpend), id, day, cost)
    {
      var spent := 0.0;
      if id in teamSpend {
        if teamSpend[id].window != day {
          teamSpend := teamSpend - {id};
        } else {
          spent := teamSpend[id].spent;
        }
      }
      teamSpend := teamSpend[id := Spend(day, spent + cost)];
    }
  }
}
