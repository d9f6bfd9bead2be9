/** Whole runs of Begin and Finalize over any set of keys.

    Each call is one step: it holds its key's shard lock throughout and touches the team ledger
    once, under the team lock, so calls on different shards take effect in the order of those
    accesses. The calling discipline is a hypothesis (`Follows`), not a fact about callers. */
module MeteringRuns {
  import opened Metering

  /** A Begin, or a Finalize and whether it ends an admitted request. */
  datatype Event =
    | Begins(name: Name, now: real)
    | Finalizes(name: Name, now: real, tokens: int, cost: real, committed: bool, admitted: bool)

  datatype Commit = Commit(vk: VirtualKey, now: real, cost: real)

  /** The meter and what the statements need to remember: per key, the admitted requests and the
      refused ones that took a slot, not yet finalized; the clock; the committed costs. */
  datatype Sys = Sys(meter: Meter, live: map<Name, nat>, refused: map<Name, nat>, clock: real, commits: seq<Commit>)

  /** A fixed configuration, and limits on what one request can cost. */
  datatype Setup = Setup(keys: map<Name, VirtualKey>, monthOf: int -> int, maxTokens: nat, maxCost: real)

  ghost predicate ValidSetup(c: Setup) {
    && IsCalendar(c.monthOf) && c.maxCost >= 0.0
    && forall n :: n in c.keys ==> c.keys[n].name == n
  }

  function Start(clock: real): Sys { Sys(EMPTY, map[], map[], clock, []) }

  function Count(m: map<Name, nat>, n: Name): nat { if n in m then m[n] else 0 }

  function Bump(m: map<Name, nat>, n: Name): map<Name, nat> { m[n := Count(m, n) + 1] }

  function Lower(m: map<Name, nat>, n: Name): map<Name, nat> {
    m[n := if Count(m, n) > 0 then Count(m, n) - 1 else 0]
  }

  /** The hypothesis on callers: time moves forward; a Finalize ends a Begin that took a slot and
      was not ended yet; only an admitted request commits, and within the per-request limits. */
  predicate Follows(s: Sys, e: Event, c: Setup) {
    && e.name in c.keys && e.now >= s.clock
    && (e.Finalizes? ==>
          && e.tokens <= c.maxTokens && e.cost <= c.maxCost
          && (e.committed ==> e.admitted)
          && (if e.admitted then Count(s.live, e.name) > 0 else Count(s.refused, e.name) > 0))
  }

  function Next(s: Sys, e: Event, c: Setup): Sys
    requires e.name in c.keys
  {
    var vk := c.keys[e.name];
    match e
    case Begins(n, now) =>
      var r := BeginMeter(s.meter, vk, now, c.monthOf);
      var tookSlot := vk.maxConcurrency > 0 && r.1 != ConcurrencyLimited;
      Sys(r.0,
          if r.1 == Allowed then Bump(s.live, n) else s.live,
          if r.1 != Allowed && tookSlot then Bump(s.refused, n) else s.refused,
          now, s.commits)
    case Finalizes(n, now, tokens, cost, committed, admitted) =>
      Sys(FinalizeMeter(s.meter, vk, now, c.monthOf, tokens, cost, committed),
          if admitted then Lower(s.live, n) else s.live,
          if admitted then s.refused else Lower(s.refused, n),
          now,
          if committed && cost > 0.0 then s.commits + [Commit(vk, now, cost)] else s.commits)
  }

  /** The states a run goes through; the run must follow the discipline at every step. */
  predicate Disciplined(s: Sys, run: seq<Event>, c: Setup)
    decreases |run|
  {
    run == [] || (Follows(s, run[0], c) && Disciplined(Next(s, run[0], c), run[1..], c))
  }

  function After(s: Sys, run: seq<Event>, c: Setup): Sys
    requires Disciplined(s, run, c)
    decreases |run|
  {
    if run == [] then s else After(Next(s, run[0], c), run[1..], c)
  }

  predicate AllKnown(run: seq<Event>, c: Setup) { forall i :: 0 <= i < |run| ==> run[i].name in c.keys }

  /** What happens when calls come in any order the callers like. */
  function Played(s: Sys, run: seq<Event>, c: Setup): Sys
    requires AllKnown(run, c)
    decreases |run|
  {
    if run == [] then s else Played(Next(s, run[0], c), run[1..], c)
  }

  lemma {:induction false} PlayedConcat(s: Sys, one: seq<Event>, two: seq<Event>, c: Setup)
    requires (forall i :: 0 <= i < |one| ==> one[i].name in c.keys)
    requires forall i :: 0 <= i < |two| ==> two[i].name in c.keys
    ensures Played(s, one + two, c) == Played(Played(s, one, c), two, c)
    decreases |one|
  {
    hide Next;
    if one == [] {
      assert one + two == two;
    } else {
      assert (one + two)[1..] == one[1..] + two;
      PlayedConcat(Next(s, one[0], c), one[1..], two, c);
    }
  }

  /* ---- one key ---- */

  function Slack(s: Sys, vk: VirtualKey): int { vk.maxConcurrency - Count(s.live, vk.name) }

  predicate SlotsInv(s: Sys, vk: VirtualKey) {
    vk.maxConcurrency > 0 ==>
      Inflight(s.meter, vk.name) == Count(s.live, vk.name) + Count(s.refused, vk.name) <= vk.maxConcurrency
  }

  /** The token bucket stays above 1 minus M for every slot without an admitted request. */
  predicate TokensInv(s: Sys, vk: VirtualKey, maxTokens: nat) {
    vk.maxConcurrency > 0 && vk.tpm > 0 && vk.name in s.meter.tpm ==>
      var b := s.meter.tpm[vk.name];
      b.rate == vk.tpm && b.last <= s.clock && b.tokens >= TokenLevel(Slack(s, vk), maxTokens)
  }

  /** Spend stays below the budget plus C for every slot without an admitted request. */
  predicate SpendInv(s: Sys, vk: VirtualKey, maxCost: real) {
    vk.maxConcurrency > 0 && vk.budget > 0.0 && vk.name in s.meter.spend ==>
      s.meter.spend[vk.name].spent < SpendLevel(vk.budget, Slack(s, vk), maxCost)
  }

  predicate KeyInv(s: Sys, vk: VirtualKey, c: Setup) {
    SlotsInv(s, vk) && TokensInv(s, vk, c.maxTokens) && SpendInv(s, vk, c.maxCost)
  }

  /** Everything recorded under one name is the same. */
  predicate SameAt(m: Meter, t: Meter, k: Name) {
    && Inflight(m, k) == Inflight(t, k)
    && (k in m.tpm <==> k in t.tpm) && (k in m.tpm ==> t.tpm[k] == m.tpm[k])
    && (k in m.spend <==> k in t.spend) && (k in m.spend ==> t.spend[k] == m.spend[k])
  }

  lemma {:induction false} RateStageElsewhere(m: Meter, vk: VirtualKey, now: real, k: Name)
    requires k != vk.name
    ensures SlotStage(m, vk).Some? ==> SameAt(m, SlotStage(m, vk).value, k)
    ensures SameAt(m, RpmStage(m, vk, now).0, k) && SameAt(m, TpmStage(m, vk, now).0, k)
  {
    hide Refill;
    hide RpmStage;
  }

  lemma {:induction false} RateStagesElsewhere(m: Meter, vk: VirtualKey, now: real, k: Name)
    requires k != vk.name
    ensures SameAt(m, RateStages(m, vk, now).0, k)
  {
    hide SlotStage;
    hide RpmStage;
    hide TpmStage;
    RateStageElsewhere(m, vk, now, k);
    var slot := SlotStage(m, vk);
    if slot.Some? {
      RateStageElsewhere(slot.value, vk, now, k);
      RateStageElsewhere(RpmStage(slot.value, vk, now).0, vk, now, k);
    }
  }

  lemma {:induction false} BudgetStageElsewhere(m: Meter, vk: VirtualKey, now: real, monthOf: int -> int, limit: real,
                                                k: Name)
    requires k != vk.name
    ensures SameAt(m, KeyBudgetStage(m, vk, now, monthOf, limit).0, k)
    ensures SameAt(m, TeamBudgetStage(m, vk, now).0, k)
  {
    hide BudgetWindow;
    hide TeamBudgetStage;
  }

  lemma {:induction false} BudgetStagesElsewhere(m: Meter, vk: VirtualKey, now: real, monthOf: int -> int, k: Name)
    requires k != vk.name
    ensures SameAt(m, BudgetStages(m, vk, now, monthOf).0, k)
  {
    hide KeyBudgetStage;
    hide TeamBudgetStage;
    var key := KeyBudgetStage(m, vk, now, monthOf, vk.budget).0;
    BudgetStageElsewhere(m, vk, now, monthOf, vk.budget, k);
    var team := TeamBudgetStage(key, vk, now).0;
    BudgetStageElsewhere(key, vk, now, monthOf, vk.budget, k);
    BudgetStageElsewhere(team, vk, now, monthOf, ShareOf(vk), k);
  }

  lemma {:induction false} ReleaseElsewhere(m: Meter, vk: VirtualKey, k: Name)
    requires k != vk.name
    ensures SameAt(m, ReleaseSlot(m, vk), k)
  {
  }

  lemma {:induction false} ChargesElsewhere(m: Meter, vk: VirtualKey, now: real, monthOf: int -> int, tokens: int,
                                            cost: real, k: Name)
    requires k != vk.name
    ensures SameAt(m, ChargeTokens(m, vk, now, tokens), k)
    ensures SameAt(m, ChargeKey(m, vk, now, monthOf, cost), k)
    ensures SameAt(m, ChargeTeam(m, vk, now, cost), k)
  {
    hide Refill;
    hide BudgetWindow;
    hide ChargeTeam;
  }

  lemma {:induction false} FinalizeElsewhere(m: Meter, vk: VirtualKey, now: real, monthOf: int -> int, tokens: int,
                                             cost: real,
                          committed: bool, k: Name)
    requires k != vk.name
    ensures SameAt(m, FinalizeMeter(m, vk, now, monthOf, tokens, cost, committed), k)
  {
    var a := ReleaseSlot(m, vk);
    ReleaseElsewhere(m, vk, k);
    var b := ChargeTokens(a, vk, now, tokens);
    ChargesElsewhere(a, vk, now, monthOf, tokens, cost, k);
    var d := ChargeKey(b, vk, now, monthOf, cost);
    ChargesElsewhere(b, vk, now, monthOf, tokens, cost, k);
    ChargesElsewhere(d, vk, now, monthOf, tokens, cost, k);
  }

  /** What one call leaves alone: everything recorded under other names. */
  lemma {:induction false} OtherKeysUntouched(s: Sys, e: Event, c: Setup, k: Name)
    requires ValidSetup(c) && Follows(s, e, c) && k != e.name
    ensures SameAt(s.meter, Next(s, e, c).meter, k)
    ensures Count(Next(s, e, c).live, k) == Count(s.live, k) && Count(Next(s, e, c).refused, k) == Count(s.refused, k)
  {
    var vk := c.keys[e.name];
    if e.Begins? {
      RateStagesElsewhere(s.meter, vk, e.now, k);
      BudgetStagesElsewhere(RateStages(s.meter, vk, e.now).0, vk, e.now, c.monthOf, k);
    } else {
      FinalizeElsewhere(s.meter, vk, e.now, c.monthOf, e.tokens, e.cost, e.committed, k);
    }
  }

  lemma {:induction false} RateSlots(m: Meter, vk: VirtualKey, now: real)
    ensures var r := RateStages(m, vk, now);
            && (vk.maxConcurrency > 0 && r.1 != ConcurrencyLimited ==>
                  Inflight(m, vk.name) < vk.maxConcurrency && Inflight(r.0, vk.name) == Inflight(m, vk.name) + 1)
            && (vk.maxConcurrency <= 0 || r.1 == ConcurrencyLimited ==> Inflight(r.0, vk.name) == Inflight(m, vk.name))
  {
    hide RpmStage;
    hide TpmStage;
    var slot := SlotStage(m, vk);
    if slot.Some? {
      var rpm := RpmStage(slot.value, vk, now);
      assert rpm.0.inflight == slot.value.inflight;
      assert TpmStage(rpm.0, vk, now).0.inflight == slot.value.inflight;
    }
  }

  lemma {:induction false} BeginSlots(m: Meter, vk: VirtualKey, now: real, monthOf: int -> int)
    ensures var r := BeginMeter(m, vk, now, monthOf);
            && (vk.maxConcurrency > 0 && r.1 != ConcurrencyLimited ==>
                  Inflight(m, vk.name) < vk.maxConcurrency && Inflight(r.0, vk.name) == Inflight(m, vk.name) + 1)
            && (vk.maxConcurrency <= 0 || r.1 == ConcurrencyLimited ==> Inflight(r.0, vk.name) == Inflight(m, vk.name))
  {
    RateSlots(m, vk, now);
    var rates := RateStages(m, vk, now);
    assert BudgetStages(rates.0, vk, now, monthOf).0.inflight == rates.0.inflight;
  }

  lemma {:induction false} RateTokens(m: Meter, vk: VirtualKey, now: real)
    requires vk.tpm > 0
    ensures var r := RateStages(m, vk, now);
            || (r.1 != Allowed && r.0.tpm == m.tpm)
            || (vk.name in r.0.tpm && r.0.tpm[vk.name] == TokenBucket(m, vk, now)
                && (r.1 == Allowed ==> r.0.tpm[vk.name].tokens >= 1.0))
  {
    var slot := SlotStage(m, vk);
    if slot.Some? {
      var rpm := RpmStage(slot.value, vk, now);
      assert rpm.0.tpm == m.tpm;
      assert TokenBucket(rpm.0, vk, now) == TokenBucket(m, vk, now);
    }
  }

  lemma {:induction false} BeginTokens(m: Meter, vk: VirtualKey, now: real, monthOf: int -> int)
    requires vk.tpm > 0
    ensures var r := BeginMeter(m, vk, now, monthOf);
            || (r.1 != Allowed && r.0.tpm == m.tpm)
            || (vk.name in r.0.tpm && r.0.tpm[vk.name] == TokenBucket(m, vk, now)
                && (r.1 == Allowed ==> r.0.tpm[vk.name].tokens >= 1.0))
  {
    RateTokens(m, vk, now);
    var rates := RateStages(m, vk, now);
    assert BudgetStages(rates.0, vk, now, monthOf).0.tpm == rates.0.tpm;
  }

  lemma {:induction false} BudgetStagesSpend(m: Meter, vk: VirtualKey, now: real, monthOf: int -> int)
    ensures var r := BudgetStages(m, vk, now, monthOf);
            && (vk.name in r.0.spend ==> vk.name in m.spend && r.0.spend[vk.name] == m.spend[vk.name])
            && (r.1 && vk.budget > 0.0 && vk.name in r.0.spend ==> r.0.spend[vk.name].spent < vk.budget)
  {
  }

  lemma {:induction false} BeginSpend(m: Meter, vk: VirtualKey, now: real, monthOf: int -> int)
    ensures var r := BeginMeter(m, vk, now, monthOf);
            && (vk.name in r.0.spend ==> vk.name in m.spend && r.0.spend[vk.name] == m.spend[vk.name])
            && (r.1 == Allowed && vk.budget > 0.0 && vk.name in r.0.spend ==> r.0.spend[vk.name].spent < vk.budget)
  {
    BudgetStagesSpend(RateStages(m, vk, now).0, vk, now, monthOf);
  }

  /** Refilling never lowers a bucket below a level its rate is above. */
  lemma {:induction false} RefillKeeps(b: Bucket, now: real, level: real)
    requires now >= b.last && b.rate > 0 && b.tokens >= level && b.rate as real >= level
    ensures Refill(b, now).tokens >= level && Refill(b, now).rate == b.rate && Refill(b, now).last == now
  {
    assert (now - b.last) / 60.0 >= 0.0;
    ProductNonNegative((now - b.last) / 60.0, b.rate as real);
  }

  lemma {:induction false} ProductNonNegative(x: real, y: real)
    requires x >= 0.0 && y >= 0.0
    ensures x * y >= 0.0
  {
  }

  lemma {:induction false} OneMore(n: int, x: real)
    ensures (n + 1) as real * x == n as real * x + x
  {
  }

  predicate TokensAbove(m: Meter, vk: VirtualKey, clock: real, level: real) {
    vk.name in m.tpm ==> m.tpm[vk.name].rate == vk.tpm && m.tpm[vk.name].last <= clock && m.tpm[vk.name].tokens >= level
  }

  lemma {:induction false} RefilledAbove(m: Meter, vk: VirtualKey, clock: real, now: real, level: real)
    requires vk.tpm > 0 && clock <= now && level <= 1.0 && TokensAbove(m, vk, clock, level)
    ensures var b := TokenBucket(m, vk, now); b.rate == vk.tpm && b.last == now && b.tokens >= level
  {
    RefillKeeps(if vk.name in m.tpm then m.tpm[vk.name] else Bucket(vk.tpm as real, now, vk.tpm), now, level);
  }

  lemma {:induction false} BeginAbove(m: Meter, vk: VirtualKey, clock: real, now: real, monthOf: int -> int,
                                      level: real)
    requires vk.tpm > 0 && clock <= now && level <= 1.0 && TokensAbove(m, vk, clock, level)
    ensures var r := BeginMeter(m, vk, now, monthOf);
            TokensAbove(r.0, vk, now, level) && (r.1 == Allowed ==> TokensAbove(r.0, vk, now, 1.0))
  {
    RefilledAbove(m, vk, clock, now, level);
    BeginTokens(m, vk, now, monthOf);
  }

  lemma {:induction false} FinalizeTokens(m: Meter, vk: VirtualKey, now: real, monthOf: int -> int, tokens: int,
                                          cost: real,
                       committed: bool)
    ensures FinalizeMeter(m, vk, now, monthOf, tokens, cost, committed).tpm
            == if !committed then m.tpm else ChargeTokens(m, vk, now, tokens).tpm
  {
    var a := ReleaseSlot(m, vk);
    assert a.tpm == m.tpm;
    var b := ChargeTokens(a, vk, now, tokens);
    assert b.tpm == ChargeTokens(m, vk, now, tokens).tpm;
    var d := ChargeKey(b, vk, now, monthOf, cost);
    assert d.tpm == b.tpm && ChargeTeam(d, vk, now, cost).tpm == b.tpm;
  }

  lemma {:induction false} FinalizeAbove(m: Meter, vk: VirtualKey, clock: real, now: real, monthOf: int -> int,
                                         tokens: int, cost: real,
                      committed: bool, level: real, limit: nat)
    requires vk.tpm > 0 && clock <= now && level <= 1.0 && TokensAbove(m, vk, clock, level) && tokens <= limit
    ensures var t := FinalizeMeter(m, vk, now, monthOf, tokens, cost, committed);
            TokensAbove(t, vk, now, level - limit as real) && (!committed ==> TokensAbove(t, vk, now, level))
  {
    RefilledAbove(m, vk, clock, now, level);
    FinalizeTokens(m, vk, now, monthOf, tokens, cost, committed);
  }

  function TokenLevel(slack: int, maxTokens: nat): real { 1.0 - slack as real * maxTokens as real }

  lemma {:induction false} TokenLevels(slack: int, maxTokens: nat)
    requires slack >= 0
    ensures TokenLevel(slack, maxTokens) <= 1.0
    ensures TokenLevel(slack + 1, maxTokens) == TokenLevel(slack, maxTokens) - maxTokens as real
  {
    ProductNonNegative(slack as real, maxTokens as real);
    OneMore(slack, maxTokens as real);
  }

  /** How far a step moves the number of slots without an admitted request. */
  lemma {:induction false} SlackStep(s: Sys, e: Event, c: Setup)
    requires ValidSetup(c) && Follows(s, e, c) && c.keys[e.name].maxConcurrency > 0
    requires SlotsInv(s, c.keys[e.name]) && SlotsInv(Next(s, e, c), c.keys[e.name])
    ensures var vk, t := c.keys[e.name], Next(s, e, c);
            && Slack(s, vk) >= 0 && Slack(t, vk) >= 0
            && Slack(t, vk) == (match e
                                case Begins(_, now) =>
                                  if BeginMeter(s.meter, vk, now, c.monthOf).1 == Allowed then Slack(s, vk) - 1
                                      else Slack(s, vk)
                                case Finalizes(_, _, _, _, _, admitted) =>
                                  if admitted then Slack(s, vk) + 1 else Slack(s, vk))
  {
    hide BeginMeter;
    hide FinalizeMeter;
  }

  lemma {:induction false} TokensBeginStep(s: Sys, e: Event, c: Setup)
    requires ValidSetup(c) && Follows(s, e, c) && e.Begins? && c.keys[e.name].maxConcurrency > 0
    requires c.keys[e.name].tpm > 0
    requires SlotsInv(s, c.keys[e.name]) && SlotsInv(Next(s, e, c), c.keys[e.name])
    requires TokensAbove(s.meter, c.keys[e.name], s.clock, TokenLevel(Slack(s, c.keys[e.name]), c.maxTokens))
    ensures TokensAbove(Next(s, e, c).meter, c.keys[e.name], e.now,
            TokenLevel(Slack(Next(s, e, c), c.keys[e.name]), c.maxTokens))
  {
    hide BeginMeter;
    hide TokenLevel;
    var vk, t := c.keys[e.name], Next(s, e, c);
    SlackStep(s, e, c);
    TokenLevels(Slack(s, vk), c.maxTokens);
    TokenLevels(Slack(t, vk), c.maxTokens);
    BeginAbove(s.meter, vk, s.clock, e.now, c.monthOf, TokenLevel(Slack(s, vk), c.maxTokens));
  }

  lemma {:induction false} TokensFinalizeStep(s: Sys, e: Event, c: Setup)
    requires ValidSetup(c) && Follows(s, e, c) && e.Finalizes? && c.keys[e.name].maxConcurrency > 0
    requires c.keys[e.name].tpm > 0
    requires SlotsInv(s, c.keys[e.name]) && SlotsInv(Next(s, e, c), c.keys[e.name])
    requires TokensAbove(s.meter, c.keys[e.name], s.clock, TokenLevel(Slack(s, c.keys[e.name]), c.maxTokens))
    ensures TokensAbove(Next(s, e, c).meter, c.keys[e.name], e.now,
            TokenLevel(Slack(Next(s, e, c), c.keys[e.name]), c.maxTokens))
  {
    hide FinalizeMeter;
    hide TokenLevel;
    var vk := c.keys[e.name];
    SlackStep(s, e, c);
    TokenLevels(Slack(s, vk), c.maxTokens);
    FinalizeAbove(s.meter, vk, s.clock, e.now, c.monthOf, e.tokens, e.cost, e.committed,
                  TokenLevel(Slack(s, vk), c.maxTokens), c.maxTokens);
  }

  lemma {:induction false} TokensStep(s: Sys, e: Event, c: Setup)
    requires ValidSetup(c) && Follows(s, e, c)
    requires SlotsInv(s, c.keys[e.name]) && TokensInv(s, c.keys[e.name], c.maxTokens)
    requires SlotsInv(Next(s, e, c), c.keys[e.name])
    ensures TokensInv(Next(s, e, c), c.keys[e.name], c.maxTokens)
  {
    var vk := c.keys[e.name];
    if vk.maxConcurrency > 0 && vk.tpm > 0 {
      if e.Begins? { TokensBeginStep(s, e, c); } else { TokensFinalizeStep(s, e, c); }
    }
  }

  predicate SpendBelow(m: Meter, vk: VirtualKey, level: real) {
    vk.name in m.spend ==> m.spend[vk.name].spent < level
  }

  lemma {:induction false} FinalizeSpend(m: Meter, vk: VirtualKey, now: real, monthOf: int -> int, tokens: int,
                                         cost: real,
                      committed: bool)
    ensures FinalizeMeter(m, vk, now, monthOf, tokens, cost, committed).spend
            == if !committed then m.spend else ChargeKey(m, vk, now, monthOf, cost).spend
  {
    var a := ReleaseSlot(m, vk);
    assert a.spend == m.spend;
    var b := ChargeTokens(a, vk, now, tokens);
    assert b.spend == m.spend;
    var d := ChargeKey(b, vk, now, monthOf, cost);
    assert d.spend == ChargeKey(m, vk, now, monthOf, cost).spend && ChargeTeam(d, vk, now, cost).spend == d.spend;
  }

  lemma {:induction false} ChargeBelow(m: Meter, vk: VirtualKey, now: real, monthOf: int -> int, cost: real,
                                       level: real, limit: real)
    requires SpendBelow(m, vk, level) && cost <= limit && level > 0.0 && limit >= 0.0
    ensures SpendBelow(ChargeKey(m, vk, now, monthOf, cost), vk, level + limit)
  {
  }

  function SpendLevel(budget: real, slack: int, maxCost: real): real { budget + slack as real * maxCost }

  lemma {:induction false} SpendLevels(budget: real, slack: int, maxCost: real)
    requires slack >= 0 && maxCost >= 0.0 && budget > 0.0
    ensures SpendLevel(budget, slack, maxCost) >= budget
    ensures SpendLevel(budget, slack + 1, maxCost) == SpendLevel(budget, slack, maxCost) + maxCost
  {
    ProductNonNegative(slack as real, maxCost);
    OneMore(slack, maxCost);
  }

  lemma {:induction false} SpendStep(s: Sys, e: Event, c: Setup)
    requires ValidSetup(c) && Follows(s, e, c)
    requires SlotsInv(s, c.keys[e.name]) && SpendInv(s, c.keys[e.name], c.maxCost)
    requires SlotsInv(Next(s, e, c), c.keys[e.name])
    ensures SpendInv(Next(s, e, c), c.keys[e.name], c.maxCost)
  {
    hide BeginMeter;
    hide FinalizeMeter;
    hide SpendLevel;
    var vk, t := c.keys[e.name], Next(s, e, c);
    if vk.maxConcurrency > 0 && vk.budget > 0.0 {
      SlackStep(s, e, c);
      var level := SpendLevel(vk.budget, Slack(s, vk), c.maxCost);
      SpendLevels(vk.budget, Slack(s, vk), c.maxCost);
      SpendLevels(vk.budget, Slack(t, vk), c.maxCost);
      if e.Begins? {
        BeginSpend(s.meter, vk, e.now, c.monthOf);
        assert Slack(t, vk) == Slack(s, vk) || SpendBelow(t.meter, vk, vk.budget);
      } else {
        FinalizeSpend(s.meter, vk, e.now, c.monthOf, e.tokens, e.cost, e.committed);
        ChargeBelow(s.meter, vk, e.now, c.monthOf, e.cost, level, c.maxCost);
      }
      assert SpendBelow(t.meter, vk, SpendLevel(vk.budget, Slack(t, vk), c.maxCost));
    }
  }

  lemma {:induction false} FinalizeInflight(m: Meter, vk: VirtualKey, now: real, monthOf: int -> int, tokens: int,
                                            cost: real,
                         committed: bool)
    ensures FinalizeMeter(m, vk, now, monthOf, tokens, cost, committed).inflight == ReleaseSlot(m, vk).inflight
  {
    hide ReleaseSlot;
    hide ChargeTokens;
    hide ChargeKey;
    hide ChargeTeam;
  }

  lemma {:induction false} SlotsStep(s: Sys, e: Event, c: Setup)
    requires ValidSetup(c) && Follows(s, e, c) && SlotsInv(s, c.keys[e.name])
    ensures SlotsInv(Next(s, e, c), c.keys[e.name])
  {
    hide BeginMeter;
    hide ChargeTokens;
    hide ChargeKey;
    hide ChargeTeam;
    if e.Begins? {
      BeginSlots(s.meter, c.keys[e.name], e.now, c.monthOf);
    } else {
      FinalizeInflight(s.meter, c.keys[e.name], e.now, c.monthOf, e.tokens, e.cost, e.committed);
    }
  }

  lemma {:induction false} KeyStep(s: Sys, e: Event, c: Setup, k: Name)
    requires ValidSetup(c) && Follows(s, e, c) && k in c.keys && KeyInv(s, c.keys[k], c)
    ensures KeyInv(Next(s, e, c), c.keys[k], c)
  {
    if k == e.name {
      SlotsStep(s, e, c);
      TokensStep(s, e, c);
      SpendStep(s, e, c);
    } else {
      OtherKeysUntouched(s, e, c, k);
    }
  }

  lemma {:induction false} KeyRun(s: Sys, run: seq<Event>, c: Setup, k: Name)
    requires ValidSetup(c) && Disciplined(s, run, c) && k in c.keys && KeyInv(s, c.keys[k], c)
    ensures KeyInv(After(s, run, c), c.keys[k], c)
    decreases |run|
  {
    if run != [] {
      KeyStep(s, run[0], c, k);
      KeyRun(Next(s, run[0], c), run[1..], c, k);
    }
  }

  /** At most K requests hold a slot, the token bucket is at least 1 - K*M, and the recorded spend
      is strictly below budget + K*C. */
  predicate WithinLimits(m: Meter, vk: VirtualKey, c: Setup) {
    && Inflight(m, vk.name) <= vk.maxConcurrency
    && (vk.tpm > 0 && vk.name in m.tpm ==>
          m.tpm[vk.name].tokens >= 1.0 - vk.maxConcurrency as real * c.maxTokens as real)
    && (vk.budget > 0.0 && vk.name in m.spend ==>
          m.spend[vk.name].spent < vk.budget + vk.maxConcurrency as real * c.maxCost)
  }

  lemma {:induction false} InvGivesLimits(s: Sys, vk: VirtualKey, c: Setup)
    requires KeyInv(s, vk, c) && vk.maxConcurrency > 0 && c.maxCost >= 0.0
    ensures WithinLimits(s.meter, vk, c)
  {
    SlackBelow(Slack(s, vk), vk.maxConcurrency, c.maxTokens as real);
    SlackBelow(Slack(s, vk), vk.maxConcurrency, c.maxCost);
  }

  lemma {:induction false} SlackBelow(a: int, b: int, x: real)
    requires a <= b && x >= 0.0
    ensures a as real * x <= b as real * x
  {
    ProductNonNegative((b - a) as real, x);
  }

  /** Every key with a concurrency cap stays within its limits in every disciplined run, across
      any number of day and month rollovers. */
  lemma {:induction false} KeyLimitsHold(run: seq<Event>, c: Setup, k: Name, clock: real)
    requires ValidSetup(c) && Disciplined(Start(clock), run, c) && k in c.keys && c.keys[k].maxConcurrency > 0
    ensures WithinLimits(After(Start(clock), run, c).meter, c.keys[k], c)
  {
    KeyRun(Start(clock), run, c, k);
    InvGivesLimits(After(Start(clock), run, c), c.keys[k], c);
  }
}
