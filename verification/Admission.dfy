/** What Begin answers after any disciplined run, in terms of the run alone: which requests hold
    slots, what passed and what was charged since when, and what was committed in the current period. */
module Admission {
  import opened Wrappers
  import opened Metering
  import opened MeteringRuns
  import opened SpendLedgers
  import opened RequestRate
  import opened BucketHistory

  /* ---- days and periods ---- */

  lemma {:induction false} DayIff(now: real, d: int)
    ensures DayOf(now) == d <==> d as real * 86400.0 <= now < (d + 1) as real * 86400.0
  {
    var q := now / 86400.0;
    assert q * 86400.0 == now;
    assert DayOf(now) == d <==> d as real <= q < (d + 1) as real;
  }

  /** The same calendar month for a monthly budget, and otherwise the same day. */
  predicate SamePeriod(monthly: bool, a: real, b: real, monthOf: int -> int) {
    if monthly then monthOf(DayOf(a)) == monthOf(DayOf(b)) else DayOf(a) == DayOf(b)
  }

  /** What a key committed in the period of `now`. */
  function KeySpent(commits: seq<Commit>, vk: VirtualKey, now: real, monthOf: int -> int): real {
    if commits == [] then 0.0
    else
      var last := commits[|commits| - 1];
      KeySpent(commits[..|commits| - 1], vk, now, monthOf)
      + if last.vk.name == vk.name && SamePeriod(vk.monthly, last.now, now, monthOf) then last.cost else 0.0
  }

  /** What the keys of a team with a budget in force committed on the day of `now`. */
  function TeamSpent(commits: seq<Commit>, id: Name, now: real): real {
    if commits == [] then 0.0
    else
      var last := commits[|commits| - 1];
      TeamSpent(commits[..|commits| - 1], id, now)
      + if TeamLedgered(last.vk, id) && DayOf(last.now) == DayOf(now) then last.cost else 0.0
  }

  predicate CommitsKnown(commits: seq<Commit>, c: Setup) {
    forall i :: 0 <= i < |commits| ==> commits[i].vk.name in c.keys && commits[i].vk == c.keys[commits[i].vk.name]
  }

  lemma {:induction false} RunCommitsKnown(s: Sys, run: seq<Event>, c: Setup)
    requires ValidSetup(c) && Disciplined(s, run, c) && CommitsKnown(s.commits, c)
    ensures CommitsKnown(After(s, run, c).commits, c)
    decreases |run|
  {
    hide BeginMeter;
    hide FinalizeMeter;
    if run != [] { RunCommitsKnown(Next(s, run[0], c), run[1..], c); }
  }

  lemma {:induction false} KeyTotal(commits: seq<Commit>, c: Setup, k: Name, now: real)
    requires CommitsKnown(commits, c) && k in c.keys && c.keys[k].name == k && KeyLedgered(c.keys[k])
    ensures Total(commits, KeyMark(k, c.monthOf), BudgetWindow(c.keys[k].monthly, now, c.monthOf))
            == KeySpent(commits, c.keys[k], now, c.monthOf)
  {
    if commits != [] { KeyTotal(commits[..|commits| - 1], c, k, now); }
  }

  lemma {:induction false} TeamTotal(commits: seq<Commit>, id: Name, now: real)
    ensures Total(commits, TeamMark(id), Day(DayOf(now))) == TeamSpent(commits, id, now)
  {
    hide DayOf;
    hide TeamLedgered;
    if commits != [] { TeamTotal(commits[..|commits| - 1], id, now); }
  }

  /** What the ledgers say when a call comes. */
  lemma {:induction false} LedgersSay(run: seq<Event>, c: Setup, k: Name, id: Name, clock: real, now: real)
    requires ValidSetup(c) && Disciplined(Start(clock), run, c) && k in c.keys
    requires now >= After(Start(clock), run, c).clock
    ensures var s, vk := After(Start(clock), run, c), c.keys[k];
            && (KeyLedgered(vk) ==> Lookup(s.meter.spend, k, BudgetWindow(vk.monthly, now, c.monthOf))
                                    == KeySpent(s.commits, vk, now, c.monthOf))
            && Lookup(s.meter.teamSpend, id, Day(DayOf(now))) == TeamSpent(s.commits, id, now)
  {
    hide Next;
    hide BudgetWindow;
    hide DayOf;
    hide Total;
    hide KeySpent;
    hide TeamSpent;
    hide LedgerLookup;
    var s, vk := After(Start(clock), run, c), c.keys[k];
    RunCommitsKnown(Start(clock), run, c);
    if KeyLedgered(vk) {
      StartExact(c, k, id, clock);
      KeyRunExact(Start(clock), run, c, k);
      WindowAdvances(vk.monthly, s.clock, now, c.monthOf);
      ExactAdvances(s.meter.spend, k, s.commits, KeyMark(k, c.monthOf), BudgetWindow(vk.monthly, s.clock, c.monthOf),
                    BudgetWindow(vk.monthly, now, c.monthOf));
      KeyTotal(s.commits, c, k, now);
    }
    StartExact(c, k, id, clock);
    TeamRunExact(Start(clock), run, c, id);
    DayAdvances(s.clock, now);
    ExactAdvances(s.meter.teamSpend, id, s.commits, TeamMark(id), Day(DayOf(s.clock)), Day(DayOf(now)));
    TeamTotal(s.commits, id, now);
  }

  lemma {:induction false} StartExact(c: Setup, k: Name, id: Name, clock: real)
    requires k in c.keys
    ensures KeyExact(Start(clock), c.keys[k], c.monthOf) && TeamExact(Start(clock), id)
  {
  }

  /** The budget stages, against what the ledgers say. */
  lemma {:induction false} BudgetsPassIff(m: Meter, vk: VirtualKey, now: real, monthOf: int -> int)
    ensures BudgetStages(m, vk, now, monthOf).1
            <==> var spent := Lookup(m.spend, vk.name, BudgetWindow(vk.monthly, now, monthOf));
                 && (vk.budget > 0.0 ==> spent < vk.budget)
                 && (vk.team.Some? && EffectiveTeamBudget(vk.team) > 0.0 ==>
                       Lookup(m.teamSpend, vk.team.value.id, Day(DayOf(now))) < EffectiveTeamBudget(vk.team))
                 && (vk.team.Some? && vk.team.value.share > 0.0 ==> spent < vk.team.value.share)
  {
    hide BudgetWindow;
    hide DayOf;
    hide EffectiveTeamBudget;
    var w := BudgetWindow(vk.monthly, now, monthOf);
    assert EffectiveTeamBudget(None) == 0.0 by { NoTeamNoBudget(); }
    assert LedgerLookup(LedgerLookup(m.spend, vk.name, w).0, vk.name, w).1 == LedgerLookup(m.spend, vk.name, w).1;
  }

  /* ---- what a disciplined run draws ---- */

  lemma {:induction false} DisciplinedPlays(s: Sys, run: seq<Event>, c: Setup)
    requires Disciplined(s, run, c)
    ensures AllKnown(run, c) && Played(s, run, c) == After(s, run, c)
    decreases |run|
  {
    hide Next;
    if run != [] {
      DisciplinedPlays(Next(s, run[0], c), run[1..], c);
      assert forall i :: 0 < i < |run| ==> run[i] == run[1..][i - 1];
    }
  }

  lemma {:induction false} ForwardJoins(one: seq<Draw>, rest: seq<Draw>, from: real, mid: real, to: real)
    requires Forward(one, from, mid) && Forward(rest, mid, to) && from <= mid <= to
    ensures Forward(one + rest, from, to)
  {
  }

  lemma {:induction false} StepForward(s: Sys, e: Event, c: Setup, k: Name)
    requires k in c.keys && s.clock <= e.now
    ensures Forward(RequestDraw(s, e, c, k), s.clock, e.now) && Forward(TokenDraw(s, e, c, k), s.clock, e.now)
  {
    hide Admits;
    hide SlotStage;
  }

  /** In a disciplined run the buckets are used in the order of the clock. */
  lemma {:induction false} DrawsForward(s: Sys, run: seq<Event>, c: Setup, k: Name)
    requires Disciplined(s, run, c) && AllKnown(run, c) && k in c.keys
    ensures s.clock <= After(s, run, c).clock
    ensures Forward(RequestDraws(s, run, c, k), s.clock, After(s, run, c).clock)
    ensures Forward(TokenDraws(s, run, c, k), s.clock, After(s, run, c).clock)
    decreases |run|
  {
    hide BeginMeter;
    hide FinalizeMeter;
    hide Forward;
    hide RequestDraw;
    hide TokenDraw;
    if run == [] {
      assert Forward([], s.clock, s.clock) by { NoDraws(s.clock); }
    } else {
      var t := Next(s, run[0], c);
      DrawsForward(t, run[1..], c, k);
      StepForward(s, run[0], c, k);
      var end := After(s, run, c).clock;
      ForwardJoins(RequestDraw(s, run[0], c, k), RequestDraws(t, run[1..], c, k), s.clock, t.clock, end);
      ForwardJoins(TokenDraw(s, run[0], c, k), TokenDraws(t, run[1..], c, k), s.clock, t.clock, end);
    }
  }

  lemma {:induction false} NoDraws(at: real)
    ensures Forward([], at, at)
  {
  }

  lemma {:induction false} ForwardExtends(h: seq<Draw>, from: real, to: real, later: real)
    requires Forward(h, from, to) && to <= later
    ensures Forward(h, from, later)
  {
  }

  /* ---- the verdict ---- */

  /** The key's live requests and its leaked slots take all it has. */
  predicate NoSlot(s: Sys, vk: VirtualKey) {
    vk.maxConcurrency > 0 && Count(s.live, vk.name) + Count(s.refused, vk.name) >= vk.maxConcurrency
  }

  /** A rate that is not set, or one that what was taken since any earlier use leaves room in. */
  predicate WithinRate(h: seq<Draw>, rate: int, now: real) { rate > 0 ==> RoomSinceDraws(h, rate, now, 1.0) }

  predicate WithinBudgets(s: Sys, vk: VirtualKey, now: real, monthOf: int -> int) {
    var spent := KeySpent(s.commits, vk, now, monthOf);
    && (vk.budget > 0.0 ==> spent < vk.budget)
    && (vk.team.Some? && EffectiveTeamBudget(vk.team) > 0.0 ==>
          TeamSpent(s.commits, vk.team.value.id, now) < EffectiveTeamBudget(vk.team))
    && (vk.team.Some? && vk.team.value.share > 0.0 ==> spent < vk.team.value.share)
  }

  lemma {:induction false} SlotVerdict(run: seq<Event>, c: Setup, k: Name, clock: real)
    requires ValidSetup(c) && Disciplined(Start(clock), run, c) && k in c.keys
    ensures var s := After(Start(clock), run, c); SlotStage(s.meter, c.keys[k]).None? <==> NoSlot(s, c.keys[k])
  {
    hide Next;
    assert KeyInv(Start(clock), c.keys[k], c);
    KeyRun(Start(clock), run, c, k);
  }

  lemma {:induction false} RateVerdict(run: seq<Event>, c: Setup, k: Name, clock: real, now: real)
    requires ValidSetup(c) && Disciplined(Start(clock), run, c) && AllKnown(run, c) && k in c.keys
    requires now >= After(Start(clock), run, c).clock
    ensures var s, vk := After(Start(clock), run, c), c.keys[k];
            RateStages(s.meter, vk, now).1
            == if NoSlot(s, vk) then ConcurrencyLimited
               else if !WithinRate(RequestDraws(Start(clock), run, c, k), vk.rpm, now) then RateLimited
               else if !WithinRate(TokenDraws(Start(clock), run, c, k), vk.tpm, now) then RateLimited
               else Allowed
  {
    hide Next;
    hide NoSlot;
    hide SlotStage;
    hide Forward;
    hide Room;
    hide RoomSinceDraws;
    hide Refill;
    var s, vk := After(Start(clock), run, c), c.keys[k];
    var requests, tokens := RequestDraws(Start(clock), run, c, k), TokenDraws(Start(clock), run, c, k);
    SlotVerdict(run, c, k, clock);
    if SlotStage(s.meter, vk).Some? {
      DisciplinedPlays(Start(clock), run, c);
      DrawsForward(Start(clock), run, c, k);
      ForwardExtends(requests, clock, s.clock, now);
      ForwardExtends(tokens, clock, s.clock, now);
      if vk.rpm > 0 {
        RequestPassesIff(run, c, k, clock, now);
        OnlyDrawsMatter(requests, vk.rpm, clock, now, 1.0);
      }
      if vk.tpm > 0 && Admits(s.meter, vk, now) {
        TokensPassIff(run, c, k, clock, now);
        OnlyDrawsMatter(tokens, vk.tpm, clock, now, 1.0);
      }
    }
  }

  /** After any disciplined run, over any number of keys and teams, Begin answers exactly this: no
      slot while live and leaked requests fill the cap; rate limited when the requests let through
      since some earlier one, or the tokens charged since some earlier charge, leave less than one of
      r + r * T; over budget when the key's commits of this day or month reach its budget or share, or
      the team's commits of this day its effective budget; and otherwise admitted. */
  lemma {:induction false} VerdictIs(run: seq<Event>, c: Setup, k: Name, clock: real, now: real)
    requires ValidSetup(c) && Disciplined(Start(clock), run, c) && k in c.keys
    requires now >= After(Start(clock), run, c).clock
    ensures AllKnown(run, c)
    ensures var s, vk := After(Start(clock), run, c), c.keys[k];
            BeginMeter(s.meter, vk, now, c.monthOf).1
            == if NoSlot(s, vk) then ConcurrencyLimited
               else if !WithinRate(RequestDraws(Start(clock), run, c, k), vk.rpm, now) then RateLimited
               else if !WithinRate(TokenDraws(Start(clock), run, c, k), vk.tpm, now) then RateLimited
               else if !WithinBudgets(s, vk, now, c.monthOf) then BudgetExceeded
               else Allowed
  {
    hide Next;
    hide RateStages;
    hide BudgetStages;
    hide NoSlot;
    hide WithinRate;
    hide EffectiveTeamBudget;
    hide KeySpent;
    hide TeamSpent;
    hide Lookup;
    hide BudgetWindow;
    hide DayOf;
    var s, vk := After(Start(clock), run, c), c.keys[k];
    DisciplinedPlays(Start(clock), run, c);
    RateVerdict(run, c, k, clock, now);
    var m := RateStages(s.meter, vk, now).0;
    BudgetsPassIff(m, vk, now, c.monthOf);
    LedgersSay(run, c, k, if vk.team.Some? then vk.team.value.id else [], clock, now);
  }
}
