/** The spend ledgers when calls take effect out of the order of their clocks: a call reads the
    clock before it takes a lock, so one that read it before midnight may come after one that read it
    later. A ledger keeps one window per name, and looking it up for another window deletes it. */
module LateCalls {
  import opened Wrappers
  import opened Metering
  import opened MeteringRuns
  import opened SpendLedgers

  /* ---- which calls look at a ledger ---- */

  /** A Begin reaches the team ledger. */
  predicate AsksTeam(m: Meter, vk: VirtualKey, now: real, monthOf: int -> int, id: Name) {
    var rates := RateStages(m, vk, now);
    && TeamLedgered(vk, id) && rates.1 == Allowed
    && KeyBudgetStage(rates.0, vk, now, monthOf, vk.budget).1
  }

  /** A Begin reaches the key's own ledger, for its budget or for its share of the team's. */
  predicate AsksKey(m: Meter, vk: VirtualKey, now: real, monthOf: int -> int) {
    var rates := RateStages(m, vk, now);
    && rates.1 == Allowed
    && (vk.budget > 0.0 || (ShareOf(vk) > 0.0 && TeamBudgetStage(rates.0, vk, now).1))
  }

  predicate TouchesTeam(s: Sys, e: Event, c: Setup, id: Name)
    requires e.name in c.keys
  {
    match e
    case Begins(_, now) => AsksTeam(s.meter, c.keys[e.name], now, c.monthOf, id)
    case Finalizes(_, _, _, cost, committed, _) => committed && cost > 0.0 && TeamLedgered(c.keys[e.name], id)
  }

  predicate TouchesKey(s: Sys, e: Event, c: Setup, k: Name)
    requires e.name in c.keys
  {
    && c.keys[e.name].name == k
    && match e
       case Begins(_, now) => AsksKey(s.meter, c.keys[e.name], now, c.monthOf)
       case Finalizes(_, _, _, cost, committed, _) => committed && cost > 0.0 && KeyLedgered(c.keys[e.name])
  }

  /* ---- what one call does to the reading of a window ---- */

  /** What a call commits to a window of a ledger. */
  function Charge(e: Event, vk: VirtualKey, mark: Mark, w: Window): real {
    if e.Finalizes? && e.committed && e.cost > 0.0 && mark(Commit(vk, e.now, e.cost)) == Some(w) then e.cost else 0.0
  }

  /** Looking up one window: another one's record is gone. */
  lemma {:induction false} LookupLeaves(ledger: map<Name, Spend>, name: Name, at: Window, w: Window)
    ensures Lookup(LedgerLookup(ledger, name, at).0, name, w) == if at == w then Lookup(ledger, name, w) else 0.0
  {
  }

  lemma {:induction false} AddLeaves(ledger: map<Name, Spend>, name: Name, at: Window, cost: real, w: Window)
    ensures Lookup(AddSpend(ledger, name, at, cost), name, w) == if at == w then Lookup(ledger, name, w) + cost else 0.0
  {
  }

  lemma {:induction false} OtherLeft(ledger: map<Name, Spend>, name: Name, at: Window, cost: real, other: Name,
                                     w: Window)
    requires name != other
    ensures Lookup(LedgerLookup(ledger, name, at).0, other, w) == Lookup(ledger, other, w)
    ensures Lookup(AddSpend(ledger, name, at, cost), other, w) == Lookup(ledger, other, w)
  {
  }

  lemma {:induction false} BeginTeamLedger(m: Meter, vk: VirtualKey, now: real, monthOf: int -> int)
    ensures BeginMeter(m, vk, now, monthOf).0.teamSpend
            == if vk.team.Some? && AsksTeam(m, vk, now, monthOf, vk.team.value.id)
               then LedgerLookup(m.teamSpend, vk.team.value.id, Day(DayOf(now))).0 else m.teamSpend
  {
    hide RateStages;
    hide EffectiveTeamBudget;
    hide KeyBudgetStage;
    hide LedgerLookup;
    hide DayOf;
    assert EffectiveTeamBudget(None) == 0.0 by { NoTeamNoBudget(); }
  }

  lemma {:induction false} LookupTwice(ledger: map<Name, Spend>, name: Name, at: Window)
    ensures LedgerLookup(LedgerLookup(ledger, name, at).0, name, at) == LedgerLookup(ledger, name, at)
  {
  }

  lemma {:induction false} BeginKeyLedger(m: Meter, vk: VirtualKey, now: real, monthOf: int -> int)
    ensures BeginMeter(m, vk, now, monthOf).0.spend
            == if AsksKey(m, vk, now, monthOf)
               then LedgerLookup(m.spend, vk.name, BudgetWindow(vk.monthly, now, monthOf)).0 else m.spend
  {
    hide RateStages;
    hide TeamBudgetStage;
    hide LedgerLookup;
    hide BudgetWindow;
    LookupTwice(m.spend, vk.name, BudgetWindow(vk.monthly, now, monthOf));
  }

  /** The reading of a team's day after any call. */
  lemma {:induction false} TeamReading(s: Sys, e: Event, c: Setup, id: Name, w: Window)
    requires e.name in c.keys
    ensures var before, after := Lookup(s.meter.teamSpend, id, w), Lookup(Next(s, e, c).meter.teamSpend, id, w);
            after == if !TouchesTeam(s, e, c, id) then before
                     else if Day(DayOf(e.now)) == w then before + Charge(e, c.keys[e.name], TeamMark(id), w) else 0.0
  {
    hide BeginMeter;
    hide FinalizeMeter;
    hide LedgerLookup;
    hide AddSpend;
    hide EffectiveTeamBudget;
    hide RateStages;
    hide KeyBudgetStage;
    hide DayOf;
    hide Lookup;
    var vk, at := c.keys[e.name], Day(DayOf(e.now));
    if e.Begins? {
      BeginTeamLedger(s.meter, vk, e.now, c.monthOf);
      LookupLeaves(s.meter.teamSpend, id, at, w);
      if vk.team.Some? && vk.team.value.id != id { OtherLeft(s.meter.teamSpend, vk.team.value.id, at, 0.0, id, w); }
    } else {
      FinalizeTeam(s.meter, vk, e.now, c.monthOf, e.tokens, e.cost, e.committed);
      AddLeaves(s.meter.teamSpend, id, at, e.cost, w);
      if vk.team.Some? && vk.team.value.id != id { OtherLeft(s.meter.teamSpend, vk.team.value.id, at, e.cost, id, w); }
    }
  }

  /** The reading of a key's day or month after any call. */
  lemma {:induction false} KeyReading(s: Sys, e: Event, c: Setup, k: Name, w: Window)
    requires e.name in c.keys
    ensures var vk := c.keys[e.name];
            var before, after := Lookup(s.meter.spend, k, w), Lookup(Next(s, e, c).meter.spend, k, w);
            after == if !TouchesKey(s, e, c, k) then before
                     else if BudgetWindow(vk.monthly, e.now, c.monthOf) == w
                     then before + Charge(e, vk, KeyMark(k, c.monthOf), w) else 0.0
  {
    hide BeginMeter;
    hide FinalizeMeter;
    hide LedgerLookup;
    hide AddSpend;
    hide RateStages;
    hide TeamBudgetStage;
    hide BudgetWindow;
    hide Lookup;
    var vk := c.keys[e.name];
    var at := BudgetWindow(vk.monthly, e.now, c.monthOf);
    if e.Begins? {
      BeginKeyLedger(s.meter, vk, e.now, c.monthOf);
      LookupLeaves(s.meter.spend, k, at, w);
      if vk.name != k { OtherLeft(s.meter.spend, vk.name, at, 0.0, k, w); }
    } else {
      FinalizeKey(s.meter, vk, e.now, c.monthOf, e.tokens, e.cost, e.committed);
      AddLeaves(s.meter.spend, k, at, e.cost, w);
      if vk.name != k { OtherLeft(s.meter.spend, vk.name, at, e.cost, k, w); }
    }
  }

  /* ---- which calls lose what was recorded ---- */

  /** A call of another day looks at a team ledger that holds something for this one. */
  predicate HarmsTeam(s: Sys, e: Event, c: Setup, id: Name, w: Window)
    requires e.name in c.keys
  {
    TouchesTeam(s, e, c, id) && Day(DayOf(e.now)) != w && Lookup(s.meter.teamSpend, id, w) != 0.0
  }

  predicate HarmsKey(s: Sys, e: Event, c: Setup, k: Name, w: Window)
    requires e.name in c.keys
  {
    && TouchesKey(s, e, c, k) && BudgetWindow(c.keys[e.name].monthly, e.now, c.monthOf) != w
    && Lookup(s.meter.spend, k, w) != 0.0
  }

  /** One call, Begin or Finalize: the reading of a window stays right (what it was, and what the call
      commits to it) exactly when the call is of that window, or does not look at the ledger, or
      nothing is recorded for the window. */
  lemma {:induction false} ReadingRightIff(s: Sys, e: Event, c: Setup, id: Name, w: Window)
    requires e.name in c.keys
    ensures Lookup(Next(s, e, c).meter.teamSpend, id, w)
            == Lookup(s.meter.teamSpend, id, w) + Charge(e, c.keys[e.name], TeamMark(id), w)
            <==> !HarmsTeam(s, e, c, id, w)
    ensures Lookup(Next(s, e, c).meter.spend, id, w)
            == Lookup(s.meter.spend, id, w) + Charge(e, c.keys[e.name], KeyMark(id, c.monthOf), w)
            <==> !HarmsKey(s, e, c, id, w)
  {
    hide Next;
    hide Lookup;
    hide AsksTeam;
    hide AsksKey;
    hide EffectiveTeamBudget;
    hide BudgetWindow;
    hide DayOf;
    TeamReading(s, e, c, id, w);
    KeyReading(s, e, c, id, w);
  }

  /* ---- whole runs in any order of clocks ---- */

  lemma {:induction false} TotalStep(s: Sys, e: Event, c: Setup, mark: Mark, w: Window)
    requires e.name in c.keys
    ensures Total(Next(s, e, c).commits, mark, w) == Total(s.commits, mark, w) + Charge(e, c.keys[e.name], mark, w)
  {
    hide BeginMeter;
    hide FinalizeMeter;
    if e.Finalizes? && e.committed && e.cost > 0.0 {
      var cm := Commit(c.keys[e.name], e.now, e.cost);
      assert (s.commits + [cm])[..|s.commits|] == s.commits;
    }
  }

  /** What was committed to a window and is no longer recorded. */
  function TeamGap(s: Sys, id: Name, w: Window): real {
    Total(s.commits, TeamMark(id), w) - Lookup(s.meter.teamSpend, id, w)
  }

  function KeyGap(s: Sys, k: Name, w: Window, monthOf: int -> int): real {
    Total(s.commits, KeyMark(k, monthOf), w) - Lookup(s.meter.spend, k, w)
  }

  lemma {:induction false} TeamGapStep(s: Sys, e: Event, c: Setup, id: Name, w: Window)
    requires e.name in c.keys && Lookup(s.meter.teamSpend, id, w) >= 0.0
    ensures Lookup(Next(s, e, c).meter.teamSpend, id, w) >= 0.0
    ensures TeamGap(Next(s, e, c), id, w)
            == TeamGap(s, id, w) + if HarmsTeam(s, e, c, id, w) then Lookup(s.meter.teamSpend, id, w) else 0.0
  {
    hide Next;
    hide Lookup;
    hide Total;
    hide AsksTeam;
    hide EffectiveTeamBudget;
    hide DayOf;
    TeamReading(s, e, c, id, w);
    TotalStep(s, e, c, TeamMark(id), w);
  }

  lemma {:induction false} KeyGapStep(s: Sys, e: Event, c: Setup, k: Name, w: Window)
    requires e.name in c.keys && Lookup(s.meter.spend, k, w) >= 0.0
    ensures Lookup(Next(s, e, c).meter.spend, k, w) >= 0.0
    ensures KeyGap(Next(s, e, c), k, w, c.monthOf)
            == KeyGap(s, k, w, c.monthOf) + if HarmsKey(s, e, c, k, w) then Lookup(s.meter.spend, k, w) else 0.0
  {
    hide Next;
    hide Lookup;
    hide Total;
    hide AsksKey;
    hide BudgetWindow;
    KeyReading(s, e, c, k, w);
    TotalStep(s, e, c, KeyMark(k, c.monthOf), w);
  }

  predicate NeverHarmsTeam(s: Sys, run: seq<Event>, c: Setup, id: Name, w: Window)
    requires AllKnown(run, c)
    decreases |run|
  {
    run == [] || (!HarmsTeam(s, run[0], c, id, w) && NeverHarmsTeam(Next(s, run[0], c), run[1..], c, id, w))
  }

  predicate NeverHarmsKey(s: Sys, run: seq<Event>, c: Setup, k: Name, w: Window)
    requires AllKnown(run, c)
    decreases |run|
  {
    run == [] || (!HarmsKey(s, run[0], c, k, w) && NeverHarmsKey(Next(s, run[0], c), run[1..], c, k, w))
  }

  /** What is lost is never found again. */
  lemma {:induction false} TeamGapRun(s: Sys, run: seq<Event>, c: Setup, id: Name, w: Window)
    requires AllKnown(run, c) && Lookup(s.meter.teamSpend, id, w) >= 0.0
    ensures TeamGap(Played(s, run, c), id, w) >= TeamGap(s, id, w)
    ensures TeamGap(Played(s, run, c), id, w) == TeamGap(s, id, w) <==> NeverHarmsTeam(s, run, c, id, w)
    decreases |run|
  {
    hide Next;
    hide TeamGap;
    hide TouchesTeam;
    if run != [] {
      TeamGapStep(s, run[0], c, id, w);
      TeamGapRun(Next(s, run[0], c), run[1..], c, id, w);
    }
  }

  lemma {:induction false} KeyGapRun(s: Sys, run: seq<Event>, c: Setup, k: Name, w: Window)
    requires AllKnown(run, c) && Lookup(s.meter.spend, k, w) >= 0.0
    ensures KeyGap(Played(s, run, c), k, w, c.monthOf) >= KeyGap(s, k, w, c.monthOf)
    ensures KeyGap(Played(s, run, c), k, w, c.monthOf) == KeyGap(s, k, w, c.monthOf) <==> NeverHarmsKey(s, run, c, k, w)
    decreases |run|
  {
    hide Next;
    hide KeyGap;
    hide TouchesKey;
    hide BudgetWindow;
    if run != [] {
      KeyGapStep(s, run[0], c, k, w);
      KeyGapRun(Next(s, run[0], c), run[1..], c, k, w);
    }
  }

  /** In every run, disciplined or not and in any order of clocks, a record never holds more than was
      committed to its window, and it holds all of it exactly when no call of another window looked at
      the ledger while something was recorded for this one. */
  lemma {:induction false} RecordsExactIff(run: seq<Event>, c: Setup, name: Name, w: Window, clock: real)
    requires AllKnown(run, c)
    ensures var s := Played(Start(clock), run, c);
            && Lookup(s.meter.teamSpend, name, w) <= Total(s.commits, TeamMark(name), w)
            && (Lookup(s.meter.teamSpend, name, w) == Total(s.commits, TeamMark(name), w)
                <==> NeverHarmsTeam(Start(clock), run, c, name, w))
            && Lookup(s.meter.spend, name, w) <= Total(s.commits, KeyMark(name, c.monthOf), w)
            && (Lookup(s.meter.spend, name, w) == Total(s.commits, KeyMark(name, c.monthOf), w)
                <==> NeverHarmsKey(Start(clock), run, c, name, w))
  {
    hide Next;
    hide NeverHarmsTeam;
    hide NeverHarmsKey;
    TeamGapRun(Start(clock), run, c, name, w);
    KeyGapRun(Start(clock), run, c, name, w);
  }

  /* ---- three calls around midnight ---- */

  /** A key with nothing but a team budget of 10. */
  function TeamOnly(k: Name, id: Name): VirtualKey {
    VirtualKey(k, 0, 0, 0, 0.0, false, Some(Team(id, 10.0, 0.0, 0.0, None)))
  }

  /** A request of today that costs 7, and then a call that read the clock a second before midnight. */
  function AroundMidnight(k: Name, late: Event): seq<Event> {
    [Begins(k, 86400.0), Finalizes(k, 86400.0, 0, 7.0, true, true), late]
  }

  lemma {:induction false} Midnight()
    ensures DayOf(86400.0) == 1 && DayOf(86399.0) == 0
  {
    assert 86400.0 / 86400.0 == 1.0;
    assert 0.0 <= 86399.0 / 86400.0 < 1.0;
  }

  lemma {:induction false} TeamOnlyBudget(k: Name, id: Name)
    ensures EffectiveTeamBudget(TeamOnly(k, id).team) == 10.0
  {
  }

  lemma {:induction false} TeamOnlyAsks(m: Meter, k: Name, id: Name, now: real, monthOf: int -> int)
    ensures AsksTeam(m, TeamOnly(k, id), now, monthOf, id)
  {
    TeamOnlyBudget(k, id);
    hide EffectiveTeamBudget;
  }

  /** After the first two calls today's record is 7. */
  lemma {:induction false} TodaysSeven(c: Setup, k: Name, id: Name)
    requires k in c.keys && c.keys[k] == TeamOnly(k, id)
    ensures var today := [Begins(k, 86400.0), Finalizes(k, 86400.0, 0, 7.0, true, true)];
            Lookup(Played(Start(0.0), today, c).meter.teamSpend, id, Day(1)) == 7.0
  {
    hide Next;
    hide AsksTeam;
    hide EffectiveTeamBudget;
    hide DayOf;
    Midnight();
    TeamOnlyBudget(k, id);
    var first, second := Begins(k, 86400.0), Finalizes(k, 86400.0, 0, 7.0, true, true);
    var today := [first, second];
    var s, w := Start(0.0), Day(1);
    assert today[1..] == [second] && [second][1..] == [];
    var t := Next(s, first, c);
    TeamReading(s, first, c, id, w);
    TeamReading(t, second, c, id, w);
    assert Played(t, [second], c) == Played(Next(t, second, c), [], c) == Next(t, second, c);
  }

  /** A late Begin leaves today's record at nothing, although 7 was committed; a late commit does the
      same. */
  lemma {:induction false} LateCallLosesDay(c: Setup, k: Name, id: Name, late: Event)
    requires k in c.keys && c.keys[k] == TeamOnly(k, id)
    requires late == Begins(k, 86399.0) || late == Finalizes(k, 86399.0, 0, 2.0, true, true)
    ensures var s := Played(Start(0.0), AroundMidnight(k, late), c);
            Lookup(s.meter.teamSpend, id, Day(1)) == 0.0 && Total(s.commits, TeamMark(id), Day(1)) == 7.0
  {
    hide Next;
    hide AsksTeam;
    hide EffectiveTeamBudget;
    hide DayOf;
    hide Lookup;
    hide Total;
    Midnight();
    TeamOnlyBudget(k, id);
    var first, second := Begins(k, 86400.0), Finalizes(k, 86400.0, 0, 7.0, true, true);
    var today, w, mark := [first, second], Day(1), TeamMark(id);
    assert AroundMidnight(k, late) == today + [late];
    PlayedConcat(Start(0.0), today, [late], c);
    TodaysSeven(c, k, id);
    var s := Played(Start(0.0), today, c);
    assert [late][1..] == [] && Played(s, [late], c) == Played(Next(s, late, c), [], c) == Next(s, late, c);
    TeamOnlyAsks(s.meter, k, id, 86399.0, c.monthOf);
    TeamReading(s, late, c, id, w);
    var t := Next(Start(0.0), first, c);
    assert today[1..] == [second] && [second][1..] == [];
    assert Played(t, [second], c) == Played(Next(t, second, c), [], c) == Next(t, second, c);
    TotalStep(Start(0.0), first, c, mark, w);
    TotalStep(t, second, c, mark, w);
    TotalStep(s, late, c, mark, w);
    assert Total(Start(0.0).commits, mark, w) == 0.0 by { NothingCommitted(mark, w); }
  }

  lemma {:induction false} NothingCommitted(mark: Mark, w: Window)
    ensures Total([], mark, w) == 0.0
  {
  }

  /** The late Begin gets past the budget: it looked at yesterday. */
  lemma {:induction false} LateBeginIsAdmitted(m: Meter, k: Name, id: Name, monthOf: int -> int)
    requires Lookup(m.teamSpend, id, Day(0)) < 10.0
    ensures BeginMeter(m, TeamOnly(k, id), 86399.0, monthOf).1 == Allowed
  {
    Midnight();
    TeamOnlyBudget(k, id);
    hide DayOf;
    hide EffectiveTeamBudget;
  }
}
