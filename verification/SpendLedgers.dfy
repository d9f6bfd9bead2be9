/** The spend ledgers over whole runs: each record is exactly what was committed in its window,
    and a team's record stays below its effective budget plus what its open slots can add. */
module SpendLedgers {
  import opened Wrappers
  import opened Sums
  import opened Metering
  import opened MeteringRuns

  /* ---- a ledger against the history of commits ---- */

  /** Where a commit is recorded in a given ledger, if at all. */
  type Mark = Commit -> Option<Window>

  function Total(commits: seq<Commit>, mark: Mark, w: Window): real {
    if commits == [] then 0.0
    else
      var last := commits[|commits| - 1];
      Total(commits[..|commits| - 1], mark, w) + if mark(last) == Some(w) then last.cost else 0.0
  }

  /** Same kind of window, not later. */
  predicate NotAfter(a: Window, b: Window) {
    match a
    case Day(d) => b.Day? && d <= b.day
    case Month(m) => b.Month? && m <= b.month
  }

  predicate AllNotAfter(commits: seq<Commit>, mark: Mark, w: Window) {
    forall i :: 0 <= i < |commits| && mark(commits[i]).Some? ==> NotAfter(mark(commits[i]).value, w)
  }

  function Lookup(ledger: map<Name, Spend>, name: Name, w: Window): real { LedgerLookup(ledger, name, w).1 }

  /** The current window's record is the total committed in it; nothing recorded is in the future. */
  predicate Exact(ledger: map<Name, Spend>, name: Name, commits: seq<Commit>, mark: Mark, w: Window) {
    && Lookup(ledger, name, w) == Total(commits, mark, w)
    && (name in ledger ==> NotAfter(ledger[name].window, w))
    && AllNotAfter(commits, mark, w)
  }

  lemma {:induction false} NothingYet(commits: seq<Commit>, mark: Mark, w: Window, later: Window)
    requires AllNotAfter(commits, mark, w) && NotAfter(w, later) && w != later
    ensures Total(commits, mark, later) == 0.0
  {
    if commits != [] {
      NothingYet(commits[..|commits| - 1], mark, w, later);
      var last := commits[|commits| - 1];
      assert mark(last).Some? ==> NotAfter(mark(last).value, w);
    }
  }

  /** Time moves on: a new window starts empty on both sides. */
  lemma {:induction false} ExactAdvances(ledger: map<Name, Spend>, name: Name, commits: seq<Commit>, mark: Mark,
                                         w: Window, later: Window)
    requires Exact(ledger, name, commits, mark, w) && NotAfter(w, later)
    ensures Exact(ledger, name, commits, mark, later)
  {
    if w != later { NothingYet(commits, mark, w, later); }
  }

  /** A call that only looks the record up, or leaves it alone. */
  predicate Looked(ledger: map<Name, Spend>, after: map<Name, Spend>, name: Name, w: Window) {
    if name in after then name in ledger && after[name] == ledger[name]
    else name !in ledger || ledger[name].window != w
  }

  lemma {:induction false} ExactLooked(ledger: map<Name, Spend>, after: map<Name, Spend>, name: Name,
                                       commits: seq<Commit>, mark: Mark,
                    w: Window)
    requires Exact(ledger, name, commits, mark, w) && Looked(ledger, after, name, w)
    ensures Exact(after, name, commits, mark, w)
  {
  }

  lemma {:induction false} ExactAdds(ledger: map<Name, Spend>, name: Name, commits: seq<Commit>, mark: Mark,
                                     w: Window, cm: Commit)
    requires Exact(ledger, name, commits, mark, w) && mark(cm) == Some(w)
    ensures Exact(AddSpend(ledger, name, w, cm.cost), name, commits + [cm], mark, w)
  {
    assert (commits + [cm])[..|commits|] == commits;
  }

  lemma {:induction false} ExactSkips(ledger: map<Name, Spend>, name: Name, commits: seq<Commit>, mark: Mark,
                                      w: Window, cm: Commit)
    requires Exact(ledger, name, commits, mark, w) && mark(cm).None?
    ensures Exact(ledger, name, commits + [cm], mark, w)
  {
    assert (commits + [cm])[..|commits|] == commits;
  }

  /* ---- the two ledgers ---- */

  predicate KeyLedgered(vk: VirtualKey) { vk.budget > 0.0 || ShareOf(vk) > 0.0 }

  function KeyMark(name: Name, monthOf: int -> int): Mark {
    (cm: Commit) => if cm.vk.name == name && KeyLedgered(cm.vk) then Some(BudgetWindow(cm.vk.monthly, cm.now,
        monthOf)) else None
  }

  predicate TeamLedgered(vk: VirtualKey, id: Name) {
    vk.team.Some? && vk.team.value.id == id && EffectiveTeamBudget(vk.team) > 0.0
  }

  function TeamMark(id: Name): Mark {
    (cm: Commit) => if TeamLedgered(cm.vk, id) then Some(Day(DayOf(cm.now))) else None
  }

  lemma {:induction false} DayAdvances(a: real, b: real)
    requires a <= b
    ensures DayOf(a) <= DayOf(b)
  {
  }

  lemma {:induction false} WindowAdvances(monthly: bool, a: real, b: real, monthOf: int -> int)
    requires a <= b && IsCalendar(monthOf)
    ensures NotAfter(BudgetWindow(monthly, a, monthOf), BudgetWindow(monthly, b, monthOf))
  {
    DayAdvances(a, b);
  }

  lemma {:induction false} StagesLook(m: Meter, vk: VirtualKey, now: real, monthOf: int -> int, limit: real, id: Name)
    ensures Looked(m.spend, KeyBudgetStage(m, vk, now, monthOf, limit).0.spend, vk.name,
            BudgetWindow(vk.monthly, now, monthOf))
    ensures Looked(m.teamSpend, TeamBudgetStage(m, vk, now).0.teamSpend, id, Day(DayOf(now)))
  {
    hide BudgetWindow;
    hide EffectiveTeamBudget;
    hide DayOf;
  }

  lemma {:induction false} LookedTwice(a: map<Name, Spend>, b: map<Name, Spend>, c: map<Name, Spend>, name: Name,
                                       w: Window)
    requires Looked(a, b, name, w) && Looked(b, c, name, w)
    ensures Looked(a, c, name, w)
  {
  }

  lemma {:induction false} BudgetStagesLook(m: Meter, vk: VirtualKey, now: real, monthOf: int -> int, id: Name)
    ensures var t := BudgetStages(m, vk, now, monthOf).0;
            && Looked(m.spend, t.spend, vk.name, BudgetWindow(vk.monthly, now, monthOf))
            && Looked(m.teamSpend, t.teamSpend, id, Day(DayOf(now)))
  {
    hide KeyBudgetStage;
    hide TeamBudgetStage;
    hide BudgetWindow;
    hide DayOf;
    var w := BudgetWindow(vk.monthly, now, monthOf);
    var key := KeyBudgetStage(m, vk, now, monthOf, vk.budget).0;
    StagesLook(m, vk, now, monthOf, vk.budget, id);
    var team := TeamBudgetStage(key, vk, now).0;
    StagesLook(key, vk, now, monthOf, vk.budget, id);
    StagesLook(team, vk, now, monthOf, ShareOf(vk), id);
    var share := KeyBudgetStage(team, vk, now, monthOf, ShareOf(vk)).0;
    LookedTwice(m.spend, key.spend, share.spend, vk.name, w);
  }

  lemma {:induction false} BeginLooks(m: Meter, vk: VirtualKey, now: real, monthOf: int -> int, id: Name)
    ensures var t := BeginMeter(m, vk, now, monthOf).0;
            && Looked(m.spend, t.spend, vk.name, BudgetWindow(vk.monthly, now, monthOf))
            && Looked(m.teamSpend, t.teamSpend, id, Day(DayOf(now)))
  {
    hide RateStages;
    hide BudgetStages;
    hide BudgetWindow;
    hide DayOf;
    BudgetStagesLook(RateStages(m, vk, now).0, vk, now, monthOf, id);
  }

  /** The key ledger is exact for a key that has one. */
  predicate KeyExact(s: Sys, vk: VirtualKey, monthOf: int -> int) {
    KeyLedgered(vk) ==>
      Exact(s.meter.spend, vk.name, s.commits, KeyMark(vk.name, monthOf), BudgetWindow(vk.monthly, s.clock, monthOf))
  }

  predicate TeamExact(s: Sys, id: Name) {
    Exact(s.meter.teamSpend, id, s.commits, TeamMark(id), Day(DayOf(s.clock)))
  }

  lemma {:induction false} FinalizeTeam(m: Meter, vk: VirtualKey, now: real, monthOf: int -> int, tokens: int,
                                        cost: real, committed: bool)
    ensures FinalizeMeter(m, vk, now, monthOf, tokens, cost, committed).teamSpend
            == if committed && cost > 0.0 && vk.team.Some? && EffectiveTeamBudget(vk.team) > 0.0
               then AddSpend(m.teamSpend, vk.team.value.id, Day(DayOf(now)), cost) else m.teamSpend
  {
    hide ChargeTokens;
    hide ChargeKey;
    hide EffectiveTeamBudget;
    hide AddSpend;
    ReleaseLeavesLedgers(m, vk);
  }

  lemma {:induction false} ReleaseLeavesLedgers(m: Meter, vk: VirtualKey)
    ensures ReleaseSlot(m, vk).spend == m.spend && ReleaseSlot(m, vk).teamSpend == m.teamSpend
  {
  }

  lemma {:induction false} FinalizeKey(m: Meter, vk: VirtualKey, now: real, monthOf: int -> int, tokens: int,
                                       cost: real, committed: bool)
    ensures FinalizeMeter(m, vk, now, monthOf, tokens, cost, committed).spend
            == if committed && cost > 0.0 && KeyLedgered(vk)
               then AddSpend(m.spend, vk.name, BudgetWindow(vk.monthly, now, monthOf), cost) else m.spend
  {
    hide ChargeTokens;
    hide ChargeTeam;
    hide BudgetWindow;
    hide AddSpend;
    ReleaseLeavesLedgers(m, vk);
  }

  lemma {:induction false} AddElsewhere(ledger: map<Name, Spend>, name: Name, window: Window, cost: real, other: Name,
                                        w: Window)
    requires name != other
    ensures Looked(ledger, AddSpend(ledger, name, window, cost), other, w)
  {
  }

  /** A Finalize against one ledger: a charge that is labelled, or one the ledger does not see. */
  lemma {:induction false} CommitStep(ledger: map<Name, Spend>, after: map<Name, Spend>, name: Name,
                                      commits: seq<Commit>, mark: Mark,
                   w: Window, cm: Commit, committed: bool)
    requires Exact(ledger, name, commits, mark, w) && (committed ==> mark(cm).None? || mark(cm) == Some(w))
    requires if committed && mark(cm) == Some(w) then after == AddSpend(ledger, name, w, cm.cost)
             else Looked(ledger, after, name, w)
    ensures Exact(after, name, if committed then commits + [cm] else commits, mark, w)
  {
    if committed && mark(cm) == Some(w) {
      ExactAdds(ledger, name, commits, mark, w, cm);
    } else {
      ExactLooked(ledger, after, name, commits, mark, w);
      if committed { ExactSkips(after, name, commits, mark, w, cm); }
    }
  }

  lemma {:induction false} TeamExactStep(s: Sys, e: Event, c: Setup, id: Name)
    requires ValidSetup(c) && Follows(s, e, c) && TeamExact(s, id)
    ensures TeamExact(Next(s, e, c), id)
  {
    hide BeginMeter;
    hide FinalizeMeter;
    hide Exact;
    hide AddSpend;
    hide EffectiveTeamBudget;
    hide Looked;
    var vk, w := c.keys[e.name], Day(DayOf(e.now));
    DayAdvances(s.clock, e.now);
    ExactAdvances(s.meter.teamSpend, id, s.commits, TeamMark(id), Day(DayOf(s.clock)), w);
    if e.Begins? {
      BeginLooks(s.meter, vk, e.now, c.monthOf, id);
      ExactLooked(s.meter.teamSpend, Next(s, e, c).meter.teamSpend, id, s.commits, TeamMark(id), w);
    } else {
      var cm := Commit(vk, e.now, e.cost);
      FinalizeTeam(s.meter, vk, e.now, c.monthOf, e.tokens, e.cost, e.committed);
      TeamChargeSeen(s.meter, vk, e.now, c.monthOf, e.tokens, e.cost, e.committed, id);
      CommitStep(s.meter.teamSpend, Next(s, e, c).meter.teamSpend, id, s.commits, TeamMark(id), w, cm,
                 e.committed && e.cost > 0.0);
    }
  }

  lemma {:induction false} TeamChargeSeen(m: Meter, vk: VirtualKey, now: real, monthOf: int -> int, tokens: int,
                                          cost: real,
                       committed: bool, id: Name)
    ensures var after := FinalizeMeter(m, vk, now, monthOf, tokens, cost, committed).teamSpend;
            if committed && cost > 0.0 && TeamLedgered(vk, id)
            then after == AddSpend(m.teamSpend, id, Day(DayOf(now)), cost)
            else Looked(m.teamSpend, after, id, Day(DayOf(now)))
  {
    hide FinalizeMeter;
    hide EffectiveTeamBudget;
    hide DayOf;
    FinalizeTeam(m, vk, now, monthOf, tokens, cost, committed);
    if vk.team.Some? && vk.team.value.id != id {
      AddElsewhere(m.teamSpend, vk.team.value.id, Day(DayOf(now)), cost, id, Day(DayOf(now)));
    }
  }

  lemma {:induction false} KeyExactStep(s: Sys, e: Event, c: Setup, k: Name)
    requires ValidSetup(c) && Follows(s, e, c) && k in c.keys && KeyExact(s, c.keys[k], c.monthOf)
    ensures KeyExact(Next(s, e, c), c.keys[k], c.monthOf)
  {
    hide BeginMeter;
    hide FinalizeMeter;
    hide Exact;
    hide AddSpend;
    hide BudgetWindow;
    hide Looked;
    var vk := c.keys[k];
    if KeyLedgered(vk) {
      var w, mark := BudgetWindow(vk.monthly, e.now, c.monthOf), KeyMark(k, c.monthOf);
      WindowAdvances(vk.monthly, s.clock, e.now, c.monthOf);
      ExactAdvances(s.meter.spend, k, s.commits, mark, BudgetWindow(vk.monthly, s.clock, c.monthOf), w);
      if e.Begins? {
        BeginLooksAt(s, e, c, k, w);
        ExactLooked(s.meter.spend, Next(s, e, c).meter.spend, k, s.commits, mark, w);
      } else {
        var cm := Commit(c.keys[e.name], e.now, e.cost);
        KeyChargeSeen(s.meter, c.keys[e.name], e.now, c.monthOf, e.tokens, e.cost, e.committed, k, w);
        CommitStep(s.meter.spend, Next(s, e, c).meter.spend, k, s.commits, mark, w, cm, e.committed && e.cost > 0.0);
      }
    }
  }

  lemma {:induction false} BeginLooksAt(s: Sys, e: Event, c: Setup, k: Name, w: Window)
    requires ValidSetup(c) && Follows(s, e, c) && k in c.keys && e.Begins?
    requires w == BudgetWindow(c.keys[k].monthly, e.now, c.monthOf)
    ensures Looked(s.meter.spend, Next(s, e, c).meter.spend, k, w)
  {
    hide BeginMeter;
    hide BudgetWindow;
    if k == e.name {
      BeginLooks(s.meter, c.keys[k], e.now, c.monthOf, []);
    } else {
      OtherKeysUntouched(s, e, c, k);
    }
  }

  lemma {:induction false} KeyChargeSeen(m: Meter, vk: VirtualKey, now: real, monthOf: int -> int, tokens: int,
                                         cost: real,
                      committed: bool,
                      k: Name, w: Window)
    requires vk.name == k ==> w == BudgetWindow(vk.monthly, now, monthOf)
    ensures var after := FinalizeMeter(m, vk, now, monthOf, tokens, cost, committed).spend;
            if committed && cost > 0.0 && vk.name == k && KeyLedgered(vk) then after == AddSpend(m.spend, k, w, cost)
            else Looked(m.spend, after, k, w)
  {
    hide FinalizeMeter;
    hide BudgetWindow;
    FinalizeKey(m, vk, now, monthOf, tokens, cost, committed);
    if vk.name != k { AddElsewhere(m.spend, vk.name, BudgetWindow(vk.monthly, now, monthOf), cost, k, w); }
  }

  lemma {:induction false} KeyRunExact(s: Sys, run: seq<Event>, c: Setup, k: Name)
    requires ValidSetup(c) && Disciplined(s, run, c) && k in c.keys && KeyExact(s, c.keys[k], c.monthOf)
    ensures KeyExact(After(s, run, c), c.keys[k], c.monthOf)
    decreases |run|
  {
    hide Next;
    if run != [] {
      KeyExactStep(s, run[0], c, k);
      KeyRunExact(Next(s, run[0], c), run[1..], c, k);
    }
  }

  lemma {:induction false} TeamRunExact(s: Sys, run: seq<Event>, c: Setup, id: Name)
    requires ValidSetup(c) && Disciplined(s, run, c) && TeamExact(s, id)
    ensures TeamExact(After(s, run, c), id)
    decreases |run|
  {
    hide Next;
    if run != [] {
      TeamExactStep(s, run[0], c, id);
      TeamRunExact(Next(s, run[0], c), run[1..], c, id);
    }
  }

  /** In every disciplined run, whatever the interleaving of keys, a key's record for the current
      day or month is the sum of the costs the key committed in it. */
  lemma {:induction false} KeyLedgerIsExact(run: seq<Event>, c: Setup, k: Name, clock: real)
    requires ValidSetup(c) && Disciplined(Start(clock), run, c) && k in c.keys && KeyLedgered(c.keys[k])
    ensures var s := After(Start(clock), run, c);
            var w := BudgetWindow(c.keys[k].monthly, s.clock, c.monthOf);
            Lookup(s.meter.spend, k, w) == Total(s.commits, KeyMark(k, c.monthOf), w)
  {
    hide Next;
    KeyRunExact(Start(clock), run, c, k);
  }

  /** In every disciplined run, whatever keys and ledgers are configured, a team's record for the
      current day is the sum of the costs all its keys committed that day. */
  lemma {:induction false} TeamLedgerIsExact(run: seq<Event>, c: Setup, id: Name, clock: real)
    requires ValidSetup(c) && Disciplined(Start(clock), run, c)
    ensures var s := After(Start(clock), run, c);
            Lookup(s.meter.teamSpend, id, Day(DayOf(s.clock))) == Total(s.commits, TeamMark(id), Day(DayOf(s.clock)))
  {
    hide Next;
    TeamRunExact(Start(clock), run, c, id);
  }

  /* ---- the team budget ---- */

  /** Exactly the keys of a team. */
  ghost predicate TeamKeys(c: Setup, id: Name, keys: set<Name>) {
    forall k :: k in keys <==> k in c.keys && c.keys[k].team.Some? && c.keys[k].team.value.id == id
  }

  predicate AllCapped(c: Setup, keys: set<Name>) {
    forall k :: k in keys ==> k in c.keys && c.keys[k].maxConcurrency > 0
  }

  predicate Budgeted(c: Setup, keys: set<Name>, budget: real) {
    budget > 0.0 && forall k :: k in keys ==> k in c.keys && EffectiveTeamBudget(c.keys[k].team) == budget
  }

  function SlackAt(s: Sys, c: Setup): Name -> int { k => if k in c.keys then Slack(s, c.keys[k]) else 0 }

  function CapAt(c: Setup): Name -> int { k => if k in c.keys then c.keys[k].maxConcurrency else 0 }

  predicate TeamBelow(m: Meter, id: Name, level: real) { id in m.teamSpend ==> m.teamSpend[id].spent < level }

  ghost predicate TeamInv(s: Sys, c: Setup, id: Name, keys: set<Name>, budget: real) {
    && (forall k :: k in keys ==> k in c.keys && SlotsInv(s, c.keys[k]))
    && TeamBelow(s.meter, id, SpendLevel(budget, Sum(keys, SlackAt(s, c)), c.maxCost))
  }

  lemma {:induction false} BudgetStagesTeam(m: Meter, vk: VirtualKey, now: real, monthOf: int -> int, id: Name)
    requires vk.team.Some? && vk.team.value.id == id && EffectiveTeamBudget(vk.team) > 0.0
    ensures var r := BudgetStages(m, vk, now, monthOf);
            r.1 ==> TeamBelow(r.0, id, EffectiveTeamBudget(vk.team))
  {
    hide KeyBudgetStage;
    hide EffectiveTeamBudget;
    hide DayOf;
  }

  lemma {:induction false} BeginTeam(m: Meter, vk: VirtualKey, now: real, monthOf: int -> int, id: Name)
    requires vk.team.Some? && vk.team.value.id == id && EffectiveTeamBudget(vk.team) > 0.0
    ensures var r := BeginMeter(m, vk, now, monthOf);
            r.1 == Allowed ==> TeamBelow(r.0, id, EffectiveTeamBudget(vk.team))
  {
    hide RateStages;
    hide BudgetStages;
    BudgetStagesTeam(RateStages(m, vk, now).0, vk, now, monthOf, id);
  }

  lemma {:induction false} AddBelow(ledger: map<Name, Spend>, name: Name, w: Window, cost: real, level: real,
                                    limit: real)
    requires (name in ledger ==> ledger[name].spent < level) && level > 0.0 && cost <= limit
    ensures AddSpend(ledger, name, w, cost)[name].spent < level + limit
  {
  }

  /** How a call moves the slots of the team without an admitted request. */
  lemma {:induction false} TeamSlackStep(s: Sys, e: Event, c: Setup, keys: set<Name>)
    requires ValidSetup(c) && Follows(s, e, c) && AllCapped(c, keys) && e.name in keys
    requires forall k :: k in keys ==> SlotsInv(s, c.keys[k])
    ensures var vk := c.keys[e.name];
            Sum(keys, SlackAt(Next(s, e, c), c)) - Sum(keys, SlackAt(s, c))
            == (match e
                case Begins(_, now) => if BeginMeter(s.meter, vk, now, c.monthOf).1 == Allowed then -1 else 0
                case Finalizes(_, _, _, _, _, admitted) => if admitted then 1 else 0)
  {
    hide BeginMeter;
    hide FinalizeMeter;
    SlotsStep(s, e, c);
    SlackStep(s, e, c);
    var f, g := SlackAt(s, c), SlackAt(Next(s, e, c), c);
    forall k | k in keys && k != e.name ensures f(k) == g(k) { OtherKeysUntouched(s, e, c, k); }
    SumChange(keys, f, g, e.name);
  }

  lemma {:induction false} TeamSlackElsewhere(s: Sys, e: Event, c: Setup, keys: set<Name>)
    requires ValidSetup(c) && Follows(s, e, c) && AllCapped(c, keys) && e.name !in keys
    ensures Sum(keys, SlackAt(Next(s, e, c), c)) == Sum(keys, SlackAt(s, c))
  {
    hide Next;
    var f, g := SlackAt(s, c), SlackAt(Next(s, e, c), c);
    forall k | k in keys ensures f(k) == g(k) { OtherKeysUntouched(s, e, c, k); }
    SumEqual(keys, f, g);
  }

  lemma {:induction false} TeamSlackNonNegative(s: Sys, c: Setup, keys: set<Name>)
    requires AllCapped(c, keys) && forall k :: k in keys ==> SlotsInv(s, c.keys[k])
    ensures Sum(keys, SlackAt(s, c)) >= 0
  {
    SumNonNegative(keys, SlackAt(s, c));
  }

  lemma {:induction false} SlotsEverywhere(s: Sys, e: Event, c: Setup, k: Name)
    requires ValidSetup(c) && Follows(s, e, c) && k in c.keys && SlotsInv(s, c.keys[k])
    ensures SlotsInv(Next(s, e, c), c.keys[k])
  {
    hide BeginMeter;
    hide FinalizeMeter;
    if k == e.name { SlotsStep(s, e, c); } else { OtherKeysUntouched(s, e, c, k); }
  }

  lemma {:induction false} TeamBeginStep(s: Sys, e: Event, c: Setup, id: Name, budget: real, level: real,
                                         levelAfter: real)
    requires ValidSetup(c) && Follows(s, e, c) && e.Begins? && TeamLedgered(c.keys[e.name], id)
    requires EffectiveTeamBudget(c.keys[e.name].team) == budget && TeamBelow(s.meter, id, level)
    requires if BeginMeter(s.meter, c.keys[e.name], e.now, c.monthOf).1 == Allowed then levelAfter >= budget
            else levelAfter == level
    ensures TeamBelow(Next(s, e, c).meter, id, levelAfter)
  {
    hide BeginMeter;
    hide EffectiveTeamBudget;
    var vk := c.keys[e.name];
    BeginLooks(s.meter, vk, e.now, c.monthOf, id);
    BeginTeam(s.meter, vk, e.now, c.monthOf, id);
  }

  lemma {:induction false} TeamFinalizeStep(s: Sys, e: Event, c: Setup, id: Name, level: real)
    requires ValidSetup(c) && Follows(s, e, c) && e.Finalizes? && TeamLedgered(c.keys[e.name], id)
    requires TeamBelow(s.meter, id, level) && level > 0.0
    ensures TeamBelow(Next(s, e, c).meter, id, if e.admitted then level + c.maxCost else level)
  {
    hide FinalizeMeter;
    hide EffectiveTeamBudget;
    hide AddSpend;
    FinalizeTeam(s.meter, c.keys[e.name], e.now, c.monthOf, e.tokens, e.cost, e.committed);
    AddBelow(s.meter.teamSpend, id, Day(DayOf(e.now)), e.cost, level, c.maxCost);
  }

  lemma {:induction false} TeamMemberStep(s: Sys, e: Event, c: Setup, id: Name, keys: set<Name>, budget: real)
    requires ValidSetup(c) && Follows(s, e, c) && TeamKeys(c, id, keys) && AllCapped(c, keys)
    requires Budgeted(c, keys, budget)
    requires TeamInv(s, c, id, keys, budget) && e.name in keys
    requires Sum(keys, SlackAt(Next(s, e, c), c)) >= 0
    ensures TeamBelow(Next(s, e, c).meter, id, SpendLevel(budget, Sum(keys, SlackAt(Next(s, e, c), c)), c.maxCost))
  {
    hide BeginMeter;
    hide Next;
    hide SpendLevel;
    hide EffectiveTeamBudget;
    hide TeamBelow;
    hide SlackAt;
    hide SlotsInv;
    hide Sum;
    hide Follows;
    assert TeamLedgered(c.keys[e.name], id);
    var slack, slackAfter := Sum(keys, SlackAt(s, c)), Sum(keys, SlackAt(Next(s, e, c), c));
    var level, levelAfter := SpendLevel(budget, slack, c.maxCost), SpendLevel(budget, slackAfter, c.maxCost);
    TeamSlackNonNegative(s, c, keys);
    TeamSlackStep(s, e, c, keys);
    SpendLevels(budget, slack, c.maxCost);
    SpendLevels(budget, slackAfter, c.maxCost);
    if e.Begins? {
      TeamBeginStep(s, e, c, id, budget, level, levelAfter);
    } else {
      TeamFinalizeStep(s, e, c, id, level);
    }
  }

  lemma {:induction false} TeamStep(s: Sys, e: Event, c: Setup, id: Name, keys: set<Name>, budget: real)
    requires ValidSetup(c) && Follows(s, e, c) && TeamKeys(c, id, keys) && AllCapped(c, keys)
    requires Budgeted(c, keys, budget)
    requires TeamInv(s, c, id, keys, budget)
    ensures TeamInv(Next(s, e, c), c, id, keys, budget)
  {
    hide BeginMeter;
    hide FinalizeMeter;
    hide SpendLevel;
    hide SlotsInv;
    hide DayOf;
    forall k | k in keys ensures SlotsInv(Next(s, e, c), c.keys[k]) { SlotsEverywhere(s, e, c, k); }
    if e.name in keys {
      TeamSlackNonNegative(Next(s, e, c), c, keys);
      TeamMemberStep(s, e, c, id, keys, budget);
    } else {
      var vk := c.keys[e.name];
      TeamSlackElsewhere(s, e, c, keys);
      if e.Begins? {
        BeginLooks(s.meter, vk, e.now, c.monthOf, id);
      } else {
        TeamChargeSeen(s.meter, vk, e.now, c.monthOf, e.tokens, e.cost, e.committed, id);
      }
    }
  }

  lemma {:induction false} TeamRun(s: Sys, run: seq<Event>, c: Setup, id: Name, keys: set<Name>, budget: real)
    requires ValidSetup(c) && Disciplined(s, run, c) && TeamKeys(c, id, keys) && AllCapped(c, keys)
    requires Budgeted(c, keys, budget)
    requires TeamInv(s, c, id, keys, budget)
    ensures TeamInv(After(s, run, c), c, id, keys, budget)
    decreases |run|
  {
    hide Next;
    hide TeamInv;
    if run != [] {
      TeamStep(s, run[0], c, id, keys, budget);
      TeamRun(Next(s, run[0], c), run[1..], c, id, keys, budget);
    }
  }

  lemma {:induction false} SlackBelowCaps(s: Sys, c: Setup, keys: set<Name>)
    ensures Sum(keys, SlackAt(s, c)) <= Sum(keys, CapAt(c))
    decreases keys
  {
    if keys != {} {
      var k :| k in keys;
      SumRemove(keys, SlackAt(s, c), k);
      SumRemove(keys, CapAt(c), k);
      SlackBelowCaps(s, c, keys - {k});
    }
  }

  lemma {:induction false} LevelBelow(budget: real, a: int, b: int, maxCost: real)
    requires a <= b && maxCost >= 0.0
    ensures SpendLevel(budget, a, maxCost) <= SpendLevel(budget, b, maxCost)
  {
    SlackBelow(a, b, maxCost);
  }

  /** In every disciplined run, whatever the interleaving of keys on different shards, what a team
      has recorded for a day stays strictly below its effective budget plus C for every slot its
      keys have together. */
  lemma {:induction false} TeamLimitHolds(run: seq<Event>, c: Setup, id: Name, keys: set<Name>, budget: real,
                                          clock: real)
    requires ValidSetup(c) && Disciplined(Start(clock), run, c)
    requires TeamKeys(c, id, keys) && AllCapped(c, keys) && Budgeted(c, keys, budget)
    ensures TeamBelow(After(Start(clock), run, c).meter, id, SpendLevel(budget, Sum(keys, CapAt(c)), c.maxCost))
  {
    hide Next;
    hide SpendLevel;
    var s := After(Start(clock), run, c);
    TeamRun(Start(clock), run, c, id, keys, budget);
    SlackBelowCaps(s, c, keys);
    LevelBelow(budget, Sum(keys, SlackAt(s, c)), Sum(keys, CapAt(c)), c.maxCost);
  }
}
