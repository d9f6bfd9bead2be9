/** The router: candidates, strategy, cut; and what it remembers between requests. */
module RoutePlan {
  import opened Wrappers
  import opened Resilience
  import opened StableSorting
  import opened Router

  datatype Sticky = Sticky(account: Name, expires: real)

  /** What Plan reads of the snapshot for one alias. */
  datatype Route = Route(
    alias: Name, names: seq<Name>, accounts: map<Name, Account>, weights: map<Name, int>, strategy: Strategy,
    maxAttempts: int, reset: real)

  /** What Plan reads from outside: the client's affinity key, the clock and two random numbers. */
  datatype Query = Query(affinity: Name, now: real, r1: nat, r2: nat)

  datatype Memory = Memory(affinity: map<Name, Sticky>, cursor: map<Name, nat>, lastGood: map<Name, Name>)

  const CURSOR_WRAP := 0x1_0000_0000_0000_0000

  /** A positive per-source weight replaces the account's own. */
  function WithWeight(a: Account, weights: map<Name, int>): Account {
    if a.name in weights && weights[a.name] > 0 then a.(weight := weights[a.name]) else a
  }

  function Weighted(c: seq<Account>, weights: map<Name, int>): (r: seq<Account>)
    ensures |r| == |c| && forall i :: 0 <= i < |c| ==> r[i] == c[i].(weight := r[i].weight)
  {
    seq(|c|, i requires 0 <= i < |c| => WithWeight(c[i], weights))
  }

  /** The loop that replaces the weights, account by account. */
  method Reweigh(c: seq<Account>, weights: map<Name, int>) returns (out: seq<Account>)
    ensures out == Weighted(c, weights)
  {
    out := c;
    var i := 0;
    while i < |c|
      invariant 0 <= i <= |c| == |out|
      invariant forall k :: 0 <= k < i ==> out[k] == WithWeight(c[k], weights)
      invariant forall k :: i <= k < |c| ==> out[k] == c[k]
    {
      if c[i].name in weights {
        var w := weights[c[i].name];
        if w > 0 { out := out[i := out[i].(weight := w)]; }
      }
      i := i + 1;
    }
  }

  /** Strategies that let a client stick to the account that served it last. */
  predicate Sticks(strategy: Strategy) {
    strategy != RoundRobin && strategy != QuotaFailover && strategy != PowerOfTwo && strategy != Adaptive
  }

  /** Where the client's sticky account stands among the candidates; the length if it does not. */
  function StickyIndex(m: Memory, strategy: Strategy, c: seq<Account>, q: Query): (i: nat)
    ensures i <= |c| && (i < |c| ==> Sticks(strategy))
  {
    if q.affinity == [] || !Sticks(strategy) || q.affinity !in m.affinity then |c|
    else if q.now >= m.affinity[q.affinity].expires then |c|
    else FirstNamed(c, m.affinity[q.affinity].account)
  }

  function LastGoodIndex(m: Memory, alias: Name, c: seq<Account>): (i: nat)
    ensures i <= |c|
  {
    if alias !in m.lastGood || m.lastGood[alias] == [] then |c| else FirstNamed(c, m.lastGood[alias])
  }

  function Cursor(m: Memory, alias: Name): nat { if alias in m.cursor then m.cursor[alias] else 0 }

  function SortedBy(strategy: Strategy, h: Health, c: seq<Account>): (s: seq<Account>)
    ensures IsPermutation(c, s)
  {
    SortPermutes(c, Comparison(strategy, h));
    StableSort(c, Comparison(strategy, h))
  }

  function Picked(h: Health, c: seq<Account>, q: Query): (s: seq<Account>)
    ensures IsPermutation(c, s)
  {
    if |c| < 2 then c
    else
      var (i, j) := Draws(|c|, q.r1, q.r2);
      if Lighter(h, c[i], c[j]) then Paired(c, i, j) else Paired(c, j, i)
  }

  /** What the strategy alone says. */
  function Strategic(m: Memory, route: Route, h: Health, c: seq<Account>, q: Query): (s: seq<Account>)
    requires c != []
    ensures IsPermutation(c, s)
  {
    match route.strategy
    case RoundRobin => Rotated(c, Cursor(m, route.alias) % |c|)
    case QuotaFailover => c
    case PowerOfTwo => Picked(h, c, q)
    case LastGood =>
      var good := LastGoodIndex(m, route.alias, c);
      if good < |c| then Fronted(c, good) else SortedBy(Balanced, h, c)
    case _ => SortedBy(route.strategy, h, c)
  }

  /** The full order: the sticky account first if there is one, otherwise what the strategy says. */
  function Order(m: Memory, route: Route, h: Health, c: seq<Account>, q: Query): (s: seq<Account>)
    requires c != []
    ensures IsPermutation(c, s)
  {
    var sticky := StickyIndex(m, route.strategy, c, q);
    if sticky < |c| then Fronted(c, sticky) else Strategic(m, route, h, c, q)
  }

  lemma {:induction false} LighterSame(h: Health, t: Health, a: Account, b: Account, now: real, reset: real)
    requires LooksSame(h, t, now, reset)
    ensures Lighter(h, a, b) == Lighter(t, a, b)
  {
  }

  lemma {:induction false} BeforeSame(strategy: Strategy, h: Health, t: Health, a: Account, b: Account, now: real,
                                      reset: real)
    requires LooksSame(h, t, now, reset)
    ensures Before(strategy, h, a, b) == Before(strategy, t, a, b)
  {
    assert Score(h, a) == Score(t, a) && Score(h, b) == Score(t, b);
    hide Score;
  }

  lemma {:induction false} SortedSame(strategy: Strategy, h: Health, t: Health, c: seq<Account>, now: real, reset: real)
    requires LooksSame(h, t, now, reset)
    ensures SortedBy(strategy, h, c) == SortedBy(strategy, t, c)
  {
    hide LooksSame;
    hide Before;
    var less, same := Comparison(strategy, h), Comparison(strategy, t);
    forall a, b ensures less(a, b) == same(a, b) { BeforeSame(strategy, h, t, a, b, now, reset); }
    SortSame(c, less, same);
  }

  /** Looking for candidates leaves every order as it was. */
  lemma {:induction false} OrderSame(m: Memory, route: Route, h: Health, t: Health, c: seq<Account>, q: Query)
    requires c != [] && LooksSame(h, t, q.now, route.reset)
    ensures Order(m, route, h, c, q) == Order(m, route, t, c, q)
  {
    hide LooksSame;
    hide SortedBy;
    hide IsPermutation;
    hide Lighter;
    SortedSame(route.strategy, h, t, c, q.now, route.reset);
    SortedSame(Balanced, h, t, c, q.now, route.reset);
    if |c| >= 2 {
      var (i, j) := Draws(|c|, q.r1, q.r2);
      LighterSame(h, t, c[i], c[j], q.now, route.reset);
    }
  }

  /** Only quota failover tries every candidate. */
  function Limited(route: Route, s: seq<Account>): seq<Account> {
    if route.strategy == QuotaFailover then s else Cut(s, route.maxAttempts)
  }

  function NextCursor(cursor: nat): nat { (cursor + 1) % CURSOR_WRAP }

  /** Round robin moves its cursor, a 64-bit counter, at every plan that has a candidate. */
  function Advanced(m: Memory, route: Route): Memory {
    if route.strategy == RoundRobin
    then m.(cursor := m.cursor[route.alias := NextCursor(Cursor(m, route.alias))])
    else m
  }

  /** Remembering the account that served a client, and the one that last worked for an alias. */
  function Stuck(m: Memory, k: Name, sticky: Sticky): Memory {
    if k == [] then m else m.(affinity := m.affinity[k := sticky])
  }

  function Proven(m: Memory, alias: Name, account: Name): Memory {
    if alias == [] || account == [] then m else m.(lastGood := m.lastGood[alias := account])
  }

  class RouterState {
    var affinity: map<Name, Sticky>
    var cursor: map<Name, nat>
    var lastGood: map<Name, Name>

    ghost function View(): Memory
      reads this
    {
      Memory(affinity, cursor, lastGood)
    }

    constructor ()
      ensures View() == Memory(map[], map[], map[])
    {
      affinity, cursor, lastGood := map[], map[], map[];
    }

    /** A plan is the eligible accounts, reweighted, in the strategy's order by the account state the
        planner found, cut; only the cursor moves, and of the account state only what is over goes. */
    method Plan(state: State, route: Route, q: Query) returns (plan: seq<Account>)
      modifies this, state
      ensures var h := old(state.View());
              var c := Weighted(Eligible(h, Known(route.names, route.accounts), q.now, route.reset), route.weights);
              && LooksSame(h, state.View(), q.now, route.reset)
              && (if c == [] then plan == [] && View() == old(View())
                  else && plan == Limited(route, Order(old(View()), route, h, c, q))
                       && View() == Advanced(old(View()), route))
    {
      hide Order;
      hide Limited;
      hide LooksSame;
      hide Eligible;
      hide Weighted;
      ghost var h := state.View();
      var eligible := Candidates(state, route.names, route.accounts, q.now, route.reset);
      var c := Reweigh(eligible, route.weights);
      if |c| == 0 { return []; }
      OrderSame(View(), route, h, state.View(), c, q);
      plan := Arrange(state, route, c, q);
    }

    method Arrange(state: State, route: Route, c: seq<Account>, q: Query) returns (plan: seq<Account>)
      requires c != []
      modifies this
      ensures state.View() == old(state.View())
      ensures plan == Limited(route, Order(old(View()), route, state.View(), c, q))
      ensures View() == Advanced(old(View()), route)
    {
      hide StickyIndex;
      hide Strategic;
      hide IsPermutation;
      hide Fronted;
      hide Cut;
      var i := StickyAt(route.strategy, c, q);
      if i < |c| {
        plan := Front(c, i);
      } else {
        plan := ByStrategy(state, route, c, q);
        if route.strategy == QuotaFailover { return; }
      }
      plan := Cut(plan, route.maxAttempts);
    }

    method ByStrategy(state: State, route: Route, c: seq<Account>, q: Query) returns (plan: seq<Account>)
      requires c != []
      modifies `cursor
      ensures state.View() == old(state.View())
      ensures plan == Strategic(old(View()), route, state.View(), c, q)
      ensures View() == Advanced(old(View()), route)
    {
      hide IsPermutation;
      hide SortedBy;
      hide Picked;
      hide LastGoodIndex;
      hide NextCursor;
      match route.strategy
      case RoundRobin =>
        var start := TakeCursor(route.alias, |c|);
        plan := c[start..] + c[..start];
      case QuotaFailover =>
        plan := c;
      case PowerOfTwo =>
        plan := PickTwo(state, c, q);
      case LastGood =>
        plan := ApplyLastGood(state, route.alias, c);
      case _ =>
        plan := SortBy(state, route.strategy, c);
    }

    method TakeCursor(alias: Name, n: nat) returns (start: nat)
      requires n > 0
      modifies `cursor
      ensures start == Cursor(old(View()), alias) % n
      ensures cursor == old(cursor)[alias := NextCursor(Cursor(old(View()), alias))]
    {
      start := (if alias in cursor then cursor[alias] else 0) % n;
      cursor := cursor[alias := NextCursor(if alias in cursor then cursor[alias] else 0)];
    }

    method StickyAt(strategy: Strategy, c: seq<Account>, q: Query) returns (i: nat)
      ensures i == StickyIndex(View(), strategy, c, q)
    {
      if q.affinity != [] && Sticks(strategy) && q.affinity in affinity && q.now < affinity[q.affinity].expires {
        i := Find(c, affinity[q.affinity].account);
      } else {
        i := |c|;
      }
    }

    method PickTwo(state: State, c: seq<Account>, q: Query) returns (out: seq<Account>)
      ensures out == Picked(state.View(), c, q)
    {
      hide Paired;
      hide Lighter;
      hide Draws;
      out := PowerOfTwoChoices(c, HealthOf(state), q.r1, q.r2);
    }

    method SortBy(state: State, strategy: Strategy, c: seq<Account>) returns (out: seq<Account>)
      ensures out == SortedBy(strategy, state.View(), c)
    {
      out := StableSort(c, Comparison(strategy, HealthOf(state)));
    }

    method ApplyLastGood(state: State, alias: Name, c: seq<Account>) returns (out: seq<Account>)
      ensures var good := LastGoodIndex(View(), alias, c);
              out == if good < |c| then Fronted(c, good) else SortedBy(Balanced, state.View(), c)
    {
      hide FirstNamed;
      var last := if alias in lastGood then lastGood[alias] else [];
      if last != [] {
        var i := Find(c, last);
        if i < |c| {
          out := Front(c, i);
          return;
        }
      }
      out := SortBy(state, Balanced, c);
    }

    method CommitAffinity(k: Name, account: Name, now: real, ttl: real)
      modifies `affinity
      ensures View() == Stuck(old(View()), k, Sticky(account, now + ttl))
    {
      if k == [] { return; }
      affinity := affinity[k := Sticky(account, now + ttl)];
    }

    method CommitLastGood(alias: Name, account: Name)
      modifies `lastGood
      ensures View() == Proven(old(View()), alias, account)
    {
      if alias == [] || account == [] { return; }
      lastGood := lastGood[alias := account];
    }
  }

  /** The candidates are the plan's own copy: shifting them in place disturbs nobody. */
  method Front(c: seq<Account>, i: nat) returns (out: seq<Account>)
    requires i < |c|
    ensures out == Fronted(c, i)
  {
    var copy := new Account[|c|](k requires 0 <= k < |c| => c[k]);
    assert copy[..] == c;
    out := MoveToFront(copy, i);
  }

  function HealthOf(state: State): (h: Health)
    reads state
    ensures h == state.View()
  {
    Health(state.cooldown, state.fails, state.openedAt, state.active, state.latency, state.successes, state.requests,
        state.lockouts)
  }

  /* ---- what a plan promises ---- */

  /** A plan never contains an account more often than the model lists it, nor one that was not
      eligible; it is the beginning of the full order, and uncut it contains every candidate. */
  lemma {:induction false} PlanIsCutPermutation(m: Memory, route: Route, h: Health, c: seq<Account>, q: Query)
    requires c != []
    ensures var plan := Limited(route, Order(m, route, h, c, q));
            && multiset(plan) <= multiset(c) && plan <= Order(m, route, h, c, q)
            && (route.strategy == QuotaFailover || route.maxAttempts <= 0 || |c| <= route.maxAttempts ==>
                  IsPermutation(c, plan))
            && (route.strategy != QuotaFailover && 0 < route.maxAttempts < |c| ==> |plan| == route.maxAttempts)
  {
    var full := Order(m, route, h, c, q);
    assert |multiset(full)| == |full| && |multiset(c)| == |c|;
    if |full| > route.maxAttempts > 0 { assert full == full[..route.maxAttempts] + full[route.maxAttempts..]; }
  }

  /** Without a sticky account, a sorting strategy's full order is the one stable sort by its key. */
  lemma {:induction false} SortingPlanIsStableSort(m: Memory, route: Route, h: Health, c: seq<Account>, q: Query,
                                                   s: seq<Account>)
    requires c != [] && StickyIndex(m, route.strategy, c, q) == |c|
    requires route.strategy !in {RoundRobin, QuotaFailover, PowerOfTwo, LastGood}
    ensures IsStableSort(c, s, Comparison(route.strategy, h)) <==> s == Order(m, route, h, c, q)
  {
    ComparisonIsOrder(route.strategy, h);
    AnyStableSort(c, s, Comparison(route.strategy, h));
  }

  /** In the full order of a sorting strategy, an earlier account never has the larger key. */
  lemma {:induction false} SortingPlanByRank(m: Memory, route: Route, h: Health, c: seq<Account>, q: Query, i: nat,
                                             j: nat)
    requires i < j < |c| && StickyIndex(m, route.strategy, c, q) == |c|
    requires route.strategy !in {RoundRobin, QuotaFailover, PowerOfTwo, LastGood}
    ensures var order := Order(m, route, h, c, q);
            |order| == |c| && !RankBelow(Rank(route.strategy, h, order[j]), Rank(route.strategy, h, order[i]))
  {
    hide Before;
    hide Rank;
    var order := Order(m, route, h, c, q);
    assert |multiset(order)| == |order| && |multiset(c)| == |c|;
    SortingPlanIsStableSort(m, route, h, c, q, order);
    assert !Comparison(route.strategy, h)(order[j], order[i]);
    BeforeIsRank(route.strategy, h, order[j], order[i]);
  }

  /** In the full order of an adaptive route, an earlier account has no more load than a later one, and
      no larger priority number when the loads are equal. */
  lemma {:induction false} AdaptivePlanByLoad(m: Memory, route: Route, h: Health, c: seq<Account>, q: Query, i: nat,
                                              j: nat)
    requires route.strategy == Adaptive && i < j < |c|
    ensures var order := Order(m, route, h, c, q);
            && |order| == |c|
            && (Load(h, order[i]) < Load(h, order[j])
                || (Load(h, order[i]) == Load(h, order[j]) && order[i].priority <= order[j].priority))
  {
    hide Before;
    hide Load;
    var order := Order(m, route, h, c, q);
    assert |multiset(order)| == |order| && |multiset(c)| == |c|;
    SortingPlanIsStableSort(m, route, h, c, q, order);
    assert !Comparison(Adaptive, h)(order[j], order[i]);
    AdaptiveIsLoad(h, order[j], order[i]);
  }

  /** Whether an account is among the candidates. */
  predicate Among(c: seq<Account>, name: Name) { exists i :: 0 <= i < |c| && c[i].name == name }

  lemma {:induction false} AmongIsFound(c: seq<Account>, name: Name)
    ensures Among(c, name) <==> FirstNamed(c, name) < |c|
  {
  }

  /** A client that committed to an account gets it first, under every strategy but round robin, quota
      failover, power of two choices and adaptive, exactly until the sticky time has passed and as long
      as the account is a candidate. */
  lemma {:induction false} StuckAccountLeads(m: Memory, route: Route, h: Health, c: seq<Account>, q: Query,
                                             account: Name, expires: real)
    requires c != [] && q.affinity != []
    ensures var order := Order(Stuck(m, q.affinity, Sticky(account, expires)), route, h, c, q);
            if && q.now < expires && Among(c, account)
               && route.strategy !in {RoundRobin, QuotaFailover, PowerOfTwo, Adaptive}
            then order[0].name == account && exists i :: 0 <= i < |c| && order == Fronted(c, i)
            else order == Strategic(m, route, h, c, q)
  {
    hide Strategic;
    AmongIsFound(c, account);
    StickingLeavesStrategy(m, route, h, c, q, account, expires);
  }

  lemma {:induction false} StickingLeavesStrategy(m: Memory, route: Route, h: Health, c: seq<Account>, q: Query,
                                                  account: Name,
                               expires: real)
    requires c != []
    ensures Strategic(Stuck(m, q.affinity, Sticky(account, expires)), route, h, c, q) == Strategic(m, route, h, c, q)
  {
    hide SortedBy;
    hide Picked;
    hide IsPermutation;
  }

  /** What last worked for an alias leads its next plan under the last-good strategy, as long as it is
      a candidate and the client does not stick to another account. */
  lemma {:induction false} ProvenAccountLeads(m: Memory, route: Route, h: Health, c: seq<Account>, q: Query,
                                              account: Name)
    requires c != [] && route.strategy == LastGood && route.alias != [] && account != []
    requires StickyIndex(m, LastGood, c, q) == |c|
    ensures var order := Order(Proven(m, route.alias, account), route, h, c, q);
            if Among(c, account) then order[0].name == account && exists i :: 0 <= i < |c| && order == Fronted(c, i)
            else order == SortedBy(Balanced, h, c)
  {
    hide SortedBy;
    AmongIsFound(c, account);
  }

  /* ---- round robin ---- */

  /** The first positions of k consecutive plans over n unchanged candidates. */
  function Starts(cursor: nat, n: nat, k: nat): seq<nat>
    requires n > 0
    decreases k
  {
    if k == 0 then [] else [cursor % n] + Starts(NextCursor(cursor), n, k - 1)
  }

  function Times(s: seq<nat>, i: nat): nat {
    if s == [] then 0 else (if s[0] == i then 1 else 0) + Times(s[1..], i)
  }

  /** How many multiples of n, shifted to i, lie below x. */
  function Below(x: nat, n: nat, i: nat): nat
    requires i < n
  {
    (x + n - 1 - i) / n
  }

  lemma {:induction false} BelowIs(x: nat, n: nat, i: nat, q: nat, r: nat)
    requires i < n && x == q * n + r && r < n
    ensures Below(x, n, i) == if r <= i then q else q + 1
  {
    if r <= i { Divides(x + n - 1 - i, n, q, r + n - 1 - i); } else { Divides(x + n - 1 - i, n, q + 1, r - 1 - i); }
  }

  lemma {:induction false} BelowStep(x: nat, n: nat, i: nat)
    requires i < n
    ensures Below(x + 1, n, i) == Below(x, n, i) + if x % n == i then 1 else 0
  {
    hide Below;
    var q, r := x / n, x % n;
    assert x == q * n + r;
    BelowIs(x, n, i, q, r);
    if r + 1 < n { BelowIs(x + 1, n, i, q, r + 1); } else { BelowIs(x + 1, n, i, q + 1, 0); }
  }

  lemma {:induction false} Divides(x: int, n: int, q: int, r: int)
    requires n > 0 && x == q * n + r && 0 <= r < n
    ensures x / n == q
  {
    var d := q - x / n;
    assert d * n == x % n - r;
    SmallMultiple(d, n);
  }

  lemma {:induction false} SmallMultiple(d: int, n: int)
    requires n > 0 && -n < d * n < n
    ensures d == 0
  {
  }

  lemma {:induction false} NextIsOneMore(cursor: nat)
    requires cursor + 1 < CURSOR_WRAP
    ensures NextCursor(cursor) == cursor + 1
  {
  }

  lemma {:induction false} TimesInRange(cursor: nat, n: nat, k: nat, i: nat)
    requires i < n && cursor + k <= CURSOR_WRAP
    ensures Times(Starts(cursor, n, k), i) == Below(cursor + k, n, i) - Below(cursor, n, i)
    decreases k
  {
    hide Below;
    hide NextCursor;
    if k > 0 {
      BelowStep(cursor, n, i);
      var rest := Starts(NextCursor(cursor), n, k - 1);
      assert Starts(cursor, n, k)[1..] == rest;
      if k > 1 {
        NextIsOneMore(cursor);
        TimesInRange(cursor + 1, n, k - 1, i);
      } else {
        assert rest == [];
      }
    }
  }

  /** The accounts that k consecutive plans put first, with the candidates unchanged. */
  function Firsts(m: Memory, route: Route, h: Health, c: seq<Account>, q: Query, k: nat): seq<Account>
    requires c != []
    decreases k
  {
    if k == 0 then [] else [Order(m, route, h, c, q)[0]] + Firsts(Advanced(m, route), route, h, c, q, k - 1)
  }

  lemma {:induction false} FirstsAreStarts(m: Memory, route: Route, h: Health, c: seq<Account>, q: Query, k: nat)
    requires c != [] && route.strategy == RoundRobin
    ensures var starts := Starts(Cursor(m, route.alias), |c|, k);
            |Firsts(m, route, h, c, q, k)| == |starts| == k
            && forall j :: 0 <= j < k ==> starts[j] < |c| && Firsts(m, route, h, c, q, k)[j] == c[starts[j]]
    decreases k
  {
    hide NextCursor;
    hide Order;
    hide Advanced;
    hide IsPermutation;
    hide Cursor;
    if k > 0 {
      RoundRobinHead(m, route, h, c, q);
      FirstsAreStarts(Advanced(m, route), route, h, c, q, k - 1);
    }
  }

  lemma {:induction false} RoundRobinHead(m: Memory, route: Route, h: Health, c: seq<Account>, q: Query)
    requires c != [] && route.strategy == RoundRobin
    ensures Order(m, route, h, c, q) != [] && Order(m, route, h, c, q)[0] == c[Cursor(m, route.alias) % |c|]
    ensures Cursor(Advanced(m, route), route.alias) == NextCursor(Cursor(m, route.alias))
  {
    hide NextCursor;
    hide IsPermutation;
  }

  /** Any k consecutive round-robin plans over n unchanged candidates put each position first
      floor(k/n) or ceil(k/n) times, below the wrap of the 64-bit cursor: the accounts they put first
      are read off at the positions counted here. */
  lemma {:induction false} RoundRobinIsFair(m: Memory, route: Route, h: Health, c: seq<Account>, q: Query, k: nat,
                                            i: nat)
    requires route.strategy == RoundRobin && i < |c| && Cursor(m, route.alias) + k <= 0x1_0000_0000_0000_0000
    ensures var starts := Starts(Cursor(m, route.alias), |c|, k);
            && |starts| == k && k / |c| <= Times(starts, i) <= (k + |c| - 1) / |c|
            && |Firsts(m, route, h, c, q, k)| == k
            && forall j :: 0 <= j < k ==> starts[j] < |c| && Firsts(m, route, h, c, q, k)[j] == c[starts[j]]
  {
    hide Starts;
    hide Firsts;
    var cursor, n := Cursor(m, route.alias), |c|;
    FirstsAreStarts(m, route, h, c, q, k);
    TimesInRange(cursor, n, k, i);
    FloorCeil(cursor + n - 1 - i, k, n);
  }

  lemma {:induction false} FloorCeil(x: nat, k: nat, n: nat)
    requires n > 0
    ensures k / n <= (x + k) / n - x / n <= (k + n - 1) / n
  {
    var a, b := x / n, k / n;
    var r, s := x % n, k % n;
    assert x + k == (a + b) * n + (r + s) by { assert x == a * n + r && k == b * n + s; }
    if r + s < n { Divides(x + k, n, a + b, r + s); } else { Divides(x + k, n, a + b + 1, r + s - n); }
    if s == 0 { Divides(k + n - 1, n, b, n - 1); } else { Divides(k + n - 1, n, b + 1, s - 1); }
  }
}
