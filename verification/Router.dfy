/** Planning: which accounts a request may try, in which order. */
module Router {
  import opened Wrappers
  import opened Resilience
  import opened StableSorting

  datatype Account = Account(name: Name, enabled: bool, maxConcurrency: int, priority: int, weight: int, cost: real,
      expires: Option<int>)

  datatype Strategy =
    | RoundRobin | QuotaFailover | Priority | Fastest | Cheapest | QuotaDrain | LeastUsed | PowerOfTwo | LastGood
    | ResetAware | Adaptive | Balanced

  /* ---- eligibility ---- */

  function Usable(h: Health, a: Account, now: real, reset: real): bool {
    && a.enabled
    && !(a.name in h.cooldown && now < h.cooldown[a.name])
    && !SeeCircuit(h, a.name, now, reset).1
    && !Locked(h, a.name, now)
    && !(a.maxConcurrency > 0 && Get(h.active, a.name) >= a.maxConcurrency)
  }

  /** The accounts of a model in declared order, unknown names skipped. */
  function Known(names: seq<Name>, accounts: map<Name, Account>): seq<Account> {
    if names == [] then []
    else
      var last := names[|names| - 1];
      Known(names[..|names| - 1], accounts) + if last in accounts then [accounts[last]] else []
  }

  function Eligible(h: Health, s: seq<Account>, now: real, reset: real): (r: seq<Account>)
    ensures forall a :: a in r <==> a in s && Usable(h, a, now, reset)
    ensures |r| <= |s|
  {
    if s == [] then []
    else
      var last := s[|s| - 1];
      assert s == s[..|s| - 1] + [last];
      Eligible(h, s[..|s| - 1], now, reset) + if Usable(h, last, now, reset) then [last] else []
  }

  /** An opening old enough to be forgotten. */
  predicate Worn(h: Health, n: Name, now: real, reset: real) { n in h.openedAt && now - h.openedAt[n] > reset }

  /** The circuit of an account after being looked at: as it was, or worn and forgotten together with
      the failures. */
  predicate SameCircuit(h: Health, t: Health, n: Name, now: real, reset: real) {
    || ((n in t.openedAt <==> n in h.openedAt) && (n in h.openedAt ==> t.openedAt[n] == h.openedAt[n])
        && Get(t.fails, n) == Get(h.fails, n))
    || (Worn(h, n, now, reset) && n !in t.openedAt && Get(t.fails, n) == 0)
  }

  /** The lockout of an account after being looked at: as it was, or over and removed. */
  predicate SameLockout(h: Health, t: Health, n: Name, now: real) {
    || ((n in t.lockouts <==> n in h.lockouts) && (n in h.lockouts ==> t.lockouts[n] == h.lockouts[n]))
    || (n in h.lockouts && now > h.lockouts[n] && n !in t.lockouts)
  }

  /** Looking changes nothing but what is over: everything the orders sort by and every cooldown is the
      same, the slots in use are the same, and only worn circuits and past lockouts may be gone. */
  ghost predicate LooksSame(h: Health, t: Health, now: real, reset: real) {
    && t.cooldown == h.cooldown && t.latency == h.latency && t.requests == h.requests && t.successes == h.successes
    && forall n :: Get(t.active, n) == Get(h.active, n) && SameCircuit(h, t, n, now, reset) && SameLockout(h, t, n, now)
  }

  lemma {:induction false} SeeLooksSame(h: Health, n: Name, now: real, reset: real)
    ensures LooksSame(h, SeeCircuit(h, n, now, reset).0, now, reset)
  {
  }

  lemma {:induction false} UnlockLooksSame(h: Health, n: Name, now: real, reset: real)
    requires !Locked(h, n, now)
    ensures LooksSame(h, h.(lockouts := h.lockouts - {n}), now, reset)
  {
  }

  lemma {:induction false} ProbeLooksSame(h: Health, n: Name, max: int, now: real, reset: real)
    requires AcquireSlot(h, n, max).1
    ensures LooksSame(h, FreeSlot(AcquireSlot(h, n, max).0, n), now, reset)
  {
  }

  lemma {:induction false} LooksTwice(a: Health, b: Health, c: Health, now: real, reset: real)
    requires LooksSame(a, b, now, reset) && LooksSame(b, c, now, reset)
    ensures LooksSame(a, c, now, reset)
  {
    forall n ensures Get(c.active, n) == Get(a.active, n) && SameCircuit(a, c, n, now, reset) && SameLockout(a, c, n,
        now) {
      assert SameCircuit(a, b, n, now, reset) && SameCircuit(b, c, n, now, reset);
      assert SameLockout(a, b, n, now) && SameLockout(b, c, n, now);
    }
  }

  /** A second look sees what the first one saw. */
  lemma {:induction false} UsableSame(h: Health, t: Health, a: Account, now: real, reset: real)
    requires LooksSame(h, t, now, reset)
    ensures Usable(h, a, now, reset) == Usable(t, a, now, reset)
  {
    assert SameCircuit(h, t, a.name, now, reset) && SameLockout(h, t, a.name, now);
    assert SeeCircuit(h, a.name, now, reset).1 == SeeCircuit(t, a.name, now, reset).1;
  }

  /** One account of the candidate loop: five checks, short-circuited, each under the state's lock. */
  method Check(state: State, a: Account, now: real, reset: real) returns (ok: bool)
    modifies state
    ensures ok == Usable(old(state.View()), a, now, reset)
    ensures LooksSame(old(state.View()), state.View(), now, reset)
  {
    hide LooksSame;
    ghost var h := state.View();
    SeeLooksSame(h, a.name, now, reset);
    Unseen(h, now, reset);
    if !a.enabled { return false; }
    var cooling := state.Cooling(a.name, now);
    if cooling { return false; }
    var isOpen := state.CircuitOpen(a.name, now, reset);
    ghost var seen := state.View();
    if isOpen { return false; }
    UsableSame(h, seen, a, now, reset);
    ok := CheckSlot(state, a, now, reset);
    LooksTwice(h, seen, state.View(), now, reset);
  }

  lemma {:induction false} Unseen(h: Health, now: real, reset: real)
    ensures LooksSame(h, h, now, reset)
  {
  }

  /** The last two checks, for an account whose circuit is closed. */
  method CheckSlot(state: State, a: Account, now: real, reset: real) returns (ok: bool)
    requires a.enabled && !(a.name in state.cooldown && now < state.cooldown[a.name]) && a.name !in state.openedAt
    modifies state
    ensures ok == Usable(old(state.View()), a, now, reset)
    ensures LooksSame(old(state.View()), state.View(), now, reset)
  {
    hide LooksSame;
    ghost var h := state.View();
    var locked := state.LockedOut(a.name, now, now);
    ghost var looked := state.View();
    Unseen(h, now, reset);
    if locked { return false; }
    UnlockLooksSame(h, a.name, now, reset);
    assert looked == h || looked == h.(lockouts := h.lockouts - {a.name});
    var acquired := state.TryAcquire(a.name, a.maxConcurrency);
    if !acquired { return false; }
    state.Release(a.name);
    ProbeLooksSame(looked, a.name, a.maxConcurrency, now, reset);
    LooksTwice(h, looked, state.View(), now, reset);
    return true;
  }

  /** The candidate loop: undisturbed, it selects by the state it started in, gives every probe slot
      back, and leaves everything else that is not over as it was. */
  method Candidates(state: State, names: seq<Name>, accounts: map<Name, Account>, now: real, reset: real)
    returns (c: seq<Account>)
    modifies state
    ensures c == Eligible(old(state.View()), Known(names, accounts), now, reset)
    ensures LooksSame(old(state.View()), state.View(), now, reset)
  {
    hide Usable;
    hide LooksSame;
    hide Eligible;
    c := [];
    ghost var h := state.View();
    Unseen(h, now, reset);
    NobodyKnown(h, names, accounts, now, reset);
    var i := 0;
    while i < |names|
      invariant 0 <= i <= |names| && LooksSame(h, state.View(), now, reset)
      invariant c == Eligible(h, Known(names[..i], accounts), now, reset)
    {
      KnownOneMore(names, accounts, i);
      if names[i] in accounts {
        ghost var t := state.View();
        var ok := Check(state, accounts[names[i]], now, reset);
        CandidateStep(h, t, state.View(), Known(names[..i], accounts), accounts[names[i]], now, reset);
        if ok { c := c + [accounts[names[i]]]; }
      }
      i := i + 1;
    }
    assert names[..i] == names;
  }

  lemma {:induction false} NobodyKnown(h: Health, names: seq<Name>, accounts: map<Name, Account>, now: real,
                                       reset: real)
    ensures Eligible(h, Known(names[..0], accounts), now, reset) == []
  {
  }

  /** One account of the loop: judged by the first state, and nothing that is not over has changed. */
  lemma {:induction false} CandidateStep(h: Health, t: Health, u: Health, s: seq<Account>, a: Account, now: real,
                                         reset: real)
    requires LooksSame(h, t, now, reset) && LooksSame(t, u, now, reset)
    ensures LooksSame(h, u, now, reset)
    ensures Eligible(h, s + [a], now, reset) == if Usable(t, a, now, reset) then Eligible(h, s, now, reset) + [a]
            else Eligible(h, s, now, reset)
  {
    hide LooksSame;
    hide Usable;
    UsableSame(h, t, a, now, reset);
    LooksTwice(h, t, u, now, reset);
    EligibleOneMore(h, s, a, now, reset);
  }

  lemma {:induction false} KnownOneMore(names: seq<Name>, accounts: map<Name, Account>, i: nat)
    requires i < |names|
    ensures Known(names[..i + 1], accounts)
            == if names[i] in accounts then Known(names[..i], accounts) + [accounts[names[i]]]
                else Known(names[..i], accounts)
  {
    assert names[..i + 1][..i] == names[..i];
  }

  lemma {:induction false} EligibleOneMore(h: Health, s: seq<Account>, a: Account, now: real, reset: real)
    ensures Eligible(h, s + [a], now, reset) == Eligible(h, s, now, reset) + if Usable(h, a, now, reset) then [a]
            else []
  {
    assert (s + [a])[..|s|] == s;
  }

  /* ---- orders ---- */

  /** The comparison of a sorting strategy. */
  predicate Before(strategy: Strategy, h: Health, a: Account, b: Account) {
    match strategy
    case Priority => a.priority < b.priority
    case Fastest => Get(h.latency, a.name) < Get(h.latency, b.name)
    case Cheapest => a.cost < b.cost
    case QuotaDrain => a.weight > b.weight
    case LeastUsed =>
      var ua, ub := Get(h.requests, a.name), Get(h.requests, b.name);
      if ua == ub then Get(h.active, a.name) < Get(h.active, b.name) else ua < ub
    case ResetAware => ResetBefore(a, b)
    case Adaptive =>
      var sa, sb := Score(h, a), Score(h, b);
      if sa == sb then a.priority < b.priority else sa < sb
    case _ =>
      var aa, ab := Get(h.active, a.name), Get(h.active, b.name);
      if aa == ab then a.weight > b.weight else aa < ab
  }

  /** Accounts with a known reset first, soonest first. */
  predicate ResetBefore(a: Account, b: Account) {
    if a.expires.Some? && b.expires.Some? && a.expires != b.expires then a.expires.value < b.expires.value
    else if a.expires.Some? && b.expires.None? then true
    else if a.expires.None? && b.expires.Some? then false
    else if a.priority != b.priority then a.priority < b.priority
    else a.weight > b.weight
  }

  const DEFAULT_LATENCY := 50_000_000
  const NANOS_PER_MILLI := 1_000_000

  /** In-flight requests weigh most, whole milliseconds of latency some; weight is a bonus. */
  function Score(h: Health, a: Account): real {
    var latency := if Get(h.latency, a.name) == 0 then DEFAULT_LATENCY else Get(h.latency, a.name);
    Get(h.active, a.name) as real * 100.0 + (latency / NANOS_PER_MILLI) as real * 0.1 - a.weight as real * 5.0
  }

  /** The same order as a key of four numbers compared left to right. */
  function Rank(strategy: Strategy, h: Health, a: Account): (real, real, real, real) {
    match strategy
    case Priority => (a.priority as real, 0.0, 0.0, 0.0)
    case Fastest => (Get(h.latency, a.name) as real, 0.0, 0.0, 0.0)
    case Cheapest => (a.cost, 0.0, 0.0, 0.0)
    case QuotaDrain => (-(a.weight as real), 0.0, 0.0, 0.0)
    case LeastUsed => (Get(h.requests, a.name) as real, Get(h.active, a.name) as real, 0.0, 0.0)
    case ResetAware =>
      var late, at := if a.expires.Some? then 0.0 else 1.0, if a.expires.Some? then a.expires.value as real else 0.0;
      (late, at, a.priority as real, -(a.weight as real))
    case Adaptive => (Score(h, a), a.priority as real, 0.0, 0.0)
    case _ => (Get(h.active, a.name) as real, -(a.weight as real), 0.0, 0.0)
  }

  predicate RankBelow(x: (real, real, real, real), y: (real, real, real, real)) {
    || x.0 < y.0
    || (x.0 == y.0 && (x.1 < y.1 || (x.1 == y.1 && (x.2 < y.2 || (x.2 == y.2 && x.3 < y.3)))))
  }

  lemma {:induction false} BeforeIsRank(strategy: Strategy, h: Health, a: Account, b: Account)
    ensures Before(strategy, h, a, b) <==> RankBelow(Rank(strategy, h, a), Rank(strategy, h, b))
  {
    hide Score;
  }

  /* ---- what the adaptive order weighs, in whole numbers ---- */

  /** Whole milliseconds of observed latency, or 50 while none was observed. */
  function Millis(h: Health, a: Account): nat {
    if Get(h.latency, a.name) == 0 then 50 else Get(h.latency, a.name) / 1_000_000
  }

  /** The load of an account: a thousand for a request in flight, one for a millisecond, and fifty off
      for a unit of weight. */
  function Load(h: Health, a: Account): int { 1000 * Get(h.active, a.name) + Millis(h, a) - 50 * a.weight }

  /** The adaptive comparison is the order of the loads, and of the priorities among equal loads. */
  lemma {:induction false} AdaptiveIsLoad(h: Health, a: Account, b: Account)
    ensures Before(Adaptive, h, a, b)
            <==> Load(h, a) < Load(h, b) || (Load(h, a) == Load(h, b) && a.priority < b.priority)
  {
    assert Score(h, a) * 10.0 == Load(h, a) as real && Score(h, b) * 10.0 == Load(h, b) as real;
  }

  /** With everything else equal, fewer requests in flight, a latency lower by a whole millisecond, or a
      higher weight comes first, and an account without an observed latency stands where 50 ms would
      put it. */
  lemma {:induction false} AdaptivePrefers(h: Health, a: Account, b: Account)
    ensures var (fa, fb) := (Get(h.active, a.name), Get(h.active, b.name));
            var (la, lb) := (Get(h.latency, a.name), Get(h.latency, b.name));
            && (fa < fb && la == lb && a.weight == b.weight ==> Before(Adaptive, h, a, b))
            && (fa == fb && 0 < la && la / 1_000_000 < lb / 1_000_000 && a.weight == b.weight
                ==> Before(Adaptive, h, a, b))
            && (fa == fb && la == lb && a.weight > b.weight ==> Before(Adaptive, h, a, b))
            && (fa == fb && a.weight == b.weight && a.priority == b.priority && la == 0 && lb != 0 ==>
                  && (Before(Adaptive, h, a, b) <==> 50 < lb / 1_000_000)
                  && (Before(Adaptive, h, b, a) <==> lb / 1_000_000 < 50))
  {
    hide Before;
    AdaptiveIsLoad(h, a, b);
    AdaptiveIsLoad(h, b, a);
  }

  /** The exchange rates: with observed latencies, one request in flight outweighs up to 999 ms of
      latency or up to 19 of weight, and no more; and one of weight outweighs up to 49 ms. */
  lemma {:induction false} AdaptiveExchange(h: Health, a: Account, b: Account)
    requires Get(h.latency, a.name) > 0 && Get(h.latency, b.name) > 0 && a.priority == b.priority
    ensures var (fa, fb) := (Get(h.active, a.name), Get(h.active, b.name));
            var (ma, mb) := (Get(h.latency, a.name) / 1_000_000, Get(h.latency, b.name) / 1_000_000);
            && (fa + 1 == fb && a.weight == b.weight ==> (Before(Adaptive, h, a, b) <==> ma - mb <= 999))
            && (fa + 1 == fb && ma == mb ==> (Before(Adaptive, h, a, b) <==> b.weight - a.weight <= 19))
            && (fa == fb && a.weight == b.weight + 1 ==> (Before(Adaptive, h, a, b) <==> ma - mb <= 49))
  {
    hide Before;
    AdaptiveIsLoad(h, a, b);
  }

  function Comparison(strategy: Strategy, h: Health): (Account, Account) -> bool {
    (a, b) => Before(strategy, h, a, b)
  }

  /** Every strategy's comparison is a strict weak order, so a stable sort by it is unique. */
  lemma {:induction false} ComparisonIsOrder(strategy: Strategy, h: Health)
    ensures IsOrder(Comparison(strategy, h))
  {
    hide Before;
    hide Rank;
    forall a, b ensures Before(strategy, h, a, b) <==> RankBelow(Rank(strategy, h, a), Rank(strategy, h, b)) {
      BeforeIsRank(strategy, h, a, b);
    }
  }

  /* ---- reordering ---- */

  function Cut(c: seq<Account>, n: int): seq<Account> { if n > 0 && |c| > n then c[..n] else c }

  predicate IsPermutation(c: seq<Account>, s: seq<Account>) { multiset(s) == multiset(c) }

  function Fronted(c: seq<Account>, i: nat): (r: seq<Account>)
    requires i < |c|
    ensures IsPermutation(c, r) && r[0] == c[i]
  {
    assert c == c[..i] + [c[i]] + c[i + 1..];
    [c[i]] + c[..i] + c[i + 1..]
  }

  /** Moving one account to the front as the code does it: the account is copied out, the tail is
      shifted left in place over it, and the shortened slice is appended to the copy. */
  method MoveToFront(c: array<Account>, i: nat) returns (out: seq<Account>)
    requires i < c.Length
    modifies c
    ensures out == Fronted(old(c[..]), i)
  {
    hide IsPermutation;
    ghost var was := c[..];
    var a := c[i];
    var k := i;
    while k < c.Length - 1
      invariant i <= k <= c.Length - 1
      invariant forall j :: 0 <= j < i ==> c[j] == was[j]
      invariant forall j :: i <= j < k ==> c[j] == was[j + 1]
      invariant forall j :: k <= j < c.Length ==> c[j] == was[j]
    {
      c[k] := c[k + 1];
      k := k + 1;
    }
    out := [a] + c[..c.Length - 1];
    ShiftedIsFronted(was, i, c[..c.Length - 1]);
  }

  lemma {:induction false} ShiftedIsFronted(was: seq<Account>, i: nat, s: seq<Account>)
    requires i < |was| && |s| == |was| - 1
    requires (forall j :: 0 <= j < i ==> s[j] == was[j]) && forall j :: i <= j < |s| ==> s[j] == was[j + 1]
    ensures [was[i]] + s == Fronted(was, i)
  {
    hide IsPermutation;
    assert s == was[..i] + was[i + 1..];
  }

  /** The first k candidates except the two chosen ones. */
  function Others(c: seq<Account>, k: nat, i: nat, j: nat): seq<Account>
    requires k <= |c|
  {
    if k == 0 then [] else Others(c, k - 1, i, j) + if k - 1 == i || k - 1 == j then [] else [c[k - 1]]
  }

  function Is(a: Account, x: Account): nat { if a == x then 1 else 0 }

  function Count(s: seq<Account>, x: Account): nat { multiset(s)[x] }

  lemma {:induction false} CountOneMore(s: seq<Account>, a: Account, x: Account)
    ensures Count(s + [a], x) == Count(s, x) + Is(a, x)
  {
  }

  lemma {:induction false} OthersStep(c: seq<Account>, k: nat, i: nat, j: nat, x: Account)
    requires 0 < k <= |c|
    ensures Count(Others(c, k, i, j), x) == Count(Others(c, k - 1, i, j), x) + if k - 1 == i || k - 1 == j then 0
            else Is(c[k - 1], x)
  {
    hide Count;
    CountOneMore(Others(c, k - 1, i, j), c[k - 1], x);
    assert k - 1 == i || k - 1 == j ==> Others(c, k, i, j) == Others(c, k - 1, i, j);
  }

  function Part(c: seq<Account>, k: nat, i: nat, x: Account): nat
    requires k <= |c|
  {
    if i < k then Is(c[i], x) else 0
  }

  lemma {:induction false} PartStep(c: seq<Account>, k: nat, i: nat, x: Account)
    requires 0 < k <= |c|
    ensures Part(c, k, i, x) == Part(c, k - 1, i, x) + if k - 1 == i then Is(c[k - 1], x) else 0
  {
  }

  lemma {:induction false} OthersCount(c: seq<Account>, k: nat, i: nat, j: nat, x: Account)
    requires k <= |c| && i != j
    ensures Count(Others(c, k, i, j), x) + Part(c, k, i, x) + Part(c, k, j, x) == Count(c[..k], x)
  {
    hide Is;
    if k == 0 {
      assert Others(c, 0, i, j) == [] == c[..0];
    } else {
      hide Others;
      hide Count;
      hide Part;
      OthersCount(c, k - 1, i, j, x);
      assert c[..k] == c[..k - 1] + [c[k - 1]];
      CountOneMore(c[..k - 1], c[k - 1], x);
      OthersStep(c, k, i, j, x);
      PartStep(c, k, i, x);
      PartStep(c, k, j, x);
    }
  }

  lemma {:induction false} PairedCount(c: seq<Account>, best: nat, runner: nat, x: Account)
    requires best < |c| && runner < |c| && best != runner
    ensures Count([c[best], c[runner]] + Others(c, |c|, best, runner), x) == Count(c, x)
  {
    hide Others;
    OthersCount(c, |c|, best, runner, x);
    assert c[..|c|] == c;
    CountOneMore([], c[best], x);
    CountOneMore([c[best]], c[runner], x);
    assert [] + [c[best]] == [c[best]] && [c[best]] + [c[runner]] == [c[best], c[runner]];
  }

  lemma {:induction false} PairedPermutes(c: seq<Account>, best: nat, runner: nat)
    requires best < |c| && runner < |c| && best != runner
    ensures IsPermutation(c, [c[best], c[runner]] + Others(c, |c|, best, runner))
  {
    hide Others;
    forall x ensures multiset([c[best], c[runner]] + Others(c, |c|, best, runner))[x] == multiset(c)[x] {
      PairedCount(c, best, runner, x);
    }
  }

  /** The better of two distinct candidates, the other, and the rest in order. */
  function Paired(c: seq<Account>, best: nat, runner: nat): (r: seq<Account>)
    requires best < |c| && runner < |c| && best != runner
    ensures IsPermutation(c, r)
  {
    assert IsPermutation(c, [c[best], c[runner]] + Others(c, |c|, best, runner)) by { PairedPermutes(c, best, runner); }
    [c[best], c[runner]] + Others(c, |c|, best, runner)
  }

  predicate Lighter(h: Health, a: Account, b: Account) {
    || Get(h.active, a.name) < Get(h.active, b.name)
    || (Get(h.active, a.name) == Get(h.active, b.name) && Get(h.latency, a.name) <= Get(h.latency, b.name))
  }

  /** Two random draws made distinct. */
  function Draws(n: nat, r1: nat, r2: nat): (d: (nat, nat))
    requires n >= 2
    ensures d.0 < n && d.1 < n && d.0 != d.1
  {
    var i, j := r1 % n, r2 % n;
    NextDiffers(i, n);
    if i == j then (i, (i + 1) % n) else (i, j)
  }

  /** Power of two choices: two random draws, the lighter first. */
  method PowerOfTwoChoices(c: seq<Account>, h: Health, r1: nat, r2: nat) returns (out: seq<Account>)
    ensures |c| < 2 ==> out == c
    ensures |c| >= 2 ==> var (i, j) := Draws(|c|, r1, r2);
                         out == if Lighter(h, c[i], c[j]) then Paired(c, i, j) else Paired(c, j, i)
    ensures |c| >= 2 ==>
              var (i, j) := Draws(|c|, r1, r2);
              var (ai, aj) := (Get(h.active, c[i].name), Get(h.active, c[j].name));
              var (li, lj) := (Get(h.latency, c[i].name), Get(h.latency, c[j].name));
              if ai < aj || (ai == aj && li <= lj) then out[..2] == [c[i], c[j]] else out[..2] == [c[j], c[i]]
    ensures IsPermutation(c, out)
  {
    if |c| < 2 { return c; }
    var i, j := r1 % |c|, r2 % |c|;
    if i == j { j := (i + 1) % |c|; }
    assert (i, j) == Draws(|c|, r1, r2);
    var best, runner := j, i;
    if Lighter(h, c[i], c[j]) { best, runner := i, j; }
    out := PairUp(c, best, runner);
  }

  method PairUp(c: seq<Account>, best: nat, runner: nat) returns (out: seq<Account>)
    requires best < |c| && runner < |c| && best != runner
    ensures out == Paired(c, best, runner)
  {
    out := [c[best], c[runner]];
    var k := 0;
    while k < |c|
      invariant 0 <= k <= |c| && out == [c[best], c[runner]] + Others(c, k, best, runner)
    {
      if k != best && k != runner { out := out + [c[k]]; }
      k := k + 1;
    }
  }

  lemma {:induction false} NextDiffers(i: nat, n: nat)
    requires i < n && n >= 2
    ensures (i + 1) % n != i
  {
    if i + 1 < n { assert (i + 1) % n == i + 1; } else { assert (i + 1) % n == 0; }
  }

  function Rotated(c: seq<Account>, start: nat): (r: seq<Account>)
    requires start < |c|
    ensures IsPermutation(c, r) && r[0] == c[start]
  {
    assert c == c[..start] + c[start..];
    c[start..] + c[..start]
  }

  /** The first account of this name, or the length. */
  function FirstNamed(c: seq<Account>, name: Name): (i: nat)
    ensures i <= |c| && (i < |c| ==> c[i].name == name) && forall k :: 0 <= k < i ==> c[k].name != name
  {
    if c == [] || c[0].name == name then 0 else FirstNamed(c[1..], name) + 1
  }

  lemma {:induction false} FirstNamedUnique(c: seq<Account>, name: Name, i: nat)
    requires i <= |c| && (i < |c| ==> c[i].name == name) && forall k :: 0 <= k < i ==> c[k].name != name
    ensures i == FirstNamed(c, name)
    decreases i
  {
    if i > 0 {
      assert c[0].name != name && forall k :: 0 <= k < i - 1 ==> c[1..][k] == c[k + 1];
      FirstNamedUnique(c[1..], name, i - 1);
    }
  }

  method Find(c: seq<Account>, name: Name) returns (i: nat)
    ensures i == FirstNamed(c, name)
  {
    i := 0;
    while i < |c| && c[i].name != name
      invariant i <= |c| && forall k :: 0 <= k < i ==> c[k].name != name
    {
      i := i + 1;
    }
    FirstNamedUnique(c, name, i);
  }
}
