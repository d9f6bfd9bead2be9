/** What the two callers of the meter do to its slots.

    The proxy finalizes a request only if it was admitted, so a slot taken before a rate or budget
    refusal stays taken. The MCP handler finalizes every refused request, so a concurrency refusal
    gives back a slot it never took. */
module SlotDiscipline {
  import opened Wrappers
  import opened Metering
  import opened MeteringRuns

  /** A run of the proxy: every Finalize ends an admitted request. */
  predicate ProxyRun(run: seq<Event>) {
    forall i :: 0 <= i < |run| ==> run[i].Finalizes? ==> run[i].admitted
  }

  lemma {:induction false} LeakStep(s: Sys, e: Event, c: Setup, k: Name)
    requires ValidSetup(c) && Follows(s, e, c) && k in c.keys && SlotsInv(s, c.keys[k]) && (e.Finalizes? ==> e.admitted)
    ensures SlotsInv(Next(s, e, c), c.keys[k]) && Count(Next(s, e, c).refused, k) >= Count(s.refused, k)
  {
    hide BeginMeter;
    hide FinalizeMeter;
    if k == e.name { SlotsStep(s, e, c); } else { OtherKeysUntouched(s, e, c, k); }
  }

  /** Under the proxy a leaked slot is never given back. */
  lemma {:induction false} LeaksOnlyGrow(s: Sys, run: seq<Event>, c: Setup, k: Name)
    requires ValidSetup(c) && Disciplined(s, run, c) && ProxyRun(run) && k in c.keys && SlotsInv(s, c.keys[k])
    ensures SlotsInv(After(s, run, c), c.keys[k]) && Count(After(s, run, c).refused, k) >= Count(s.refused, k)
    decreases |run|
  {
    hide Next;
    hide SlotsInv;
    if run != [] {
      LeakStep(s, run[0], c, k);
      assert ProxyRun(run[1..]) by { assert forall i :: 0 <= i < |run[1..]| ==> run[1..][i] == run[i + 1]; }
      LeaksOnlyGrow(Next(s, run[0], c), run[1..], c, k);
    }
  }

  /** No call of the key gets past its slots, whenever it comes. */
  ghost predicate Closed(s: Sys, c: Setup, k: Name)
    requires k in c.keys
  {
    forall now :: BeginMeter(s.meter, c.keys[k], now, c.monthOf).1 == ConcurrencyLimited
  }

  lemma {:induction false} ClosedIffFull(s: Sys, c: Setup, k: Name)
    requires k in c.keys && c.keys[k].name == k && c.keys[k].maxConcurrency > 0
    ensures Closed(s, c, k) <==> Inflight(s.meter, k) >= c.keys[k].maxConcurrency
  {
    hide RpmStage;
    hide TpmStage;
    hide BudgetStages;
    if Inflight(s.meter, k) < c.keys[k].maxConcurrency {
      assert BeginMeter(s.meter, c.keys[k], 0.0, c.monthOf).1 != ConcurrencyLimited;
    }
  }

  /** In every run of the proxy, a key is closed exactly when its live requests and its leaked slots
      together take all its slots; with no live request, exactly when refusals have leaked them all. */
  lemma {:induction false} ClosedIffLeaked(run: seq<Event>, c: Setup, k: Name, clock: real)
    requires ValidSetup(c) && Disciplined(Start(clock), run, c) && ProxyRun(run) && k in c.keys
    requires c.keys[k].maxConcurrency > 0
    ensures var s := After(Start(clock), run, c);
            && (Closed(s, c, k) <==> Count(s.live, k) + Count(s.refused, k) >= c.keys[k].maxConcurrency)
            && (Count(s.live, k) == 0 ==> (Closed(s, c, k) <==> Count(s.refused, k) >= c.keys[k].maxConcurrency))
  {
    LeaksOnlyGrow(Start(clock), run, c, k);
    ClosedIffFull(After(Start(clock), run, c), c, k);
  }

  /** The key stays closed whatever the proxy and time do. */
  ghost predicate ClosedForGood(s: Sys, c: Setup, k: Name)
    requires k in c.keys
  {
    forall run :: Disciplined(s, run, c) && ProxyRun(run) ==> Closed(After(s, run, c), c, k)
  }

  /** The live requests of a key can end without charge. */
  lemma {:induction false} EndAll(s: Sys, c: Setup, k: Name) returns (run: seq<Event>)
    requires ValidSetup(c) && k in c.keys && SlotsInv(s, c.keys[k])
    ensures Disciplined(s, run, c) && ProxyRun(run) && SlotsInv(After(s, run, c), c.keys[k])
    ensures Count(After(s, run, c).live, k) == 0 && Count(After(s, run, c).refused, k) == Count(s.refused, k)
    decreases Count(s.live, k)
  {
    run := [];
    if Count(s.live, k) > 0 {
      hide FinalizeMeter;
      var e := Finalizes(k, s.clock, 0, 0.0, false, true);
      SlotsStep(s, e, c);
      var rest := EndAll(Next(s, e, c), c, k);
      run := [e] + rest;
      assert run[1..] == rest;
    }
  }

  /** A key is closed for good exactly when refusals by its rate or budget have leaked as many slots
      as it has: nothing the proxy does later opens it, and with fewer leaks something does. */
  lemma {:induction false} ClosedForGoodIff(s: Sys, c: Setup, k: Name)
    requires ValidSetup(c) && k in c.keys && SlotsInv(s, c.keys[k]) && c.keys[k].maxConcurrency > 0
    ensures ClosedForGood(s, c, k) <==> Count(s.refused, k) >= c.keys[k].maxConcurrency
  {
    hide Closed;
    if Count(s.refused, k) >= c.keys[k].maxConcurrency {
      forall run | Disciplined(s, run, c) && ProxyRun(run) ensures Closed(After(s, run, c), c, k) {
        LeaksOnlyGrow(s, run, c, k);
        ClosedIffFull(After(s, run, c), c, k);
      }
    } else {
      var run := EndAll(s, c, k);
      ClosedIffFull(After(s, run, c), c, k);
    }
  }

  /** The leak happens: a key with one slot and one request a minute, asked twice at once, is closed. */
  lemma {:induction false} TwoQuickRequestsCloseKey(now: real, later: real)
    ensures var vk := VirtualKey([1], 1, 1, 0, 0.0, false, None);
            var admitted := BeginMeter(EMPTY, vk, now, d => d);
            var ended := FinalizeMeter(admitted.0, vk, now, d => d, 0, 0.0, true);
            var refused := BeginMeter(ended, vk, now, d => d);
            && admitted.1 == Allowed && refused.1 == RateLimited
            && BeginMeter(refused.0, vk, later, d => d).1 == ConcurrencyLimited
  {
    var vk := VirtualKey([1], 1, 1, 0, 0.0, false, None);
    var admitted := BeginMeter(EMPTY, vk, now, d => d);
    assert RequestBucket(EMPTY, vk, now) == Bucket(1.0, now, 1);
    assert admitted.0.buckets[vk.name] == Bucket(0.0, now, 1);
    var ended := FinalizeMeter(admitted.0, vk, now, d => d, 0, 0.0, true);
    assert Inflight(ended, vk.name) == 0 && ended.buckets == admitted.0.buckets;
    var slot := SlotStage(ended, vk).value;
    assert RequestBucket(slot, vk, now) == Bucket(0.0, now, 1);
  }

  /** The MCP handler's refused call and its Finalize: together they leave the slots in use as they
      were exactly when the refusal was not for concurrency. */
  lemma {:induction false} FinalizedRefusalIff(m: Meter, vk: VirtualKey, now: real, later: real, monthOf: int -> int)
    requires vk.maxConcurrency > 0 && Inflight(m, vk.name) >= 0 && BeginMeter(m, vk, now, monthOf).1 != Allowed
    ensures var (after, verdict) := BeginMeter(m, vk, now, monthOf);
            Inflight(FinalizeMeter(after, vk, later, monthOf, 0, 0.0, false), vk.name) == Inflight(m, vk.name)
            <==> verdict != ConcurrencyLimited
  {
    hide RpmStage;
    hide TpmStage;
    hide BudgetStages;
    BeginSlots(m, vk, now, monthOf);
  }

  /* ---- more live requests than slots ---- */

  /** A key with nothing but a concurrency cap. */
  function Capped(k: Name, cap: int): VirtualKey { VirtualKey(k, cap, 0, 0, 0.0, false, None) }

  predicate At(s: Sys, k: Name, inflight: int, live: nat) { Inflight(s.meter, k) == inflight && Count(s.live,
               k) == live }

  lemma {:induction false} CappedBegin(s: Sys, c: Setup, k: Name, cap: nat, inflight: nat, live: nat, now: real)
    requires k in c.keys && c.keys[k] == Capped(k, cap) && cap > 0 && At(s, k, inflight, live)
    ensures var t := Next(s, Begins(k, now), c);
            if inflight < cap then At(t, k, inflight + 1, live + 1)
            else At(t, k, inflight, live) && BeginMeter(s.meter, c.keys[k], now, c.monthOf).1 == ConcurrencyLimited
  {
  }

  lemma {:induction false} CappedFinalize(s: Sys, c: Setup, k: Name, cap: nat, inflight: nat, live: nat, now: real)
    requires k in c.keys && c.keys[k] == Capped(k, cap) && inflight > 0 && At(s, k, inflight, live)
    ensures At(Next(s, Finalizes(k, now, 0, 0.0, false, false), c), k, inflight - 1, live)
  {
  }

  /** n admitted calls. */
  lemma {:induction false} Admit(s: Sys, c: Setup, k: Name, cap: nat, live: nat, n: nat, now: real)
    returns (run: seq<Event>)
    requires k in c.keys && c.keys[k] == Capped(k, cap) && cap > 0 && live + n <= cap && At(s, k, live, live)
    ensures run == seq(n, _ => Begins(k, now)) && At(Played(s, run, c), k, live + n, live + n)
    decreases n
  {
    run := seq(n, _ => Begins(k, now));
    if n > 0 {
      hide Next;
      CappedBegin(s, c, k, cap, live, live, now);
      var rest := Admit(Next(s, Begins(k, now), c), c, k, cap, live + 1, n - 1, now);
      assert run[1..] == rest;
    }
  }

  /** Finalizing a concurrency refusal breaks the cap: with K requests admitted, one refused and
      finalized as the MCP handler does, and one more call, K + 1 requests are live. */
  lemma {:induction false} FinalizingRefusalBreaksCap(c: Setup, k: Name, cap: nat, clock: real)
    requires k in c.keys && c.keys[k] == Capped(k, cap) && cap > 0
    ensures var full := seq(cap, _ => Begins(k, clock));
            var run := full + [Begins(k, clock), Finalizes(k, clock, 0, 0.0, false, false), Begins(k, clock)];
            && BeginMeter(Played(Start(clock), full, c).meter, c.keys[k], clock, c.monthOf).1 == ConcurrencyLimited
            && Count(Played(Start(clock), run, c).live, k) == cap + 1
  {
    hide Next;
    var full := Admit(Start(clock), c, k, cap, 0, cap, clock);
    var s, e := Played(Start(clock), full, c), Finalizes(k, clock, 0, 0.0, false, false);
    var last := [Begins(k, clock), e, Begins(k, clock)];
    PlayedConcat(Start(clock), full, last, c);
    CappedBegin(s, c, k, cap, cap, cap, clock);
    var t := Next(s, Begins(k, clock), c);
    CappedFinalize(t, c, k, cap, cap, cap, clock);
    var u := Next(t, e, c);
    CappedBegin(u, c, k, cap, cap - 1, cap, clock);
    assert last[1..] == [e, Begins(k, clock)] && last[1..][1..] == [Begins(k, clock)] && last[1..][1..][1..] == [];
    assert Played(u, [Begins(k, clock)], c) == Played(Next(u, Begins(k, clock), c), [], c)
        == Next(u, Begins(k, clock), c);
    assert Played(t, last[1..], c) == Played(u, last[1..][1..], c);
    assert Played(s, last, c) == Played(t, last[1..], c);
  }
}
