/** The request bucket over whole runs: how many requests a key's RPM stage can let through. */
module RequestRate {
  import opened Metering
  import opened MeteringRuns

  /** Runs in which time moves forward; no other discipline is assumed of callers. */
  predicate Ordered(s: Sys, run: seq<Event>, c: Setup)
    decreases |run|
  {
    run == [] || (run[0].name in c.keys && run[0].now >= s.clock && Ordered(Next(s, run[0], c), run[1..], c))
  }

  predicate BucketInv(m: Meter, vk: VirtualKey, clock: real) {
    vk.name in m.buckets ==>
      var b := m.buckets[vk.name];
      b.rate == vk.rpm && b.last <= clock && 0.0 <= b.tokens <= b.rate as real
  }

  /** The tokens the key would find at a given time. */
  function Available(m: Meter, vk: VirtualKey, at: real): real { RequestBucket(m, vk, at).tokens }

  /** A Begin that reaches the RPM stage and takes a token. */
  predicate Admits(m: Meter, vk: VirtualKey, now: real) {
    SlotStage(m, vk).Some? && RpmStage(SlotStage(m, vk).value, vk, now).1
  }

  /** Requests of key k that the RPM stage lets through in a run. */
  function Admitted(s: Sys, run: seq<Event>, c: Setup, k: Name): nat
    requires Ordered(s, run, c) && k in c.keys
    decreases |run|
  {
    if run == [] then 0 else Passed(s, run[0], c, k) + Admitted(Next(s, run[0], c), run[1..], c, k)
  }

  lemma {:induction false} SlotLeavesBuckets(m: Meter, vk: VirtualKey)
    ensures SlotStage(m, vk).Some? ==> SlotStage(m, vk).value.buckets == m.buckets
  {
  }

  lemma {:induction false} ReleaseLeavesBuckets(m: Meter, vk: VirtualKey)
    ensures ReleaseSlot(m, vk).buckets == m.buckets
  {
  }

  /** What Begin does to the request bucket of its key. */
  lemma {:induction false} BeginBucket(m: Meter, vk: VirtualKey, now: real, monthOf: int -> int)
    requires vk.rpm > 0
    ensures var t := BeginMeter(m, vk, now, monthOf).0;
            if SlotStage(m, vk).None? then t.buckets == m.buckets
            else t.buckets == m.buckets[vk.name := var b := RequestBucket(m, vk, now);
                                                   if Admits(m, vk, now) then b.(tokens := b.tokens - 1.0) else b]
  {
    var slot := SlotStage(m, vk);
    if slot.Some? {
      SlotLeavesBuckets(m, vk);
      assert RequestBucket(slot.value, vk, now) == RequestBucket(m, vk, now);
      var rpm := RpmStage(slot.value, vk, now);
      assert TpmStage(rpm.0, vk, now).0.buckets == rpm.0.buckets;
      assert RateStages(m, vk, now).0.buckets == rpm.0.buckets;
    }
  }

  lemma {:induction false} BucketElsewhere(s: Sys, e: Event, c: Setup, k: Name)
    requires ValidSetup(c) && e.name in c.keys && (e.Finalizes? || e.name != k)
    ensures var t := Next(s, e, c).meter.buckets;
            (k in t <==> k in s.meter.buckets) && (k in t ==> t[k] == s.meter.buckets[k])
  {
    hide SlotStage;
    hide TpmStage;
    hide BudgetStages;
    hide ReleaseSlot;
    hide ChargeTokens;
    hide ChargeKey;
    hide ChargeTeam;
    var m, vk := s.meter, c.keys[e.name];
    if e.Begins? {
      var slot := SlotStage(m, vk);
      if slot.Some? {
        SlotLeavesBuckets(m, vk);
        var rpm := RpmStage(slot.value, vk, e.now);
        assert TpmStage(rpm.0, vk, e.now).0.buckets == rpm.0.buckets;
        assert RateStages(m, vk, e.now).0.buckets == rpm.0.buckets;
      }
    } else {
      ReleaseLeavesBuckets(m, vk);
    }
  }

  lemma {:induction false} RefillInRange(b: Bucket, now: real)
    requires now >= b.last && 0.0 <= b.tokens <= b.rate as real
    ensures 0.0 <= Refill(b, now).tokens <= b.rate as real
  {
    ProductNonNegative((now - b.last) / 60.0, b.rate as real);
  }

  lemma {:induction false} BucketStep(s: Sys, e: Event, c: Setup, k: Name)
    requires ValidSetup(c) && e.name in c.keys && e.now >= s.clock && k in c.keys && c.keys[k].rpm > 0
    requires BucketInv(s.meter, c.keys[k], s.clock)
    ensures BucketInv(Next(s, e, c).meter, c.keys[k], e.now)
  {
    var vk := c.keys[k];
    if e.Begins? && e.name == k {
      BeginBucket(s.meter, vk, e.now, c.monthOf);
      RefillInRange(if k in s.meter.buckets then s.meter.buckets[k] else Bucket(vk.rpm as real, e.now, vk.rpm), e.now);
    } else {
      BucketElsewhere(s, e, c, k);
    }
  }

  /** Waiting from a to t earns at most the rate times the wait. */
  lemma {:induction false} AvailableGrows(m: Meter, vk: VirtualKey, clock: real, a: real, t: real)
    requires vk.rpm > 0 && BucketInv(m, vk, clock) && clock <= a <= t
    ensures Available(m, vk, t) <= Available(m, vk, a) + (t - a) / 60.0 * vk.rpm as real
    ensures 0.0 <= Available(m, vk, a) <= vk.rpm as real
  {
    var r := vk.rpm as real;
    ProductNonNegative((t - a) / 60.0, r);
    if vk.name in m.buckets {
      var b := m.buckets[vk.name];
      RefillInRange(b, a);
      assert (t - b.last) / 60.0 * r == (a - b.last) / 60.0 * r + (t - a) / 60.0 * r by {
        assert (t - b.last) / 60.0 == (a - b.last) / 60.0 + (t - a) / 60.0;
        Distribute((a - b.last) / 60.0, (t - a) / 60.0, r);
      }
    }
  }

  lemma {:induction false} Distribute(x: real, y: real, r: real)
    ensures (x + y) * r == x * r + y * r
  {
  }

  /** A Begin of the key leaves, at its own time, one token less if it was let through. */
  lemma {:induction false} AvailableAfterBegin(s: Sys, e: Event, c: Setup)
    requires ValidSetup(c) && e.name in c.keys && e.Begins? && e.now >= s.clock && c.keys[e.name].rpm > 0
    requires BucketInv(s.meter, c.keys[e.name], s.clock)
    ensures Available(Next(s, e, c).meter, c.keys[e.name], e.now)
            == Available(s.meter, c.keys[e.name], e.now) - (if Admits(s.meter, c.keys[e.name], e.now) then 1.0 else 0.0)
  {
    var vk := c.keys[e.name];
    BeginBucket(s.meter, vk, e.now, c.monthOf);
    AvailableGrows(s.meter, vk, s.clock, e.now, e.now);
    var b := RequestBucket(s.meter, vk, e.now);
    RefillNow(b, e.now);
    RefillNow(b.(tokens := b.tokens - 1.0), e.now);
  }

  lemma {:induction false} RefillNow(b: Bucket, now: real)
    requires b.last == now && b.tokens <= b.rate as real
    ensures Refill(b, now) == b
  {
    assert (now - b.last) / 60.0 == 0.0;
    assert 0.0 * b.rate as real == 0.0;
  }

  predicate Within(run: seq<Event>, from: real, to: real) {
    forall i :: 0 <= i < |run| ==> from <= run[i].now <= to
  }

  function Passed(s: Sys, e: Event, c: Setup, k: Name): nat
    requires k in c.keys
  {
    if e.Begins? && e.name == k && Admits(s.meter, c.keys[k], e.now) then 1 else 0
  }

  /** One step: what passes is paid for by what was available at that time. */
  lemma {:induction false} AvailableStep(s: Sys, e: Event, c: Setup, k: Name, from: real)
    requires ValidSetup(c) && e.name in c.keys && k in c.keys && c.keys[k].rpm > 0
    requires BucketInv(s.meter, c.keys[k], s.clock) && s.clock <= from <= e.now
    ensures Passed(s, e, c, k) as real + Available(Next(s, e, c).meter, c.keys[k], e.now)
            <= Available(s.meter, c.keys[k], from) + (e.now - from) / 60.0 * c.keys[k].rpm as real
  {
    hide BeginMeter;
    hide FinalizeMeter;
    hide Refill;
    var vk := c.keys[k];
    AvailableGrows(s.meter, vk, s.clock, from, e.now);
    if e.Begins? && e.name == k {
      AvailableAfterBegin(s, e, c);
    } else {
      BucketElsewhere(s, e, c, k);
    }
  }

  /** What a bucket of this rate gains between two times. */
  function Flow(from: real, to: real, rpm: int): real { (to - from) / 60.0 * rpm as real }

  lemma {:induction false} AdmittedWithin(s: Sys, run: seq<Event>, c: Setup, k: Name, from: real, to: real)
    requires ValidSetup(c) && k in c.keys && c.keys[k].rpm > 0 && BucketInv(s.meter, c.keys[k], s.clock)
    requires Ordered(s, run, c) && s.clock <= from <= to && Within(run, from, to)
    ensures Admitted(s, run, c, k) as real
            <= Available(s.meter, c.keys[k], from) + Flow(from, to, c.keys[k].rpm)
    decreases |run|
  {
    hide BeginMeter;
    hide FinalizeMeter;
    hide RequestBucket;
    var r := c.keys[k].rpm as real;
    if run == [] {
      AvailableGrows(s.meter, c.keys[k], s.clock, from, from);
      ProductNonNegative((to - from) / 60.0, r);
    } else {
      var e := run[0];
      AvailableStep(s, e, c, k, from);
      AdmittedTail(s, run, c, k, to);
      SplitTime(from, e.now, to, r);
    }
  }

  lemma {:induction false} AdmittedTail(s: Sys, run: seq<Event>, c: Setup, k: Name, to: real)
    requires ValidSetup(c) && k in c.keys && c.keys[k].rpm > 0 && BucketInv(s.meter, c.keys[k], s.clock)
    requires run != [] && Ordered(s, run, c) && Within(run, s.clock, to)
    ensures Admitted(s, run, c, k) as real
            <= Passed(s, run[0], c, k) as real + Available(Next(s, run[0], c).meter, c.keys[k], run[0].now)
               + Flow(run[0].now, to, c.keys[k].rpm)
    decreases |run|, 0
  {
    hide BeginMeter;
    hide FinalizeMeter;
    hide RequestBucket;
    hide Available;
    hide BucketInv;
    hide Within;
    hide Flow;
    BucketStep(s, run[0], c, k);
    assert forall i :: 0 <= i < |run| ==> run[i].now <= to by { WithinTo(run, s.clock, to); }
    OrderedWithin(s, run, c, to);
    AdmittedWithin(Next(s, run[0], c), run[1..], c, k, run[0].now, to);
  }

  lemma {:induction false} WithinTo(run: seq<Event>, from: real, to: real)
    requires Within(run, from, to)
    ensures forall i :: 0 <= i < |run| ==> run[i].now <= to
  {
  }

  lemma {:induction false} SplitTime(a: real, b: real, d: real, r: real)
    ensures (d - a) / 60.0 * r == (b - a) / 60.0 * r + (d - b) / 60.0 * r
  {
    assert (d - a) / 60.0 == (b - a) / 60.0 + (d - b) / 60.0;
    Distribute((b - a) / 60.0, (d - b) / 60.0, r);
  }

  /** In an ordered run, the events after the first are not before it. */
  lemma {:induction false} OrderedWithin(s: Sys, run: seq<Event>, c: Setup, to: real)
    requires Ordered(s, run, c) && run != [] && forall i :: 0 <= i < |run| ==> run[i].now <= to
    ensures Within(run[1..], run[0].now, to) && run[0].now <= to
    decreases |run|
  {
    if |run| > 1 {
      OrderedWithin(Next(s, run[0], c), run[1..], c, to);
      forall i | 0 <= i < |run[1..]| ensures run[0].now <= run[1..][i].now {
        if i > 0 { assert run[1..][i] == run[1..][1..][i - 1]; }
      }
    }
  }

  /** The state after an ordered run. */
  function AfterOrdered(s: Sys, run: seq<Event>, c: Setup): Sys
    requires Ordered(s, run, c)
    decreases |run|
  {
    if run == [] then s else AfterOrdered(Next(s, run[0], c), run[1..], c)
  }

  lemma {:induction false} BucketRun(s: Sys, run: seq<Event>, c: Setup, k: Name)
    requires ValidSetup(c) && k in c.keys && c.keys[k].rpm > 0 && BucketInv(s.meter, c.keys[k], s.clock)
    requires Ordered(s, run, c)
    ensures BucketInv(AfterOrdered(s, run, c).meter, c.keys[k], AfterOrdered(s, run, c).clock)
    decreases |run|
  {
    if run != [] {
      BucketStep(s, run[0], c, k);
      BucketRun(Next(s, run[0], c), run[1..], c, k);
    }
  }

  /** After any history, and over any interval of T minutes, the RPM stage of a key with rate r lets
      through at most r + r*T requests; its bucket always holds between 0 and r tokens. */
  lemma {:induction false} RequestRateHolds(history: seq<Event>, run: seq<Event>, c: Setup, k: Name, clock: real,
                                            from: real, to: real)
    requires ValidSetup(c) && k in c.keys && c.keys[k].rpm > 0 && Ordered(Start(clock), history, c)
    requires var s := AfterOrdered(Start(clock), history, c);
             Ordered(s, run, c) && s.clock <= from <= to && Within(run, from, to)
    ensures var s := AfterOrdered(Start(clock), history, c);
            var r := c.keys[k].rpm as real;
            && (k in s.meter.buckets ==> 0.0 <= s.meter.buckets[k].tokens <= r)
            && Admitted(s, run, c, k) as real <= r + Flow(from, to, c.keys[k].rpm)
  {
    hide Flow;
    hide Next;
    var s := AfterOrdered(Start(clock), history, c);
    BucketRun(Start(clock), history, c, k);
    AdmittedWithin(s, run, c, k, from, to);
    AvailableGrows(s.meter, c.keys[k], s.clock, from, from);
  }
}
