/** The two rate buckets over whole runs, without a word about how a bucket is refilled: a request
    passes a bucket exactly when every window that starts at an earlier use of the bucket has room
    for it. Calls may carry any clock readings, in any order, and need follow no discipline. */
module BucketHistory {
  import opened Metering
  import opened MeteringRuns
  import opened RequestRate

  /** One use of a bucket: when, and how much it took (nothing, for a call that only looked). */
  datatype Draw = Draw(at: real, amount: real)

  /** What the uses from the j-th on took together. */
  function Drawn(h: seq<Draw>, j: nat): real
    decreases |h| - j
  {
    if j >= |h| then 0.0 else h[j].amount + Drawn(h, j + 1)
  }

  /** Every window from an earlier use to `now` has room for x more. */
  predicate Covered(h: seq<Draw>, rate: int, now: real, x: real) {
    forall j :: 0 <= j < |h| ==> Drawn(h, j) + x <= rate as real + Flow(h[j].at, now, rate)
  }

  /** There is room for x: it fits a full bucket and every window. */
  predicate Room(h: seq<Draw>, rate: int, now: real, x: real) { x <= rate as real && Covered(h, rate, now, x) }

  /* ---- one bucket ---- */

  /** What a bucket that was used as in h holds. */
  ghost predicate Reflects(buckets: map<Name, Bucket>, k: Name, rate: int, h: seq<Draw>) {
    if h == [] then k !in buckets
    else
      && k in buckets && buckets[k].rate == rate && buckets[k].last == h[|h| - 1].at
      && forall x :: Covered(h, rate, buckets[k].last, x) <==> x <= buckets[k].tokens
  }

  /** The bucket a call finds: an unused one is full. */
  function Found(buckets: map<Name, Bucket>, k: Name, rate: int, now: real): Bucket {
    if k in buckets then buckets[k] else Bucket(rate as real, now, rate)
  }

  lemma {:induction false} CoveredLater(h: seq<Draw>, rate: int, from: real, to: real, x: real)
    ensures Covered(h, rate, to, x) <==> Covered(h, rate, from, x - Flow(from, to, rate))
  {
    forall j | 0 <= j < |h| ensures Flow(h[j].at, to, rate) == Flow(h[j].at, from, rate) + Flow(from, to, rate) {
      SplitTime(h[j].at, from, to, rate as real);
    }
  }

  lemma {:induction false} RefillGains(b: Bucket, now: real)
    ensures var r, gained := Refill(b, now), b.tokens + Flow(b.last, now, b.rate);
            && r.rate == b.rate && r.last == now
            && r.tokens == if gained > b.rate as real then b.rate as real else gained
  {
  }

  /** Refilled, the bucket holds at least x exactly when there is room for x. */
  lemma {:induction false} RefilledHolds(buckets: map<Name, Bucket>, k: Name, rate: int, h: seq<Draw>, now: real,
                                         x: real)
    requires Reflects(buckets, k, rate, h)
    ensures var b := Refill(Found(buckets, k, rate, now), now);
            b.rate == rate && b.last == now && (Room(h, rate, now, x) <==> x <= b.tokens)
  {
    hide Covered;
    hide Refill;
    hide Flow;
    RefillGains(Found(buckets, k, rate, now), now);
    if h == [] {
      NoFlow(now, rate);
      NoWindows(h, rate, now, x);
    } else {
      CoveredLater(h, rate, buckets[k].last, now, x);
    }
  }

  lemma {:induction false} NoWindows(h: seq<Draw>, rate: int, now: real, x: real)
    requires h == []
    ensures Covered(h, rate, now, x)
  {
  }

  lemma {:induction false} DrawnAppend(h: seq<Draw>, d: Draw, j: nat)
    requires j <= |h|
    ensures Drawn(h + [d], j) == Drawn(h, j) + d.amount
    decreases |h| - j
  {
    if j < |h| { DrawnAppend(h, d, j + 1); } else { assert Drawn(h + [d], j + 1) == 0.0; }
  }

  lemma {:induction false} CoveredAppend(h: seq<Draw>, d: Draw, rate: int, x: real)
    ensures Covered(h + [d], rate, d.at, x) <==> Room(h, rate, d.at, x + d.amount)
  {
    forall j | 0 <= j <= |h| ensures Drawn(h + [d], j) == Drawn(h, j) + d.amount { DrawnAppend(h, d, j); }
    NoFlow(d.at, rate);
    hide Flow;
    assert forall j :: 0 <= j < |h| ==> (h + [d])[j] == h[j];
    if Covered(h + [d], rate, d.at, x) {
      assert Drawn(h + [d], |h|) + x <= rate as real + Flow((h + [d])[|h|].at, d.at, rate);
      forall j | 0 <= j < |h| ensures Drawn(h, j) + (x + d.amount) <= rate as real + Flow(h[j].at, d.at, rate) {
        assert Drawn(h + [d], j) + x <= rate as real + Flow((h + [d])[j].at, d.at, rate);
      }
    }
  }

  /** A use: the bucket is refilled and the amount taken. */
  lemma {:induction false} UseReflects(buckets: map<Name, Bucket>, after: map<Name, Bucket>, k: Name, rate: int,
                                       h: seq<Draw>, d: Draw)
    requires Reflects(buckets, k, rate, h)
    requires var b := Refill(Found(buckets, k, rate, d.at), d.at);
             k in after && after[k] == b.(tokens := b.tokens - d.amount)
    ensures Reflects(after, k, rate, h + [d])
  {
    hide Covered;
    hide Refill;
    hide Room;
    RefilledHolds(buckets, k, rate, h, d.at, 0.0);
    forall x ensures Covered(h + [d], rate, d.at, x) <==> x <= after[k].tokens {
      CoveredAppend(h, d, rate, x);
      RefilledHolds(buckets, k, rate, h, d.at, x + d.amount);
    }
  }

  /* ---- the request bucket ---- */

  /** What a call takes from the request bucket of key k: a Begin that got its slot uses it, and
      takes one request if it passes. */
  function RequestDraw(s: Sys, e: Event, c: Setup, k: Name): seq<Draw>
    requires k in c.keys
  {
    if e.Begins? && e.name == k && SlotStage(s.meter, c.keys[k]).Some?
    then [Draw(e.now, Passed(s, e, c, k) as real)] else []
  }

  function RequestDraws(s: Sys, run: seq<Event>, c: Setup, k: Name): seq<Draw>
    requires AllKnown(run, c) && k in c.keys
    decreases |run|
  {
    if run == [] then [] else RequestDraw(s, run[0], c, k) + RequestDraws(Next(s, run[0], c), run[1..], c, k)
  }

  lemma {:induction false} RequestStep(s: Sys, e: Event, c: Setup, k: Name, h: seq<Draw>)
    requires ValidSetup(c) && e.name in c.keys && k in c.keys && c.keys[k].rpm > 0
    requires Reflects(s.meter.buckets, k, c.keys[k].rpm, h)
    ensures Reflects(Next(s, e, c).meter.buckets, k, c.keys[k].rpm, h + RequestDraw(s, e, c, k))
  {
    hide BeginMeter;
    hide FinalizeMeter;
    hide Reflects;
    hide Refill;
    hide SlotStage;
    hide Admits;
    var vk, after := c.keys[k], Next(s, e, c).meter.buckets;
    if e.Begins? && e.name == k {
      BeginBucket(s.meter, vk, e.now, c.monthOf);
      if SlotStage(s.meter, vk).Some? {
        UseReflects(s.meter.buckets, after, k, vk.rpm, h, Draw(e.now, Passed(s, e, c, k) as real));
      } else {
        assert h + [] == h;
      }
    } else {
      BucketElsewhere(s, e, c, k);
      SameReflects(s.meter.buckets, after, k, vk.rpm, h);
      assert h + [] == h;
    }
  }

  lemma {:induction false} SameReflects(buckets: map<Name, Bucket>, after: map<Name, Bucket>, k: Name, rate: int,
                                        h: seq<Draw>)
    requires Reflects(buckets, k, rate, h)
    requires (k in after <==> k in buckets) && (k in after ==> after[k] == buckets[k])
    ensures Reflects(after, k, rate, h)
  {
  }

  lemma {:induction false} RequestsReflected(s: Sys, run: seq<Event>, c: Setup, k: Name, h: seq<Draw>)
    requires ValidSetup(c) && AllKnown(run, c) && k in c.keys && c.keys[k].rpm > 0
    requires Reflects(s.meter.buckets, k, c.keys[k].rpm, h)
    ensures Reflects(Played(s, run, c).meter.buckets, k, c.keys[k].rpm, h + RequestDraws(s, run, c, k))
    decreases |run|
  {
    hide Next;
    hide Reflects;
    hide RequestDraw;
    if run == [] {
      assert h + [] == h;
    } else {
      RequestStep(s, run[0], c, k, h);
      var one, rest := RequestDraw(s, run[0], c, k), RequestDraws(Next(s, run[0], c), run[1..], c, k);
      RequestsReflected(Next(s, run[0], c), run[1..], c, k, h + one);
      assert h + one + rest == h + (one + rest);
    }
  }

  /** After any run, a call of a key with rate r that has its slot passes the RPM stage exactly when
      r >= 1 and, for every earlier use of the bucket, what passed from that use on and this request
      are at most r + r * T, T the minutes since that use. */
  lemma {:induction false} RequestPassesIff(run: seq<Event>, c: Setup, k: Name, clock: real, now: real)
    requires ValidSetup(c) && AllKnown(run, c) && k in c.keys && c.keys[k].rpm > 0
    requires SlotStage(Played(Start(clock), run, c).meter, c.keys[k]).Some?
    ensures Admits(Played(Start(clock), run, c).meter, c.keys[k], now)
            <==> Room(RequestDraws(Start(clock), run, c, k), c.keys[k].rpm, now, 1.0)
  {
    hide Next;
    hide Refill;
    hide Reflects;
    hide Room;
    var m, vk, h := Played(Start(clock), run, c).meter, c.keys[k], RequestDraws(Start(clock), run, c, k);
    assert Reflects(Start(clock).meter.buckets, k, vk.rpm, []) by { NothingUsed(k, vk.rpm); }
    RequestsReflected(Start(clock), run, c, k, []);
    assert [] + h == h;
    SlotLeavesBuckets(m, vk);
    RefilledHolds(m.buckets, k, vk.rpm, h, now, 1.0);
  }

  lemma {:induction false} NothingUsed(k: Name, rate: int)
    ensures Reflects(map[], k, rate, [])
  {
  }

  /* ---- the token bucket ---- */

  /** What a call takes from the token bucket of key k: a Begin past the RPM stage only looks, a
      committed Finalize takes its tokens. */
  function TokenDraw(s: Sys, e: Event, c: Setup, k: Name): seq<Draw>
    requires k in c.keys
  {
    if e.name != k then []
    else if e.Begins? then (if Admits(s.meter, c.keys[k], e.now) then [Draw(e.now, 0.0)] else [])
    else if e.committed && e.tokens > 0 then [Draw(e.now, e.tokens as real)]
    else []
  }

  function TokenDraws(s: Sys, run: seq<Event>, c: Setup, k: Name): seq<Draw>
    requires AllKnown(run, c) && k in c.keys
    decreases |run|
  {
    if run == [] then [] else TokenDraw(s, run[0], c, k) + TokenDraws(Next(s, run[0], c), run[1..], c, k)
  }

  /** What Begin does to the token bucket of its key. */
  lemma {:induction false} BeginTokenBucket(m: Meter, vk: VirtualKey, now: real, monthOf: int -> int)
    requires vk.tpm > 0
    ensures var t := BeginMeter(m, vk, now, monthOf).0;
            if Admits(m, vk, now) then t.tpm == m.tpm[vk.name := TokenBucket(m, vk, now)] else t.tpm == m.tpm
  {
    hide Refill;
    var slot := SlotStage(m, vk);
    if slot.Some? {
      var rpm := RpmStage(slot.value, vk, now);
      assert rpm.0.tpm == m.tpm;
      assert TokenBucket(rpm.0, vk, now) == TokenBucket(m, vk, now);
    }
    var rates := RateStages(m, vk, now);
    assert BudgetStages(rates.0, vk, now, monthOf).0.tpm == rates.0.tpm;
  }

  lemma {:induction false} TokensElsewhere(s: Sys, e: Event, c: Setup, k: Name)
    requires ValidSetup(c) && e.name in c.keys && e.name != k
    ensures SameAt(s.meter, Next(s, e, c).meter, k)
  {
    hide RateStages;
    hide BudgetStages;
    hide FinalizeMeter;
    var vk := c.keys[e.name];
    if e.Begins? {
      RateStagesElsewhere(s.meter, vk, e.now, k);
      BudgetStagesElsewhere(RateStages(s.meter, vk, e.now).0, vk, e.now, c.monthOf, k);
    } else {
      FinalizeElsewhere(s.meter, vk, e.now, c.monthOf, e.tokens, e.cost, e.committed, k);
    }
  }

  lemma {:induction false} TokenStep(s: Sys, e: Event, c: Setup, k: Name, h: seq<Draw>)
    requires ValidSetup(c) && e.name in c.keys && k in c.keys && c.keys[k].tpm > 0
    requires Reflects(s.meter.tpm, k, c.keys[k].tpm, h)
    ensures Reflects(Next(s, e, c).meter.tpm, k, c.keys[k].tpm, h + TokenDraw(s, e, c, k))
  {
    hide BeginMeter;
    hide FinalizeMeter;
    hide Reflects;
    hide Refill;
    hide Admits;
    var vk, after, draw := c.keys[k], Next(s, e, c).meter.tpm, TokenDraw(s, e, c, k);
    if e.name != k {
      TokensElsewhere(s, e, c, k);
    } else if e.Begins? {
      BeginTokenBucket(s.meter, vk, e.now, c.monthOf);
    } else {
      FinalizeTokens(s.meter, vk, e.now, c.monthOf, e.tokens, e.cost, e.committed);
    }
    if draw == [] {
      SameReflects(s.meter.tpm, after, k, vk.tpm, h);
      assert h + [] == h;
    } else {
      UseReflects(s.meter.tpm, after, k, vk.tpm, h, draw[0]);
    }
  }

  lemma {:induction false} TokensReflected(s: Sys, run: seq<Event>, c: Setup, k: Name, h: seq<Draw>)
    requires ValidSetup(c) && AllKnown(run, c) && k in c.keys && c.keys[k].tpm > 0
    requires Reflects(s.meter.tpm, k, c.keys[k].tpm, h)
    ensures Reflects(Played(s, run, c).meter.tpm, k, c.keys[k].tpm, h + TokenDraws(s, run, c, k))
    decreases |run|
  {
    hide Next;
    hide Reflects;
    hide TokenDraw;
    if run == [] {
      assert h + [] == h;
    } else {
      TokenStep(s, run[0], c, k, h);
      var one, rest := TokenDraw(s, run[0], c, k), TokenDraws(Next(s, run[0], c), run[1..], c, k);
      TokensReflected(Next(s, run[0], c), run[1..], c, k, h + one);
      assert h + one + rest == h + (one + rest);
    }
  }

  /** After any run, a call of a key with token rate r that passed the RPM stage passes the TPM stage
      exactly when, for every earlier use of the bucket, the tokens charged from that use on leave at
      least one of r + r * T. */
  lemma {:induction false} TokensPassIff(run: seq<Event>, c: Setup, k: Name, clock: real, now: real)
    requires ValidSetup(c) && AllKnown(run, c) && k in c.keys && c.keys[k].tpm > 0
    requires Admits(Played(Start(clock), run, c).meter, c.keys[k], now)
    ensures RateStages(Played(Start(clock), run, c).meter, c.keys[k], now).1
            == if Room(TokenDraws(Start(clock), run, c, k), c.keys[k].tpm, now, 1.0) then Allowed else RateLimited
  {
    hide Next;
    hide Refill;
    hide Reflects;
    hide Room;
    hide RpmStage;
    var m, vk, h := Played(Start(clock), run, c).meter, c.keys[k], TokenDraws(Start(clock), run, c, k);
    assert Reflects(Start(clock).meter.tpm, k, vk.tpm, []) by { NothingUsed(k, vk.tpm); }
    TokensReflected(Start(clock), run, c, k, []);
    assert [] + h == h;
    var slot := SlotStage(m, vk).value;
    var rpm := RpmStage(slot, vk, now).0;
    assert rpm.tpm == m.tpm;
    RefilledHolds(m.tpm, k, vk.tpm, h, now, 1.0);
  }

  /* ---- clocks that move forward ---- */

  predicate Forward(h: seq<Draw>, from: real, to: real) {
    && (forall i :: 0 <= i < |h| ==> from <= h[i].at <= to && h[i].amount >= 0.0)
    && forall i, j :: 0 <= i <= j < |h| ==> h[i].at <= h[j].at
  }

  /** Every window that starts where something was taken has room. */
  predicate RoomSinceDraws(h: seq<Draw>, rate: int, now: real, x: real) {
    x <= rate as real &&
    forall j :: 0 <= j < |h| && h[j].amount > 0.0 ==> Drawn(h, j) + x <= rate as real + Flow(h[j].at, now, rate)
  }

  lemma {:induction false} FlowShrinks(a: real, b: real, now: real, rate: int)
    requires a <= b && rate >= 0
    ensures Flow(a, now, rate) >= Flow(b, now, rate)
  {
    SplitTime(a, b, now, rate as real);
    ProductNonNegative((b - a) / 60.0, rate as real);
  }

  lemma {:induction false} WindowFits(h: seq<Draw>, rate: int, from: real, now: real, x: real, j: nat)
    requires rate >= 0 && Forward(h, from, now) && RoomSinceDraws(h, rate, now, x) && j < |h|
    ensures Drawn(h, j) + x <= rate as real + Flow(h[j].at, now, rate)
    decreases |h| - j
  {
    hide Flow;
    if h[j].amount <= 0.0 {
      if j + 1 < |h| {
        WindowFits(h, rate, from, now, x, j + 1);
        FlowShrinks(h[j].at, h[j + 1].at, now, rate);
      } else {
        FlowShrinks(h[j].at, now, now, rate);
        assert Flow(now, now, rate) == 0.0 by { NoFlow(now, rate); }
      }
    }
  }

  lemma {:induction false} NoFlow(now: real, rate: int)
    ensures Flow(now, now, rate) == 0.0
  {
    assert (now - now) / 60.0 == 0.0;
  }

  /** When clocks move forward, calls that took nothing do not matter. */
  lemma {:induction false} OnlyDrawsMatter(h: seq<Draw>, rate: int, from: real, now: real, x: real)
    requires rate >= 0 && Forward(h, from, now)
    ensures Room(h, rate, now, x) <==> RoomSinceDraws(h, rate, now, x)
  {
    if RoomSinceDraws(h, rate, now, x) {
      forall j | 0 <= j < |h| ensures Drawn(h, j) + x <= rate as real + Flow(h[j].at, now, rate) {
        WindowFits(h, rate, from, now, x, j);
      }
    }
  }
}
