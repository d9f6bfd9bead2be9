/** What the gateway remembers about the health of upstream accounts: failure counts and the
    circuit they open, cooldowns, lockouts, slots in use and observed latency. Times are seconds,
    latencies whole nanoseconds. Every operation runs under one mutex. */
module Resilience {

  type Name = seq<int>

  datatype Health = Health(
    cooldown: map<Name, real>, fails: map<Name, nat>, openedAt: map<Name, real>, active: map<Name, nat>,
    latency: map<Name, nat>, successes: map<Name, nat>, requests: map<Name, nat>, lockouts: map<Name, real>)

  const HEALTHY := Health(map[], map[], map[], map[], map[], map[], map[], map[])

  /** Reading an absent entry of a map gives zero. */
  function Get(m: map<Name, nat>, n: Name): nat { if n in m then m[n] else 0 }

  /** The circuit check: an opening older than the reset is forgotten together with the failures. */
  function SeeCircuit(h: Health, n: Name, now: real, reset: real): (r: (Health, bool))
    ensures r.0 == h.(openedAt := r.0.openedAt, fails := r.0.fails)
  {
    if n !in h.openedAt then (h, false)
    else if now - h.openedAt[n] > reset then (h.(openedAt := h.openedAt - {n}, fails := h.fails[n := 0]), false)
    else (h, true)
  }

  function FailOnce(h: Health, n: Name, max: int, now: real): (r: Health)
    ensures r == h.(fails := r.fails, requests := r.requests, openedAt := r.openedAt)
  {
    var count := Get(h.fails, n) + 1;
    h.(fails := h.fails[n := count],
       requests := h.requests[n := Get(h.requests, n) + 1],
       openedAt := if max > 0 && count >= max then h.openedAt[n := now] else h.openedAt)
  }

  function SucceedOnce(h: Health, n: Name, latency: nat): (r: Health)
    ensures r == h.(fails := r.fails, successes := r.successes, requests := r.requests, latency := r.latency)
    ensures r.fails == h.fails[n := 0]
  {
    var was := Get(h.latency, n);
    h.(fails := h.fails[n := 0],
       successes := h.successes[n := Get(h.successes, n) + 1],
       requests := h.requests[n := Get(h.requests, n) + 1],
       latency := h.latency[n := if was == 0 then latency else (was * 7 + latency) / 8])
  }

  function AcquireSlot(h: Health, n: Name, max: int): (r: (Health, bool))
    ensures r.0 == h.(active := r.0.active)
  {
    if max > 0 && Get(h.active, n) >= max then (h, false)
    else (h.(active := h.active[n := Get(h.active, n) + 1]), true)
  }

  function FreeSlot(h: Health, n: Name): (r: Health)
    ensures r == h.(active := r.active)
  {
    if Get(h.active, n) > 0 then h.(active := h.active[n := Get(h.active, n) - 1]) else h
  }

  function LockOut(h: Health, n: Name, now: real, d: real): (r: Health)
    ensures r == h.(lockouts := r.lockouts)
  {
    if d <= 0.0 then h else h.(lockouts := h.lockouts[n := now + d])
  }

  predicate Locked(h: Health, n: Name, now: real) { n in h.lockouts && now <= h.lockouts[n] }

  /** The second section of the lockout check: it looks again before it removes a past lockout. */
  function SweepLockout(h: Health, n: Name, later: real): (r: Health)
    ensures r == h.(lockouts := r.lockouts)
  {
    if n in h.lockouts && later > h.lockouts[n] then h.(lockouts := h.lockouts - {n}) else h
  }

  /** Whatever others did since the first section, the sweep changes no later answer: a lockout set in
      between survives it. */
  lemma {:induction false} SweepIsInvisible(h: Health, n: Name, later: real, m: Name, t: real)
    requires t >= later
    ensures Locked(SweepLockout(h, n, later), m, t) <==> Locked(h, m, t)
  {
  }

  /** A lockout holds exactly until its time has passed, through any sweep in between; one that is not
      positive changes nothing. */
  lemma {:induction false} LockoutLasts(h: Health, n: Name, now: real, d: real, later: real, t: real)
    requires now <= later <= t
    ensures Locked(SweepLockout(LockOut(h, n, now, d), n, later), n, t) <==> if d > 0.0 then t <= now + d
            else Locked(h, n, t)
  {
    SweepIsInvisible(LockOut(h, n, now, d), n, later, n, t);
  }

  /** The circuit breaker's promise, per account: enough failures in a row mean an open circuit. */
  predicate BreakerInv(h: Health, n: Name, max: int) { Get(h.fails, n) >= max ==> n in h.openedAt }

  lemma {:induction false} SeeingCircuit(h: Health, m: Name, now: real, reset: real, n: Name, max: int)
    requires max > 0 && BreakerInv(h, n, max)
    ensures var r := SeeCircuit(h, m, now, reset);
            && BreakerInv(r.0, n, max)
            && (n != m ==> Get(r.0.fails, n) == Get(h.fails, n))
            && (n == m && !r.1 ==> Get(r.0.fails, n) < max)
  {
  }

  lemma {:induction false} FailingOnce(h: Health, m: Name, now: real, n: Name, max: int)
    requires max > 0 && BreakerInv(h, n, max)
    ensures var r := FailOnce(h, m, max, now);
            BreakerInv(r, n, max) && Get(r.fails, n) == if n == m then Get(h.fails, n) + 1 else Get(h.fails, n)
  {
  }

  /** The averaged latency stays between the samples it averages. */
  lemma {:induction false} LatencyBetween(h: Health, n: Name, latency: nat, low: nat, high: nat)
    requires 0 < low <= latency <= high
    requires n in h.latency ==> low <= h.latency[n] <= high
    ensures low <= Get(SucceedOnce(h, n, latency).latency, n) <= high
  {
    var was := Get(h.latency, n);
    assert was != 0 ==> low * 8 <= was * 7 + latency <= high * 8;
  }

  class State {
    var cooldown: map<Name, real>
    var fails: map<Name, nat>
    var openedAt: map<Name, real>
    var active: map<Name, nat>
    var latency: map<Name, nat>
    var successes: map<Name, nat>
    var requests: map<Name, nat>
    var lockouts: map<Name, real>

    ghost function View(): Health
      reads this
    {
      Health(cooldown, fails, openedAt, active, latency, successes, requests, lockouts)
    }

    constructor ()
      ensures View() == HEALTHY
    {
      cooldown, fails, openedAt, active := map[], map[], map[], map[];
      latency, successes, requests, lockouts := map[], map[], map[], map[];
    }

    method Cooling(n: Name, now: real) returns (cooling: bool)
      ensures cooling <==> n in cooldown && now < cooldown[n]
    {
      cooling := n in cooldown && now < cooldown[n];
    }

    method CircuitOpen(n: Name, now: real, reset: real) returns (isOpen: bool)
      modifies `openedAt, `fails
      ensures (View(), isOpen) == SeeCircuit(old(View()), n, now, reset)
      ensures !isOpen ==> n !in openedAt
    {
      if n !in openedAt { return false; }
      if now - openedAt[n] > reset {
        openedAt := openedAt - {n};
        fails := fails[n := 0];
        return false;
      }
      return true;
    }

    /** First section of the lockout check: the answer, and whether a past lockout was seen. */
    method ReadLockout(n: Name, now: real) returns (locked: bool, past: bool)
      ensures locked == Locked(View(), n, now) && past == (n in lockouts && now > lockouts[n])
    {
      if n !in lockouts { return false, false; }
      if now > lockouts[n] { return false, true; }
      return true, false;
    }

    /** Second section, after the lock was released and taken again. */
    method SweepPast(n: Name, later: real)
      modifies `lockouts
      ensures View() == SweepLockout(old(View()), n, later)
    {
      if n in lockouts && later > lockouts[n] { lockouts := lockouts - {n}; }
    }

    /** Both sections with nothing in between. */
    method LockedOut(n: Name, now: real, later: real) returns (locked: bool)
      requires now <= later
      modifies `lockouts
      ensures locked == Locked(old(View()), n, now)
      ensures View() == if locked then old(View()) else SweepLockout(old(View()), n, now)
    {
      var past: bool;
      locked, past := ReadLockout(n, now);
      if past { SweepPast(n, later); }
    }

    method Lockout(n: Name, now: real, d: real)
      modifies `lockouts
      ensures View() == LockOut(old(View()), n, now, d)
    {
      if d <= 0.0 { return; }
      lockouts := lockouts[n := now + d];
    }

    method ResetLockout(n: Name)
      modifies `lockouts
      ensures n !in lockouts && lockouts == old(lockouts) - {n}
    {
      lockouts := lockouts - {n};
    }

    method Cooldown(n: Name, now: real, d: real)
      modifies `cooldown
      ensures cooldown == old(cooldown)[n := now + d]
    {
      cooldown := cooldown[n := now + d];
    }

    method Failure(n: Name, max: int, now: real)
      modifies `fails, `requests, `openedAt
      ensures View() == FailOnce(old(View()), n, max, now)
    {
      fails := fails[n := Get(fails, n) + 1];
      requests := requests[n := Get(requests, n) + 1];
      if max > 0 && fails[n] >= max { openedAt := openedAt[n := now]; }
    }

    method Success(n: Name, lat: nat)
      modifies `fails, `successes, `requests, `latency
      ensures View() == SucceedOnce(old(View()), n, lat)
    {
      fails := fails[n := 0];
      successes := successes[n := Get(successes, n) + 1];
      requests := requests[n := Get(requests, n) + 1];
      var was := Get(latency, n);
      if was == 0 {
        latency := latency[n := lat];
      } else {
        latency := latency[n := (was * 7 + lat) / 8];
      }
    }

    method TryAcquire(n: Name, max: int) returns (ok: bool)
      modifies `active
      ensures (View(), ok) == AcquireSlot(old(View()), n, max)
    {
      if max > 0 && Get(active, n) >= max { return false; }
      active := active[n := Get(active, n) + 1];
      return true;
    }

    method Release(n: Name)
      modifies `active
      ensures View() == FreeSlot(old(View()), n)
    {
      if Get(active, n) > 0 { active := active[n := Get(active, n) - 1]; }
    }
  }
}
