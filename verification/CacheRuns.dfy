/** Every interleaving of the cache's critical sections. A get is two steps of one thread: a
    read under the read lock, then, under the write lock, dropping or touching the key. */
module CacheRuns {
  import opened WordOverlap
  import opened CacheState

  datatype Read = Read(key: Key, entry: Entry)

  /** `touched` and `clock` are bookkeeping for the statements below: the step at which each
      key was last stored or served. The program does not keep them. */
  datatype Machine = Machine(s: State, pending: map<nat, Read>, clock: nat, touched: map<Key, nat>)

  datatype Step =
    | ReadEntry(thread: nat, key: Key)
    | FinishRead(thread: nat, now: int)
    | SetEntry(now: int, key: Key, body: seq<int>, expiresAt: int, model: seq<int>, hash: seq<int>, words: seq<Word>)
    | ClearAll

  const INITIAL := Machine(EMPTY, map[], 0, map[])

  predicate Touches(m: Machine, step: Step, k: Key) {
    match step
    case SetEntry(_, key, _, _, _, _, _) => k == key
    case FinishRead(t, now) =>
      t in m.pending && k == m.pending[t].key && !Expired(m.pending[t].entry, now) && k in m.s.index
    case _ => false
  }

  function StepKey(m: Machine, step: Step): Key {
    match step
    case SetEntry(_, key, _, _, _, _, _) => key
    case FinishRead(t, _) => if t in m.pending then m.pending[t].key else []
    case _ => []
  }

  ghost function NextState(m: Machine, maxSize: nat, step: Step, bit: Word -> bv64): State {
    match step
    case ReadEntry(_, _) => m.s
    case FinishRead(t, now) => if t in m.pending then FinishGet(m.s, m.pending[t].key, m.pending[t].entry, now) else m.s
    case SetEntry(now, key, body, expiresAt, model, hash, words) =>
      Set(m.s, maxSize, now, key, NewEntry(body, expiresAt, model, hash, words, bit))
    case ClearAll => EMPTY
  }

  ghost function Next(m: Machine, maxSize: nat, step: Step, bit: Word -> bv64): Machine {
    var pending :=
      match step
      case ReadEntry(t, key) => if key in m.s.entries then m.pending[t := Read(key, m.s.entries[key])] else m.pending
      case FinishRead(t, _) => m.pending - {t}
      case _ => m.pending;
    var k := StepKey(m, step);
    Machine(NextState(m, maxSize, step, bit), pending, m.clock + 1,
            if Touches(m, step, k) then m.touched[k := m.clock] else m.touched)
  }

  ghost function Run(m: Machine, maxSize: nat, steps: seq<Step>, bit: Word -> bv64): Machine
    decreases |steps|
  {
    if steps == [] then m else Next(Run(m, maxSize, steps[..|steps| - 1], bit), maxSize, steps[|steps| - 1], bit)
  }

  /** The list runs from the most to the least recently touched key. */
  predicate ByRecency(l: seq<Key>, touched: map<Key, nat>) {
    && (forall k :: k in l ==> k in touched)
    && forall i, j :: 0 <= i < j < |l| ==> touched[l[i]] > touched[l[j]]
  }

  ghost predicate MachineInv(m: Machine, maxSize: nat, bit: Word -> bv64) {
    && Inv(m.s, maxSize, bit)
    && ByRecency(m.s.lru, m.touched)
    && forall k :: k in m.touched ==> m.touched[k] < m.clock
  }

  lemma {:induction false} WithoutByRecency(l: seq<Key>, gone: set<Key>, touched: map<Key, nat>)
    requires ByRecency(l, touched)
    ensures ByRecency(Without(l, gone), touched)
  {
    if l != [] {
      WithoutByRecency(l[1..], gone, touched);
      var rest := Without(l[1..], gone);
      WithoutElements(l[1..], gone);
      forall j | 0 <= j < |rest| ensures rest[j] in touched && touched[l[0]] > touched[rest[j]] {
        assert rest[j] in l[1..];
      }
    }
  }

  lemma {:induction false} FrontByRecency(l: seq<Key>, k: Key, touched: map<Key, nat>, clock: nat)
    requires ByRecency(l, touched) && forall x :: x in touched ==> touched[x] < clock
    ensures ByRecency(MoveToFront(l, k), touched[k := clock])
  {
    var rest := Without(l, {k});
    WithoutByRecency(l, {k}, touched);
    WithoutElements(l, {k});
    forall i, j | 0 <= i < j < |rest| + 1
      ensures touched[k := clock][([k] + rest)[i]] > touched[k := clock][([k] + rest)[j]]
    {
      assert rest[j - 1] in rest;
      if i > 0 { assert rest[i - 1] in rest; }
    }
  }

  lemma {:induction false} MakeRoomByRecency(s: State, maxSize: nat, now: int, touched: map<Key, nat>,
                                             bit: Word -> bv64)
    requires Inv(s, maxSize, bit) && maxSize > 0 && ByRecency(s.lru, touched)
    ensures ByRecency(MakeRoom(s, maxSize, now).lru, touched)
  {
    MakeRoomDrops(s, maxSize, now, bit);
    if |s.entries| == maxSize {
      if ExpiredKeys(s, now) != {} {
        WithoutByRecency(s.lru, ExpiredKeys(s, now), touched);
      } else {
        WithoutByRecency(s.lru, {s.lru[|s.lru| - 1]}, touched);
      }
    }
  }

  lemma {:induction false} StateInvStep(m: Machine, maxSize: nat, step: Step, bit: Word -> bv64)
    requires Inv(m.s, maxSize, bit) && maxSize > 0
    ensures Inv(NextState(m, maxSize, step, bit), maxSize, bit)
  {
    match step
    case FinishRead(t, now) =>
      if t in m.pending { FinishGetKeepsInv(m.s, m.pending[t].key, m.pending[t].entry, now, maxSize, bit); }
    case SetEntry(now, key, body, expiresAt, model, hash, words) =>
      SetKeepsInv(m.s, maxSize, now, key, NewEntry(body, expiresAt, model, hash, words, bit), bit);
    case _ =>
  }

  lemma {:induction false} RecencyStep(m: Machine, maxSize: nat, step: Step, bit: Word -> bv64)
    requires MachineInv(m, maxSize, bit) && maxSize > 0
    ensures ByRecency(Next(m, maxSize, step, bit).s.lru, Next(m, maxSize, step, bit).touched)
  {
    match step
    case FinishRead(t, now) =>
      if t in m.pending {
        var k := m.pending[t].key;
        WithoutByRecency(m.s.lru, {k}, m.touched);
        FrontByRecency(m.s.lru, k, m.touched, m.clock);
      }
    case SetEntry(now, key, body, expiresAt, model, hash, words) =>
      MakeRoomByRecency(m.s, maxSize, now, m.touched, bit);
      FrontByRecency(MakeRoom(m.s, maxSize, now).lru, key, m.touched, m.clock);
    case _ =>
  }

  lemma {:induction false} StepKeepsInv(m: Machine, maxSize: nat, step: Step, bit: Word -> bv64)
    requires MachineInv(m, maxSize, bit) && maxSize > 0
    ensures MachineInv(Next(m, maxSize, step, bit), maxSize, bit)
  {
    StateInvStep(m, maxSize, step, bit);
    RecencyStep(m, maxSize, step, bit);
  }

  /** In every interleaving, from an empty cache: the map, the index and the list name the same
      keys, each once; there are at most maxSize of them; words are sets with their own
      signature; and the list is ordered by last touch. */
  lemma {:induction false} EveryRunKeepsInv(maxSize: nat, steps: seq<Step>, bit: Word -> bv64)
    requires maxSize > 0
    ensures MachineInv(Run(INITIAL, maxSize, steps, bit), maxSize, bit)
    decreases |steps|
  {
    if steps != [] {
      EveryRunKeepsInv(maxSize, steps[..|steps| - 1], bit);
      StepKeepsInv(Run(INITIAL, maxSize, steps[..|steps| - 1], bit), maxSize, steps[|steps| - 1], bit);
    }
  }

  ghost predicate LeastRecent(s: State, touched: map<Key, nat>, victim: Key) {
    && victim in s.entries && victim in touched
    && forall k :: k in s.entries ==> k in touched && (k == victim || touched[victim] < touched[k])
  }

  function Dropped(s: State, maxSize: nat, now: int): set<Key> {
    s.entries.Keys - MakeRoom(s, maxSize, now).entries.Keys
  }

  lemma {:induction false} LastIsLeastRecent(s: State, touched: map<Key, nat>)
    requires Linked(s) && s.entries.Keys == s.index && s.lru != [] && ByRecency(s.lru, touched)
    ensures LeastRecent(s, touched, s.lru[|s.lru| - 1])
  {
    var victim := s.lru[|s.lru| - 1];
    assert victim in Elements(s.lru);
    forall k | k in s.entries ensures k in touched && (k == victim || touched[victim] < touched[k]) {
      assert k in Elements(s.lru);
      var i :| 0 <= i < |s.lru| && s.lru[i] == k;
    }
  }

  lemma {:induction false} SetDrops(m: Machine, maxSize: nat, now: int, bit: Word -> bv64)
    requires MachineInv(m, maxSize, bit) && maxSize > 0
    ensures |m.s.entries| < maxSize ==> Dropped(m.s, maxSize, now) == {}
    ensures |m.s.entries| == maxSize && ExpiredKeys(m.s, now) != {}
            ==> Dropped(m.s, maxSize, now) == ExpiredKeys(m.s, now)
    ensures |m.s.entries| == maxSize && ExpiredKeys(m.s, now) == {}
            ==> exists victim :: Dropped(m.s, maxSize, now) == {victim} && LeastRecent(m.s, m.touched, victim)
  {
    hide MakeRoom;
    hide Drop;
    var s := m.s;
    MakeRoomDrops(s, maxSize, now, bit);
    if |s.entries| == maxSize {
      if ExpiredKeys(s, now) != {} {
        MinusKeys(s, ExpiredKeys(s, now));
      } else {
        var victim := s.lru[|s.lru| - 1];
        LastIsLeastRecent(s, m.touched);
        MinusKeys(s, {victim});
        assert Dropped(s, maxSize, now) == {victim};
      }
    }
  }

  lemma {:induction false} MinusKeys(s: State, gone: set<Key>)
    requires gone <= s.entries.Keys
    ensures s.entries.Keys - Drop(s, gone).entries.Keys == gone
  {
  }

  predicate Submap(a: map<Key, Entry>, b: map<Key, Entry>) { forall k :: k in a ==> k in b && a[k] == b[k] }

  lemma {:induction false} DropOldestSubmap(s: State, maxSize: nat)
    ensures Submap(DropOldest(s, maxSize).entries, s.entries)
    decreases |s.lru|
  {
    if |s.entries| >= maxSize && s.lru != [] {
      var k := s.lru[|s.lru| - 1];
      DropOldestSubmap(State(s.entries - {k}, s.lru[..|s.lru| - 1], s.index - {k}), maxSize);
    }
  }

  lemma {:induction false} SetKeepsTheRest(s: State, maxSize: nat, now: int, key: Key, e: Entry)
    ensures Set(s, maxSize, now, key, e).entries == (s.entries - Dropped(s, maxSize, now))[key := e]
  {
    var room := MakeRoom(s, maxSize, now).entries;
    assert Submap(room, s.entries) by {
      DropOldestSubmap(Drop(s, ExpiredKeys(s, now)), maxSize);
    }
    assert room == s.entries - (s.entries.Keys - room.Keys);
  }

  /** In every reachable state, storing a key drops other entries only when the cache is full;
      then it drops exactly the expired ones, or else the single least recently touched one. */
  lemma {:induction false} FullSetDropsLeastRecent(maxSize: nat, steps: seq<Step>, now: int, key: Key, e: Entry,
                                                   bit: Word -> bv64)
    requires maxSize > 0
    ensures var m := Run(INITIAL, maxSize, steps, bit);
            var dropped := Dropped(m.s, maxSize, now);
            && Set(m.s, maxSize, now, key, e).entries == (m.s.entries - dropped)[key := e]
            && (|m.s.entries| < maxSize ==> dropped == {})
            && (|m.s.entries| == maxSize && ExpiredKeys(m.s, now) != {} ==> dropped == ExpiredKeys(m.s, now))
            && (|m.s.entries| == maxSize && ExpiredKeys(m.s, now) == {}
                ==> exists victim :: dropped == {victim} && LeastRecent(m.s, m.touched, victim))
  {
    EveryRunKeepsInv(maxSize, steps, bit);
    var m := Run(INITIAL, maxSize, steps, bit);
    SetDrops(m, maxSize, now, bit);
    SetKeepsTheRest(m.s, maxSize, now, key, e);
  }

  /* ---- a get across other steps ---- */

  predicate Sets(step: Step, k: Key) { step.SetEntry? && step.key == k }

  /** A step of another thread, or none. */
  predicate Elsewhere(step: Step, t: nat) { (step.ReadEntry? || step.FinishRead?) ==> step.thread != t }

  /** When the entry stored under a key expires after these steps, unless it was removed. */
  function Expiry(steps: seq<Step>, k: Key, before: int): int {
    if steps == [] then before
    else
      var last := steps[|steps| - 1];
      if Sets(last, k) then last.expiresAt else Expiry(steps[..|steps| - 1], k, before)
  }

  predicate SomeSets(steps: seq<Step>, k: Key) { exists i :: 0 <= i < |steps| && Sets(steps[i], k) }

  lemma {:induction false} DropsOnly(m: Machine, maxSize: nat, step: Step, k: Key, bit: Word -> bv64)
    requires !Sets(step, k) && k in NextState(m, maxSize, step, bit).entries
    ensures k in m.s.entries && NextState(m, maxSize, step, bit).entries[k] == m.s.entries[k]
  {
    hide NewEntry;
    hide Set;
    if step.SetEntry? {
      var e := NewEntry(step.body, step.expiresAt, step.model, step.hash, step.words, bit);
      SetKeepsTheRest(m.s, maxSize, step.now, step.key, e);
    }
  }

  lemma {:induction false} SetsEntry(m: Machine, maxSize: nat, step: Step, bit: Word -> bv64)
    requires step.SetEntry?
    ensures var s := NextState(m, maxSize, step, bit);
            step.key in s.entries && s.entries[step.key].expiresAt == step.expiresAt
  {
  }

  /** Between the halves of a get, what the thread has read stays, and what is stored under the key is
      what the last Set stored, or what was read. */
  lemma {:induction false} BetweenHalves(m: Machine, maxSize: nat, steps: seq<Step>, t: nat, k: Key, e: Entry,
                                         bit: Word -> bv64)
    requires t in m.pending && m.pending[t] == Read(k, e)
    requires (k in m.s.entries ==> m.s.entries[k].expiresAt == e.expiresAt)
    requires forall i :: 0 <= i < |steps| ==> Elsewhere(steps[i], t)
    ensures var n := Run(m, maxSize, steps, bit);
            && t in n.pending && n.pending[t] == Read(k, e)
            && (k in n.s.entries ==> n.s.entries[k].expiresAt == Expiry(steps, k, e.expiresAt))
    decreases |steps|
  {
    hide NextState;
    hide Touches;
    if steps != [] {
      var front, last := steps[..|steps| - 1], steps[|steps| - 1];
      BetweenHalves(m, maxSize, front, t, k, e, bit);
      var n := Run(m, maxSize, front, bit);
      if Sets(last, k) {
        SetsEntry(n, maxSize, last, bit);
      } else if k in NextState(n, maxSize, last, bit).entries {
        DropsOnly(n, maxSize, last, k, bit);
      }
    }
  }

  lemma {:induction false} NoSetsKeepsExpiry(steps: seq<Step>, k: Key, before: int)
    requires !SomeSets(steps, k)
    ensures Expiry(steps, k, before) == before
    decreases |steps|
  {
    if steps != [] {
      assert !Sets(steps[|steps| - 1], k);
      NoSetsKeepsExpiry(steps[..|steps| - 1], k, before);
    }
  }

  /** Finishing a get removes an entry that is still live. */
  ghost predicate RemovesLive(m: Machine, maxSize: nat, t: nat, k: Key, now: int, bit: Word -> bv64) {
    && k in m.s.entries && !Expired(m.s.entries[k], now)
    && k !in Next(m, maxSize, FinishRead(t, now), bit).s.entries
  }

  lemma {:induction false} FinishRemovesLiveIff(m: Machine, maxSize: nat, t: nat, now: int, bit: Word -> bv64)
    requires t in m.pending
    ensures var k := m.pending[t].key;
            RemovesLive(m, maxSize, t, k, now, bit)
            <==> k in m.s.entries && Expired(m.pending[t].entry, now) && !Expired(m.s.entries[k], now)
  {
  }

  /** A get whose halves are apart, with any steps of other threads in between, removes a live entry
      exactly when those steps stored the key again, the entry read has expired by the end and the one
      stored last has not, and nobody has removed that one. */
  lemma {:induction false} GetRemovesLiveIff(m: Machine, maxSize: nat, steps: seq<Step>, t: nat, k: Key, now: int,
                                             bit: Word -> bv64)
    requires k in m.s.entries && forall i :: 0 <= i < |steps| ==> Elsewhere(steps[i], t)
    ensures var e := m.s.entries[k];
            var n := Run(Next(m, maxSize, ReadEntry(t, k), bit), maxSize, steps, bit);
            RemovesLive(n, maxSize, t, k, now, bit)
            <==> && SomeSets(steps, k) && k in n.s.entries
                 && now > e.expiresAt && now <= Expiry(steps, k, e.expiresAt)
  {
    hide Run;
    hide RemovesLive;
    var e, read := m.s.entries[k], Next(m, maxSize, ReadEntry(t, k), bit);
    BetweenHalves(read, maxSize, steps, t, k, e, bit);
    FinishRemovesLiveIff(Run(read, maxSize, steps, bit), maxSize, t, now, bit);
    if !SomeSets(steps, k) { NoSetsKeepsExpiry(steps, k, e.expiresAt); }
  }

  lemma {:induction false} RunOneMore(m: Machine, maxSize: nat, steps: seq<Step>, step: Step, bit: Word -> bv64)
    ensures Run(m, maxSize, steps + [step], bit) == Next(Run(m, maxSize, steps, bit), maxSize, step, bit)
  {
    assert (steps + [step])[..|steps|] == steps;
  }

  lemma {:induction false} SetWithRoom(s: State, maxSize: nat, now: int, k: Key, e: Entry)
    requires |s.entries| < maxSize
    ensures Set(s, maxSize, now, k, e).entries == s.entries[k := e]
  {
  }

  /** From any state with room, three steps: a reader takes an entry that is about to expire, the
      key is stored again with a later expiry, the reader finishes and removes the live entry. */
  lemma {:induction false} GetCanDropFreshEntry(m: Machine, maxSize: nat, t: nat, k: Key, now: int, fresher: Step,
                                                bit: Word -> bv64)
    requires |m.s.entries| < maxSize && k in m.s.entries && Expired(m.s.entries[k], now)
    requires fresher.SetEntry? && fresher.key == k && now <= fresher.expiresAt
    ensures var stored := Run(m, maxSize, [ReadEntry(t, k)] + [fresher], bit);
            var finished := Run(m, maxSize, [ReadEntry(t, k)] + [fresher] + [FinishRead(t, now)], bit);
            k in stored.s.entries && !Expired(stored.s.entries[k], now) && k !in finished.s.entries
  {
    hide Run;
    hide NewEntry;
    hide Set;
    assert [] + [ReadEntry(t, k)] == [ReadEntry(t, k)];
    RunOneMore(m, maxSize, [], ReadEntry(t, k), bit);
    RunNothing(m, maxSize, bit);
    var read := Run(m, maxSize, [ReadEntry(t, k)], bit);
    RunOneMore(m, maxSize, [ReadEntry(t, k)], fresher, bit);
    var e := NewEntry(fresher.body, fresher.expiresAt, fresher.model, fresher.hash, fresher.words, bit);
    SetWithRoom(read.s, maxSize, fresher.now, k, e);
    NewEntryExpires(fresher.body, fresher.expiresAt, fresher.model, fresher.hash, fresher.words, bit);
    RunOneMore(m, maxSize, [ReadEntry(t, k)] + [fresher], FinishRead(t, now), bit);
  }

  lemma {:induction false} RunNothing(m: Machine, maxSize: nat, bit: Word -> bv64)
    ensures Run(m, maxSize, [], bit) == m
  {
  }

  lemma {:induction false} NewEntryExpires(body: seq<int>, expiresAt: int, model: seq<int>, hash: seq<int>,
                                           words: seq<Word>,
                        bit: Word -> bv64)
    ensures NewEntry(body, expiresAt, model, hash, words, bit).expiresAt == expiresAt
  {
  }
}
