/** The data of the response cache and what each of its critical sections does to it, as
    functions of the state: entries, the LRU list (most recent first) and its index. */
module CacheState {
  import opened WordOverlap

  type Key = seq<int>

  datatype Entry = Entry(
    body: seq<int>, expiresAt: int, model: seq<int>, requestHash: seq<int>, words: seq<Word>, bits: bv64)

  datatype State = State(entries: map<Key, Entry>, lru: seq<Key>, index: set<Key>)

  const EMPTY := State(map[], [], {})

  predicate Expired(e: Entry, now: int) { now > e.expiresAt }

  /** An entry whose words form a set and whose signature is that set's. */
  ghost predicate SignedWords(e: Entry, bit: Word -> bv64) {
    Distinct(e.words) && e.bits == Signature(e.words, bit)
  }

  ghost function NewEntry(body: seq<int>, expiresAt: int, model: seq<int>, requestHash: seq<int>, rawWords: seq<Word>,
                          bit: Word -> bv64): (e: Entry)
    ensures SignedWords(e, bit) && ToSet(e.words) == ToSet(rawWords)
  {
    FirstAppearancesKeepsSet(rawWords);
    var words := FirstAppearances(rawWords);
    Entry(body, expiresAt, model, requestHash, words, Signature(words, bit))
  }

  /* ---- lists of keys ---- */

  function Elements(l: seq<Key>): set<Key> { set k | k in l }

  predicate NoRepeats(l: seq<Key>) { forall i, j :: 0 <= i < j < |l| ==> l[i] != l[j] }

  function Without(l: seq<Key>, gone: set<Key>): seq<Key> {
    if l == [] then [] else (if l[0] in gone then [] else [l[0]]) + Without(l[1..], gone)
  }

  lemma {:induction false} WithoutElements(l: seq<Key>, gone: set<Key>)
    ensures Elements(Without(l, gone)) == Elements(l) - gone
    ensures forall k :: k in Without(l, gone) <==> k in l && k !in gone
  {
    if l != [] {
      WithoutElements(l[1..], gone);
      assert l == [l[0]] + l[1..];
    }
  }

  lemma {:induction false} WithoutNoRepeats(l: seq<Key>, gone: set<Key>)
    requires NoRepeats(l)
    ensures NoRepeats(Without(l, gone))
  {
    if l != [] {
      WithoutNoRepeats(l[1..], gone);
      WithoutElements(l[1..], gone);
    }
  }

  lemma {:induction false} WithoutTwice(l: seq<Key>, a: set<Key>, b: set<Key>)
    ensures Without(Without(l, a), b) == Without(l, a + b)
  {
    if l != [] {
      WithoutTwice(l[1..], a, b);
      if l[0] in a {
        assert Without(l, a) == Without(l[1..], a);
      } else {
        var w := Without(l, a);
        assert w == [l[0]] + Without(l[1..], a);
        assert w[0] == l[0] && w[1..] == Without(l[1..], a);
      }
    }
  }

  lemma {:induction false} WithoutNothing(l: seq<Key>, gone: set<Key>)
    requires Elements(l) !! gone
    ensures Without(l, gone) == l
  {
    if l != [] {
      assert l[0] in Elements(l);
      assert Elements(l[1..]) <= Elements(l);
      WithoutNothing(l[1..], gone);
    }
  }

  lemma {:induction false} NoRepeatsSize(l: seq<Key>)
    requires NoRepeats(l)
    ensures |Elements(l)| == |l|
  {
    if l != [] {
      NoRepeatsSize(l[1..]);
      assert Elements(l) == Elements(l[1..]) + {l[0]};
    }
  }

  lemma {:induction false} WithoutLast(l: seq<Key>)
    requires l != [] && NoRepeats(l)
    ensures Without(l, {l[|l| - 1]}) == l[..|l| - 1]
  {
    var last := l[|l| - 1];
    if |l| > 1 {
      WithoutLast(l[1..]);
      assert l[1..][|l| - 2] == last && l[..|l| - 1] == [l[0]] + l[1..][..|l| - 2];
    }
  }

  /* ---- the critical sections ---- */

  /** The index names exactly the listed keys, each listed once. Holds after every operation. */
  predicate Linked(s: State) { NoRepeats(s.lru) && s.index == Elements(s.lru) }

  function Drop(s: State, gone: set<Key>): State {
    State(s.entries - gone, Without(s.lru, gone), s.index - gone)
  }

  function MoveToFront(l: seq<Key>, k: Key): seq<Key> { [k] + Without(l, {k}) }

  function Touch(s: State, k: Key): State {
    if k in s.index then s.(lru := MoveToFront(s.lru, k)) else s
  }

  function ExpiredKeys(s: State, now: int): set<Key> { set k | k in s.entries && Expired(s.entries[k], now) }

  /** The loop that drops from the back of the list until there is room. */
  function DropOldest(s: State, maxSize: nat): State
    decreases |s.lru|
  {
    if |s.entries| >= maxSize && s.lru != [] then
      var k := s.lru[|s.lru| - 1];
      DropOldest(State(s.entries - {k}, s.lru[..|s.lru| - 1], s.index - {k}), maxSize)
    else s
  }

  function MakeRoom(s: State, maxSize: nat, now: int): State {
    if |s.entries| >= maxSize then DropOldest(Drop(s, ExpiredKeys(s, now)), maxSize) else s
  }

  function Store(s: State, k: Key, e: Entry): State {
    State(s.entries[k := e], MoveToFront(s.lru, k), s.index + {k})
  }

  function Set(s: State, maxSize: nat, now: int, k: Key, e: Entry): State {
    Store(MakeRoom(s, maxSize, now), k, e)
  }

  /** What the second critical section of get does with the entry the first one read. */
  function FinishGet(s: State, k: Key, read: Entry, now: int): State {
    if Expired(read, now) then Drop(s, {k}) else Touch(s, k)
  }

  /** A whole get with nothing in between: an absent key changes nothing. */
  function AfterGet(s: State, k: Key, now: int): State {
    if k == [] || k !in s.entries then s else FinishGet(s, k, s.entries[k], now)
  }

  /* ---- the invariant ---- */

  ghost predicate Inv(s: State, maxSize: nat, bit: Word -> bv64) {
    && Linked(s)
    && s.entries.Keys == s.index
    && |s.entries| <= maxSize
    && forall k :: k in s.entries ==> SignedWords(s.entries[k], bit)
  }

  lemma {:induction false} MapSize(m: map<Key, Entry>)
    ensures |m| == |m.Keys|
  {
  }

  lemma {:induction false} KeepSize(a: set<Key>, b: set<Key>)
    requires a <= b
    ensures |a| <= |b|
    ensures a != b ==> |a| < |b|
  {
    assert b == a + (b - a);
  }

  lemma {:induction false} DropLinked(s: State, gone: set<Key>)
    requires Linked(s)
    ensures Linked(Drop(s, gone))
  {
    WithoutElements(s.lru, gone);
    WithoutNoRepeats(s.lru, gone);
  }

  lemma {:induction false} DropKeepsInv(s: State, gone: set<Key>, maxSize: nat, bit: Word -> bv64)
    requires Inv(s, maxSize, bit)
    ensures Inv(Drop(s, gone), maxSize, bit)
    ensures gone * s.entries.Keys != {} ==> |Drop(s, gone).entries| < |s.entries|
  {
    DropLinked(s, gone);
    var t := Drop(s, gone);
    KeepSize(t.entries.Keys, s.entries.Keys);
  }

  lemma {:induction false} FrontLinked(l: seq<Key>, k: Key)
    requires NoRepeats(l)
    ensures NoRepeats(MoveToFront(l, k)) && Elements(MoveToFront(l, k)) == Elements(l) + {k}
  {
    WithoutElements(l, {k});
    WithoutNoRepeats(l, {k});
  }

  lemma {:induction false} TouchKeepsInv(s: State, k: Key, maxSize: nat, bit: Word -> bv64)
    requires Inv(s, maxSize, bit)
    ensures Inv(Touch(s, k), maxSize, bit)
  {
    FrontLinked(s.lru, k);
  }

  lemma {:induction false} ExpiredRoom(s: State, maxSize: nat, now: int, bit: Word -> bv64)
    requires Inv(s, maxSize, bit) && |s.entries| == maxSize && ExpiredKeys(s, now) != {}
    ensures MakeRoom(s, maxSize, now) == Drop(s, ExpiredKeys(s, now))
    ensures Inv(MakeRoom(s, maxSize, now), maxSize, bit) && |MakeRoom(s, maxSize, now).entries| < maxSize
  {
    var gone := ExpiredKeys(s, now);
    DropKeepsInv(s, gone, maxSize, bit);
    assert gone * s.entries.Keys == gone;
  }

  lemma {:induction false} NothingExpired(s: State, now: int)
    requires ExpiredKeys(s, now) == {}
    ensures Drop(s, ExpiredKeys(s, now)) == s
  {
    WithoutNothing(s.lru, {});
    assert s.entries - {} == s.entries && s.index - {} == s.index;
  }

  lemma {:induction false} FullIsListed(s: State, maxSize: nat, bit: Word -> bv64)
    requires Inv(s, maxSize, bit) && maxSize > 0 && |s.entries| == maxSize
    ensures s.lru != [] && s.lru[|s.lru| - 1] in s.entries
  {
    NoRepeatsSize(s.lru);
    MapSize(s.entries);
    assert s.lru[|s.lru| - 1] in Elements(s.lru);
  }

  lemma {:induction false} DropOldestOnce(s: State, maxSize: nat)
    requires s.lru != [] && NoRepeats(s.lru) && |s.entries| >= maxSize
    requires |s.entries - {s.lru[|s.lru| - 1]}| < maxSize
    ensures DropOldest(s, maxSize) == Drop(s, {s.lru[|s.lru| - 1]})
  {
    WithoutLast(s.lru);
  }

  lemma {:induction false} OldestRoom(s: State, maxSize: nat, bit: Word -> bv64)
    requires Inv(s, maxSize, bit) && maxSize > 0 && |s.entries| == maxSize
    ensures s.lru != [] && DropOldest(s, maxSize) == Drop(s, {s.lru[|s.lru| - 1]})
    ensures Inv(DropOldest(s, maxSize), maxSize, bit) && |DropOldest(s, maxSize).entries| < maxSize
  {
    FullIsListed(s, maxSize, bit);
    var last := s.lru[|s.lru| - 1];
    var t := Drop(s, {last});
    assert |t.entries| < maxSize && Inv(t, maxSize, bit) by {
      DropKeepsInv(s, {last}, maxSize, bit);
      assert last in {last} * s.entries.Keys;
    }
    DropOldestOnce(s, maxSize);
  }

  /** A full cache loses only expired entries, or, when none has expired, exactly the entry at
      the back of the list; a cache with room loses nothing. Survivors are untouched. */
  lemma {:induction false} MakeRoomDrops(s: State, maxSize: nat, now: int, bit: Word -> bv64)
    requires Inv(s, maxSize, bit) && maxSize > 0
    ensures Inv(MakeRoom(s, maxSize, now), maxSize, bit) && |MakeRoom(s, maxSize, now).entries| < maxSize
    ensures |s.entries| < maxSize ==> MakeRoom(s, maxSize, now) == s
    ensures |s.entries| == maxSize && ExpiredKeys(s, now) != {}
            ==> MakeRoom(s, maxSize, now) == Drop(s, ExpiredKeys(s, now))
    ensures |s.entries| == maxSize && ExpiredKeys(s, now) == {}
            ==> s.lru != [] && MakeRoom(s, maxSize, now) == Drop(s, {s.lru[|s.lru| - 1]})
  {
    if |s.entries| == maxSize {
      if ExpiredKeys(s, now) != {} {
        ExpiredRoom(s, maxSize, now, bit);
      } else {
        NothingExpired(s, now);
        OldestRoom(s, maxSize, bit);
      }
    }
  }

  lemma {:induction false} AddedSize(m: map<Key, Entry>, k: Key, e: Entry)
    ensures m[k := e].Keys == m.Keys + {k} && |m[k := e]| <= |m| + 1
  {
    MapSize(m);
    MapSize(m[k := e]);
    assert m[k := e].Keys == m.Keys + {k};
    if k in m { assert m.Keys + {k} == m.Keys; }
  }

  lemma {:induction false} StoreKeepsInv(s: State, k: Key, e: Entry, maxSize: nat, bit: Word -> bv64)
    requires Inv(s, maxSize, bit) && |s.entries| < maxSize && SignedWords(e, bit)
    ensures Inv(Store(s, k, e), maxSize, bit)
  {
    FrontLinked(s.lru, k);
    AddedSize(s.entries, k, e);
  }

  lemma {:induction false} SetKeepsInv(s: State, maxSize: nat, now: int, k: Key, e: Entry, bit: Word -> bv64)
    requires Inv(s, maxSize, bit) && maxSize > 0 && SignedWords(e, bit)
    ensures Inv(Set(s, maxSize, now, k, e), maxSize, bit)
  {
    MakeRoomDrops(s, maxSize, now, bit);
    StoreKeepsInv(MakeRoom(s, maxSize, now), k, e, maxSize, bit);
  }

  lemma {:induction false} FinishGetKeepsInv(s: State, k: Key, read: Entry, now: int, maxSize: nat, bit: Word -> bv64)
    requires Inv(s, maxSize, bit)
    ensures Inv(FinishGet(s, k, read, now), maxSize, bit)
  {
    DropKeepsInv(s, {k}, maxSize, bit);
    TouchKeepsInv(s, k, maxSize, bit);
  }
}
