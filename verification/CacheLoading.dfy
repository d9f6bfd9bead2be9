/** Restoring a saved cache. The file's keys are visited in some order; list and index start empty,
    the map does not. */
module CacheLoading {
  import opened WordOverlap
  import opened CacheState

  ghost function Normalised(e: Entry, bit: Word -> bv64): Entry {
    e.(words := FirstAppearances(e.words), bits := Signature(FirstAppearances(e.words), bit))
  }

  lemma {:induction false} NormalisedIsSigned(file: map<Key, Entry>, bit: Word -> bv64)
    ensures forall k :: k in file ==> SignedWords(Normalised(file[k], bit), bit)
  {
    forall k | k in file ensures SignedWords(Normalised(file[k], bit), bit) {
      FirstAppearancesKeepsSet(file[k].words);
    }
  }

  /** What loading has done once the keys in `seen` were visited: the listed keys are live entries
      of the file, normalised; entries already in memory were not removed. */
  ghost predicate Restored(before: map<Key, Entry>, file: map<Key, Entry>, seen: set<Key>, entries: map<Key, Entry>,
                           listed: set<Key>, now: int, bit: Word -> bv64) {
    && listed <= seen <= file.Keys
    && entries.Keys == before.Keys + listed
    && (forall k :: k in listed ==> now < file[k].expiresAt && entries[k] == Normalised(file[k], bit))
    && (forall k :: k in entries && k !in listed ==> k in before && entries[k] == before[k])
  }

  /** Nothing live was left out while there was room, and the size bound was not crossed. */
  ghost predicate Filled(before: map<Key, Entry>, file: map<Key, Entry>, seen: set<Key>, entries: map<Key, Entry>,
                         listed: set<Key>, maxSize: nat, now: int) {
    && (|entries| < maxSize ==> forall k :: k in seen && k in file && now < file[k].expiresAt ==> k in listed)
    && (|before| <= maxSize ==> |entries| <= maxSize)
  }

  lemma {:induction false} RestoreStep(before: map<Key, Entry>, file: map<Key, Entry>, seen: set<Key>,
                                       entries: map<Key, Entry>,
                    listed: set<Key>, now: int, bit: Word -> bv64, k: Key)
    requires Restored(before, file, seen, entries, listed, now, bit) && k in file && now < file[k].expiresAt
    ensures Restored(before, file, seen + {k}, entries[k := Normalised(file[k], bit)], listed + {k}, now, bit)
  {
    hide Normalised;
    var after := entries[k := Normalised(file[k], bit)];
    assert after.Keys == entries.Keys + {k} == before.Keys + (listed + {k});
  }

  lemma {:induction false} FillStep(before: map<Key, Entry>, file: map<Key, Entry>, seen: set<Key>,
                                    entries: map<Key, Entry>,
                 listed: set<Key>, maxSize: nat, now: int, e: Entry, k: Key)
    requires Filled(before, file, seen, entries, listed, maxSize, now) && |entries| < maxSize
    ensures Filled(before, file, seen + {k}, entries[k := e], listed + {k}, maxSize, now)
  {
    AddedSize(entries, k, e);
  }

  ghost predicate Loaded(before: map<Key, Entry>, file: map<Key, Entry>, seen: set<Key>, s: State, maxSize: nat,
                         now: int, bit: Word -> bv64) {
    && Restored(before, file, seen, s.entries, s.index, now, bit)
    && Filled(before, file, seen, s.entries, s.index, maxSize, now)
  }

  lemma {:induction false} LoadStep(before: map<Key, Entry>, file: map<Key, Entry>, seen: set<Key>, s: State,
                                    maxSize: nat, now: int,
                 bit: Word -> bv64, k: Key)
    requires Loaded(before, file, seen, s, maxSize, now, bit) && k in file
    ensures Loaded(before, file, seen + {k}, LoadOne(s, file, k, maxSize, now, bit), maxSize, now, bit)
  {
    if now < file[k].expiresAt && |s.entries| < maxSize {
      RestoreStep(before, file, seen, s.entries, s.index, now, bit, k);
      FillStep(before, file, seen, s.entries, s.index, maxSize, now, Normalised(file[k], bit), k);
    } else {
      SkipStep(before, file, seen, s, maxSize, now, bit, k);
    }
  }

  lemma {:induction false} SkipStep(before: map<Key, Entry>, file: map<Key, Entry>, seen: set<Key>, s: State,
                                    maxSize: nat, now: int,
                 bit: Word -> bv64, k: Key)
    requires Loaded(before, file, seen, s, maxSize, now, bit) && k in file
    requires !(now < file[k].expiresAt && |s.entries| < maxSize)
    ensures Loaded(before, file, seen + {k}, s, maxSize, now, bit)
  {
  }

  /** After a load the cache is consistent exactly when every entry that was in memory before is
      listed again. */
  lemma {:induction false} RestoredConsistency(before: map<Key, Entry>, file: map<Key, Entry>, seen: set<Key>,
                                               s: State, maxSize: nat,
                            now: int, bit: Word -> bv64)
    requires Restored(before, file, seen, s.entries, s.index, now, bit) && Linked(s) && |s.entries| <= maxSize
    requires forall k :: k in before ==> SignedWords(before[k], bit)
    ensures Inv(s, maxSize, bit) <==> before.Keys <= s.index
  {
    hide Normalised;
    hide SignedWords;
    hide Linked;
    NormalisedIsSigned(file, bit);
    forall k | k in s.entries ensures SignedWords(s.entries[k], bit) {
      if k in s.index { assert s.entries[k] == Normalised(file[k], bit); }
    }
    assert before.Keys <= s.index <==> s.entries.Keys == s.index;
  }

  /* ---- loading in an order ---- */

  /** An order in which the keys of the file can be visited. */
  ghost predicate Orders(file: map<Key, Entry>, order: seq<Key>) { NoRepeats(order) && Elements(order) == file.Keys }

  ghost function LoadOne(s: State, file: map<Key, Entry>, k: Key, maxSize: nat, now: int, bit: Word -> bv64): State {
    if k in file && now < file[k].expiresAt && |s.entries| < maxSize then Store(s, k, Normalised(file[k], bit)) else s
  }

  ghost function Load(before: map<Key, Entry>, file: map<Key, Entry>, order: seq<Key>, maxSize: nat, now: int,
                      bit: Word -> bv64): State {
    if order == [] then State(before, [], {})
    else
      var s := Load(before, file, order[..|order| - 1], maxSize, now, bit);
      LoadOne(s, file, order[|order| - 1], maxSize, now, bit)
  }

  lemma {:induction false} LoadOneMore(before: map<Key, Entry>, file: map<Key, Entry>, order: seq<Key>, k: Key,
                                       maxSize: nat, now: int,
                    bit: Word -> bv64)
    ensures Load(before, file, order + [k], maxSize, now, bit)
            == LoadOne(Load(before, file, order, maxSize, now, bit), file, k, maxSize, now, bit)
    ensures Elements(order + [k]) == Elements(order) + {k}
    ensures NoRepeats(order) && k !in Elements(order) ==> NoRepeats(order + [k])
  {
    assert (order + [k])[..|order|] == order;
  }

  /** What every order leads to. */
  lemma {:induction false} AnyOrderLoads(before: map<Key, Entry>, file: map<Key, Entry>, order: seq<Key>, maxSize: nat,
                                         now: int, bit: Word -> bv64)
    requires Elements(order) <= file.Keys
    ensures var s := Load(before, file, order, maxSize, now, bit);
            Linked(s) && Loaded(before, file, Elements(order), s, maxSize, now, bit)
    decreases |order|
  {
    hide Loaded;
    if order == [] {
      NothingLoaded(before, file, maxSize, now, bit);
    } else {
      var front, k := order[..|order| - 1], order[|order| - 1];
      assert order == front + [k];
      LoadOneMore(before, file, front, k, maxSize, now, bit);
      AnyOrderLoads(before, file, front, maxSize, now, bit);
      var s := Load(before, file, front, maxSize, now, bit);
      LoadStep(before, file, Elements(front), s, maxSize, now, bit, k);
      FrontLinked(s.lru, k);
    }
  }

  lemma {:induction false} NothingLoaded(before: map<Key, Entry>, file: map<Key, Entry>, maxSize: nat, now: int,
                                         bit: Word -> bv64)
    ensures Loaded(before, file, Elements([]), State(before, [], {}), maxSize, now, bit)
  {
  }

  /** A full map takes in nothing more. */
  lemma {:induction false} FullLoadsNothing(before: map<Key, Entry>, file: map<Key, Entry>, order: seq<Key>,
                                            more: seq<Key>,
                                            maxSize: nat, now: int, bit: Word -> bv64)
    requires |Load(before, file, order, maxSize, now, bit).entries| >= maxSize
    ensures Load(before, file, order + more, maxSize, now, bit) == Load(before, file, order, maxSize, now, bit)
    decreases |more|
  {
    if more == [] {
      assert order + more == order;
    } else {
      var front, k := more[..|more| - 1], more[|more| - 1];
      FullLoadsNothing(before, file, order, front, maxSize, now, bit);
      assert order + more == order + front + [k];
      LoadOneMore(before, file, order + front, k, maxSize, now, bit);
    }
  }

  /* ---- when loading is safe ---- */

  function LiveKeys(file: map<Key, Entry>, now: int): set<Key> { set k | k in file && now < file[k].expiresAt }

  lemma {:induction false} ListedOnce(keys: set<Key>) returns (order: seq<Key>)
    ensures NoRepeats(order) && Elements(order) == keys
    decreases keys
  {
    order := [];
    if keys != {} {
      var k :| k in keys;
      var rest := ListedOnce(keys - {k});
      assert forall x :: x in rest <==> x in Elements(rest);
      order := [k] + rest;
      assert Elements(order) == {k} + Elements(rest);
    }
  }

  /** Consistent whatever the order of the keys. */
  ghost predicate AlwaysConsistent(before: map<Key, Entry>, file: map<Key, Entry>, maxSize: nat, now: int,
                                   bit: Word -> bv64) {
    forall order :: Orders(file, order) ==> Inv(Load(before, file, order, maxSize, now, bit), maxSize, bit)
  }

  lemma {:induction false} SafeToLoad(before: map<Key, Entry>, file: map<Key, Entry>, order: seq<Key>, maxSize: nat,
                                      now: int,
                   bit: Word -> bv64)
    requires |before| <= maxSize && (forall k :: k in before ==> SignedWords(before[k], bit)) && Orders(file, order)
    requires before == map[] || (before.Keys <= LiveKeys(file, now) && |LiveKeys(file, now)| < maxSize)
    ensures Inv(Load(before, file, order, maxSize, now, bit), maxSize, bit)
  {
    hide Load;
    hide Linked;
    hide SignedWords;
    var s := Load(before, file, order, maxSize, now, bit);
    AnyOrderLoads(before, file, order, maxSize, now, bit);
    RestoredConsistency(before, file, file.Keys, s, maxSize, now, bit);
    if before != map[] {
      KeepSize(s.entries.Keys, LiveKeys(file, now));
      MapSize(s.entries);
    }
  }

  /** New keys first: they fill the map, and no key that was in memory is listed again. */
  lemma {:induction false} NewKeysFirst(before: map<Key, Entry>, file: map<Key, Entry>, maxSize: nat, now: int,
                                        bit: Word -> bv64)
    returns (order: seq<Key>)
    requires before.Keys <= LiveKeys(file, now) && maxSize <= |LiveKeys(file, now)|
    ensures Orders(file, order) && Load(before, file, order, maxSize, now, bit).index !! before.Keys
  {
    hide Linked;
    var added := ListedOnce(LiveKeys(file, now) - before.Keys);
    var rest := ListedOnce(file.Keys - Elements(added));
    order := added + rest;
    var s := Load(before, file, added, maxSize, now, bit);
    AnyOrderLoads(before, file, added, maxSize, now, bit);
    if |s.entries| < maxSize {
      assert LiveKeys(file, now) <= s.entries.Keys;
      KeepSize(LiveKeys(file, now), s.entries.Keys);
      MapSize(s.entries);
    }
    FullLoadsNothing(before, file, added, rest, maxSize, now, bit);
    assert Elements(order) == Elements(added) + Elements(rest);
    OneAfterTheOther(added, rest);
  }

  lemma {:induction false} OneAfterTheOther(a: seq<Key>, b: seq<Key>)
    requires NoRepeats(a) && NoRepeats(b) && Elements(a) !! Elements(b)
    ensures NoRepeats(a + b)
  {
    forall i, j | 0 <= i < j < |a + b| ensures (a + b)[i] != (a + b)[j] {
      assert i < |a| ==> a[i] in Elements(a);
      assert j >= |a| ==> b[j - |a|] in Elements(b);
    }
  }

  /** Loading a file into a consistent cache leaves it consistent, whatever the order of the keys,
      exactly when the cache was empty, or every key it held is a live key of the file and the live
      keys leave room. */
  lemma {:induction false} LoadsConsistentlyIff(before: map<Key, Entry>, file: map<Key, Entry>, maxSize: nat,
                                                now: int, bit: Word -> bv64)
    requires |before| <= maxSize && forall k :: k in before ==> SignedWords(before[k], bit)
    ensures AlwaysConsistent(before, file, maxSize, now, bit)
            <==> before == map[] || (before.Keys <= LiveKeys(file, now) && |LiveKeys(file, now)| < maxSize)
  {
    hide Load;
    hide Inv;
    hide SignedWords;
    if before == map[] || (before.Keys <= LiveKeys(file, now) && |LiveKeys(file, now)| < maxSize) {
      forall order | Orders(file, order) ensures Inv(Load(before, file, order, maxSize, now, bit), maxSize, bit) {
        SafeToLoad(before, file, order, maxSize, now, bit);
      }
    } else {
      var order := UnsafeOrder(before, file, maxSize, now, bit);
    }
  }

  lemma {:induction false} UnsafeOrder(before: map<Key, Entry>, file: map<Key, Entry>, maxSize: nat, now: int,
                                       bit: Word -> bv64)
    returns (order: seq<Key>)
    requires before != map[] && !(before.Keys <= LiveKeys(file, now) && |LiveKeys(file, now)| < maxSize)
    ensures Orders(file, order) && !Inv(Load(before, file, order, maxSize, now, bit), maxSize, bit)
  {
    hide Load;
    hide SignedWords;
    if before.Keys <= LiveKeys(file, now) {
      order := NewKeysFirst(before, file, maxSize, now, bit);
    } else {
      order := ListedOnce(file.Keys);
    }
    var s := Load(before, file, order, maxSize, now, bit);
    AnyOrderLoads(before, file, order, maxSize, now, bit);
    var k :| k in before && (before.Keys <= LiveKeys(file, now) || k !in LiveKeys(file, now));
    assert k in s.entries && k !in s.index;
  }

  /** The smallest failure: an empty file loaded over one entry leaves a key that no list names. */
  lemma {:induction false} EmptyFileLosesKey(k: Key, e: Entry, maxSize: nat, now: int, bit: Word -> bv64)
    ensures Orders(map[], [])
    ensures var s := Load(map[k := e], map[], [], maxSize, now, bit);
            k in s.entries && k !in s.index && !Inv(s, maxSize, bit)
  {
    var s := Load(map[k := e], map[], [], maxSize, now, bit);
    assert k in s.entries.Keys;
  }
}
