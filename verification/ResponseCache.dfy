/** TTLResponseCache: the map, the LRU list and its index updated in place, and the
    near-duplicate scan with both of its prunes. Each method is one critical section, except
    Lookup, which is the sequence a request runs when nothing interleaves. */
module ResponseCache {
  import opened Wrappers
  import opened Lexicographic
  import opened WordOverlap
  import opened CacheState
  import opened CacheLoading

  datatype Hit = Hit(key: Key, entry: Entry, score: real)

  datatype Outcome = Miss | Exact(entry: Entry) | Similar(hit: Hit)

  /* ---- what the near-duplicate lookup promises, without its prunes ---- */

  /** What the scan looks at: live entries that were stored for the same, named model. */
  predicate Candidate(e: Entry, now: int, model: seq<int>) {
    !Expired(e, now) && e.model != [] && e.model == model
  }

  /** 1 for the same request body, otherwise the overlap of the two word sets. */
  ghost function Score(e: Entry, queryHash: seq<int>, query: set<Word>): real {
    if e.requestHash == queryHash then 1.0 else Jaccard(query, ToSet(e.words))
  }

  /** The best live entry of the model: the highest score, the smallest key on ties, reaching the threshold. */
  ghost predicate Best(entries: map<Key, Entry>, now: int, model: seq<int>, queryHash: seq<int>, query: set<Word>,
                       threshold: real, hit: Hit) {
    && hit.key in entries && hit.entry == entries[hit.key]
    && hit.entry.model == model && model != [] && now <= hit.entry.expiresAt
    && hit.score == Score(hit.entry, queryHash, query) && hit.score >= threshold
    && forall k :: k in entries && entries[k].model == model && now <= entries[k].expiresAt
                   ==> Score(entries[k], queryHash, query) < hit.score
                       || (Score(entries[k], queryHash, query) == hit.score && LessEq(hit.key, k))
  }

  /** No live entry of the model reaches the threshold. */
  ghost predicate NoneReaches(entries: map<Key, Entry>, now: int, model: seq<int>, queryHash: seq<int>,
                              query: set<Word>, threshold: real) {
    forall k :: k in entries && entries[k].model == model && model != [] && now <= entries[k].expiresAt
                ==> Score(entries[k], queryHash, query) < threshold
  }

  /** The promise leaves no freedom: every scan that meets it answers the same, whatever order
      it visits the map in and whatever it prunes. */
  lemma {:induction false} BestIsUnique(entries: map<Key, Entry>, now: int, model: seq<int>, queryHash: seq<int>,
                                        query: set<Word>,
                     threshold: real, a: Hit, b: Hit)
    requires Best(entries, now, model, queryHash, query, threshold, a)
    requires Best(entries, now, model, queryHash, query, threshold, b)
    ensures a == b
    ensures !NoneReaches(entries, now, model, queryHash, query, threshold)
  {
    Trichotomy(a.key, b.key);
  }

  /** The selection rule of the scan: a higher score wins, and the smaller key among equals. */
  function Better(best: Option<Hit>, hit: Hit): Option<Hit> {
    if best.None? || hit.score > best.value.score || (hit.score == best.value.score && Less(hit.key, best.value.key))
    then Some(hit) else best
  }

  /** What the scan has established about the visited keys. */
  ghost predicate Scanned(entries: map<Key, Entry>, visited: set<Key>, now: int, model: seq<int>, queryHash: seq<int>,
                          query: set<Word>, threshold: real, best: Option<Hit>) {
    && (best.Some? ==>
          && best.value.key in visited && best.value.key in entries && best.value.entry == entries[best.value.key]
          && Candidate(best.value.entry, now, model)
          && best.value.score == Score(best.value.entry, queryHash, query) > 0.0)
    && forall k :: k in visited && k in entries && Candidate(entries[k], now, model) ==>
         || Score(entries[k], queryHash, query) < threshold
         || (best.Some? && Score(entries[k], queryHash, query) < best.value.score)
         || (best.Some? && Score(entries[k], queryHash, query) == best.value.score && LessEq(best.value.key, k))
  }

  lemma {:induction false} ScannedStep(entries: map<Key, Entry>, visited: set<Key>, now: int, model: seq<int>,
                                       queryHash: seq<int>,
                    query: set<Word>, threshold: real, best: Option<Hit>, k: Key)
    requires Scanned(entries, visited, now, model, queryHash, query, threshold, best) && k in entries && threshold > 0.0
    ensures !Candidate(entries[k], now, model) || Score(entries[k], queryHash, query) < threshold
            ==> Scanned(entries, visited + {k}, now, model, queryHash, query, threshold, best)
    ensures Candidate(entries[k], now, model) && Score(entries[k], queryHash, query) > 0.0 ==>
              var score := Score(entries[k], queryHash, query);
              Scanned(entries, visited + {k}, now, model, queryHash, query, threshold,
                      Better(best, Hit(k, entries[k], score)))
  {
    if best.Some? {
      Trichotomy(k, best.value.key);
      forall x | x in visited ensures Less(k, best.value.key) && Less(best.value.key, x) ==> Less(k, x) {
        if Less(k, best.value.key) && Less(best.value.key, x) { Transitive(k, best.value.key, x); }
      }
    }
  }

  lemma {:induction false} DropTwice(s: State, a: set<Key>, b: set<Key>)
    ensures Drop(Drop(s, a), b) == Drop(s, a + b)
  {
    WithoutTwice(s.lru, a, b);
    assert s.entries - a - b == s.entries - (a + b);
    assert s.index - a - b == s.index - (a + b);
  }

  class TTLResponseCache {
    const maxSize: nat
    const wordBit: Word -> bv64
    var entries: map<Key, Entry>
    var lru: seq<Key>
    var lruIdx: set<Key>
    var exactHits: nat
    var similarHits: nat
    var misses: nat

    ghost function View(): State
      reads this
    {
      State(entries, lru, lruIdx)
    }

    /** The list and its index always agree; the map agrees with them as well (`Consistent`)
        unless a file was loaded over a non-empty cache. */
    ghost predicate Valid()
      reads this
    {
      maxSize > 0 && IsWordBit(wordBit) && Linked(View())
    }

    ghost predicate Consistent()
      reads this
    {
      Valid() && Inv(View(), maxSize, wordBit)
    }

    /** Every entry's words are a set with its own signature: all that the scan relies on. */
    ghost predicate Signed()
      reads this
    {
      IsWordBit(wordBit) && forall k :: k in entries ==> SignedWords(entries[k], wordBit)
    }

    constructor (size: int, wordBit: Word -> bv64)
      requires IsWordBit(wordBit)
      ensures Consistent() && View() == EMPTY && this.wordBit == wordBit
      ensures maxSize == (if size <= 0 then 2048 else size)
      ensures exactHits == similarHits == misses == 0
    {
      maxSize := if size <= 0 then 2048 else size;
      this.wordBit := wordBit;
      entries, lru, lruIdx := map[], [], {};
      exactHits, similarHits, misses := 0, 0, 0;
    }

    /** First half of get: the read under the read lock. */
    method ReadEntry(key: Key) returns (read: Option<Entry>)
      ensures read == if key != [] && key in entries then Some(entries[key]) else None
    {
      if key == [] || key !in entries { return None; }
      return Some(entries[key]);
    }

    /** Deleting one key from the map and, where it is listed, from the list and its index. */
    method Remove(key: Key)
      requires Valid()
      modifies `entries, `lru, `lruIdx
      ensures Valid() && View() == Drop(old(View()), {key})
    {
      DropLinked(View(), {key});
      entries := entries - {key};
      if key in lruIdx {
        lru := Without(lru, {key});
        lruIdx := lruIdx - {key};
      } else {
        WithoutNothing(lru, {key});
      }
    }

    /** Second half of get, for an entry the first half read. */
    method FinishRead(key: Key, read: Entry, now: int) returns (served: Option<Entry>)
      requires Valid()
      modifies `entries, `lru, `lruIdx
      ensures Valid() && View() == FinishGet(old(View()), key, read, now)
      ensures served == if Expired(read, now) then None else Some(read)
    {
      if now > read.expiresAt {
        Remove(key);
        return None;
      }
      FrontLinked(lru, key);
      if key in lruIdx { lru := MoveToFront(lru, key); }
      return Some(read);
    }

    /** Both halves of get with nothing in between. */
    method Get(key: Key, now: int) returns (served: Option<Entry>)
      requires Valid() && Signed()
      modifies `entries, `lru, `lruIdx
      ensures Valid() && Signed() && (old(Consistent()) ==> Consistent())
      ensures View() == AfterGet(old(View()), key, now)
      ensures served == if key != [] && key in old(entries) && !Expired(old(entries)[key],
              now) then Some(old(entries)[key]) else None
    {
      hide Distinct;
      hide Signature;
      var read := ReadEntry(key);
      if read.None? { return None; }
      if Inv(View(), maxSize, wordBit) { FinishGetKeepsInv(View(), key, read.value, now, maxSize, wordBit); }
      served := FinishRead(key, read.value, now);
    }

    /** The eviction loop over expired entries, in whatever order the map is visited. */
    method DropExpired(now: int)
      requires Valid()
      modifies `entries, `lru, `lruIdx
      ensures Valid() && View() == Drop(old(View()), ExpiredKeys(old(View()), now))
    {
      ghost var before := View();
      ghost var gone: set<Key> := {};
      var todo := entries.Keys;
      WithoutNothing(lru, {});
      assert Drop(before, {}) == before;
      while todo != {}
        invariant todo <= before.entries.Keys && gone == ExpiredKeys(before, now) - todo
        invariant View() == Drop(before, gone) && Valid()
      {
        var k :| k in todo;
        if k in entries && now > entries[k].expiresAt {
          DropTwice(before, gone, {k});
          Remove(k);
          gone := gone + {k};
        }
        todo := todo - {k};
      }
      assert gone == ExpiredKeys(before, now);
    }

    /** The eviction a full cache runs before storing. */
    method Evict(now: int)
      requires Valid()
      modifies `entries, `lru, `lruIdx
      ensures Valid() && View() == MakeRoom(old(View()), maxSize, now)
    {
      if |entries| >= maxSize {
        DropExpired(now);
        ghost var live := View();
        while |entries| >= maxSize && lru != []
          invariant Valid() && DropOldest(View(), maxSize) == DropOldest(live, maxSize)
          decreases |lru|
        {
          DropBack();
        }
      }
    }

    method DropBack()
      requires Valid() && lru != []
      modifies `entries, `lru, `lruIdx
      ensures Valid() && View() == Drop(old(View()), {old(lru)[|old(lru)| - 1]}) && lru == old(lru)[..|old(lru)| - 1]
    {
      WithoutLast(lru);
      DropLinked(View(), {lru[|lru| - 1]});
      var k := lru[|lru| - 1];
      entries := entries - {k};
      lru := lru[..|lru| - 1];
      lruIdx := lruIdx - {k};
    }

    /** Storing an entry and putting its key in front. */
    method PutFront(key: Key, entry: Entry)
      requires Valid()
      modifies `entries, `lru, `lruIdx
      ensures Valid() && View() == Store(old(View()), key, entry)
    {
      FrontLinked(lru, key);
      entries := entries[key := entry];
      if key in lruIdx {
        lru := MoveToFront(lru, key);
        assert lruIdx + {key} == lruIdx;
      } else {
        WithoutNothing(lru, {key});
        lru := [key] + lru;
        lruIdx := lruIdx + {key};
      }
    }

    method SetWithRequest(key: Key, body: seq<int>, ttl: int, requestHash: seq<int>, rawWords: seq<Word>,
                          model: seq<int>, now: int)
      requires Valid()
      modifies `entries, `lru, `lruIdx
      ensures Valid()
      ensures key == [] || ttl <= 0 ==> View() == old(View())
      ensures key != [] && ttl > 0 ==>
                View() == Set(old(View()), maxSize, now, key,
                              NewEntry(body, now + ttl, model, requestHash, rawWords, wordBit))
    {
      if key == [] || ttl <= 0 { return; }
      Evict(now);
      var words := DistinctWords(rawWords);
      var bits := WordSignature(words, wordBit);
      PutFront(key, Entry(body, now + ttl, model, requestHash, words, bits));
    }

    method Clear()
      requires Valid()
      modifies `entries, `lru, `lruIdx
      ensures Consistent() && View() == EMPTY
    {
      entries, lru, lruIdx := map[], [], {};
    }

    /** Restoring a saved cache in some order of its keys: list and index are rebuilt from the file
        alone, while entries already in memory stay. LoadsConsistentlyIff says when that is safe. */
    method LoadFromFile(file: map<Key, Entry>, now: int) returns (ghost order: seq<Key>)
      requires Valid()
      modifies `entries, `lru, `lruIdx
      ensures Valid() && Orders(file, order) && View() == Load(old(entries), file, order, maxSize, now, wordBit)
    {
      ghost var before := entries;
      lru, lruIdx := [], {};
      order := [];
      var todo := file.Keys;
      assert View() == Load(before, file, order, maxSize, now, wordBit) && Valid();
      hide Load;
      hide Store;
      hide Normalised;
      hide Linked;
      hide IsWordBit;
      while todo != {}
        invariant todo <= file.Keys && NoRepeats(order) && Elements(order) == file.Keys - todo
        invariant Valid() && View() == Load(before, file, order, maxSize, now, wordBit)
      {
        var k :| k in todo;
        todo := todo - {k};
        LoadOneMore(before, file, order, k, maxSize, now, wordBit);
        if now < file[k].expiresAt && |entries| < maxSize {
          RestoreEntry(k, file[k]);
        }
        order := order + [k];
      }
    }

    method RestoreEntry(key: Key, saved: Entry)
      requires Valid()
      modifies `entries, `lru, `lruIdx
      ensures Valid() && View() == Store(old(View()), key, Normalised(saved, wordBit))
    {
      var words := DistinctWords(saved.words);
      var bits := WordSignature(words, wordBit);
      PutFront(key, saved.(words := words, bits := bits));
    }

    /** The scan of the map for a near-duplicate request, in any visiting order. */
    method FindSimilar(model: seq<int>, queryHash: seq<int>, queryWords: seq<Word>, threshold: real, now: int)
      returns (hit: Option<Hit>)
      requires Signed()
      ensures threshold <= 0.0 ==> hit.None?
      ensures threshold > 0.0 && hit.Some? ==>
                Best(entries, now, model, queryHash, ToSet(queryWords), threshold, hit.value)
      ensures hit.Some? ==> hit.value.entry.model == model && model != [] && now <= hit.value.entry.expiresAt
      ensures threshold > 0.0 && hit.None? ==>
                NoneReaches(entries, now, model, queryHash, ToSet(queryWords), threshold)
      ensures threshold > 0.0 && hit.None? ==>
                forall k :: k in entries && entries[k].model == model && model != [] && now <= entries[k].expiresAt
                            ==> Score(entries[k], queryHash, ToSet(queryWords)) < threshold
    {
      if threshold <= 0.0 { return None; }
      var distinct := DistinctWords(queryWords);
      var queryBits := seq(|distinct|, i requires 0 <= i < |distinct| => wordBit(distinct[i]));
      var best := Scan(model, queryHash, distinct, queryBits, threshold, now);
      if best.Some? && best.value.score >= threshold { return best; }
      return None;
    }

    method Scan(model: seq<int>, queryHash: seq<int>, distinct: seq<Word>, queryBits: seq<bv64>, threshold: real,
                now: int)
      returns (best: Option<Hit>)
      requires Signed() && threshold > 0.0 && Distinct(distinct)
      requires |queryBits| == |distinct| && forall i :: 0 <= i < |distinct| ==> queryBits[i] == wordBit(distinct[i])
      ensures Scanned(entries, entries.Keys, now, model, queryHash, ToSet(distinct), threshold, best)
    {
      best := None;
      ghost var visited: set<Key> := {};
      var todo := entries.Keys;
      while todo != {}
        invariant todo <= entries.Keys && visited == entries.Keys - todo
        invariant Scanned(entries, visited, now, model, queryHash, ToSet(distinct), threshold, best)
      {
        var k :| k in todo;
        todo := todo - {k};
        ScannedStep(entries, visited, now, model, queryHash, ToSet(distinct), threshold, best, k);
        visited := visited + {k};
        if Candidate(entries[k], now, model) {
          var score := ScoreOrPrune(entries[k], queryHash, distinct, queryBits, threshold);
          if score.Some? && score.value != 0.0 {
            best := Better(best, Hit(k, entries[k], score.value));
          }
        }
      }
      assert visited == entries.Keys;
    }

    /** The score of one candidate, or None where a prune drops it: then it is below the threshold. */
    method ScoreOrPrune(v: Entry, queryHash: seq<int>, distinct: seq<Word>, queryBits: seq<bv64>, threshold: real)
      returns (score: Option<real>)
      requires IsWordBit(wordBit) && SignedWords(v, wordBit) && threshold > 0.0 && Distinct(distinct)
      requires |queryBits| == |distinct| && forall i :: 0 <= i < |distinct| ==> queryBits[i] == wordBit(distinct[i])
      ensures score.Some? ==> score.value == Score(v, queryHash, ToSet(distinct)) >= 0.0
      ensures score.None? ==> Score(v, queryHash, ToSet(distinct)) < threshold
    {
      if v.requestHash == queryHash { return Some(1.0); }
      if v.words == [] {
        NoWordsNoOverlap(ToSet(distinct));
        return Some(0.0);
      }
      ghost var query, words := ToSet(distinct), ToSet(v.words);
      DistinctSize(distinct);
      DistinctSize(v.words);
      UnionSize(query, words);
      var querySize, candidateSize := |distinct|, |v.words|;
      var smaller := if querySize < candidateSize then querySize else candidateSize;
      if !OverlapReaches(smaller, querySize, candidateSize, threshold) {
        PruneIsSound(query, words, smaller, threshold);
        return None;
      }
      var maxInter := CountBits(v.bits, queryBits, distinct, v.words, wordBit);
      if !OverlapReaches(maxInter, querySize, candidateSize, threshold) {
        PruneIsSound(query, words, maxInter, threshold);
        return None;
      }
      var overlap := Overlap(ToSet(distinct), v.words);
      OverlapIsNonNegative(query, words);
      return Some(overlap);
    }

    /** One request against the cache: the exact key first, then, if asked for, a near-duplicate.
        Exactly one counter moves. */
    method Lookup(key: Key, model: seq<int>, queryHash: seq<int>, queryWords: Option<seq<Word>>, threshold: real,
                  now: int)
      returns (outcome: Outcome)
      requires Valid() && Signed()
      modifies this
      ensures Valid() && Signed() && (old(Consistent()) ==> Consistent())
      ensures View() == AfterGet(old(View()), key, now)
      ensures var live := key != [] && key in old(entries) && !Expired(old(entries)[key], now);
              && (outcome.Exact? <==> live)
              && (outcome.Exact? ==> outcome.entry == old(entries)[key])
      ensures outcome.Similar? ==>
                && queryWords.Some? && threshold > 0.0
                && Best(entries, now, model, queryHash, ToSet(queryWords.value), threshold, outcome.hit)
      ensures outcome.Similar? ==>
                outcome.hit.entry.model == model && model != [] && now <= outcome.hit.entry.expiresAt
      ensures outcome.Miss? && queryWords.Some? && threshold > 0.0
              ==> NoneReaches(entries, now, model, queryHash, ToSet(queryWords.value), threshold)
      ensures exactHits == old(exactHits) + (if outcome.Exact? then 1 else 0)
      ensures similarHits == old(similarHits) + (if outcome.Similar? then 1 else 0)
      ensures misses == old(misses) + (if outcome.Miss? then 1 else 0)
    {
      hide Best;
      hide NoneReaches;
      hide SignedWords;
      hide Inv;
      hide AfterGet;
      var served := Get(key, now);
      if served.Some? {
        exactHits := exactHits + 1;
        return Exact(served.value);
      }
      if threshold > 0.0 && queryWords.Some? {
        var hit := FindSimilar(model, queryHash, queryWords.value, threshold, now);
        if hit.Some? {
          similarHits := similarHits + 1;
          return Similar(hit.value);
        }
      }
      misses := misses + 1;
      return Miss;
    }
  }
}
