/** Sorting the members of a record by key, as `Object.keys(record).sort()` does:
    by UTF-16 code units, which is also the order of section 3.2.3 of RFC 8785. */
module KeyOrder {
  import opened JsonString
  import opened Lexicographic

  datatype Keyed<+T> = Keyed(key: Text, item: T)

  function KeySet<T>(s: seq<Keyed<T>>): set<Text> { set i | 0 <= i < |s| :: s[i].key }

  function Keys<T>(s: seq<Keyed<T>>): seq<Text> { seq(|s|, i requires 0 <= i < |s| => s[i].key) }

  predicate DistinctKeys<T>(s: seq<Keyed<T>>) {
    forall i, j :: 0 <= i < j < |s| ==> s[i].key != s[j].key
  }

  predicate Ascending<T>(s: seq<Keyed<T>>) {
    forall i, j :: 0 <= i < j < |s| ==> Less(s[i].key, s[j].key)
  }

  function Insert<T>(e: Keyed<T>, s: seq<Keyed<T>>): seq<Keyed<T>> {
    if s != [] && Less(s[0].key, e.key) then [s[0]] + Insert(e, s[1..]) else [e] + s
  }

  function SortByKey<T>(s: seq<Keyed<T>>): seq<Keyed<T>> {
    if s == [] then [] else Insert(s[0], SortByKey(s[1..]))
  }

  lemma {:induction false} InsertElements<T>(e: Keyed<T>, s: seq<Keyed<T>>)
    ensures multiset(Insert(e, s)) == multiset(s) + multiset{e}
  {
    if s != [] {
      assert s == [s[0]] + s[1..];
      if Less(s[0].key, e.key) { InsertElements(e, s[1..]); }
    }
  }

  /** s lists exactly the members of ms. */
  ghost predicate SameMembers<T(!new)>(s: seq<Keyed<T>>, ms: seq<Keyed<T>>) {
    forall m :: m in s <==> m in ms
  }

  lemma {:induction false} SortIsPermutation<T>(s: seq<Keyed<T>>)
    ensures multiset(SortByKey(s)) == multiset(s)
  {
    if s != [] {
      SortIsPermutation(s[1..]);
      InsertElements(s[0], SortByKey(s[1..]));
      assert s == [s[0]] + s[1..];
    }
  }

  lemma {:induction false} PermutationMembers<T(!new)>(a: seq<Keyed<T>>, b: seq<Keyed<T>>)
    requires multiset(a) == multiset(b)
    ensures |a| == |b| && SameMembers(a, b)
  {
    assert |multiset(a)| == |multiset(b)|;
    forall m ensures m in a <==> m in b {
      assert m in a <==> m in multiset(a);
      assert m in b <==> m in multiset(b);
    }
  }

  lemma {:induction false} SortElements<T(!new)>(s: seq<Keyed<T>>)
    ensures |SortByKey(s)| == |s| && SameMembers(SortByKey(s), s)
  {
    SortIsPermutation(s);
    PermutationMembers(SortByKey(s), s);
  }

  lemma {:induction false} InsertKeys<T>(e: Keyed<T>, s: seq<Keyed<T>>)
    ensures multiset(Keys(Insert(e, s))) == multiset{e.key} + multiset(Keys(s))
  {
    if s != [] && Less(s[0].key, e.key) {
      InsertKeys(e, s[1..]);
      assert Keys(Insert(e, s)) == [s[0].key] + Keys(Insert(e, s[1..]));
      assert Keys(s) == [s[0].key] + Keys(s[1..]);
    } else {
      assert Keys(Insert(e, s)) == [e.key] + Keys(s);
    }
  }

  /** Sorting loses no key and invents none. */
  lemma {:induction false} KeysOfSorted<T>(s: seq<Keyed<T>>)
    ensures multiset(Keys(SortByKey(s))) == multiset(Keys(s))
  {
    if s != [] {
      KeysOfSorted(s[1..]);
      InsertKeys(s[0], SortByKey(s[1..]));
      assert Keys(s) == [s[0].key] + Keys(s[1..]);
    }
  }

  /** A smaller head goes in front. */
  lemma {:induction false} AscendingCons<T>(e: Keyed<T>, s: seq<Keyed<T>>)
    requires Ascending(s) && forall j :: 0 <= j < |s| ==> Less(e.key, s[j].key)
    ensures Ascending([e] + s)
  {
    hide Less;
  }

  lemma {:induction false} HeadBelowInserted<T>(e: Keyed<T>, s: seq<Keyed<T>>, j: nat)
    requires s != [] && Ascending(s) && Less(s[0].key, e.key) && j < |Insert(e, s[1..])|
    ensures Less(s[0].key, Insert(e, s[1..])[j].key)
  {
    hide Less;
    var r := Insert(e, s[1..]);
    InsertElements(e, s[1..]);
    assert r[j] in multiset(r);
    if r[j] != e { var i :| 0 <= i < |s[1..]| && s[1..][i] == r[j]; }
  }

  lemma {:induction false} InsertAscending<T>(e: Keyed<T>, s: seq<Keyed<T>>)
    requires Ascending(s) && forall m :: m in s ==> m.key != e.key
    ensures Ascending(Insert(e, s))
  {
    hide Less;
    if s != [] && Less(s[0].key, e.key) {
      InsertAscending(e, s[1..]);
      var r := Insert(e, s[1..]);
      forall j | 0 <= j < |r| ensures Less(s[0].key, r[j].key) { HeadBelowInserted(e, s, j); }
      AscendingCons(s[0], r);
    } else {
      if s != [] {
        Trichotomy(s[0].key, e.key);
        assert s[0] in s;
      }
      forall j | 0 <= j < |s| ensures Less(e.key, s[j].key) {
        if j > 0 { Transitive(e.key, s[0].key, s[j].key); }
      }
      AscendingCons(e, s);
    }
  }

  lemma {:induction false} SortAscending<T(!new)>(s: seq<Keyed<T>>)
    requires DistinctKeys(s)
    ensures Ascending(SortByKey(s))
  {
    if s != [] {
      SortAscending(s[1..]);
      SortElements(s[1..]);
      var tail := SortByKey(s[1..]);
      forall m | m in tail ensures m.key != s[0].key {
        assert m in s[1..];
        var i :| 0 <= i < |s[1..]| && s[1..][i] == m;
        assert s[i + 1] == m;
      }
      InsertAscending(s[0], tail);
    }
  }

  /** Two ascending lists with the same keys list them in the same order. */
  lemma {:induction false} AscendingKeysUnique<T, U>(a: seq<Keyed<T>>, b: seq<Keyed<U>>)
    requires Ascending(a) && Ascending(b) && KeySet(a) == KeySet(b)
    ensures |a| == |b| && forall i :: 0 <= i < |a| ==> a[i].key == b[i].key
  {
    assert a == [] || a[0].key in KeySet(a);
    assert b == [] || b[0].key in KeySet(b);
    if a != [] {
      assert b != [];
      var i :| 0 <= i < |b| && b[i].key == a[0].key;
      var j :| 0 <= j < |a| && a[j].key == b[0].key;
      if i > 0 && j > 0 { Trichotomy(a[0].key, b[0].key); }
      assert a[0].key == b[0].key;
      TailKeys(a);
      TailKeys(b);
      AscendingKeysUnique(a[1..], b[1..]);
    }
  }

  lemma {:induction false} TailKeys<T>(a: seq<Keyed<T>>)
    requires Ascending(a) && a != []
    ensures KeySet(a[1..]) == KeySet(a) - {a[0].key}
  {
    forall k | k in KeySet(a[1..]) ensures k in KeySet(a) - {a[0].key} {
      var i :| 0 <= i < |a[1..]| && a[1..][i].key == k;
      assert a[i + 1].key == k;
      Trichotomy(a[0].key, a[i + 1].key);
    }
    forall k | k in KeySet(a) - {a[0].key} ensures k in KeySet(a[1..]) {
      var i :| 0 <= i < |a| && a[i].key == k;
      assert a[1..][i - 1].key == k;
    }
  }

  lemma {:induction false} SortKeySet<T(!new)>(s: seq<Keyed<T>>)
    ensures KeySet(SortByKey(s)) == KeySet(s)
  {
    var r := SortByKey(s);
    SortElements(s);
    forall k | k in KeySet(r) ensures k in KeySet(s) {
      var i :| 0 <= i < |r| && r[i].key == k;
      assert r[i] in s;
    }
    forall k | k in KeySet(s) ensures k in KeySet(r) {
      var i :| 0 <= i < |s| && s[i].key == k;
      assert s[i] in s;
    }
  }

  /** Member by member agreement under f, whatever the member order. */
  ghost predicate AgreeByKey<T, U>(ms: seq<Keyed<T>>, ns: seq<Keyed<T>>, f: T -> U) {
    && KeySet(ms) == KeySet(ns)
    && forall i, j :: 0 <= i < |ms| && 0 <= j < |ns| && ms[i].key == ns[j].key ==> f(ms[i].item) == f(ns[j].item)
  }

  /** Position by position agreement under f. */
  ghost predicate AgreeInOrder<T, U>(s: seq<Keyed<T>>, t: seq<Keyed<T>>, f: T -> U) {
    |s| == |t| && forall i :: 0 <= i < |s| ==> s[i].key == t[i].key && f(s[i].item) == f(t[i].item)
  }

  lemma {:induction false} InOrderFromByKey<T(!new),
      U>(ms: seq<Keyed<T>>, ns: seq<Keyed<T>>, s: seq<Keyed<T>>, t: seq<Keyed<T>>,
      f: T -> U)
    requires SameMembers(s, ms) && SameMembers(t, ns) && AgreeByKey(ms, ns, f)
    requires |s| == |t| && forall i :: 0 <= i < |s| ==> s[i].key == t[i].key
    ensures AgreeInOrder(s, t, f)
  {
    forall i | 0 <= i < |s| ensures f(s[i].item) == f(t[i].item) {
      assert s[i] in ms && t[i] in ns;
      var p :| 0 <= p < |ms| && ms[p] == s[i];
      var q :| 0 <= q < |ns| && ns[q] == t[i];
    }
  }

  lemma {:induction false} ByKeyFromInOrder<T(!new),
      U>(ms: seq<Keyed<T>>, ns: seq<Keyed<T>>, s: seq<Keyed<T>>, t: seq<Keyed<T>>,
      f: T -> U)
    requires SameMembers(s, ms) && SameMembers(t, ns) && AgreeInOrder(s, t, f) && DistinctKeys(ns)
    requires KeySet(s) == KeySet(ms) && KeySet(t) == KeySet(ns)
    ensures AgreeByKey(ms, ns, f)
  {
    forall i, j | 0 <= i < |ms| && 0 <= j < |ns| && ms[i].key == ns[j].key
      ensures f(ms[i].item) == f(ns[j].item)
    {
      assert ms[i] in s;
      var p :| 0 <= p < |s| && s[p] == ms[i];
      assert t[p] in ns;
      var q :| 0 <= q < |ns| && ns[q] == t[p];
      assert q == j;
    }
    assert KeySet(s) == KeySet(t);
  }

  /** Sorting turns agreement by key into agreement in order, and back. */
  lemma {:induction false} SortedAgree<T(!new), U>(ms: seq<Keyed<T>>, ns: seq<Keyed<T>>, f: T -> U)
    requires DistinctKeys(ms) && DistinctKeys(ns)
    ensures AgreeByKey(ms, ns, f) <==> AgreeInOrder(SortByKey(ms), SortByKey(ns), f)
  {
    var s, t := SortByKey(ms), SortByKey(ns);
    SortElements(ms);
    SortElements(ns);
    SortKeySet(ms);
    SortKeySet(ns);
    if AgreeByKey(ms, ns, f) {
      SortAscending(ms);
      SortAscending(ns);
      AscendingKeysUnique(s, t);
      InOrderFromByKey(ms, ns, s, t, f);
    }
    if AgreeInOrder(s, t, f) {
      ByKeyFromInOrder(ms, ns, s, t, f);
    }
  }
}
