/** Stable sorting by a comparison, specified so that the result does not depend on the algorithm. */
module StableSorting {

  /** A strict weak order: asymmetric, and "not less" is transitive. */
  ghost predicate IsOrder<T(!new)>(less: (T, T) -> bool) {
    && (forall a, b :: less(a, b) ==> !less(b, a))
    && forall a, b, c :: !less(b, a) && !less(c, b) ==> !less(c, a)
  }

  predicate Sorted<T>(s: seq<T>, less: (T, T) -> bool) { forall i, j :: 0 <= i < j < |s| ==> !less(s[j], s[i]) }

  predicate Ties<T>(a: T, b: T, less: (T, T) -> bool) { !less(a, b) && !less(b, a) }

  /** The elements tied with x, in order. */
  function Tied<T>(s: seq<T>, x: T, less: (T, T) -> bool): seq<T> {
    if s == [] then [] else (if Ties(s[0], x, less) then [s[0]] else []) + Tied(s[1..], x, less)
  }

  /** Sorted, with every group of ties exactly as it was. */
  ghost predicate IsStableSort<T(!new)>(c: seq<T>, s: seq<T>, less: (T, T) -> bool) {
    Sorted(s, less) && forall x :: Tied(s, x, less) == Tied(c, x, less)
  }

  function Insert<T>(x: T, s: seq<T>, less: (T, T) -> bool): seq<T> {
    if s != [] && less(s[0], x) then [s[0]] + Insert(x, s[1..], less) else [x] + s
  }

  function StableSort<T>(c: seq<T>, less: (T, T) -> bool): seq<T> {
    if c == [] then [] else Insert(c[0], StableSort(c[1..], less), less)
  }

  lemma {:induction false} InsertKeeps<T>(x: T, s: seq<T>, less: (T, T) -> bool)
    ensures multiset(Insert(x, s, less)) == multiset{x} + multiset(s) && |Insert(x, s, less)| == |s| + 1
  {
    if s != [] && less(s[0], x) {
      InsertKeeps(x, s[1..], less);
      assert s == [s[0]] + s[1..];
    }
  }

  lemma {:induction false} SortPermutes<T>(c: seq<T>, less: (T, T) -> bool)
    ensures multiset(StableSort(c, less)) == multiset(c) && |StableSort(c, less)| == |c|
  {
    if c != [] {
      SortPermutes(c[1..], less);
      InsertKeeps(c[0], StableSort(c[1..], less), less);
      assert c == [c[0]] + c[1..];
    }
  }

  lemma {:induction false} InsertSorted<T(!new)>(x: T, s: seq<T>, less: (T, T) -> bool)
    requires IsOrder(less) && Sorted(s, less)
    ensures Sorted(Insert(x, s, less), less)
  {
    var r := Insert(x, s, less);
    if s != [] && less(s[0], x) {
      InsertSorted(x, s[1..], less);
      InsertKeeps(x, s[1..], less);
      var t := Insert(x, s[1..], less);
      forall j | 0 <= j < |t| ensures !less(t[j], s[0]) {
        assert t[j] in multiset(t);
        if t[j] != x { var k :| 0 <= k < |s[1..]| && s[1..][k] == t[j]; assert s[k + 1] == t[j]; }
      }
    } else if s != [] {
      forall j | 0 <= j < |s| ensures !less(s[j], x) { if j > 0 { assert !less(s[j], s[0]); } }
    }
  }

  /** Elements less than x do not tie with whatever ties with x. */
  lemma {:induction false} LessNotTied<T(!new)>(a: T, x: T, y: T, less: (T, T) -> bool)
    requires IsOrder(less) && less(a, x) && Ties(x, y, less)
    ensures !Ties(a, y, less)
  {
  }

  lemma {:induction false} TiedCons<T(!new)>(x: T, s: seq<T>, y: T, less: (T, T) -> bool)
    ensures Tied([x] + s, y, less) == if Ties(x, y, less) then [x] + Tied(s, y, less) else Tied(s, y, less)
  {
    hide Ties;
    assert ([x] + s)[1..] == s;
  }

  lemma {:induction false} InsertStable<T(!new)>(x: T, s: seq<T>, y: T, less: (T, T) -> bool)
    requires IsOrder(less)
    ensures Tied(Insert(x, s, less), y, less) == if Ties(x, y, less) then [x] + Tied(s, y, less) else Tied(s, y, less)
  {
    hide IsOrder;
    hide Ties;
    hide Tied;
    if s != [] && less(s[0], x) {
      InsertStable(x, s[1..], y, less);
      if Ties(x, y, less) { LessNotTied(s[0], x, y, less); }
      TiedCons(s[0], Insert(x, s[1..], less), y, less);
      TiedCons(s[0], s[1..], y, less);
      assert s == [s[0]] + s[1..];
    } else {
      TiedCons(x, s, y, less);
    }
  }

  lemma {:induction false} SortIsStable<T(!new)>(c: seq<T>, less: (T, T) -> bool)
    requires IsOrder(less)
    ensures IsStableSort(c, StableSort(c, less), less)
  {
    if c != [] {
      var t := StableSort(c[1..], less);
      SortIsStable(c[1..], less);
      InsertSorted(c[0], t, less);
      forall y ensures Tied(Insert(c[0], t, less), y, less) == Tied(c, y, less) { InsertStable(c[0], t, y, less); }
    }
  }

  /* ---- uniqueness ---- */

  lemma {:induction false} TiedMember<T>(s: seq<T>, x: T, less: (T, T) -> bool)
    ensures forall e :: e in Tied(s, x, less) ==> e in s && Ties(e, x, less)
    ensures Tied(s, x, less) == [] ==> forall i :: 0 <= i < |s| ==> !Ties(s[i], x, less)
  {
    if s != [] {
      TiedMember(s[1..], x, less);
      assert forall i :: 0 < i < |s| ==> s[i] == s[1..][i - 1];
    }
  }

  lemma {:induction false} TiedWithHead<T(!new)>(s: seq<T>, less: (T, T) -> bool)
    requires IsOrder(less) && s != []
    ensures Tied(s, s[0], less) != []
  {
    assert Ties(s[0], s[0], less);
  }

  /** What ties with the head of one sorting is found in the other, so no head is below the other. */
  lemma {:induction false} HeadNotBelow<T(!new)>(a: seq<T>, b: seq<T>, less: (T, T) -> bool)
    requires IsOrder(less) && a != [] && b != [] && Sorted(b, less)
    requires Tied(a, a[0], less) == Tied(b, a[0], less)
    ensures !less(a[0], b[0])
  {
    TiedMember(b, a[0], less);
    assert Tied(a, a[0], less)[0] == a[0];
    var e := Tied(b, a[0], less)[0];
    var k :| 0 <= k < |b| && b[k] == e;
    assert k > 0 ==> !less(b[k], b[0]);
  }

  /** Taking the same head off two sequences leaves the same ties. */
  lemma {:induction false} TailTied<T(!new)>(a: seq<T>, b: seq<T>, x: T, less: (T, T) -> bool)
    requires a != [] && b != [] && a[0] == b[0] && Tied(a, x, less) == Tied(b, x, less)
    ensures Tied(a[1..], x, less) == Tied(b[1..], x, less)
  {
    hide Tied;
    assert a == [a[0]] + a[1..] && b == [b[0]] + b[1..];
    TiedCons(a[0], a[1..], x, less);
    TiedCons(b[0], b[1..], x, less);
    if Ties(a[0], x, less) {
      assert ([a[0]] + Tied(a[1..], x, less))[1..] == ([a[0]] + Tied(b[1..], x, less))[1..];
    }
  }

  lemma {:induction false} HeadsEqual<T(!new)>(a: seq<T>, b: seq<T>, less: (T, T) -> bool)
    requires IsOrder(less) && a != [] && b != [] && Sorted(a, less) && Sorted(b, less)
    requires Tied(a, a[0], less) == Tied(b, a[0], less) && Tied(a, b[0], less) == Tied(b, b[0], less)
    ensures a[0] == b[0]
  {
    HeadNotBelow(a, b, less);
    HeadNotBelow(b, a, less);
    assert Tied(a, a[0], less)[0] == a[0] && Tied(b, a[0], less)[0] == b[0];
  }

  lemma {:induction false} SortedTail<T(!new)>(a: seq<T>, less: (T, T) -> bool)
    requires a != [] && Sorted(a, less)
    ensures Sorted(a[1..], less)
  {
  }

  lemma {:induction false} SortUnique<T(!new)>(a: seq<T>, b: seq<T>, less: (T, T) -> bool)
    requires IsOrder(less) && Sorted(a, less) && Sorted(b, less)
    requires forall x :: Tied(a, x, less) == Tied(b, x, less)
    ensures a == b
    decreases |a|
  {
    hide IsOrder;
    hide Sorted;
    hide Tied;
    if a != [] { TiedWithHead(a, less); }
    if b != [] { TiedWithHead(b, less); }
    NothingTied(a, b, less);
    if a != [] && b != [] {
      HeadsEqual(a, b, less);
      SortedTail(a, less);
      SortedTail(b, less);
      forall x ensures Tied(a[1..], x, less) == Tied(b[1..], x, less) { TailTied(a, b, x, less); }
      SortUnique(a[1..], b[1..], less);
      assert a == [a[0]] + a[1..] && b == [b[0]] + b[1..];
    }
  }

  lemma {:induction false} NothingTied<T(!new)>(a: seq<T>, b: seq<T>, less: (T, T) -> bool)
    ensures a == [] ==> forall x :: Tied(a, x, less) == []
    ensures b == [] ==> forall x :: Tied(b, x, less) == []
  {
  }

  /** Any stable sort gives the same result. */
  lemma {:induction false} AnyStableSort<T(!new)>(c: seq<T>, s: seq<T>, less: (T, T) -> bool)
    requires IsOrder(less)
    ensures IsStableSort(c, s, less) <==> s == StableSort(c, less)
  {
    SortIsStable(c, less);
    if IsStableSort(c, s, less) { SortUnique(s, StableSort(c, less), less); }
  }

  lemma {:induction false} InsertSame<T(!new)>(x: T, s: seq<T>, less: (T, T) -> bool, same: (T, T) -> bool)
    requires forall a, b :: less(a, b) == same(a, b)
    ensures Insert(x, s, less) == Insert(x, s, same)
  {
    if s != [] && less(s[0], x) { InsertSame(x, s[1..], less, same); }
  }

  /** Only what the comparison says matters. */
  lemma {:induction false} SortSame<T(!new)>(c: seq<T>, less: (T, T) -> bool, same: (T, T) -> bool)
    requires forall a, b :: less(a, b) == same(a, b)
    ensures StableSort(c, less) == StableSort(c, same)
  {
    if c != [] {
      SortSame(c[1..], less, same);
      InsertSame(c[0], StableSort(c[1..], less), less, same);
    }
  }
}
