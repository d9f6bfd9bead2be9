/** The order Go uses on strings and ECMAScript uses in `Array.prototype.sort`:
    element by element, a proper prefix first. */
module Lexicographic {

  predicate Less(a: seq<int>, b: seq<int>) {
    && b != []
    && (a == [] || a[0] < b[0] || (a[0] == b[0] && Less(a[1..], b[1..])))
  }

  predicate LessEq(a: seq<int>, b: seq<int>) { a == b || Less(a, b) }

  lemma {:induction false} Trichotomy(a: seq<int>, b: seq<int>)
    ensures Less(a, b) || a == b || Less(b, a)
    ensures !(Less(a, b) && Less(b, a))
    ensures Less(a, b) ==> a != b
  {
    if a != [] && b != [] {
      Trichotomy(a[1..], b[1..]);
      assert a == [a[0]] + a[1..] && b == [b[0]] + b[1..];
    }
  }

  lemma {:induction false} Transitive(a: seq<int>, b: seq<int>, c: seq<int>)
    requires Less(a, b) && Less(b, c)
    ensures Less(a, c)
  {
    if a != [] && a[0] == b[0] == c[0] {
      Transitive(a[1..], b[1..], c[1..]);
    }
  }

  /** The two agree up to position n, and a has the smaller element there. */
  predicate SmallerAt(a: seq<int>, b: seq<int>, n: int) {
    0 <= n < |a| && n < |b| && a[..n] == b[..n] && a[n] < b[n]
  }

  lemma {:induction false} SmallerAtTail(a: seq<int>, b: seq<int>, n: nat)
    requires a != [] && b != [] && a[0] == b[0]
    ensures SmallerAt(a, b, n + 1) <==> SmallerAt(a[1..], b[1..], n)
  {
    if n < |a| - 1 && n < |b| - 1 {
      assert a[1..][..n] == a[1..n + 1] && b[1..][..n] == b[1..n + 1];
      assert a[..n + 1] == [a[0]] + a[1..n + 1] && b[..n + 1] == [b[0]] + b[1..n + 1];
      assert a[..n + 1] == b[..n + 1] ==> a[..n + 1][1..] == b[..n + 1][1..];
      assert a[..n + 1][1..] == a[1..n + 1] && b[..n + 1][1..] == b[1..n + 1];
    }
  }

  lemma {:induction false} PrefixTail(a: seq<int>, b: seq<int>)
    requires a != [] && b != [] && a[0] == b[0]
    ensures a < b <==> a[1..] < b[1..]
  {
    assert a == [a[0]] + a[1..] && b == [b[0]] + b[1..];
    if a < b { assert a[1..] == b[..|a|][1..] == b[1..][..|a| - 1]; }
    if a[1..] < b[1..] { assert b[..|a|] == [b[0]] + b[1..][..|a| - 1]; }
  }

  /** What the order is: a is a proper prefix of b, or has the smaller element where they first differ. */
  lemma {:induction false} LessIff(a: seq<int>, b: seq<int>)
    ensures Less(a, b)
            <==> a < b || exists n :: 0 <= n < |a| && n < |b| && a[..n] == b[..n] && a[n] < b[n]
  {
    LessIffSmallerAt(a, b);
    if n :| SmallerAt(a, b, n) { assert a[..n] == b[..n]; }
    if n :| 0 <= n < |a| && n < |b| && a[..n] == b[..n] && a[n] < b[n] { assert SmallerAt(a, b, n); }
  }

  lemma {:induction false} LessIffSmallerAt(a: seq<int>, b: seq<int>)
    ensures Less(a, b) <==> a < b || exists n :: SmallerAt(a, b, n)
  {
    if a != [] && b != [] && a[0] == b[0] {
      LessIffSmallerAt(a[1..], b[1..]);
      PrefixTail(a, b);
      if n :| SmallerAt(a, b, n) { SmallerAtTail(a, b, n - 1); }
      if n :| SmallerAt(a[1..], b[1..], n) { SmallerAtTail(a, b, n); }
    } else if a != [] && b != [] {
      if a[0] < b[0] { assert SmallerAt(a, b, 0); }
      if n :| SmallerAt(a, b, n) { if n > 0 { assert a[..n][0] == b[..n][0]; } }
    }
  }
}
