/** Word sets, their 64-bit signatures and the Jaccard overlap of the near-duplicate lookup.
    `bit` stands for wordBit: any function that gives every word a non-zero mask. Scores are
    exact reals where the program computes with 64-bit floats. */
module WordOverlap {
  type Word = seq<int>

  function ToSet(ws: seq<Word>): set<Word> { set w | w in ws }

  predicate Distinct(ws: seq<Word>) { forall i, j :: 0 <= i < j < |ws| ==> ws[i] != ws[j] }

  ghost predicate IsWordBit(bit: Word -> bv64) { forall w :: bit(w) != 0 }

  /** The words kept by deduplication: each one where it first appears. */
  ghost function FirstAppearances(ws: seq<Word>): seq<Word> {
    if ws == [] then []
    else
      var init, last := ws[..|ws| - 1], ws[|ws| - 1];
      if last in init then FirstAppearances(init) else FirstAppearances(init) + [last]
  }

  lemma {:induction false} FirstAppearancesKeepsSet(ws: seq<Word>)
    ensures Distinct(FirstAppearances(ws)) && ToSet(FirstAppearances(ws)) == ToSet(ws)
    ensures forall w :: w in FirstAppearances(ws) <==> w in ws
  {
    if ws != [] {
      var init, last := ws[..|ws| - 1], ws[|ws| - 1];
      FirstAppearancesKeepsSet(init);
      assert ws == init + [last];
    }
  }

  method DistinctWords(words: seq<Word>) returns (out: seq<Word>)
    ensures out == FirstAppearances(words)
    ensures Distinct(out) && ToSet(out) == ToSet(words)
  {
    var seen: set<Word> := {};
    out := [];
    for i := 0 to |words|
      invariant seen == ToSet(words[..i])
      invariant out == FirstAppearances(words[..i])
    {
      assert words[..i + 1][..i] == words[..i];
      if words[i] !in seen {
        seen := seen + {words[i]};
        out := out + [words[i]];
      }
    }
    assert words[..|words|] == words;
    FirstAppearancesKeepsSet(words);
  }

  ghost function Signature(ws: seq<Word>, bit: Word -> bv64): bv64 {
    if ws == [] then 0 else Signature(ws[..|ws| - 1], bit) | bit(ws[|ws| - 1])
  }

  lemma {:induction false} OrKeeps(a: bv64, b: bv64, x: bv64)
    ensures (a | x) & x == x
    ensures a & x == x ==> (a | b) & x == x
  {
  }

  /** No false negative: a word of the list always finds its whole mask in the signature. */
  lemma {:induction false} SignatureCovers(ws: seq<Word>, bit: Word -> bv64, w: Word)
    requires w in ws
    ensures Signature(ws, bit) & bit(w) == bit(w)
  {
    var init, last := ws[..|ws| - 1], ws[|ws| - 1];
    OrKeeps(Signature(init, bit), bit(last), bit(w));
    if w != last {
      assert w in init;
      SignatureCovers(init, bit, w);
    }
  }

  method WordSignature(words: seq<Word>, bit: Word -> bv64) returns (bits: bv64)
    ensures bits == Signature(words, bit)
  {
    bits := 0;
    for i := 0 to |words|
      invariant bits == Signature(words[..i], bit)
    {
      assert words[..i + 1][..i] == words[..i];
      bits := bits | bit(words[i]);
    }
    assert words[..|words|] == words;
  }

  /** The overlap the lookup promises: intersection over union, 0 for two empty sets. */
  ghost function Jaccard(a: set<Word>, b: set<Word>): real {
    if a + b == {} then 0.0 else |a * b| as real / |a + b| as real
  }

  lemma {:induction false} NoWordsNoOverlap(a: set<Word>)
    ensures Jaccard(a, ToSet([])) == 0.0
  {
    assert a * ToSet([]) == {};
  }

  lemma {:induction false} OverlapIsNonNegative(a: set<Word>, b: set<Word>)
    ensures Jaccard(a, b) >= 0.0
  {
    if a + b != {} { assert |a + b| as real > 0.0; }
  }

  lemma {:induction false} UnionSize(a: set<Word>, b: set<Word>)
    ensures |a + b| == |a| + |b| - |a * b|
    ensures |a * b| <= |a| && |a * b| <= |b|
  {
    assert a == (a - b) + a * b && b == (b - a) + a * b && a + b == (a - b) + (b - a) + a * b;
    assert |a| == |a - b| + |a * b|;
    assert |b| == |b - a| + |a * b|;
  }

  lemma {:induction false} DistinctSize(ws: seq<Word>)
    requires Distinct(ws)
    ensures |ToSet(ws)| == |ws|
  {
    if ws != [] {
      var init, last := ws[..|ws| - 1], ws[|ws| - 1];
      DistinctSize(init);
      assert ToSet(ws) == ToSet(init) + {last};
    }
  }

  function OverlapReaches(inter: int, querySize: int, candidateSize: int, threshold: real): bool {
    var union := querySize + candidateSize - inter;
    union > 0 && inter as real >= threshold * union as real
  }

  /** Both prunes are sound: if the intersection is at most `bound` and `bound` cannot reach the
      threshold, neither can the overlap. */
  lemma {:induction false} PruneIsSound(q: set<Word>, c: set<Word>, bound: int, threshold: real)
    requires c != {} && threshold > 0.0 && |q * c| <= bound <= |q|
    requires !OverlapReaches(bound, |q|, |c|, threshold)
    ensures Jaccard(q, c) < threshold
  {
    UnionSize(q, c);
    var inter, union := |q * c|, |q + c|;
    assert union > 0 by { assert c <= q + c; assert q + c != {}; }
    var slack := |q| + |c| - bound;
    assert 0 < slack <= union;
    ScaleMonotone(threshold, slack as real, union as real);
    if inter as real / union as real >= threshold {
      DivisionMeansProduct(inter as real, union as real, threshold);
    }
  }

  lemma {:induction false} ScaleMonotone(t: real, x: real, y: real)
    requires t > 0.0 && x <= y
    ensures t * x <= t * y
  {
  }

  lemma {:induction false} DivisionMeansProduct(x: real, y: real, t: real)
    requires y > 0.0 && x / y >= t
    ensures x >= t * y
  {
    assert x == (x / y) * y;
    ScaleMonotone(y, t, x / y);
  }

  lemma {:induction false} SetSnoc(ws: seq<Word>, i: nat)
    requires i < |ws| && Distinct(ws)
    ensures ToSet(ws[..i + 1]) == ToSet(ws[..i]) + {ws[i]} && ws[i] !in ToSet(ws[..i])
  {
    assert ws[..i + 1] == ws[..i] + [ws[i]];
  }

  lemma {:induction false} MeetGrows(q: set<Word>, s: set<Word>, w: Word)
    requires w !in s
    ensures |q * (s + {w})| == |q * s| + if w in q then 1 else 0
  {
    if w in q {
      assert q * (s + {w}) == q * s + {w};
    } else {
      assert q * (s + {w}) == q * s;
    }
  }

  /** wordOverlap: one pass over the stored words, probing the query set. */
  method Overlap(querySet: set<Word>, words: seq<Word>) returns (score: real)
    requires Distinct(words)
    ensures score == Jaccard(querySet, ToSet(words))
  {
    var inter := 0;
    for i := 0 to |words|
      invariant inter == |querySet * ToSet(words[..i])|
    {
      SetSnoc(words, i);
      MeetGrows(querySet, ToSet(words[..i]), words[i]);
      if words[i] in querySet {
        inter := inter + 1;
      }
    }
    assert words[..|words|] == words;
    DistinctSize(words);
    UnionSize(querySet, ToSet(words));
    var union := |querySet| + |words| - inter;
    if union == 0 {
      score := 0.0;
    } else {
      score := inter as real / union as real;
    }
  }

  /** One more query word: the intersection grows only if its bit is there. */
  lemma {:induction false} BitStep(queryWords: seq<Word>, i: nat, words: seq<Word>, bit: Word -> bv64)
    requires IsWordBit(bit) && Distinct(queryWords) && i < |queryWords|
    ensures |ToSet(words) * ToSet(queryWords[..i + 1])|
            <= |ToSet(words) * ToSet(queryWords[..i])| + if Signature(words, bit) & bit(queryWords[i]) != 0 then 1
                else 0
  {
    hide Signature;
    SetSnoc(queryWords, i);
    MeetGrows(ToSet(words), ToSet(queryWords[..i]), queryWords[i]);
    if queryWords[i] in words { SignatureCovers(words, bit, queryWords[i]); }
  }

  /** How many query words the signature lets through: never fewer than are really there. */
  method CountBits(bits: bv64, queryBits: seq<bv64>, ghost queryWords: seq<Word>, ghost words: seq<Word>,
                   ghost bit: Word -> bv64)
    returns (maxInter: int)
    requires IsWordBit(bit) && bits == Signature(words, bit) && Distinct(queryWords)
    requires |queryBits| == |queryWords| && forall i :: 0 <= i < |queryWords| ==> queryBits[i] == bit(queryWords[i])
    ensures |ToSet(queryWords) * ToSet(words)| <= maxInter <= |queryWords|
  {
    hide Signature;
    maxInter := 0;
    for i := 0 to |queryBits|
      invariant |ToSet(words) * ToSet(queryWords[..i])| <= maxInter <= i
    {
      BitStep(queryWords, i, words, bit);
      if bits & queryBits[i] != 0 {
        maxInter := maxInter + 1;
      }
    }
    assert queryWords[..|queryBits|] == queryWords;
    assert ToSet(queryWords) * ToSet(words) == ToSet(words) * ToSet(queryWords);
  }
}
