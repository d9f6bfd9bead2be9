/** Model fallbacks: the gateway's cycle check over all fallback edges, the control plane's check
    over first edges, and the chain of aliases a request walks. */
module FallbackGraph {
  import opened Wrappers

  datatype Model = Model(alias: string, fallbacks: seq<string>)

  /** What the earlier part of the configuration build already refused. */
  predicate Named(models: seq<Model>) {
    && (forall i :: 0 <= i < |models| ==> models[i].alias != "")
    && forall i, j :: 0 <= i < j < |models| ==> models[i].alias != models[j].alias
  }

  ghost function Aliases(models: seq<Model>): set<string> { set m <- models :: m.alias }

  /** The fallbacks of the first model with this alias; an unknown alias has none. */
  function FallbacksOf(models: seq<Model>, alias: string): (r: seq<string>)
    ensures r != [] ==> exists i :: 0 <= i < |models| && models[i].alias == alias && models[i].fallbacks == r
    ensures alias !in Aliases(models) ==> r == []
  {
    if models == [] then [] else if models[0].alias == alias then models[0].fallbacks
    else
      var rest := FallbacksOf(models[1..], alias);
      assert forall i :: 0 <= i < |models[1..]| ==> models[1..][i] == models[i + 1];
      assert forall m :: m in models[1..] ==> m in models;
      rest
  }

  /** On a list whose aliases are distinct, these are the fallbacks of every model of it. */
  lemma {:induction false} FallbacksAre(models: seq<Model>, i: nat)
    requires i < |models| && forall j :: 0 <= j < i ==> models[j].alias != models[i].alias
    ensures FallbacksOf(models, models[i].alias) == models[i].fallbacks
    decreases i
  {
    if i > 0 {
      assert models[0].alias != models[i].alias && forall j :: 0 <= j < i - 1 ==> models[1..][j] == models[j + 1];
      FallbacksAre(models[1..], i - 1);
    }
  }

  /* ---- walks ---- */

  predicate Edge(models: seq<Model>, a: string, b: string) { b in FallbacksOf(models, a) }

  predicate IsWalk(models: seq<Model>, p: seq<string>) {
    p != [] && forall i :: 0 <= i < |p| - 1 ==> Edge(models, p[i], p[i + 1])
  }

  /** A walk that comes back to where it started. */
  predicate IsCycle(models: seq<Model>, p: seq<string>) { IsWalk(models, p) && |p| >= 2 && p[0] == p[|p| - 1] }

  ghost predicate Acyclic(models: seq<Model>) { forall p :: !IsCycle(models, p) }

  /* ---- modelFallbackCycle ---- */

  /** The depth-first search; "" means that it found no cycle. */
  ghost function CycleFrom(models: seq<Model>, start: string, path: set<string>): string
    decreases |Aliases(models) - path|, |FallbacksOf(models, start)| + 1
  {
    if start in path then start else CycleAmong(models, start, path, FallbacksOf(models, start))
  }

  ghost function CycleAmong(models: seq<Model>, start: string, path: set<string>, fbs: seq<string>): string
    requires start !in path && (fbs != [] ==> start in Aliases(models))
    decreases |Aliases(models) - path|, |fbs|
  {
    if fbs == [] then ""
    else
      assert Aliases(models) - (path + {start}) == Aliases(models) - path - {start};
      var c := CycleFrom(models, fbs[0], path + {start});
      if c != "" then c else CycleAmong(models, start, path, fbs[1..])
  }

  /** A silent search has been silent on every fallback. */
  lemma {:induction false} SilentOnAll(models: seq<Model>, start: string, path: set<string>, fbs: seq<string>,
                                       b: string)
    requires start !in path && (fbs != [] ==> start in Aliases(models)) && b in fbs
    requires CycleAmong(models, start, path, fbs) == ""
    ensures CycleFrom(models, b, path + {start}) == ""
    decreases |fbs|
  {
    if b != fbs[0] { SilentOnAll(models, start, path, fbs[1..], b); }
  }

  /** A silent search means that no walk from here meets the path. */
  lemma {:induction false} SilentWalks(models: seq<Model>, path: set<string>, p: seq<string>)
    requires IsWalk(models, p) && "" !in p && CycleFrom(models, p[0], path) == ""
    ensures forall i :: 0 <= i < |p| ==> p[i] !in path
    decreases |p|
  {
    if |p| > 1 {
      assert Edge(models, p[0], p[1]);
      SilentOnAll(models, p[0], path, FallbacksOf(models, p[0]), p[1]);
      assert IsWalk(models, p[1..]) by {
        forall i | 0 <= i < |p| - 2 ensures Edge(models, p[1..][i], p[1..][i + 1]) {
          assert Edge(models, p[i + 1], p[i + 2]);
        }
      }
      SilentWalks(models, path + {p[0]}, p[1..]);
      forall i | 0 <= i < |p| ensures p[i] !in path { assert i > 0 ==> p[i] == p[1..][i - 1]; }
    }
  }

  ghost function Elements(p: seq<string>): set<string> { set i | 0 <= i < |p| :: p[i] }

  /** A search that speaks up has closed a cycle through the alias it names. */
  lemma {:induction false} FoundIsCycle(models: seq<Model>, front: seq<string>, start: string) returns (p: seq<string>)
    requires IsWalk(models, front + [start]) && CycleFrom(models, start, Elements(front)) != ""
    ensures IsCycle(models, p) && p[0] == CycleFrom(models, start, Elements(front))
    decreases |Aliases(models) - Elements(front)|, |FallbacksOf(models, start)| + 1
  {
    if start in Elements(front) {
      p := CloseWalk(models, front, start);
    } else {
      p := FoundAmong(models, front, start, FallbacksOf(models, start));
    }
  }

  lemma {:induction false} CloseWalk(models: seq<Model>, front: seq<string>, start: string) returns (p: seq<string>)
    requires IsWalk(models, front + [start]) && start in Elements(front)
    ensures IsCycle(models, p) && p[0] == start
  {
    var trail := front + [start];
    var i :| 0 <= i < |front| && front[i] == start;
    p := trail[i..];
    forall k | 0 <= k < |p| - 1 ensures Edge(models, p[k], p[k + 1]) {
      assert Edge(models, trail[i + k], trail[i + k + 1]);
    }
  }

  lemma {:induction false} Extend(models: seq<Model>, front: seq<string>, start: string, b: string)
    requires IsWalk(models, front + [start]) && Edge(models, start, b)
    ensures IsWalk(models, front + [start] + [b]) && Elements(front + [start]) == Elements(front) + {start}
  {
    hide Edge;
    var p := front + [start] + [b];
    forall k | 0 <= k < |p| - 1 ensures Edge(models, p[k], p[k + 1]) {
      if k < |front| { assert Edge(models, (front + [start])[k], (front + [start])[k + 1]); }
    }
    ElementsGrow(front, start);
  }

  lemma {:induction false} FoundAmong(models: seq<Model>, front: seq<string>, start: string, fbs: seq<string>)
    returns (p: seq<string>)
    requires IsWalk(models, front + [start]) && start !in Elements(front)
    requires (forall b :: b in fbs ==> Edge(models, start, b)) && (fbs != [] ==> start in Aliases(models))
    requires CycleAmong(models, start, Elements(front), fbs) != ""
    ensures IsCycle(models, p) && p[0] == CycleAmong(models, start, Elements(front), fbs)
    decreases |Aliases(models) - Elements(front)|, |fbs|
  {
    hide IsWalk;
    hide IsCycle;
    hide Edge;
    Extend(models, front, start, fbs[0]);
    if CycleFrom(models, fbs[0], Elements(front) + {start}) != "" {
      FewerLeft(Aliases(models), Elements(front), start);
      p := FoundIsCycle(models, front + [start], fbs[0]);
    } else {
      p := FoundAmong(models, front, start, fbs[1..]);
    }
  }

  ghost predicate PassesBuild(models: seq<Model>) {
    forall i :: 0 <= i < |models| ==> CycleFrom(models, models[i].alias, {}) == ""
  }

  lemma {:induction false} OnCycleNamed(models: seq<Model>, p: seq<string>)
    requires Named(models) && IsCycle(models, p)
    ensures "" !in p && p[0] in Aliases(models)
  {
    forall i | 0 <= i < |p| ensures p[i] != "" && p[i] in Aliases(models) {
      var k := if i == |p| - 1 then 0 else i;
      assert Edge(models, p[k], p[k + 1]);
    }
  }

  lemma {:induction false} CycleIsFound(models: seq<Model>, p: seq<string>)
    requires Named(models) && IsCycle(models, p)
    ensures !PassesBuild(models)
  {
    OnCycleNamed(models, p);
    var i :| 0 <= i < |models| && models[i].alias == p[0];
    if CycleFrom(models, models[i].alias, {}) == "" {
      assert Edge(models, p[0], p[1]);
      SilentOnAll(models, p[0], {}, FallbacksOf(models, p[0]), p[1]);
      forall k | 0 <= k < |p| - 2 ensures Edge(models, p[1..][k], p[1..][k + 1]) {
        assert Edge(models, p[k + 1], p[k + 2]);
      }
      assert p[1..][|p| - 2] == p[0];
      SilentWalks(models, {} + {p[0]}, p[1..]);
    }
  }

  lemma {:induction false} FindCycle(models: seq<Model>, start: string) returns (p: seq<string>)
    requires CycleFrom(models, start, {}) != ""
    ensures IsCycle(models, p) && p[0] == CycleFrom(models, start, {})
  {
    assert Elements([]) == {} && [] + [start] == [start];
    p := FoundIsCycle(models, [], start);
  }

  /** A model list passes the gateway's cycle check exactly when its fallback graph has no cycle. */
  lemma {:induction false} BuildPassesIffAcyclic(models: seq<Model>)
    requires Named(models)
    ensures PassesBuild(models) <==> Acyclic(models)
  {
    if !PassesBuild(models) {
      var i :| 0 <= i < |models| && CycleFrom(models, models[i].alias, {}) != "";
      var p := FindCycle(models, models[i].alias);
    }
    if !Acyclic(models) {
      var p :| IsCycle(models, p);
      CycleIsFound(models, p);
    }
  }

  /** The search as the gateway runs it: one path set, changed in place and restored on return. */
  class CycleSearch {
    const models: seq<Model>
    var path: set<string>

    constructor (models: seq<Model>)
      ensures this.models == models && path == {}
    {
      this.models := models;
      path := {};
    }

    method FallbacksFor(alias: string) returns (fbs: seq<string>)
      ensures fbs == FallbacksOf(models, alias)
    {
      var i := 0;
      while i < |models|
        invariant 0 <= i <= |models| && FallbacksOf(models, alias) == FallbacksOf(models[i..], alias)
      {
        if models[i].alias == alias { return models[i].fallbacks; }
        i := i + 1;
      }
      return [];
    }

    method ModelFallbackCycle(start: string) returns (cycle: string)
      modifies this
      ensures cycle == CycleFrom(models, start, old(path)) && path == old(path)
      decreases |Aliases(models) - path|
    {
      if start in path { return start; }
      ghost var was := path;
      path := path + {start};
      var fbs := FallbacksFor(start);
      assert path - {start} == was;
      assert fbs != [] ==> Aliases(models) - path == Aliases(models) - was - {start};
      var i := 0;
      while i < |fbs|
        invariant 0 <= i <= |fbs| && path == was + {start}
        invariant CycleFrom(models, start, was) == CycleAmong(models, start, was, fbs[i..])
      {
        cycle := ModelFallbackCycle(fbs[i]);
        assert fbs[i..][0] == fbs[i] && fbs[i..][1..] == fbs[i + 1..];
        if cycle != "" {
          path := path - {start};
          return;
        }
        i := i + 1;
      }
      path := path - {start};
      return "";
    }
  }

  /** The gateway's loop over all models: the first alias found on a cycle, if any. */
  method CheckCycles(models: seq<Model>) returns (r: Option<string>)
    requires Named(models)
    ensures r.None? <==> Acyclic(models)
    ensures r.Some? ==> exists p :: IsCycle(models, p) && p[0] == r.value
  {
    BuildPassesIffAcyclic(models);
    var search := new CycleSearch(models);
    var i := 0;
    while i < |models|
      invariant 0 <= i <= |models| && search.path == {} && search.models == models
      invariant forall k :: 0 <= k < i ==> CycleFrom(models, models[k].alias, {}) == ""
    {
      var cycle := search.ModelFallbackCycle(models[i].alias);
      if cycle != "" {
        ghost var p := FindCycle(models, models[i].alias);
        return Some(cycle);
      }
      i := i + 1;
    }
    return None;
  }

  /* ---- the control plane's check: only first fallbacks ---- */

  function FirstFallback(models: seq<Model>, alias: string): Option<string> {
    var fbs := FallbacksOf(models, alias);
    if fbs == [] then None else Some(fbs[0])
  }

  predicate FirstWalk(models: seq<Model>, p: seq<string>) {
    p != [] && forall i :: 0 <= i < |p| - 1 ==> FirstFallback(models, p[i]) == Some(p[i + 1])
  }

  predicate FirstCycle(models: seq<Model>, p: seq<string>) { FirstWalk(models, p) && |p| >= 2 && p[0] == p[|p| - 1] }

  ghost predicate FirstAcyclic(models: seq<Model>) { forall p :: !FirstCycle(models, p) }

  /** Every fallback names a model of the list. */
  ghost predicate Known(models: seq<Model>) {
    forall i, b :: 0 <= i < |models| && b in models[i].fallbacks ==> b in Aliases(models)
  }

  lemma {:induction false} FirstWalkIsWalk(models: seq<Model>, p: seq<string>)
    requires FirstWalk(models, p)
    ensures IsWalk(models, p)
  {
    forall i | 0 <= i < |p| - 1 ensures Edge(models, p[i], p[i + 1]) {
      assert FirstFallback(models, p[i]) == Some(p[i + 1]);
    }
  }

  /** Whatever passes the gateway's check passes the control plane's. */
  lemma {:induction false} AcyclicIsFirstAcyclic(models: seq<Model>)
    requires Acyclic(models)
    ensures FirstAcyclic(models)
  {
    forall p ensures !FirstCycle(models, p) {
      if FirstCycle(models, p) {
        FirstWalkIsWalk(models, p);
        assert IsCycle(models, p);
      }
    }
  }

  /** A cycle through second fallbacks. No model falls back to itself, which the gateway would call
      redundant before it looks for cycles. */
  function MissedCycle(): seq<Model> { [Model("a", ["b", "c"]), Model("b", []), Model("c", ["b", "a"])] }

  lemma {:induction false} MissedFallbacks(alias: string)
    ensures FallbacksOf(MissedCycle(), alias)
            == if alias == "a" then ["b", "c"] else if alias == "c" then ["b", "a"] else []
  {
    var ms := MissedCycle();
    assert ms[1..] == [Model("b", []), Model("c", ["b", "a"])] && ms[1..][1..] == [Model("c", ["b", "a"])];
    assert ms[1..][1..][1..] == [];
    assert FallbacksOf([], alias) == [];
    assert FallbacksOf(ms[1..][1..], alias) == if alias == "c" then ["b", "a"] else [];
    assert FallbacksOf(ms[1..], alias) == if alias == "c" then ["b", "a"] else [];
  }

  lemma {:induction false} MissedIsKnown()
    ensures Named(MissedCycle()) && Known(MissedCycle())
  {
    var models := MissedCycle();
    assert models[0].alias == "a" && models[1].alias == "b" && models[2].alias == "c";
    assert "a" in Aliases(models) && "b" in Aliases(models) && "c" in Aliases(models);
  }

  lemma {:induction false} MissedIsCyclic()
    ensures IsCycle(MissedCycle(), ["a", "c", "a"])
  {
    hide FallbacksOf;
    MissedFallbacks("a");
    MissedFallbacks("c");
    var p := ["a", "c", "a"];
    forall i | 0 <= i < |p| - 1 ensures Edge(MissedCycle(), p[i], p[i + 1]) {
      assert i == 0 || i == 1;
    }
  }

  lemma {:induction false} MissedFirstSteps(p: seq<string>)
    requires FirstWalk(MissedCycle(), p)
    ensures !FirstCycle(MissedCycle(), p)
  {
    hide FallbacksOf;
    if |p| >= 2 {
      assert FirstFallback(MissedCycle(), p[0]) == Some(p[1]);
      MissedFallbacks(p[0]);
      assert |p| > 2 ==> FirstFallback(MissedCycle(), p[1]) == Some(p[2]);
      MissedFallbacks("b");
    }
  }

  /** The converse fails: a cycle through second fallbacks is published and then refused. */
  lemma {:induction false} SecondEdgeCycleIsMissed()
    ensures var models := MissedCycle(); Named(models) && Known(models) && FirstAcyclic(models) && !Acyclic(models)
  {
    hide FallbacksOf;
    hide FirstCycle;
    hide IsCycle;
    hide Named;
    hide Known;
    hide MissedCycle;
    MissedIsKnown();
    MissedIsCyclic();
    forall p ensures !FirstCycle(MissedCycle(), p) { NotACycle(p); }
  }

  lemma {:induction false} NotACycle(p: seq<string>)
    ensures !FirstCycle(MissedCycle(), p)
  {
    hide FallbacksOf;
    if FirstWalk(MissedCycle(), p) { MissedFirstSteps(p); }
  }

  predicate NoRepeats(p: seq<string>) { forall i, j :: 0 <= i < j < |p| ==> p[i] != p[j] }

  /** A first-fallback walk that stops having met nothing twice proves its start harmless. */
  lemma {:induction false} FirstWalkUnique(models: seq<Model>, p: seq<string>, q: seq<string>, k: nat)
    requires FirstWalk(models, p) && FirstWalk(models, q) && p[0] == q[0] && k < |p| && k < |q|
    ensures p[k] == q[k]
  {
    if k > 0 {
      FirstWalkUnique(models, p, q, k - 1);
      assert FirstFallback(models, p[k - 1]) == Some(p[k]) && FirstFallback(models, q[k - 1]) == Some(q[k]);
    }
  }

  lemma {:induction false} StoppedWalkHasNoCycle(models: seq<Model>, p: seq<string>, q: seq<string>)
    requires FirstWalk(models, p) && NoRepeats(p) && FirstFallback(models, p[|p| - 1]).None?
    requires FirstWalk(models, q) && p[0] == q[0]
    ensures !FirstCycle(models, q)
  {
    if |q| <= |p| {
      FirstWalkUnique(models, p, q, |q| - 1);
    } else {
      assert FirstFallback(models, q[|p| - 1]) == Some(q[|p|]);
      FirstWalkUnique(models, p, q, |p| - 1);
    }
  }

  ghost predicate Harmless(models: seq<Model>, alias: string) {
    forall q :: FirstWalk(models, q) && q[0] == alias ==> !FirstCycle(models, q)
  }

  ghost predicate OnFirstCycle(models: seq<Model>, alias: string) { exists p :: FirstCycle(models, p) && p[0] == alias }

  /** One model of the control plane's loop: follow first fallbacks until one repeats or none is left. */
  method FollowFirst(models: seq<Model>, alias: string) returns (cycle: Option<string>)
    requires Named(models) && alias != ""
    ensures cycle.None? ==> Harmless(models, alias)
    ensures cycle.Some? ==> OnFirstCycle(models, cycle.value)
  {
    hide FirstFallback;
    hide FirstWalk;
    var current := Some(alias);
    var path: set<string> := {};
    ghost var p: seq<string> := [];
    while current.Some? && current.value != ""
      invariant path == Elements(p) && Followed(models, alias, p, current)
      decreases |Aliases(models) - path|, if current.Some? then 1 else 0
    {
      if current.value in path {
        FollowedTwice(models, alias, p, current.value);
        return current;
      }
      FollowedOn(models, alias, p, current.value);
      FewerLeft(Aliases(models), path, current.value);
      path := path + {current.value};
      p := p + [current.value];
      current := FirstFallback(models, current.value);
    }
    FollowedToEnd(models, alias, p, current);
    return None;
  }

  /** The aliases followed so far and the one to look at next. */
  ghost predicate Followed(models: seq<Model>, alias: string, p: seq<string>, current: Option<string>) {
    && NoRepeats(p) && "" !in p
    && (if p == [] then current == Some(alias)
        else FirstWalk(models, p) && p[0] == alias && FirstFallback(models, p[|p| - 1]) == current)
  }

  lemma {:induction false} FollowedOn(models: seq<Model>, alias: string, p: seq<string>, a: string)
    requires Followed(models, alias, p, Some(a)) && a !in Elements(p) && a != ""
    ensures Followed(models, alias, p + [a], FirstFallback(models, a)) && Elements(p + [a]) == Elements(p) + {a}
    ensures FirstFallback(models, a).Some? ==> a in Aliases(models)
  {
    ElementsGrow(p, a);
    var q := p + [a];
    forall i | 0 <= i < |q| - 1 ensures FirstFallback(models, q[i]) == Some(q[i + 1]) { assert q[i] == p[i]; }
  }

  lemma {:induction false} ElementsGrow(p: seq<string>, a: string)
    ensures Elements(p + [a]) == Elements(p) + {a}
  {
    forall x | x in Elements(p) ensures x in Elements(p + [a]) {
      var i :| 0 <= i < |p| && p[i] == x;
      assert (p + [a])[i] == x;
    }
    assert (p + [a])[|p|] == a;
  }

  lemma {:induction false} FollowedTwice(models: seq<Model>, alias: string, p: seq<string>, a: string)
    requires Followed(models, alias, p, Some(a)) && a in Elements(p)
    ensures OnFirstCycle(models, a)
  {
    var i :| 0 <= i < |p| && p[i] == a;
    CloseFirst(models, p, i);
    assert (p[i..] + [a])[0] == a;
  }

  lemma {:induction false} FewerLeft(aliases: set<string>, path: set<string>, a: string)
    requires a !in path
    ensures |aliases - (path + {a})| <= |aliases - path|
    ensures a in aliases ==> |aliases - (path + {a})| < |aliases - path|
  {
    if a in aliases {
      assert aliases - (path + {a}) == aliases - path - {a};
    } else {
      assert aliases - (path + {a}) == aliases - path;
    }
  }

  lemma {:induction false} FollowedToEnd(models: seq<Model>, alias: string, p: seq<string>, current: Option<string>)
    requires Named(models) && alias != "" && Followed(models, alias, p, current)
    requires (current.None? || current.value == "")
    ensures Harmless(models, alias)
  {
    var s := if current.None? then p else p + [""];
    assert FallbacksOf(models, "") == [];
    forall i | 0 <= i < |s| - 1 ensures FirstFallback(models, s[i]) == Some(s[i + 1]) { assert s[i] == p[i]; }
    forall q | FirstWalk(models, q) && q[0] == alias ensures !FirstCycle(models, q) {
      StoppedWalkHasNoCycle(models, s, q);
    }
  }

  lemma {:induction false} CloseFirst(models: seq<Model>, p: seq<string>, i: nat)
    requires FirstWalk(models, p) && i < |p| && FirstFallback(models, p[|p| - 1]) == Some(p[i])
    ensures FirstCycle(models, p[i..] + [p[i]])
  {
    var q := p[i..] + [p[i]];
    forall k | 0 <= k < |q| - 1 ensures FirstFallback(models, q[k]) == Some(q[k + 1]) {
      if k < |q| - 2 { assert FirstFallback(models, p[i + k]) == Some(p[i + k + 1]); }
    }
  }

  datatype ChainError = UnknownFallback(alias: string, fallback: string) | FallbackCycle(alias: string)

  /** The control plane publishes exactly the lists whose fallbacks are all known and whose first
      fallbacks form no cycle. */
  method ValidateFallbackChains(models: seq<Model>) returns (error: Option<ChainError>)
    requires Named(models)
    ensures error.None? <==> Known(models) && FirstAcyclic(models)
    ensures error.Some? && error.value.FallbackCycle? ==> OnFirstCycle(models, error.value.alias)
    ensures error.Some? && error.value.UnknownFallback? ==> error.value.fallback !in Aliases(models)
  {
    var i := 0;
    while i < |models|
      invariant 0 <= i <= |models|
      invariant forall k, b :: 0 <= k < i && b in models[k].fallbacks ==> b in Aliases(models)
      invariant forall k :: 0 <= k < i ==> Harmless(models, models[k].alias)
    {
      var j := 0;
      while j < |models[i].fallbacks|
        invariant 0 <= j <= |models[i].fallbacks|
        invariant forall b :: b in models[i].fallbacks[..j] ==> b in Aliases(models)
      {
        var fallback := models[i].fallbacks[j];
        if !(exists k :: 0 <= k < |models| && models[k].alias == fallback) {
          assert fallback in models[i].fallbacks && fallback !in Aliases(models);
          return Some(UnknownFallback(models[i].alias, fallback));
        }
        assert models[i].fallbacks[..j + 1] == models[i].fallbacks[..j] + [fallback];
        j := j + 1;
      }
      assert models[i].fallbacks[..j] == models[i].fallbacks;
      var cycle := FollowFirst(models, models[i].alias);
      if cycle.Some? { return Some(FallbackCycle(cycle.value)); }
      i := i + 1;
    }
    forall p | FirstWalk(models, p) ensures !FirstCycle(models, p) {
      if |p| >= 2 {
        assert FirstFallback(models, p[0]) == Some(p[1]);
        var k :| 0 <= k < |models| && models[k].alias == p[0];
      }
    }
    return None;
  }

  /* ---- modelChain ---- */

  /** First fallbacks followed with no guard, at most n times. */
  function FirstPath(models: seq<Model>, alias: string, n: nat): (r: seq<string>)
    ensures |r| <= n + 1 && FirstWalk(models, r) && r[0] == alias
    ensures |r| == n + 1 || FirstFallback(models, r[|r| - 1]).None?
    decreases n
  {
    var next := FirstFallback(models, alias);
    if n == 0 || next.None? then [alias] else [alias] + FirstPath(models, next.value, n - 1)
  }

  /** Following once more extends the path at its end. */
  lemma {:induction false} FirstPathGrows(models: seq<Model>, alias: string, n: nat)
    ensures var p := FirstPath(models, alias, n);
            var next := FirstFallback(models, p[|p| - 1]);
            FirstPath(models, alias, n + 1) == if |p| == n + 1 && next.Some? then p + [next.value] else p
    decreases n
  {
    hide FirstFallback;
    hide FirstWalk;
    var next := FirstFallback(models, alias);
    if next.Some? {
      if n > 0 {
        FirstPathGrows(models, next.value, n - 1);
      } else {
        assert FirstPath(models, next.value, 0) == [next.value];
      }
    }
  }

  const MAX_FALLBACKS := 8

  /** The aliases a request tries, in order: the first-fallback path without repeats, stopped by
      its length, by a model without fallbacks, or by an alias already seen. On a list that passed
      the cycle check the last never happens: the chain is the unguarded path. */
  method ModelChain(models: seq<Model>, alias: string) returns (chain: seq<string>)
    ensures 1 <= |chain| <= 9 && chain[0] == alias && FirstWalk(models, chain) && NoRepeats(chain)
    ensures var next := FirstFallback(models, chain[|chain| - 1]);
            |chain| == 9 || next.None? || next.value in Elements(chain)
    ensures Acyclic(models) ==> chain == FirstPath(models, alias, 8)
  {
    hide FirstFallback;
    chain := [alias];
    var seen := {alias};
    var i := 0;
    while i < MAX_FALLBACKS
      invariant 0 <= i <= MAX_FALLBACKS && |chain| == i + 1
      invariant chain[0] == alias && FirstWalk(models, chain) && NoRepeats(chain) && seen == Elements(chain)
      invariant chain == FirstPath(models, alias, i)
    {
      FirstPathGrows(models, alias, i);
      var next := FirstFallback(models, chain[|chain| - 1]);
      if next.None? {
        FirstPathStops(models, alias, i, MAX_FALLBACKS);
        return;
      }
      if next.value in seen {
        CloseChain(models, chain, next.value);
        return;
      }
      ChainGrows(models, chain, next.value);
      seen := seen + {next.value};
      chain := chain + [next.value];
      i := i + 1;
    }
  }

  lemma {:induction false} ChainGrows(models: seq<Model>, chain: seq<string>, next: string)
    requires FirstWalk(models, chain) && NoRepeats(chain) && next !in Elements(chain)
    requires FirstFallback(models, chain[|chain| - 1]) == Some(next)
    ensures FirstWalk(models, chain + [next]) && NoRepeats(chain + [next])
    ensures Elements(chain + [next]) == Elements(chain) + {next}
  {
    hide FirstFallback;
    ElementsGrow(chain, next);
    var q := chain + [next];
    forall i | 0 <= i < |q| - 1 ensures FirstFallback(models, q[i]) == Some(q[i + 1]) { assert q[i] == chain[i]; }
  }

  lemma {:induction false} CloseChain(models: seq<Model>, chain: seq<string>, next: string)
    requires FirstWalk(models, chain) && FirstFallback(models, chain[|chain| - 1]) == Some(next)
    requires next in Elements(chain)
    ensures !Acyclic(models)
  {
    var i :| 0 <= i < |chain| && chain[i] == next;
    CloseFirst(models, chain, i);
    FirstWalkIsWalk(models, chain[i..] + [next]);
    assert IsCycle(models, chain[i..] + [next]);
  }

  lemma {:induction false} FirstPathStops(models: seq<Model>, alias: string, n: nat, m: nat)
    requires n <= m
    requires var p := FirstPath(models, alias, n); FirstFallback(models, p[|p| - 1]).None?
    ensures FirstPath(models, alias, m) == FirstPath(models, alias, n)
    decreases m - n
  {
    if n < m {
      FirstPathGrows(models, alias, n);
      FirstPathStops(models, alias, n + 1, m);
    }
  }
}
