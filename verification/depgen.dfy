/**
labfile/depgen.go: lab.dep's dependency graph, whether it has a cycle, and the order in which its devices can boot.
*/
module Depgen {
  import opened Wrappers
  import opened Ordered

  type Name = string

  /** A device to the devices it depends on, as lab.dep lists them. */
  type Graph = Dict<Name, seq<Name>>

  type Depths = Dict<Name, nat>

  function Deps(g: Graph, v: Name): seq<Name> {
    g.Get(v, [])
  }

  /** u lists v. */
  predicate Edge(g: Graph, u: Name, v: Name) {
    v in Deps(g, u)
  }

  // ----- walks -----

  predicate IsWalk(g: Graph, w: seq<Name>) {
    w != [] && forall i :: 0 <= i < |w| - 1 ==> Edge(g, w[i], w[i + 1])
  }

  predicate IsCycle(g: Graph, w: seq<Name>) {
    IsWalk(g, w) && |w| >= 2 && w[0] == w[|w| - 1]
  }

  ghost predicate Cyclic(g: Graph) {
    exists w :: IsCycle(g, w)
  }

  function Vertices(g: Graph): set<Name> {
    g.values.Keys + set u, v | u in g.values.Keys && v in g.values[u] :: v
  }

  lemma EdgeInGraph(g: Graph, u: Name, v: Name)
    requires Edge(g, u, v)
    ensures u in g.values && v in Vertices(g)
  {
  }

  lemma WalkPart(g: Graph, w: seq<Name>, i: nat, j: nat)
    requires IsWalk(g, w) && i < j <= |w|
    ensures IsWalk(g, w[i..j])
  {
  }

  lemma WalkAppend(g: Graph, w: seq<Name>, v: Name)
    requires IsWalk(g, w) && Edge(g, w[|w| - 1], v)
    ensures IsWalk(g, w + [v])
  {
  }

  lemma WalkPrepend(g: Graph, u: Name, w: seq<Name>)
    requires IsWalk(g, w) && Edge(g, u, w[0])
    ensures IsWalk(g, [u] + w)
  {
  }

  lemma RepeatIsCycle(g: Graph, w: seq<Name>)
    requires IsWalk(g, w) && !Distinct(w)
    ensures Cyclic(g)
  {
    var i, j :| 0 <= i < j < |w| && w[i] == w[j];
    WalkPart(g, w, i, j + 1);
    assert IsCycle(g, w[i..j + 1]);
  }

  // ----- cycle detection -----

  /** A walk from val that meets something again, itself or what has been seen. */
  ghost predicate LoopsFrom(g: Graph, seen: seq<Name>, val: Name) {
    exists w :: IsWalk(g, w) && w[0] == val && !Distinct(seen + w)
  }

  lemma SeenLoops(g: Graph, seen: seq<Name>, val: Name)
    requires val in seen
    ensures LoopsFrom(g, seen, val)
  {
    var i :| 0 <= i < |seen| && seen[i] == val;
    var s := seen + [val];
    assert s[i] == s[|seen|];
    assert IsWalk(g, [val]);
  }

  /** Where val is new, it loops exactly when one of its dependencies does. */
  lemma LoopsOn(g: Graph, seen: seq<Name>, val: Name)
    requires Distinct(seen) && val !in seen
    ensures LoopsFrom(g, seen, val) <==> exists d :: d in Deps(g, val) && LoopsFrom(g, seen + [val], d)
  {
    if LoopsFrom(g, seen, val) {
      var w :| IsWalk(g, w) && w[0] == val && !Distinct(seen + w);
      assert seen + w == seen + [val] + w[1..];
      assert Distinct(seen + [val]) && (|w| == 1 ==> seen + w == seen + [val]);
      WalkPart(g, w, 1, |w|);
      assert Edge(g, w[0], w[1]);
      assert LoopsFrom(g, seen + [val], w[1]);
    }
    if d :| d in Deps(g, val) && LoopsFrom(g, seen + [val], d) {
      var w :| IsWalk(g, w) && w[0] == d && !Distinct(seen + [val] + w);
      WalkPrepend(g, val, w);
      assert seen + [val] + w == seen + ([val] + w);
    }
  }

  /** The recursive half. It ends because seen grows, without repeats, inside the graph. */
  method HasLoopFrom(g: Graph, seen: seq<Name>, val: Name) returns (found: bool)
    requires Distinct(seen) && val in Vertices(g)
    ensures found <==> LoopsFrom(g, seen, val)
    decreases Vertices(g) - set v | v in seen
  {
    if val in seen {
      SeenLoops(g, seen, val);
      return true;
    }
    LoopsOn(g, seen, val);
    var next := Deps(g, val);
    for i := 0 to |next|
      invariant forall k :: 0 <= k < i ==> !LoopsFrom(g, seen + [val], next[k])
    {
      EdgeInGraph(g, val, next[i]);
      assert val in (Vertices(g) - set v | v in seen) && val !in (Vertices(g) - set v | v in seen + [val]);
      var deeper := HasLoopFrom(g, seen + [val], next[i]);
      if deeper { return true; }
    }
    found := false;
  }

  /** True exactly when the graph has a directed cycle. */
  method HasLoop(g: Graph) returns (found: bool)
    requires g.Valid()
    ensures found <==> Cyclic(g)
  {
    for i := 0 to |g.keys|
      invariant forall u, d :: u in g.keys[..i] && d in Deps(g, u) ==> !LoopsFrom(g, [], d)
    {
      var deps := g.values[g.keys[i]];
      for j := 0 to |deps|
        invariant forall k :: 0 <= k < j ==> !LoopsFrom(g, [], deps[k])
      {
        EdgeInGraph(g, g.keys[i], deps[j]);
        found := HasLoopFrom(g, [], deps[j]);
        if found {
          LoopIsCycle(g, deps[j]);
          return true;
        }
      }
    }
    found := false;
    assert g.keys[..|g.keys|] == g.keys;
    NothingLoops(g);
  }

  lemma NothingLoops(g: Graph)
    requires g.Valid()
    requires forall u, d :: u in g.keys && d in Deps(g, u) ==> !LoopsFrom(g, [], d)
    ensures !Cyclic(g)
  {
    if Cyclic(g) {
      var u, d := CycleLoops(g);
    }
  }

  lemma LoopIsCycle(g: Graph, val: Name)
    requires LoopsFrom(g, [], val)
    ensures Cyclic(g)
  {
    var w :| IsWalk(g, w) && w[0] == val && !Distinct([] + w);
    assert [] + w == w;
    RepeatIsCycle(g, w);
  }

  lemma CycleLoops(g: Graph) returns (u: Name, d: Name)
    requires Cyclic(g)
    ensures u in g.values && d in Deps(g, u) && LoopsFrom(g, [], d)
  {
    var w :| IsCycle(g, w);
    u, d := w[0], w[1];
    assert Edge(g, u, d);
    WalkPart(g, w, 1, |w|);
    var c := w[1..] + [d];
    WalkAppend(g, w[1..], d);
    assert c[0] == c[|c| - 1] && [] + c == c;
  }

  // ----- turning the graph round -----

  function AddDependents(deps: seq<Name>, u: Name, acc: Graph): (r: Graph)
    requires acc.Valid()
    ensures r.Valid()
    decreases |deps|
  {
    if deps == [] then acc else AddDependents(deps[1..], u, acc.Set(deps[0], acc.Get(deps[0], []) + [u]))
  }

  function InvertKeys(g: Graph, keys: seq<Name>, acc: Graph): (r: Graph)
    requires acc.Valid()
    ensures r.Valid()
    decreases |keys|
  {
    if keys == [] then acc else InvertKeys(g, keys[1..], AddDependents(Deps(g, keys[0]), keys[0], acc))
  }

  /** A device to the devices that depend on it. */
  function Inverted(g: Graph): (r: Graph)
    ensures r.Valid()
  {
    InvertKeys(g, g.keys, Dict([], map[]))
  }

  predicate NoneEmpty(g: Graph) {
    forall v :: v in g.values ==> g.values[v] != []
  }

  lemma {:induction false} AddDependentsEdges(deps: seq<Name>, u: Name, acc: Graph)
    requires acc.Valid() && NoneEmpty(acc)
    ensures NoneEmpty(AddDependents(deps, u, acc))
    ensures forall v, x :: Edge(AddDependents(deps, u, acc), v, x) <==> Edge(acc, v, x) || (v in deps && x == u)
    decreases |deps|
  {
    if deps != [] {
      DependentAdded(deps[0], u, acc);
      hide Edge, NoneEmpty;
      AddDependentsEdges(deps[1..], u, acc.Set(deps[0], acc.Get(deps[0], []) + [u]));
    }
  }

  lemma DependentAdded(dep: Name, u: Name, acc: Graph)
    requires acc.Valid() && NoneEmpty(acc)
    ensures var next := acc.Set(dep, acc.Get(dep, []) + [u]);
            NoneEmpty(next) && forall v, x :: Edge(next, v, x) <==> Edge(acc, v, x) || (v == dep && x == u)
  {
  }

  lemma {:induction false} InvertKeysEdges(g: Graph, keys: seq<Name>, acc: Graph)
    requires acc.Valid() && NoneEmpty(acc)
    ensures NoneEmpty(InvertKeys(g, keys, acc))
    ensures forall v, u :: Edge(InvertKeys(g, keys, acc), v, u) <==> Edge(acc, v, u) || (u in keys && Edge(g, u, v))
    decreases |keys|
  {
    if keys != [] {
      AddDependentsEdges(Deps(g, keys[0]), keys[0], acc);
      InvertKeysEdges(g, keys[1..], AddDependents(Deps(g, keys[0]), keys[0], acc));
    }
  }

  /** Turning the graph round turns every edge round, and adds or loses none. */
  lemma InvertedEdges(g: Graph)
    requires g.Valid()
    ensures NoneEmpty(Inverted(g))
    ensures forall u, v :: Edge(Inverted(g), v, u) <==> Edge(g, u, v)
  {
    InvertKeysEdges(g, g.keys, Dict([], map[]));
  }

  function Reversed(w: seq<Name>): (r: seq<Name>)
    ensures |r| == |w| && forall i :: 0 <= i < |w| ==> r[i] == w[|w| - 1 - i]
  {
    seq(|w|, i requires 0 <= i < |w| => w[|w| - 1 - i])
  }

  lemma InvertedAcyclic(g: Graph)
    requires g.Valid() && !Cyclic(g)
    ensures !Cyclic(Inverted(g))
  {
    InvertedEdges(g);
    if w :| IsCycle(Inverted(g), w) {
      var r := Reversed(w);
      forall i | 0 <= i < |r| - 1
        ensures Edge(g, r[i], r[i + 1])
      {
        assert Edge(Inverted(g), w[|w| - 2 - i], w[|w| - 2 - i + 1]);
      }
      assert IsCycle(g, r);
    }
  }

  // ----- depths -----

  /** A missing name counts as 0, so a depth of 0 is never entered. */
  function Raised(results: Depths, k: Name, v: nat): (r: Depths)
    requires results.Valid()
    ensures r.Valid() && forall x :: x in r.values <==> x in results.values || (x == k && v > 0)
    ensures forall x :: r.Get(x, 0) == if x == k && v > results.Get(x, 0) then v else results.Get(x, 0)
  {
    if v > results.Get(k, 0) then results.Set(k, v) else results
  }

  function MergeKeys(results: Depths, other: Depths, keys: seq<Name>): (r: Depths)
    requires results.Valid() && forall k :: k in keys ==> k in other.values
    ensures r.Valid()
    ensures forall k :: k in r.values <==> k in results.values || (k in keys && other.values[k] > 0)
    ensures forall k :: r.Get(k, 0) ==
              if k in keys && other.values[k] > results.Get(k, 0) then other.values[k] else results.Get(k, 0)
    decreases |keys|
  {
    if keys == [] then results
    else MergeKeys(Raised(results, keys[0], other.values[keys[0]]), other, keys[1..])
  }

  function MergeMax(results: Depths, other: Depths): (r: Depths)
    requires results.Valid() && other.Valid()
    ensures r.Valid()
    ensures forall k :: k in r.values <==> k in results.values || other.Get(k, 0) > 0
    ensures forall k :: r.Get(k, 0) == if other.Get(k, 0) > results.Get(k, 0) then other.Get(k, 0) else results.Get(k, 0)
  {
    MergeKeys(results, other, other.keys)
  }

  /** The depth of val and of everything below it, walking no walk through path. */
  function OrderFrom(inv: Graph, val: Name, level: nat, path: seq<Name>): (r: Depths)
    requires val !in path
    ensures r.Valid()
    decreases inv.values.Keys - set v | v in path, 0
  {
    var results := Dict([val], map[val := level]);
    var deps := Deps(inv, val);
    if deps == [] then results
    else
      assert val in inv.values.Keys - (set v | v in path) && val !in inv.values.Keys - (set v | v in path + [val]);
      OrderBelow(inv, deps, level + 1, path + [val], results)
  }

  function OrderBelow(inv: Graph, deps: seq<Name>, level: nat, path: seq<Name>, results: Depths): (r: Depths)
    requires results.Valid()
    ensures r.Valid()
    decreases inv.values.Keys - set v | v in path, |deps|
  {
    if deps == [] then results
    else if deps[0] in path then OrderBelow(inv, deps[1..], level, path, results)
    else OrderBelow(inv, deps[1..], level, path, MergeMax(results, OrderFrom(inv, deps[0], level, path)))
  }

  /** A walk that meets nothing twice and nothing of path. */
  predicate Fresh(g: Graph, path: seq<Name>, w: seq<Name>) {
    IsWalk(g, w) && Distinct(w) && forall i :: 0 <= i < |w| ==> w[i] !in path
  }

  function Last(w: seq<Name>): Name
    requires w != []
  {
    w[|w| - 1]
  }

  lemma FreshOn(g: Graph, path: seq<Name>, val: Name, w: seq<Name>)
    requires Fresh(g, path + [val], w) && Edge(g, val, w[0]) && val !in path
    ensures Fresh(g, path, [val] + w) && Last([val] + w) == Last(w)
  {
    WalkPrepend(g, val, w);
    assert forall i :: 0 <= i < |w| ==> w[i] !in path && w[i] != val;
  }

  lemma OneIsFresh(g: Graph, path: seq<Name>, val: Name)
    requires val !in path
    ensures Fresh(g, path, [val])
  {
  }

  /** Every depth found is that of a walk. */
  lemma {:induction false} OrderSound(inv: Graph, val: Name, level: nat, path: seq<Name>, k: Name) returns (w: seq<Name>)
    requires val !in path && k in OrderFrom(inv, val, level, path).values
    ensures Fresh(inv, path, w) && w[0] == val && Last(w) == k
    ensures OrderFrom(inv, val, level, path).values[k] == level + |w| - 1
    decreases inv.values.Keys - set v | v in path, 0
  {
    hide OrderBelow, Distinct;
    var results := Dict([val], map[val := level]);
    var deps := Deps(inv, val);
    w := [val];
    assert Fresh(inv, path, w) by { OneIsFresh(inv, path, val); }
    if deps != [] {
      assert val in inv.values.Keys - (set v | v in path) && val !in inv.values.Keys - (set v | v in path + [val]);
      var own, below := OrderBelowSound(inv, deps, level + 1, path + [val], results, k);
      if !own {
        assert Edge(inv, val, below[0]);
        FreshOn(inv, path, val, below);
        w := [val] + below;
      }
    }
  }

  lemma {:induction false} OrderBelowSound(inv: Graph, deps: seq<Name>, level: nat, path: seq<Name>, results: Depths, k: Name)
    returns (own: bool, w: seq<Name>)
    requires results.Valid() && k in OrderBelow(inv, deps, level, path, results).values
    ensures own ==> k in results.values && OrderBelow(inv, deps, level, path, results).values[k] == results.values[k]
    ensures !own ==> && Fresh(inv, path, w) && w[0] in deps && Last(w) == k
                     && OrderBelow(inv, deps, level, path, results).values[k] == level + |w| - 1
    decreases inv.values.Keys - set v | v in path, |deps|
  {
    own, w := true, [];
    if deps == [] {
    } else if deps[0] in path {
      own, w := OrderBelowSound(inv, deps[1..], level, path, results, k);
    } else {
      var first := OrderFrom(inv, deps[0], level, path);
      own, w := OrderBelowSound(inv, deps[1..], level, path, MergeMax(results, first), k);
      if own && first.Get(k, 0) > results.Get(k, 0) {
        own := false;
        w := OrderSound(inv, deps[0], level, path, k);
      }
    }
  }

  /** No walk is deeper than the depth found. */
  lemma {:induction false} OrderComplete(inv: Graph, level: nat, path: seq<Name>, w: seq<Name>)
    requires level > 0 && Fresh(inv, path, w)
    ensures OrderFrom(inv, w[0], level, path).Get(Last(w), 0) >= level + |w| - 1
    decreases inv.values.Keys - set v | v in path, 0
  {
    var val := w[0];
    var results := Dict([val], map[val := level]);
    var deps := Deps(inv, val);
    if |w| > 1 {
      assert Edge(inv, w[0], w[1]);
      WalkPart(inv, w, 1, |w|);
      assert Fresh(inv, path + [val], w[1..]);
    }
    if deps != [] {
      assert val in inv.values.Keys - (set v | v in path) && val !in inv.values.Keys - (set v | v in path + [val]);
      OrderBelowComplete(inv, deps, level + 1, path + [val], results, w[1..], Last(w));
    }
  }

  lemma {:induction false} OrderBelowComplete(inv: Graph, deps: seq<Name>, level: nat, path: seq<Name>, results: Depths,
                                              w: seq<Name>, k: Name)
    requires level > 0 && results.Valid()
    requires w != [] ==> Fresh(inv, path, w) && Last(w) == k
    ensures OrderBelow(inv, deps, level, path, results).Get(k, 0) >= results.Get(k, 0)
    ensures w != [] && w[0] in deps ==> OrderBelow(inv, deps, level, path, results).Get(k, 0) >= level + |w| - 1
    decreases inv.values.Keys - set v | v in path, |deps|
  {
    if deps == [] {
    } else if deps[0] in path {
      OrderBelowComplete(inv, deps[1..], level, path, results, w, k);
    } else {
      var merged := MergeMax(results, OrderFrom(inv, deps[0], level, path));
      OrderBelowComplete(inv, deps[1..], level, path, merged, w, k);
      if w != [] && w[0] == deps[0] {
        OrderComplete(inv, level, path, w);
      }
    }
  }

  // ----- the depth of every device -----

  /** Every key of the graph is entered, at depth 0 unless something deeper is known. */
  function Seeded(results: Depths, key: Name): (r: Depths)
    requires results.Valid()
    ensures r.Valid() && key in r.values && forall k :: r.Get(k, 0) == results.Get(k, 0)
    ensures forall k :: k in r.values <==> k in results.values || k == key
  {
    if key in results.values then results else results.Set(key, 0)
  }

  function OrderEntry(inv: Graph, key: Name, deps: seq<Name>, results: Depths): (r: Depths)
    requires results.Valid()
    ensures r.Valid()
    decreases |deps|
  {
    if deps == [] then results
    else OrderEntry(inv, key, deps[1..], MergeMax(Seeded(results, key), OrderFrom(inv, deps[0], 1, [])))
  }

  function OrderKeys(inv: Graph, keys: seq<Name>, results: Depths): (r: Depths)
    requires results.Valid()
    ensures r.Valid()
    decreases |keys|
  {
    if keys == [] then results
    else OrderKeys(inv, keys[1..], OrderEntry(inv, keys[0], Deps(inv, keys[0]), results))
  }

  /** Every device on an edge, with its depth. */
  function OrderAll(inv: Graph): (r: Depths)
    ensures r.Valid()
  {
    OrderKeys(inv, inv.keys, Dict([], map[]))
  }

  predicate EndsWalk(inv: Graph, n: Name, depth: nat, w: seq<Name>) {
    IsWalk(inv, w) && Last(w) == n && depth == |w| - 1 && (depth == 0 ==> Deps(inv, n) != [])
  }

  /** Every depth entered is the length of a walk that ends there. */
  ghost predicate Explained(inv: Graph, results: Depths) {
    forall n :: n in results.values ==> exists w :: EndsWalk(inv, n, results.values[n], w)
  }

  lemma StepExplained(inv: Graph, key: Name, dep: Name, results: Depths, n: Name)
    requires results.Valid() && Explained(inv, results) && Edge(inv, key, dep)
    requires n in Seeded(results, key).values || OrderFrom(inv, dep, 1, []).Get(n, 0) > 0
    ensures var merged := MergeMax(Seeded(results, key), OrderFrom(inv, dep, 1, []));
            n in merged.values && exists w :: EndsWalk(inv, n, merged.values[n], w)
  {
    hide OrderFrom, MergeKeys, IsWalk;
    var seeded := Seeded(results, key);
    var first := OrderFrom(inv, dep, 1, []);
    var merged := MergeMax(seeded, first);
    assert n in merged.values && merged.values[n] == merged.Get(n, 0);
    if first.Get(n, 0) > seeded.Get(n, 0) {
      var w := OrderSound(inv, dep, 1, [], n);
      assert IsWalk(inv, [key] + w) by { WalkPrepend(inv, key, w); }
      assert EndsWalk(inv, n, merged.values[n], [key] + w);
    } else if n !in results.values {
      assert IsWalk(inv, [key]) by { OneIsWalk(inv, key); }
      assert EndsWalk(inv, n, 0, [key]);
    }
  }

  lemma OneIsWalk(g: Graph, v: Name)
    ensures IsWalk(g, [v])
  {
  }

  lemma {:induction false} OrderEntryExplained(inv: Graph, key: Name, deps: seq<Name>, results: Depths)
    requires results.Valid() && Explained(inv, results) && forall d :: d in deps ==> Edge(inv, key, d)
    ensures Explained(inv, OrderEntry(inv, key, deps, results))
    decreases |deps|
  {
    hide OrderFrom, MergeKeys, EndsWalk;
    if deps != [] {
      var merged := MergeMax(Seeded(results, key), OrderFrom(inv, deps[0], 1, []));
      forall n | n in merged.values
        ensures exists w :: EndsWalk(inv, n, merged.values[n], w)
      {
        StepExplained(inv, key, deps[0], results, n);
      }
      OrderEntryExplained(inv, key, deps[1..], merged);
    }
  }

  lemma {:induction false} OrderKeysExplained(inv: Graph, keys: seq<Name>, results: Depths)
    requires results.Valid() && Explained(inv, results)
    ensures Explained(inv, OrderKeys(inv, keys, results))
    decreases |keys|
  {
    if keys != [] {
      OrderEntryExplained(inv, keys[0], Deps(inv, keys[0]), results);
      OrderKeysExplained(inv, keys[1..], OrderEntry(inv, keys[0], Deps(inv, keys[0]), results));
    }
  }

  /** A walk from a device's dependent bounds the depth of its end from below. */
  predicate Bounds(results: Depths, key: Name, w: seq<Name>)
    requires w != []
  {
    key in results.values && results.Get(Last(w), 0) >= |w|
  }

  predicate Above(a: Depths, b: Depths) {
    forall k :: k in a.values ==> k in b.values && a.values[k] <= b.values[k]
  }

  lemma SeededBounds(inv: Graph, results: Depths, key: Name, w: seq<Name>)
    requires results.Valid() && w != [] && Fresh(inv, [], w)
    ensures Bounds(MergeMax(Seeded(results, key), OrderFrom(inv, w[0], 1, [])), key, w)
  {
    hide OrderFrom, MergeKeys;
    OrderComplete(inv, 1, [], w);
  }

  lemma {:induction false} OrderEntryComplete(inv: Graph, key: Name, deps: seq<Name>, results: Depths, w: seq<Name>)
    requires results.Valid() && w != [] && Fresh(inv, [], w)
    ensures Above(results, OrderEntry(inv, key, deps, results))
    ensures w[0] in deps ==> Bounds(OrderEntry(inv, key, deps, results), key, w)
    decreases |deps|
  {
    hide OrderFrom, MergeMax, Fresh, Above, Bounds, Seeded;
    if deps == [] {
      AboveTrans(results, results, results);
    } else {
      var first := OrderFrom(inv, deps[0], 1, []);
      var merged := MergeMax(Seeded(results, key), first);
      var r := OrderEntry(inv, key, deps[1..], merged);
      SeededAbove(results, key);
      MergeAbove(Seeded(results, key), first);
      OrderEntryComplete(inv, key, deps[1..], merged, w);
      AboveTrans(results, Seeded(results, key), merged);
      AboveTrans(results, merged, r);
      if w[0] == deps[0] {
        SeededBounds(inv, results, key, w);
        BoundsUp(merged, r, key, w);
      }
    }
  }

  lemma AboveTrans(a: Depths, b: Depths, c: Depths)
    ensures Above(a, a) && (Above(a, b) && Above(b, c) ==> Above(a, c))
  {
  }

  lemma SeededAbove(results: Depths, key: Name)
    requires results.Valid()
    ensures Above(results, Seeded(results, key))
  {
  }

  lemma BoundsUp(a: Depths, b: Depths, key: Name, w: seq<Name>)
    requires w != [] && Above(a, b) && Bounds(a, key, w)
    ensures Bounds(b, key, w)
  {
  }

  lemma MergeAbove(a: Depths, b: Depths)
    requires a.Valid() && b.Valid()
    ensures Above(a, MergeMax(a, b))
  {
    forall k | k in a.values
      ensures a.values[k] <= MergeMax(a, b).values[k]
    {
      assert MergeMax(a, b).Get(k, 0) >= a.Get(k, 0);
    }
  }

  lemma {:induction false} OrderKeysComplete(inv: Graph, keys: seq<Name>, results: Depths, key: Name, w: seq<Name>)
    requires results.Valid() && Fresh(inv, [], w) && Edge(inv, key, w[0])
    ensures Above(results, OrderKeys(inv, keys, results))
    ensures key in keys ==> Bounds(OrderKeys(inv, keys, results), key, w)
    decreases |keys|
  {
    if keys != [] {
      OrderEntryComplete(inv, keys[0], Deps(inv, keys[0]), results, w);
      OrderKeysComplete(inv, keys[1..], OrderEntry(inv, keys[0], Deps(inv, keys[0]), results), key, w);
    }
  }

  // ----- layers -----

  type Layers = Dict<nat, seq<Name>>

  function DepthOf(order: Depths): Name -> int {
    n => order.Get(n, 0)
  }

  function InvertOrderKeys(order: Depths, keys: seq<Name>, acc: Layers): (r: Layers)
    requires acc.Valid() && forall k :: k in keys ==> k in order.values
    ensures r.Valid()
    decreases |keys|
  {
    if keys == [] then acc
    else
      var d := order.values[keys[0]];
      InvertOrderKeys(order, keys[1..], acc.Set(d, acc.Get(d, []) + [keys[0]]))
  }

  function InvertOrder(order: Depths): (r: Layers)
    requires order.Valid()
    ensures r.Valid()
  {
    InvertOrderKeys(order, order.keys, Dict([], map[]))
  }

  lemma {:induction false} LayerFills(order: Depths, keys: seq<Name>, acc: Layers, d: nat)
    requires acc.Valid() && forall k :: k in keys ==> k in order.values
    ensures InvertOrderKeys(order, keys, acc).Get(d, []) == acc.Get(d, []) + OfRank(keys, DepthOf(order), d)
    decreases |keys|
  {
    hide OfRank;
    if keys == [] {
      NoneOfRank(keys, DepthOf(order), d);
    } else {
      var e := order.values[keys[0]];
      var next := acc.Set(e, acc.Get(e, []) + [keys[0]]);
      var rest := OfRank(keys[1..], DepthOf(order), d);
      LayerFills(order, keys[1..], next, d);
      OfRankSplit(keys, DepthOf(order), d);
      FillOne(acc.Get(d, []), keys[0], rest, e == d);
    }
  }

  lemma OfRankSplit(s: seq<Name>, rank: Name -> int, d: int)
    requires s != []
    ensures OfRank(s, rank, d) == if rank(s[0]) == d then [s[0]] + OfRank(s[1..], rank, d) else OfRank(s[1..], rank, d)
  {
    assert s == [s[0]] + s[1..];
    OfRankCons(s[0], s[1..], rank, d);
  }

  lemma FillOne(layer: seq<Name>, k: Name, rest: seq<Name>, there: bool)
    ensures there ==> (layer + [k]) + rest == layer + ([k] + rest)
  {
  }

  lemma {:induction false} NoneOfRank(s: seq<Name>, rank: Name -> int, d: int)
    requires forall k :: k in s ==> rank(k) != d
    ensures OfRank(s, rank, d) == []
  {
    if s != [] { NoneOfRank(s[1..], rank, d); }
  }

  lemma {:induction false} LayersPresent(order: Depths, keys: seq<Name>, acc: Layers, d: nat)
    requires acc.Valid() && forall k :: k in keys ==> k in order.values
    ensures d in InvertOrderKeys(order, keys, acc).values <==>
            d in acc.values || exists k :: k in keys && order.values[k] == d
    decreases |keys|
  {
    if keys != [] {
      var e := order.values[keys[0]];
      LayersPresent(order, keys[1..], acc.Set(e, acc.Get(e, []) + [keys[0]]), d);
    }
  }

  lemma LayerIsOfRank(order: Depths, d: nat)
    requires order.Valid()
    ensures InvertOrder(order).Get(d, []) == OfRank(order.keys, DepthOf(order), d)
  {
    hide OfRank, InvertOrderKeys;
    LayerFills(order, order.keys, Dict([], map[]), d);
  }

  function Concat(layers: Layers, depths: seq<nat>): seq<Name> {
    if depths == [] then [] else layers.Get(depths[0], []) + Concat(layers, depths[1..])
  }

  /** The devices, shallowest layer first. */
  function Flatten(g: Graph): seq<Name> {
    var layers := InvertOrder(OrderAll(Inverted(g)));
    Concat(layers, SortStable(layers.keys, d => d))
  }

  predicate Rising(depths: seq<nat>) {
    forall i, j :: 0 <= i < j < |depths| ==> depths[i] < depths[j]
  }

  lemma NothingAscends(rank: Name -> int)
    ensures Ascending([], rank)
  {
  }

  lemma AscendingConcat(a: seq<Name>, b: seq<Name>, rank: Name -> int, d: int)
    requires (forall n :: n in a ==> rank(n) == d) && Ascending(b, rank) && forall n :: n in b ==> rank(n) > d
    ensures Ascending(a + b, rank)
  {
  }

  lemma {:induction false} ConcatAscends(order: Depths, depths: seq<nat>)
    requires order.Valid() && Rising(depths)
    ensures var all := Concat(InvertOrder(order), depths);
            && Ascending(all, DepthOf(order))
            && forall n :: n in all ==> DepthOf(order)(n) in depths
    decreases |depths|
  {
    hide InvertOrder, OfRank, Ascending, DepthOf;
    if depths == [] {
      NothingAscends(DepthOf(order));
    } else {
      var rank := DepthOf(order);
      var first := InvertOrder(order).Get(depths[0], []);
      var rest := Concat(InvertOrder(order), depths[1..]);
      LayerIsOfRank(order, depths[0]);
      ConcatAscends(order, depths[1..]);
      AscendingConcat(first, rest, rank, depths[0]);
    }
  }

  lemma {:induction false} ConcatOfRank(order: Depths, depths: seq<nat>, d: int)
    requires order.Valid() && Rising(depths)
    ensures OfRank(Concat(InvertOrder(order), depths), DepthOf(order), d) ==
            if d in depths then OfRank(order.keys, DepthOf(order), d) else []
    decreases |depths|
  {
    hide InvertOrder, OfRank, DepthOf;
    var rank := DepthOf(order);
    if depths == [] {
      NoneOfRank([], rank, d);
    } else {
      var first := InvertOrder(order).Get(depths[0], []);
      var rest := Concat(InvertOrder(order), depths[1..]);
      LayerIsOfRank(order, depths[0]);
      ConcatOfRank(order, depths[1..], d);
      OfRankConcat(first, rest, rank, d);
      OfRankTwice(order.keys, rank, depths[0], d);
    }
  }

  lemma {:induction false} OfRankTwice(s: seq<Name>, rank: Name -> int, d: int, e: int)
    ensures OfRank(OfRank(s, rank, d), rank, e) == if d == e then OfRank(s, rank, d) else []
  {
    if s != [] {
      OfRankSplit(s, rank, d);
      OfRankTwice(s[1..], rank, d, e);
      OfRankCons(s[0], OfRank(s[1..], rank, d), rank, e);
    }
  }

  /** Laying out the layers is a stable sort of the devices by depth. */
  lemma FlattenIsStableSort(g: Graph)
    ensures var order := OrderAll(Inverted(g));
            StablySorted(order.keys, Flatten(g), DepthOf(order))
  {
    hide OrderAll, InvertOrder, OfRank, SortStable, Ascending, Rising, DepthOf;
    var order := OrderAll(Inverted(g));
    var layers := InvertOrder(order);
    var depths := SortStable(layers.keys, d => d);
    DepthsRise(layers);
    ConcatAscends(order, depths);
    forall d
      ensures OfRank(Flatten(g), DepthOf(order), d) == OfRank(order.keys, DepthOf(order), d)
    {
      ConcatOfRank(order, depths, d);
      if d !in depths { NoLayer(order, d); }
    }
  }

  lemma DepthsRise(layers: Layers)
    requires layers.Valid()
    ensures Rising(SortStable(layers.keys, d => d))
    ensures forall d :: d in SortStable(layers.keys, d => d) <==> d in layers.values
  {
    hide SortStable, OfRank;
    SortIsPermutation(layers.keys, SortStable(layers.keys, d => d), d => d);
  }

  lemma NoLayer(order: Depths, d: int)
    requires order.Valid() && (d < 0 || d !in InvertOrder(order).values)
    ensures OfRank(order.keys, DepthOf(order), d) == []
  {
    if d >= 0 { LayersPresent(order, order.keys, Dict([], map[]), d); }
    NoneOfRank(order.keys, DepthOf(order), d);
  }

  // ----- what the order is for -----

  ghost predicate OnEdge(g: Graph, n: Name) {
    exists m :: Edge(g, n, m) || Edge(g, m, n)
  }

  /** Of any graph, every device on an edge is listed, once, and no other. */
  lemma FlattenListsOnce(g: Graph)
    requires g.Valid()
    ensures Distinct(Flatten(g))
    ensures forall n :: n in Flatten(g) <==> OnEdge(g, n)
  {
    hide Inverted, OrderAll, Flatten, OnEdge, OfRank;
    var order := OrderAll(Inverted(g));
    FlattenIsStableSort(g);
    SortIsPermutation(order.keys, Flatten(g), DepthOf(order));
    forall n
      ensures n in order.keys <==> OnEdge(g, n)
    {
      OrderedOnEdge(g, n);
    }
  }

  /** The devices that are given a depth are those on an edge. */
  lemma OrderedOnEdge(g: Graph, n: Name)
    requires g.Valid()
    ensures n in OrderAll(Inverted(g)).keys <==> OnEdge(g, n)
  {
    hide Inverted;
    var inv := Inverted(g);
    var order := OrderAll(inv);
    InvertedEdges(g);
    OrderKeysExplained(inv, inv.keys, Dict([], map[]));
    hide OrderAll;
    if n in order.keys {
      var w :| EndsWalk(inv, n, order.values[n], w);
      if |w| > 1 {
        assert Edge(inv, w[|w| - 2], n);
      } else {
        assert Edge(inv, n, Deps(inv, n)[0]);
      }
    } else if OnEdge(g, n) {
      var m :| Edge(g, n, m) || Edge(g, m, n);
      if Edge(g, n, m) { OrderHasEdge(inv, m, n); } else { OrderHasEdge(inv, n, m); }
    }
  }

  lemma OrderHasEdge(inv: Graph, u: Name, v: Name)
    requires inv.Valid() && Edge(inv, u, v)
    ensures u in OrderAll(inv).keys && v in OrderAll(inv).keys
  {
    OrderKeysComplete(inv, inv.keys, Dict([], map[]), u, [v]);
  }

  /** Along an edge of an acyclic graph the depth grows. */
  lemma DepthGrows(inv: Graph, u: Name, v: Name)
    requires inv.Valid() && !Cyclic(inv) && Edge(inv, u, v)
    ensures OrderAll(inv).Get(u, 0) < OrderAll(inv).Get(v, 0)
  {
    var order := OrderAll(inv);
    OrderHasEdge(inv, u, v);
    OrderKeysExplained(inv, inv.keys, Dict([], map[]));
    var w :| EndsWalk(inv, u, order.values[u], w);
    WalkAppend(inv, w, v);
    var longer := w + [v];
    assert Edge(inv, longer[0], longer[1]);
    WalkPart(inv, longer, 1, |longer|);
    if !Distinct(longer[1..]) { RepeatIsCycle(inv, longer[1..]); }
    OrderKeysComplete(inv, inv.keys, Dict([], map[]), longer[0], longer[1..]);
    assert Last(longer[1..]) == v;
  }

  /** Of an acyclic graph, every dependency is listed before what depends on it. */
  lemma FlattenOrders(g: Graph, u: Name, v: Name)
    requires g.Valid() && !Cyclic(g) && Edge(g, u, v)
    ensures u in Flatten(g) && v in Flatten(g) && IndexOf(Flatten(g), v) < IndexOf(Flatten(g), u)
  {
    hide Cyclic, Inverted, OrderAll, Flatten, Edge, OfRank;
    FlattenListsOnce(g);
    DependencyIsDeeper(g, u, v);
    FlattenIsStableSort(g);
    EdgeEnds(g, u, v);
    SortedApart(OrderAll(Inverted(g)).keys, Flatten(g), DepthOf(OrderAll(Inverted(g))), v, u);
  }

  lemma EdgeEnds(g: Graph, u: Name, v: Name)
    requires Edge(g, u, v)
    ensures OnEdge(g, u) && OnEdge(g, v)
  {
    hide Edge;
  }

  lemma DependencyIsDeeper(g: Graph, u: Name, v: Name)
    requires g.Valid() && !Cyclic(g) && Edge(g, u, v)
    ensures DepthOf(OrderAll(Inverted(g)))(v) < DepthOf(OrderAll(Inverted(g)))(u)
  {
    hide Cyclic, Inverted, OrderAll, Edge;
    InvertedEdges(g);
    InvertedAcyclic(g);
    DepthGrows(Inverted(g), v, u);
  }

  /** In a list sorted by rank, what has a lower rank stands before what has a higher one. */
  lemma SortedApart(s: seq<Name>, r: seq<Name>, rank: Name -> int, a: Name, b: Name)
    requires StablySorted(s, r, rank) && a in r && b in r && rank(a) < rank(b)
    ensures IndexOf(r, a) < IndexOf(r, b)
  {
    hide OfRank;
    var i, j := IndexOf(r, a), IndexOf(r, b);
    assert r[i] == a && r[j] == b;
  }

  // ----- the loops themselves -----

  /** Append to the list that a map holds for a key. */
  method AppendTo<K(==, !new)>(lists: OrderedMap<K, seq<Name>>, k: K, name: Name)
    requires lists.zero == []
    modifies lists`keys, lists`values
    ensures lists.Value() == old(lists.Value()).Set(k, old(lists.Value()).Get(k, []) + [name])
  {
    var names, _ := lists.Get(k);
    var _, _ := lists.Set(k, names + [name]);
  }

  method AddDependentsTo(inverted: OrderedMap<Name, seq<Name>>, deps: seq<Name>, u: Name)
    requires inverted.zero == [] && inverted.Value().Valid()
    modifies inverted`keys, inverted`values
    ensures inverted.Value() == AddDependents(deps, u, old(inverted.Value()))
  {
    for j := 0 to |deps|
      invariant inverted.Value().Valid()
      invariant AddDependents(deps[j..], u, inverted.Value()) == AddDependents(deps, u, old(inverted.Value()))
    {
      AppendTo(inverted, deps[j], u);
    }
  }

  method InvertDeps(g: Graph) returns (inverted: OrderedMap<Name, seq<Name>>)
    requires g.Valid()
    ensures fresh(inverted) && inverted.Value() == Inverted(g)
  {
    hide InvertKeys, AddDependents;
    inverted := new OrderedMap([]);
    assert g.keys[0..] == g.keys;
    for i := 0 to |g.keys|
      invariant fresh(inverted) && inverted.zero == [] && inverted.Value().Valid()
      invariant InvertKeys(g, g.keys[i..], inverted.Value()) == Inverted(g)
    {
      InvertNext(g, i, inverted.Value());
      AddDependentsTo(inverted, g.values[g.keys[i]], g.keys[i]);
    }
    InvertNone(g, inverted.Value());
  }

  lemma InvertNext(g: Graph, i: nat, acc: Graph)
    requires i < |g.keys| && acc.Valid()
    ensures InvertKeys(g, g.keys[i..], acc) ==
            InvertKeys(g, g.keys[i + 1..], AddDependents(Deps(g, g.keys[i]), g.keys[i], acc))
  {
    assert g.keys[i..][1..] == g.keys[i + 1..];
  }

  lemma InvertNone(g: Graph, acc: Graph)
    requires acc.Valid()
    ensures InvertKeys(g, g.keys[|g.keys|..], acc) == acc
  {
  }

  method RaiseTo(results: OrderedMap<Name, nat>, k: Name, v: nat)
    requires results.Value().Valid() && results.zero == 0
    modifies results`keys, results`values
    ensures results.Value() == Raised(old(results.Value()), k, v)
  {
    var current, _ := results.Get(k);
    if v > current {
      var _, _ := results.Set(k, v);
    }
  }

  method MergeMaxInto(results: OrderedMap<Name, nat>, other: OrderedMap<Name, nat>)
    requires results != other && results.Value().Valid() && other.Value().Valid() && results.zero == 0
    modifies results`keys, results`values
    ensures results.Value() == MergeMax(old(results.Value()), other.Value())
  {
    hide Raised;
    for i := 0 to |other.keys|
      invariant results.Value().Valid()
      invariant MergeKeys(results.Value(), other.Value(), other.keys[i..]) == MergeMax(old(results.Value()), other.Value())
    {
      RaiseTo(results, other.keys[i], other.values[other.keys[i]]);
    }
  }

  /** Ends even on a graph with cycles: the path of a call holds devices of the graph, and each call adds one. */
  method OrderFromMap(inv: Graph, val: Name, level: nat, path: seq<Name>) returns (results: OrderedMap<Name, nat>)
    requires val !in path
    ensures fresh(results) && results.zero == 0 && results.Value() == OrderFrom(inv, val, level, path)
    decreases inv.values.Keys - set v | v in path, 0
  {
    results := new OrderedMap(0);
    var _, _ := results.Set(val, level);
    assert results.Value() == Dict([val], map[val := level]);
    if Deps(inv, val) != [] {
      assert val in inv.values.Keys - (set v | v in path) && val !in inv.values.Keys - (set v | v in path + [val]);
      OrderBelowInto(inv, Deps(inv, val), level + 1, path + [val], results);
    }
  }

  method OrderBelowInto(inv: Graph, deps: seq<Name>, level: nat, path: seq<Name>, results: OrderedMap<Name, nat>)
    requires results.Value().Valid() && results.zero == 0
    modifies results`keys, results`values
    ensures results.Value() == OrderBelow(inv, deps, level, path, old(results.Value()))
    decreases inv.values.Keys - set v | v in path, 1
  {
    for i := 0 to |deps|
      invariant results.Value().Valid()
      invariant OrderBelow(inv, deps[i..], level, path, results.Value()) ==
                OrderBelow(inv, deps, level, path, old(results.Value()))
    {
      if deps[i] !in path {
        var below := OrderFromMap(inv, deps[i], level, path);
        MergeMaxInto(results, below);
      }
    }
  }

  method OrderEntryInto(inv: Graph, key: Name, results: OrderedMap<Name, nat>)
    requires results.zero == 0 && results.Value().Valid() && key in inv.values
    modifies results`keys, results`values
    ensures results.Value() == OrderEntry(inv, key, inv.values[key], old(results.Value()))
  {
    var deps := inv.values[key];
    for j := 0 to |deps|
      invariant results.Value().Valid()
      invariant OrderEntry(inv, key, deps[j..], results.Value()) == OrderEntry(inv, key, deps, old(results.Value()))
    {
      var _, known := results.Get(key);
      if !known {
        var _, _ := results.Set(key, 0);
      }
      var below := OrderFromMap(inv, deps[j], 1, []);
      MergeMaxInto(results, below);
    }
  }

  method OrderAllMap(inv: Graph) returns (results: OrderedMap<Name, nat>)
    requires inv.Valid()
    ensures fresh(results) && results.Value() == OrderAll(inv)
  {
    hide OrderEntry;
    results := new OrderedMap(0);
    for i := 0 to |inv.keys|
      invariant fresh(results) && results.zero == 0 && results.Value().Valid()
      invariant OrderKeys(inv, inv.keys[i..], results.Value()) == OrderAll(inv)
    {
      OrderEntryInto(inv, inv.keys[i], results);
    }
  }

  method InvertOrderMap(order: Depths) returns (inverted: OrderedMap<nat, seq<Name>>)
    requires order.Valid()
    ensures fresh(inverted) && inverted.zero == [] && inverted.Value() == InvertOrder(order)
  {
    hide InvertOrderKeys;
    inverted := new OrderedMap([]);
    assert order.keys[0..] == order.keys;
    for i := 0 to |order.keys|
      invariant fresh(inverted) && inverted.zero == [] && inverted.Value().Valid()
      invariant InvertOrderKeys(order, order.keys[i..], inverted.Value()) == InvertOrder(order)
    {
      LayerNext(order, i, inverted.Value());
      AppendTo(inverted, order.values[order.keys[i]], order.keys[i]);
    }
    LayerNone(order, inverted.Value());
  }

  lemma LayerNext(order: Depths, i: nat, acc: Layers)
    requires i < |order.keys| && acc.Valid() && order.Valid()
    ensures var d := order.values[order.keys[i]];
            InvertOrderKeys(order, order.keys[i..], acc) ==
            InvertOrderKeys(order, order.keys[i + 1..], acc.Set(d, acc.Get(d, []) + [order.keys[i]]))
  {
    assert order.keys[i..][1..] == order.keys[i + 1..];
  }

  lemma LayerNone(order: Depths, acc: Layers)
    requires acc.Valid()
    ensures InvertOrderKeys(order, order.keys[|order.keys|..], acc) == acc
  {
  }

  method FlattenGraph(g: Graph) returns (output: seq<Name>)
    requires g.Valid()
    ensures output == Flatten(g)
  {
    var inverted := InvertDeps(g);
    var order := OrderAllMap(Dict(inverted.keys, inverted.values));
    var byDepth := InvertOrderMap(Dict(order.keys, order.values));
    var depths := SortStable(byDepth.keys, d => d);
    ghost var layers := byDepth.Value();
    assert layers == InvertOrder(OrderAll(Inverted(g))) && Flatten(g) == Concat(layers, depths);
    output := ConcatLayers(byDepth, depths);
  }

  method ConcatLayers(layers: OrderedMap<nat, seq<Name>>, depths: seq<nat>) returns (output: seq<Name>)
    requires layers.zero == []
    ensures output == Concat(layers.Value(), depths)
  {
    hide Concat;
    output := [];
    ghost var all := layers.Value();
    assert depths[0..] == depths && [] + Concat(all, depths) == Concat(all, depths);
    for i := 0 to |depths|
      invariant output + Concat(all, depths[i..]) == Concat(all, depths)
    {
      ConcatNext(all, depths, i);
      var names, _ := layers.Get(depths[i]);
      Associate(output, names, Concat(all, depths[i + 1..]));
      output := output + names;
    }
    ConcatNone(all, depths);
  }

  lemma ConcatNext(layers: Layers, depths: seq<nat>, i: nat)
    requires i < |depths|
    ensures Concat(layers, depths[i..]) == layers.Get(depths[i], []) + Concat(layers, depths[i + 1..])
  {
    assert depths[i..][1..] == depths[i + 1..];
  }

  lemma ConcatNone(layers: Layers, depths: seq<nat>)
    ensures Concat(layers, depths[|depths|..]) == []
  {
  }
}
