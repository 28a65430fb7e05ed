/**
model/lab.go, ApplyDependencies: the devices of a lab, reordered so that lab.dep's boot order is kept.
*/
module BootOrder {
  import opened Wrappers
  import opened Ordered
  import opened Depgen

  /** One more than the place a name first takes; 0 for a name that is not listed. */
  function Position(dependencies: seq<Name>, n: Name): nat {
    if n in dependencies then IndexOf(dependencies, n) + 1 else 0
  }

  function Rank(dependencies: seq<Name>): Name -> int {
    n => Position(dependencies, n)
  }

  function PlaceOf(position: map<Name, nat>): Name -> int {
    n => if n in position then position[n] else 0
  }

  method Positions(dependencies: seq<Name>) returns (position: map<Name, nat>)
    ensures forall n :: PlaceOf(position)(n) == Position(dependencies, n)
  {
    position := map[];
    for i := 0 to |dependencies|
      invariant forall n :: n in position <==> n in dependencies[..i]
      invariant forall n :: n in position ==> position[n] == Position(dependencies, n)
    {
      var name := dependencies[i];
      if name !in position {
        FirstPlace(dependencies, i);
        position := position[name := i + 1];
      }
    }
    assert dependencies[..|dependencies|] == dependencies;
  }

  /** Sort the devices of a lab by position, in place. */
  method ApplyDependencies<V>(machines: OrderedMap<Name, V>, dependencies: seq<Name>)
    requires machines.Value().Valid()
    modifies machines`keys
    ensures machines.keys == SortStable(old(machines.keys), Rank(dependencies)) && machines.Value().Valid()
  {
    hide Position, SortStable;
    var position := Positions(dependencies);
    SameRank(machines.keys, PlaceOf(position), Rank(dependencies));
    machines.SortStableFunc(PlaceOf(position));
  }

  lemma FirstPlace(s: seq<Name>, i: nat)
    requires i < |s| && s[i] !in s[..i]
    ensures Position(s, s[i]) == i + 1
  {
  }

  lemma {:induction false} SameInsert(k: Name, s: seq<Name>, a: Name -> int, b: Name -> int)
    requires (forall n :: a(n) == b(n)) && Ascending(s, a) && Ascending(s, b)
    ensures Insert(k, s, a) == Insert(k, s, b)
  {
    if s != [] { SameInsert(k, s[1..], a, b); }
  }

  lemma {:induction false} SameRank(s: seq<Name>, a: Name -> int, b: Name -> int)
    requires forall n :: a(n) == b(n)
    ensures SortStable(s, a) == SortStable(s, b)
  {
    hide Insert, OfRank;
    if s == [] {
      assert SortStable(s, a) == [];
    } else {
      SameRank(s[1..], a, b);
      SameInsert(s[0], SortStable(s[1..], a), a, b);
    }
  }

  /** Devices that lab.dep does not name come first, in their old order. */
  lemma AbsentFirst(keys: seq<Name>, dependencies: seq<Name>)
    ensures var sorted := SortStable(keys, Rank(dependencies));
            var absent := OfRank(keys, Rank(dependencies), 0);
            absent <= sorted && forall i :: |absent| <= i < |sorted| ==> sorted[i] in dependencies
  {
    LeastRankFirst(SortStable(keys, Rank(dependencies)), Rank(dependencies));
    assert StablySorted(keys, SortStable(keys, Rank(dependencies)), Rank(dependencies));
  }

  lemma {:induction false} LeastRankFirst(s: seq<Name>, rank: Name -> int)
    requires Ascending(s, rank) && forall n :: n in s ==> rank(n) >= 0
    ensures var least := OfRank(s, rank, 0); least <= s && forall i :: |least| <= i < |s| ==> rank(s[i]) > 0
  {
    if s != [] {
      LeastRankFirst(s[1..], rank);
      if rank(s[0]) > 0 { NoneOfRank(s, rank, 0); }
    }
  }

  /** Where lab.dep orders two devices of the lab, the lab then holds them in that order. */
  lemma ListedOrder(keys: seq<Name>, dependencies: seq<Name>, u: Name, v: Name)
    requires u in keys && v in keys && u in dependencies && v in dependencies
    requires IndexOf(dependencies, v) < IndexOf(dependencies, u)
    ensures var sorted := SortStable(keys, Rank(dependencies));
            v in sorted && u in sorted && IndexOf(sorted, v) < IndexOf(sorted, u)
  {
    var sorted := SortStable(keys, Rank(dependencies));
    SortIsPermutation(keys, sorted, Rank(dependencies));
    assert Rank(dependencies)(v) < Rank(dependencies)(u);
    var i, j := IndexOf(sorted, v), IndexOf(sorted, u);
    assert Ascending(sorted, Rank(dependencies));
  }

  /**
  What lab.dep is for. Its devices, flattened and applied to a lab: no device is lost or repeated, those it does not name
  come first in their old order, and every device comes after those of the lab that it depends on.
  */
  lemma BootOrderKept(keys: seq<Name>, g: Graph)
    requires Distinct(keys) && g.Valid() && !Cyclic(g)
    ensures var sorted := SortStable(keys, Rank(Flatten(g)));
            && Distinct(sorted) && multiset(sorted) == multiset(keys)
            && OfRank(keys, Rank(Flatten(g)), 0) <= sorted
            && (forall n :: n in OfRank(keys, Rank(Flatten(g)), 0) <==> n in keys && !OnEdge(g, n))
            && forall u, v :: u in keys && v in keys && Edge(g, u, v) ==>
                 v in sorted && u in sorted && IndexOf(sorted, v) < IndexOf(sorted, u)
  {
    var rank := Rank(Flatten(g));
    var sorted := SortStable(keys, rank);
    FlattenListsOnce(g);
    SortIsPermutation(keys, sorted, rank);
    AbsentFirst(keys, Flatten(g));
    hide Flatten, SortStable, OfRank, Edge;
    forall u, v | u in keys && v in keys && Edge(g, u, v)
      ensures v in sorted && u in sorted && IndexOf(sorted, v) < IndexOf(sorted, u)
    {
      FlattenOrders(g, u, v);
      ListedOrder(keys, Flatten(g), u, v);
    }
  }
}
