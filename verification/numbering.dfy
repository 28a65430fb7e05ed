/**
model/machine.go, checkNumbering: the numbers of a device's interfaces, with that of the bridged one if there is one, must be
0, 1, and so on. The bridged number is a float that the user wrote, and may be anything a float can be.
*/
module Numbering {
  import opened Wrappers

  /** A float as an exact number: big.Float holds infinities too, and a NaN is kept apart. */
  datatype Number = NaN | MinusInfinity | Finite(value: real) | PlusInfinity

  predicate AtMost(a: Number, b: Number) {
    match a
    case NaN => false
    case MinusInfinity => b != NaN
    case PlusInfinity => b == PlusInfinity
    case Finite(x) => match b case Finite(y) => x <= y case PlusInfinity => true case _ => false
  }

  function OfInt(i: int): Number {
    Finite(i as real)
  }

  /** cmpIntFloat: the exact order of an integer and a number. */
  function Compare(i: int, v: Number): int {
    match v
    case Finite(x) => if i as real < x then -1 else if i as real > x then 1 else 0
    case PlusInfinity => -1
    case _ => 1
  }

  function Numbers(ns: seq<int>): (r: seq<Number>)
    ensures |r| == |ns| && forall i :: 0 <= i < |ns| ==> r[i] == OfInt(ns[i])
  {
    seq(|ns|, i requires 0 <= i < |ns| => OfInt(ns[i]))
  }

  predicate Ascending(t: seq<Number>) {
    forall i, j :: 0 <= i < j < |t| ==> AtMost(t[i], t[j])
  }

  /** t lists the numbers of ns and v, in ascending order. */
  predicate SortedWith(t: seq<Number>, ns: seq<int>, v: Number) {
    Ascending(t) && multiset(t) == multiset(Numbers(ns)) + multiset{v}
  }

  /** The first index whose entry is not the index itself, if any. */
  predicate FirstOff(t: seq<Number>, r: Option<nat>) {
    match r
    case None => forall i :: 0 <= i < |t| ==> t[i] == OfInt(i)
    case Some(k) => k < |t| && t[k] != OfInt(k) && forall i :: 0 <= i < k ==> t[i] == OfInt(i)
  }

  predicate StrictlyAscending(ns: seq<int>) {
    forall i, j :: 0 <= i < j < |ns| ==> ns[i] < ns[j]
  }

  // ----- sorting is unique -----

  lemma LastIsGreatest(t: seq<Number>, x: Number)
    requires Ascending(t) && x in t && NaN !in t
    ensures AtMost(x, t[|t| - 1])
  {
    var i :| 0 <= i < |t| && t[i] == x;
  }

  lemma SameLast(a: seq<Number>, b: seq<Number>)
    requires Ascending(a) && Ascending(b) && multiset(a) == multiset(b) && NaN !in a && a != []
    ensures b != [] && NaN !in b && a[|a| - 1] == b[|b| - 1]
  {
    assert a[0] in multiset(b);
    var x, y := a[|a| - 1], b[|b| - 1];
    assert x in multiset(b) && y in multiset(a);
    forall z | z in b
      ensures z != NaN
    {
      assert z in multiset(a);
    }
    LastIsGreatest(b, x);
    LastIsGreatest(a, y);
  }

  lemma WithoutLast(a: seq<Number>)
    requires a != []
    ensures a == a[..|a| - 1] + [a[|a| - 1]] && multiset(a[..|a| - 1]) == multiset(a) - multiset{a[|a| - 1]}
  {
    assert a == a[..|a| - 1] + [a[|a| - 1]];
  }

  lemma {:induction false} SortedUnique(a: seq<Number>, b: seq<Number>)
    requires Ascending(a) && Ascending(b) && multiset(a) == multiset(b) && NaN !in a
    ensures a == b
    decreases |a|
  {
    if a == [] {
      assert |multiset(a)| == |a| && |multiset(b)| == |b|;
    } else {
      SameLast(a, b);
      WithoutLast(a);
      WithoutLast(b);
      hide AtMost;
      SortedUnique(a[..|a| - 1], b[..|b| - 1]);
    }
  }

  // ----- the check -----

  /** The list as the sort of the original sees it, with v in front of the numbers that are not below it. */
  function Placed(ns: seq<int>, v: Number, position: nat): (t: seq<Number>)
    requires position <= |ns|
    ensures |t| == |ns| + 1
    ensures forall i :: 0 <= i <= |ns| ==>
              t[i] == if i < position then OfInt(ns[i]) else if i == position then v else OfInt(ns[i - 1])
  {
    Numbers(ns)[..position] + [v] + Numbers(ns)[position..]
  }

  lemma PlacedSorted(ns: seq<int>, v: Number, position: nat)
    requires StrictlyAscending(ns) && v != NaN && position <= |ns|
    requires forall i :: 0 <= i < |ns| ==> (i < position <==> Compare(ns[i], v) < 0)
    ensures SortedWith(Placed(ns, v, position), ns, v)
  {
    var t := Placed(ns, v, position);
    var all := Numbers(ns);
    assert all == all[..position] + all[position..];
    assert multiset(t) == multiset(all[..position]) + multiset{v} + multiset(all[position..]);
    forall i, j | 0 <= i < j < |t|
      ensures AtMost(t[i], t[j])
    {
      if i != position && j != position {
        var a, b := (if i < position then i else i - 1), if j < position then j else j - 1;
        assert ns[a] < ns[b];
      }
    }
  }

  /** sort.Search: the first index whose number is not below v. */
  method Search(ns: seq<int>, v: Number) returns (position: nat)
    requires StrictlyAscending(ns)
    ensures position <= |ns| && forall i :: 0 <= i < |ns| ==> (i < position <==> Compare(ns[i], v) < 0)
  {
    var lo, hi := 0, |ns|;
    while lo < hi
      invariant 0 <= lo <= hi <= |ns|
      invariant forall i :: 0 <= i < lo ==> Compare(ns[i], v) < 0
      invariant forall i :: hi <= i < |ns| ==> Compare(ns[i], v) >= 0
    {
      var h := lo + (hi - lo) / 2;
      if Compare(ns[h], v) >= 0 {
        hi := h;
      } else {
        lo := h + 1;
      }
    }
    position := lo;
  }

  lemma SameReal(a: int, b: int)
    ensures OfInt(a) == OfInt(b) <==> a == b
  {
    assert (a as real).Floor == a && (b as real).Floor == b;
  }

  lemma CompareZero(i: int, v: Number)
    ensures v != NaN && Compare(i, v) == 0 <==> v == OfInt(i)
  {
  }

  lemma RightAt(ns: seq<int>, v: Number, position: nat, i: nat)
    requires position <= |ns| && i <= |ns|
    ensures Placed(ns, v, position)[i] == OfInt(i) <==>
            if i < position then ns[i] == i else if i == position then v != NaN && Compare(i, v) == 0 else ns[i - 1] == i
  {
    hide Placed;
    if i < position {
      SameReal(ns[i], i);
    } else if i == position {
      CompareZero(i, v);
    } else {
      SameReal(ns[i - 1], i);
    }
  }

  /** The first index at which the list with v placed in it is wrong. */
  method CheckPlaced(ns: seq<int>, v: Number, position: nat) returns (r: Option<nat>)
    requires position <= |ns|
    ensures FirstOff(Placed(ns, v, position), r)
  {
    hide Placed, Numbers, AtMost, OfInt, Compare;
    ghost var t := Placed(ns, v, position);
    for i := 0 to |ns| + 1
      invariant forall k :: 0 <= k < i ==> t[k] == OfInt(k)
    {
      RightAt(ns, v, position, i);
      if i < position {
        if ns[i] != i { return Some(i); }
      } else if i == position {
        if v == NaN || Compare(i, v) != 0 { return Some(i); }
      } else {
        if ns[i - 1] != i { return Some(i); }
      }
    }
    r := None;
  }

  /**
  The first index that is wrong, if any. Without a bridged interface it is that of the numbers themselves; with one, that of
  the numbers sorted together with its own. Nothing is right about a NaN, which stays at the end.
  */
  method CheckNumbering(ns: seq<int>, bridged: Option<Number>) returns (r: Option<nat>)
    requires StrictlyAscending(ns)
    ensures bridged == None ==> FirstOff(Numbers(ns), r)
    ensures bridged == Some(NaN) ==> FirstOff(Numbers(ns) + [NaN], r) && r.Some?
    ensures bridged.Some? && bridged.value != NaN ==> forall t :: SortedWith(t, ns, bridged.value) ==> FirstOff(t, r)
  {
    hide SortedWith, Compare;
    if bridged == None {
      for i := 0 to |ns|
        invariant forall k :: 0 <= k < i ==> ns[k] == k
      {
        if ns[i] != i { return Some(i); }
      }
      return None;
    }
    var v := bridged.value;
    var position := |ns|;
    if v != NaN {
      position := Search(ns, v);
    }
    PlacedMeaning(ns, v, position);
    r := CheckPlaced(ns, v, position);
    assert v == NaN ==> (Numbers(ns) + [NaN])[|ns|] != OfInt(|ns|);
  }

  lemma PlacedMeaning(ns: seq<int>, v: Number, position: nat)
    requires StrictlyAscending(ns) && position <= |ns| && (v == NaN ==> position == |ns|)
    requires v != NaN ==> forall i :: 0 <= i < |ns| ==> (i < position <==> Compare(ns[i], v) < 0)
    ensures v == NaN ==> Placed(ns, v, position) == Numbers(ns) + [NaN]
    ensures v != NaN ==> SortedWith(Placed(ns, v, position), ns, v)
    ensures v != NaN ==> forall t :: SortedWith(t, ns, v) ==> t == Placed(ns, v, position)
  {
    if v == NaN {
      assert Numbers(ns)[..|ns|] == Numbers(ns);
    } else {
      var t0 := Placed(ns, v, position);
      PlacedSorted(ns, v, position);
      forall t | SortedWith(t, ns, v)
        ensures t == t0
      {
        assert NaN !in t0;
        SortedUnique(t0, t);
      }
    }
  }

  /** The check succeeds exactly when the numbers, sorted together, are 0 to n. */
  lemma SucceedsExactly(t: seq<Number>, r: Option<nat>)
    requires FirstOff(t, r)
    ensures r == None <==> t == seq(|t|, i => OfInt(i))
  {
    var all := seq(|t|, i => OfInt(i));
    if r == None {
      assert t == all;
    } else {
      assert all[r.value] == OfInt(r.value);
    }
  }
}
