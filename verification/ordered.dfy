/**
model/ordered.go: a dictionary that remembers the order in which its keys came, and the stable sort that reorders it.
*/
module Ordered {
  import opened Wrappers

  /** keys in insertion order; values holds exactly those keys. */
  datatype Dict<K(==, !new), V> = Dict(keys: seq<K>, values: map<K, V>) {
    ghost predicate Valid() {
      && (forall i, j :: 0 <= i < j < |keys| ==> keys[i] != keys[j])
      && (forall k :: k in keys <==> k in values)
    }

    function Get(k: K, absent: V): V {
      if k in values then values[k] else absent
    }

    /** A new key goes to the end; an old one keeps its place. */
    function Set(k: K, v: V): (r: Dict<K, V>)
      ensures Valid() ==> r.Valid()
      ensures forall x :: x in r.values <==> x in values || x == k
    {
      Dict(if k in values then keys else keys + [k], values[k := v])
    }

    function Delete(k: K): (r: Dict<K, V>)
      requires Valid()
      ensures r.Valid() && r.values == values - {k}
      ensures k !in values ==> r == this
    {
      if k !in values then this
      else
        var i := IndexOf(keys, k);
        Dict(keys[..i] + keys[i + 1..], values - {k})
    }
  }

  function IndexOf<K(==, !new)>(s: seq<K>, k: K): (i: nat)
    requires k in s
    ensures i < |s| && s[i] == k && k !in s[..i]
  {
    if s[0] == k then 0 else IndexOf(s[1..], k) + 1
  }

  /** The first n elements, but for the one at a place. */
  function Omitted<K>(s: seq<K>, at: nat, n: nat): seq<K>
    requires at < |s| && n <= |s|
  {
    if n <= at then s[..n] else s[..at] + s[at + 1..n]
  }

  lemma OmitNext<K>(s: seq<K>, at: nat, n: nat)
    requires at < |s| && n < |s|
    ensures Omitted(s, at, n + 1) == if n == at then Omitted(s, at, n) else Omitted(s, at, n) + [s[n]]
  {
    if n < at {
      assert s[..n + 1] == s[..n] + [s[n]];
    } else if n > at {
      assert s[at + 1..n + 1] == s[at + 1..n] + [s[n]];
      Associate(s[..at], s[at + 1..n], [s[n]]);
    }
  }

  lemma OmitEnd<K>(s: seq<K>, at: nat)
    requires at < |s|
    ensures Omitted(s, at, |s|) == s[..at] + s[at + 1..]
    ensures Omitted(s, at, 0) == []
  {
  }

  /** A key stands at one place only. */
  lemma OnlyPlace<K(!new), V>(d: Dict<K, V>, k: K)
    requires d.Valid() && k in d.values
    ensures k in d.keys && forall i :: 0 <= i < |d.keys| ==> (d.keys[i] == k <==> i == IndexOf(d.keys, k))
  {
    hide IndexOf;
  }

  // ----- stable sorting -----

  predicate Ascending<K(!new)>(s: seq<K>, rank: K -> int) {
    forall i, j :: 0 <= i < j < |s| ==> rank(s[i]) <= rank(s[j])
  }

  /** The elements of one rank, in the order in which they stand. */
  function OfRank<K(!new)>(s: seq<K>, rank: K -> int, d: int): (r: seq<K>)
    ensures forall k :: k in r <==> k in s && rank(k) == d
  {
    if s == [] then [] else (if rank(s[0]) == d then [s[0]] else []) + OfRank(s[1..], rank, d)
  }

  /** The same elements, equals in the same order, ranks ascending. */
  ghost predicate StablySorted<K(!new)>(before: seq<K>, after: seq<K>, rank: K -> int) {
    Ascending(after, rank) && forall d :: OfRank(after, rank, d) == OfRank(before, rank, d)
  }

  function Insert<K(!new)>(k: K, s: seq<K>, rank: K -> int): (r: seq<K>)
    requires Ascending(s, rank)
    ensures Ascending(r, rank)
    ensures forall x :: x in r <==> x == k || x in s
  {
    if s == [] || rank(k) <= rank(s[0]) then [k] + s
    else
      var rest := Insert(k, s[1..], rank);
      assert forall x :: x in s[1..] ==> rank(s[0]) <= rank(x);
      [s[0]] + rest
  }

  function SortStable<K(!new)>(s: seq<K>, rank: K -> int): (r: seq<K>)
    ensures StablySorted(s, r, rank)
  {
    if s == [] then []
    else
      var rest := SortStable(s[1..], rank);
      InsertRanks(s[0], rest, rank);
      assert forall d :: OfRank(s, rank, d) == (if rank(s[0]) == d then [s[0]] else []) + OfRank(s[1..], rank, d);
      Insert(s[0], rest, rank)
  }

  lemma OfRankCons<K(!new)>(k: K, s: seq<K>, rank: K -> int, d: int)
    ensures OfRank([k] + s, rank, d) == if rank(k) == d then [k] + OfRank(s, rank, d) else OfRank(s, rank, d)
  {
    assert ([k] + s)[1..] == s;
  }

  /** An element goes before its equals. */
  lemma {:induction false} InsertRank<K(!new)>(k: K, s: seq<K>, rank: K -> int, d: int)
    requires Ascending(s, rank)
    ensures OfRank(Insert(k, s, rank), rank, d) == OfRank([k] + s, rank, d)
  {
    hide OfRank;
    if s == [] {
      assert [k] + s == [k];
    } else if rank(k) > rank(s[0]) {
      InsertRank(k, s[1..], rank, d);
      HeadTail(s);
      OfRankCons(s[0], Insert(k, s[1..], rank), rank, d);
      OfRankCons(k, s[1..], rank, d);
      OfRankCons(s[0], s[1..], rank, d);
      OfRankCons(k, s, rank, d);
    }
  }

  lemma InsertRanks<K(!new)>(k: K, s: seq<K>, rank: K -> int)
    requires Ascending(s, rank)
    ensures forall d :: OfRank(Insert(k, s, rank), rank, d) == (if rank(k) == d then [k] else []) + OfRank(s, rank, d)
  {
    forall d
      ensures OfRank(Insert(k, s, rank), rank, d) == (if rank(k) == d then [k] else []) + OfRank(s, rank, d)
    {
      InsertRank(k, s, rank, d);
      OfRankCons(k, s, rank, d);
    }
  }

  lemma {:induction false} OfRankConcat<K(!new)>(a: seq<K>, b: seq<K>, rank: K -> int, d: int)
    ensures OfRank(a + b, rank, d) == OfRank(a, rank, d) + OfRank(b, rank, d)
  {
    if a == [] {
      assert a + b == b;
    } else {
      assert (a + b)[1..] == a[1..] + b;
      OfRankConcat(a[1..], b, rank, d);
    }
  }

  /** There is only one stable sort of a list. */
  lemma {:induction false} StableUnique<K(!new)>(s: seq<K>, a: seq<K>, b: seq<K>, rank: K -> int)
    requires StablySorted(s, a, rank) && StablySorted(s, b, rank)
    ensures a == b
  {
    SameRanksSame(a, b, rank);
  }

  lemma FirstOfRank<K(!new)>(s: seq<K>, rank: K -> int)
    requires s != []
    ensures var own := OfRank(s, rank, rank(s[0])); own != [] && own[0] == s[0]
    ensures forall d :: OfRank(s, rank, d) == (if rank(s[0]) == d then [s[0]] else []) + OfRank(s[1..], rank, d)
  {
  }

  lemma FirstIsLeast<K(!new)>(s: seq<K>, rank: K -> int, k: K)
    requires Ascending(s, rank) && k in s
    ensures rank(s[0]) <= rank(k)
  {
  }

  lemma SameFirst<K(!new)>(a: seq<K>, b: seq<K>, rank: K -> int)
    requires Ascending(a, rank) && Ascending(b, rank)
    requires forall d :: OfRank(a, rank, d) == OfRank(b, rank, d)
    requires a != []
    ensures b != [] && a[0] == b[0]
  {
    hide OfRank, Ascending;
    assert a[0] in OfRank(a, rank, rank(a[0])) && a[0] in OfRank(b, rank, rank(a[0]));
    assert b[0] in OfRank(b, rank, rank(b[0])) && b[0] in OfRank(a, rank, rank(b[0]));
    FirstIsLeast(a, rank, b[0]);
    FirstIsLeast(b, rank, a[0]);
    FirstOfRank(a, rank);
    FirstOfRank(b, rank);
  }

  lemma {:induction false} SameRanksSame<K(!new)>(a: seq<K>, b: seq<K>, rank: K -> int)
    requires Ascending(a, rank) && Ascending(b, rank)
    requires forall d :: OfRank(a, rank, d) == OfRank(b, rank, d)
    ensures a == b
    decreases |a|
  {
    hide OfRank;
    if a == [] {
      if b != [] { SameFirst(b, a, rank); }
    } else {
      SameFirst(a, b, rank);
      forall d
        ensures OfRank(a[1..], rank, d) == OfRank(b[1..], rank, d)
      {
        FirstOfRank(a, rank);
        FirstOfRank(b, rank);
        SameTail(a[0], OfRank(a[1..], rank, d), OfRank(b[1..], rank, d), rank(a[0]) == d);
        assert OfRank(a, rank, d) == OfRank(b, rank, d);
      }
      SameRanksSame(a[1..], b[1..], rank);
      assert a == [a[0]] + a[1..] && b == [b[0]] + b[1..];
    }
  }

  lemma SameTail<K(!new)>(k: K, a: seq<K>, b: seq<K>, there: bool)
    ensures (if there then [k] else []) + a == (if there then [k] else []) + b ==> a == b
  {
    assert ([k] + a)[1..] == a && ([k] + b)[1..] == b;
    assert [] + a == a && [] + b == b;
  }

  /** Sorting neither loses nor repeats anything. */
  lemma {:induction false} SortIsPermutation<K(!new)>(s: seq<K>, a: seq<K>, rank: K -> int)
    requires StablySorted(s, a, rank)
    ensures multiset(a) == multiset(s)
    ensures forall k :: k in a <==> k in s
    ensures Distinct(s) ==> Distinct(a)
  {
    StableUnique(s, a, SortStable(s, rank), rank);
    SortKeepsAll(s, rank);
    assert Distinct(s) ==> Distinct(a) by {
      if Distinct(s) && !Distinct(a) {
        var i, j :| 0 <= i < j < |a| && a[i] == a[j];
        TwiceIn(a, i, j);
        OnceIn(s, a[i]);
      }
    }
    forall k
      ensures k in a <==> k in s
    {
      assert k in multiset(a) <==> k in multiset(s);
    }
  }

  lemma {:induction false} SortKeepsAll<K(!new)>(s: seq<K>, rank: K -> int)
    ensures multiset(SortStable(s, rank)) == multiset(s)
  {
    if s != [] {
      SortKeepsAll(s[1..], rank);
      InsertAdds(s[0], SortStable(s[1..], rank), rank);
      assert s == [s[0]] + s[1..];
    }
  }

  lemma {:induction false} InsertAdds<K(!new)>(k: K, s: seq<K>, rank: K -> int)
    requires Ascending(s, rank)
    ensures multiset(Insert(k, s, rank)) == multiset(s) + multiset{k}
  {
    if s == [] || rank(k) <= rank(s[0]) {
      assert Insert(k, s, rank) == [k] + s;
    } else {
      InsertAdds(k, s[1..], rank);
      assert s == [s[0]] + s[1..];
      assert Insert(k, s, rank) == [s[0]] + Insert(k, s[1..], rank);
      hide Insert;
    }
  }

  lemma TwiceIn<K(!new)>(s: seq<K>, i: nat, j: nat)
    requires i < j < |s| && s[i] == s[j]
    ensures multiset(s)[s[i]] >= 2
  {
    assert s == s[..i] + [s[i]] + s[i + 1..j] + [s[j]] + s[j + 1..];
  }

  lemma {:induction false} OnceIn<K(!new)>(s: seq<K>, k: K)
    requires Distinct(s)
    ensures multiset(s)[k] <= 1
  {
    if s != [] {
      OnceIn(s[1..], k);
      assert s == [s[0]] + s[1..];
      if s[0] == k {
        assert k !in s[1..];
      }
    }
  }

  // ----- the object -----

  /** The dictionary as the object whose methods change it in place. */
  class OrderedMap<K(==, !new), V> {
    var keys: seq<K>
    var values: map<K, V>
    /** What reading an absent key gives. */
    const zero: V

    constructor (zero: V)
      ensures Value() == Dict([], map[]) && this.zero == zero
    {
      keys, values := [], map[];
      this.zero := zero;
    }

    ghost function Value(): Dict<K, V>
      reads this
    {
      Dict(keys, values)
    }

    method Get(k: K) returns (v: V, found: bool)
      ensures v == Value().Get(k, zero) && (found <==> k in Value().values)
    {
      found := k in values;
      v := if found then values[k] else zero;
    }

    method Set(k: K, v: V) returns (previous: V, existed: bool)
      modifies `keys, `values
      ensures Value() == old(Value()).Set(k, v)
      ensures previous == old(Value()).Get(k, zero) && (existed <==> k in old(values))
    {
      existed := k in values;
      previous := if existed then values[k] else zero;
      if !existed {
        keys := keys + [k];
      }
      values := values[k := v];
    }

    method Delete(k: K) returns (existed: bool)
      requires Value().Valid()
      modifies `keys, `values
      ensures Value() == old(Value()).Delete(k) && Value().Valid()
      ensures existed <==> k in old(values)
    {
      hide IndexOf;
      if k !in values { return false; }
      OnlyPlace(Value(), k);
      values := values - {k};
      var kept: seq<K> := [];
      ghost var at := IndexOf(keys, k);
      for i := 0 to |keys|
        invariant unchanged(`keys) && values == old(values) - {k} && kept == Omitted(keys, at, i)
      {
        OmitNext(keys, at, i);
        if keys[i] != k {
          kept := kept + [keys[i]];
        }
      }
      OmitEnd(keys, at);
      keys := kept;
      existed := true;
    }

    /** Reorder in place; equal elements keep their relative order. */
    method SortStableFunc(rank: K -> int)
      requires Value().Valid()
      modifies `keys
      ensures StablySorted(old(keys), keys, rank) && keys == SortStable(old(keys), rank)
      ensures Value().Valid()
    {
      SortIsPermutation(keys, SortStable(keys, rank), rank);
      keys := SortStable(keys, rank);
    }
  }
}
