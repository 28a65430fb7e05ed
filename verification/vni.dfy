/**
backend/kubernetes/link.go: network ids for collision domains, by linear probing from the hash of a name. The hash itself
is any function from names to numbers.
*/
module Vni {
  /** The VXLAN id space but for ten reserved ids. */
  const MAX_LINK_NUMBER: nat := 16777216 - 10

  /** The id that a hash gives when `offset` is added before the modulo. */
  function NetworkID(hash: nat, offset: nat): (id: nat)
    ensures id < MAX_LINK_NUMBER
  {
    (hash + offset) % MAX_LINK_NUMBER
  }

  function InRange(reserved: set<int>): set<int> {
    set id | id in reserved && 0 <= id < MAX_LINK_NUMBER
  }

  /** The ids below n. */
  function Below(n: nat): (r: set<int>)
    ensures forall id :: id in r <==> 0 <= id < n
  {
    if n == 0 then {} else Below(n - 1) + {n - 1}
  }

  lemma {:induction false} BelowSize(n: nat)
    ensures |Below(n)| == n
  {
    if n > 0 { BelowSize(n - 1); }
  }

  lemma SubsetSize(a: set<int>, b: set<int>)
    requires a <= b
    ensures |a| <= |b| && (|a| == |b| ==> a == b)
  {
    assert b == a + (b - a);
    if |a| == |b| { assert |b - a| == 0; }
  }

  lemma SmallerMisses(a: set<int>, b: set<int>)
    requires a <= b && |a| < |b|
    ensures b - a != {}
  {
    assert b == a + (b - a);
    assert |b| == |a| + |b - a|;
  }

  /** Pigeonhole: an id is free exactly when fewer than all of them are reserved. */
  lemma FreeExists(reserved: set<int>)
    ensures |InRange(reserved)| < MAX_LINK_NUMBER <==> exists id :: 0 <= id < MAX_LINK_NUMBER && id !in reserved
  {
    BelowSize(MAX_LINK_NUMBER);
    SubsetSize(InRange(reserved), Below(MAX_LINK_NUMBER));
    if |InRange(reserved)| < MAX_LINK_NUMBER {
      SmallerMisses(InRange(reserved), Below(MAX_LINK_NUMBER));
      var id :| id in Below(MAX_LINK_NUMBER) - InRange(reserved);
      assert id !in reserved;
    }
    if id :| 0 <= id < MAX_LINK_NUMBER && id !in reserved {
      assert id in Below(MAX_LINK_NUMBER);
    }
  }

  /** Probing reaches every id within one round. */
  lemma ProbeReaches(hash: nat, id: nat) returns (k: nat)
    requires id < MAX_LINK_NUMBER
    ensures k < MAX_LINK_NUMBER && NetworkID(hash, k) == id
  {
    var start := hash % MAX_LINK_NUMBER;
    var q := hash / MAX_LINK_NUMBER;
    assert hash == q * MAX_LINK_NUMBER + start;
    if id >= start {
      k := id - start;
      ModOf(q, id);
    } else {
      k := id + MAX_LINK_NUMBER - start;
      ModOf(q + 1, id);
      assert hash + k == (q + 1) * MAX_LINK_NUMBER + id;
    }
  }

  lemma ModOf(q: nat, r: nat)
    requires r < MAX_LINK_NUMBER
    ensures (q * MAX_LINK_NUMBER + r) % MAX_LINK_NUMBER == r
  {
  }

  /** k probes are taken and the next is not. */
  predicate FirstFree(hash: nat, reserved: set<int>, k: nat) {
    NetworkID(hash, k) !in reserved && forall j :: 0 <= j < k ==> NetworkID(hash, j) in reserved
  }

  /** The id at the first free probe. */
  ghost predicate FirstFound(hash: nat, reserved: set<int>, id: int) {
    exists k: nat :: FirstFree(hash, reserved, k) && id == NetworkID(hash, k)
  }

  /** Some probe is free exactly when some id is: otherwise the search has no end. */
  lemma SearchEnds(hash: nat, reserved: set<int>)
    ensures (exists k: nat :: NetworkID(hash, k) !in reserved) <==> |InRange(reserved)| < MAX_LINK_NUMBER
  {
    FreeExists(reserved);
    if |InRange(reserved)| < MAX_LINK_NUMBER {
      var id: nat :| id < MAX_LINK_NUMBER && id !in reserved;
      var k := ProbeReaches(hash, id);
      assert NetworkID(hash, k) !in reserved;
    }
  }

  lemma FirstFreeUnique(hash: nat, reserved: set<int>, j: nat, k: nat)
    requires FirstFree(hash, reserved, j) && FirstFree(hash, reserved, k)
    ensures j == k
  {
  }

  class Allocator {
    /** The hash of the cluster user and a name. */
    const hash: string -> nat
    var reserved: set<int>

    constructor (hash: string -> nat, existing: seq<int>)
      ensures this.hash == hash && reserved == set id | id in existing
    {
      this.hash := hash;
      reserved := {};
      new;
      for i := 0 to |existing|
        invariant reserved == set id | id in existing[..i]
      {
        reserved := reserved + {existing[i]};
      }
      assert existing[..|existing|] == existing;
    }

    /** The name's own id when it is free, else the first free one that probing finds. */
    method Allocate(name: string) returns (id: nat)
      requires |InRange(reserved)| < MAX_LINK_NUMBER
      modifies `reserved
      ensures id < MAX_LINK_NUMBER && id !in old(reserved) && reserved == old(reserved) + {id}
      ensures FirstFound(hash(name), old(reserved), id)
      ensures |InRange(reserved)| == |InRange(old(reserved))| + 1
    {
      SearchEnds(hash(name), reserved);
      ghost var free: nat :| NetworkID(hash(name), free) !in reserved;
      id := NetworkID(hash(name), 0);
      var offset := 1;
      while id in reserved
        invariant 1 <= offset <= free + 1 && id == NetworkID(hash(name), offset - 1)
        invariant forall j :: 0 <= j < offset - 1 ==> NetworkID(hash(name), j) in reserved
        decreases free + 1 - offset
      {
        id := NetworkID(hash(name), offset);
        offset := offset + 1;
      }
      assert FirstFree(hash(name), reserved, offset - 1);
      assert InRange(reserved + {id}) == InRange(reserved) + {id};
      reserved := reserved + {id};
    }
  }

  predicate Apart(ids: seq<int>) {
    forall i, j :: 0 <= i < j < |ids| ==> ids[i] != ids[j]
  }

  /** The ids that are taken once the first n links have theirs. */
  function Taken(existing: seq<int>, ids: seq<int>): set<int> {
    (set id | id in existing) + set id | id in ids
  }

  lemma TakenNone(existing: seq<int>)
    ensures Taken(existing, []) == set id | id in existing
  {
  }

  lemma TakenMore(existing: seq<int>, ids: seq<int>, id: int)
    ensures Taken(existing, ids + [id]) == Taken(existing, ids) + {id}
    ensures id !in Taken(existing, ids) ==> id !in existing && id !in ids
  {
  }

  /**
  One pass over the links to deploy. Every id is in range, none is used twice or was in use before, and each link gets the
  first free id from its own hash on, in the order of the links.
  */
  method AllocateAll(hash: string -> nat, names: seq<string>, existing: seq<int>) returns (ids: seq<int>)
    requires |InRange(set id | id in existing)| + |names| <= MAX_LINK_NUMBER
    ensures |ids| == |names| && Apart(ids)
    ensures forall i :: 0 <= i < |ids| ==> 0 <= ids[i] < MAX_LINK_NUMBER && ids[i] !in existing
    ensures forall i :: 0 <= i < |ids| ==>
              FirstFound(hash(names[i]), Taken(existing, ids[..i]), ids[i])
  {
    hide InRange, FirstFound, Taken;
    var allocator := new Allocator(hash, existing);
    ids := [];
    TakenNone(existing);
    for i := 0 to |names|
      invariant |ids| == i && Apart(ids) && fresh(allocator) && allocator.hash == hash
      invariant allocator.reserved == Taken(existing, ids)
      invariant |InRange(allocator.reserved)| == |InRange(set id | id in existing)| + i
      invariant forall j :: 0 <= j < i ==> 0 <= ids[j] < MAX_LINK_NUMBER && ids[j] !in existing
      invariant forall j :: 0 <= j < i ==>
                  FirstFound(hash(names[j]), Taken(existing, ids[..j]), ids[j])
    {
      var id := allocator.Allocate(names[i]);
      TakenMore(existing, ids, id);
      assert (ids + [id])[..i] == ids && forall j :: 0 <= j < i ==> (ids + [id])[..j] == ids[..j];
      ids := ids + [id];
    }
  }

  /** More links than free ids cannot be given ids at all, whatever the order of probing. */
  lemma NoRoom(existing: set<int>, ids: seq<int>)
    requires Apart(ids) && forall i :: 0 <= i < |ids| ==> 0 <= ids[i] < MAX_LINK_NUMBER && ids[i] !in existing
    ensures |InRange(existing)| + |ids| <= MAX_LINK_NUMBER
  {
    var used := set id | id in ids;
    UsedSize(ids);
    BelowSize(MAX_LINK_NUMBER);
    SubsetSize(InRange(existing) + used, Below(MAX_LINK_NUMBER));
    assert InRange(existing) !! used;
  }

  lemma {:induction false} UsedSize(ids: seq<int>)
    requires Apart(ids)
    ensures |set id | id in ids| == |ids|
  {
    if ids != [] {
      var rest := ids[..|ids| - 1];
      UsedSize(rest);
      var used := set id | id in rest;
      assert ids == rest + [ids[|ids| - 1]];
      assert (set id | id in ids) == used + {ids[|ids| - 1]};
    }
  }
}
