/**
vfs/memory.go and vfs/walk.go: the file system in memory as an object, its writers, and the sorted lists of what a walk finds.
*/
module MemFs {
  import opened Wrappers
  import opened Tree

  // ----- names in order -----

  /** Byte order, which for well-formed text is the order of its characters. */
  predicate Leq(a: string, b: string) {
    a == "" || (b != "" && (a[0] < b[0] || (a[0] == b[0] && Leq(a[1..], b[1..]))))
  }

  lemma {:induction false} LeqTotal(a: string, b: string)
    ensures Leq(a, b) || Leq(b, a)
    ensures Leq(a, b) && Leq(b, a) ==> a == b
    decreases |a|
  {
    if a != "" && b != "" {
      LeqTotal(a[1..], b[1..]);
      assert a == [a[0]] + a[1..] && b == [b[0]] + b[1..];
    }
  }

  lemma {:induction false} LeqTrans(a: string, b: string, c: string)
    requires Leq(a, b) && Leq(b, c)
    ensures Leq(a, c)
    decreases |a|
  {
    if a != "" && a[0] == b[0] && b[0] == c[0] { LeqTrans(a[1..], b[1..], c[1..]); }
  }

  predicate Sorted(s: seq<string>) {
    forall i, j :: 0 <= i < j < |s| ==> Leq(s[i], s[j])
  }

  function Insert(x: string, s: seq<string>): (r: seq<string>)
    ensures forall y :: y in r <==> y == x || y in s
  {
    if s == [] || Leq(x, s[0]) then [x] + s else [s[0]] + Insert(x, s[1..])
  }

  lemma {:induction false} InsertSorted(x: string, s: seq<string>)
    requires Sorted(s)
    ensures Sorted(Insert(x, s))
  {
    if s != [] {
      LeqTotal(x, s[0]);
      if Leq(x, s[0]) {
        forall y | y in s
          ensures Leq(x, y)
        {
          FirstLeast(s, y);
          LeqTrans(x, s[0], y);
        }
      } else {
        InsertSorted(x, s[1..]);
        forall y | y in Insert(x, s[1..])
          ensures Leq(s[0], y)
        {
          if y in s[1..] { FirstLeast(s, y); }
        }
      }
      hide Leq;
    }
  }

  lemma FirstLeast(s: seq<string>, y: string)
    requires Sorted(s) && y in s
    ensures Leq(s[0], y)
  {
    LeqTotal(y, y);
  }

  /** sort.Strings. */
  function SortStrings(s: seq<string>): (r: seq<string>)
    ensures forall y :: y in r <==> y in s
  {
    if s == [] then [] else Insert(s[0], SortStrings(s[1..]))
  }

  lemma {:induction false} SortSorted(s: seq<string>)
    ensures Sorted(SortStrings(s))
  {
    if s != [] {
      SortSorted(s[1..]);
      InsertSorted(s[0], SortStrings(s[1..]));
    }
  }

  lemma {:induction false} InsertDistinct(x: string, s: seq<string>)
    requires Distinct(s) && x !in s
    ensures Distinct(Insert(x, s))
  {
    hide Leq;
    if s != [] && !Leq(x, s[0]) {
      InsertDistinct(x, s[1..]);
      assert s[0] !in s[1..];
    }
  }

  lemma {:induction false} SortDistinct(s: seq<string>)
    requires Distinct(s)
    ensures Distinct(SortStrings(s))
  {
    if s != [] {
      SortDistinct(s[1..]);
      assert s[0] !in s[1..];
      InsertDistinct(s[0], SortStrings(s[1..]));
    }
  }

  /** The strings of a set, each once and in order. */
  ghost predicate ListsInOrder(r: seq<string>, all: set<string>) {
    Sorted(r) && Distinct(r) && forall x :: x in r <==> x in all
  }

  lemma SortLists(s: seq<string>)
    requires Distinct(s)
    ensures ListsInOrder(SortStrings(s), set x | x in s) && |SortStrings(s)| == |s|
  {
    SortSorted(s);
    SortDistinct(s);
    SortLength(s);
  }

  lemma {:induction false} SortLength(s: seq<string>)
    ensures |SortStrings(s)| == |s|
  {
    if s != [] {
      SortLength(s[1..]);
      InsertLength(s[0], SortStrings(s[1..]));
    }
  }

  lemma {:induction false} InsertLength(x: string, s: seq<string>)
    ensures |Insert(x, s)| == |s| + 1
  {
    if s != [] && !Leq(x, s[0]) { InsertLength(x, s[1..]); }
  }

  // ----- paths as text -----

  predicate IsName(n: string) {
    n != "" && '/' !in n
  }

  predicate IsClean(p: Path) {
    forall i :: 0 <= i < |p| ==> IsName(p[i])
  }

  function Joined(p: Path): string {
    if p == [] then "." else if |p| == 1 then p[0] else p[0] + "/" + Joined(p[1..])
  }

  /** The part of a text before its first `/`. */
  function Head(s: string): string {
    if s == "" || s[0] == '/' then "" else [s[0]] + Head(s[1..])
  }

  lemma {:induction false} HeadOf(n: string, rest: string)
    requires '/' !in n
    ensures Head(n + "/" + rest) == n && Head(n) == n
  {
    if n == "" {
      assert n + "/" + rest == "/" + rest;
    } else {
      assert (n + "/" + rest)[1..] == n[1..] + "/" + rest;
      HeadOf(n[1..], rest);
      assert n == [n[0]] + n[1..];
    }
  }

  /** Below the root, different paths are different texts. */
  lemma {:induction false} JoinedInjective(p: Path, q: Path)
    requires IsClean(p) && IsClean(q) && p != [] && q != [] && Joined(p) == Joined(q)
    ensures p == q
    decreases |p|
  {
    HeadOf(p[0], if |p| == 1 then "" else Joined(p[1..]));
    HeadOf(q[0], if |q| == 1 then "" else Joined(q[1..]));
    assert p[0] == q[0];
    if |p| > 1 && |q| > 1 {
      assert Joined(p)[|p[0]| + 1..] == Joined(p[1..]) && Joined(q)[|q[0]| + 1..] == Joined(q[1..]);
      JoinedInjective(p[1..], q[1..]);
      assert p == [p[0]] + p[1..] && q == [q[0]] + q[1..];
    } else {
      assert |Joined(p)| == |p[0]| <==> |p| == 1;
      assert |Joined(q)| == |q[0]| <==> |q| == 1;
    }
  }

  // ----- what lies under a path -----

  function Under(fs: Nodes, dir: Path): set<Path> {
    set p | p in fs && dir <= p
  }

  lemma UnderChild(fs: Nodes, dir: Path, name: string)
    requires dir in fs
    ensures Under(fs, dir + [name]) < Under(fs, dir)
  {
    assert dir in Under(fs, dir) && dir !in Under(fs, dir + [name]);
    forall p | p in Under(fs, dir + [name])
      ensures p in Under(fs, dir)
    {
      assert dir <= dir + [name] <= p;
    }
  }

  /** In a tree, what lies under a directory is itself, and what lies under its children. */
  lemma UnderSplit(fs: Nodes, dir: Path, p: Path)
    requires IsTree(fs) && p in Under(fs, dir) && p != dir
    ensures dir + [p[|dir|]] in fs && dir + [p[|dir|]] <= p
  {
    hide IsTree;
    var child := p[..|dir| + 1];
    assert child == dir + [p[|dir|]];
    assert p[..|p|] == p;
    if child !in fs { MissingBelow(fs, p, |dir| + 1, |p|); }
  }

  lemma UnderFile(fs: Nodes, p: Path)
    requires IsTree(fs) && p in fs && fs[p].File?
    ensures Under(fs, p) == {p}
  {
    FileHasNoChildren(fs, p);
    forall q | q in Under(fs, p)
      ensures q == p
    {
      if q != p {
        var child := p + [q[|p|]];
        assert IsChild(child, p);
        assert child !in Children(fs, p);
        UnderSplit(fs, p, q);
      }
    }
  }

  lemma ChildByName(dir: Path, p: Path)
    requires IsChild(p, dir)
    ensures p == dir + [p[|p| - 1]] && |p| == |dir| + 1
  {
  }

  lemma NamedBy(dir: Path, p: Path)
    ensures forall n :: dir + [n] == p <==> IsChild(p, dir) && p[|p| - 1] == n
  {
    forall n
      ensures dir + [n] == p <==> IsChild(p, dir) && p[|p| - 1] == n
    {
      if IsChild(p, dir) { ChildByName(dir, p); }
      assert Parent(dir + [n]) == dir && (dir + [n])[|dir|] == n;
    }
  }

  function Names(fs: Nodes, dir: Path): set<string> {
    set p | p in Children(fs, dir) :: p[|p| - 1]
  }

  lemma NameIsChild(fs: Nodes, dir: Path, name: string)
    ensures name in Names(fs, dir) <==> dir + [name] in fs
  {
    var child := dir + [name];
    assert child[|child| - 1] == name && Parent(child) == dir;
    if child in fs { assert child in Children(fs, dir); }
    if name in Names(fs, dir) {
      var p :| p in Children(fs, dir) && p[|p| - 1] == name;
      ChildByName(dir, p);
    }
  }

  lemma NoNamesNoChildren(fs: Nodes, p: Path, names: seq<string>)
    requires ListsInOrder(names, Names(fs, p))
    ensures |names| > 0 <==> Children(fs, p) != {}
  {
    if q :| q in Children(fs, p) { assert q[|q| - 1] in names; }
    if |names| > 0 {
      assert names[0] in Names(fs, p);
      NameIsChild(fs, p, names[0]);
      assert IsChild(p + [names[0]], p);
      assert p + [names[0]] in Children(fs, p);
    }
  }

  /** What the callback keeps of the nodes under a path: files, or directories other than the root of the walk. */
  function Found(fs: Nodes, p: Path, root: Path, wantDirs: bool): set<Path> {
    set q | q in Under(fs, p) && Wanted(fs[q], q, root, wantDirs)
  }

  predicate Wanted(n: Node, q: Path, root: Path, wantDirs: bool) {
    if n == Dir then wantDirs && q != root else !wantDirs
  }

  /** The part of the walk that the first few children make up. */
  function FoundAmong(fs: Nodes, p: Path, root: Path, wantDirs: bool, names: seq<string>): set<Path> {
    set q | q in Found(fs, p, root, wantDirs) && (q == p || q[|p|] in names)
  }

  lemma FoundNone(fs: Nodes, p: Path, root: Path, wantDirs: bool)
    requires p in fs
    ensures FoundAmong(fs, p, root, wantDirs, []) == if Wanted(fs[p], p, root, wantDirs) then {p} else {}
  {
  }

  lemma FoundNext(fs: Nodes, p: Path, root: Path, wantDirs: bool, names: seq<string>, i: nat)
    requires i < |names| && Distinct(names)
    ensures FoundAmong(fs, p, root, wantDirs, names[..i + 1]) ==
            FoundAmong(fs, p, root, wantDirs, names[..i]) + Found(fs, p + [names[i]], root, wantDirs)
    ensures FoundAmong(fs, p, root, wantDirs, names[..i]) !! Found(fs, p + [names[i]], root, wantDirs)
  {
    var child := p + [names[i]];
    forall q | q in fs
      ensures child <= q <==> p <= q && q != p && q[|p|] == names[i]
    {
    }
    assert forall n :: n in names[..i + 1] <==> n in names[..i] || n == names[i];
    assert names[i] !in names[..i];
  }

  lemma FoundAll(fs: Nodes, p: Path, root: Path, wantDirs: bool, names: seq<string>)
    requires IsTree(fs) && ListsInOrder(names, Names(fs, p))
    ensures FoundAmong(fs, p, root, wantDirs, names) == Found(fs, p, root, wantDirs)
  {
    forall q | q in Found(fs, p, root, wantDirs) && q != p
      ensures q[|p|] in names
    {
      UnderSplit(fs, p, q);
      NameIsChild(fs, p, q[|p|]);
    }
  }

  /** A list of paths, each once. */
  ghost predicate ListsOnce(r: seq<Path>, all: set<Path>) {
    Distinct(r) && forall q :: q in r <==> q in all
  }

  lemma ListsJoin(a: seq<Path>, b: seq<Path>, s: set<Path>, t: set<Path>)
    requires ListsOnce(a, s) && ListsOnce(b, t) && s !! t
    ensures ListsOnce(a + b, s + t)
  {
    forall i, j | 0 <= i < j < |a + b|
      ensures (a + b)[i] != (a + b)[j]
    {
      assert (a + b)[i] in s || (a + b)[i] in t;
      if i < |a| <= j { assert (a + b)[j] in b && (a + b)[i] in a; }
    }
  }

  // ----- the object -----

  class MemFS {
    /** From cleaned path to node; the root is always there. */
    var nodes: Nodes

    constructor ()
      ensures Valid() && nodes == map[[] := Dir]
    {
      nodes := map[[] := Dir];
    }

    ghost predicate Valid()
      reads this
    {
      IsTree(nodes) && forall p :: p in nodes ==> IsClean(p)
    }

    method OpenWrite(p: Path, append: bool) returns (w: MemWriter?, error: Option<Error>)
      requires IsClean(p)
      modifies this
      ensures nodes == Tree.OpenWrite(old(nodes), p, append).0 && error == Tree.OpenWrite(old(nodes), p, append).1
      ensures error == None ==> w != null && fresh(w) && w.fsys == this && w.path == p && !w.closed
                                && w.text == Tree.OpenWrite(old(nodes), p, append).2
      ensures old(Valid()) ==> Valid()
    {
      if old(Valid()) { OpenKeeps(nodes, p, append); }
      w, error := null, None;
      if p in nodes && nodes[p] == Dir { return null, Some(FileExpected); }
      var parent := Parent(p);
      if parent !in nodes || nodes[parent] != Dir { return null, Some(NotExist); }
      if append && p in nodes {
        w := new MemWriter(this, p, nodes[p].data);
        return;
      }
      nodes := nodes[p := File([])];
      w := new MemWriter(this, p, []);
    }

    method MkdirAll(p: Path) returns (error: Option<Error>)
      requires Valid() && IsClean(p)
      modifies this
      ensures (nodes, error) == Tree.MkdirAll(old(nodes), p)
      ensures Valid() && (error.Some? ==> nodes == old(nodes))
    {
      assert p[..0] == [];
      MkdirFromKeeps(nodes, p, 0);
      MkdirAllOrNothing(nodes, p, 0);
      ghost var all := Tree.MkdirAll(nodes, p);
      for i := 0 to |p|
        invariant MkdirFrom(nodes, p, i) == all
        invariant forall q :: q in nodes ==> IsClean(q)
      {
        var cur := p[..i + 1];
        if cur in nodes {
          if nodes[cur] != Dir { return Some(DirectoryExpected); }
        } else {
          nodes := nodes[cur := Dir];
        }
      }
      error := None;
    }

    /** The names of what lies directly in a directory, in order. The map gives its keys in no particular one. */
    method ChildrenLocked(dir: Path) returns (names: seq<string>)
      ensures ListsInOrder(names, Names(nodes, dir))
    {
      var left := nodes.Keys;
      names := [];
      while left != {}
        invariant left <= nodes.Keys && Distinct(names)
        invariant forall n :: n in names <==> dir + [n] in nodes.Keys - left
        decreases |left|
      {
        var p :| p in left;
        if p != [] && p[..|p| - 1] == dir {
          ChildByName(dir, p);
          names := names + [p[|p| - 1]];
        }
        assert forall n :: dir + [n] == p <==> IsChild(p, dir) && p[|p| - 1] == n by { NamedBy(dir, p); }
        left := left - {p};
      }
      forall n
        ensures n in names <==> n in Names(nodes, dir)
      {
        NameIsChild(nodes, dir, n);
      }
      assert (set n | n in names) == Names(nodes, dir);
      SortLists(names);
      names := SortStrings(names);
    }

    method Remove(p: Path) returns (error: Option<Error>)
      modifies this
      ensures (nodes, error) == Tree.Remove(old(nodes), p)
      ensures old(Valid()) ==> Valid()
    {
      if old(Valid()) { RemoveKeeps(nodes, p); }
      if p !in nodes { return Some(NotExist); }
      if nodes[p] == Dir {
        if p == [] { return Some(RemoveRoot); }
        var children := ChildrenLocked(p);
        NoNamesNoChildren(nodes, p, children);
        if |children| > 0 { return Some(DirectoryNotEmpty); }
      }
      nodes := nodes - {p};
      error := None;
    }

    method Store(p: Path, data: seq<int>)
      modifies this
      ensures nodes == Tree.Store(old(nodes), p, data)
    {
      nodes := nodes[p := File(data)];
    }

    /** The walk below a path, and the paths that the callback keeps on it. */
    method WalkFollow(p: Path, root: Path, wantDirs: bool, out: seq<Path>) returns (r: seq<Path>)
      requires Valid() && p in nodes
      ensures out <= r && ListsOnce(r[|out|..], Found(nodes, p, root, wantDirs))
      decreases Under(nodes, p)
    {
      hide FoundAmong, ListsInOrder, IsTree;
      r := out;
      FoundNone(nodes, p, root, wantDirs);
      if Wanted(nodes[p], p, root, wantDirs) {
        r := r + [p];
      }
      if nodes[p] != Dir {
        UnderFile(nodes, p);
        return;
      }
      var entries := ChildrenLocked(p);
      for i := 0 to |entries|
        invariant out <= r && ListsOnce(r[|out|..], FoundAmong(nodes, p, root, wantDirs, entries[..i]))
      {
        r := WalkChild(p, root, wantDirs, out, r, entries, i);
      }
      assert entries[..|entries|] == entries;
      FoundAll(nodes, p, root, wantDirs, entries);
    }

    method WalkChild(p: Path, root: Path, wantDirs: bool, ghost out: seq<Path>, before: seq<Path>, entries: seq<string>, i: nat)
      returns (r: seq<Path>)
      requires Valid() && p in nodes && i < |entries| && ListsInOrder(entries, Names(nodes, p))
      requires out <= before && ListsOnce(before[|out|..], FoundAmong(nodes, p, root, wantDirs, entries[..i]))
      ensures out <= r && ListsOnce(r[|out|..], FoundAmong(nodes, p, root, wantDirs, entries[..i + 1]))
      decreases Under(nodes, p), 0
    {
      hide FoundAmong, Found, IsTree, ListsOnce;
      NameIsChild(nodes, p, entries[i]);
      UnderChild(nodes, p, entries[i]);
      FoundNext(nodes, p, root, wantDirs, entries, i);
      r := WalkFollow(p + [entries[i]], root, wantDirs, before);
      ListsJoin(before[|out|..], r[|before|..], FoundAmong(nodes, p, root, wantDirs, entries[..i]),
                Found(nodes, p + [entries[i]], root, wantDirs));
      assert r[|out|..] == before[|out|..] + r[|before|..];
    }

    /** Files and Dirs: the texts of the paths that a walk from root keeps, in order; none if there is no root. */
    method Collect(root: Path, wantDirs: bool) returns (r: Option<seq<string>>)
      requires Valid()
      ensures r == None <==> root !in nodes
      ensures r.Some? ==> ListsInOrder(r.value, set q | q in Found(nodes, root, root, wantDirs) :: Joined(q))
                          && |r.value| == |Found(nodes, root, root, wantDirs)|
    {
      if root !in nodes { return None; }
      var found := WalkFollow(root, root, wantDirs, []);
      assert found[0..] == found;
      var out: seq<string> := [];
      for i := 0 to |found|
        invariant |out| == i && forall k :: 0 <= k < i ==> out[k] == Joined(found[k])
      {
        out := out + [Joined(found[i])];
      }
      TextsApart(nodes, root, wantDirs, found, out);
      SortLists(out);
      assert (set x | x in out) == set q | q in Found(nodes, root, root, wantDirs) :: Joined(q);
      r := Some(SortStrings(out));
    }
  }

  lemma {:induction false} ListsSize(r: seq<Path>, all: set<Path>)
    requires ListsOnce(r, all)
    ensures |r| == |all|
    decreases |r|
  {
    if r == [] {
      assert all == {};
    } else {
      var last := r[|r| - 1];
      var rest := r[..|r| - 1];
      assert r == rest + [last];
      assert last !in rest;
      ListsSize(rest, all - {last});
    }
  }

  lemma TextsApart(fs: Nodes, root: Path, wantDirs: bool, found: seq<Path>, out: seq<string>)
    requires IsTree(fs) && (forall p :: p in fs ==> IsClean(p)) && ListsOnce(found, Found(fs, root, root, wantDirs))
    requires |out| == |found| && forall k :: 0 <= k < |out| ==> out[k] == Joined(found[k])
    ensures Distinct(out) && |out| == |Found(fs, root, root, wantDirs)|
    ensures forall x :: x in out <==> exists q :: q in Found(fs, root, root, wantDirs) && Joined(q) == x
  {
    ListsSize(found, Found(fs, root, root, wantDirs));
    forall q | q in found
      ensures q in fs && q != []
    {
      assert q in Found(fs, root, root, wantDirs);
    }
    forall i, j | 0 <= i < j < |out|
      ensures out[i] != out[j]
    {
      assert found[i] in found && found[j] in found;
      if out[i] == out[j] { JoinedInjective(found[i], found[j]); }
    }
    forall x
      ensures x in out <==> exists q :: q in Found(fs, root, root, wantDirs) && Joined(q) == x
    {
      if x in out {
        var k :| 0 <= k < |out| && out[k] == x;
        assert found[k] in Found(fs, root, root, wantDirs);
      }
      if q :| q in Found(fs, root, root, wantDirs) && Joined(q) == x {
        assert q in found;
        var k :| 0 <= k < |found| && found[k] == q;
        assert out[k] == x;
      }
    }
  }

  class MemWriter {
    const fsys: MemFS
    const path: Path
    var text: seq<int>
    var closed: bool

    constructor (fsys: MemFS, path: Path, text: seq<int>)
      ensures this.fsys == fsys && this.path == path && this.text == text && !closed
    {
      this.fsys, this.path, this.text, closed := fsys, path, text, false;
    }

    /** False once the writer is closed. */
    method Write(data: seq<int>) returns (ok: bool)
      modifies `text
      ensures ok == !closed && text == if closed then old(text) else old(text) + data
    {
      if closed { return false; }
      text := text + data;
      ok := true;
    }

    /** What was written lands in the file system here, and only the first time. */
    method Close()
      modifies this, fsys
      ensures closed && text == old(text)
      ensures fsys.nodes == if old(closed) then old(fsys.nodes) else Tree.Store(old(fsys.nodes), path, text)
    {
      if closed { return; }
      closed := true;
      fsys.Store(path, text);
    }
  }
}
