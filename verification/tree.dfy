/**
vfs/memory.go and vfs/walk.go, on values: a file system held as a flat map from cleaned paths to nodes, the writers that are
open on it, and the walk over it. A path is the list of its components; the empty list is the root.
*/
module Tree {
  import opened Wrappers

  type Path = seq<string>

  datatype Node = Dir | File(data: seq<int>)

  type Nodes = map<Path, Node>

  datatype Error = NotExist | FileExpected | DirectoryExpected | DirectoryNotEmpty | RemoveRoot

  function Parent(p: Path): Path {
    if p == [] then [] else p[..|p| - 1]
  }

  predicate IsDir(fs: Nodes, p: Path) {
    p in fs && fs[p] == Dir
  }

  /** Every node but the root lies in a directory. */
  ghost predicate IsTree(fs: Nodes) {
    IsDir(fs, []) && forall p :: p in fs && p != [] ==> IsDir(fs, Parent(p))
  }

  // ----- the operations -----

  /** Open for writing: what goes wrong, else the file system with the entry in it and the text to start from. */
  function OpenWrite(fs: Nodes, p: Path, append: bool): (Nodes, Option<Error>, seq<int>) {
    if IsDir(fs, p) then (fs, Some(FileExpected), [])
    else if !IsDir(fs, Parent(p)) then (fs, Some(NotExist), [])
    else if append && p in fs then (fs, None, fs[p].data)
    else (fs[p := File([])], None, [])
  }

  /** Every component in turn is made a directory, from the i-th on. */
  function MkdirFrom(fs: Nodes, p: Path, i: nat): (Nodes, Option<Error>)
    requires i <= |p|
    decreases |p| - i
  {
    if i == |p| then (fs, None)
    else
      var cur := p[..i + 1];
      if cur !in fs then MkdirFrom(fs[cur := Dir], p, i + 1)
      else if fs[cur] != Dir then (fs, Some(DirectoryExpected))
      else MkdirFrom(fs, p, i + 1)
  }

  function MkdirAll(fs: Nodes, p: Path): (Nodes, Option<Error>) {
    MkdirFrom(fs, p, 0)
  }

  predicate IsChild(p: Path, dir: Path) {
    p != [] && Parent(p) == dir
  }

  function Children(fs: Nodes, dir: Path): set<Path> {
    set p | p in fs && IsChild(p, dir)
  }

  function Remove(fs: Nodes, p: Path): (Nodes, Option<Error>) {
    if p !in fs then (fs, Some(NotExist))
    else if fs[p] == Dir && p == [] then (fs, Some(RemoveRoot))
    else if fs[p] == Dir && Children(fs, p) != {} then (fs, Some(DirectoryNotEmpty))
    else (fs - {p}, None)
  }

  /** A writer that closes stores its text without another look at the tree. */
  function Store(fs: Nodes, p: Path, data: seq<int>): Nodes {
    fs[p := File(data)]
  }

  // ----- what each operation keeps -----

  lemma OpenKeeps(fs: Nodes, p: Path, append: bool)
    requires IsTree(fs)
    ensures var (r, error, _) := OpenWrite(fs, p, append);
            IsTree(r) && (error == None ==> p != [] && p in r && r[p].File?) && fs.Keys <= r.Keys
    ensures forall q :: q in fs && fs[q].File? ==> OpenWrite(fs, p, append).0[q].File?
  {
  }

  lemma {:induction false} MkdirFromKeeps(fs: Nodes, p: Path, i: nat)
    requires IsTree(fs) && i <= |p| && IsDir(fs, p[..i])
    ensures IsTree(MkdirFrom(fs, p, i).0)
    ensures forall q :: q in fs ==> q in MkdirFrom(fs, p, i).0 && MkdirFrom(fs, p, i).0[q] == fs[q]
    ensures MkdirFrom(fs, p, i).1 == None ==> IsDir(MkdirFrom(fs, p, i).0, p)
    decreases |p| - i
  {
    if i == |p| {
      assert p[..i] == p;
    } else {
      var cur := p[..i + 1];
      assert Parent(cur) == p[..i];
      if cur !in fs {
        MkdirFromKeeps(fs[cur := Dir], p, i + 1);
      } else if fs[cur] == Dir {
        MkdirFromKeeps(fs, p, i + 1);
      }
    }
  }

  /** Once a component is missing in a tree, so is everything below it: making directories cannot fail halfway. */
  lemma {:induction false} MkdirAllOrNothing(fs: Nodes, p: Path, i: nat)
    requires IsTree(fs) && i <= |p| && IsDir(fs, p[..i])
    ensures var (r, error) := MkdirFrom(fs, p, i);
            && (error.Some? ==> r == fs)
            && (error.Some? <==> exists k :: i < k <= |p| && p[..k] in fs && fs[p[..k]].File?)
    decreases |p| - i
  {
    if i < |p| {
      var cur := p[..i + 1];
      assert Parent(cur) == p[..i];
      if cur !in fs {
        MkdirMissing(fs, p, i);
      } else if fs[cur] == Dir {
        hide IsTree;
        MkdirAllOrNothing(fs, p, i + 1);
        assert forall k :: i < k <= |p| && p[..k] in fs && fs[p[..k]].File? ==> k != i + 1;
      }
    }
  }

  /** From a missing component on, every one is missing, and making them succeeds. */
  lemma {:induction false} MkdirMissing(fs: Nodes, p: Path, i: nat)
    requires IsTree(fs) && i < |p| && IsDir(fs, p[..i]) && p[..i + 1] !in fs
    ensures MkdirFrom(fs, p, i).1 == None
    ensures forall k :: i < k <= |p| ==> p[..k] !in fs
    decreases |p| - i
  {
    var cur := p[..i + 1];
    var made := fs[cur := Dir];
    forall k | i < k <= |p|
      ensures p[..k] !in fs
    {
      MissingBelow(fs, p, i + 1, k);
    }
    if i + 1 < |p| {
      MadeTree(fs, p, i);
      LongerPath(p, i + 1, i + 2);
      hide IsTree;
      MkdirMissing(made, p, i + 1);
    }
  }

  lemma MadeTree(fs: Nodes, p: Path, i: nat)
    requires IsTree(fs) && i < |p| && IsDir(fs, p[..i]) && p[..i + 1] !in fs
    ensures IsTree(fs[p[..i + 1] := Dir])
  {
    assert Parent(p[..i + 1]) == p[..i];
    hide Parent;
  }

  lemma LongerPath(p: Path, i: nat, j: nat)
    requires i < j <= |p|
    ensures p[..i] != p[..j]
  {
    assert |p[..i]| < |p[..j]|;
  }

  lemma {:induction false} MissingBelow(fs: Nodes, p: Path, i: nat, k: nat)
    requires IsTree(fs) && i <= k <= |p| && p[..i] !in fs
    ensures p[..k] !in fs
    decreases k
  {
    if i < k {
      MissingBelow(fs, p, i, k - 1);
      assert Parent(p[..k]) == p[..k - 1];
    }
  }

  lemma FileHasNoChildren(fs: Nodes, p: Path)
    requires IsTree(fs) && p in fs && fs[p].File?
    ensures Children(fs, p) == {} && (p != [] ==> IsDir(fs, Parent(p)))
  {
    forall q | q in fs
      ensures !IsChild(q, p)
    {
      assert q != [] ==> IsDir(fs, Parent(q));
    }
  }

  lemma RemoveKeeps(fs: Nodes, p: Path)
    requires IsTree(fs)
    ensures IsTree(Remove(fs, p).0)
  {
    var r := Remove(fs, p).0;
    if r != fs {
      if fs[p].File? { FileHasNoChildren(fs, p); }
      forall q | q in r && q != []
        ensures IsDir(r, Parent(q))
      {
        assert q !in Children(fs, p);
      }
    }
  }

  /**
  Storing without a look keeps the tree exactly when the parent is still a directory and nothing has come to lie below the
  path meanwhile.
  */
  lemma StoreKeepsExactly(fs: Nodes, p: Path, data: seq<int>)
    requires IsTree(fs)
    ensures IsTree(Store(fs, p, data)) <==> p != [] && IsDir(fs, Parent(p)) && Children(fs, p) == {}
  {
    hide IsTree, IsDir, Children, Store;
    if p != [] && IsDir(fs, Parent(p)) && Children(fs, p) == {} {
      StoreFits(fs, p, data);
    } else {
      StoreMisfits(fs, p, data);
    }
  }

  lemma StoreFits(fs: Nodes, p: Path, data: seq<int>)
    requires IsTree(fs) && p != [] && IsDir(fs, Parent(p)) && Children(fs, p) == {}
    ensures IsTree(Store(fs, p, data))
  {
    ParentShorter(p);
    hide Parent;
    forall q | q in fs && q != []
      ensures Parent(q) != p
    {
      assert q !in Children(fs, p);
    }
  }

  lemma StoreMisfits(fs: Nodes, p: Path, data: seq<int>)
    requires p == [] || !IsDir(fs, Parent(p)) || Children(fs, p) != {}
    ensures !IsTree(Store(fs, p, data))
  {
    ParentShorter(p);
    hide Parent;
    var r := Store(fs, p, data);
    if p != [] && IsDir(fs, Parent(p)) {
      var q :| q in Children(fs, p);
      assert q in r && !IsDir(r, Parent(q));
    } else if p != [] {
      assert p in r && !IsDir(r, Parent(p));
    }
  }

  lemma ParentShorter(p: Path)
    ensures p != [] ==> |Parent(p)| < |p|
  {
  }

  // ----- runs -----

  datatype Writer = Writer(path: Path, text: seq<int>, closed: bool)

  datatype World = World(fs: Nodes, writers: seq<Writer>)

  datatype Op =
    | Open(path: Path, append: bool)
    | Write(writer: nat, data: seq<int>)
    | Close(writer: nat)
    | Mkdir(path: Path)
    | Removing(path: Path)

  function Apply(w: World, op: Op): World {
    match op
    case Open(p, append) =>
      var (fs, error, text) := OpenWrite(w.fs, p, append);
      if error == None then World(fs, w.writers + [Writer(p, text, false)]) else w
    case Write(i, data) =>
      if i < |w.writers| && !w.writers[i].closed
      then w.(writers := w.writers[i := w.writers[i].(text := w.writers[i].text + data)]) else w
    case Close(i) =>
      if i < |w.writers| && !w.writers[i].closed
      then World(Store(w.fs, w.writers[i].path, w.writers[i].text), w.writers[i := w.writers[i].(closed := true)]) else w
    case Mkdir(p) => w.(fs := MkdirAll(w.fs, p).0)
    case Removing(p) => w.(fs := Remove(w.fs, p).0)
  }

  /** No path is removed while a writer is open on it. */
  predicate Fair(w: World, op: Op) {
    op.Removing? ==> forall i :: 0 <= i < |w.writers| && !w.writers[i].closed ==> w.writers[i].path != op.path
  }

  /** The tree is one, and every open writer's file is in it. */
  ghost predicate Inv(w: World) {
    && IsTree(w.fs)
    && forall i :: 0 <= i < |w.writers| && !w.writers[i].closed ==>
         w.writers[i].path != [] && w.writers[i].path in w.fs && w.fs[w.writers[i].path].File?
  }

  /** A writer that closes does not find its parent gone or turned into a file, nor anything below its own path. */
  predicate StoresWell(w: World, op: Op) {
    match op
    case Close(i) =>
      i < |w.writers| && !w.writers[i].closed ==>
        var p := w.writers[i].path; p != [] && IsDir(w.fs, Parent(p)) && Children(w.fs, p) == {}
    case _ => true
  }

  /** Whatever has been removed under its writers, an operation keeps the tree exactly when it does not store badly. */
  lemma TreeKeptExactly(w: World, op: Op)
    requires IsTree(w.fs)
    ensures IsTree(Apply(w, op).fs) <==> StoresWell(w, op)
  {
    hide IsTree;
    match op
    case Open(p, append) => OpenKeeps(w.fs, p, append);
    case Write(_, _) =>
    case Close(i) =>
      if i < |w.writers| && !w.writers[i].closed {
        StoreKeepsExactly(w.fs, w.writers[i].path, w.writers[i].text);
      }
    case Mkdir(p) => RootIsDir(w.fs, p); MkdirFromKeeps(w.fs, p, 0);
    case Removing(p) => RemoveKeeps(w.fs, p);
  }

  lemma RootIsDir(fs: Nodes, p: Path)
    requires IsTree(fs)
    ensures IsDir(fs, p[..0])
  {
    assert p[..0] == [];
  }

  /** An operation keeps the tree with its open files exactly when it removes none of them. */
  lemma ApplyKeepsExactly(w: World, op: Op)
    requires Inv(w)
    ensures Inv(Apply(w, op)) <==> Fair(w, op)
  {
    if Fair(w, op) {
      ApplyKeeps(w, op);
    } else {
      var i :| 0 <= i < |w.writers| && !w.writers[i].closed && w.writers[i].path == op.path;
      assert w.fs[op.path].File?;
      assert op.path !in Apply(w, op).fs;
    }
  }

  lemma ApplyKeeps(w: World, op: Op)
    requires Inv(w) && Fair(w, op)
    ensures Inv(Apply(w, op))
  {
    match op
    case Open(p, append) => OpenKeeps(w.fs, p, append);
    case Write(_, _) =>
    case Close(i) =>
      if i < |w.writers| && !w.writers[i].closed {
        FileHasNoChildren(w.fs, w.writers[i].path);
        StoreKeepsExactly(w.fs, w.writers[i].path, w.writers[i].text);
      }
    case Mkdir(p) => MkdirFromKeeps(w.fs, p, 0);
    case Removing(p) => RemoveKeeps(w.fs, p);
  }

  function Run(w: World, ops: seq<Op>): (r: Option<World>)
    requires Inv(w)
    ensures r.Some? ==> Inv(r.value)
    decreases |ops|
  {
    if ops == [] then Some(w)
    else if !Fair(w, ops[0]) then None
    else
      ApplyKeeps(w, ops[0]);
      Run(Apply(w, ops[0]), ops[1..])
  }

  const EMPTY := World(map[[] := Dir], [])

  lemma EmptyIsTree()
    ensures Inv(EMPTY)
  {
  }

  /** Whatever is done to an empty file system, while no path with an open writer is removed, it is a tree. */
  lemma BuiltTrees(ops: seq<Op>)
    ensures Inv(EMPTY) && (Run(EMPTY, ops).Some? ==> Inv(Run(EMPTY, ops).value))
  {
    EmptyIsTree();
  }

  /** A file removed under its writer, and then its directory: closing leaves a file that lies nowhere. */
  lemma OrphanExample()
    ensures var w := Apply(Apply(Apply(EMPTY, Mkdir(["d"])), Open(["d", "f"], false)), Removing(["d", "f"]));
            var r := Apply(Apply(w, Removing(["d"])), Close(0));
            ["d", "f"] in r.fs && ["d"] !in r.fs && !IsTree(r.fs)
  {
    var a := Apply(EMPTY, Mkdir(["d"]));
    assert ["d"][..1] == ["d"];
    assert MkdirFrom(EMPTY.fs, ["d"], 0) == MkdirFrom(EMPTY.fs[["d"] := Dir], ["d"], 1);
    assert a.fs == map[[] := Dir, ["d"] := Dir];
    var b := Apply(a, Open(["d", "f"], false));
    assert Parent(["d", "f"]) == ["d"] && Parent(["d"]) == [];
    assert b.fs == a.fs[["d", "f"] := File([])];
    var c := Apply(b, Removing(["d", "f"]));
    assert c.fs == a.fs;
    assert Children(c.fs, ["d"]) == {};
    var d := Apply(c, Removing(["d"]));
    assert d.fs == map[[] := Dir];
  }
}
