/**
vfs/memory.go: what ends up in a file, and exactly when opening, making directories and removing succeed and what they change.
*/
module TreeLaws {
  import opened Wrappers
  import opened Tree

  // ----- what ends up in a file -----

  /** The world after any operations at all. */
  function ApplyAll(w: World, ops: seq<Op>): World
    decreases |ops|
  {
    if ops == [] then w else ApplyAll(Apply(w, ops[0]), ops[1..])
  }

  /** All that these operations write with one writer. */
  function DataFor(ops: seq<Op>, i: nat): seq<int> {
    if ops == [] then []
    else (if ops[0].Write? && ops[0].writer == i then ops[0].data else []) + DataFor(ops[1..], i)
  }

  lemma {:induction false} WriterCollects(w: World, ops: seq<Op>, i: nat)
    requires i < |w.writers| && !w.writers[i].closed && Close(i) !in ops
    ensures var u, v := w.writers[i], ApplyAll(w, ops);
            i < |v.writers| && v.writers[i] == Writer(u.path, u.text + DataFor(ops, i), false)
    decreases |ops|
  {
    var u := w.writers[i];
    if ops == [] {
      assert u.text + [] == u.text;
    } else {
      var next := Apply(w, ops[0]);
      var d := if ops[0].Write? && ops[0].writer == i then ops[0].data else [];
      assert u.text + [] == u.text;
      assert next.writers[i] == Writer(u.path, u.text + d, false);
      hide Apply;
      WriterCollects(next, ops[1..], i);
      assert (u.text + d) + DataFor(ops[1..], i) == u.text + (d + DataFor(ops[1..], i));
    }
  }

  /** The text that a file has, and none if it is not there. */
  function TextAt(fs: Nodes, p: Path): seq<int> {
    if p in fs && fs[p].File? then fs[p].data else []
  }

  /** A file can be opened for writing where its parent is a directory and it is none itself. */
  predicate Opens(fs: Nodes, p: Path) {
    !IsDir(fs, p) && IsDir(fs, Parent(p))
  }

  /**
  Opening makes the file if it is not there, and empties it at once unless it is opened to append. Whatever happens in between,
  closing stores all that was written, behind the text that the file had when it was opened to append, and changes nothing else.
  */
  lemma FileWritten(w: World, p: Path, append: bool, ops: seq<Op>)
    requires Opens(w.fs, p)
    requires Close(|w.writers|) !in ops
    ensures var i, began := |w.writers|, Apply(w, Open(p, append));
            var u := ApplyAll(began, ops);
            var v := Apply(u, Close(i));
            && began.fs == w.fs[p := File(if append then TextAt(w.fs, p) else [])]
            && v.fs == u.fs[p := File((if append then TextAt(w.fs, p) else []) + DataFor(ops, i))]
  {
    var i, began := |w.writers|, Apply(w, Open(p, append));
    assert p in w.fs ==> w.fs[p := w.fs[p]] == w.fs;
    WriterCollects(began, ops, i);
  }

  /** What a writer that is closed already writes or closes again goes nowhere. */
  lemma ClosedIsSilent(w: World, i: nat, data: seq<int>)
    requires i < |w.writers| && w.writers[i].closed
    ensures Apply(w, Write(i, data)) == w && Apply(w, Close(i)) == w
  {
  }

  // ----- when the operations succeed -----

  lemma OpenExactly(fs: Nodes, p: Path, append: bool)
    ensures var (r, error, _) := OpenWrite(fs, p, append);
            && (error == None <==> Opens(fs, p))
            && (error == Some(FileExpected) <==> IsDir(fs, p)) && (error.Some? ==> r == fs)
  {
  }

  /** Below, or at, one of the directories that are on the way to a path. */
  predicate OnTheWay(p: Path, q: Path) {
    q != [] && |q| <= |p| && q == p[..|q|]
  }

  /** What making directories from the i-th component on makes: those on the way that are missing, and nothing else. */
  predicate OnlyMade(fs: Nodes, r: Nodes, p: Path, i: nat) {
    && (forall q :: q in fs ==> q in r && r[q] == fs[q])
    && (forall q :: q in r && q !in fs ==> OnTheWay(p, q) && |q| > i && r[q] == Dir)
    && (forall k :: i < k <= |p| ==> IsDir(r, p[..k]))
  }

  lemma {:induction false} MkdirFromMakes(fs: Nodes, p: Path, i: nat)
    requires i <= |p|
    ensures MkdirFrom(fs, p, i).1 == None ==> OnlyMade(fs, MkdirFrom(fs, p, i).0, p, i)
    decreases |p| - i
  {
    if i < |p| {
      var cur := p[..i + 1];
      var next := if cur !in fs then fs[cur := Dir] else fs;
      if cur !in fs || fs[cur] == Dir {
        MkdirFromMakes(next, p, i + 1);
        var r := MkdirFrom(next, p, i + 1).0;
        if MkdirFrom(next, p, i + 1).1 == None {
          assert cur in next && cur in r && r[cur] == Dir;
        }
      }
    }
  }

  /** In a tree, all the directories on the way are made, or there is a file on the way and nothing is. */
  lemma MkdirExactly(fs: Nodes, p: Path)
    requires IsTree(fs)
    ensures var (r, error) := MkdirAll(fs, p);
            if exists q :: q in fs && OnTheWay(p, q) && fs[q].File? then r == fs && error.Some?
            else error == None && OnlyMade(fs, r, p, 0)
  {
    RootIsDir(fs, p);
    MkdirAllOrNothing(fs, p, 0);
    MkdirFromMakes(fs, p, 0);
    if q :| q in fs && OnTheWay(p, q) && fs[q].File? {
      assert q == p[..|q|];
    }
    if k :| 0 < k <= |p| && p[..k] in fs && fs[p[..k]].File? {
      assert OnTheWay(p, p[..k]);
    }
    hide IsTree, OnlyMade, MkdirFrom;
  }

  /** Removing succeeds for a file, and for a directory that nothing lies in and that is not the root; and takes away just that. */
  lemma RemoveExactly(fs: Nodes, p: Path)
    ensures var (r, error) := Remove(fs, p);
            if p in fs && (fs[p].File? || (p != [] && forall name :: p + [name] !in fs)) then error == None && r == fs - {p}
            else
              && r == fs
              && error == Some(if p !in fs then NotExist else if p == [] then RemoveRoot else DirectoryNotEmpty)
  {
    if q :| q in Children(fs, p) {
      assert q == p + [q[|q| - 1]];
    }
    if name :| p + [name] in fs {
      assert Parent(p + [name]) == p;
      assert p + [name] in Children(fs, p);
    }
  }

  lemma MkdirOne(fs: Nodes, dir: Path, name: string)
    requires IsTree(fs) && IsDir(fs, dir) && dir + [name] !in fs
    ensures MkdirAll(fs, dir + [name]).0 == fs[dir + [name] := Dir] && MkdirAll(fs, dir + [name]).1 == None
  {
    var p := dir + [name];
    AncestorsAreDirs(fs, p, |dir|);
    MkdirExactly(fs, p);
    forall q | OnTheWay(p, q)
      ensures q == p || IsDir(fs, q)
    {
      assert |q| <= |dir| ==> IsDir(fs, p[..|q|]);
    }
    assert p[..|p|] == p;
    hide IsTree, OnTheWay, MkdirAll;
    assert MkdirAll(fs, p).0.Keys == fs.Keys + {p};
  }

  lemma NothingBelow(fs: Nodes, p: Path)
    requires IsTree(fs) && p !in fs
    ensures forall name :: p + [name] !in fs
  {
    forall name
      ensures p + [name] !in fs
    {
      assert Parent(p + [name]) == p;
    }
  }

  /** Removing a directory that has just been made leaves everything as it was. */
  lemma RemoveUndoesMkdir(fs: Nodes, dir: Path, name: string)
    requires IsTree(fs) && IsDir(fs, dir) && dir + [name] !in fs
    ensures var (r, error) := Remove(MkdirAll(fs, dir + [name]).0, dir + [name]); r == fs && error == None
  {
    var p := dir + [name];
    MkdirOne(fs, dir, name);
    NothingBelow(fs, p);
    var r := fs[p := Dir];
    hide IsTree, MkdirAll, Remove;
    forall x
      ensures p + [x] !in r
    {
      assert |p + [x]| != |p|;
    }
    RemoveExactly(r, p);
    assert r - {p} == fs;
  }

  /** Everything on the way to a directory of a tree is a directory. */
  lemma {:induction false} AncestorsAreDirs(fs: Nodes, p: Path, n: nat)
    requires IsTree(fs) && n <= |p| && IsDir(fs, p[..n])
    ensures forall k :: 0 <= k <= n ==> IsDir(fs, p[..k])
    decreases n
  {
    if n > 0 {
      assert Parent(p[..n]) == p[..n - 1];
      AncestorsAreDirs(fs, p, n - 1);
    }
  }
}
