/** What several parts of the model need and none of them owns. */
module Wrappers {
  datatype Option<+T> = None | Some(value: T)

  function Min(a: int, b: int): int {
    if a < b then a else b
  }

  function Max(a: int, b: int): int {
    if a > b then a else b
  }

  predicate Distinct<T(==)>(s: seq<T>) {
    forall i, j :: 0 <= i < j < |s| ==> s[i] != s[j]
  }

  // ----- sequences -----

  lemma Associate<T>(a: seq<T>, b: seq<T>, c: seq<T>)
    ensures (a + b) + c == a + (b + c)
  {
  }

  lemma DropFromFirst<T>(a: seq<T>, b: seq<T>, i: nat)
    requires i <= |a|
    ensures (a + b)[i..] == a[i..] + b
  {
  }

  lemma DropTwice<T>(a: seq<T>, i: nat, j: nat)
    requires i + j <= |a|
    ensures a[i..][j..] == a[i + j..]
  {
  }

  lemma TakeFromFirst<T>(a: seq<T>, b: seq<T>, i: nat)
    requires i <= |a|
    ensures (a + b)[..i] == a[..i]
  {
  }

  lemma TakeTwice<T>(a: seq<T>, i: nat, j: nat)
    requires j <= i <= |a|
    ensures a[..i][..j] == a[..j]
  {
  }

  lemma TakeOfDrop<T>(a: seq<T>, i: nat, j: nat)
    requires i + j <= |a|
    ensures a[i..][..j] == a[i..i + j]
  {
  }

  lemma TakeOfPart<T>(a: seq<T>, i: nat, j: nat, k: nat)
    requires i <= j <= |a| && k <= j - i
    ensures a[i..j][..k] == a[i..][..k]
  {
  }

  lemma TakeThenPart<T>(a: seq<T>, i: nat, j: nat)
    requires i <= j <= |a|
    ensures a[..i] + a[i..j] == a[..j]
  {
  }

  lemma HeadTail<T>(a: seq<T>)
    requires a != []
    ensures a == [a[0]] + a[1..]
  {
  }

  /** The whole of a list, its empty beginning, and its empty rest. */
  lemma Whole<T>(a: seq<T>)
    ensures a[0..] == a && a[..|a|] == a && a[..0] == [] && a[|a|..] == [] && a + [] == a && [] + a == a
  {
  }

  /** A place of the rest is one further in the list. */
  lemma CutShifted<T>(a: seq<T>, i: nat)
    requires i + 1 < |a|
    ensures a[..i + 1] == [a[0]] + a[1..][..i] && a[i + 2..] == a[1..][i + 1..]
  {
  }
}
