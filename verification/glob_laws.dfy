/**
labfile/folder.go: which names each form of a shell pattern denotes, said on the pattern as it is written and on names alone.
*/
module GlobLaws {
  import opened Matching
  import opened Glob

  lemma StepsFirst(items: seq<Item>, item: Item, rest: seq<Item>)
    requires items == [item] + rest
    ensures Steps(items)[0] == StepOf(item) && Steps(items)[1..] == Steps(rest) && Steps(items) != []
  {
    assert items[1..] == rest;
  }

  /** A pattern that begins with one item, and goes on as p. */
  lemma ItemMeans(pattern: string, item: Item, p: string, name: string)
    requires Items(pattern) == [item] + Items(p)
    ensures match StepOf(item)
            case Run => Denotes(pattern, name) <==> exists k :: 0 <= k <= |name| && Denotes(p, name[k..])
            case One(chars) => Denotes(pattern, name) <==> name != "" && name[0] in chars && Denotes(p, name[1..])
  {
    StepsFirst(Items(pattern), item, Items(p));
    hide Items, StepOf, Steps;
    var steps := Steps(Items(pattern));
    if steps[0].Run? {
      assert forall k :: 0 <= k <= |name| ==> (Matches(steps[1..], name[k..]) <==> Denotes(p, name[k..]));
    }
  }

  lemma EmptyDenotes(name: string)
    ensures Denotes("", name) <==> name == ""
  {
  }

  lemma StarDenotes(p: string, name: string)
    ensures Denotes("*" + p, name) <==> exists k :: 0 <= k <= |name| && Denotes(p, name[k..])
  {
    assert ("*" + p)[1..] == p;
    ItemMeans("*" + p, Star, p, name);
  }

  lemma AnyDenotes(p: string, name: string)
    ensures Denotes("?" + p, name) <==> name != "" && Denotes(p, name[1..])
  {
    assert ("?" + p)[1..] == p;
    ItemMeans("?" + p, Any, p, name);
    assert name != "" ==> IsChar(name[0]);
  }

  lemma LiteralDenotes(c: char, p: string, name: string)
    requires c !in "*?["
    ensures Denotes([c] + p, name) <==> name != "" && name[0] == c && Denotes(p, name[1..])
  {
    assert ([c] + p)[1..] == p;
    ItemMeans([c] + p, Literal(c), p, name);
  }

  /** What follows the first bracket of a class, or of what would be one: a `!`, and then a `]` that does not close it. */
  function Head(neg: bool, closing: bool): string {
    (if neg then "!" else "") + if closing then "]" else ""
  }

  /** The text behind an opening bracket, cut behind the characters that cannot close it. */
  lemma CloseBehind(p: string, neg: bool, closing: bool, body: string)
    requires p == "[" + Head(neg, closing) + body
    requires (!neg && !closing ==> body == "" || body[0] != '!') && (!closing ==> body == "" || body[0] != ']')
    ensures CloseFrom(p) == 1 + |Head(neg, closing)|
  {
    var h := Head(neg, closing);
    assert |h| == (if neg then 1 else 0) + if closing then 1 else 0;
    assert forall i :: 0 <= i < |h| ==> p[1 + i] == h[i];
    assert forall i :: 0 <= i < |body| ==> p[1 + |h| + i] == body[i];
  }

  /** A bracket that nothing closes stands for itself. */
  lemma UnclosedDenotes(neg: bool, closing: bool, body: string, name: string)
    requires ']' !in body && (!neg && !closing ==> body == "" || body[0] != '!')
    ensures var p := Head(neg, closing) + body;
            Denotes("[" + p, name) <==> name != "" && name[0] == '[' && Denotes(p, name[1..])
  {
    var p := Head(neg, closing) + body;
    var pattern := "[" + p;
    assert pattern == "[" + Head(neg, closing) + body;
    assert body != "" ==> body[0] in body;
    CloseBehind(pattern, neg, closing, body);
    hide CloseFrom, CloseAt, Head;
    assert pattern[CloseFrom(pattern)..] == body;
    NeverCloses(pattern, CloseFrom(pattern));
    assert pattern[1..] == p;
    ItemMeans(pattern, Literal('['), p, name);
  }

  lemma NeverCloses(pattern: string, j: nat)
    requires j <= |pattern| && ']' !in pattern[j..]
    ensures CloseAt(pattern, j) == |pattern|
  {
    assert forall i :: j <= i < |pattern| ==> pattern[i] == pattern[j..][i - j];
  }

  /**
  A class denotes one character: one that is listed, or with the `!` one that is not. The first character listed, and no other,
  may be a `]`; the list is never empty.
  */
  lemma ClassDenotes(neg: bool, closing: bool, listed: string, p: string, name: string)
    requires ']' !in listed && (closing || listed != "") && (!neg && !closing ==> listed[0] != '!')
    ensures var body := (if closing then "]" else "") + listed;
            Denotes("[" + (if neg then "!" else "") + body + "]" + p, name) <==>
            name != "" && (AnyMember(Members(body), name[0]) <==> !neg) && Denotes(p, name[1..])
  {
    hide Items, CloseFrom, CloseAt, Members, AnyMember, Denotes;
    var body := (if closing then "]" else "") + listed;
    var inside := (if neg then "!" else "") + body;
    assert "[" + (if neg then "!" else "") + body + "]" + p == "[" + inside + "]" + p;
    ClassItem(neg, closing, listed, p);
    ItemMeans("[" + inside + "]" + p, Class(inside), p, name);
    ListedBehind(neg, body);
    assert name != "" ==> IsChar(name[0]);
  }

  lemma ClassItem(neg: bool, closing: bool, listed: string, p: string)
    requires ']' !in listed && (closing || listed != "") && (!neg && !closing ==> listed[0] != '!')
    ensures var inside := (if neg then "!" else "") + ((if closing then "]" else "") + listed);
            Items("[" + inside + "]" + p) == [Class(inside)] + Items(p)
  {
    hide Items;
    var inside := (if neg then "!" else "") + ((if closing then "]" else "") + listed);
    var pattern, tail := "[" + inside + "]" + p, listed + "]" + p;
    assert pattern == "[" + Head(neg, closing) + tail;
    assert listed != "" ==> tail[0] == listed[0] && listed[0] in listed;
    CloseBehind(pattern, neg, closing, tail);
    hide CloseFrom, CloseAt;
    var j := CloseFrom(pattern);
    assert pattern[j..] == tail;
    ClosesAt(pattern, j, listed, p);
    ItemsOfClass(pattern, inside, p);
  }

  lemma ItemsOfClass(pattern: string, inside: string, p: string)
    requires pattern == "[" + inside + "]" + p && Close(pattern) == 1 + |inside|
    ensures Items(pattern) == [Class(inside)] + Items(p)
  {
    hide Close;
    assert pattern[1..1 + |inside|] == inside && pattern[1 + |inside| + 1..] == p;
  }

  lemma ListedBehind(neg: bool, body: string)
    requires body != "" && (!neg ==> body[0] != '!')
    ensures var inside := (if neg then "!" else "") + body; Negated(inside) == neg && Listed(inside) == body
  {
    assert neg ==> ("!" + body)[1..] == body;
    assert !neg ==> "" + body == body;
  }

  lemma ClosesAt(pattern: string, j: nat, listed: string, p: string)
    requires j <= |pattern| && ']' !in listed && pattern[j..] == listed + "]" + p
    ensures CloseAt(pattern, j) == j + |listed|
  {
    var tail := pattern[j..];
    assert tail[|listed|] == ']';
    assert forall i :: 0 <= i < |listed| ==> pattern[j + i] == listed[i] && listed[i] in listed;
    assert pattern[j + |listed|] == tail[|listed|];
  }

  // ----- what a list holds -----

  lemma FirstMember(m: Member, rest: seq<Member>, c: char)
    ensures AnyMember([m] + rest, c) <==> IsMember(m, c) || AnyMember(rest, c)
  {
    var all := [m] + rest;
    if i :| 0 <= i < |all| && IsMember(all[i], c) {
      assert i > 0 ==> all[i] == rest[i - 1];
    }
    if i :| 0 <= i < |rest| && IsMember(rest[i], c) {
      assert all[i + 1] == rest[i];
    }
    assert all[0] == m;
  }

  lemma RangeLists(lo: char, hi: char, rest: string, c: char)
    ensures AnyMember(Members([lo, '-', hi] + rest), c) <==> lo <= c <= hi || AnyMember(Members(rest), c)
  {
    assert ([lo, '-', hi] + rest)[3..] == rest;
    FirstMember(Range(lo, hi), Members(rest), c);
  }

  lemma CharLists(x: char, rest: string, c: char)
    requires !(|rest| >= 2 && rest[0] == '-')
    ensures AnyMember(Members([x] + rest), c) <==> c == x || AnyMember(Members(rest), c)
  {
    assert ([x] + rest)[1..] == rest;
    FirstMember(Single(x), Members(rest), c);
  }

  /** Without a dash, a list holds its characters. */
  lemma {:induction false} PlainLists(body: string, c: char)
    requires '-' !in body
    ensures AnyMember(Members(body), c) <==> c in body
  {
    if body != "" {
      assert body == [body[0]] + body[1..];
      assert |body| > 1 ==> body[1] in body;
      CharLists(body[0], body[1..], c);
      PlainLists(body[1..], c);
    }
  }

  /** [!]x] denotes every single character but those two. */
  lemma BracketExample(name: string)
    ensures Denotes("[!]x]", name) <==> |name| == 1 && name[0] != ']' && name[0] != 'x'
  {
    hide Items, Steps, Matches, Members;
    ClassDenotes(true, true, "x", "", name);
    assert "[" + "!" + ("]" + "x") + "]" + "" == "[!]x]";
    if name != "" {
      PlainLists("]x", name[0]);
      assert "]" + "x" == "]x";
      EmptyDenotes(name[1..]);
    }
  }
}
