/**
What a shell pattern and what a regular expression mean: both denote a list of steps, each of which takes one character of
a set or any run of characters.
*/
module Matching {
  datatype Step = Run | One(chars: iset<char>)

  predicate IsChar(c: char) {
    true
  }

  ghost function Anything(): iset<char> {
    iset c | IsChar(c)
  }

  ghost predicate Matches(steps: seq<Step>, s: string) {
    if steps == [] then s == ""
    else match steps[0]
      case One(chars) => s != "" && s[0] in chars && Matches(steps[1..], s[1..])
      case Run => exists k :: 0 <= k <= |s| && Matches(steps[1..], s[k..])
  }

  /** A run after a run adds nothing. */
  ghost function Collapse(steps: seq<Step>): (r: seq<Step>)
    ensures r == [] <==> steps == []
    ensures steps != [] ==> r[0] == steps[0]
  {
    if |steps| < 2 then steps
    else if steps[0].Run? && steps[1].Run? then Collapse(steps[1..])
    else [steps[0]] + Collapse(steps[1..])
  }

  lemma {:induction false} CollapseLosesNothing(steps: seq<Step>, s: string)
    ensures Matches(Collapse(steps), s) <==> Matches(steps, s)
    decreases |steps|
  {
    if |steps| >= 2 {
      if steps[0].Run? && steps[1].Run? {
        CollapseLosesNothing(steps[1..], s);
        RunTwice(steps, s);
      } else {
        var c := Collapse(steps);
        assert c[0] == steps[0] && c[1..] == Collapse(steps[1..]);
        forall k | 0 <= k <= |s|
          ensures Matches(c[1..], s[k..]) <==> Matches(steps[1..], s[k..])
        {
          CollapseLosesNothing(steps[1..], s[k..]);
        }
      }
    }
  }

  lemma RunTwice(steps: seq<Step>, s: string)
    requires |steps| >= 2 && steps[0].Run? && steps[1].Run?
    ensures Matches(steps, s) <==> Matches(steps[1..], s)
  {
    if Matches(steps, s) {
      var k :| 0 <= k <= |s| && Matches(steps[1..], s[k..]);
      var j :| 0 <= j <= |s[k..]| && Matches(steps[1..][1..], s[k..][j..]);
      assert s[k..][j..] == s[k + j..];
    }
    assert s[0..] == s;
  }

  // ----- strings as short as they can be -----

  function Ones(steps: seq<Step>): nat {
    if steps == [] then 0 else (if steps[0].One? then 1 else 0) + Ones(steps[1..])
  }

  /** The sets of the single steps, in order. */
  ghost function Sets(steps: seq<Step>): (r: seq<iset<char>>)
    ensures |r| == Ones(steps)
  {
    if steps == [] then [] else (if steps[0].One? then [steps[0].chars] else []) + Sets(steps[1..])
  }

  ghost predicate InAll(sets: seq<iset<char>>, s: string)
    requires |s| == |sets|
  {
    forall i :: 0 <= i < |s| ==> s[i] in sets[i]
  }

  lemma {:induction false} MatchIsLong(steps: seq<Step>, s: string)
    requires Matches(steps, s)
    ensures |s| >= Ones(steps)
  {
    if steps != [] {
      match steps[0]
      case One(_) => MatchIsLong(steps[1..], s[1..]);
      case Run =>
        var k :| 0 <= k <= |s| && Matches(steps[1..], s[k..]);
        MatchIsLong(steps[1..], s[k..]);
    }
  }

  /** Among the shortest strings, a list of steps accepts just the product of its sets. */
  lemma {:induction false} ShortestAreProduct(steps: seq<Step>, s: string)
    requires |s| == Ones(steps)
    ensures Matches(steps, s) <==> InAll(Sets(steps), s)
  {
    if steps != [] {
      match steps[0]
      case One(chars) =>
        ShortestAreProduct(steps[1..], s[1..]);
        assert InAll(Sets(steps), s) <==> s[0] in chars && InAll(Sets(steps[1..]), s[1..]) by {
          assert Sets(steps) == [chars] + Sets(steps[1..]);
        }
      case Run =>
        assert Sets(steps) == Sets(steps[1..]);
        ShortestAreProduct(steps[1..], s);
        assert s[0..] == s;
        if Matches(steps, s) {
          var k :| 0 <= k <= |s| && Matches(steps[1..], s[k..]);
          MatchIsLong(steps[1..], s[k..]);
        }
    }
  }

  /** Where two lists of the same shape accept the same strings, and some string at all, their sets are the same. */
  lemma SameLanguageSameSets(a: seq<Step>, b: seq<Step>, s: string, i: nat)
    requires Ones(a) == Ones(b) && |s| == Ones(a) && InAll(Sets(a), s) && i < |s|
    requires forall t :: Matches(a, t) <==> Matches(b, t)
    ensures Sets(a)[i] == Sets(b)[i]
  {
    forall c
      ensures c in Sets(a)[i] <==> c in Sets(b)[i]
    {
      ShortestAreProduct(a, s);
      ShortestAreProduct(b, s);
      var t := s[i := c];
      ShortestAreProduct(a, t);
      ShortestAreProduct(b, t);
      assert c in Sets(a)[i] <==> InAll(Sets(a), t);
      assert c in Sets(b)[i] <==> InAll(Sets(b), t);
    }
  }

  lemma {:induction false} EmptySetNoMatch(steps: seq<Step>, s: string)
    requires exists i :: 0 <= i < |steps| && steps[i] == One(iset{})
    ensures !Matches(steps, s)
  {
    var i :| 0 <= i < |steps| && steps[i] == One(iset{});
    if i > 0 {
      assert steps[1..][i - 1] == One(iset{});
      forall k | 0 <= k <= |s|
        ensures !Matches(steps[1..], s[k..])
      {
        EmptySetNoMatch(steps[1..], s[k..]);
      }
    }
  }
}

/** Shell patterns as fnmatch documents them. */
module Glob {
  import opened Matching

  datatype Item = Star | Any | Literal(c: char) | Class(body: string)

  /** What a class lists, read from left to right. */
  datatype Member = Single(c: char) | Range(lo: char, hi: char)

  /** Where the class that p opens is closed: a `]` right after the `[` or the `!` is a member. */
  function CloseFrom(p: string): nat {
    var j := if |p| > 1 && p[1] == '!' then 2 else 1;
    if j < |p| && p[j] == ']' then j + 1 else j
  }

  function CloseAt(p: string, j: nat): (r: nat)
    requires j <= |p|
    ensures j <= r <= |p| && (forall i :: j <= i < r ==> p[i] != ']') && (r < |p| ==> p[r] == ']')
    decreases |p| - j
  {
    if j < |p| && p[j] != ']' then CloseAt(p, j + 1) else j
  }

  function Close(p: string): (r: nat)
    requires p != ""
    ensures 1 <= r <= |p|
    ensures r < |p| ==> r > 1
  {
    CloseAt(p, CloseFrom(p))
  }

  function Items(p: string): seq<Item>
    decreases |p|
  {
    if p == "" then []
    else if p[0] == '*' then [Star] + Items(p[1..])
    else if p[0] == '?' then [Any] + Items(p[1..])
    else if p[0] == '[' && Close(p) < |p| then [Class(p[1..Close(p)])] + Items(p[Close(p) + 1..])
    else [Literal(p[0])] + Items(p[1..])
  }

  predicate Negated(body: string) {
    body != "" && body[0] == '!'
  }

  function Listed(body: string): string {
    if Negated(body) then body[1..] else body
  }

  /** A character, `-` and another character are a range; anything else is a member itself. */
  function Members(b: string): seq<Member>
    decreases |b|
  {
    if b == "" then []
    else if |b| >= 3 && b[1] == '-' then [Range(b[0], b[2])] + Members(b[3..])
    else [Single(b[0])] + Members(b[1..])
  }

  predicate IsMember(m: Member, c: char) {
    match m
    case Single(x) => c == x
    case Range(lo, hi) => lo <= c <= hi
  }

  predicate AnyMember(members: seq<Member>, c: char) {
    exists i :: 0 <= i < |members| && IsMember(members[i], c)
  }

  ghost function CharsOf(members: seq<Member>): iset<char> {
    iset c | AnyMember(members, c)
  }

  ghost function ClassChars(body: string): iset<char> {
    var chars := CharsOf(Members(Listed(body)));
    if Negated(body) then Anything() - chars else chars
  }

  ghost function StepOf(item: Item): Step {
    match item
    case Star => Run
    case Any => One(Anything())
    case Literal(c) => One(iset{c})
    case Class(body) => One(ClassChars(body))
  }

  ghost function Steps(items: seq<Item>): (r: seq<Step>)
    ensures |r| == |items| && forall i :: 0 <= i < |items| ==> r[i] == StepOf(items[i])
  {
    if items == [] then [] else [StepOf(items[0])] + Steps(items[1..])
  }

  /** Whether a name is one that the pattern denotes. */
  ghost predicate Denotes(pattern: string, name: string) {
    Matches(Steps(Items(pattern)), name)
  }
}

/**
The part of RE2's syntax that translated patterns use. Anything outside it has no meaning here; a range that runs backwards
has none in RE2 either.
*/
module Re2 {
  import opened Wrappers
  import opened Matching

  /** ASCII punctuation, which a backslash makes literal. */
  predicate Punctuation(c: char) {
    c < 128 as char && !('0' <= c <= '9') && !('A' <= c <= 'Z') && !('a' <= c <= 'z')
  }

  const SPECIAL := "\\.+*?()|[]{}^$"

  /** One character of a class, and what is left. */
  function ClassChar(t: string): (r: Option<(char, string)>)
    ensures r.Some? ==> |r.value.1| < |t|
  {
    if t == "" then None
    else if t[0] != '\\' then Some((t[0], t[1..]))
    else if |t| >= 2 && Punctuation(t[1]) then Some((t[1], t[2..]))
    else None
  }

  /** The ranges of a class up to its `]`, and what is left. */
  function ClassRanges(t: string, first: bool): (r: Option<(seq<(char, char)>, string)>)
    ensures r.Some? ==> |r.value.1| < |t|
    decreases |t|
  {
    if t == "" then None
    else if t[0] == ']' && !first then Some(([], t[1..]))
    else if |t| > 2 && t[0] == '[' && t[1] == ':' then None
    else match ClassChar(t)
      case None => None
      case Some((lo, rest)) =>
        if |rest| >= 2 && rest[0] == '-' && rest[1] != ']' then
          match ClassChar(rest[1..])
          case None => None
          case Some((hi, more)) => if hi < lo then None else WithRange((lo, hi), ClassRanges(more, false))
        else WithRange((lo, lo), ClassRanges(rest, false))
  }

  function WithRange(range: (char, char), r: Option<(seq<(char, char)>, string)>): Option<(seq<(char, char)>, string)> {
    match r
    case None => None
    case Some((ranges, rest)) => Some(([range] + ranges, rest))
  }

  predicate AnyRange(ranges: seq<(char, char)>, c: char) {
    exists i :: 0 <= i < |ranges| && ranges[i].0 <= c <= ranges[i].1
  }

  ghost function RangeChars(ranges: seq<(char, char)>): iset<char> {
    iset c | AnyRange(ranges, c)
  }

  ghost function Class(neg: bool, ranges: seq<(char, char)>): Step {
    One(if neg then Anything() - RangeChars(ranges) else RangeChars(ranges))
  }

  ghost function Then(step: Step, rest: Option<seq<Step>>): Option<seq<Step>> {
    match rest
    case None => None
    case Some(steps) => Some([step] + steps)
  }

  /** The steps of an expression without groups, in which `.` is any character at all. */
  ghost function Body(t: string): Option<seq<Step>>
    decreases |t|
  {
    if t == "" then Some([])
    else if t[0] == '.' then
      if |t| >= 2 && t[1] == '*' then Then(Run, Body(t[2..])) else Then(One(Anything()), Body(t[1..]))
    else if t[0] == '\\' then
      if |t| >= 2 && Punctuation(t[1]) then Then(One(iset{t[1]}), Body(t[2..])) else None
    else if t[0] == '[' then
      var neg := |t| >= 2 && t[1] == '^';
      match ClassRanges(if neg then t[2..] else t[1..], true)
      case None => None
      case Some((ranges, rest)) => Then(Class(neg, ranges), Body(rest))
    else if t[0] in SPECIAL then None
    else Then(One(iset{t[0]}), Body(t[1..]))
  }

  const OPEN := "\\A(?s:"
  const CLOSE := ")\\z"

  /** `\A(?s:` body `)\z`: the whole input, newlines being characters like any other. */
  ghost function Meaning(expr: string): Option<seq<Step>> {
    if |expr| >= |OPEN| + |CLOSE| && expr[..|OPEN|] == OPEN && expr[|expr| - |CLOSE|..] == CLOSE
    then Body(expr[|OPEN|..|expr| - |CLOSE|])
    else None
  }
}
