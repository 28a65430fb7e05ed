/**
labfile/folder.go, fnTranslate: a shell pattern turned into a regular expression. The chunks that the translation splits a
class into, and the inverted ranges it folds away, are the members of the class read from left to right; where they are
not read that way, the exact patterns are told apart.
*/
module FnTranslate {
  import opened Wrappers
  import opened Matching
  import opened Glob
  import Re2

  // ----- classes as text -----

  /** Inside a chunk, a backslash and a `-` are escaped. */
  function Escaped(c: char): string {
    if c == '\\' then "\\\\" else if c == '-' then "\\-" else [c]
  }

  function EscapedText(s: string): string {
    if s == "" then "" else Escaped(s[0]) + EscapedText(s[1..])
  }

  function MemberText(m: Member): string {
    match m
    case Single(c) => Escaped(c)
    case Range(lo, hi) => Escaped(lo) + "-" + Escaped(hi)
  }

  function Render(members: seq<Member>): string {
    if members == [] then "" else MemberText(members[0]) + Render(members[1..])
  }

  predicate Backward(m: Member) {
    m.Range? && m.lo > m.hi
  }

  /** The members but for the ranges that run backwards. */
  function Forward(members: seq<Member>): (r: seq<Member>)
    ensures forall i :: 0 <= i < |r| ==> !Backward(r[i])
  {
    if members == [] then []
    else (if Backward(members[0]) then [] else [members[0]]) + Forward(members[1..])
  }

  /** The class once inverted ranges are gone, with the `!` that negates it. */
  function Stuff(body: string): string {
    (if Negated(body) then "!" else "") + Render(Forward(Members(Listed(body))))
  }

  /** re2ClassBody: what the translation left bare for CPython is escaped for RE2. */
  function ClassBody(stuff: string): string
    decreases |stuff|
  {
    if stuff == "" then ""
    else if stuff[0] == '\\' && |stuff| >= 2 then stuff[..2] + ClassBody(stuff[2..])
    else if stuff[0] == ']' || stuff[0] == '[' then ['\\', stuff[0]] + ClassBody(stuff[1..])
    else [stuff[0]] + ClassBody(stuff[1..])
  }

  /** None for a class that can match nothing. */
  function Bracketed(stuff: string): Option<string> {
    if stuff == "" then None
    else if stuff == "!" then Some(".")
    else if stuff[0] == '!' then Some("[" + ClassBody("^" + stuff[1..]) + "]")
    else if stuff[0] == '^' || stuff[0] == '[' then Some("[" + ClassBody("\\" + stuff) + "]")
    else Some("[" + ClassBody(stuff) + "]")
  }

  function QuoteMeta(c: char): string {
    if c in Re2.SPECIAL then ['\\', c] else [c]
  }

  function ItemText(item: Item): Option<string> {
    match item
    case Star => Some(".*")
    case Any => Some(".")
    case Literal(c) => Some(QuoteMeta(c))
    case Class(body) => Bracketed(Stuff(body))
  }

  function CollapseStars(items: seq<Item>): (r: seq<Item>)
    ensures items != [] ==> r != [] && r[0] == items[0]
    ensures forall x :: x in r <==> x in items
  {
    if |items| < 2 then items
    else if items[0].Star? && items[1].Star? then CollapseStars(items[1..])
    else [items[0]] + CollapseStars(items[1..])
  }

  function Texts(items: seq<Item>): Option<string> {
    if items == [] then Some("")
    else match ItemText(items[0])
      case None => None
      case Some(t) =>
        match Texts(items[1..])
        case None => None
        case Some(rest) => Some(t + rest)
  }

  /** The whole expression, or none for a pattern that can match nothing. */
  function Translate(pattern: string): Option<string> {
    match Texts(CollapseStars(Items(pattern)))
    case None => None
    case Some(t) => Some(Re2.OPEN + t + Re2.CLOSE)
  }

  /** What the matcher built from a pattern accepts: nothing, if there is no expression or it does not compile. */
  ghost predicate Accepts(pattern: string, name: string) {
    match Translate(pattern)
    case None => false
    case Some(expr) =>
      match Re2.Meaning(expr)
      case None => false
      case Some(steps) => Matches(steps, name)
  }

  // ----- a class read back -----

  function Fully(c: char): string {
    if c == '\\' || c == '-' || c == '[' || c == ']' then ['\\', c] else [c]
  }

  function FullText(m: Member): string {
    match m
    case Single(c) => Fully(c)
    case Range(lo, hi) => Fully(lo) + "-" + Fully(hi)
  }

  function FullRender(members: seq<Member>): string {
    if members == [] then "" else FullText(members[0]) + FullRender(members[1..])
  }

  lemma ClassBodyOne(c: char, u: string)
    ensures ClassBody(Escaped(c) + u) == Fully(c) + ClassBody(u)
    ensures ClassBody("-" + u) == "-" + ClassBody(u)
    ensures ClassBody("^" + u) == "^" + ClassBody(u)
    ensures ClassBody("\\^" + u) == "\\^" + ClassBody(u)
  {
    assert (Escaped(c) + u)[|Escaped(c)|..] == u && (Escaped(c) + u)[..|Escaped(c)|] == Escaped(c);
    assert ("-" + u)[1..] == u && ("^" + u)[1..] == u && ("\\^" + u)[2..] == u && ("\\^" + u)[..2] == "\\^";
  }

  lemma Regroup(a: string, b: string, c: string, d: string)
    ensures (a + b + c) + d == a + (b + (c + d))
  {
  }

  lemma ClassBodyMember(m: Member, rest: string)
    ensures ClassBody(MemberText(m) + rest) == FullText(m) + ClassBody(rest)
  {
    hide ClassBody, Escaped, Fully;
    match m
    case Single(c) => ClassBodyOne(c, rest);
    case Range(lo, hi) =>
      ClassBodyOne(lo, "-" + (Escaped(hi) + rest));
      ClassBodyOne(lo, Escaped(hi) + rest);
      ClassBodyOne(hi, rest);
      Regroup(Escaped(lo), "-", Escaped(hi), rest);
      Regroup(Fully(lo), "-", Fully(hi), ClassBody(rest));
  }

  lemma {:induction false} ClassBodyRender(members: seq<Member>)
    ensures ClassBody(Render(members)) == FullRender(members)
  {
    hide MemberText, FullText;
    if members != [] {
      ClassBodyRender(members[1..]);
      ClassBodyMember(members[0], Render(members[1..]));
    }
  }

  function First(m: Member): char {
    if m.Single? then m.c else m.lo
  }

  function AsRange(m: Member): (char, char) {
    if m.Single? then (m.c, m.c) else (m.lo, m.hi)
  }

  function AsRanges(members: seq<Member>): (r: seq<(char, char)>)
    ensures |r| == |members| && forall i :: 0 <= i < |members| ==> r[i] == AsRange(members[i])
  {
    if members == [] then [] else [AsRange(members[0])] + AsRanges(members[1..])
  }

  lemma SameChars(members: seq<Member>)
    ensures Re2.RangeChars(AsRanges(members)) == CharsOf(members)
  {
    forall c
      ensures Re2.AnyRange(AsRanges(members), c) <==> AnyMember(members, c)
    {
      if AnyMember(members, c) {
        var i :| 0 <= i < |members| && IsMember(members[i], c);
        assert AsRanges(members)[i].0 <= c <= AsRanges(members)[i].1;
      }
    }
  }

  lemma FullyRead(c: char, u: string)
    ensures Re2.ClassChar(Fully(c) + u) == Some((c, u))
    ensures (Fully(c) + u)[0] != '-' && (Fully(c) + u)[0] != ']' && (Fully(c) + u)[0] != '['
  {
    assert (Fully(c) + u)[|Fully(c)|..] == u;
  }

  /** A character that neither ends the class nor starts a range. */
  lemma ReadSingle(t: string, c: char, u: string, first: bool)
    requires Re2.ClassChar(t) == Some((c, u)) && t != "" && t[0] != ']' && t[0] != '[' && u != "" && u[0] != '-'
    ensures Re2.ClassRanges(t, first) == Re2.WithRange((c, c), Re2.ClassRanges(u, false))
  {
  }

  lemma ReadRange(t: string, lo: char, hi: char, u: string, first: bool)
    requires t != "" && t[0] != ']' && t[0] != '[' && lo <= hi
    requires Re2.ClassChar(t) == Some((lo, "-" + (Fully(hi) + u)))
    ensures Re2.ClassRanges(t, first) == Re2.WithRange((lo, hi), Re2.ClassRanges(u, false))
  {
    FullyRead(hi, u);
    var rest := "-" + (Fully(hi) + u);
    assert rest[1..] == Fully(hi) + u && rest[1] == (Fully(hi) + u)[0];
  }

  lemma FullStart(members: seq<Member>, rest: string)
    ensures FullRender(members) + "]" + rest != "" && (FullRender(members) + "]" + rest)[0] != '-'
    ensures members != [] ==> FullRender(members) != "" && FullRender(members)[0] != ']' && FullRender(members)[0] != '['
    ensures members != [] && First(members[0]) !in ['\\', '-', '[', ']'] ==> FullRender(members)[0] == First(members[0])
    ensures members != [] && FullRender(members)[0] != '\\' ==> FullRender(members)[0] == First(members[0])
  {
    if members != [] {
      FullyRead(First(members[0]), "");
      assert FullRender(members)[0] == Fully(First(members[0]))[0];
    }
  }

  lemma ReadMember(m: Member, u: string, first: bool)
    requires !Backward(m) && u != "" && u[0] != '-'
    ensures Re2.ClassRanges(FullText(m) + u, first) == Re2.WithRange(AsRange(m), Re2.ClassRanges(u, false))
  {
    hide Fully, Re2.ClassRanges, Re2.ClassChar;
    match m
    case Single(c) =>
      FullyRead(c, u);
      ReadSingle(Fully(c) + u, c, u, first);
    case Range(lo, hi) =>
      Regroup(Fully(lo), "-", Fully(hi), u);
      FullyRead(lo, "-" + (Fully(hi) + u));
      ReadRange(FullText(m) + u, lo, hi, u, first);
  }

  lemma {:induction false} ReadClass(members: seq<Member>, rest: string, first: bool)
    requires (forall i :: 0 <= i < |members| ==> !Backward(members[i])) && (first ==> members != [])
    ensures Re2.ClassRanges(FullRender(members) + "]" + rest, first) == Some((AsRanges(members), rest))
    decreases |members|
  {
    if members == [] {
      assert (FullRender(members) + "]" + rest)[1..] == rest;
    } else {
      hide FullText, Re2.ClassRanges;
      var u := FullRender(members[1..]) + "]" + rest;
      assert FullRender(members) + "]" + rest == FullText(members[0]) + u;
      ReadClass(members[1..], rest, false);
      FullStart(members[1..], rest);
      ReadMember(members[0], u, first);
    }
  }

  // ----- where a class is read as something else -----

  /**
  Folding can bring a `!` to the front of a class that does not start with one, and a `!` there negates. This is the branch
  that goes wrong.
  */
  predicate ExposesBang(body: string) {
    var kept := Forward(Members(Listed(body)));
    !Negated(body) && kept != [] && First(kept[0]) == '!'
  }

  /** The members that such a class then excludes: its `!` is gone, and so is the range that started there. */
  function Misread(kept: seq<Member>): seq<Member>
    requires kept != []
  {
    if kept[0].Single? then kept[1..] else [Single('-'), Single(kept[0].hi)] + kept[1..]
  }

  ghost function EmittedChars(body: string): iset<char> {
    if ExposesBang(body) then Anything() - CharsOf(Misread(Forward(Members(body)))) else ClassChars(body)
  }

  lemma {:induction false} ForwardKeepsChars(members: seq<Member>, c: char)
    ensures AnyMember(Forward(members), c) <==> AnyMember(members, c)
  {
    if members != [] {
      ForwardKeepsChars(members[1..], c);
      AnyMemberOn(members, c);
      if !Backward(members[0]) {
        assert Forward(members)[1..] == Forward(members[1..]);
        AnyMemberOn(Forward(members), c);
      }
    }
  }

  lemma AnyMemberOn(members: seq<Member>, c: char)
    requires members != []
    ensures AnyMember(members, c) <==> IsMember(members[0], c) || AnyMember(members[1..], c)
  {
    if AnyMember(members[1..], c) {
      var i :| 0 <= i < |members[1..]| && IsMember(members[1..][i], c);
      assert IsMember(members[i + 1], c);
    }
    if AnyMember(members, c) && !IsMember(members[0], c) {
      var i :| 0 <= i < |members| && IsMember(members[i], c);
      assert IsMember(members[1..][i - 1], c);
    }
  }

  /** Folding inverted ranges away leaves the characters of the class as they were. */
  lemma FoldingKeepsChars(members: seq<Member>)
    ensures CharsOf(Forward(members)) == CharsOf(members)
  {
    forall c
      ensures AnyMember(Forward(members), c) <==> AnyMember(members, c)
    {
      ForwardKeepsChars(members, c);
    }
  }

  // ----- what is read back -----

  lemma BodyBracket(t: string)
    requires t != "" && t[0] == '['
    ensures var neg := |t| >= 2 && t[1] == '^';
            Re2.Body(t) == match Re2.ClassRanges(if neg then t[2..] else t[1..], true)
                           case None => None
                           case Some((ranges, rest)) => Re2.Then(Re2.Class(neg, ranges), Re2.Body(rest))
  {
    hide Re2.ClassRanges, Re2.Class, Re2.Then;
  }

  /** A bracket expression takes one character of the members read in it, or one of the others. */
  lemma BodyClass(inner: string, members: seq<Member>, rest: string)
    requires Re2.ClassRanges(inner + "]" + rest, true) == Some((AsRanges(members), rest))
    requires inner != "" && inner[0] != '^'
    ensures Re2.Body("[" + inner + "]" + rest) == Re2.Then(One(CharsOf(members)), Re2.Body(rest))
  {
    hide Re2.ClassRanges, Re2.Body, AsRanges;
    var t := "[" + inner + "]" + rest;
    assert t[1..] == inner + "]" + rest && t[1] == inner[0];
    SameChars(members);
    BodyBracket(t);
  }

  lemma BodyNegated(inner: string, members: seq<Member>, rest: string)
    requires Re2.ClassRanges(inner + "]" + rest, true) == Some((AsRanges(members), rest))
    ensures Re2.Body("[^" + inner + "]" + rest) == Re2.Then(One(Anything() - CharsOf(members)), Re2.Body(rest))
  {
    hide Re2.ClassRanges, Re2.Body, AsRanges;
    var t := "[^" + inner + "]" + rest;
    assert t[2..] == inner + "]" + rest && t[1] == '^';
    SameChars(members);
    BodyBracket(t);
  }

  lemma BodyAny(rest: string)
    requires rest == "" || rest[0] != '*'
    ensures Re2.Body("." + rest) == Re2.Then(One(Anything()), Re2.Body(rest))
  {
    assert ("." + rest)[1..] == rest;
  }

  /** What follows the first character of the first member, before and after escaping for RE2. */
  function Tail(kept: seq<Member>): string
    requires kept != []
  {
    (if kept[0].Range? then "-" + Escaped(kept[0].hi) else "") + Render(kept[1..])
  }

  function FullTail(kept: seq<Member>): string
    requires kept != []
  {
    (if kept[0].Range? then "-" + Fully(kept[0].hi) else "") + FullRender(kept[1..])
  }

  lemma Tails(kept: seq<Member>)
    requires kept != []
    ensures Render(kept) == Escaped(First(kept[0])) + Tail(kept)
    ensures FullRender(kept) == Fully(First(kept[0])) + FullTail(kept)
    ensures ClassBody(Tail(kept)) == FullTail(kept)
  {
    hide ClassBody, Escaped, Fully, Render, FullRender;
    ClassBodyRender(kept[1..]);
    MemberTail(kept[0], Render(kept[1..]), FullRender(kept[1..]));
    RenderFirst(kept);
  }

  lemma RenderFirst(kept: seq<Member>)
    requires kept != []
    ensures Render(kept) == MemberText(kept[0]) + Render(kept[1..])
    ensures FullRender(kept) == FullText(kept[0]) + FullRender(kept[1..])
  {
  }

  lemma MemberTail(m: Member, rest: string, full: string)
    requires ClassBody(rest) == full
    ensures MemberText(m) + rest == Escaped(First(m)) + ((if m.Range? then "-" + Escaped(m.hi) else "") + rest)
    ensures FullText(m) + full == Fully(First(m)) + ((if m.Range? then "-" + Fully(m.hi) else "") + full)
    ensures ClassBody((if m.Range? then "-" + Escaped(m.hi) else "") + rest)
         == (if m.Range? then "-" + Fully(m.hi) else "") + full
  {
    hide ClassBody, Escaped, Fully;
    match m
    case Single(c) =>
      assert "" + rest == rest && "" + full == full;
    case Range(lo, hi) =>
      Regroup(Escaped(lo), "-", Escaped(hi), rest);
      Regroup(Fully(lo), "-", Fully(hi), full);
      Associate("-", Escaped(hi), rest);
      Associate("-", Fully(hi), full);
      ClassBodyOne(hi, Escaped(hi) + rest);
      ClassBodyOne(hi, rest);
  }

  predicate AllForward(members: seq<Member>) {
    forall i :: 0 <= i < |members| ==> !Backward(members[i])
  }

  // What the text of a class is, whichever way it starts.

  lemma NegatedText(kept: seq<Member>)
    ensures Bracketed("!" + Render(kept)) == Some(if kept == [] then "." else "[^" + FullRender(kept) + "]")
  {
    if kept != [] {
      Tails(kept);
      hide Render, FullRender;
      BangFront(Render(kept));
      ClassBodyRender(kept);
    }
  }

  lemma BangFront(u: string)
    requires u != ""
    ensures Bracketed("!" + u) == Some("[^" + ClassBody(u) + "]")
  {
    assert ("!" + u)[1..] == u;
    ClassBodyOne('x', u);
    assert "[" + ("^" + ClassBody(u)) + "]" == "[^" + ClassBody(u) + "]";
  }

  lemma CaretFront(u: string)
    ensures Bracketed("^" + u) == Some("[" + ("\\^" + ClassBody(u)) + "]")
  {
    assert "\\" + ("^" + u) == "\\^" + u;
    ClassBodyOne('x', u);
  }

  lemma OtherFront(stuff: string)
    requires stuff != "" && stuff[0] != '!' && stuff[0] != '^'
    ensures Bracketed(stuff) == Some("[" + ClassBody(stuff) + "]")
  {
    if stuff[0] == '[' {
      assert ("\\" + stuff)[..2] == "\\[" && ("\\" + stuff)[2..] == stuff[1..];
    }
  }

  lemma PlainText(kept: seq<Member>)
    requires kept != [] && First(kept[0]) != '!'
    ensures Bracketed(Render(kept)) ==
            Some("[" + (if First(kept[0]) == '^' then "\\^" + FullTail(kept) else FullRender(kept)) + "]")
  {
    Tails(kept);
    ClassBodyRender(kept);
    hide Render, FullRender, Tail, FullTail, ClassBody, Bracketed;
    if First(kept[0]) == '^' { CaretFront(Tail(kept)); } else { OtherFront(Render(kept)); }
  }

  // What each of those texts means.

  lemma NegatedMeaning(kept: seq<Member>, rest: string)
    requires AllForward(kept) && (rest == "" || rest[0] != '*')
    ensures match Bracketed("!" + Render(kept))
            case None => false
            case Some(t) => Re2.Body(t + rest) == Re2.Then(One(Anything() - CharsOf(kept)), Re2.Body(rest))
  {
    hide Bracketed, Render, FullRender, Re2.Body, Re2.ClassRanges;
    NegatedText(kept);
    if kept == [] {
      BodyAny(rest);
      assert CharsOf(kept) == iset{};
      assert Anything() - CharsOf(kept) == Anything();
    } else {
      ReadClass(kept, rest, true);
      BodyNegated(FullRender(kept), kept, rest);
    }
  }

  lemma PlainMeaning(kept: seq<Member>, rest: string)
    requires AllForward(kept) && kept != [] && First(kept[0]) != '!'
    ensures match Bracketed(Render(kept))
            case None => false
            case Some(t) => Re2.Body(t + rest) == Re2.Then(One(CharsOf(kept)), Re2.Body(rest))
  {
    hide Bracketed, Render, FullRender, FullTail, Re2.Body, Re2.ClassRanges;
    PlainText(kept);
    if First(kept[0]) == '^' {
      CaretRead(kept, rest);
      BodyClass("\\^" + FullTail(kept), kept, rest);
    } else {
      ReadClass(kept, rest, true);
      Tails(kept);
      BodyClass(FullRender(kept), kept, rest);
    }
  }

  lemma CaretRead(kept: seq<Member>, rest: string)
    requires AllForward(kept) && kept != [] && First(kept[0]) == '^'
    ensures Re2.ClassRanges("\\^" + FullTail(kept) + "]" + rest, true) == Some((AsRanges(kept), rest))
  {
    hide FullRender, Re2.ClassRanges;
    var t := "\\^" + FullTail(kept) + "]" + rest;
    var u := FullRender(kept[1..]) + "]" + rest;
    ReadClass(kept[1..], rest, false);
    FullStart(kept[1..], rest);
    if kept[0].Single? {
      assert t[2..] == u;
      ReadSingle(t, '^', u, true);
    } else {
      assert t[2..] == "-" + (Fully(kept[0].hi) + u);
      ReadRange(t, '^', kept[0].hi, u, true);
    }
  }

  lemma BangText(kept: seq<Member>)
    requires kept != [] && First(kept[0]) == '!' && Misread(kept) != []
    ensures Bracketed(Render(kept)) == Some("[^" + FullTail(kept) + "]")
  {
    Tails(kept);
    assert kept[0].Single? ==> Tail(kept) == Render(kept[1..]);
    assert Tail(kept) != "" by { if kept[0].Single? { Tails(kept[1..]); } }
    hide Render, Tail, FullTail, ClassBody, Bracketed;
    BangFront(Tail(kept));
  }

  lemma DashFirst(own: seq<Member>, rest: string)
    requires AllForward(own)
    ensures Re2.ClassRanges("-" + (FullRender(own) + "]" + rest), true) == Some((AsRanges([Single('-')] + own), rest))
  {
    hide Re2.ClassRanges, FullRender;
    var u := FullRender(own) + "]" + rest;
    assert ("-" + u)[1..] == u;
    ReadClass(own, rest, false);
    FullStart(own, rest);
    ReadSingle("-" + u, '-', u, true);
    assert ([Single('-')] + own)[1..] == own;
  }

  lemma BangTail(kept: seq<Member>, rest: string)
    requires kept != [] && kept[0].Range?
    ensures FullTail(kept) + "]" + rest == "-" + (FullRender([Single(kept[0].hi)] + kept[1..]) + "]" + rest)
  {
    assert ([Single(kept[0].hi)] + kept[1..])[1..] == kept[1..];
  }

  lemma BangRead(kept: seq<Member>, rest: string)
    requires AllForward(kept) && kept != [] && First(kept[0]) == '!' && Misread(kept) != []
    ensures Re2.ClassRanges(FullTail(kept) + "]" + rest, true) == Some((AsRanges(Misread(kept)), rest))
  {
    hide Re2.ClassRanges, FullRender, AsRanges;
    if kept[0].Single? {
      assert FullTail(kept) == FullRender(kept[1..]);
      ReadClass(kept[1..], rest, true);
    } else {
      var own := [Single(kept[0].hi)] + kept[1..];
      assert Misread(kept) == [Single('-')] + own;
      BangTail(kept, rest);
      DashFirst(own, rest);
    }
  }

  lemma BangMeaning(kept: seq<Member>, rest: string)
    requires AllForward(kept) && kept != [] && First(kept[0]) == '!' && (rest == "" || rest[0] != '*')
    ensures match Bracketed(Render(kept))
            case None => false
            case Some(t) => Re2.Body(t + rest) == Re2.Then(One(Anything() - CharsOf(Misread(kept))), Re2.Body(rest))
  {
    if Misread(kept) == [] {
      assert kept[1..] == [];
      Tails(kept);
      assert Render(kept) == "!" + Render([]);
      NegatedMeaning([], rest);
    } else {
      hide Bracketed, Render, FullTail, Re2.Body, Re2.ClassRanges, Misread;
      BangText(kept);
      BangRead(kept, rest);
      BodyNegated(FullTail(kept), Misread(kept), rest);
    }
  }

  /** Nothing is given for just those classes that are not negated and list no character. */
  lemma ClassEmptyExactly(body: string)
    ensures Bracketed(Stuff(body)).None? <==> !Negated(body) && CharsOf(Members(Listed(body))) == iset{}
  {
    var kept := Forward(Members(Listed(body)));
    FoldingKeepsChars(Members(Listed(body)));
    hide ClassBody, Members, Forward, Listed;
    if kept == [] {
      assert CharsOf(kept) == iset{};
    } else {
      assert First(kept[0]) in CharsOf(kept);
      RenderFirst(kept);
      assert MemberText(kept[0]) != "";
    }
  }

  /** What a class turns into, for every class. */
  lemma ClassMeaning(body: string, rest: string)
    requires rest == "" || rest[0] != '*'
    ensures match Bracketed(Stuff(body))
            case None => ClassChars(body) == iset{} && !ExposesBang(body)
            case Some(t) => Re2.Body(t + rest) == Re2.Then(One(EmittedChars(body)), Re2.Body(rest))
    ensures Bracketed(Stuff(body)).None? <==> !Negated(body) && CharsOf(Members(Listed(body))) == iset{}
  {
    ClassEmptyExactly(body);
    var kept := Forward(Members(Listed(body)));
    FoldingKeepsChars(Members(Listed(body)));
    if Negated(body) {
      NegatedMeaning(kept, rest);
    } else if kept == [] {
      assert CharsOf(kept) == iset{};
    } else {
      assert Stuff(body) == Render(kept);
      if First(kept[0]) == '!' { BangMeaning(kept, rest); } else { PlainMeaning(kept, rest); }
    }
  }

  // ----- whole patterns -----

  /** What the steps of the expression are: the pattern's own, but for the classes that are misread. */
  ghost function EmittedStep(item: Item): Step {
    match item
    case Class(body) => One(EmittedChars(body))
    case _ => StepOf(item)
  }

  ghost function EmittedSteps(items: seq<Item>): (r: seq<Step>)
    ensures |r| == |items| && forall i :: 0 <= i < |items| ==> r[i] == EmittedStep(items[i])
  {
    if items == [] then [] else [EmittedStep(items[0])] + EmittedSteps(items[1..])
  }

  lemma LiteralMeaning(c: char, rest: string)
    ensures Re2.Body(QuoteMeta(c) + rest) == Re2.Then(One(iset{c}), Re2.Body(rest))
  {
    var t := QuoteMeta(c) + rest;
    assert t[|QuoteMeta(c)|..] == rest;
    if c in Re2.SPECIAL {
      assert Re2.Punctuation(c);
    } else {
      assert '.' in Re2.SPECIAL && '\\' in Re2.SPECIAL && '[' in Re2.SPECIAL by {
        assert Re2.SPECIAL[1] == '.' && Re2.SPECIAL[0] == '\\' && Re2.SPECIAL[8] == '[';
      }
    }
  }

  lemma StarMeaning(rest: string)
    ensures Re2.Body(".*" + rest) == Re2.Then(Run, Re2.Body(rest))
  {
    assert (".*" + rest)[2..] == rest;
  }

  lemma ItemMeaning(item: Item, rest: string)
    requires rest == "" || rest[0] != '*'
    ensures match ItemText(item)
            case None => item.Class? && ClassChars(item.body) == iset{} && !ExposesBang(item.body)
            case Some(t) => Re2.Body(t + rest) == Re2.Then(EmittedStep(item), Re2.Body(rest)) && (t == "" || t[0] != '*')
  {
    hide Re2.Body, Stuff, ExposesBang;
    match item
    case Star => StarMeaning(rest);
    case Any => BodyAny(rest);
    case Literal(c) => LiteralMeaning(c, rest);
    case Class(body) => ClassMeaning(body, rest);
  }

  lemma {:induction false} TextsStart(items: seq<Item>)
    ensures match Texts(items) case None => true case Some(t) => t == "" || t[0] != '*'
  {
    if items != [] {
      TextsStart(items[1..]);
      assert '*' in Re2.SPECIAL by { assert Re2.SPECIAL[3] == '*'; }
      hide Stuff, ClassBody;
    }
  }

  /** The expression is well formed, and its steps are those of the items; it is missing only where a class is empty. */
  lemma {:induction false} TextsMeaning(items: seq<Item>)
    ensures match Texts(items)
            case None => exists i :: 0 <= i < |items| && items[i].Class? && ClassChars(items[i].body) == iset{}
            case Some(t) => Re2.Body(t) == Some(EmittedSteps(items))
  {
    if items != [] {
      TextsMeaning(items[1..]);
      TextsStart(items[1..]);
      hide Re2.Body, EmittedStep, ItemText, ClassChars;
      match Texts(items[1..])
      case None =>
        var i :| 0 <= i < |items[1..]| && items[1..][i].Class? && ClassChars(items[1..][i].body) == iset{};
        assert items[i + 1].Class?;
      case Some(rest) => ItemMeaning(items[0], rest);
    }
  }

  lemma TranslateMeaning(pattern: string)
    ensures match Translate(pattern)
            case None => exists item :: item in Items(pattern) && item.Class? && ClassChars(item.body) == iset{}
            case Some(expr) => Re2.Meaning(expr) == Some(EmittedSteps(CollapseStars(Items(pattern))))
  {
    hide Re2.Body, Texts, Items, ClassChars, CollapseStars;
    var items := CollapseStars(Items(pattern));
    TextsMeaning(items);
    match Texts(items)
    case None =>
      var i :| 0 <= i < |items| && items[i].Class? && ClassChars(items[i].body) == iset{};
      assert items[i] in Items(pattern);
    case Some(t) => Anchored(t);
  }

  lemma Anchored(t: string)
    ensures Re2.Meaning(Re2.OPEN + t + Re2.CLOSE) == Re2.Body(t)
  {
    var expr := Re2.OPEN + t + Re2.CLOSE;
    assert expr[..|Re2.OPEN|] == Re2.OPEN && expr[|expr| - |Re2.CLOSE|..] == Re2.CLOSE;
    assert expr[|Re2.OPEN|..|expr| - |Re2.CLOSE|] == t;
  }

  lemma {:induction false} CollapseEmitted(items: seq<Item>)
    ensures EmittedSteps(CollapseStars(items)) == Collapse(EmittedSteps(items))
    decreases |items|
  {
    if |items| >= 2 {
      var e := EmittedSteps(items);
      assert e[1..] == EmittedSteps(items[1..]);
      CollapseEmitted(items[1..]);
      if !(items[0].Star? && items[1].Star?) {
        assert CollapseStars(items)[1..] == CollapseStars(items[1..]);
      }
    }
  }

  // ----- when the translation means the pattern -----

  predicate Misreads(pattern: string) {
    exists i :: 0 <= i < |Items(pattern)| && Items(pattern)[i].Class? && ExposesBang(Items(pattern)[i].body)
  }

  /** Some class of the pattern lists nothing that exists, so that the pattern denotes no name at all. */
  ghost predicate Barren(pattern: string) {
    exists i :: 0 <= i < |Items(pattern)| && Items(pattern)[i].Class? && ClassChars(Items(pattern)[i].body) == iset{}
  }

  lemma {:induction false} OwnChar(members: seq<Member>, i: nat)
    requires AllForward(members) && i < |members|
    ensures First(members[i]) in CharsOf(members)
    ensures members[i].Range? ==> members[i].hi in CharsOf(members)
  {
    assert IsMember(members[i], First(members[i]));
    assert members[i].Range? ==> IsMember(members[i], members[i].hi);
  }

  /** A class that is misread always loses or gains a character. */
  lemma MisreadDiffers(body: string)
    requires ExposesBang(body)
    ensures ClassChars(body) != iset{} && ClassChars(body) != EmittedChars(body)
  {
    var kept := Forward(Members(body));
    FoldingKeepsChars(Members(body));
    assert ClassChars(body) == CharsOf(kept) && EmittedChars(body) == Anything() - CharsOf(Misread(kept));
    OwnChar(kept, 0);
    if Misread(kept) == [] {
      assert !AnyMember(kept, 'a') && 'a' in Anything() - CharsOf([]);
    } else if kept[0].Single? {
      OwnChar(kept, 1);
      OwnChar(Misread(kept), 0);
      assert First(kept[1]) in CharsOf(kept) && First(kept[1]) !in EmittedChars(body);
    } else {
      OwnChar(Misread(kept), 1);
      assert kept[0].hi in CharsOf(kept) && kept[0].hi !in EmittedChars(body);
    }
  }

  /** A name is accepted exactly when the emitted steps match it. */
  lemma AcceptsEmitted(pattern: string, name: string)
    ensures Accepts(pattern, name) <==> Matches(EmittedSteps(Items(pattern)), name)
  {
    hide Translate, Matches, ClassChars, Items, ExposesBang;
    TranslateMeaning(pattern);
    CollapseEmitted(Items(pattern));
    CollapseLosesNothing(EmittedSteps(Items(pattern)), name);
    if Translate(pattern).None? {
      assert Barren(pattern);
      BarrenMatchesNothing(pattern, name);
    }
  }

  lemma BarrenMatchesNothing(pattern: string, name: string)
    requires Barren(pattern)
    ensures !Matches(EmittedSteps(Items(pattern)), name) && !Denotes(pattern, name)
  {
    hide ClassChars, Items, ExposesBang, Matches;
    var items := Items(pattern);
    var i :| 0 <= i < |items| && items[i].Class? && ClassChars(items[i].body) == iset{};
    if ExposesBang(items[i].body) { MisreadDiffers(items[i].body); }
    assert EmittedSteps(items)[i] == One(iset{}) && Steps(items)[i] == One(iset{});
    EmptySetNoMatch(EmittedSteps(items), name);
    EmptySetNoMatch(Steps(items), name);
  }

  lemma {:induction false} SetAt(steps: seq<Step>, i: nat)
    requires i < |steps| && steps[i].One?
    ensures Ones(steps[..i]) < Ones(steps) && Sets(steps)[Ones(steps[..i])] == steps[i].chars
  {
    var rest := steps[1..];
    var own := if steps[0].One? then [steps[0].chars] else [];
    assert Sets(steps) == own + Sets(rest);
    if i == 0 {
      assert steps[..i] == [];
    } else {
      SetAt(rest, i - 1);
      assert rest[..i - 1] == steps[..i][1..] && rest[i - 1] == steps[i] && steps[..i][0] == steps[0];
      assert Ones(steps[..i]) == |own| + Ones(rest[..i - 1]);
    }
  }

  lemma {:induction false} SameShape(a: seq<Step>, b: seq<Step>)
    requires |a| == |b| && forall i :: 0 <= i < |a| ==> (a[i].One? <==> b[i].One?)
    ensures Ones(a) == Ones(b)
  {
    if a != [] { SameShape(a[1..], b[1..]); }
  }

  lemma {:induction false} Witness(steps: seq<Step>) returns (s: string)
    requires forall i :: 0 <= i < |steps| && steps[i].One? ==> steps[i].chars != iset{}
    ensures |s| == Ones(steps) && InAll(Sets(steps), s)
  {
    s := "";
    if steps != [] {
      assert forall i :: 0 <= i < |steps[1..]| ==> steps[1..][i] == steps[i + 1];
      s := Witness(steps[1..]);
      if steps[0].One? {
        var c :| c in steps[0].chars;
        s := [c] + s;
      }
    }
  }

  lemma StepsNonEmpty(pattern: string, i: nat)
    requires !Barren(pattern) && i < |Items(pattern)| && StepOf(Items(pattern)[i]).One?
    ensures StepOf(Items(pattern)[i]).chars != iset{}
  {
    hide ClassChars, Items;
    match Items(pattern)[i]
    case Any => assert 'a' in Anything();
    case Literal(c) => assert c in iset{c};
    case Class(body) => assert ClassChars(body) != iset{};
  }

  lemma MisreadIsSeen(pattern: string)
    requires !Barren(pattern) && Misreads(pattern)
    ensures exists name :: !(Accepts(pattern, name) <==> Denotes(pattern, name))
  {
    hide Matches, Items, Accepts, ClassChars, ExposesBang, EmittedChars;
    var items := Items(pattern);
    var a, b := Steps(items), EmittedSteps(items);
    var i :| 0 <= i < |items| && items[i].Class? && ExposesBang(items[i].body);
    forall k | 0 <= k < |a| && a[k].One?
      ensures a[k].chars != iset{}
    {
      StepsNonEmpty(pattern, k);
    }
    var s := Witness(a);
    SameShape(a, b);
    SameShape(a[..i], b[..i]);
    SetAt(a, i);
    SetAt(b, i);
    MisreadDiffers(items[i].body);
    if forall t :: Matches(a, t) <==> Matches(b, t) {
      SameLanguageSameSets(a, b, s, Ones(a[..i]));
      assert false;
    }
    var t :| !(Matches(a, t) <==> Matches(b, t));
    AcceptsEmitted(pattern, t);
  }

  /**
  The translation accepts exactly the names that the pattern denotes, unless folding brings a `!` to the front of one of
  its classes; and then it does not, unless another of its classes is empty, so that neither matches anything.
  */
  lemma TranslatePreserves(pattern: string)
    ensures (forall name :: Accepts(pattern, name) <==> Denotes(pattern, name)) <==> Barren(pattern) || !Misreads(pattern)
  {
    hide Matches, Items, Accepts, ClassChars, ExposesBang, EmittedChars;
    if Barren(pattern) || !Misreads(pattern) {
      forall name
        ensures Accepts(pattern, name) <==> Denotes(pattern, name)
      {
        AcceptsEmitted(pattern, name);
        if Barren(pattern) { BarrenMatchesNothing(pattern, name); } else { NothingMisread(pattern); }
      }
    } else {
      MisreadIsSeen(pattern);
    }
  }

  lemma NothingMisread(pattern: string)
    requires !Misreads(pattern)
    ensures EmittedSteps(Items(pattern)) == Steps(Items(pattern))
  {
    hide Items, ClassChars, ExposesBang;
    forall i | 0 <= i < |Items(pattern)|
      ensures EmittedStep(Items(pattern)[i]) == StepOf(Items(pattern)[i])
    {
      assert Items(pattern)[i].Class? ==> !ExposesBang(Items(pattern)[i].body);
    }
  }

  /** A pattern of the kind: b to a, which is no range, and `!`. It denotes the one name "!", and accepts any character. */
  lemma BangExample(c: char)
    ensures Accepts("[b-a!]", [c]) && (Denotes("[b-a!]", [c]) <==> c == '!')
  {
    var body := "b-a!";
    assert body[3..] == "!" && "!"[1..] == "";
    assert Members(body) == [Range('b', 'a'), Single('!')] by {
      assert Members("!") == [Single('!')];
    }
    var kept := Forward(Members(body));
    assert kept == [Single('!')] by {
      assert Members(body)[1..] == [Single('!')] && [Single('!')][1..] == [];
      assert Forward([Single('!')]) == [Single('!')];
    }
    ExampleItems();
    FoldingKeepsChars(Members(body));
    assert EmittedChars(body) == Anything() - CharsOf([]) && CharsOf([]) == iset{};
    var steps := Steps([Class(body)]);
    AcceptsEmitted("[b-a!]", [c]);
    assert [c][1..] == "";
    assert IsMember(kept[0], c) <==> c == '!';
    assert AnyMember(kept, c) <==> c == '!';
    assert EmittedSteps([Class(body)]) == [One(EmittedChars(body))];
    assert steps == [One(ClassChars(body))] && steps[1..] == [];
    assert c in EmittedChars(body);
  }

  lemma ExampleItems()
    ensures Items("[b-a!]") == [Class("b-a!")]
  {
    var p := "[b-a!]";
    assert CloseAt(p, 5) == 5;
    assert CloseAt(p, 4) == 5;
    assert CloseAt(p, 3) == 5;
    assert CloseAt(p, 2) == 5;
    assert Close(p) == 5;
    assert p[1..5] == "b-a!" && p[6..] == "";
  }

  // ----- chunks -----

  /** A class cut at the `-` of each range. */
  function Chunks(members: seq<Member>): (r: seq<string>)
    ensures r != [] && (r[0] == "" <==> members == [])
  {
    if members == [] then [""]
    else
      var rest := Chunks(members[1..]);
      match members[0]
      case Single(c) => Before(c, rest)
      case Range(lo, hi) => [[lo]] + Before(hi, rest)
  }

  function Before(c: char, chunks: seq<string>): (r: seq<string>)
    requires chunks != []
    ensures |r| == |chunks| && r[0] == [c] + chunks[0] && r[1..] == chunks[1..]
  {
    [[c] + chunks[0]] + chunks[1..]
  }

  function Prefixed(s: string, chunks: seq<string>): (r: seq<string>)
    requires chunks != []
    ensures |r| == |chunks| && r[0] == s + chunks[0] && r[1..] == chunks[1..]
  {
    [s + chunks[0]] + chunks[1..]
  }

  predicate NoDash(b: string, from: nat, until: nat)
    requires until <= |b|
  {
    forall i :: from <= i < until ==> b[i] != '-'
  }

  /** Without a `-` that has something on both sides, a class is one chunk. */
  lemma {:induction false} OneChunk(b: string)
    requires |b| > 0 ==> NoDash(b, 1, |b| - 1)
    ensures Chunks(Members(b)) == [b]
    decreases |b|
  {
    if b != "" {
      OneChunk(b[1..]);
      assert b == [b[0]] + b[1..];
      assert Members(b) == [Single(b[0])] + Members(b[1..]);
      assert Members(b)[1..] == Members(b[1..]);
    }
  }

  /** The first `-` with something on both sides ends the first chunk. */
  lemma {:induction false} FirstChunk(b: string, m: nat)
    requires 1 <= m && m + 1 < |b| && b[m] == '-' && NoDash(b, 1, m)
    ensures Chunks(Members(b)) == [b[..m]] + Before(b[m + 1], Chunks(Members(b[m + 2..])))
    decreases m
  {
    if m == 1 {
      assert Members(b) == [Range(b[0], b[2])] + Members(b[3..]);
      assert Members(b)[1..] == Members(b[3..]) && b[..1] == [b[0]];
    } else {
      FirstChunk(b[1..], m - 1);
      assert Members(b) == [Single(b[0])] + Members(b[1..]);
      assert Members(b)[1..] == Members(b[1..]);
      assert b[..m] == [b[0]] + b[1..][..m - 1];
      assert b[1..][m - 1 + 2..] == b[m + 2..] && b[1..][m] == b[m + 1];
      var rest := Before(b[m + 1], Chunks(Members(b[m + 2..])));
      assert ([b[1..][..m - 1]] + rest)[1..] == rest;
    }
  }

  // ----- folding -----

  /** From the right: where a chunk ends above the start of the next, both ends go and the two become one. */
  function Fold(chunks: seq<string>): (r: seq<string>)
    ensures chunks != [] ==> r != []
  {
    if |chunks| < 2 then chunks else FoldPair(chunks[0], Fold(chunks[1..]))
  }

  function FoldPair(prev: string, chunks: seq<string>): (r: seq<string>)
    requires chunks != []
    ensures r != []
  {
    var cur := chunks[0];
    if prev != "" && cur != "" && prev[|prev| - 1] > cur[0]
    then [prev[..|prev| - 1] + cur[1..]] + chunks[1..]
    else [prev] + chunks
  }

  lemma PairPrefixed(s: string, prev: string, chunks: seq<string>)
    requires chunks != [] && prev != ""
    ensures FoldPair(s + prev, chunks) == Prefixed(s, FoldPair(prev, chunks))
  {
    var cur := chunks[0];
    assert (s + prev)[|s + prev| - 1] == prev[|prev| - 1];
    if cur != "" && prev[|prev| - 1] > cur[0] {
      assert (s + prev)[..|s + prev| - 1] + cur[1..] == s + (prev[..|prev| - 1] + cur[1..]);
    }
  }

  /** Folding looks at the end of the first chunk only. */
  lemma FoldPrefixed(s: string, chunks: seq<string>)
    requires chunks != [] && (chunks[0] != "" || |chunks| == 1)
    ensures Fold(Prefixed(s, chunks)) == Prefixed(s, Fold(chunks))
  {
    hide FoldPair;
    if |chunks| >= 2 {
      assert Prefixed(s, chunks)[1..] == chunks[1..];
      PairPrefixed(s, chunks[0], Fold(chunks[1..]));
    }
  }

  /** Folding the chunks removes just the ranges that run backwards. */
  lemma {:induction false} FoldChunks(members: seq<Member>)
    ensures Fold(Chunks(members)) == Chunks(Forward(members))
  {
    if members != [] {
      var rest := Chunks(members[1..]);
      var folded := Chunks(Forward(members[1..]));
      FoldChunks(members[1..]);
      hide Fold;
      assert |rest| == 1 || rest[0] != "" by { ChunksSolid(members[1..]); }
      match members[0]
      case Single(c) =>
        FoldPrefixed([c], rest);
        assert Forward(members)[1..] == Forward(members[1..]);
        assert Prefixed([c], folded) == Before(c, folded) && Prefixed([c], rest) == Before(c, rest);
      case Range(lo, hi) =>
        FoldPrefixed([hi], rest);
        assert Prefixed([hi], folded) == Before(hi, folded) && Prefixed([hi], rest) == Before(hi, rest);
        FoldRange(lo, hi, rest, folded);
        if lo <= hi {
          assert Forward(members) == [members[0]] + Forward(members[1..]);
          assert Forward(members)[1..] == Forward(members[1..]);
        } else {
          assert Forward(members) == Forward(members[1..]);
        }
    }
  }

  lemma ChunksSolid(members: seq<Member>)
    ensures |Chunks(members)| == 1 || Chunks(members)[0] != ""
  {
  }

  lemma FoldRange(lo: char, hi: char, rest: seq<string>, folded: seq<string>)
    requires rest != [] && folded != [] && Fold(Before(hi, rest)) == Before(hi, folded)
    ensures Fold([[lo]] + Before(hi, rest)) == if lo > hi then folded else [[lo]] + Before(hi, folded)
  {
    var chunks := [[lo]] + Before(hi, rest);
    assert chunks[1..] == Before(hi, rest);
    assert ([hi] + folded[0])[1..] == folded[0] && [lo][..0] + folded[0] == folded[0];
    assert folded == [folded[0]] + folded[1..];
  }

  // ----- the text of the chunks -----

  function Joined(chunks: seq<string>): string
    requires chunks != []
  {
    if |chunks| == 1 then EscapedText(chunks[0]) else EscapedText(chunks[0]) + "-" + Joined(chunks[1..])
  }

  lemma Regrouped(a: string, b: string, c: string)
    ensures (a + b) + c == a + (b + c)
    ensures a != "" ==> (a + b)[0] == a[0] && (a + b)[1..] == a[1..] + b
  {
  }

  lemma {:induction false} EscapedConcat(a: string, b: string)
    ensures EscapedText(a + b) == EscapedText(a) + EscapedText(b)
  {
    hide Escaped;
    if a == "" {
      assert a + b == b;
    } else {
      Regrouped(a, b, "");
      EscapedConcat(a[1..], b);
      Regrouped(Escaped(a[0]), EscapedText(a[1..]), EscapedText(b));
    }
  }

  lemma JoinedPrefixed(s: string, chunks: seq<string>)
    requires chunks != []
    ensures Joined(Prefixed(s, chunks)) == EscapedText(s) + Joined(chunks)
  {
    EscapedConcat(s, chunks[0]);
  }

  /** Escaped and joined by `-`, the chunks are the members written out. */
  lemma {:induction false} JoinedChunks(members: seq<Member>)
    ensures Joined(Chunks(members)) == Render(members)
  {
    if members != [] {
      var rest := Chunks(members[1..]);
      JoinedChunks(members[1..]);
      match members[0]
      case Single(c) =>
        JoinedPrefixed([c], rest);
        EscapedOne(c);
        assert Prefixed([c], rest) == Before(c, rest);
      case Range(lo, hi) =>
        JoinedPrefixed([hi], rest);
        EscapedOne(lo);
        EscapedOne(hi);
        assert Prefixed([hi], rest) == Before(hi, rest);
        var chunks := [[lo]] + Before(hi, rest);
        assert chunks[1..] == Before(hi, rest);
    }
  }

  lemma EscapedOne(c: char)
    ensures EscapedText([c]) == Escaped(c)
  {
    assert [c][1..] == "";
  }

  /** A class without `-` needs no chunks. */
  lemma {:induction false} DashlessRender(b: string)
    requires '-' !in b
    ensures Render(Forward(Members(b))) == EscapedText(b)
    decreases |b|
  {
    if b != "" {
      DashlessRender(b[1..]);
      assert Members(b) == [Single(b[0])] + Members(b[1..]);
      assert Members(b)[1..] == Members(b[1..]);
      assert Forward(Members(b))[1..] == Forward(Members(b[1..]));
    }
  }

  // ----- the loops themselves -----

  /** The index of the first r in pat[start..end], or -1. */
  method FindRune(pat: string, r: char, start: int, end: int) returns (m: int)
    ensures m == -1 || (Max(start, 0) <= m < end && m < |pat| && pat[m] == r)
    ensures forall i :: Max(start, 0) <= i < (if m == -1 then Min(end, |pat|) else m) ==> pat[i] != r
  {
    var i := Max(start, 0);
    while i < Min(end, |pat|)
      invariant Max(start, 0) <= i
      invariant forall k :: Max(start, 0) <= k < i && k < |pat| ==> pat[k] != r
    {
      if pat[i] == r { return i; }
      i := i + 1;
    }
    m := -1;
  }

  function Bang(body: string): string {
    if Negated(body) then "!" else ""
  }

  /** The chunks of a class, with the `!` in the first. */
  function ChunksOf(body: string): seq<string> {
    Prefixed(Bang(body), Chunks(Members(Listed(body))))
  }

  /** What is still to be cut: the text from i on, of which the characters before p are taken already. */
  function Uncut(body: string, i: nat, p: nat): seq<string>
    requires i <= p <= |body|
  {
    Prefixed(body[i..p], Chunks(Members(body[p..])))
  }

  lemma CutStart(body: string)
    ensures Uncut(body, 0, |Bang(body)|) == ChunksOf(body)
  {
    if Negated(body) { assert body[0..1] == "!"; } else { assert body[0..] == body; }
  }

  lemma CutOne(body: string, i: nat, p: nat, m: nat)
    requires i <= p < m && m + 1 < |body| && body[m] == '-' && NoDash(body, p + 1, m)
    ensures Uncut(body, i, p) == [body[i..m]] + Uncut(body, m + 1, m + 2)
  {
    var sub := body[p..];
    FirstChunk(sub, m - p);
    assert sub[..m - p] == body[p..m] && sub[m - p + 2..] == body[m + 2..] && sub[m - p + 1] == body[m + 1];
    assert body[i..p] + body[p..m] == body[i..m];
    assert body[m + 1..m + 2] == [body[m + 1]];
    var rest := Chunks(Members(body[m + 2..]));
    assert Before(body[m + 1], rest) == Uncut(body, m + 1, m + 2);
    assert ([body[p..m]] + Uncut(body, m + 1, m + 2))[1..] == Uncut(body, m + 1, m + 2);
  }

  lemma CutLast(body: string, i: nat, p: nat)
    requires i <= p <= |body| && (p < |body| ==> NoDash(body, p + 1, |body| - 1))
    ensures Uncut(body, i, p) == [body[i..]]
  {
    OneChunk(body[p..]);
    assert body[i..p] + body[p..] == body[i..];
    assert [body[p..]][1..] == [];
  }

  /** Cut a class at every `-` that can start a range; a `-` at its very end is a member. */
  method CutClass(body: string) returns (chunks: seq<string>)
    requires body != "" && body != "!"
    ensures chunks == ChunksOf(body)
  {
    hide Uncut, ChunksOf;
    chunks := [];
    var i := 0;
    var k := if body[0] == '!' then 2 else 1;
    ghost var p := |Bang(body)|;
    ghost var ended := false;
    CutStart(body);
    assert chunks + Uncut(body, i, p) == ChunksOf(body);
    while true
      invariant 0 <= i <= |body| && k > i
      invariant ended ==> i == |body| && chunks != []
                          && chunks[..|chunks| - 1] + [chunks[|chunks| - 1] + "-"] == ChunksOf(body)
      invariant !ended ==> i < |body| && i <= p <= |body| && k == p + 1 && chunks + Uncut(body, i, p) == ChunksOf(body)
      decreases |body| - i
    {
      var m := FindRune(body, '-', k, |body|);
      if m < 0 { break; }
      if m + 1 < |body| {
        CutOne(body, i, p, m);
        assert chunks + ([body[i..m]] + Uncut(body, m + 1, m + 2)) == (chunks + [body[i..m]]) + Uncut(body, m + 1, m + 2);
      } else {
        CutLast(body, i, p);
        assert body[i..] == body[i..m] + "-";
        ended := true;
      }
      chunks := chunks + [body[i..m]];
      i, k, p := m + 1, m + 3, m + 2;
    }
    var chunk := body[i..];
    if chunk != "" {
      CutLast(body, i, p);
      chunks := chunks + [chunk];
    } else if |chunks| > 0 {
      chunks := chunks[|chunks| - 1 := chunks[|chunks| - 1] + "-"];
    }
  }

  lemma FoldStep(all: seq<string>, k: nat)
    requires 0 < k < |all|
    ensures Fold(all[k - 1..]) == FoldPair(all[k - 1], Fold(all[k..]))
  {
    assert all[k - 1..][1..] == all[k..];
  }

  lemma FoldAt(chunks: seq<string>, k: nat, folded: seq<string>)
    requires 0 < k < |chunks| && chunks[k..] == folded && folded != []
    ensures var prev, cur := chunks[k - 1], chunks[k];
            chunks[..k - 1] + FoldPair(prev, folded) ==
            if prev != "" && cur != "" && prev[|prev| - 1] > cur[0]
            then chunks[..k - 1] + [prev[..|prev| - 1] + cur[1..]] + chunks[k + 1..]
            else chunks
  {
    var prev, front := chunks[k - 1], chunks[..k - 1];
    assert folded[0] == chunks[k];
    if prev != "" && folded[0] != "" && prev[|prev| - 1] > folded[0][0] {
      var joined := prev[..|prev| - 1] + folded[0][1..];
      assert folded[1..] == chunks[k + 1..];
      assert front + ([joined] + folded[1..]) == front + [joined] + folded[1..];
    } else {
      assert front + ([prev] + folded) == chunks;
    }
  }

  /** Fold the inverted ranges away, from the right. */
  method FoldClass(all: seq<string>) returns (chunks: seq<string>)
    requires all != []
    ensures chunks == Fold(all)
  {
    hide FoldPair, Fold;
    chunks := all;
    var k := |chunks| - 1;
    FoldLast(all);
    while k > 0
      invariant 0 <= k < |all|
      invariant chunks == all[..k] + Fold(all[k..])
    {
      var prev, cur := chunks[k - 1], chunks[k];
      FoldStep(all, k);
      FoldFront(all, k, chunks);
      FoldAt(chunks, k, Fold(all[k..]));
      if prev != "" && cur != "" && prev[|prev| - 1] > cur[0] {
        chunks := chunks[..k - 1] + [prev[..|prev| - 1] + cur[1..]] + chunks[k + 1..];
      }
      k := k - 1;
    }
    Whole(all);
    Whole(Fold(all));
  }

  lemma FoldLast(all: seq<string>)
    requires all != []
    ensures all == all[..|all| - 1] + Fold(all[|all| - 1..])
  {
  }

  lemma FoldFront(all: seq<string>, k: nat, chunks: seq<string>)
    requires 0 < k < |all| && chunks == all[..k] + Fold(all[k..])
    ensures k < |chunks| && chunks[k..] == Fold(all[k..]) && chunks[..k - 1] == all[..k - 1] && chunks[k - 1] == all[k - 1]
  {
    hide Fold;
    TakeFromFirst(all[..k], Fold(all[k..]), k - 1);
    TakeTwice(all, k, k - 1);
  }

  function ReplaceAll(s: string, c: char, text: string): string {
    if s == "" then "" else (if s[0] == c then text else [s[0]]) + ReplaceAll(s[1..], c, text)
  }

  function Join(parts: seq<string>): string {
    if parts == [] then "" else if |parts| == 1 then parts[0] else parts[0] + "-" + Join(parts[1..])
  }

  lemma {:induction false} ReplaceConcat(a: string, b: string, c: char, text: string)
    ensures ReplaceAll(a + b, c, text) == ReplaceAll(a, c, text) + ReplaceAll(b, c, text)
  {
    if a == "" {
      assert a + b == b;
    } else {
      Regrouped(a, b, "");
      ReplaceConcat(a[1..], b, c, text);
      Regrouped(if a[0] == c then text else [a[0]], ReplaceAll(a[1..], c, text), ReplaceAll(b, c, text));
    }
  }

  lemma {:induction false} ReplaceTwice(s: string)
    ensures ReplaceAll(ReplaceAll(s, '\\', "\\\\"), '-', "\\-") == EscapedText(s)
    ensures '-' !in s ==> ReplaceAll(s, '\\', "\\\\") == EscapedText(s)
  {
    if s != "" {
      ReplaceTwice(s[1..]);
      var own: string := if s[0] == '\\' then "\\\\" else [s[0]];
      ReplaceConcat(own, ReplaceAll(s[1..], '\\', "\\\\"), '-', "\\-");
      ReplaceOwn(s[0]);
    }
  }

  lemma ReplaceOwn(c: char)
    ensures ReplaceAll(if c == '\\' then "\\\\" else [c], '-', "\\-") == Escaped(c)
  {
    assert "\\\\"[1..] == "\\" && "\\"[1..] == "" && [c][1..] == "";
    assert ReplaceAll("\\", '-', "\\-") == "\\";
  }

  lemma {:induction false} JoinEscaped(chunks: seq<string>, texts: seq<string>)
    requires |texts| == |chunks| > 0 && forall i :: 0 <= i < |chunks| ==> texts[i] == EscapedText(chunks[i])
    ensures Join(texts) == Joined(chunks)
  {
    if |chunks| > 1 { JoinEscaped(chunks[1..], texts[1..]); }
  }

  /** The class as the translation writes it. */
  method ClassStuff(body: string) returns (stuff: string)
    requires body != ""
    ensures stuff == Stuff(body)
  {
    if '-' !in body {
      stuff := ReplaceAll(body, '\\', "\\\\");
      ReplaceTwice(body);
      PlainStuff(body);
    } else {
      var chunks := CutClass(body);
      chunks := FoldClass(chunks);
      ghost var folded := chunks;
      for idx := 0 to |chunks|
        invariant |chunks| == |folded|
        invariant forall i :: 0 <= i < idx ==> chunks[i] == EscapedText(folded[i])
        invariant forall i :: idx <= i < |folded| ==> chunks[i] == folded[i]
      {
        ReplaceTwice(chunks[idx]);
        chunks := chunks[idx := ReplaceAll(ReplaceAll(chunks[idx], '\\', "\\\\"), '-', "\\-")];
      }
      JoinEscaped(folded, chunks);
      stuff := Join(chunks);
      FoldedStuff(body);
    }
  }

  lemma PlainStuff(body: string)
    requires '-' !in body
    ensures EscapedText(body) == Stuff(body)
  {
    hide EscapedText, Render, Forward, Members;
    DashlessRender(Listed(body));
    if Negated(body) {
      assert body == "!" + body[1..];
      EscapedConcat("!", body[1..]);
      EscapedOne('!');
    }
  }

  /** Cut, folded and joined, a class is its forward members written out. */
  lemma FoldedStuff(body: string)
    requires body != "!"
    ensures Joined(Fold(ChunksOf(body))) == Stuff(body)
  {
    var members := Members(Listed(body));
    var bang := Bang(body);
    hide Fold, Joined, Render, Members;
    ChunksSolid(members);
    FoldPrefixed(bang, Chunks(members));
    FoldChunks(members);
    JoinedPrefixed(bang, Chunks(Forward(members)));
    JoinedChunks(Forward(members));
    EscapedOne('!');
  }

  lemma ClassBodyAt(stuff: string, i: nat)
    requires i < |stuff|
    ensures ClassBody(stuff[i..]) ==
            if stuff[i] == '\\' && i + 1 < |stuff| then [stuff[i], stuff[i + 1]] + ClassBody(stuff[i + 2..])
            else if stuff[i] == ']' || stuff[i] == '[' then ['\\', stuff[i]] + ClassBody(stuff[i + 1..])
            else [stuff[i]] + ClassBody(stuff[i + 1..])
  {
    var t := stuff[i..];
    assert t[1..] == stuff[i + 1..];
    if i + 1 < |stuff| { assert t[..2] == [stuff[i], stuff[i + 1]] && t[2..] == stuff[i + 2..]; }
  }

  method EscapeBrackets(stuff: string) returns (out: string)
    ensures out == ClassBody(stuff)
  {
    hide ClassBody;
    out := "";
    var i := 0;
    Whole(stuff);
    Whole(ClassBody(stuff));
    while i < |stuff|
      invariant 0 <= i <= |stuff| && out + ClassBody(stuff[i..]) == ClassBody(stuff)
    {
      ClassBodyAt(stuff, i);
      var c := stuff[i];
      ghost var was := out;
      if c == '\\' && i + 1 < |stuff| {
        out := out + [c];
        i := i + 1;
        out := out + [stuff[i]];
        TwoMore(was, c, stuff[i], ClassBody(stuff[i + 1..]));
      } else if c == ']' || c == '[' {
        out := out + ['\\'];
        out := out + [c];
        TwoMore(was, '\\', c, ClassBody(stuff[i + 1..]));
      } else {
        out := out + [c];
        Associate(was, [c], ClassBody(stuff[i + 1..]));
      }
      i := i + 1;
    }
    NoClassBody();
    Whole(stuff);
    Whole(out);
  }

  lemma TwoMore(out: string, a: char, b: char, rest: string)
    ensures ((out + [a]) + [b]) + rest == out + ([a, b] + rest)
  {
    assert [a] + [b] == [a, b];
    Associate(out, [a], [b]);
    Associate(out, [a, b], rest);
  }

  lemma NoClassBody()
    ensures ClassBody("") == ""
  {
  }

  // ----- the translation -----

  /** One `*`, or a piece of the expression. */
  datatype Piece = Wild | Text(text: string)

  function PieceText(p: Piece): string {
    if p.Wild? then ".*" else p.text
  }

  function PiecesText(res: seq<Piece>): string {
    if res == [] then "" else PiecesText(res[..|res| - 1]) + PieceText(res[|res| - 1])
  }

  function DropStars(items: seq<Item>): seq<Item> {
    if items != [] && items[0].Star? then DropStars(items[1..]) else items
  }

  predicate EndsWild(res: seq<Piece>) {
    res != [] && res[|res| - 1].Wild?
  }

  /** The items still to be written, where a star that follows a star is not. */
  function Unwritten(wild: bool, items: seq<Item>): seq<Item> {
    CollapseStars(if wild then DropStars(items) else items)
  }

  lemma {:induction false} CollapseAfterStar(items: seq<Item>)
    ensures CollapseStars([Star] + items) == [Star] + CollapseStars(DropStars(items))
  {
    assert ([Star] + items)[1..] == items;
    if items != [] && items[0].Star? {
      CollapseAfterStar(items[1..]);
      assert items == [Star] + items[1..];
    }
  }

  lemma UnwrittenStar(wild: bool, items: seq<Item>)
    ensures Unwritten(wild, [Star] + items) == (if wild then [] else [Star]) + Unwritten(true, items)
  {
    assert ([Star] + items)[1..] == items;
    CollapseAfterStar(items);
  }

  lemma UnwrittenItem(wild: bool, item: Item, items: seq<Item>)
    requires !item.Star?
    ensures Unwritten(wild, [item] + items) == [item] + Unwritten(false, items)
  {
    assert ([item] + items)[1..] == items;
  }

  function Append(s: string, rest: Option<string>): Option<string> {
    match rest
    case None => None
    case Some(t) => Some(s + t)
  }

  lemma TextsCons(item: Item, items: seq<Item>)
    ensures ItemText(item).Some? ==> Texts([item] + items) == Append(ItemText(item).value, Texts(items))
    ensures ItemText(item).None? ==> Texts([item] + items).None?
  {
    assert ([item] + items)[1..] == items;
  }

  lemma AppendAppend(a: string, b: string, rest: Option<string>)
    ensures Append(a, Append(b, rest)) == Append(a + b, rest)
  {
    if rest.Some? { assert a + (b + rest.value) == a + b + rest.value; }
  }

  /** One more item is written: either nothing, for a star after a star, or its own text. */
  lemma Written(res: seq<Piece>, item: Item, items: seq<Item>, piece: Piece)
    requires ItemText(item) == Some(PieceText(piece)) && (item.Star? <==> piece.Wild?)
    ensures var after := if item.Star? && EndsWild(res) then res else res + [piece];
            Append(PiecesText(res), Texts(Unwritten(EndsWild(res), [item] + items))) ==
            Append(PiecesText(after), Texts(Unwritten(EndsWild(after), items)))
  {
    hide ItemText, Texts, Unwritten;
    var rest := Unwritten(item.Star?, items);
    if item.Star? { UnwrittenStar(EndsWild(res), items); } else { UnwrittenItem(EndsWild(res), item, items); }
    if item.Star? && EndsWild(res) {
      assert [] + rest == rest;
    } else {
      TextsCons(item, rest);
      AppendAppend(PiecesText(res), PieceText(piece), Texts(rest));
      assert (res + [piece])[..|res|] == res;
    }
  }

  method Bracket(all: string) returns (text: string)
    requires all != ""
    ensures Bracketed(all) == Some(text)
  {
    if all == "!" { return "."; }
    var stuff := all;
    if stuff[0] == '!' {
      stuff := "^" + stuff[1..];
    } else if stuff[0] == '^' || stuff[0] == '[' {
      stuff := "\\" + stuff;
    }
    var escaped := EscapeBrackets(stuff);
    text := "[" + escaped + "]";
  }

  /** Where the class that opens at i is closed, or the end of the pattern. */
  method FindClose(pat: string, i: nat) returns (j: nat)
    requires i < |pat| && pat[i] == '['
    ensures j == i + Close(pat[i..])
  {
    ghost var rest := pat[i..];
    j := i + 1;
    if j < |pat| && pat[j] == '!' { j := j + 1; }
    if j < |pat| && pat[j] == ']' { j := j + 1; }
    assert j == i + CloseFrom(rest);
    while j < |pat| && pat[j] != ']'
      invariant i < j <= |pat| && CloseAt(rest, j - i) == Close(rest)
    {
      j := j + 1;
    }
  }

  lemma ItemsStar(pat: string, i: nat)
    requires i < |pat| && pat[i] == '*'
    ensures Items(pat[i..]) == [Star] + Items(pat[i + 1..])
  {
    assert pat[i..][1..] == pat[i + 1..];
  }

  lemma ItemsAny(pat: string, i: nat)
    requires i < |pat| && pat[i] == '?'
    ensures Items(pat[i..]) == [Any] + Items(pat[i + 1..])
  {
    assert pat[i..][1..] == pat[i + 1..];
  }

  lemma ItemsLiteral(pat: string, i: nat)
    requires i < |pat| && pat[i] != '*' && pat[i] != '?' && (pat[i] == '[' ==> i + Close(pat[i..]) >= |pat|)
    ensures Items(pat[i..]) == [Literal(pat[i])] + Items(pat[i + 1..])
  {
    hide Close;
    assert pat[i..][1..] == pat[i + 1..];
  }

  lemma ItemsClass(pat: string, i: nat, j: nat)
    requires i < |pat| && pat[i] == '[' && j == i + Close(pat[i..]) && j < |pat|
    ensures i + 1 < j && Items(pat[i..]) == [Class(pat[i + 1..j])] + Items(pat[j + 1..])
  {
    hide CloseAt, CloseFrom;
    assert pat[i..][1..j - i] == pat[i + 1..j] && pat[i..][j - i + 1..] == pat[j + 1..];
  }

  lemma LiteralText(res: seq<Piece>, c: char, items: seq<Item>)
    ensures Append(PiecesText(res), Texts(Unwritten(EndsWild(res), [Literal(c)] + items))) ==
            Append(PiecesText(res + [Text(QuoteMeta(c))]), Texts(Unwritten(false, items)))
    ensures QuoteMeta('[') == "\\["
  {
    hide Texts, Unwritten, PiecesText;
    Written(res, Literal(c), items, Text(QuoteMeta(c)));
    assert '[' in Re2.SPECIAL by { assert Re2.SPECIAL[8] == '['; }
  }

  lemma NeverMatches(res: seq<Piece>, body: string, items: seq<Item>)
    requires Stuff(body) == ""
    ensures Append(PiecesText(res), Texts(Unwritten(EndsWild(res), [Class(body)] + items))).None?
  {
    hide Texts, Unwritten, Stuff;
    UnwrittenItem(EndsWild(res), Class(body), items);
    TextsCons(Class(body), Unwritten(false, items));
  }

  lemma StartUnwritten(pat: string)
    ensures Append(PiecesText([]), Texts(Unwritten(EndsWild([]), Items(pat[0..])))) == Texts(CollapseStars(Items(pat)))
  {
    assert pat[0..] == pat;
    var all := Texts(CollapseStars(Items(pat)));
    if all.Some? { assert "" + all.value == all.value; }
  }

  lemma EndUnwritten(pat: string, res: seq<Piece>)
    ensures Append(PiecesText(res), Texts(Unwritten(EndsWild(res), Items(pat[|pat|..])))) == Some(PiecesText(res))
  {
    assert Items(pat[|pat|..]) == [] && DropStars([]) == [];
    assert PiecesText(res) + "" == PiecesText(res);
  }

  lemma TranslateIs(pat: string)
    ensures Translate(pat) == match Texts(CollapseStars(Items(pat)))
                              case None => None
                              case Some(t) => Some(Re2.OPEN + t + Re2.CLOSE)
  {
  }

  lemma NoPieces(res: seq<Piece>)
    ensures PiecesText(res[..0]) == ""
  {
  }

  lemma PiecesOn(res: seq<Piece>, k: nat)
    requires k < |res|
    ensures PiecesText(res[..k + 1]) == PiecesText(res[..k]) + PieceText(res[k])
  {
    assert res[..k + 1][..k] == res[..k];
  }

  /** The translation, character by character; ok is false for a pattern that can match nothing. */
  method TranslatePattern(pat: string) returns (expr: string, ok: bool)
    ensures Translate(pat) == if ok then Some(expr) else None
  {
    hide Translate, Texts, Unwritten, PiecesText, Bracketed, Stuff, Close, Items, CollapseStars, Append;
    ghost var all := Texts(CollapseStars(Items(pat)));
    var res: seq<Piece> := [];
    var i := 0;
    StartUnwritten(pat);
    while i < |pat|
      invariant 0 <= i <= |pat|
      invariant Append(PiecesText(res), Texts(Unwritten(EndsWild(res), Items(pat[i..])))) == all
    {
      var c := pat[i];
      if c == '*' {
        ItemsStar(pat, i);
        Written(res, Star, Items(pat[i + 1..]), Wild);
        if !EndsWild(res) { res := res + [Wild]; }
        i := i + 1;
      } else if c == '?' {
        ItemsAny(pat, i);
        Written(res, Any, Items(pat[i + 1..]), Text("."));
        res := res + [Text(".")];
        i := i + 1;
      } else if c == '[' {
        var j := FindClose(pat, i);
        if j >= |pat| {
          ItemsLiteral(pat, i);
          LiteralText(res, '[', Items(pat[i + 1..]));
          res := res + [Text("\\[")];
          i := i + 1;
        } else {
          var body := pat[i + 1..j];
          ItemsClass(pat, i, j);
          var stuff := ClassStuff(body);
          if stuff == "" {
            NeverMatches(res, body, Items(pat[j + 1..]));
            TranslateIs(pat);
            return "", false;
          }
          var text := Bracket(stuff);
          Written(res, Class(body), Items(pat[j + 1..]), Text(text));
          res := res + [Text(text)];
          i := j + 1;
        }
      } else {
        ItemsLiteral(pat, i);
        LiteralText(res, c, Items(pat[i + 1..]));
        res := res + [Text(QuoteMeta(c))];
        i := i + 1;
      }
    }
    EndUnwritten(pat, res);
    TranslateIs(pat);
    expr := Re2.OPEN;
    NoPieces(res);
    for k := 0 to |res|
      invariant expr == Re2.OPEN + PiecesText(res[..k])
    {
      PiecesOn(res, k);
      expr := expr + PieceText(res[k]);
    }
    assert res[..|res|] == res;
    expr := expr + Re2.CLOSE;
    ok := true;
  }

}
