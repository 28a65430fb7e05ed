/**
labfile/deviceline.go: the matcher of a lab.conf device line, against the pattern that it spells out by hand:
name of 1 to 30 characters, `[`, argument, `]=`, an optional quote, a value free of quotes, the same quote, and an optional
comment at the end of the line.

Which characters are letters or white space is left open: any two classes will do for which a `]` is no word character, a
`#` no space and a newline a space.
*/
module DeviceLine {
  import opened Wrappers

  datatype Line = Line(key: string, arg: string, value: string)

  predicate IsNameChar(c: char) {
    ('a' <= c <= 'z') || ('0' <= c <= '9') || c == '_'
  }

  predicate IsQuote(c: char) {
    c == '"' || c == '\''
  }

  // ----- the pattern -----

  /** `(\s+\#.*)?`: nothing, or white space, `#` and characters other than a newline. */
  predicate IsComment(space: char -> bool, c: string, spaces: nat) {
    || c == ""
    || (&& 0 < spaces < |c| && (forall i :: 0 <= i < spaces ==> space(c[i])) && c[spaces] == '#'
        && forall i :: spaces < i < |c| ==> c[i] != '\n')
  }

  /** `(\s+\#.*)?$`, where `$` is the end of the string or a newline there. */
  ghost predicate EndsLine(space: char -> bool, rest: string) {
    exists k: nat, spaces: nat :: Splits(space, rest, k, spaces)
  }

  predicate Splits(space: char -> bool, rest: string, k: nat, spaces: nat) {
    k <= |rest| && IsComment(space, rest[..k], spaces) && (rest[k..] == "" || rest[k..] == "\n")
  }

  /** Where the parts of one way to match a line end. */
  datatype Parse = Parse(nameEnd: nat, argEnd: nat, quoted: bool, valueEnd: nat)

  function ValueStart(p: Parse): nat {
    p.argEnd + (if p.quoted then 3 else 2)
  }

  function Rest(p: Parse): nat {
    p.valueEnd + (if p.quoted then 1 else 0)
  }

  predicate IsHead(word: char -> bool, s: string, nameEnd: nat, argEnd: nat) {
    && 1 <= nameEnd <= 30 && nameEnd + 1 < argEnd && argEnd + 1 < |s|
    && (forall i :: 0 <= i < nameEnd ==> IsNameChar(s[i])) && s[nameEnd] == '['
    && (forall i :: nameEnd < i < argEnd ==> word(s[i])) && s[argEnd] == ']' && s[argEnd + 1] == '='
  }

  predicate IsValue(s: string, p: Parse) {
    && ValueStart(p) < p.valueEnd && Rest(p) <= |s|
    && (forall i :: ValueStart(p) <= i < p.valueEnd ==> !IsQuote(s[i]))
    && (p.quoted ==> IsQuote(s[p.argEnd + 2]) && s[p.valueEnd] == s[p.argEnd + 2])
  }

  ghost predicate IsParse(word: char -> bool, space: char -> bool, s: string, p: Parse) {
    IsHead(word, s, p.nameEnd, p.argEnd) && IsValue(s, p) && EndsLine(space, s[Rest(p)..])
  }

  /** The match that backtracking finds: a quote rather than none, then the longest value. */
  ghost predicate IsPreferred(word: char -> bool, space: char -> bool, s: string, p: Parse) {
    && IsParse(word, space, s, p)
    && forall q :: IsParse(word, space, s, q) ==>
         (q.quoted ==> p.quoted) && (q.quoted == p.quoted ==> q.valueEnd <= p.valueEnd)
  }

  function LineOf(s: string, p: Parse): Line
    requires p.nameEnd < p.argEnd && ValueStart(p) <= p.valueEnd <= |s|
  {
    Line(s[..p.nameEnd], s[p.nameEnd + 1..p.argEnd], s[ValueStart(p)..p.valueEnd])
  }

  predicate Classes(word: char -> bool, space: char -> bool) {
    !word(']') && !space('#') && space('\n')
  }

  /** A stripped line ends in no white space. */
  predicate Stripped(space: char -> bool, s: string) {
    s != "" ==> !space(s[|s| - 1])
  }

  /** Name and argument can be read in one way only, whatever follows. */
  lemma HeadUnique(word: char -> bool, s: string, n: nat, a: nat, m: nat, b: nat)
    requires !word(']') && IsHead(word, s, n, a) && IsHead(word, s, m, b)
    ensures n == m && a == b
  {
  }

  /** There is at most one preferred match. */
  lemma PreferredUnique(word: char -> bool, space: char -> bool, s: string, p: Parse, q: Parse)
    requires !word(']') && IsPreferred(word, space, s, p) && IsPreferred(word, space, s, q)
    ensures p == q
  {
    HeadUnique(word, s, p.nameEnd, p.argEnd, q.nameEnd, q.argEnd);
  }

  // ----- the matcher -----

  method MatchCommentTail(space: char -> bool, rest: string) returns (ok: bool)
    requires !space('#') && space('\n')
    ensures ok <==> EndsLine(space, rest) && rest != "\n"
  {
    var spaces := 0;
    while spaces < |rest| && space(rest[spaces])
      invariant 0 <= spaces <= |rest| && forall i :: 0 <= i < spaces ==> space(rest[i])
    {
      spaces := spaces + 1;
    }
    if spaces > 0 && spaces < |rest| && rest[spaces] == '#' {
      var body := rest[spaces + 1..];
      var newline := -1;
      var k := 0;
      while k < |body|
        invariant 0 <= k <= |body| && newline == -1 && forall i :: 0 <= i < k ==> body[i] != '\n'
      {
        if body[k] == '\n' {
          newline := k;
          break;
        }
        k := k + 1;
      }
      if newline < 0 || newline == |body| - 1 {
        var end := if newline < 0 then |rest| else |rest| - 1;
        CommentEnds(space, rest, end, spaces);
        return true;
      }
      NewlineInside(space, rest, spaces, spaces + 1 + newline);
      return false;
    }
    NoComment(space, rest, spaces);
    return |rest| == 0;
  }

  lemma CommentEnds(space: char -> bool, rest: string, end: nat, spaces: nat)
    requires 0 < spaces < end <= |rest| && (forall i :: 0 <= i < spaces ==> space(rest[i])) && rest[spaces] == '#'
    requires (forall i :: spaces < i < end ==> rest[i] != '\n')
    requires end == |rest| || (end == |rest| - 1 && rest[end] == '\n')
    ensures EndsLine(space, rest)
  {
    assert rest[end..] == "" || rest[end..] == "\n";
    assert Splits(space, rest, end, spaces);
  }

  /** What a split means for the characters themselves. */
  lemma SplitChars(space: char -> bool, rest: string, k: nat, n: nat)
    ensures Splits(space, rest, k, n) <==>
            && k <= |rest| && (k == |rest| || (k == |rest| - 1 && rest[k] == '\n'))
            && (k == 0 || (&& 0 < n < k && (forall i :: 0 <= i < n ==> space(rest[i])) && rest[n] == '#'
                           && forall i :: n < i < k ==> rest[i] != '\n'))
  {
    if k <= |rest| {
      var c := rest[..k];
      assert forall i :: 0 <= i < k ==> c[i] == rest[i];
      assert rest[k..] == "\n" <==> k == |rest| - 1 && rest[k] == '\n';
    }
  }

  lemma NewlineInside(space: char -> bool, rest: string, spaces: nat, at: nat)
    requires !space('#') && 0 < spaces < at < |rest| - 1 && rest[spaces] == '#' && rest[at] == '\n'
    requires forall i :: 0 <= i < spaces ==> space(rest[i])
    ensures !EndsLine(space, rest)
  {
    forall k: nat, n: nat
      ensures !Splits(space, rest, k, n)
    {
      SplitChars(space, rest, k, n);
    }
  }

  lemma NoComment(space: char -> bool, rest: string, spaces: nat)
    requires !space('#') && spaces <= |rest| && forall i :: 0 <= i < spaces ==> space(rest[i])
    requires spaces < |rest| ==> !space(rest[spaces])
    requires spaces == 0 || spaces == |rest| || rest[spaces] != '#'
    ensures EndsLine(space, rest) <==> rest == "" || rest == "\n"
  {
    SplitChars(space, rest, 0, 0);
    if rest == "" || rest == "\n" { assert Splits(space, rest, 0, 0); }
    forall k: nat, n: nat
      ensures Splits(space, rest, k, n) ==> rest == "" || rest == "\n"
    {
      SplitChars(space, rest, k, n);
    }
  }

  /** What a stripped line leaves to match at its end is no lone newline. */
  lemma NoLoneNewline(space: char -> bool, s: string, i: nat)
    requires space('\n') && Stripped(space, s) && i <= |s|
    ensures s[i..] != "\n"
  {
    if i < |s| { assert s[i..][|s| - 1 - i] == s[|s| - 1]; }
  }

  /** The longest value from `start` on that a closing quote and the end of the line may follow. */
  method FindValue(space: char -> bool, s: string, start: nat, quote: Option<char>) returns (found: Option<nat>)
    requires !space('#') && space('\n') && Stripped(space, s) && start <= |s|
    requires quote.Some? ==> IsQuote(quote.value)
    ensures found.Some? ==> Fits(space, s, start, quote, found.value)
    ensures forall end: nat :: Fits(space, s, start, quote, end) ==> found.Some? && end <= found.value
  {
    var limit := start;
    while limit < |s| && !IsQuote(s[limit])
      invariant start <= limit <= |s| && forall i :: start <= i < limit ==> !IsQuote(s[i])
    {
      limit := limit + 1;
    }
    var end := limit;
    while end > start
      invariant start <= end <= limit
      invariant forall e: nat :: end < e ==> !Fits(space, s, start, quote, e)
    {
      if quote == None || (end < |s| && s[end] == quote.value) {
        var rest := if quote == None then end else end + 1;
        var tail := MatchCommentTail(space, s[rest..]);
        NoLoneNewline(space, s, rest);
        if tail { return Some(end); }
      }
      end := end - 1;
    }
    found := None;
  }

  ghost predicate Fits(space: char -> bool, s: string, start: nat, quote: Option<char>, end: nat) {
    && start < end <= |s| && (forall i :: start <= i < end ==> !IsQuote(s[i]))
    && (quote.Some? ==> end < |s| && s[end] == quote.value)
    && EndsLine(space, s[if quote == None then end else end + 1..])
  }

  lemma FitsIsParse(word: char -> bool, space: char -> bool, s: string, p: Parse)
    requires IsHead(word, s, p.nameEnd, p.argEnd)
    ensures IsParse(word, space, s, p) <==>
            if p.quoted then p.argEnd + 2 < |s| && IsQuote(s[p.argEnd + 2])
                             && Fits(space, s, ValueStart(p), Some(s[p.argEnd + 2]), p.valueEnd)
            else Fits(space, s, ValueStart(p), None, p.valueEnd)
  {
  }

  /** On every stripped line: a match is found exactly when there is one, and it is the preferred one. */
  method MatchDeviceLine(word: char -> bool, space: char -> bool, s: string) returns (r: Option<Line>)
    requires Classes(word, space) && Stripped(space, s)
    ensures r == None <==> forall p :: !IsParse(word, space, s, p)
    ensures r.Some? ==> exists p :: IsPreferred(word, space, s, p) && r.value == LineOf(s, p)
  {
    var i := 0;
    while i < |s| && IsNameChar(s[i])
      invariant 0 <= i <= |s| && forall k :: 0 <= k < i ==> IsNameChar(s[k])
    {
      i := i + 1;
    }
    if i == 0 || i > 30 || i >= |s| || s[i] != '[' { return None; }
    var nameEnd := i;
    i := i + 1;
    var j := i;
    while j < |s| && word(s[j])
      invariant i <= j <= |s| && forall k :: i <= k < j ==> word(s[k])
    {
      j := j + 1;
    }
    if j == i || j >= |s| || s[j] != ']' { return None; }
    var argEnd := j;
    j := j + 1;
    if j >= |s| || s[j] != '=' { return None; }
    assert IsHead(word, s, nameEnd, argEnd);
    r := MatchValue(word, space, s, nameEnd, argEnd);
  }

  lemma HeadFits(word: char -> bool, s: string, nameEnd: nat, argEnd: nat)
    requires IsHead(word, s, nameEnd, argEnd)
    ensures nameEnd < argEnd && argEnd + 2 <= |s|
  {
  }

  lemma FitsInside(space: char -> bool, s: string, start: nat, quote: Option<char>, end: nat)
    requires Fits(space, s, start, quote, end)
    ensures start < end <= |s|
  {
  }

  lemma PreferredQuoted(word: char -> bool, space: char -> bool, s: string, p: Parse, quote: Option<char>)
    requires !word(']') && IsHead(word, s, p.nameEnd, p.argEnd) && p.quoted && p.argEnd + 2 < |s| && IsQuote(s[p.argEnd + 2])
    requires quote == Some(s[p.argEnd + 2]) && Fits(space, s, ValueStart(p), quote, p.valueEnd)
    requires forall end: nat :: Fits(space, s, ValueStart(p), quote, end) ==> end <= p.valueEnd
    ensures IsPreferred(word, space, s, p)
  {
    hide EndsLine, Fits, IsHead, IsParse;
    FitsIsParse(word, space, s, p);
    forall q | IsParse(word, space, s, q)
      ensures q.quoted ==> q.valueEnd <= p.valueEnd
    {
      SameHead(word, space, s, q, p.nameEnd, p.argEnd);
      FitsIsParse(word, space, s, q);
    }
  }

  lemma SameHead(word: char -> bool, space: char -> bool, s: string, q: Parse, nameEnd: nat, argEnd: nat)
    requires !word(']') && IsParse(word, space, s, q) && IsHead(word, s, nameEnd, argEnd)
    ensures IsHead(word, s, q.nameEnd, q.argEnd) && q.nameEnd == nameEnd && q.argEnd == argEnd
  {
    HeadUnique(word, s, q.nameEnd, q.argEnd, nameEnd, argEnd);
  }

  predicate QuoteAt(s: string, i: nat) {
    i < |s| && IsQuote(s[i])
  }

  ghost predicate NoneFits(space: char -> bool, s: string, start: nat, quote: Option<char>) {
    forall end: nat :: !Fits(space, s, start, quote, end)
  }

  lemma NoQuoted(word: char -> bool, space: char -> bool, s: string, nameEnd: nat, argEnd: nat)
    requires !word(']') && IsHead(word, s, nameEnd, argEnd)
    requires QuoteAt(s, argEnd + 2) ==> NoneFits(space, s, argEnd + 3, Some(s[argEnd + 2]))
    ensures forall q :: IsParse(word, space, s, q) ==> !q.quoted
  {
    hide EndsLine, Fits, IsHead, IsParse;
    forall q | IsParse(word, space, s, q)
      ensures !q.quoted
    {
      SameHead(word, space, s, q, nameEnd, argEnd);
      FitsIsParse(word, space, s, q);
    }
  }

  lemma PreferredPlain(word: char -> bool, space: char -> bool, s: string, p: Parse)
    requires !word(']') && IsHead(word, s, p.nameEnd, p.argEnd) && !p.quoted
    requires forall q :: IsParse(word, space, s, q) ==> !q.quoted
    requires Fits(space, s, ValueStart(p), None, p.valueEnd)
    requires forall end: nat :: Fits(space, s, ValueStart(p), None, end) ==> end <= p.valueEnd
    ensures IsPreferred(word, space, s, p)
  {
    hide EndsLine, Fits, IsHead, IsParse;
    FitsIsParse(word, space, s, p);
    forall q | IsParse(word, space, s, q)
      ensures q.valueEnd <= p.valueEnd
    {
      SameHead(word, space, s, q, p.nameEnd, p.argEnd);
      FitsIsParse(word, space, s, q);
    }
  }

  lemma NoPlain(word: char -> bool, space: char -> bool, s: string, nameEnd: nat, argEnd: nat)
    requires !word(']') && IsHead(word, s, nameEnd, argEnd)
    requires forall q :: IsParse(word, space, s, q) ==> !q.quoted
    requires NoneFits(space, s, argEnd + 2, None)
    ensures forall q :: !IsParse(word, space, s, q)
  {
    hide EndsLine, Fits, IsHead, IsParse;
    forall q
      ensures !IsParse(word, space, s, q)
    {
      if IsParse(word, space, s, q) {
        SameHead(word, space, s, q, nameEnd, argEnd);
        FitsIsParse(word, space, s, q);
      }
    }
  }

  /** The two alternatives of the quote, in their order. */
  method MatchValue(word: char -> bool, space: char -> bool, s: string, nameEnd: nat, argEnd: nat) returns (r: Option<Line>)
    requires Classes(word, space) && Stripped(space, s) && IsHead(word, s, nameEnd, argEnd)
    ensures r == None <==> forall p :: !IsParse(word, space, s, p)
    ensures r.Some? ==> exists p :: IsPreferred(word, space, s, p) && r.value == LineOf(s, p)
  {
    hide EndsLine, Fits, IsValue, IsHead;
    HeadFits(word, s, nameEnd, argEnd);
    var start := argEnd + 2;
    var quoted: Option<nat> := None;
    if start < |s| && IsQuote(s[start]) {
      quoted := FindValue(space, s, start + 1, Some(s[start]));
      if quoted.Some? {
        var p := Parse(nameEnd, argEnd, true, quoted.value);
        FitsInside(space, s, start + 1, Some(s[start]), quoted.value);
        PreferredQuoted(word, space, s, p, Some(s[start]));
        return Some(LineOf(s, p));
      }
    }
    NoQuoted(word, space, s, nameEnd, argEnd);
    var plain := FindValue(space, s, start, None);
    if plain.Some? {
      var p := Parse(nameEnd, argEnd, false, plain.value);
      FitsInside(space, s, start, None, plain.value);
      PreferredPlain(word, space, s, p);
      return Some(LineOf(s, p));
    }
    NoPlain(word, space, s, nameEnd, argEnd);
    r := None;
  }
}
