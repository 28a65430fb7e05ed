/**
labfile/deviceline.go: what is read from a device line as it is written, in quotes and without, and two kinds of line that are
none.
*/
module DeviceLineLaws {
  import opened Wrappers
  import opened DeviceLine
  import LabModel

  /** A name and an argument as they stand in front of a value. */
  predicate Named(word: char -> bool, key: string, arg: string) {
    && 1 <= |key| <= 30 && (forall i :: 0 <= i < |key| ==> 'a' <= key[i] <= 'z' || '0' <= key[i] <= '9' || key[i] == '_')
    && arg != "" && forall i :: 0 <= i < |arg| ==> word(arg[i])
  }

  predicate Unquoted(v: string) {
    '"' !in v && '\'' !in v
  }

  /** Nothing, or white space and a comment. */
  predicate IsTail(space: char -> bool, blanks: string, text: string, tail: string) {
    || tail == ""
    || (tail == blanks + "#" + text && blanks != "" && '\n' !in text && forall i :: 0 <= i < |blanks| ==> space(blanks[i]))
  }

  /** The line is read as this key, argument and value, and in no other way. */
  ghost predicate ReadAs(word: char -> bool, space: char -> bool, s: string, line: Line) {
    && (exists p :: IsPreferred(word, space, s, p))
    && forall p :: IsPreferred(word, space, s, p) ==> LineOf(s, p) == line
  }

  lemma HeadAt(word: char -> bool, s: string, key: string, arg: string, value: string)
    requires Named(word, key, arg) && value != "" && s == key + "[" + arg + "]=" + value
    ensures IsHead(word, s, |key|, |key| + 1 + |arg|)
    ensures s[..|key|] == key && s[|key| + 1..|key| + 1 + |arg|] == arg && s[|key| + 1 + |arg| + 2..] == value
  {
    var h := key + "[" + arg + "]=";
    assert |h| == |key| + 1 + |arg| + 2;
    assert s == h + value;
    assert forall i :: 0 <= i < |h| ==> s[i] == h[i];
    assert forall i :: 0 <= i < |arg| ==> h[|key| + 1 + i] == arg[i];
    assert s[|key|] == '[' && s[|key| + 1 + |arg|] == ']' && s[|key| + 1 + |arg| + 1] == '=';
    assert forall i :: |key| < i < |key| + 1 + |arg| ==> s[i] == arg[i - |key| - 1];
  }

  lemma TailEnds(space: char -> bool, blanks: string, text: string, tail: string)
    requires IsTail(space, blanks, text, tail)
    ensures EndsLine(space, tail)
  {
    if tail == "" {
      assert Splits(space, tail, 0, 0);
    } else {
      assert tail[..|tail|] == tail && tail[|tail|..] == "";
      assert forall i :: |blanks| < i < |tail| ==> tail[i] == text[i - |blanks| - 1] && text[i - |blanks| - 1] in text;
      assert IsComment(space, tail, |blanks|);
      assert Splits(space, tail, |tail|, |blanks|);
    }
  }

  lemma ReadFrom(word: char -> bool, space: char -> bool, s: string, p: Parse, line: Line)
    requires !word(']') && IsPreferred(word, space, s, p)
    requires p.nameEnd < p.argEnd && ValueStart(p) <= p.valueEnd <= |s| && LineOf(s, p) == line
    ensures ReadAs(word, space, s, line)
  {
    forall r | IsPreferred(word, space, s, r)
      ensures r == p
    {
      PreferredUnique(word, space, s, p, r);
    }
    hide IsPreferred;
  }

  /** Between quotes, the value is just what stands there, and a comment behind them is none of it. */
  lemma QuotedLine(word: char -> bool, space: char -> bool, key: string, arg: string, q: char, value: string, blanks: string,
                   text: string, tail: string)
    requires Named(word, key, arg) && !word(']') && q in {'"', '\''} && value != "" && Unquoted(value)
    requires IsTail(space, blanks, text, tail)
    ensures ReadAs(word, space, key + "[" + arg + "]=" + ([q] + value + [q] + tail), Line(key, arg, value))
  {
    hide ReadAs, IsPreferred, IsHead, Named, Unquoted, Fits, EndsLine, IsTail;
    var v := [q] + value + [q] + tail;
    var s := key + "[" + arg + "]=" + v;
    var a := |key| + 1 + |arg|;
    var p := Parse(|key|, a, true, a + 3 + |value|);
    HeadAt(word, s, key, arg, v);
    TailEnds(space, blanks, text, tail);
    QuotedFits(space, s, a + 2, a + 3, q, value, tail);
    PreferredQuoted(word, space, s, p, Some(q));
    ReadFrom(word, space, s, p, Line(key, arg, value));
  }

  lemma QuotedFits(space: char -> bool, s: string, at: nat, start: nat, q: char, value: string, tail: string)
    requires start == at + 1 && at <= |s| && s[at..] == [q] + value + [q] + tail && IsQuote(q)
    requires value != "" && Unquoted(value) && EndsLine(space, tail)
    ensures start + |value| < |s| && s[at] == q && s[start..start + |value|] == value
    ensures Fits(space, s, start, Some(q), start + |value|)
    ensures forall end: nat :: Fits(space, s, start, Some(q), end) ==> end <= start + |value|
  {
    hide EndsLine;
    var v := s[at..];
    assert s[at] == v[0] && s[start + |value|] == v[1 + |value|];
    assert v[1..1 + |value|] == value && v[2 + |value|..] == tail;
    assert s[start..start + |value|] == v[1..1 + |value|];
    assert s[start + |value| + 1..] == v[2 + |value|..];
    forall i | start <= i < start + |value|
      ensures !IsQuote(s[i])
    {
      assert s[i] == s[start..start + |value|][i - start];
      assert value[i - start] in value;
    }
  }

  /** Without any quotes, all that follows is the value, what looks like a comment too. */
  lemma PlainLine(word: char -> bool, space: char -> bool, key: string, arg: string, value: string)
    requires Named(word, key, arg) && !word(']') && value != "" && Unquoted(value)
    ensures ReadAs(word, space, key + "[" + arg + "]=" + value, Line(key, arg, value))
  {
    hide ReadAs, IsPreferred, IsParse, IsHead, Named, Unquoted, Fits, EndsLine, NoneFits;
    var s := key + "[" + arg + "]=" + value;
    var a := |key| + 1 + |arg|;
    var p := Parse(|key|, a, false, |s|);
    HeadAt(word, s, key, arg, value);
    PlainFits(space, s, a + 2, value);
    NoQuoted(word, space, s, |key|, a);
    PreferredPlain(word, space, s, p);
    assert s[a + 2..|s|] == value;
    ReadFrom(word, space, s, p, Line(key, arg, value));
  }

  lemma PlainFits(space: char -> bool, s: string, at: nat, value: string)
    requires at <= |s| && s[at..] == value && value != "" && Unquoted(value)
    ensures !QuoteAt(s, at) && Fits(space, s, at, None, |s|)
    ensures forall end: nat :: Fits(space, s, at, None, end) ==> end <= |s|
  {
    var v := s[at..];
    assert forall i :: at <= i < |s| ==> s[i] == v[i - at] && v[i - at] in value;
    assert s[|s|..] == "";
    assert Splits(space, "", 0, 0);
  }

  /** A quote that is opened and not closed, or closed by the other, makes the line none. */
  lemma OpenQuoteFails(word: char -> bool, space: char -> bool, key: string, arg: string, q: char, value: string, more: string)
    requires Named(word, key, arg) && !word(']') && q in {'"', '\''} && Unquoted(value)
    requires more == "" || (more[0] in {'"', '\''} && more[0] != q)
    ensures forall p :: !IsParse(word, space, key + "[" + arg + "]=" + ([q] + value + more), p)
  {
    hide IsHead, IsParse, Named;
    var v := [q] + value + more;
    var s := key + "[" + arg + "]=" + v;
    var a := |key| + 1 + |arg|;
    HeadAt(word, s, key, arg, v);
    OpensAt(s, a + 2, q, value, more);
    forall p
      ensures !IsParse(word, space, s, p)
    {
      NoParseOpen(word, space, s, p, |key|, a, q, |value|);
    }
  }

  lemma OpensAt(s: string, at: nat, q: char, value: string, more: string)
    requires at <= |s| && s[at..] == [q] + value + more && Unquoted(value)
    ensures at + 1 + |value| + |more| == |s| && s[at] == q
    ensures forall i :: at + 1 <= i < at + 1 + |value| ==> !IsQuote(s[i])
    ensures more != "" ==> s[at + 1 + |value|] == more[0]
  {
    var v := s[at..];
    assert forall i :: at + 1 <= i < at + 1 + |value| ==> s[i] == v[i - at] == value[i - at - 1] && value[i - at - 1] in value;
    assert more != "" ==> s[at + 1 + |value|] == v[1 + |value|] == more[0];
    assert s[at] == v[0];
  }

  lemma NoParseOpen(word: char -> bool, space: char -> bool, s: string, p: Parse, nameEnd: nat, a: nat, q: char, n: nat)
    requires !word(']') && IsHead(word, s, nameEnd, a) && a + 3 + n <= |s| && s[a + 2] == q && IsQuote(q)
    requires forall i :: a + 3 <= i < a + 3 + n ==> !IsQuote(s[i])
    requires a + 3 + n == |s| || (IsQuote(s[a + 3 + n]) && s[a + 3 + n] != q)
    ensures !IsParse(word, space, s, p)
  {
    if IsHead(word, s, p.nameEnd, p.argEnd) {
      HeadUnique(word, s, p.nameEnd, p.argEnd, nameEnd, a);
    }
  }

  /** Nor is one without a value, in quotes or not. */
  lemma NoValueFails(word: char -> bool, space: char -> bool, key: string, arg: string, value: string)
    requires Named(word, key, arg) && !word(']') && value in {"", "\"\"", "''"}
    ensures forall p :: !IsParse(word, space, key + "[" + arg + "]=" + value, p)
  {
    hide IsHead, Named;
    var s := key + "[" + arg + "]=" + value;
    var a := |key| + 1 + |arg|;
    assert s + "x" == key + "[" + arg + "]=" + (value + "x");
    HeadAt(word, s + "x", key, arg, value + "x");
    assert forall i :: 0 <= i < |value| ==> s[a + 2 + i] == value[i];
    forall p
      ensures !IsParse(word, space, s, p)
    {
      NoParseEmpty(word, space, s, p, |key|, a);
    }
  }

  lemma NoParseEmpty(word: char -> bool, space: char -> bool, s: string, p: Parse, nameEnd: nat, a: nat)
    requires !word(']') && IsHead(word, s + "x", nameEnd, a)
    requires |s| == a + 2 || (|s| == a + 4 && IsQuote(s[a + 2]) && IsQuote(s[a + 3]))
    ensures !IsParse(word, space, s, p)
  {
    if IsHead(word, s, p.nameEnd, p.argEnd) {
      assert forall i :: 0 <= i < |s| ==> (s + "x")[i] == s[i];
      assert IsHead(word, s + "x", p.nameEnd, p.argEnd);
      HeadUnique(word, s + "x", p.nameEnd, p.argEnd, nameEnd, a);
      hide EndsLine;
    }
  }

  /** The names that a device line can have are just those that a lab takes. */
  lemma NamesAgree(word: char -> bool, space: char -> bool, key: string, arg: string, value: string)
    requires !word(']') && arg != "" && (forall i :: 0 <= i < |arg| ==> word(arg[i])) && value != "" && Unquoted(value)
    requires '[' !in key
    ensures LabModel.IsDeviceName(key) <==> exists p :: IsParse(word, space, key + "[" + arg + "]=" + value, p)
  {
    var s := key + "[" + arg + "]=" + value;
    if LabModel.IsDeviceName(key) {
      assert Named(word, key, arg);
      PlainLine(word, space, key, arg, value);
      var p :| IsPreferred(word, space, s, p);
      assert IsParse(word, space, s, p);
    } else if p :| IsParse(word, space, s, p) {
      assert IsHead(word, s, p.nameEnd, p.argEnd);
      NameBefore(word, s, key, p.nameEnd, p.argEnd);
    }
  }

  /** The name ends with the first bracket. */
  lemma NameBefore(word: char -> bool, s: string, key: string, nameEnd: nat, argEnd: nat)
    requires IsHead(word, s, nameEnd, argEnd) && |key| < |s| && s[..|key|] == key && s[|key|] == '[' && '[' !in key
    ensures LabModel.IsDeviceName(key)
  {
    assert forall i :: 0 <= i < |key| ==> s[i] == key[i] && key[i] in key;
    assert nameEnd == |key|;
  }
}
