/** labfile/decode.go: locating the first byte sequence of a line that is not UTF-8, and splitting a file into lines. */
module Decode {
  import opened Wrappers
  import opened Utf8

  datatype Reason = InvalidStart | InvalidContinuation | UnexpectedEnd

  datatype Decoded = Text(data: seq<byte>) | DecodeError(start: nat, end: nat, reason: Reason)

  const NEWLINE: byte := 10

  /** No character begins this string. */
  predicate Broken(rest: seq<byte>) {
    !exists k :: 1 <= k <= 4 && k <= |rest| && IsChar(rest[..k])
  }

  /**
  What a decoding error says: everything before start decodes, no character begins at start, and [start, end) is the
  longest beginning of a character found there, or the one byte that begins none.
  */
  predicate FailsAt(b: seq<byte>, start: nat, end: nat, reason: Reason) {
    && start < end <= |b|
    && WellFormed(b[..start])
    && Broken(b[start..])
    && match reason
       case InvalidStart => end == start + 1 && !CharPrefix(b[start..end])
       case InvalidContinuation => CharPrefix(b[start..end]) && end < |b| && !CharPrefix(b[start..end + 1])
       case UnexpectedEnd => CharPrefix(b[start..end]) && end == |b|
  }

  /** Two well-formed beginnings of one string that both stop at a broken place stop at the same one. */
  lemma {:induction false} BrokenPlaceUnique(b: seq<byte>, s: nat, t: nat)
    requires s <= t < |b| && WellFormed(b[..s]) && WellFormed(b[..t]) && Broken(b[s..])
    ensures s == t
  {
    if s < t {
      hide Broken;
      WellFormedConcat(b[..s], b[s..t]);
      TakeThenPart(b, s, t);
      BrokenPart(b, s, t);
    }
  }

  lemma BrokenPart(b: seq<byte>, s: nat, t: nat)
    requires s < t <= |b| && Broken(b[s..])
    ensures !WellFormed(b[s..t])
  {
    hide IsChar;
    forall k | 1 <= k <= 4 && k <= |b[s..t]|
      ensures !IsChar(b[s..t][..k])
    {
      TakeOfPart(b, s, t, k);
    }
  }

  /** A beginning of a character stays one when bytes are taken off its end. */
  lemma CharPrefixShrinks(b: seq<byte>, s: nat, e: nat, f: nat)
    requires s < e <= f <= |b| && CharPrefix(b[s..f])
    ensures CharPrefix(b[s..e])
  {
    assert forall i :: 0 <= i < e - s ==> b[s..e][i] == b[s..f][i];
  }

  /** A string has at most one failure report, and it has one only when it is not well formed. */
  lemma FailureUnique(b: seq<byte>, s: nat, e: nat, r: Reason, s': nat, e': nat, r': Reason)
    requires FailsAt(b, s, e, r) && FailsAt(b, s', e', r')
    ensures s == s' && e == e' && r == r'
  {
    if s <= s' {
      BrokenPlaceUnique(b, s, s');
    } else {
      BrokenPlaceUnique(b, s', s);
    }
    if e < e' {
      if r != InvalidStart { CharPrefixShrinks(b, s, e + 1, e'); }
      if r' != InvalidStart { CharPrefixShrinks(b, s, e, e'); }
    } else if e' < e {
      if r' != InvalidStart { CharPrefixShrinks(b, s, e' + 1, e); }
      if r != InvalidStart { CharPrefixShrinks(b, s, e', e); }
    }
  }

  lemma FailureRefutes(b: seq<byte>, s: nat, e: nat, r: Reason)
    requires FailsAt(b, s, e, r)
    ensures !WellFormed(b)
  {
    WellFormedConcat(b[..s], b[s..]);
    assert b[..s] + b[s..] == b;
    NotWellFormed(b[s..]);
  }

  predicate IsContinuation(b: byte) {
    b / 0x40 == 2
  }

  /** The k bytes from s on are a beginning of a character, said of the bytes one by one. */
  predicate PrefixAt(b: seq<byte>, s: nat, k: nat) {
    && 0 < k && s + k <= |b| && k <= Length(b[s])
    && (k > 1 ==> SecondFits(b[s], b[s + 1]))
    && (k > 2 ==> Tail(b[s + 2]))
    && (k > 3 ==> Tail(b[s + 3]))
  }

  /** A whole character at s: the scan goes on behind it, and nothing in front of it matters any more. */
  lemma Advance(b: seq<byte>, s: nat, k: nat)
    requires PrefixAt(b, s, k) && k == Length(b[s]) && WellFormed(b[..s])
    ensures WellFormed(b[..s + k])
    ensures WellFormed(b[s..]) <==> WellFormed(b[s + k..])
  {
    var q := b[s..s + k];
    IsCharByBytes(q);
    WellFormedSkip(q, k);
    WellFormedConcat(b[..s], q);
    assert b[..s] + q == b[..s + k];
    assert b[s..][..k] == q && b[s..][k..] == b[s + k..];
    WellFormedSkip(b[s..], k);
  }

  /** A beginning of a character that the next byte, or the end of the string, cuts short. */
  predicate CutShort(b: seq<byte>, s: nat, e: nat, r: Reason) {
    && s < e <= |b|
    && match r
       case InvalidStart => e == s + 1 && !PrefixAt(b, s, 1)
       case InvalidContinuation => PrefixAt(b, s, e - s) && e < |b| && !PrefixAt(b, s, e - s + 1) && e - s < Length(b[s])
       case UnexpectedEnd => PrefixAt(b, s, e - s) && e == |b| && e - s < Length(b[s])
  }

  lemma Report(b: seq<byte>, s: nat, e: nat, r: Reason)
    requires CutShort(b, s, e, r) && WellFormed(b[..s])
    ensures FailsAt(b, s, e, r)
  {
    forall k | 1 <= k <= |b| - s
      ensures CharPrefix(b[s..s + k]) <==> PrefixAt(b, s, k)
    {
    }
    assert b[s..e] == b[s..s + (e - s)];
    assert e < |b| ==> b[s..e + 1] == b[s..s + (e - s + 1)];
    forall k | 1 <= k <= 4 && k <= |b[s..]|
      ensures !IsChar(b[s..][..k])
    {
      assert b[s..][..k] == b[s..s + k];
      IsCharByBytes(b[s..s + k]);
    }
  }

  /** One round of the scanner's switch: the size of the character at s, or where and why there is none (size 0). */
  method ScanChar(b: seq<byte>, s: nat) returns (size: nat, end: nat, reason: Reason)
    requires s < |b|
    ensures size > 0 ==> PrefixAt(b, s, size) && size == Length(b[s])
    ensures size == 0 ==> CutShort(b, s, end, reason)
  {
    var n, c := |b|, b[s];
    if c < 0x80 {
      return 1, s, InvalidStart;
    } else if c < 0xE0 {
      if c < 0xC2 {
        return 0, s + 1, InvalidStart;
      }
      if n - s < 2 {
        return 0, n, UnexpectedEnd;
      }
      if !IsContinuation(b[s + 1]) {
        return 0, s + 1, InvalidContinuation;
      }
      return 2, s, InvalidStart;
    } else if c < 0xF0 {
      if n - s < 3 {
        if n - s < 2 {
          return 0, n, UnexpectedEnd;
        }
        var c2 := b[s + 1];
        var bad := !IsContinuation(c2);
        if !bad {
          if c2 < 0xA0 {
            bad := c == 0xE0;
          } else {
            bad := c == 0xED;
          }
        }
        if bad {
          return 0, s + 1, InvalidContinuation;
        }
        return 0, n, UnexpectedEnd;
      }
      var c2, c3 := b[s + 1], b[s + 2];
      if !IsContinuation(c2) || (c == 0xE0 && c2 < 0xA0) || (c == 0xED && c2 >= 0xA0) {
        return 0, s + 1, InvalidContinuation;
      }
      if !IsContinuation(c3) {
        return 0, s + 2, InvalidContinuation;
      }
      return 3, s, InvalidStart;
    } else if c < 0xF5 {
      if n - s < 4 {
        if n - s < 2 {
          return 0, n, UnexpectedEnd;
        }
        var c2 := b[s + 1];
        var bad := !IsContinuation(c2);
        if !bad {
          if c2 < 0x90 {
            bad := c == 0xF0;
          } else {
            bad := c == 0xF4;
          }
        }
        if bad {
          return 0, s + 1, InvalidContinuation;
        }
        if n - s < 3 {
          return 0, n, UnexpectedEnd;
        }
        if !IsContinuation(b[s + 2]) {
          return 0, s + 2, InvalidContinuation;
        }
        return 0, n, UnexpectedEnd;
      }
      var c2, c3, c4 := b[s + 1], b[s + 2], b[s + 3];
      if !IsContinuation(c2) || (c == 0xF0 && c2 < 0x90) || (c == 0xF4 && c2 >= 0x90) {
        return 0, s + 1, InvalidContinuation;
      }
      if !IsContinuation(c3) {
        return 0, s + 2, InvalidContinuation;
      }
      if !IsContinuation(c4) {
        return 0, s + 3, InvalidContinuation;
      }
      return 4, s, InvalidStart;
    } else {
      return 0, s + 1, InvalidStart;
    }
  }

  /**
  The scanner. It falls through to its last line just on well-formed input (its caller never asks about that); on anything
  else the result is the one failure report of the input.
  */
  method Utf8Failure(b: seq<byte>) returns (start: nat, end: nat, reason: Reason)
    ensures WellFormed(b) ==> (start, end, reason) == (0, |b|, UnexpectedEnd)
    ensures !WellFormed(b) ==> FailsAt(b, start, end, reason)
  {
    hide FailsAt, CutShort, PrefixAt, WellFormed;
    var s := 0;
    Whole(b);
    NothingWellFormed();
    while s < |b|
      invariant 0 <= s <= |b|
      invariant WellFormed(b[..s])
      invariant WellFormed(b) <==> WellFormed(b[s..])
    {
      var size;
      size, end, reason := ScanChar(b, s);
      if size == 0 {
        Report(b, s, end, reason);
        FailureRefutes(b, s, end, reason);
        return s, end, reason;
      }
      Advance(b, s, size);
      s := s + size;
    }
    return 0, |b|, UnexpectedEnd;
  }

  lemma NothingWellFormed()
    ensures WellFormed([])
  {
  }

  /** bytes.decode: the string itself when it is UTF-8, and otherwise the one error that fits it. */
  method DecodeUtf8(b: seq<byte>) returns (r: Decoded)
    ensures r.Text? <==> WellFormed(b)
    ensures r.Text? ==> r.data == b
    ensures r.DecodeError? ==> FailsAt(b, r.start, r.end, r.reason)
  {
    if WellFormed(b) {
      return Text(b);
    }
    var start, end, reason := Utf8Failure(b);
    return DecodeError(start, end, reason);
  }

  // ----- readLines -----

  function Join(lines: seq<seq<byte>>): seq<byte> {
    if lines == [] then [] else lines[0] + Join(lines[1..])
  }

  lemma {:induction false} JoinAppend(lines: seq<seq<byte>>, last: seq<byte>)
    ensures Join(lines + [last]) == Join(lines) + last
  {
    if lines != [] {
      JoinAppend(lines[1..], last);
      assert (lines + [last])[1..] == lines[1..] + [last];
    }
  }

  predicate IsLine(line: seq<byte>) {
    line != [] && forall i :: 0 <= i < |line| - 1 ==> line[i] != NEWLINE
  }

  /** Lines of a file: none empty, a newline nowhere but at the end, and only the last one may lack it. */
  predicate AreLines(lines: seq<seq<byte>>) {
    && (forall k :: 0 <= k < |lines| ==> IsLine(lines[k]))
    && (forall k :: 0 <= k < |lines| - 1 ==> lines[k][|lines[k]| - 1] == NEWLINE)
  }

  /** There is only one way to cut a file into lines. */
  lemma {:induction false} LinesUnique(xs: seq<seq<byte>>, ys: seq<seq<byte>>)
    requires AreLines(xs) && AreLines(ys) && Join(xs) == Join(ys)
    ensures xs == ys
  {
    if xs == [] || ys == [] {
      assert xs != [] ==> IsLine(xs[0]);
      assert ys != [] ==> IsLine(ys[0]);
    } else {
      var x, y, data := xs[0], ys[0], Join(xs);
      assert IsLine(x) && IsLine(y);
      assert x == data[..|x|] && y == data[..|y|];
      assert |xs| == 1 ==> data == x;
      assert |ys| == 1 ==> data == y;
      assert |xs| > 1 ==> x[|x| - 1] == NEWLINE == data[|x| - 1];
      assert |ys| > 1 ==> y[|y| - 1] == NEWLINE == data[|y| - 1];
      assert x == y;
      assert Join(xs[1..]) == data[|x|..] == Join(ys[1..]);
      LinesUnique(xs[1..], ys[1..]);
      assert xs == [x] + xs[1..] && ys == [y] + ys[1..];
    }
  }

  method IndexByte(data: seq<byte>, c: byte) returns (i: int)
    ensures -1 <= i < |data|
    ensures i >= 0 ==> data[i] == c
    ensures c !in data[..if i < 0 then |data| else i]
  {
    for k := 0 to |data|
      invariant c !in data[..k]
    {
      if data[k] == c {
        return k;
      }
    }
    return -1;
  }

  /** A line taken off the front of the data keeps what is collected so far a list of lines. */
  lemma TakeLine(out: seq<seq<byte>>, data: seq<byte>, n: nat)
    requires AreLines(out) && (out != [] ==> out[|out| - 1][|out[|out| - 1]| - 1] == NEWLINE)
    requires 0 < n <= |data| && NEWLINE !in data[..n - 1]
    ensures AreLines(out + [data[..n]])
    ensures Join(out + [data[..n]]) + data[n..] == Join(out) + data
  {
    forall i | 0 <= i < n - 1
      ensures data[..n][i] != NEWLINE
    {
      assert data[..n][i] == data[..n - 1][i];
    }
    JoinAppend(out, data[..n]);
    assert data == data[..n] + data[n..];
    assert Join(out) + data == Join(out) + data[..n] + data[n..];
  }

  method ReadLines(file: seq<byte>) returns (out: seq<seq<byte>>)
    ensures Join(out) == file
    ensures AreLines(out)
  {
    var data := file;
    out := [];
    while |data| > 0
      invariant Join(out) + data == file
      invariant AreLines(out)
      invariant out != [] ==> out[|out| - 1][|out[|out| - 1]| - 1] == NEWLINE
      decreases |data|
    {
      var i := IndexByte(data, NEWLINE);
      if i < 0 {
        assert data[..|data|] == data;
        TakeLine(out, data, |data|);
        out := out + [data];
        return;
      }
      TakeLine(out, data, i + 1);
      out := out + [data[..i + 1]];
      data := data[i + 1..];
    }
  }
}
