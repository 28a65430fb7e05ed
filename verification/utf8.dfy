/**
UTF-8 as section 4 of RFC 3629 defines it, and the two questions a decoder asks of a byte string: does it start with a
complete character, and could it still become one when more bytes arrive.
*/
module Utf8 {
  type byte = x: int | 0 <= x < 256

  const REPLACEMENT := 0xFFFD

  // ----- the grammar: one predicate per production -----

  predicate Tail(b: byte) {
    0x80 <= b <= 0xBF
  }

  predicate Char1(q: seq<byte>) {
    |q| == 1 && q[0] <= 0x7F
  }

  predicate Char2(q: seq<byte>) {
    |q| == 2 && 0xC2 <= q[0] <= 0xDF && Tail(q[1])
  }

  predicate Char3(q: seq<byte>) {
    && |q| == 3
    && (|| (q[0] == 0xE0 && 0xA0 <= q[1] <= 0xBF)
        || (0xE1 <= q[0] <= 0xEC && Tail(q[1]))
        || (q[0] == 0xED && 0x80 <= q[1] <= 0x9F)
        || (0xEE <= q[0] <= 0xEF && Tail(q[1])))
    && Tail(q[2])
  }

  predicate Char4(q: seq<byte>) {
    && |q| == 4
    && (|| (q[0] == 0xF0 && 0x90 <= q[1] <= 0xBF)
        || (0xF1 <= q[0] <= 0xF3 && Tail(q[1]))
        || (q[0] == 0xF4 && 0x80 <= q[1] <= 0x8F))
    && Tail(q[2]) && Tail(q[3])
  }

  /** UTF8-char: exactly one encoded character. */
  predicate IsChar(q: seq<byte>) {
    Char1(q) || Char2(q) || Char3(q) || Char4(q)
  }

  /** UTF8-octets: a concatenation of characters. */
  predicate WellFormed(b: seq<byte>) {
    b == [] || exists k :: 1 <= k <= 4 && k <= |b| && IsChar(b[..k]) && WellFormed(b[k..])
  }

  // ----- the same grammar, read byte by byte -----

  /** How many bytes a character starting with this byte has; 0 when none does. */
  function Length(first: byte): (n: nat)
    ensures n <= 4
  {
    if first <= 0x7F then 1
    else if first < 0xC2 then 0
    else if first <= 0xDF then 2
    else if first <= 0xEF then 3
    else if first <= 0xF4 then 4
    else 0
  }

  predicate SecondFits(first: byte, second: byte) {
    && Tail(second)
    && (first == 0xE0 ==> second >= 0xA0)
    && (first == 0xED ==> second <= 0x9F)
    && (first == 0xF0 ==> second >= 0x90)
    && (first == 0xF4 ==> second <= 0x8F)
  }

  /** A non-empty beginning of some character, possibly the whole of it. */
  predicate CharPrefix(q: seq<byte>) {
    && 0 < |q| <= Length(q[0])
    && (|q| > 1 ==> SecondFits(q[0], q[1]))
    && (|q| > 2 ==> Tail(q[2]))
    && (|q| > 3 ==> Tail(q[3]))
  }

  lemma IsCharByBytes(q: seq<byte>)
    ensures IsChar(q) <==> CharPrefix(q) && |q| == Length(q[0])
  {
  }

  /** The bytes that complete a beginning to one particular character. */
  function Completion(q: seq<byte>): (t: seq<byte>)
    requires CharPrefix(q)
    ensures IsChar(q + t)
  {
    var second := if q[0] == 0xE0 then 0xA0 else if q[0] == 0xF0 then 0x90 else 0x80;
    var t := match Length(q[0]) - |q|
      case 0 => []
      case 1 => [if |q| == 1 then second else 0x80]
      case 2 => [if |q| == 1 then second else 0x80, 0x80]
      case _ => [second, 0x80, 0x80];
    IsCharByBytes(q + t);
    t
  }

  /** CharPrefix is what its name says: the non-empty beginnings of characters, and nothing else. */
  lemma CharPrefixIsPrefix(q: seq<byte>)
    ensures CharPrefix(q) <==> |q| > 0 && exists t: seq<byte> :: IsChar(q + t)
  {
    if CharPrefix(q) {
      assert IsChar(q + Completion(q));
    }
    if |q| > 0 && exists t: seq<byte> :: IsChar(q + t) {
      var t: seq<byte> :| IsChar(q + t);
      IsCharByBytes(q + t);
      assert forall i :: 0 <= i < |q| ==> (q + t)[i] == q[i];
    }
  }

  /** No character is a proper beginning of another one. */
  lemma PrefixFree(b: seq<byte>, j: nat, k: nat)
    requires j <= |b| && k <= |b| && IsChar(b[..j]) && IsChar(b[..k])
    ensures j == k
  {
    IsCharByBytes(b[..j]);
    IsCharByBytes(b[..k]);
  }

  /** The first character of a string decides nothing about the rest. */
  lemma {:induction false} WellFormedSkip(b: seq<byte>, k: nat)
    requires k <= |b| && IsChar(b[..k])
    ensures WellFormed(b) <==> WellFormed(b[k..])
  {
    assert 1 <= k <= 4;
    if WellFormed(b) {
      var j :| 1 <= j <= 4 && j <= |b| && IsChar(b[..j]) && WellFormed(b[j..]);
      PrefixFree(b, j, k);
    }
  }

  lemma {:induction false} WellFormedConcat(a: seq<byte>, b: seq<byte>)
    requires WellFormed(a)
    ensures WellFormed(a + b) <==> WellFormed(b)
    decreases |a|
  {
    if a == [] {
      assert a + b == b;
    } else {
      var k :| 1 <= k <= 4 && k <= |a| && IsChar(a[..k]) && WellFormed(a[k..]);
      WellFormedConcat(a[k..], b);
      assert (a + b)[..k] == a[..k] && (a + b)[k..] == a[k..] + b;
      WellFormedSkip(a + b, k);
    }
  }

  /** A string that starts with no character is not well formed. */
  lemma NotWellFormed(b: seq<byte>)
    requires b != [] && (forall k :: 1 <= k <= 4 && k <= |b| ==> !IsChar(b[..k]))
    ensures !WellFormed(b)
  {
  }

  // ----- decoding one character -----

  /** The code point of a character: the payload bits of its bytes, most significant first. */
  function CodePoint(q: seq<byte>): (r: nat)
    requires IsChar(q)
    ensures |q| > 1 ==> 0x80 <= r <= 0x10FFFF && !(0xD800 <= r <= 0xDFFF)
  {
    match |q|
    case 1 => q[0]
    case 2 => (q[0] as int - 0xC0) * 0x40 + (q[1] as int - 0x80)
    case 3 => (q[0] as int - 0xE0) * 0x1000 + (q[1] as int - 0x80) * 0x40 + (q[2] as int - 0x80)
    case _ => (q[0] as int - 0xF0) * 0x40000 + (q[1] as int - 0x80) * 0x1000 + (q[2] as int - 0x80) * 0x40 + (q[3] as int - 0x80)
  }

  /** Go's utf8.FullRune: false exactly when more bytes could still complete a character. */
  predicate FullRune(b: seq<byte>) {
    b != [] && !(CharPrefix(b) && |b| < Length(b[0]))
  }

  /** Go's utf8.DecodeRune: the first character and its length, or the replacement character for one byte. */
  function DecodeRune(b: seq<byte>): (p: (nat, nat))
    requires b != []
    ensures 1 <= p.1 <= 4 && p.1 <= |b| && IsScalar(p.0)
  {
    var n := Length(b[0]);
    if 0 < n <= |b| && IsChar(b[..n]) then (CodePoint(b[..n]), n) else (REPLACEMENT, 1)
  }

  /** Once a rune is full, further bytes change neither that it is nor what it decodes to. */
  lemma DecodeStable(b: seq<byte>, more: seq<byte>)
    requires FullRune(b)
    ensures FullRune(b + more)
    ensures DecodeRune(b + more) == DecodeRune(b)
  {
    var n := Length(b[0]);
    var c := b + more;
    assert c[0] == b[0];
    if |b| >= n {
      assert c[..n] == b[..n];
    } else {
      assert !CharPrefix(b);
      assert !CharPrefix(c) by {
        assert forall i :: 0 <= i < |b| ==> c[i] == b[i];
      }
      if n <= |c| {
        IsCharByBytes(c[..n]);
        assert forall i :: 0 <= i < |b| ==> c[..n][i] == b[i];
      }
    }
  }

  /** Bytes above ASCII in front of one that is ASCII are all there is of their characters. */
  lemma StrayBytes(stray: seq<byte>, rest: seq<byte>)
    requires stray != [] && (forall i :: 0 <= i < |stray| ==> stray[i] >= 0x80) && rest != [] && rest[0] < 0x80
    ensures FullRune(stray + rest) && DecodeRune(stray + rest).1 <= |stray|
  {
    var b := stray + rest;
    assert b[0] == stray[0] && b[|stray|] < 0x80;
    var n := Length(b[0]);
    if |stray| < n <= |b| {
      assert b[..n][|stray|] < 0x80;
      IsCharByBytes(b[..n]);
    }
  }

  // ----- encoding -----

  predicate IsScalar(r: int) {
    0 <= r <= 0x10FFFF && !(0xD800 <= r <= 0xDFFF)
  }

  function Encode(r: int): (q: seq<byte>)
    requires IsScalar(r)
    ensures IsChar(q)
    ensures r < 0x80 ==> q == [r]
    ensures r >= 0x80 ==> forall i :: 0 <= i < |q| ==> q[i] >= 0x80
  {
    if r < 0x80 then [r]
    else if r < 0x800 then [0xC0 + r / 0x40, 0x80 + r % 0x40]
    else if r < 0x10000 then
      var q: seq<byte> := [0xE0 + r / 0x1000, 0x80 + r / 0x40 % 0x40, 0x80 + r % 0x40];
      q
    else
      var q: seq<byte> := [0xF0 + r / 0x40000, 0x80 + r / 0x1000 % 0x40, 0x80 + r / 0x40 % 0x40, 0x80 + r % 0x40];
      q
  }

  lemma DecodeEncode(r: int)
    requires IsScalar(r)
    ensures CodePoint(Encode(r)) == r
  {
    if r >= 0x800 {
      assert r == r / 0x40 * 0x40 + r % 0x40;
      assert r / 0x40 == r / 0x40 / 0x40 * 0x40 + r / 0x40 % 0x40;
      assert r / 0x40 / 0x40 == r / 0x1000;
      if r >= 0x10000 {
        assert r / 0x1000 == r / 0x1000 / 0x40 * 0x40 + r / 0x1000 % 0x40;
        assert r / 0x1000 / 0x40 == r / 0x40000;
      }
    }
  }
}
