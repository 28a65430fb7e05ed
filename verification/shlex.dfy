/**
backend/kubernetes/shlex.go and term/external.go: two shell word splitters, one with a loop inside its loop that reads code
points, one flat that reads bytes. Both follow the state machine below; quoting is its inverse.
*/
module Shlex {
  import opened Wrappers
  import opened Utf8

  datatype Result<+T> = Ok(value: T) | Err(error: Error)

  datatype Error = NoEscapedCharacter | NoClosingQuotation

  type Word = seq<int>

  const BACKSLASH := 0x5C
  const QUOTE := 0x27
  const DOUBLE_QUOTE := 0x22

  predicate IsSpace(c: int) {
    c == 0x20 || c == 0x09 || c == 0x0D || c == 0x0A
  }

  // ----- the state machine -----

  datatype Mode = Plain | Escape | Single | Double | DoubleEscape

  /** The words so far, the one being read, and whether one is being read: '' is a word too. */
  datatype State = State(words: seq<Word>, current: Word, started: bool, mode: Mode)

  const START := State([], [], false, Plain)

  function Add(st: State, c: int): State {
    st.(current := st.current + [c], started := true)
  }

  function Flush(st: State): State {
    if st.started then st.(words := st.words + [st.current], current := [], started := false) else st
  }

  function Step(st: State, c: int): State {
    match st.mode
    case Plain =>
      if IsSpace(c) then Flush(st)
      else if c == BACKSLASH then st.(mode := Escape)
      else if c == QUOTE then st.(started := true, mode := Single)
      else if c == DOUBLE_QUOTE then st.(started := true, mode := Double)
      else Add(st, c)
    case Escape => Add(st, c).(mode := Plain)
    case Single => if c == QUOTE then st.(mode := Plain) else Add(st, c)
    case Double =>
      if c == DOUBLE_QUOTE then st.(mode := Plain)
      else if c == BACKSLASH then st.(mode := DoubleEscape)
      else Add(st, c)
    case DoubleEscape =>
      // Only the quote and the backslash itself are escaped; before anything else the backslash stays.
      (if c == DOUBLE_QUOTE || c == BACKSLASH then Add(st, c) else Add(Add(st, BACKSLASH), c)).(mode := Double)
  }

  function Run(st: State, s: seq<int>): State
    decreases |s|
  {
    if s == [] then st else Run(Step(st, s[0]), s[1..])
  }

  function Finish(st: State): Result<seq<Word>> {
    match st.mode
    case Plain => Ok(Flush(st).words)
    case Escape => Err(NoEscapedCharacter)
    case DoubleEscape => Err(NoEscapedCharacter)
    case _ => Err(NoClosingQuotation)
  }

  /** The words of a line. */
  function Split(s: seq<int>): Result<seq<Word>> {
    Finish(Run(START, s))
  }

  lemma {:induction false} RunConcat(st: State, a: seq<int>, b: seq<int>)
    ensures Run(st, a + b) == Run(Run(st, a), b)
    decreases |a|
  {
    if a == [] {
      assert a + b == b;
    } else {
      assert (a + b)[1..] == a[1..] + b;
      RunConcat(Step(st, a[0]), a[1..], b);
    }
  }

  lemma RunOne(st: State, s: seq<int>, i: nat)
    requires i < |s|
    ensures Run(st, s[i..]) == Run(Step(st, s[i]), s[i + 1..])
  {
    assert s[i..][1..] == s[i + 1..];
  }

  // ----- the nested splitter -----

  method ShlexSplit(runes: seq<int>) returns (r: Result<seq<Word>>)
    ensures r == Split(runes)
  {
    hide Run;
    var tokens: seq<Word> := [];
    var current: Word := [];
    var started := false;
    var i := 0;
    assert runes[0..] == runes;
    while i < |runes|
      invariant 0 <= i <= |runes|
      invariant Run(State(tokens, current, started, Plain), runes[i..]) == Run(START, runes)
      invariant !started ==> current == []
      decreases |runes| - i
    {
      var c := runes[i];
      ghost var st := State(tokens, current, started, Plain);
      RunOne(st, runes, i);
      if IsSpace(c) {
        if started {
          tokens := tokens + [current];
          current := [];
          started := false;
        }
      } else if c == BACKSLASH {
        if i + 1 >= |runes| {
          RunEnd(Step(st, c), runes);
          return Err(NoEscapedCharacter);
        }
        i := i + 1;
        RunOne(Step(st, c), runes, i);
        current := current + [runes[i]];
        started := true;
      } else if c == QUOTE || c == DOUBLE_QUOTE {
        started := true;
        var error: Result<()>;
        i, current, error := ReadQuoted(runes, i + 1, c, tokens, current);
        if error.Err? { return Err(error.error); }
      } else {
        current := current + [c];
        started := true;
      }
      i := i + 1;
    }
    RunEnd(State(tokens, current, started, Plain), runes);
    if started {
      tokens := tokens + [current];
    }
    r := Ok(tokens);
  }

  lemma RunEnd(st: State, s: seq<int>)
    ensures Run(st, s[|s|..]) == st
  {
  }

  function QuoteMode(quote: int): Mode {
    if quote == QUOTE then Single else Double
  }

  /** The inner loop, from after the opening quote up to the closing one. */
  method ReadQuoted(runes: seq<int>, from: nat, quote: int, ghost words: seq<Word>, begun: Word)
    returns (i: nat, current: Word, error: Result<()>)
    requires from <= |runes| && (quote == QUOTE || quote == DOUBLE_QUOTE)
    ensures error.Ok? ==> from <= i < |runes| && Run(State(words, begun, true, QuoteMode(quote)), runes[from..]) ==
                                         Run(State(words, current, true, Plain), runes[i + 1..])
    ensures error.Err? ==> Finish(Run(State(words, begun, true, QuoteMode(quote)), runes[from..])) == Err(error.error)
  {
    hide Run;
    i, current, error := from, begun, Ok(());
    var closed := false;
    ghost var all := Run(State(words, begun, true, QuoteMode(quote)), runes[from..]);
    while i < |runes| && !closed
      invariant from <= i <= |runes|
      invariant !closed ==> Run(State(words, current, true, QuoteMode(quote)), runes[i..]) == all
      invariant closed ==> i < |runes| && Run(State(words, current, true, Plain), runes[i + 1..]) == all
      decreases |runes| - i, !closed
    {
      var c := runes[i];
      ghost var st := State(words, current, true, QuoteMode(quote));
      RunOne(st, runes, i);
      if c == quote {
        closed := true;
      } else if c == BACKSLASH && quote == DOUBLE_QUOTE {
        if i + 1 >= |runes| {
          RunEnd(Step(st, c), runes);
          return i, current, Err(NoEscapedCharacter);
        }
        RunOne(Step(st, c), runes, i + 1);
        var next := runes[i + 1];
        if next == quote || next == BACKSLASH {
          i := i + 1;
          current := current + [next];
        } else {
          current := current + [c];
          RunOne(st.(current := current), runes, i + 1);
        }
        i := i + 1;
      } else {
        current := current + [c];
        i := i + 1;
      }
    }
    if !closed {
      RunEnd(State(words, current, true, QuoteMode(quote)), runes);
      error := Err(NoClosingQuotation);
    }
  }

  // ----- the flat splitter -----

  /** The flat splitter looks ahead for what a backslash escapes, so that at the end it sees the open quote only. */
  function FinishFlat(st: State): Result<seq<Word>> {
    if st.mode == DoubleEscape then Err(NoClosingQuotation) else Finish(st)
  }

  method FlatSplit(s: seq<byte>) returns (r: Result<seq<Word>>)
    ensures r == FinishFlat(Run(START, s))
  {
    hide Run;
    var out: seq<Word> := [];
    var word: Word := [];
    var have := false;
    var quote := 0;
    var i := 0;
    assert s[0..] == s;
    while i < |s|
      invariant 0 <= i <= |s| && (quote == 0 || quote == QUOTE || quote == DOUBLE_QUOTE)
      invariant (quote != 0 ==> have) && (!have ==> word == [])
      invariant FinishFlat(Run(State(out, word, have, if quote == 0 then Plain else QuoteMode(quote)), s[i..])) ==
                FinishFlat(Run(START, s))
    {
      var c := s[i];
      ghost var st := State(out, word, have, if quote == 0 then Plain else QuoteMode(quote));
      RunOne(st, s, i);
      if quote == QUOTE {
        if c == QUOTE { quote := 0; } else { word := word + [c as int]; }
      } else if quote == DOUBLE_QUOTE {
        if c == BACKSLASH {
          LookAhead(st, s, i);
          if i + 1 < |s| && (s[i + 1] == DOUBLE_QUOTE || s[i + 1] == BACKSLASH) {
            i := i + 1;
            word := word + [s[i] as int];
          } else {
            word := word + [c as int];
          }
        } else if c == DOUBLE_QUOTE {
          quote := 0;
        } else {
          word := word + [c as int];
        }
      } else if c == QUOTE || c == DOUBLE_QUOTE {
        quote := c;
        have := true;
      } else if c == BACKSLASH {
        if i + 1 >= |s| {
          RunEnd(Step(st, c), s);
          return Err(NoEscapedCharacter);
        }
        i := i + 1;
        RunOne(Step(st, c), s, i);
        word := word + [s[i] as int];
        have := true;
      } else if IsSpace(c) {
        if have {
          out := out + [word];
          word := [];
          have := false;
        }
      } else {
        word := word + [c as int];
        have := true;
      }
      i := i + 1;
    }
    RunEnd(State(out, word, have, if quote == 0 then Plain else QuoteMode(quote)), s);
    if quote != 0 { return Err(NoClosingQuotation); }
    if have { out := out + [word]; }
    r := Ok(out);
  }

  lemma LookAhead(st: State, s: seq<int>, i: nat)
    requires i < |s| && st.mode == Double && st.started && s[i] == BACKSLASH
    ensures var special := i + 1 < |s| && (s[i + 1] == DOUBLE_QUOTE || s[i + 1] == BACKSLASH);
            FinishFlat(Run(Step(st, s[i]), s[i + 1..])) ==
            if special then FinishFlat(Run(Add(st, s[i + 1]), s[i + 2..])) else FinishFlat(Run(Add(st, BACKSLASH), s[i + 1..]))
  {
    hide Run;
    if i + 1 < |s| {
      RunOne(Step(st, s[i]), s, i + 1);
      RunOne(Add(st, BACKSLASH), s, i + 1);
    } else {
      RunEnd(Step(st, s[i]), s);
      RunEnd(Add(st, BACKSLASH), s);
    }
  }

  // ----- the two agree -----

  predicate IsText(s: seq<int>) {
    forall i :: 0 <= i < |s| ==> IsScalar(s[i])
  }

  function EncodeText(s: seq<int>): (r: seq<int>)
    requires IsText(s)
    ensures forall i :: 0 <= i < |r| ==> 0 <= r[i] < 256
  {
    if s == [] then [] else Encode(s[0]) + EncodeText(s[1..])
  }

  predicate AreTexts(words: seq<Word>) {
    forall i :: 0 <= i < |words| ==> IsText(words[i])
  }

  function EncodeWords(words: seq<Word>): (r: seq<Word>)
    requires AreTexts(words)
    ensures |r| == |words| && forall i :: 0 <= i < |words| ==> r[i] == EncodeText(words[i])
  {
    if words == [] then [] else [EncodeText(words[0])] + EncodeWords(words[1..])
  }

  /** The first character of an encoded text is told by its bytes. */
  lemma EncodedFirst(c: int, d: int, more: seq<byte>, rest: seq<byte>)
    requires IsScalar(c) && IsScalar(d) && Encode(c) + more == Encode(d) + rest
    ensures c == d && more == rest
  {
    hide Encode;
    var b := Encode(c) + more;
    assert b[..|Encode(c)|] == Encode(c) && b[|Encode(c)|..] == more;
    assert b[..|Encode(d)|] == Encode(d) && b[|Encode(d)|..] == rest;
    PrefixFree(b, |Encode(c)|, |Encode(d)|);
    DecodeEncode(c);
    DecodeEncode(d);
  }

  /** Different texts have different bytes. */
  lemma {:induction false} EncodeTextInjective(s: seq<int>, t: seq<int>)
    requires IsText(s) && IsText(t) && EncodeText(s) == EncodeText(t)
    ensures s == t
  {
    hide Encode;
    if s != [] && t != [] {
      EncodedFirst(s[0], t[0], EncodeText(s[1..]), EncodeText(t[1..]));
      EncodeTextInjective(s[1..], t[1..]);
    }
  }

  lemma EncodeWordsInjective(words: seq<Word>, other: seq<Word>)
    requires AreTexts(words) && AreTexts(other) && EncodeWords(words) == EncodeWords(other)
    ensures words == other
  {
    forall i | 0 <= i < |words|
      ensures words[i] == other[i]
    {
      assert EncodeWords(words)[i] == EncodeText(words[i]) && EncodeWords(other)[i] == EncodeText(other[i]);
      EncodeTextInjective(words[i], other[i]);
    }
  }

  predicate TextState(st: State) {
    AreTexts(st.words) && IsText(st.current)
  }

  function EncodeState(st: State): State
    requires TextState(st)
  {
    State(EncodeWords(st.words), EncodeText(st.current), st.started, st.mode)
  }

  lemma {:induction false} EncodeConcat(a: seq<int>, b: seq<int>)
    requires IsText(a) && IsText(b)
    ensures IsText(a + b) && EncodeText(a + b) == EncodeText(a) + EncodeText(b)
  {
    hide Encode;
    if a == [] {
      assert a + b == b;
    } else {
      EncodeConcat(a[1..], b);
      var all := a + b;
      assert all[0] == a[0] && all[1..] == a[1..] + b;
      Associate(Encode(a[0]), EncodeText(a[1..]), EncodeText(b));
    }
  }

  lemma EncodeOne(a: seq<int>, c: int)
    requires IsText(a) && IsScalar(c)
    ensures IsText(a + [c]) && EncodeText(a + [c]) == EncodeText(a) + Encode(c)
  {
    EncodeConcat(a, [c]);
    assert EncodeText([c]) == Encode(c) + EncodeText([c][1..]);
  }

  lemma EncodeAdded(st: State, c: int)
    requires TextState(st) && IsScalar(c)
    ensures TextState(Add(st, c))
    ensures EncodeState(Add(st, c)) == EncodeState(st).(current := EncodeState(st).current + Encode(c), started := true)
  {
    EncodeOne(st.current, c);
  }

  lemma EncodeFlushed(st: State)
    requires TextState(st)
    ensures TextState(Flush(st)) && EncodeState(Flush(st)) == Flush(EncodeState(st))
  {
    if st.started {
      var e := EncodeWords(st.words + [st.current]);
      assert e == EncodeWords(st.words) + [EncodeText(st.current)];
    }
  }

  /** Bytes above ASCII are all ordinary: once the first is taken, the rest of a character follows it. */
  lemma {:induction false} RunOrdinary(st: State, q: seq<int>)
    requires st.mode != Escape && st.mode != DoubleEscape && q != [] && forall i :: 0 <= i < |q| ==> q[i] >= 0x80
    ensures Run(st, q) == st.(current := st.current + q, started := true)
    decreases |q|
  {
    if |q| > 1 {
      RunOrdinary(Step(st, q[0]), q[1..]);
      assert st.current + [q[0]] + q[1..] == st.current + q;
    } else {
      assert q == [q[0]];
    }
  }

  lemma RunFirst(st: State, q: seq<int>)
    requires q != []
    ensures Run(st, q) == Run(Step(st, q[0]), q[1..])
  {
  }

  lemma RunAscii(st: State, c: int)
    requires TextState(st) && 0 <= c < 0x80
    ensures TextState(Step(st, c)) && Step(EncodeState(st), c) == EncodeState(Step(st, c))
  {
    hide EncodeText, EncodeWords, Encode;
    EncodeFlushed(st);
    EncodeAdded(st, c);
    EncodeAdded(st, BACKSLASH);
    EncodeAdded(Add(st, BACKSLASH), c);
    assert Encode(BACKSLASH) == [BACKSLASH] && Encode(c) == [c];
  }

  /** The bytes of a code point beyond ASCII are taken like one ordinary character. */
  lemma RunWide(st: State, q: seq<int>)
    requires q != [] && forall i :: 0 <= i < |q| ==> q[i] >= 0x80
    ensures st.mode == Escape ==> Run(st, q) == st.(current := st.current + q, started := true, mode := Plain)
    ensures st.mode == DoubleEscape ==>
              Run(st, q) == st.(current := (st.current + [BACKSLASH]) + q, started := true, mode := Double)
    ensures st.mode != Escape && st.mode != DoubleEscape ==> Run(st, q) == st.(current := st.current + q, started := true)
  {
    hide Run;
    if st.mode == Escape || st.mode == DoubleEscape {
      RunFirst(st, q);
      Ordinary(Step(st, q[0]), q[1..]);
      assert q == [q[0]] + q[1..];
      Associate(st.current, [q[0]], q[1..]);
      Associate(st.current + [BACKSLASH], [q[0]], q[1..]);
    } else {
      RunOrdinary(st, q);
    }
  }

  lemma StepWide(st: State, c: int)
    requires TextState(st) && IsScalar(c) && c >= 0x80
    ensures TextState(Step(st, c)) && Run(EncodeState(st), Encode(c)) == EncodeState(Step(st, c))
  {
    hide EncodeText, EncodeWords, Encode, Run;
    RunWide(EncodeState(st), Encode(c));
    EncodeAdded(st, c);
    EncodeAdded(st, BACKSLASH);
    EncodeAdded(Add(st, BACKSLASH), c);
    assert Encode(BACKSLASH) == [BACKSLASH];
  }

  /** A code point moves the machine as its bytes do. */
  lemma StepEncoded(st: State, c: int)
    requires TextState(st) && IsScalar(c)
    ensures TextState(Step(st, c)) && Run(EncodeState(st), Encode(c)) == EncodeState(Step(st, c))
  {
    hide EncodeText, EncodeWords, EncodeState, Step, TextState, Run;
    if c < 0x80 {
      RunAscii(st, c);
      assert Encode(c) == [c] && [c][0..] == [c];
      RunOne(EncodeState(st), [c], 0);
      RunEnd(Step(EncodeState(st), c), [c]);
    } else {
      StepWide(st, c);
    }
  }

  lemma Ordinary(st: State, q: seq<int>)
    requires st.mode != Escape && st.mode != DoubleEscape && st.started && forall i :: 0 <= i < |q| ==> q[i] >= 0x80
    ensures Run(st, q) == st.(current := st.current + q)
  {
    if q == [] { assert st.current + q == st.current; } else { RunOrdinary(st, q); }
  }

  lemma {:induction false} RunEncoded(st: State, s: seq<int>)
    requires TextState(st) && IsText(s)
    ensures TextState(Run(st, s)) && Run(EncodeState(st), EncodeText(s)) == EncodeState(Run(st, s))
    decreases |s|
  {
    hide Encode, Step, EncodeState, TextState;
    if s != [] {
      StepEncoded(st, s[0]);
      RunEncoded(Step(st, s[0]), s[1..]);
      RunConcat(EncodeState(st), Encode(s[0]), EncodeText(s[1..]));
    }
  }

  /**
  The two splitters take the same lines and find the same words in them: the bytes that the flat one finds are those of the
  nested one's words, and of no other words. They name the error differently on just the lines that end in a backslash inside
  double quotes.
  */
  lemma SplittersAgree(s: seq<int>)
    requires IsText(s)
    ensures var flat := FinishFlat(Run(START, EncodeText(s)));
            match Split(s)
            case Ok(words) =>
              && AreTexts(words) && flat.Ok?
              && forall other :: AreTexts(other) ==> (flat.value == EncodeWords(other) <==> other == words)
            case Err(e) => flat.Err? && (flat.error != e <==> Run(START, s).mode == DoubleEscape)
  {
    BytesSplit(s);
    hide Run, EncodeWords, Finish, AreTexts;
    match Split(s)
    case Ok(words) =>
      forall other | AreTexts(other) && EncodeWords(words) == EncodeWords(other)
        ensures other == words
      {
        EncodeWordsInjective(words, other);
      }
    case Err(_) =>
  }

  lemma BytesSplit(s: seq<int>)
    requires IsText(s)
    ensures var flat := FinishFlat(Run(START, EncodeText(s)));
            match Split(s)
            case Ok(words) => AreTexts(words) && flat == Ok(EncodeWords(words))
            case Err(e) => flat.Err? && (flat.error != e <==> Run(START, s).mode == DoubleEscape)
  {
    assert EncodeState(START) == START;
    RunEncoded(START, s);
    EncodeFlushed(Run(START, s));
  }

  // ----- quoting -----

  /** A character that makes a word need quotes. */
  predicate Unsafe(c: int) {
    && !(0x61 <= c <= 0x7A) && !(0x41 <= c <= 0x5A) && !(0x30 <= c <= 0x39)
    && c !in [0x5F, 0x40, 0x25, 0x2B, 0x3D, 0x3A, 0x2C, 0x2E, 0x2F, 0x2D]
  }

  /** Each quote becomes '"'"'. */
  function EscapeQuotes(s: Word): seq<int> {
    if s == [] then []
    else (if s[0] == QUOTE then [QUOTE, DOUBLE_QUOTE, QUOTE, DOUBLE_QUOTE, QUOTE] else [s[0]]) + EscapeQuotes(s[1..])
  }

  function Quote(s: Word): seq<int> {
    if s == [] then [QUOTE, QUOTE]
    else if forall i :: 0 <= i < |s| ==> !Unsafe(s[i]) then s
    else [QUOTE] + EscapeQuotes(s) + [QUOTE]
  }

  function Join(argv: seq<Word>): seq<int> {
    if argv == [] then []
    else if |argv| == 1 then Quote(argv[0])
    else Quote(argv[0]) + [0x20] + Join(argv[1..])
  }

  lemma SafeIsOrdinary(st: State, c: int)
    requires st.mode == Plain && !Unsafe(c)
    ensures Step(st, c) == Add(st, c)
  {
  }

  lemma {:induction false} RunSafe(st: State, s: seq<int>)
    requires st.mode == Plain && (forall i :: 0 <= i < |s| ==> !Unsafe(s[i])) && (s != [] || st.started)
    ensures Run(st, s) == st.(current := st.current + s, started := true)
    decreases |s|
  {
    if s == [] {
      assert st.current + s == st.current;
    } else {
      SafeIsOrdinary(st, s[0]);
      hide Step, Unsafe;
      RunSafe(Add(st, s[0]), s[1..]);
      assert st.current + [s[0]] + s[1..] == st.current + s;
    }
  }

  lemma RunFive(st: State)
    requires st.mode == Single && st.started
    ensures Run(st, [QUOTE, DOUBLE_QUOTE, QUOTE, DOUBLE_QUOTE, QUOTE]) == Add(st, QUOTE)
  {
    var five := [QUOTE, DOUBLE_QUOTE, QUOTE, DOUBLE_QUOTE, QUOTE];
    assert five[5..] == [];
    assert five[0..] == five;
    hide Run;
    RunOne(st, five, 0);
    RunOne(st.(mode := Plain), five, 1);
    RunOne(st.(mode := Double), five, 2);
    RunOne(Add(st, QUOTE).(mode := Double), five, 3);
    RunOne(Add(st, QUOTE).(mode := Plain), five, 4);
    RunEnd(Add(st, QUOTE), five);
  }

  lemma {:induction false} RunEscaped(st: State, s: Word)
    requires st.mode == Single && st.started
    ensures Run(st, EscapeQuotes(s)) == st.(current := st.current + s)
    decreases |s|
  {
    if s == [] {
      assert st.current + s == st.current;
    } else {
      var own := if s[0] == QUOTE then [QUOTE, DOUBLE_QUOTE, QUOTE, DOUBLE_QUOTE, QUOTE] else [s[0]];
      RunConcat(st, own, EscapeQuotes(s[1..]));
      if s[0] == QUOTE { RunFive(st); } else { RunOne(st, own, 0); RunEnd(Add(st, s[0]), own); }
      hide Run;
      assert Run(st, own) == Add(st, s[0]);
      RunEscaped(Add(st, s[0]), s[1..]);
      assert st.current + [s[0]] + s[1..] == st.current + s;
    }
  }

  /** A quoted word is read back as itself, and as a word even where it is empty. */
  lemma RunQuoted(st: State, s: Word)
    requires st.mode == Plain && st.current == []
    ensures Run(st, Quote(s)) == st.(current := s, started := true)
  {
    hide Run;
    if s == [] {
      assert [QUOTE, QUOTE] == [QUOTE] + [QUOTE];
      RunConcat(st, [QUOTE], [QUOTE]);
      RunSingle(st, QUOTE);
      RunSingle(st.(mode := Single, started := true), QUOTE);
    } else if forall i :: 0 <= i < |s| ==> !Unsafe(s[i]) {
      RunSafe(st, s);
      assert [] + s == s;
    } else {
      RunInQuotes(st, s);
    }
  }

  lemma RunSingle(st: State, c: int)
    ensures Run(st, [c]) == Step(st, c)
  {
    hide Run;
    assert [c][0..] == [c];
    RunOne(st, [c], 0);
    RunEnd(Step(st, c), [c]);
  }

  lemma RunInQuotes(st: State, s: Word)
    requires st.mode == Plain && st.current == []
    ensures Run(st, [QUOTE] + EscapeQuotes(s) + [QUOTE]) == st.(current := s, started := true)
  {
    hide Run, EscapeQuotes;
    var inside := st.(mode := Single, started := true);
    RunConcat(st, [QUOTE] + EscapeQuotes(s), [QUOTE]);
    RunConcat(st, [QUOTE], EscapeQuotes(s));
    RunSingle(st, QUOTE);
    RunEscaped(inside, s);
    assert [] + s == s;
    RunSingle(inside.(current := s), QUOTE);
  }

  lemma {:induction false} RunJoined(st: State, argv: seq<Word>)
    requires st.mode == Plain && st.current == [] && !st.started
    ensures Flush(Run(st, Join(argv))) == st.(words := st.words + argv) && Run(st, Join(argv)).mode == Plain
    decreases |argv|
  {
    hide Run, Quote;
    if argv == [] {
      assert Join(argv)[0..] == Join(argv);
      RunEnd(st, Join(argv));
      assert st.words + argv == st.words;
    } else {
      var read := st.(current := argv[0], started := true);
      RunQuoted(st, argv[0]);
      if |argv| == 1 {
        assert argv == [argv[0]];
      } else {
        var next := st.(words := st.words + [argv[0]]);
        RunConcat(st, Quote(argv[0]) + [0x20], Join(argv[1..]));
        RunConcat(st, Quote(argv[0]), [0x20]);
        assert [0x20][0..] == [0x20];
        RunOne(read, [0x20], 0);
        RunEnd(next, [0x20]);
        RunJoined(next, argv[1..]);
        assert st.words + [argv[0]] + argv[1..] == st.words + argv;
      }
    }
  }

  /** Splitting undoes joining, for every list of words there is. */
  lemma SplitJoin(argv: seq<Word>)
    ensures Split(Join(argv)) == Ok(argv)
  {
    RunJoined(START, argv);
    assert [] + argv == argv;
  }
}
