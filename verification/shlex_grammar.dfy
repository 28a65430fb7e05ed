/**
backend/kubernetes/shlex.go: the lines that word splitting takes apart, as a grammar, and what each of them means.
*/
module ShlexGrammar {
  import opened Wrappers
  import opened Shlex

  /** Between double quotes: a character, a quote or backslash behind a backslash, or a backslash that stays before another. */
  datatype Part = Itself(c: int) | Guarded(c: int) | Kept(c: int)

  /** White space, and what words are made of. */
  datatype Token = Blank(c: int) | Bare(c: int) | Escaped(c: int) | Quoted(text: Word) | DoubleQuoted(parts: seq<Part>)

  /** What a line may stop in the middle of. */
  datatype Rest = Nothing | Dangling | OpenQuote(text: Word) | OpenDouble(parts: seq<Part>) | OpenDangling(parts: seq<Part>)

  // ----- the grammar -----

  predicate PartOk(p: Part) {
    match p
    case Itself(c) => c != DOUBLE_QUOTE && c != BACKSLASH
    case Guarded(c) => c == DOUBLE_QUOTE || c == BACKSLASH
    case Kept(c) => c != DOUBLE_QUOTE && c != BACKSLASH
  }

  predicate PartsOk(parts: seq<Part>) {
    forall i :: 0 <= i < |parts| ==> PartOk(parts[i])
  }

  predicate TokenOk(t: Token) {
    match t
    case Blank(c) => c == 0x20 || c == 0x09 || c == 0x0D || c == 0x0A
    case Bare(c) => c !in {0x20, 0x09, 0x0D, 0x0A, BACKSLASH, QUOTE, DOUBLE_QUOTE}
    case Escaped(_) => true
    case Quoted(text) => QUOTE !in text
    case DoubleQuoted(parts) => PartsOk(parts)
  }

  predicate LineOk(tokens: seq<Token>) {
    forall i :: 0 <= i < |tokens| ==> TokenOk(tokens[i])
  }

  predicate RestOk(rest: Rest) {
    match rest
    case OpenQuote(text) => QUOTE !in text
    case OpenDouble(parts) => PartsOk(parts)
    case OpenDangling(parts) => PartsOk(parts)
    case _ => true
  }

  // ----- how it is spelled -----

  function SpellPart(p: Part): seq<int> {
    match p case Itself(c) => [c] case Guarded(c) => [BACKSLASH, c] case Kept(c) => [BACKSLASH, c]
  }

  function SpellParts(parts: seq<Part>): seq<int> {
    if parts == [] then [] else SpellPart(parts[0]) + SpellParts(parts[1..])
  }

  function SpellToken(t: Token): seq<int> {
    match t
    case Blank(c) => [c]
    case Bare(c) => [c]
    case Escaped(c) => [BACKSLASH, c]
    case Quoted(text) => [QUOTE] + text + [QUOTE]
    case DoubleQuoted(parts) => [DOUBLE_QUOTE] + SpellParts(parts) + [DOUBLE_QUOTE]
  }

  function SpellLine(tokens: seq<Token>): seq<int> {
    if tokens == [] then [] else SpellToken(tokens[0]) + SpellLine(tokens[1..])
  }

  function SpellRest(rest: Rest): seq<int> {
    match rest
    case Nothing => []
    case Dangling => [BACKSLASH]
    case OpenQuote(text) => [QUOTE] + text
    case OpenDouble(parts) => [DOUBLE_QUOTE] + SpellParts(parts)
    case OpenDangling(parts) => [DOUBLE_QUOTE] + SpellParts(parts) + [BACKSLASH]
  }

  // ----- what it means -----

  function PartMeans(p: Part): seq<int> {
    match p case Itself(c) => [c] case Guarded(c) => [c] case Kept(c) => [BACKSLASH, c]
  }

  function PartsMean(parts: seq<Part>): Word {
    if parts == [] then [] else PartMeans(parts[0]) + PartsMean(parts[1..])
  }

  function TokenMeans(t: Token): Word {
    match t
    case Blank(_) => []
    case Bare(c) => [c]
    case Escaped(c) => [c]
    case Quoted(text) => text
    case DoubleQuoted(parts) => PartsMean(parts)
  }

  function TokensMean(tokens: seq<Token>): Word {
    if tokens == [] then [] else TokenMeans(tokens[0]) + TokensMean(tokens[1..])
  }

  /** How many tokens from the first on belong to one word. */
  function WordLength(tokens: seq<Token>): (n: nat)
    ensures n <= |tokens| && (forall i :: 0 <= i < n ==> !tokens[i].Blank?) && (n < |tokens| ==> tokens[n].Blank?)
  {
    if tokens == [] || tokens[0].Blank? then 0 else 1 + WordLength(tokens[1..])
  }

  /** The words of a line lie between its blanks; each is what its tokens mean, one after another. */
  function Words(tokens: seq<Token>): seq<Word>
    decreases |tokens|
  {
    if tokens == [] then []
    else if tokens[0].Blank? then Words(tokens[1..])
    else [TokensMean(tokens[..WordLength(tokens)])] + Words(tokens[WordLength(tokens)..])
  }

  // ----- the splitter reads it -----

  lemma {:induction false} ReadParts(st: State, parts: seq<Part>)
    requires PartsOk(parts) && st.mode == Double && st.started
    ensures Run(st, SpellParts(parts)) == st.(current := st.current + PartsMean(parts))
    decreases |parts|
  {
    if parts == [] {
      assert st.current + [] == st.current;
    } else {
      var p := parts[0];
      var next := st.(current := st.current + PartMeans(p));
      ReadPart(st, p);
      RunConcat(st, SpellPart(p), SpellParts(parts[1..]));
      ReadParts(next, parts[1..]);
      Associate(st.current, PartMeans(p), PartsMean(parts[1..]));
    }
  }

  lemma ReadTwo(st: State, c: int, d: int)
    ensures Run(st, [c, d]) == Step(Step(st, c), d)
    ensures Run(st, [c]) == Step(st, c)
  {
    assert [c, d][1..] == [d] && [d][1..] == [] && [c][1..] == [];
    assert Run(Step(st, c), [d]) == Step(Step(st, c), d);
  }

  lemma ReadPart(st: State, p: Part)
    requires PartOk(p) && st.mode == Double && st.started
    ensures Run(st, SpellPart(p)) == st.(current := st.current + PartMeans(p))
  {
    hide Run;
    ReadTwo(st, BACKSLASH, p.c);
    ReadTwo(st, p.c, 0);
    assert st.current + [BACKSLASH] + [p.c] == st.current + [BACKSLASH, p.c];
  }

  lemma {:induction false} ReadText(st: State, text: Word)
    requires QUOTE !in text && st.mode == Single && st.started
    ensures Run(st, text) == st.(current := st.current + text)
    decreases |text|
  {
    if text == [] {
      assert st.current + [] == st.current;
    } else {
      assert text[0] in text;
      assert st.current + [text[0]] + text[1..] == st.current + text;
      ReadText(Add(st, text[0]), text[1..]);
    }
  }

  /** A token of a word adds what it means to the word. */
  lemma ReadToken(st: State, t: Token)
    requires TokenOk(t) && !t.Blank? && st.mode == Plain
    ensures Run(st, SpellToken(t)) == st.(current := st.current + TokenMeans(t), started := true)
  {
    hide Run, SpellParts, PartsMean;
    match t
    case Bare(c) => ReadTwo(st, c, 0);
    case Escaped(c) => ReadTwo(st, BACKSLASH, c);
    case Quoted(text) =>
      var inside := Step(st, QUOTE);
      ReadTwo(st, QUOTE, 0);
      ReadText(inside, text);
      ReadTwo(inside.(current := st.current + text), QUOTE, 0);
      RunConcat(st, [QUOTE], text);
      RunConcat(st, [QUOTE] + text, [QUOTE]);
    case DoubleQuoted(parts) =>
      var inside := Step(st, DOUBLE_QUOTE);
      ReadTwo(st, DOUBLE_QUOTE, 0);
      ReadParts(inside, parts);
      ReadTwo(inside.(current := st.current + PartsMean(parts)), DOUBLE_QUOTE, 0);
      RunConcat(st, [DOUBLE_QUOTE], SpellParts(parts));
      RunConcat(st, [DOUBLE_QUOTE] + SpellParts(parts), [DOUBLE_QUOTE]);
  }

  lemma {:induction false} ReadWord(st: State, tokens: seq<Token>)
    requires LineOk(tokens) && st.mode == Plain && tokens != [] && forall i :: 0 <= i < |tokens| ==> !tokens[i].Blank?
    ensures Run(st, SpellLine(tokens)) == st.(current := st.current + TokensMean(tokens), started := true)
    decreases |tokens|
  {
    hide Run, SpellToken, TokenMeans, TokenOk;
    var t := tokens[0];
    var next := st.(current := st.current + TokenMeans(t), started := true);
    ReadToken(st, t);
    RunConcat(st, SpellToken(t), SpellLine(tokens[1..]));
    if |tokens| == 1 {
      assert tokens[1..] == [];
      RunEnd(next, []);
      assert TokenMeans(t) + [] == TokenMeans(t);
    } else {
      ReadWord(next, tokens[1..]);
      Associate(st.current, TokenMeans(t), TokensMean(tokens[1..]));
    }
  }

  lemma {:induction false} SpellConcat(a: seq<Token>, b: seq<Token>)
    ensures SpellLine(a + b) == SpellLine(a) + SpellLine(b)
  {
    if a == [] {
      assert a + b == b;
    } else {
      assert (a + b)[1..] == a[1..] + b;
      SpellConcat(a[1..], b);
      Associate(SpellToken(a[0]), SpellLine(a[1..]), SpellLine(b));
    }
  }

  /** At the end of a line, or of its last word, the words are those of the grammar. */
  lemma {:induction false} ReadLine(st: State, tokens: seq<Token>)
    requires LineOk(tokens) && st == State(st.words, [], false, Plain)
    ensures var r := Run(st, SpellLine(tokens));
            r.mode == Plain && Flush(r) == State(st.words + Words(tokens), [], false, Plain)
    decreases |tokens|
  {
    hide Run, SpellToken, TokensMean;
    if tokens == [] {
      RunEnd(st, []);
      assert st.words + [] == st.words;
    } else if tokens[0].Blank? {
      RunConcat(st, SpellToken(tokens[0]), SpellLine(tokens[1..]));
      ReadBlank(st, tokens[0]);
      ReadLine(st, tokens[1..]);
    } else {
      var n := WordLength(tokens);
      var word, left := tokens[..n], tokens[n..];
      assert tokens == word + left;
      SpellConcat(word, left);
      RunConcat(st, SpellLine(word), SpellLine(left));
      ReadWord(st, word);
      var read := State(st.words, [] + TokensMean(word), true, Plain);
      assert [] + TokensMean(word) == TokensMean(word);
      var next := State(st.words + [TokensMean(word)], [], false, Plain);
      assert Flush(read) == next;
      assert Words(tokens) == [TokensMean(word)] + Words(left);
      Associate(st.words, [TokensMean(word)], Words(left));
      if left == [] {
        RunEnd(read, []);
      } else {
        RunConcat(read, SpellToken(left[0]), SpellLine(left[1..]));
        ReadBlank(read, left[0]);
        ReadLine(next, left[1..]);
      }
    }
  }

  /** White space ends the word that is being read, if one is. */
  lemma ReadBlank(st: State, t: Token)
    requires TokenOk(t) && t.Blank? && st.mode == Plain
    ensures Run(st, SpellToken(t)) == Flush(st)
  {
    ReadTwo(st, t.c, 0);
  }

  function Verdict(tokens: seq<Token>, rest: Rest): Result<seq<Word>> {
    match rest
    case Nothing => Ok(Words(tokens))
    case Dangling => Err(NoEscapedCharacter)
    case OpenDangling(_) => Err(NoEscapedCharacter)
    case _ => Err(NoClosingQuotation)
  }

  lemma ReadRest(st: State, rest: Rest)
    requires RestOk(rest) && st.mode == Plain && !rest.Nothing?
    ensures Run(st, SpellRest(rest)).mode ==
            match rest case Dangling => Escape case OpenQuote(_) => Single case OpenDouble(_) => Double case _ => DoubleEscape
  {
    hide Run, SpellParts;
    ReadTwo(st, BACKSLASH, 0);
    if rest.OpenQuote? {
      ReadTwo(st, QUOTE, 0);
      RunConcat(st, [QUOTE], rest.text);
      ReadText(Step(st, QUOTE), rest.text);
    } else if rest.OpenDouble? || rest.OpenDangling? {
      ReadOpen(st, rest.parts);
      RunConcat(st, [DOUBLE_QUOTE] + SpellParts(rest.parts), [BACKSLASH]);
      ReadTwo(Run(st, [DOUBLE_QUOTE] + SpellParts(rest.parts)), BACKSLASH, 0);
    }
  }

  lemma ReadOpen(st: State, parts: seq<Part>)
    requires PartsOk(parts) && st.mode == Plain
    ensures Run(st, [DOUBLE_QUOTE] + SpellParts(parts)).mode == Double
  {
    hide Run, SpellParts;
    ReadTwo(st, DOUBLE_QUOTE, 0);
    RunConcat(st, [DOUBLE_QUOTE], SpellParts(parts));
    ReadParts(Step(st, DOUBLE_QUOTE), parts);
  }

  /** What splitting a line gives: the words of the grammar, or the error for what the line stops in the middle of. */
  lemma SplitMeans(tokens: seq<Token>, rest: Rest)
    requires LineOk(tokens) && RestOk(rest)
    ensures Split(SpellLine(tokens) + SpellRest(rest)) == Verdict(tokens, rest)
  {
    hide Run, SpellLine, Words;
    ReadLine(START, tokens);
    assert [] + Words(tokens) == Words(tokens);
    RunConcat(START, SpellLine(tokens), SpellRest(rest));
    var read := Run(START, SpellLine(tokens));
    if rest == Nothing {
      RunEnd(read, []);
    } else {
      ReadRest(read, rest);
    }
  }

  // ----- every line is one of the grammar -----

  lemma SpellOneMore(tokens: seq<Token>, t: Token)
    ensures SpellLine(tokens + [t]) == SpellLine(tokens) + SpellToken(t)
  {
    SpellConcat(tokens, [t]);
    assert [t][1..] == [];
    assert SpellToken(t) + [] == SpellToken(t);
  }

  lemma {:induction false} PartsOneMore(parts: seq<Part>, p: Part)
    ensures SpellParts(parts + [p]) == SpellParts(parts) + SpellPart(p)
  {
    if parts == [] {
      assert [p][1..] == [] && parts + [p] == [p];
      assert SpellPart(p) + [] == [] + SpellPart(p);
    } else {
      assert (parts + [p])[1..] == parts[1..] + [p];
      PartsOneMore(parts[1..], p);
      Associate(SpellPart(parts[0]), SpellParts(parts[1..]), SpellPart(p));
    }
  }

  /** With one more character, a line that stops between tokens is still one of the grammar. */
  lemma Begun(tokens: seq<Token>, c: int) returns (tokens': seq<Token>, rest': Rest)
    requires LineOk(tokens)
    ensures LineOk(tokens') && RestOk(rest') && SpellLine(tokens') + SpellRest(rest') == SpellLine(tokens) + [c]
  {
    hide SpellLine, SpellParts;
    tokens', rest' := tokens, Nothing;
    NoParts();
    if c == BACKSLASH {
      rest' := Dangling;
    } else if c == QUOTE {
      rest' := OpenQuote([]);
    } else if c == DOUBLE_QUOTE {
      rest' := OpenDouble([]);
    } else {
      var t := if IsSpace(c) then Blank(c) else Bare(c);
      tokens' := tokens + [t];
      SpellOneMore(tokens, t);
    }
  }

  /** A token that the character ends. */
  lemma Ended(tokens: seq<Token>, t: Token, open: seq<int>, c: int)
    requires LineOk(tokens) && TokenOk(t) && SpellToken(t) == open + [c]
    ensures LineOk(tokens + [t]) && SpellLine(tokens + [t]) + SpellRest(Nothing) == SpellLine(tokens) + open + [c]
  {
    hide SpellLine, SpellToken;
    SpellOneMore(tokens, t);
    Associate(SpellLine(tokens), open, [c]);
    assert SpellLine(tokens + [t]) + [] == SpellLine(tokens + [t]);
  }

  /** And a line that stops in the middle of one. */
  lemma Extended(tokens: seq<Token>, rest: Rest, c: int) returns (tokens': seq<Token>, rest': Rest)
    requires LineOk(tokens) && RestOk(rest)
    ensures LineOk(tokens') && RestOk(rest')
    ensures SpellLine(tokens') + SpellRest(rest') == SpellLine(tokens) + SpellRest(rest) + [c]
  {
    hide SpellLine, SpellParts, LineOk;
    tokens', rest' := tokens, rest;
    var open := SpellRest(rest);
    match rest
    case Nothing =>
      tokens', rest' := Begun(tokens, c);
      assert SpellLine(tokens) + [] == SpellLine(tokens);
    case Dangling =>
      tokens', rest' := tokens + [Escaped(c)], Nothing;
      Ended(tokens, Escaped(c), open, c);
    case OpenQuote(text) =>
      if c == QUOTE {
        tokens', rest' := tokens + [Quoted(text)], Nothing;
        Ended(tokens, Quoted(text), open, c);
      } else {
        rest' := OpenQuote(text + [c]);
        Longer(tokens, open, SpellRest(rest'), c);
      }
    case OpenDouble(parts) =>
      if c == DOUBLE_QUOTE {
        tokens', rest' := tokens + [DoubleQuoted(parts)], Nothing;
        Ended(tokens, DoubleQuoted(parts), open, c);
      } else {
        rest' := if c == BACKSLASH then OpenDangling(parts) else OpenDouble(parts + [Itself(c)]);
        PartsOneMore(parts, Itself(c));
        Longer(tokens, open, SpellRest(rest'), c);
      }
    case OpenDangling(parts) =>
      var p := if c == DOUBLE_QUOTE || c == BACKSLASH then Guarded(c) else Kept(c);
      rest' := OpenDouble(parts + [p]);
      PartsOneMore(parts, p);
      Longer(tokens, open, SpellRest(rest'), c);
  }

  lemma Longer(tokens: seq<Token>, open: seq<int>, longer: seq<int>, c: int)
    requires longer == open + [c]
    ensures SpellLine(tokens) + longer == SpellLine(tokens) + open + [c]
  {
    hide SpellLine;
    Associate(SpellLine(tokens), open, [c]);
  }

  lemma NoParts()
    ensures SpellParts([]) == []
  {
  }

  lemma {:induction false} EveryLine(s: seq<int>) returns (tokens: seq<Token>, rest: Rest)
    ensures LineOk(tokens) && RestOk(rest) && s == SpellLine(tokens) + SpellRest(rest)
    decreases |s|
  {
    hide *;
    if s == [] {
      tokens, rest := [], Nothing;
      EmptyLine();
    } else {
      var before := s[..|s| - 1];
      tokens, rest := EveryLine(before);
      tokens, rest := Extended(tokens, rest, s[|s| - 1]);
      assert s == before + [s[|s| - 1]];
    }
  }

  lemma EmptyLine()
    ensures LineOk([]) && RestOk(Nothing) && SpellLine([]) + SpellRest(Nothing) == []
  {
  }

  /** Every line whatever is one of the grammar, and splits into its words or gives its error; the loops do just that. */
  lemma SplitExactly(s: seq<int>)
    ensures exists tokens, rest ::
              LineOk(tokens) && RestOk(rest) && s == SpellLine(tokens) + SpellRest(rest) && Split(s) == Verdict(tokens, rest)
  {
    var tokens, rest := EveryLine(s);
    SplitMeans(tokens, rest);
  }

  // ----- quoting -----

  /** The characters that a shell takes as they are. */
  predicate Safe(c: int) {
    || 'a' as int <= c <= 'z' as int || 'A' as int <= c <= 'Z' as int || '0' as int <= c <= '9' as int
    || c in {'_' as int, '@' as int, '%' as int, '+' as int, '=' as int, ':' as int, ',' as int, '.' as int, '/' as int, '-' as int}
  }

  lemma {:induction false} QuotesGrow(s: Word)
    ensures |EscapeQuotes(s)| >= |s|
  {
    if s != [] { QuotesGrow(s[1..]); }
  }

  /** A word is left as it is exactly when it has characters, and a shell takes all of them as they are. */
  lemma QuotedExactly(s: Word)
    ensures Quote(s) == s <==> s != [] && forall i :: 0 <= i < |s| ==> Safe(s[i])
  {
    QuotesGrow(s);
    assert forall i :: 0 <= i < |s| ==> (Safe(s[i]) <==> !Unsafe(s[i]));
  }
}
