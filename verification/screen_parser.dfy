/**
The byte-driven half of term/screen.go, on values: the escape-sequence parser, and Write, which decodes UTF-8 around it
and carries an unfinished character over to the next call.
*/
module ScreenParser {
  import opened Wrappers
  import opened Utf8
  import opened ScreenModel

  // ----- control sequences -----

  predicate IsMove(final: byte) {
    0x41 <= final <= 0x48 || final in {0x60, 0x64, 0x66}
  }

  /** The sums that CUD, CUF and CNL form stay within 64 bits. */
  predicate MoveFits(s: Screen, final: byte, n: nat) {
    && (final == 0x42 || final == 0x45 ==> s.curY + n <= MAX_INT)
    && (final == 0x43 ==> s.curX + n <= MAX_INT)
  }

  function TargetX(s: Screen, final: byte, n: nat, m: nat): (x: int)
    requires Inv(s) && IsMove(final) && n <= MAX_INT
    ensures OnScreen(s) ==> (0 <= x < s.cols <==> (final == 0x43 ==> s.curX + n <= MAX_INT))
    ensures final in {0x48, 0x66} ==> 0 <= x < s.cols
  {
    match final
    case 0x43 /* CUF */ => Min(s.cols - 1, Wrap64(s.curX + n))
    case 0x44 /* CUB */ => Max(0, Wrap64(s.curX - n))
    case 0x45 /* CNL */ => 0
    case 0x46 /* CPL */ => 0
    case 0x47 /* CHA */ => Clamp(n - 1, 0, s.cols - 1)
    case 0x60 /* HPA */ => Clamp(n - 1, 0, s.cols - 1)
    case 0x48 /* CUP */ => Clamp(m - 1, 0, s.cols - 1)
    case 0x66 /* HVP */ => Clamp(m - 1, 0, s.cols - 1)
    case _ => s.curX
  }

  function TargetY(s: Screen, final: byte, n: nat): (y: int)
    requires Inv(s) && IsMove(final) && n <= MAX_INT
    ensures OnScreen(s) ==> (0 <= y < s.rows <==> (final == 0x42 || final == 0x45 ==> s.curY + n <= MAX_INT))
    ensures final in {0x48, 0x66} ==> 0 <= y < s.rows
  {
    match final
    case 0x41 /* CUU */ => Max(if s.curY >= s.scrollTop then s.scrollTop else 0, Wrap64(s.curY - n))
    case 0x42 /* CUD */ => Min(if s.curY <= s.scrollBot then s.scrollBot else s.rows - 1, Wrap64(s.curY + n))
    case 0x45 /* CNL */ => Min(s.rows - 1, Wrap64(s.curY + n))
    case 0x46 /* CPL */ => Max(0, Wrap64(s.curY - n))
    case 0x64 /* VPA */ => Clamp(n - 1, 0, s.rows - 1)
    case 0x48 /* CUP */ => Clamp(n - 1, 0, s.rows - 1)
    case 0x66 /* HVP */ => Clamp(n - 1, 0, s.rows - 1)
    case _ => s.curY
  }

  /**
  Where a cursor motion goes. Three of them add before they take the minimum, so a parameter near 2^63 wraps to a
  negative position; from a cursor on the screen, the target is on it in every other case. From a cursor off the screen
  the others can wrap too, but an absolute position is always on the screen.
  */
  function Target(s: Screen, final: byte, n: nat, m: nat): (p: (int, int))
    requires Inv(s) && IsMove(final) && n <= MAX_INT
    ensures OnScreen(s) ==> (0 <= p.0 < s.cols && 0 <= p.1 < s.rows <==> MoveFits(s, final, n))
    ensures final in {0x48, 0x66} ==> 0 <= p.0 < s.cols && 0 <= p.1 < s.rows
  {
    (TargetX(s, final, n, m), TargetY(s, final, n))
  }

  /** All motions but CNL and CPL also cancel a wrap that is still to come. */
  function Move(s: Screen, final: byte, ps: seq<nat>): (r: Screen)
    requires Inv(s) && IsMove(final) && (forall i :: 0 <= i < |ps| ==> ps[i] <= MAX_INT)
    ensures KeptButCursor(s, r) && OnlyCursor(s, r)
    ensures OnScreen(s) ==> (OnScreen(r) <==> MoveFits(s, final, Arg(ps, 0, 1)))
    ensures final in {0x48, 0x66} ==> OnScreen(r)
  {
    var (x, y) := Target(s, final, Arg(ps, 0, 1), Arg(ps, 1, 1));
    CursorAt(s, x, y, s.wrapNext && final in {0x45, 0x46})
  }

  /** DECSTBM: a region of at least two rows, and the cursor to its top left. */
  function SetRegion(s: Screen, ps: seq<nat>): (r: Screen)
    requires Inv(s)
    ensures Kept(s, r)
  {
    var top := Clamp(Arg(ps, 0, 1) - 1, 0, s.rows - 1);
    var bot := Clamp(Arg(ps, 1, s.rows) - 1, 0, s.rows - 1);
    if top < bot then CursorAt(s.(scrollTop := top, scrollBot := bot), 0, top, s.wrapNext) else s
  }

  /** What a control sequence indexes by the cursor is there. */
  predicate EditReaches(s: Screen, final: byte, ps: seq<nat>) {
    match final
    case 0x4A => Arg(ps, 0, 0) in {0, 1} ==> EraseReaches(s, Arg(ps, 0, 0))
    case 0x4B => EraseReaches(s, Arg(ps, 0, 0))
    case 0x50 => SliceReaches(s)
    case 0x40 => SliceReaches(s)
    case 0x58 => EraseReaches(s, 0)
    case _ => true
  }

  predicate IsCellEdit(final: byte) {
    final in {0x40, 0x4A, 0x4B, 0x50, 0x58}
  }

  /** The control sequences that erase, insert and delete cells. */
  function EditCells(s: Screen, final: byte, ps: seq<nat>): (r: Screen)
    requires Inv(s) && EditReaches(s, final, ps) && IsCellEdit(final)
    ensures Kept(s, r) && OnlyGrid(s, r)
  {
    match final
    case 0x4A /* ED */ => EraseDisplay(s, Arg(ps, 0, 0))
    case 0x4B /* EL */ => EraseLine(s, Arg(ps, 0, 0))
    case 0x50 /* DCH */ => DeleteChars(s, Arg(ps, 0, 1))
    case 0x40 /* ICH */ => InsertChars(s, Arg(ps, 0, 1))
    case _ /* ECH */ => EraseChars(s, Arg(ps, 0, 1))
  }

  predicate IsLineEdit(final: byte) {
    final in {0x4C, 0x4D, 0x53, 0x54}
  }

  /** The control sequences that insert, delete and scroll lines. */
  function EditLines(s: Screen, final: byte, n: nat): (r: Screen)
    requires Inv(s) && IsLineEdit(final)
    ensures Kept(s, r) && OnlyLines(s, r)
    ensures final != 0x53 ==> r.scrollback == s.scrollback
  {
    match final
    case 0x4C /* IL */ => InsertLines(s, n)
    case 0x4D /* DL */ => DeleteLines(s, n)
    case 0x53 /* SU */ => ScrollUp(s, n)
    case _ /* SD */ => ScrollDown(s, n)
  }

  /** The control sequences that set the style, the region, or the cursor from where it was saved; others do nothing. */
  function EditState(s: Screen, final: byte, raw: seq<byte>): (r: Screen)
    requires Inv(s)
    ensures Kept(s, r) && r.altActive == s.altActive && r.scrollback == s.scrollback
  {
    match final
    case 0x6D /* SGR */ => Sgr(s, raw)
    case 0x72 /* DECSTBM */ => SetRegion(s, ParseParams(raw))
    case 0x73 => SaveCursor(s)
    case 0x75 => RestoreCursor(s)
    case _ => s
  }

  /** The control sequences that are not cursor motions. */
  function Edit(s: Screen, final: byte, raw: seq<byte>): (r: Screen)
    requires Inv(s) && EditReaches(s, final, ParseParams(raw))
    ensures Kept(s, r)
    ensures r.altActive == s.altActive
  {
    var ps := ParseParams(raw);
    if IsCellEdit(final) then EditCells(s, final, ps)
    else if IsLineEdit(final) then EditLines(s, final, Arg(ps, 0, 1))
    else EditState(s, final, raw)
  }

  function PrivateSequence(s: Screen, final: byte, ps: seq<nat>): (r: Screen)
    requires Inv(s)
    ensures Kept(s, r)
    ensures s.altActive ==> (r.altActive <==> !(final == 0x6C && SwitchesScreen(ps)))
  {
    if final == 0x68 then SetPrivateModes(s, ps, true)
    else if final == 0x6C then SetPrivateModes(s, ps, false)
    else s
  }

  function PlainSequence(s: Screen, final: byte, raw: seq<byte>): (r: Screen)
    requires Inv(s) && EditReaches(s, final, ParseParams(raw))
    ensures KeptButCursor(s, r) && r.altActive == s.altActive
    ensures OnScreen(s) ==> (OnScreen(r) <==> MoveFits(s, final, Arg(ParseParams(raw), 0, 1)))
  {
    if IsMove(final) then Move(s, final, ParseParams(raw)) else Edit(s, final, raw)
  }

  /** The final byte of a control sequence is that of no motion whose sum leaves 64 bits. */
  predicate FinalFits(s: Screen, final: byte) {
    Private(s.params) || MoveFits(s, final, Arg(ParseParams(Raw(s.params)), 0, 1))
  }

  /** It resets one of the three alternate-screen modes. */
  predicate ResetsAlt(s: Screen, final: byte) {
    Private(s.params) && final == 0x6C && SwitchesScreen(ParseParams(Raw(s.params)))
  }

  /** The final byte of a control sequence sets private modes, moves the cursor or edits. */
  function Dispatch(s: Screen, final: byte): (r: Screen)
    requires Inv(s) && (Private(s.params) || EditReaches(s, final, ParseParams(Raw(s.params))))
    ensures KeptButCursor(s, r)
    ensures OnScreen(s) ==> (OnScreen(r) <==> FinalFits(s, final))
    ensures s.altActive ==> (r.altActive <==> !ResetsAlt(s, final))
  {
    var raw := Raw(s.params);
    if Private(s.params) then PrivateSequence(s, final, ParseParams(raw)) else PlainSequence(s, final, raw)
  }

  /** And ends the sequence. */
  function ControlSequence(s: Screen, final: byte): (r: Screen)
    requires Inv(s) && s.pending == [] && (Private(s.params) || EditReaches(s, final, ParseParams(Raw(s.params))))
    ensures KeptButCursor(s, r) && r.state == Ground
    ensures OnScreen(s) ==> (OnScreen(r) <==> FinalFits(s, final))
    ensures s.altActive ==> (r.altActive <==> !ResetsAlt(s, final))
  {
    var r := Dispatch(s, final);
    ButCursorTrans(s, r, Parsing(r, Ground, [], []));
    Parsing(r, Ground, [], [])
  }

  /** The byte completes no cursor motion whose sum leaves 64 bits. */
  predicate Fits(s: Screen, b: byte) {
    s.state.Csi? && 0x40 <= b <= 0x7E ==> FinalFits(s, b)
  }

  // ----- one byte -----

  function EscapeCommand(s: Screen, b: byte): (r: Screen)
    requires Inv(s) && s.pending == []
    ensures Kept(s, r)
    ensures r.altActive == (s.altActive && b != 0x63)
  {
    if b == 0x37 /* 7 */ then SaveCursor(s)
    else if b == 0x38 /* 8 */ then RestoreCursor(s)
    else if b == 0x44 /* D */ then Index(s)
    else if b == 0x4D /* M */ then ReverseIndex(s)
    else if b == 0x45 /* E */ then
      var t := CursorAt(s, 0, s.curY, s.wrapNext);
      KeptTrans(s, t, Index(t));
      Index(t)
    else if b == 0x63 /* c */ then Reset(s)
    else s
  }

  /** The byte behind an ESC opens a sequence or a string, or is a command of its own. */
  function Escape(s: Screen, b: byte): (r: Screen)
    requires Inv(s) && s.pending == []
    ensures Kept(s, r)
    ensures r.altActive == (s.altActive && b != 0x63)
  {
    if b == 0x5B /* [ */ then Parsing(s, Csi, [], [])
    else if b == 0x5D /* ] */ then Parsing(s, Osc, [], s.inter)
    else if b in {0x50, 0x58, 0x5E, 0x5F} then Parsing(s, Str, [], s.inter)
    else if b in {0x28, 0x29, 0x2A, 0x2B} then Parsing(s, Charset, s.params, s.inter)
    else
      var t := Parsing(s, Ground, s.params, s.inter);
      KeptTrans(s, t, EscapeCommand(t, b));
      EscapeCommand(t, b)
  }

  function FinishString(s: Screen): (r: Screen)
    requires Inv(s) && s.pending == []
    ensures Kept(s, r) && r == s.(title := r.title, params := [], state := Ground)
  {
    var t := if s.state.Osc? then SetTitle(s, s.params) else s;
    KeptTrans(s, t, Parsing(t, Ground, [], t.inter));
    Parsing(t, Ground, [], t.inter)
  }

  function Restart(s: Screen): (r: Screen)
    requires Inv(s) && s.pending == []
    ensures Kept(s, r) && r == s.(state := Esc, params := [], inter := [])
  {
    Parsing(s, Esc, [], [])
  }

  function InGround(wide: nat -> nat, s: Screen, b: byte): (r: Screen)
    requires Inv(s) && s.pending == [] && (b >= 0x20 && b != 0x7F ==> PrintReaches(wide, s, b))
    ensures Kept(s, r) && r.altActive == s.altActive
  {
    if b == ESC then Restart(s)
    else if b < 0x20 || b == 0x7F then Control(s, b)
    else Print(wide, s, b)
  }

  predicate SequenceReaches(s: Screen, b: byte) {
    0x40 <= b <= 0x7E && !Private(s.params) ==> EditReaches(s, b, ParseParams(Raw(s.params)))
  }

  function InSequence(s: Screen, b: byte): (r: Screen)
    requires Inv(s) && s.pending == [] && s.state.Csi?
    requires SequenceReaches(s, b)
    ensures KeptButCursor(s, r)
    ensures OnScreen(s) ==> (OnScreen(r) <==> (0x40 <= b <= 0x7E ==> FinalFits(s, b)))
    ensures s.altActive ==> (r.altActive <==> !ResetsAlt(s, b))
  {
    if 0x30 <= b <= 0x3F then Parsing(s, Csi, s.params + [b], s.inter)
    else if 0x20 <= b <= 0x2F then Parsing(s, Csi, s.params, s.inter + [b])
    else if 0x40 <= b <= 0x7E then ControlSequence(s, b)
    else if b == ESC then Restart(s)
    else Control(s, b)
  }

  function InString(s: Screen, b: byte): (r: Screen)
    requires Inv(s) && s.pending == []
    ensures Kept(s, r) && r.altActive == s.altActive
  {
    if b == BEL then FinishString(s)
    else if b == ESC then
      var t := FinishString(s);
      KeptTrans(s, t, Parsing(t, Esc, t.params, t.inter));
      Parsing(t, Esc, t.params, t.inter)
    else if s.state.Osc? && |s.params| < MAX_OSC then Parsing(s, Osc, s.params + [b], s.inter)
    else s
  }

  /** What a byte makes the parser index by the cursor is there; in Go the byte panics otherwise. */
  predicate ByteReaches(wide: nat -> nat, s: Screen, b: byte) {
    match s.state
    case Ground => b >= 0x20 && b != 0x7F ==> PrintReaches(wide, s, b)
    case Csi => SequenceReaches(s, b)
    case _ => true
  }

  /** A byte in any other state than that of a control sequence. */
  function OutOfSequence(wide: nat -> nat, s: Screen, b: byte): (r: Screen)
    requires Inv(s) && s.pending == [] && ByteReaches(wide, s, b) && !s.state.Csi?
    ensures Kept(s, r) && r.altActive == (s.altActive && !(s.state.Esc? && b == 0x63))
  {
    match s.state
    case Ground => InGround(wide, s, b)
    case Esc => Escape(s, b)
    case Osc => InString(s, b)
    case Str => InString(s, b)
    case Charset => Parsing(s, Ground, s.params, s.inter)
  }

  /** One byte through the parser. The cursor leaves the screen exactly when a motion does not fit. */
  function Feed(wide: nat -> nat, s: Screen, b: byte): (r: Screen)
    requires Inv(s) && s.pending == [] && ByteReaches(wide, s, b)
    ensures KeptButCursor(s, r)
    ensures OnScreen(s) ==> (OnScreen(r) <==> Fits(s, b))
    ensures s.altActive ==> (r.altActive <==> !LeavesAlt(s, b))
  {
    if s.state.Csi? then InSequence(s, b) else OutOfSequence(wide, s, b)
  }

  /** The byte completes a full reset, or the reset of one of the three alternate-screen modes. */
  predicate LeavesAlt(s: Screen, b: byte) {
    || (s.state.Esc? && b == 0x63)
    || (s.state.Csi? && ResetsAlt(s, b))
  }

  // ----- Write -----

  /** A write that panics leaves nothing to go on with. */
  datatype Outcome = Alive(screen: Screen) | Panicked

  /** A character has begun and may still be completed. */
  predicate Incomplete(s: Screen, data: seq<byte>) {
    data != [] && s.state.Ground? && data[0] >= 0x80 && !FullRune(data)
  }

  /** How many bytes the next round of Write takes. */
  function Taken(s: Screen, data: seq<byte>): (n: nat)
    requires data != []
    ensures 1 <= n <= |data|
  {
    if s.state.Ground? && data[0] >= 0x80 then DecodeRune(data).1 else 1
  }

  /** What the next round of Write indexes by the cursor is there. */
  predicate Reaches(wide: nat -> nat, s: Screen, data: seq<byte>)
    requires data != []
    ensures Ready(s) ==> Reaches(wide, s, data)
  {
    if s.state.Ground? && data[0] >= 0x80 then PrintReaches(wide, s, DecodeRune(data).0) else ByteReaches(wide, s, data[0])
  }

  /** One round of Write: a decoded rune is printed, any other byte goes through the parser. */
  function Next(wide: nat -> nat, s: Screen, data: seq<byte>): (r: Screen)
    requires Inv(s) && s.pending == [] && data != [] && Reaches(wide, s, data)
    ensures KeptButCursor(s, r)
    ensures OnScreen(s) ==> (OnScreen(r) <==> Fits(s, data[0]))
    ensures s.altActive ==> (r.altActive <==> !LeavesAlt(s, data[0]))
  {
    if s.state.Ground? && data[0] >= 0x80 then Print(wide, s, DecodeRune(data).0) else Feed(wide, s, data[0])
  }

  /** The bytes of one Write, from the parser's current state on. */
  function Run(wide: nat -> nat, s: Screen, data: seq<byte>): (o: Outcome)
    requires Inv(s) && s.pending == []
    ensures o.Alive? ==> Lasting(s, o.screen)
    ensures Followed(wide, s, data) ==> o.Alive? && OnScreen(o.screen)
    ensures o.Alive? && s.altActive && Undisturbed(wide, s, data) ==> o.screen.altActive && SavedScreenKept(s, o.screen)
    decreases |data|
  {
    if data == [] then Alive(s)
    else if Incomplete(s, data) then Alive(s.(pending := data))
    else if !Reaches(wide, s, data) then Panicked
    else
      var t := Next(wide, s, data);
      var o := Run(wide, t, data[Taken(s, data)..]);
      if o.Alive? then LastingTrans(s, t, o.screen); o else o
  }

  /** The cursor is on the screen, and no motion in the output leaves 64 bits. */
  predicate Followed(wide: nat -> nat, s: Screen, data: seq<byte>)
    requires Inv(s) && s.pending == []
    decreases |data|, 0
  {
    && OnScreen(s)
    && (data == [] || Incomplete(s, data)
        || (Fits(s, data[0]) && Followed(wide, Next(wide, s, data), data[Taken(s, data)..])))
  }

  /** No byte of the output leaves the alternate screen. */
  predicate Undisturbed(wide: nat -> nat, s: Screen, data: seq<byte>)
    requires Inv(s) && s.pending == []
    decreases |data|
  {
    data == [] || Incomplete(s, data) || !Reaches(wide, s, data)
    || (!LeavesAlt(s, data[0]) && Undisturbed(wide, Next(wide, s, data), data[Taken(s, data)..]))
  }

  function Write(wide: nat -> nat, s: Screen, p: seq<byte>): (o: Outcome)
    requires Inv(s)
    ensures o.Alive? ==> Lasting(s, o.screen)
    ensures WriteFollowed(wide, s, p) ==> o.Alive? && OnScreen(o.screen)
    ensures o.Alive? && s.altActive && WriteUndisturbed(wide, s, p) ==> o.screen.altActive && SavedScreenKept(s, o.screen)
  {
    Run(wide, s.(pending := []), s.pending + p)
  }

  predicate WriteUndisturbed(wide: nat -> nat, s: Screen, p: seq<byte>)
    requires Inv(s)
  {
    Undisturbed(wide, s.(pending := []), s.pending + p)
  }

  predicate WriteFollowed(wide: nat -> nat, s: Screen, p: seq<byte>)
    requires Inv(s)
  {
    Followed(wide, s.(pending := []), s.pending + p)
  }

  /** More output, unless there was a panic. */
  function WriteOn(wide: nat -> nat, o: Outcome, p: seq<byte>): Outcome
    requires o.Alive? ==> Inv(o.screen)
  {
    match o
    case Alive(s) => Write(wide, s, p)
    case Panicked => Panicked
  }

  lemma HeldBack(s: Screen, data: seq<byte>)
    requires s.pending == []
    ensures s.(pending := data).(pending := []) == s
  {
  }

  /** Bytes that follow make no difference to a round that can be taken. */
  lemma RoundStable(wide: nat -> nat, s: Screen, p: seq<byte>, q: seq<byte>)
    requires p != [] && !Incomplete(s, p)
    ensures !Incomplete(s, p + q) && Taken(s, p + q) == Taken(s, p) && Reaches(wide, s, p + q) == Reaches(wide, s, p)
    ensures Inv(s) && s.pending == [] && Reaches(wide, s, p) ==> Next(wide, s, p + q) == Next(wide, s, p)
    ensures (p + q)[Taken(s, p)..] == p[Taken(s, p)..] + q
  {
    hide Inv, PrintReaches, ByteReaches, Print, Feed, Fits, LeavesAlt;
    assert (p + q)[0] == p[0];
    if s.state.Ground? && p[0] >= 0x80 {
      DecodeStable(p, q);
    }
  }

  lemma {:induction false} RunConcat(wide: nat -> nat, s: Screen, p: seq<byte>, q: seq<byte>)
    requires Inv(s) && s.pending == []
    ensures Run(wide, s, p + q) == WriteOn(wide, Run(wide, s, p), q)
    decreases |p|
  {
    hide Inv, Grows, SavedScreenKept, Next, Taken, Reaches, Followed, Undisturbed, Fits, LeavesAlt;
    if p == [] {
      assert p + q == q && s.pending + q == q;
    } else if Incomplete(s, p) {
      HeldBack(s, p);
    } else {
      RoundStable(wide, s, p, q);
      if Reaches(wide, s, p) {
        RunConcat(wide, Next(wide, s, p), p[Taken(s, p)..], q);
      }
    }
  }

  /**
  Where output is cut into writes makes no difference, not even inside a character or an escape sequence; that it panics is
  no exception.
  */
  lemma WriteConcat(wide: nat -> nat, s: Screen, p: seq<byte>, q: seq<byte>)
    requires Inv(s)
    ensures WriteOn(wide, Write(wide, s, p), q) == Write(wide, s, p + q)
  {
    var data := s.pending + p;
    assert data + q == s.pending + (p + q);
    RunConcat(wide, s.(pending := []), data, q);
  }

  function WriteAll(wide: nat -> nat, s: Screen, chunks: seq<seq<byte>>): (o: Outcome)
    requires Inv(s)
    decreases |chunks|
  {
    if chunks == [] then Alive(s)
    else match Write(wide, s, chunks[0])
      case Alive(t) => WriteAll(wide, t, chunks[1..])
      case Panicked => Panicked
  }

  function Concat(chunks: seq<seq<byte>>): seq<byte> {
    if chunks == [] then [] else chunks[0] + Concat(chunks[1..])
  }

  /** Any cutting of the same output into any number of writes reaches the same screen, or panics alike. */
  lemma {:induction false} WriteChunks(wide: nat -> nat, s: Screen, chunks: seq<seq<byte>>)
    requires Inv(s) && chunks != []
    ensures WriteAll(wide, s, chunks) == Write(wide, s, Concat(chunks))
    decreases |chunks|
  {
    hide Inv, Grows, Write, WriteFollowed, WriteUndisturbed;
    var o := Write(wide, s, chunks[0]);
    if |chunks| == 1 {
      assert Concat(chunks[1..]) == [] && Concat(chunks) == chunks[0];
      assert o.Alive? ==> WriteAll(wide, o.screen, chunks[1..]) == o;
    } else {
      WriteConcat(wide, s, chunks[0], Concat(chunks[1..]));
      if o.Alive? {
        WriteChunks(wide, o.screen, chunks[1..]);
      }
    }
  }
}
