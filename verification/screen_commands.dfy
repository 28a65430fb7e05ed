/**
What a terminal makes of everything else it is sent than motions and edits: controls and escapes, styles, the scrolling
region, the saved cursor, modes, titles and text; always from the bytes that are written to the screen that is left.
*/
module ScreenCommands {
  import opened Wrappers
  import opened Utf8
  import opened ScreenModel
  import opened ScreenParser
  import opened ScreenLaws
  import opened ScreenSequences

  // ----- controls -----

  predicate IsControl(b: byte) {
    (b < 0x20 && b != ESC) || b == 0x7F
  }

  /** A control acts at once, and in the middle of a control sequence too. */
  lemma ControlHeard(wide: nat -> nat, s: Screen, b: byte)
    requires Inv(s) && s.pending == [] && s.state in {Ground, Csi} && IsControl(b)
    ensures Write(wide, s, [b]) == Alive(Control(s, b))
  {
    hide Inv, Grows, SavedScreenKept, Control, Write, Fits, LeavesAlt, EditReaches, ParseParams;
    Unpended(wide, s, [b]);
    assert [b][1..] == [];
  }

  lemma ReturnGoesBack(wide: nat -> nat, s: Screen)
    requires Inv(s) && s.pending == [] && s.state in {Ground, Csi}
    ensures Write(wide, s, [0x0D]) == Alive(s.(curX := 0, wrapNext := false))
  {
    hide Inv, Grows, SavedScreenKept, Write;
    ControlHeard(wide, s, 0x0D);
  }

  /** A backspace only takes back a wrap that is to come, or else goes one column to the left. */
  lemma BackspaceGoesLeft(wide: nat -> nat, s: Screen)
    requires Ready(s) && s.pending == [] && s.state in {Ground, Csi}
    ensures Write(wide, s, [0x08]) == Alive(if s.wrapNext then s.(wrapNext := false) else s.(curX := Max(s.curX - 1, 0)))
  {
    hide Inv, Grows, SavedScreenKept, Write;
    ControlHeard(wide, s, 0x08);
  }

  /** A tab goes to the next column that is a multiple of 8, or to the last. */
  lemma TabGoesRight(wide: nat -> nat, s: Screen)
    requires Ready(s) && s.pending == [] && s.state in {Ground, Csi}
    ensures Write(wide, s, [0x09]) == Alive(s.(curX := Min(s.curX + 8 - s.curX % 8, s.cols - 1), wrapNext := false))
  {
    hide Inv, Grows, SavedScreenKept, Write;
    RowCount(s);
    ControlHeard(wide, s, 0x09);
    assert s.curX / 8 * 8 == s.curX - s.curX % 8;
  }

  lemma OtherControlsSilent(wide: nat -> nat, s: Screen, b: byte)
    requires Inv(s) && s.pending == [] && s.state in {Ground, Csi} && IsControl(b) && !(0x08 <= b <= 0x0D)
    ensures Write(wide, s, [b]) == Alive(s)
  {
    hide Inv, Grows, SavedScreenKept, Write;
    ControlHeard(wide, s, b);
  }

  // ----- line feeds -----

  /** The history once a line has left the top of the screen. */
  function Remembered(s: Screen, l: Line): Lines {
    if Remembers(s) then LastLines(s.scrollback + [l], s.maxScrollback) else s.scrollback
  }

  /**
  A line feed goes down one row. At the bottom of the region, the rows of the region go up instead; at the bottom of the
  screen, below the region, nothing moves.
  */
  predicate FedLine(s: Screen, x: int64, r: Screen)
    requires Inv(s) && OnScreen(s)
  {
    && r == s.(grid := r.grid, scrollback := r.scrollback, curX := x, curY := r.curY, wrapNext := false)
    && |r.grid| == s.rows
    && if s.curY != s.scrollBot then
         r.grid == s.grid && r.scrollback == s.scrollback && r.curY == Min(s.curY + 1, s.rows - 1)
       else
         && r.curY == s.curY && r.scrollback == Remembered(s, s.grid[s.scrollTop])
         && forall y :: 0 <= y < s.rows ==> r.grid[y] == MovedUp(s.grid, s.scrollTop, s.scrollBot, 1, y, Blanks(s.cols))
  }

  /** A reverse line feed goes up one row; at the top of the region, its rows go down instead. */
  predicate FedBack(s: Screen, r: Screen)
    requires Inv(s) && OnScreen(s)
  {
    && r == s.(grid := r.grid, curY := r.curY, wrapNext := false)
    && |r.grid| == s.rows
    && if s.curY != s.scrollTop then r.grid == s.grid && r.curY == Max(s.curY - 1, 0)
       else
         && r.curY == s.curY
         && forall y :: 0 <= y < s.rows ==> r.grid[y] == MovedDown(s.grid, s.scrollTop, s.scrollBot, 1, y, Blanks(s.cols))
  }

  lemma ScrolledOnce(s: Screen)
    requires Inv(s)
    ensures ScrollUp(s, 1) == ScrollUp1(s)
    ensures ScrollUp(s, 1).scrollback == Remembered(s, s.grid[s.scrollTop])
  {
    hide Grows, SavedScreenKept, Raise, StyledAll, StylesInverse, TitleOk;
    PushIsLast(s.scrollback, [s.grid[s.scrollTop]], s.maxScrollback);
  }

  lemma IndexFeeds(s: Screen, x: int64)
    requires Inv(s) && OnScreen(s)
    ensures var t := CursorAt(s, x, s.curY, s.wrapNext); FedLine(s, x, Index(t))
  {
    var t := CursorAt(s, x, s.curY, s.wrapNext);
    var u := CursorAt(t, x, RowBelow(t), false);
    RowCount(s);
    ScrolledOnce(u);
    ScrolledUp(u, u, 1);
    hide Inv, Grows, SavedScreenKept, ScrollUp, ScrollUp1, MovedUp;
  }

  lemma ReverseFeeds(s: Screen)
    requires Inv(s) && OnScreen(s)
    ensures FedBack(s, ReverseIndex(s))
  {
    var u := CursorAt(s, s.curX, RowAbove(s), false);
    RowCount(s);
    RowCount(ScrollDown(u, 1));
    hide Inv, Grows, SavedScreenKept, ScrollDown, MovedDown;
    if s.curY == s.scrollTop {
      forall y | 0 <= y < s.rows
        ensures ScrollDown(u, 1).grid[y] == MovedDown(s.grid, s.scrollTop, s.scrollBot, 1, y, Blanks(s.cols))
      {
        ScrollDownRows(u, 1, y);
      }
    }
  }

  /** LF, VT and FF. */
  lemma FeedFeeds(wide: nat -> nat, s: Screen, b: byte)
    requires Ready(s) && s.pending == [] && s.state in {Ground, Csi} && 0x0A <= b <= 0x0C
    ensures var o := Write(wide, s, [b]); o.Alive? && FedLine(s, s.curX, o.screen)
  {
    hide Inv, Grows, SavedScreenKept, Write, Index, FedLine;
    ControlHeard(wide, s, b);
    IndexFeeds(s, s.curX);
  }

  // ----- escapes -----

  /** The bytes that go on behind an ESC: sequences, strings and charsets. */
  predicate Opens(b: byte) {
    b in {0x5B, 0x5D, 0x50, 0x58, 0x5E, 0x5F, 0x28, 0x29, 0x2A, 0x2B}
  }

  /** The quiet screen, where an escape ends without a sequence: a string that was cut short leaves its intermediates. */
  function Hushed(s: Screen): (q: Screen)
    requires Inv(s) && s.pending == []
    ensures Inv(q) && q.pending == [] && q.state == Ground && q.params == []
    ensures q == Quiet(s).(inter := q.inter)
  {
    Parsing(CutShort(s), Ground, [], if s.state in {Ground, Csi} then [] else s.inter)
  }

  lemma EscapeHeard(wide: nat -> nat, s: Screen, b: byte)
    requires Listens(s) && b < 0x80 && !Opens(b)
    ensures Write(wide, s, [ESC, b]) == Alive(EscapeCommand(Hushed(s), b))
  {
    EscapeBegins(wide, s);
    hide Inv, Grows, SavedScreenKept, Write, Feed, Hushed, EscapeCommand;
    Unpended(wide, s, [ESC, b]);
    assert [ESC, b] == [ESC] + [b];
    assert [b] == [b] + [];
    RunByte(wide, s, ESC, [b]);
    EscapeEnds(wide, s, b);
    RunByte(wide, Feed(wide, s, ESC), b, []);
    RunEmpty(wide, EscapeCommand(Hushed(s), b));
  }

  lemma RunEmpty(wide: nat -> nat, s: Screen)
    requires Inv(s) && s.pending == []
    ensures Run(wide, s, []) == Alive(s)
  {
    hide Inv;
  }

  lemma EscapeBegins(wide: nat -> nat, s: Screen)
    requires Listens(s)
    ensures ESC < 0x80 && ByteReaches(wide, s, ESC) && Feed(wide, s, ESC) == Hushed(s).(state := Esc)
  {
    hide Inv, Grows, SavedScreenKept, SetTitle, Print, Control, ControlSequence, EditReaches, LeavesAlt, Fits;
  }

  lemma EscapeEnds(wide: nat -> nat, s: Screen, b: byte)
    requires Inv(s) && s.pending == [] && !Opens(b)
    requires Inv(Hushed(s).(state := Esc))
    ensures ByteReaches(wide, Hushed(s).(state := Esc), b)
    ensures Feed(wide, Hushed(s).(state := Esc), b) == EscapeCommand(Hushed(s), b)
  {
    hide Inv, Grows, SavedScreenKept, EscapeCommand;
    assert Parsing(Hushed(s).(state := Esc), Ground, [], Hushed(s).inter) == Hushed(s);
  }

  /** ESC 7 notes the cursor and the style, ESC 8 takes them up again, and CSI s and CSI u do the same. */
  function Noted(s: Screen): Screen {
    s.(savedX := s.curX, savedY := s.curY, savedStyle := s.style)
  }

  function Within(x: int64, side: int): (y: int64)
    requires 1 <= side <= MAX_SIDE
    ensures 0 <= y < side && (0 <= x < side ==> y == x)
  {
    Min(Max(x, 0), side - 1)
  }

  function TakenUp(s: Screen): Screen
    requires 1 <= s.cols <= MAX_SIDE && 1 <= s.rows <= MAX_SIDE
  {
    s.(curX := Within(s.savedX, s.cols), curY := Within(s.savedY, s.rows), style := s.savedStyle)
  }

  lemma CursorNoted(wide: nat -> nat, s: Screen)
    requires Listens(s)
    ensures Write(wide, s, [ESC, 0x37]) == Alive(Noted(Hushed(s))) && Write(wide, s, Spelled([], 0x73)) == Alive(Noted(Quiet(s)))
  {
    hide Inv, Grows, SavedScreenKept, Write;
    EscapeHeard(wide, s, 0x37);
    Heard(wide, s, [], 0x73);
  }

  lemma CursorTakenUp(wide: nat -> nat, s: Screen)
    requires Listens(s)
    ensures 1 <= s.cols <= MAX_SIDE && 1 <= s.rows <= MAX_SIDE
    ensures Write(wide, s, [ESC, 0x38]) == Alive(TakenUp(Hushed(s)))
    ensures Write(wide, s, Spelled([], 0x75)) == Alive(TakenUp(Quiet(s)))
  {
    hide Inv, Grows, SavedScreenKept, Write, WriteFollowed, WriteUndisturbed, Hushed, Quiet, TakenUp, RestoreCursor;
    RowCount(s);
    EscapeHeard(wide, s, 0x38);
    Restored(Hushed(s), Hushed(s));
    RestoreHeard(wide, s);
    Restored(Quiet(s), Before(s, []));
  }

  lemma RestoreHeard(wide: nat -> nat, s: Screen)
    requires Listens(s)
    ensures Write(wide, s, Spelled([], 0x75)) == Alive(Parsing(RestoreCursor(Before(s, [])), Ground, [], []))
  {
    hide Inv, Grows, SavedScreenKept, Write, WriteFollowed, WriteUndisturbed, Quiet, RestoreCursor;
    Heard(wide, s, [], 0x75);
  }

  lemma Restored(s: Screen, t: Screen)
    requires Inv(s) && Inv(t) && s.pending == [] && t == s.(state := t.state, params := t.params, inter := t.inter)
    ensures Parsing(RestoreCursor(t), s.state, s.params, s.inter) == TakenUp(s)
    ensures t == s ==> RestoreCursor(t) == TakenUp(s)
  {
    RowCount(s);
    hide Grows, SavedScreenKept, Rectangle, StyledAll, StylesInverse, TitleOk, CharPrefix;
  }

  lemma FeedsSaid(wide: nat -> nat, s: Screen)
    requires Listens(s) && OnScreen(s)
    ensures var o := Write(wide, s, [ESC, 0x44]); o.Alive? && FedLine(Hushed(s), s.curX, o.screen)
    ensures var o := Write(wide, s, [ESC, 0x45]); o.Alive? && FedLine(Hushed(s), 0, o.screen)
    ensures var o := Write(wide, s, [ESC, 0x4D]); o.Alive? && FedBack(Hushed(s), o.screen)
  {
    hide Inv, Grows, SavedScreenKept, Write, FedLine, FedBack, Index, ReverseIndex, Hushed;
    EscapeHeard(wide, s, 0x44);
    EscapeHeard(wide, s, 0x45);
    EscapeHeard(wide, s, 0x4D);
    IndexFeeds(Hushed(s), s.curX);
    IndexFeeds(Hushed(s), 0);
    ReverseFeeds(Hushed(s));
  }

  /** ESC c: blank, at the first cell, in the default style; the history, the styles and the saved cursor stay. */
  lemma ResetSaid(wide: nat -> nat, s: Screen)
    requires Listens(s)
    ensures Write(wide, s, [ESC, 0x63]) ==
            Alive(Hushed(s).(grid := NewGrid(s.cols, s.rows), curX := 0, curY := 0, style := 0, autoWrap := true,
                             cursorHidden := false, scrollTop := 0, scrollBot := s.rows - 1, altActive := false, alt := []))
  {
    hide Inv, Grows, SavedScreenKept, Write;
    EscapeHeard(wide, s, 0x63);
  }

  /** A new screen is as a reset leaves it, with the room for history that it is given: 0 is for the usual, less for none. */
  lemma NewIsReset(wide: nat -> nat, cols: int, rows: int, scrollback: int)
    requires cols <= MAX_SIDE && rows <= MAX_SIDE
    ensures var s := NewScreen(cols, rows, scrollback);
            && Write(wide, s, [ESC, 0x63]) == Alive(s)
            && s.maxScrollback == (if scrollback == 0 then 2000 else Max(scrollback, 0)) && s.title == [] && !s.wrapNext
            && s.styles == [[]] && TakenUp(s) == s
  {
    var s := NewScreen(cols, rows, scrollback);
    hide Inv, Grows, SavedScreenKept, Write;
    ResetSaid(wide, s);
  }

  /** Any other byte behind an ESC does nothing. */
  lemma OtherEscapesSilent(wide: nat -> nat, s: Screen, b: byte)
    requires Listens(s) && b < 0x80 && !Opens(b) && b !in {0x37, 0x38, 0x44, 0x45, 0x4D, 0x63}
    ensures Write(wide, s, [ESC, b]) == Alive(Hushed(s))
  {
    hide Inv, Grows, SavedScreenKept, Write, WriteFollowed, WriteUndisturbed, Hushed;
    EscapeHeard(wide, s, b);
  }

  /** A charset is designated by one more byte, and nothing changes. */
  lemma CharsetSilent(wide: nat -> nat, s: Screen, c: byte, b: byte)
    requires Listens(s) && c in {0x28, 0x29, 0x2A, 0x2B}
    ensures Write(wide, s, [ESC, c, b]) == Alive(Hushed(s))
  {
    EscapeBegins(wide, s);
    CharsetEnds(wide, Hushed(s), c, b);
    hide Inv, Grows, SavedScreenKept, Write, WriteFollowed, WriteUndisturbed, Feed, Hushed, Run;
    Unpended(wide, s, [ESC, c, b]);
    assert [ESC, c, b] == [ESC] + [c, b];
    RunByte(wide, s, ESC, [c, b]);
  }

  /** Outside text, bytes are taken one at a time, whatever they are. */
  lemma RunOutside(wide: nat -> nat, s: Screen, b: byte, rest: seq<byte>)
    requires Inv(s) && s.pending == [] && s.state != Ground && ByteReaches(wide, s, b)
    ensures Run(wide, s, [b] + rest) == Run(wide, Feed(wide, s, b), rest)
  {
    hide Inv, Grows, Lasting, Feed, Followed, Undisturbed, ByteReaches;
    assert ([b] + rest)[1..] == rest;
  }

  lemma CharsetEnds(wide: nat -> nat, s: Screen, c: byte, b: byte)
    requires Inv(s) && s.pending == [] && s.state == Ground && s.params == [] && c in {0x28, 0x29, 0x2A, 0x2B}
    ensures var t := s.(state := Esc); Inv(t) && Run(wide, t, [c, b]) == Alive(s)
  {
    CharsetSteps(wide, s, c, b);
    hide Inv, Grows, SavedScreenKept, Feed, Run;
    var t, u := s.(state := Esc), s.(state := Charset);
    assert [c, b] == [c] + [b] && [b] == [b] + [];
    RunOutside(wide, t, c, [b]);
    RunOutside(wide, u, b, []);
    RunEmpty(wide, s);
  }

  lemma CharsetSteps(wide: nat -> nat, s: Screen, c: byte, b: byte)
    requires Inv(s) && s.pending == [] && s.state == Ground && s.params == [] && c in {0x28, 0x29, 0x2A, 0x2B}
    ensures var t, u := s.(state := Esc), s.(state := Charset);
            && Inv(t) && Inv(u) && ByteReaches(wide, t, c) && ByteReaches(wide, u, b)
            && Feed(wide, t, c) == u && Feed(wide, u, b) == s
  {
    hide Grows, SavedScreenKept, EscapeCommand, Rectangle, StyledAll, StylesInverse, TitleOk, CharPrefix;
  }

  // ----- region, modes and styles -----

  /** The last row that DECSTBM is given, from 1: that of the screen where none is given. */
  function Bottom(s: Screen, ps: seq<Field>): nat
    requires s.rows >= 1
  {
    if |ps| > 1 && Reading(ps[1]) > 0 then Reading(ps[1]) else s.rows
  }

  /** DECSTBM sets a region of at least two rows and puts the cursor at its first cell; anything less it ignores. */
  lemma RegionSet(wide: nat -> nat, s: Screen, ps: seq<Field>)
    requires Listens(s)
    ensures s.rows >= 1
    ensures var top, bot := Min(Count(ps, 0), s.rows), Min(Bottom(s, ps), s.rows);
            Write(wide, s, Spelled(ps, 0x72)) ==
            Alive(if top < bot then Quiet(s).(scrollTop := top - 1, scrollBot := bot - 1, curX := 0, curY := top - 1)
                  else Quiet(s))
  {
    hide Inv, Grows, SavedScreenKept, Write, WriteFollowed, WriteUndisturbed, Spelled, ParseParams, Numbers, SetRegion, Readings;
    RowCount(s);
    Heard(wide, s, ps, 0x72);
    Bounded(Quiet(s), Before(s, Numbers(ps)), ps);
  }

  lemma Bounded(s: Screen, t: Screen, ps: seq<Field>)
    requires Inv(s) && Inv(t) && s.pending == [] && t == s.(state := t.state, params := t.params, inter := t.inter)
    ensures s.rows >= 1
    ensures var top, bot := Min(Count(ps, 0), s.rows), Min(Bottom(s, ps), s.rows);
            SetRegion(t, Readings(ps)) ==
            if top < bot then t.(scrollTop := top - 1, scrollBot := bot - 1, curX := 0, curY := top - 1) else t
  {
    hide Inv, Grows, SavedScreenKept, ParseParams, CursorAt;
    RowCount(s);
    var rs := Readings(ps);
    assert Arg(rs, 0, 1) == Count(ps, 0) && Arg(rs, 1, s.rows) == Bottom(s, ps);
    RegionAt(t, rs);
  }

  lemma RegionAt(t: Screen, rs: seq<nat>)
    requires Inv(t)
    ensures t.rows >= 1
    ensures var top, bot := Min(Max(Arg(rs, 0, 1), 1), t.rows), Min(Max(Arg(rs, 1, t.rows), 1), t.rows);
            SetRegion(t, rs) == if top < bot then t.(scrollTop := top - 1, scrollBot := bot - 1, curX := 0, curY := top - 1) else t
  {
    hide Inv, Grows, SavedScreenKept, Arg;
    RowCount(t);
  }

  function PrivateCsi(prefix: byte, ps: seq<Field>, final: byte): seq<byte> {
    [ESC, 0x5B] + ([prefix] + Numbers(ps)) + [final]
  }

  /** Setting (h) and resetting (l) a private mode: autowrap, the cursor's being shown, the alternate screen. */
  function ModeSet(s: Screen, p: nat, on: bool): (r: Screen)
    requires 1 <= s.cols <= MAX_SIDE && 1 <= s.rows <= MAX_SIDE
    ensures r.cols == s.cols && r.rows == s.rows && r.state == s.state && r.params == s.params && r.inter == s.inter
  {
    if p == 7 then s.(autoWrap := on)
    else if p == 25 then s.(cursorHidden := !on)
    else if p in {47, 1047, 1049} && on && !s.altActive then
      s.(altActive := true, alt := s.grid, altCurX := s.curX, altCurY := s.curY, grid := NewGrid(s.cols, s.rows),
         curX := 0, curY := 0)
    else if p in {47, 1047, 1049} && !on && s.altActive then
      s.(altActive := false, grid := s.alt, alt := [], curX := Within(s.altCurX, s.cols), curY := Within(s.altCurY, s.rows))
    else s
  }

  /** Several modes, one after another. */
  function ModesSet(s: Screen, ps: seq<nat>, on: bool): (r: Screen)
    requires 1 <= s.cols <= MAX_SIDE && 1 <= s.rows <= MAX_SIDE
    ensures r.state == s.state && r.params == s.params && r.inter == s.inter
    decreases |ps|
  {
    if ps == [] then s else ModesSet(ModeSet(s, ps[0], on), ps[1..], on)
  }

  /** What a sequence with a private prefix does: h and l set and reset modes, and no other final byte does anything. */
  lemma ModesSaid(wide: nat -> nat, s: Screen, prefix: byte, ps: seq<Field>, final: byte)
    requires Listens(s) && 0x3C <= prefix <= 0x3F && 0x40 <= final <= 0x7E
    ensures 1 <= s.cols <= MAX_SIDE && 1 <= s.rows <= MAX_SIDE
    ensures Write(wide, s, PrivateCsi(prefix, ps, final)) ==
            Alive(if final in {0x68, 0x6C} then ModesSet(Quiet(s), Readings(ps), final == 0x68) else Quiet(s))
  {
    hide Inv, Grows, SavedScreenKept, Write, WriteFollowed, WriteUndisturbed, Numbers, PrivateCsi, SetPrivateModes, ModesSet, Quiet,
      Readings;
    RowCount(s);
    PrivateHeard(wide, s, prefix, ps, final);
    Switches(Quiet(s), Before(s, [prefix] + Numbers(ps)), Readings(ps), final == 0x68);
  }

  lemma PrivateHeard(wide: nat -> nat, s: Screen, prefix: byte, ps: seq<Field>, final: byte)
    requires Listens(s) && 0x3C <= prefix <= 0x3F && 0x40 <= final <= 0x7E
    ensures var t := Before(s, [prefix] + Numbers(ps));
            Write(wide, s, PrivateCsi(prefix, ps, final)) ==
            Alive(Parsing(if final in {0x68, 0x6C} then SetPrivateModes(t, Readings(ps), final == 0x68) else t, Ground, [], []))
  {
    hide Inv, Grows, SavedScreenKept, Write, WriteFollowed, WriteUndisturbed, Numbers, ParseParams, SetPrivateModes, Quiet, Readings;
    var params := [prefix] + Numbers(ps);
    NumbersRead(ps);
    assert params[1..] == Numbers(ps);
    Unpended(wide, s, PrivateCsi(prefix, ps, final));
    RunSequence(wide, s, params, final);
  }

  lemma {:induction false} Switches(s: Screen, t: Screen, ps: seq<nat>, on: bool)
    requires Inv(s) && Inv(t) && s.pending == [] && t == s.(state := t.state, params := t.params, inter := t.inter)
    ensures 1 <= s.cols <= MAX_SIDE && 1 <= s.rows <= MAX_SIDE
    ensures SetPrivateModes(t, ps, on) == ModesSet(s, ps, on).(state := t.state, params := t.params, inter := t.inter)
    decreases |ps|
  {
    hide Inv, Grows, SavedScreenKept, SetPrivateMode, ModeSet, SwitchesScreen;
    RowCount(s);
    if ps != [] {
      Switched(s, t, ps[0], on);
      var t1, s1 := SetPrivateMode(t, ps[0], on), ModeSet(s, ps[0], on);
      assert s1 == Parsing(t1, s.state, s.params, s.inter);
      Switches(s1, t1, ps[1..], on);
    }
  }

  lemma Switched(s: Screen, t: Screen, p: nat, on: bool)
    requires Inv(s) && Inv(t) && s.pending == [] && t == s.(state := t.state, params := t.params, inter := t.inter)
    ensures 1 <= s.cols <= MAX_SIDE && 1 <= s.rows <= MAX_SIDE
    ensures SetPrivateMode(t, p, on) == ModeSet(s, p, on).(state := t.state, params := t.params, inter := t.inter)
  {
    hide Inv, Grows, SavedScreenKept, SetAltScreen;
    RowCount(s);
    if p in {47, 1047, 1049} { SwitchedAlt(s, t, p, on); }
  }

  lemma SwitchedAlt(s: Screen, t: Screen, p: nat, on: bool)
    requires Inv(s) && Inv(t) && s.pending == [] && t == s.(state := t.state, params := t.params, inter := t.inter)
    requires p in {47, 1047, 1049}
    ensures 1 <= s.cols <= MAX_SIDE && 1 <= s.rows <= MAX_SIDE
    ensures SetAltScreen(t, on) == ModeSet(s, p, on).(state := t.state, params := t.params, inter := t.inter)
  {
    hide Inv, Grows, SavedScreenKept, SetAltScreen, ModeSet;
    RowCount(s);
    SwitchIgnoresParser(s, t.state, t.params, t.inter, on);
    AltSet(s, p, on);
  }

  lemma AltSet(s: Screen, p: nat, on: bool)
    requires Inv(s) && p in {47, 1047, 1049}
    ensures 1 <= s.cols <= MAX_SIDE && 1 <= s.rows <= MAX_SIDE
    ensures SetAltScreen(s, on) == ModeSet(s, p, on)
  {
    RowCount(s);
    hide Inv, Grows, SavedScreenKept;
  }

  /** The style is the one spelled so: that of the table, or a new one behind it, or the default where the table is full. */
  predicate TakesStyle(s: Screen, r: Screen, spelled: seq<byte>) {
    && r == s.(style := r.style, styles := r.styles, styleIndex := r.styleIndex)
    && if spelled in s.styles then r.styles == s.styles && r.style < |s.styles| && s.styles[r.style] == spelled
       else if |s.styles| < MAX_STYLES then r.styles == s.styles + [spelled] && r.style == |s.styles|
       else r.styles == s.styles && r.style == 0
  }

  /** How a style is spelled once SGR has these parameters, the last of those that reset being at cut. */
  function Respelled(s: Screen, raw: seq<byte>, cut: int): seq<byte>
    requires Inv(s) && cut <= |raw|
  {
    if cut >= 0 then [ESC, 0x5B] + raw[cut..] + [0x6D] else s.styles[s.style] + [ESC, 0x5B] + raw + [0x6D]
  }

  /** SGR adds its parameters to the current style, or goes on from the last that resets; a lone reset is the default style. */
  lemma StyleSet(wide: nat -> nat, s: Screen, raw: seq<byte>, cut: int)
    requires Listens(s) && IsLastReset(raw, cut) && forall i :: 0 <= i < |raw| ==> 0x30 <= raw[i] <= 0x3B
    ensures var o := Write(wide, s, [ESC, 0x5B] + raw + [0x6D]);
            && o.Alive?
            && if IsReset(raw) then o.screen == Quiet(s).(style := 0)
               else TakesStyle(Quiet(s), o.screen, Respelled(s, raw, cut))
  {
    hide Inv, Grows, SavedScreenKept, Write, WriteFollowed, WriteUndisturbed, Sgr, IsLastReset, IsReset, ParseParams;
    StyleHeard(wide, s, raw);
    Interned(Quiet(s), Before(s, raw), raw, cut);
  }

  lemma StyleHeard(wide: nat -> nat, s: Screen, raw: seq<byte>)
    requires Listens(s) && forall i :: 0 <= i < |raw| ==> 0x30 <= raw[i] <= 0x3B
    ensures Write(wide, s, [ESC, 0x5B] + raw + [0x6D]) == Alive(Parsing(Sgr(Before(s, raw), raw), Ground, [], []))
  {
    hide Inv, Grows, SavedScreenKept, Write, WriteFollowed, WriteUndisturbed, Sgr, ParseParams;
    Unpended(wide, s, [ESC, 0x5B] + raw + [0x6D]);
    RunSequence(wide, s, raw, 0x6D);
    assert !Private(raw) && Raw(raw) == raw;
    assert FinalReaches(Before(s, raw), 0x6D);
    assert Dispatch(Before(s, raw), 0x6D) == Sgr(Before(s, raw), raw);
  }

  lemma Interned(s: Screen, t: Screen, raw: seq<byte>, cut: int)
    requires Inv(s) && Inv(t) && s.pending == [] && t == s.(state := t.state, params := t.params, inter := t.inter)
    requires IsLastReset(raw, cut)
    ensures var r := Parsing(Sgr(t, raw), s.state, s.params, s.inter);
            if IsReset(raw) then r == s.(style := 0) else TakesStyle(s, r, Respelled(s, raw, cut))
  {
    hide Inv, Grows, SavedScreenKept, LastReset, IsReset, InternStyle;
    LastResetExactly(raw);
    assert LastReset(raw) == cut;
    StyleBound(s);
    assert (s.styles[s.style] + [ESC, 0x5B]) + raw + [0x6D] == s.styles[s.style] + ([ESC, 0x5B] + raw + [0x6D]);
    if !IsReset(raw) {
      assert NextStyle(t, raw) == Respelled(s, raw, cut);
      LookedUp(t, NextStyle(t, raw));
    }
  }

  lemma StyleBound(s: Screen)
    requires Inv(s)
    ensures s.style < |s.styles| && s.savedStyle < |s.styles|
  {
  }

  lemma LookedUp(s: Screen, spelled: seq<byte>)
    requires Inv(s)
    ensures var t := InternStyle(s, spelled).0.(style := InternStyle(s, spelled).1); TakesStyle(s, t, spelled)
  {
    assert spelled in s.styles <==> spelled in s.styleIndex;
    hide Grows, SavedScreenKept, Rectangle, StyledAll, TitleOk, CharPrefix;
  }

  /** A final byte that nothing is said of does nothing, whatever parameters and intermediate bytes stand in front of it. */
  lemma OtherFinalsSilent(wide: nat -> nat, s: Screen, params: seq<byte>, inters: seq<byte>, final: byte)
    requires Listens(s) && 0x40 <= final <= 0x7E && final !in {0x6D, 0x72, 0x73, 0x75, 0x68, 0x6C}
    requires !IsMove(final) && !IsCellEdit(final) && !IsLineEdit(final)
    requires forall i :: 0 <= i < |params| ==> 0x30 <= params[i] <= 0x3F
    requires forall i :: 0 <= i < |inters| ==> 0x20 <= inters[i] <= 0x2F
    ensures Write(wide, s, [ESC, 0x5B] + params + inters + [final]) == Alive(Quiet(s))
  {
    assert [ESC, 0x5B] + params + inters + [final] == [ESC, 0x5B] + (params + (inters + [final]));
    FinalSilent(wide, s, params, inters, final);
    hide *;
    ListensWell(s);
    Unpended(wide, s, [ESC, 0x5B] + params + inters + [final]);
    OpenSequence(wide, s, params + (inters + [final]));
    RunParams(wide, CutShort(s), [], params, inters + [final]);
    assert [] + params == params;
    RunInters(wide, InCsi(CutShort(s), params), inters, [final]);
    CloseSequence(wide, WithInter(InCsi(CutShort(s), params), inters), final);
  }

  lemma ListensWell(s: Screen)
    requires Listens(s)
    ensures Inv(s) && s.pending == [] && HearsEscape(s.state)
  {
  }

  function WithInter(s: Screen, inters: seq<byte>): (r: Screen)
    requires Inv(s) && s.pending == []
    ensures Inv(r) && r == s.(inter := s.inter + inters)
  {
    Parsing(s, s.state, s.params, s.inter + inters)
  }

  lemma FinalSilent(wide: nat -> nat, s: Screen, params: seq<byte>, inters: seq<byte>, final: byte)
    requires Listens(s) && 0x40 <= final <= 0x7E && final !in {0x6D, 0x72, 0x73, 0x75, 0x68, 0x6C}
    requires !IsMove(final) && !IsCellEdit(final) && !IsLineEdit(final)
    ensures var t := WithInter(InCsi(CutShort(s), params), inters);
            && t.state == ParseState.Csi && t.pending == [] && FinalReaches(t, final) && ControlSequence(t, final) == Quiet(s)
  {
    hide Inv, Grows, SavedScreenKept, ParseParams, CutShort;
  }

  lemma {:induction false} RunInters(wide: nat -> nat, s: Screen, inters: seq<byte>, rest: seq<byte>)
    requires Inv(s) && s.state == ParseState.Csi && s.pending == []
    requires forall i :: 0 <= i < |inters| ==> 0x20 <= inters[i] <= 0x2F
    ensures Run(wide, s, inters + rest) == Run(wide, WithInter(s, inters), rest)
    decreases |inters|
  {
    hide Inv, Grows, SavedScreenKept, Run, Feed;
    if inters == [] {
      assert inters + rest == rest && s.inter + [] == s.inter;
    } else {
      var b := inters[0];
      assert inters + rest == [b] + (inters[1..] + rest);
      FeedInter(wide, s, b);
      RunByte(wide, s, b, inters[1..] + rest);
      RunInters(wide, Feed(wide, s, b), inters[1..], rest);
      assert s.inter + [b] + inters[1..] == s.inter + inters;
    }
  }

  lemma FeedInter(wide: nat -> nat, s: Screen, b: byte)
    requires Inv(s) && s.state == ParseState.Csi && s.pending == [] && 0x20 <= b <= 0x2F
    ensures ByteReaches(wide, s, b) && Feed(wide, s, b) == s.(inter := s.inter + [b]) && Inv(Feed(wide, s, b))
  {
    hide Inv, Grows, SavedScreenKept;
  }

  // ----- titles -----

  predicate Plain(body: seq<byte>) {
    forall i :: 0 <= i < |body| ==> body[i] != BEL && body[i] != ESC
  }

  function InOsc(s: Screen, read: seq<byte>): (r: Screen)
    requires Inv(s) && s.pending == []
    ensures Inv(r) && r.pending == [] && r == s.(state := Osc, params := read)
  {
    Parsing(s, Osc, read, s.inter)
  }

  lemma FeedBody(wide: nat -> nat, s: Screen, read: seq<byte>, b: byte, rest: seq<byte>)
    requires Inv(s) && s.pending == [] && b != BEL && b != ESC
    ensures Run(wide, InOsc(s, read), [b] + rest) ==
            Run(wide, InOsc(s, if |read| < MAX_OSC then read + [b] else read), rest)
  {
    hide Inv, Grows, SavedScreenKept;
    assert ([b] + rest)[1..] == rest;
  }

  /** The bytes of a string are collected, as far as there is room for them. */
  lemma {:induction false} RunBody(wide: nat -> nat, s: Screen, read: seq<byte>, body: seq<byte>, rest: seq<byte>)
    requires Inv(s) && s.pending == [] && Plain(body) && |read| <= MAX_OSC
    ensures Run(wide, InOsc(s, read), body + rest) ==
            Run(wide, InOsc(s, read + body[..Min(MAX_OSC - |read|, |body|)]), rest)
    decreases |body|
  {
    hide Inv, Grows, SavedScreenKept, Run, InOsc;
    if body == [] {
      assert body + rest == rest && read + body[..0] == read;
    } else {
      assert body + rest == [body[0]] + (body[1..] + rest);
      FeedBody(wide, s, read, body[0], body[1..] + rest);
      var read' := if |read| < MAX_OSC then read + [body[0]] else read;
      RunBody(wide, s, read', body[1..], rest);
      assert read' + body[1..][..Min(MAX_OSC - |read'|, |body| - 1)] == read + body[..Min(MAX_OSC - |read|, |body|)];
    }
  }

  lemma OpenString(wide: nat -> nat, s: Screen, rest: seq<byte>)
    requires Listens(s)
    ensures Run(wide, s, [ESC, 0x5D] + rest) == Run(wide, InOsc(Hushed(s), []), rest)
  {
    EscapeBegins(wide, s);
    StringBegins(wide, Hushed(s));
    hide Inv, Grows, SavedScreenKept, Feed, Hushed, InOsc;
    assert [ESC, 0x5D] + rest == [ESC] + ([0x5D] + rest);
    RunByte(wide, s, ESC, [0x5D] + rest);
    RunByte(wide, Feed(wide, s, ESC), 0x5D, rest);
  }

  lemma StringBegins(wide: nat -> nat, s: Screen)
    requires Inv(s) && s.pending == [] && s.state == Ground
    ensures var t := s.(state := Esc); Inv(t) && ByteReaches(wide, t, 0x5D) && Feed(wide, t, 0x5D) == InOsc(s, [])
  {
    hide Grows, SavedScreenKept, EscapeCommand, Rectangle, StyledAll, StylesInverse, TitleOk;
  }

  /** The string ends with a BEL, or with ESC and a backslash. */
  lemma CloseString(wide: nat -> nat, s: Screen, read: seq<byte>, end: seq<byte>)
    requires Inv(s) && s.pending == [] && s.state == Ground && s.params == [] && end in {[BEL], [ESC, 0x5C]}
    ensures Run(wide, InOsc(s, read), end) == Alive(SetTitle(s, read))
  {
    StringCloses(wide, s, read);
    hide Inv, Grows, SavedScreenKept, SetTitle, Feed, Run, InOsc;
    var t := SetTitle(s, read);
    RunEmpty(wide, t);
    if end == [BEL] {
      assert [BEL] == [BEL] + [];
      RunOutside(wide, InOsc(s, read), BEL, []);
    } else {
      assert [ESC, 0x5C] == [ESC] + [0x5C] && [0x5C] == [0x5C] + [];
      RunOutside(wide, InOsc(s, read), ESC, [0x5C]);
      RunOutside(wide, t.(state := Esc), 0x5C, []);
    }
  }

  lemma StringCloses(wide: nat -> nat, s: Screen, read: seq<byte>)
    requires Inv(s) && s.pending == [] && s.state == Ground && s.params == []
    ensures var t := SetTitle(s, read);
            && Inv(t) && t.pending == [] && Parsing(t, Ground, [], s.inter) == t && Inv(t.(state := Esc))
            && ByteReaches(wide, InOsc(s, read), BEL) && Feed(wide, InOsc(s, read), BEL) == t
            && ByteReaches(wide, InOsc(s, read), ESC) && Feed(wide, InOsc(s, read), ESC) == t.(state := Esc)
            && ByteReaches(wide, t.(state := Esc), 0x5C) && Feed(wide, t.(state := Esc), 0x5C) == t
  {
    TitleAlone(s, read);
    hide Inv, Grows, SavedScreenKept, SetTitle, OutOfSequence;
    var t := SetTitle(s, read);
    EscapeStep(wide, t, 0x5C);
    StringFinishes(wide, InOsc(s, read));
    assert FinishString(InOsc(s, read)) == t;
  }

  lemma StringFinishes(wide: nat -> nat, s: Screen)
    requires Inv(s) && s.pending == [] && (s.state.Osc? || s.state.Str?)
    ensures ByteReaches(wide, s, BEL) && Feed(wide, s, BEL) == FinishString(s)
    ensures ByteReaches(wide, s, ESC) && Feed(wide, s, ESC) == FinishString(s).(state := Esc)
  {
    hide Inv, Grows, SavedScreenKept, FinishString;
  }

  lemma EscapeStep(wide: nat -> nat, s: Screen, b: byte)
    requires Inv(s) && s.pending == [] && s.state == Ground && !Opens(b)
    ensures var t := s.(state := Esc); Inv(t) && ByteReaches(wide, t, b) && Feed(wide, t, b) == EscapeCommand(s, b)
  {
    var t := Parsing(s, Esc, s.params, s.inter);
    hide Inv, Grows, SavedScreenKept, EscapeCommand;
    assert Parsing(t, Ground, t.params, t.inter) == s;
  }

  lemma TitleAlone(s: Screen, read: seq<byte>)
    requires Inv(s) && s.pending == []
    ensures SetTitle(InOsc(s, read), read) == InOsc(SetTitle(s, read), read)
  {
    hide Inv, Grows, SavedScreenKept;
  }

  /**
  OSC 0 and OSC 2 set the title to the text behind the semicolon, without its control characters and as far as the limit;
  any other string changes nothing. Of a longer body, the first 1024 bytes count.
  */
  lemma TitleSaid(wide: nat -> nat, s: Screen, body: seq<byte>, end: seq<byte>)
    requires Listens(s) && Plain(body) && end in {[BEL], [ESC, 0x5C]}
    ensures var o, kept := Write(wide, s, [ESC, 0x5D] + body + end), body[..Min(MAX_OSC, |body|)];
            && o.Alive? && o.screen == Hushed(s).(title := o.screen.title)
            && if TakesTitle(kept) then IsTitle(Visible(kept[2..]), o.screen.title, 0) else o.screen.title == Hushed(s).title
  {
    hide Inv, Grows, SavedScreenKept, Write, WriteFollowed, WriteUndisturbed, Run, Followed, Undisturbed, Hushed, SetTitle, InOsc, IsTitle;
    assert [ESC, 0x5D] + body + end == [ESC, 0x5D] + (body + end);
    Unpended(wide, s, [ESC, 0x5D] + body + end);
    OpenString(wide, s, body + end);
    RunBody(wide, Hushed(s), [], body, end);
    assert [] + body[..Min(MAX_OSC, |body|)] == body[..Min(MAX_OSC, |body|)];
    CloseString(wide, Hushed(s), body[..Min(MAX_OSC, |body|)], end);
  }

  /** Other strings (DCS, SOS, PM, APC) are passed over to their end. */
  lemma StringSilent(wide: nat -> nat, s: Screen, opener: byte, body: seq<byte>, end: seq<byte>)
    requires Listens(s) && opener in {0x50, 0x58, 0x5E, 0x5F} && Plain(body) && end in {[BEL], [ESC, 0x5C]}
    ensures Write(wide, s, [ESC, opener] + body + end) == Alive(Hushed(s))
  {
    hide *;
    ListensWell(s);
    EscapeBegins(wide, s);
    PassesOver(wide, Hushed(s), opener, body, end);
    Behind(ESC, opener, body, end);
    Unpended(wide, s, [ESC, opener] + body + end);
    RunByte(wide, s, ESC, [opener] + (body + end));
  }

  lemma Behind<T>(a: T, b: T, c: seq<T>, d: seq<T>)
    ensures [a, b] + c + d == [a] + ([b] + (c + d))
  {
  }

  function InStr(s: Screen): (r: Screen)
    requires Inv(s) && s.pending == []
    ensures Inv(r) && r.pending == [] && r == s.(state := Str)
  {
    Parsing(s, Str, s.params, s.inter)
  }

  lemma PassesOver(wide: nat -> nat, s: Screen, opener: byte, body: seq<byte>, end: seq<byte>)
    requires Inv(s) && s.pending == [] && s.state == Ground && s.params == []
    requires opener in {0x50, 0x58, 0x5E, 0x5F} && Plain(body) && end in {[BEL], [ESC, 0x5C]}
    ensures var t := s.(state := Esc); Inv(t) && Run(wide, t, [opener] + (body + end)) == Alive(s)
  {
    StringSteps(wide, s, opener);
    hide Inv, Grows, SavedScreenKept, Feed, Run, InStr;
    RunOutside(wide, s.(state := Esc), opener, body + end);
    RunOver(wide, s, body, end);
    RunEmpty(wide, s);
    if end == [BEL] {
      assert [BEL] == [BEL] + [];
      RunOutside(wide, InStr(s), BEL, []);
    } else {
      assert [ESC, 0x5C] == [ESC] + [0x5C] && [0x5C] == [0x5C] + [];
      RunOutside(wide, InStr(s), ESC, [0x5C]);
      RunOutside(wide, s.(state := Esc), 0x5C, []);
    }
  }

  lemma StringSteps(wide: nat -> nat, s: Screen, opener: byte)
    requires Inv(s) && s.pending == [] && s.state == Ground && s.params == [] && opener in {0x50, 0x58, 0x5E, 0x5F}
    ensures var t := s.(state := Esc);
            && Inv(t) && ByteReaches(wide, t, opener) && Feed(wide, t, opener) == InStr(s)
            && ByteReaches(wide, InStr(s), BEL) && Feed(wide, InStr(s), BEL) == s
            && ByteReaches(wide, InStr(s), ESC) && Feed(wide, InStr(s), ESC) == t
            && ByteReaches(wide, t, 0x5C) && Feed(wide, t, 0x5C) == s
  {
    hide Inv, Grows, SavedScreenKept, OutOfSequence;
    EscapeStep(wide, s, 0x5C);
    StringFinishes(wide, InStr(s));
    StringOpens(wide, s, opener);
  }

  lemma StringOpens(wide: nat -> nat, s: Screen, opener: byte)
    requires Inv(s) && s.pending == [] && s.state == Ground && s.params == [] && opener in {0x50, 0x58, 0x5E, 0x5F}
    requires Inv(s.(state := Esc))
    ensures var t := s.(state := Esc); ByteReaches(wide, t, opener) && Feed(wide, t, opener) == InStr(s)
  {
    hide Inv, Grows, SavedScreenKept, EscapeCommand;
  }

  lemma {:induction false} RunOver(wide: nat -> nat, s: Screen, body: seq<byte>, rest: seq<byte>)
    requires Inv(s) && s.pending == [] && Plain(body)
    ensures Run(wide, InStr(s), body + rest) == Run(wide, InStr(s), rest)
    decreases |body|
  {
    hide Inv, Grows, SavedScreenKept, Run, InStr, Feed;
    if body == [] {
      assert body + rest == rest;
    } else {
      assert body + rest == [body[0]] + (body[1..] + rest);
      FeedOver(wide, s, body[0]);
      RunOutside(wide, InStr(s), body[0], body[1..] + rest);
      RunOver(wide, s, body[1..], rest);
    }
  }

  lemma FeedOver(wide: nat -> nat, s: Screen, b: byte)
    requires Inv(s) && s.pending == [] && b != BEL && b != ESC
    ensures ByteReaches(wide, InStr(s), b) && Feed(wide, InStr(s), b) == InStr(s)
  {
    hide Inv, Grows, SavedScreenKept;
  }

  // ----- text -----

  /** A character that is shown, if its width is not 0. */
  predicate Shown(r: nat) {
    IsScalar(r) && r >= 0x20 && r != 0x7F
  }

  lemma RuneHeard(wide: nat -> nat, s: Screen, r: nat)
    requires Ready(s) && s.pending == [] && s.state == Ground && Shown(r)
    ensures PrintReaches(wide, s, r) && Write(wide, s, Encode(r)) == Alive(Print(wide, s, r))
  {
    var q := Encode(r);
    DecodeEncode(r);
    DecodesWhole(r);
    ReadyPrints(wide, s, r);
    Unpended(wide, s, q);
    hide Inv, Grows, SavedScreenKept, Print, PrintReaches, Write, Encode, DecodeRune, FullRune, Followed, Undisturbed;
    assert q[|q|..] == [];
    if r >= 0x80 {
      RunPrints(wide, s, q);
    }
  }

  lemma DecodesWhole(r: nat)
    requires IsScalar(r)
    ensures var q := Encode(r); q != [] && FullRune(q) && DecodeRune(q) == (r, |q|)
    ensures if r < 0x80 then Encode(r) == [r as byte] else Encode(r)[0] >= 0x80
  {
    DecodeEncode(r);
  }

  /** A byte that begins no character is shown as the replacement character. */
  lemma StrayShown(wide: nat -> nat, s: Screen, b: byte)
    requires Ready(s) && s.pending == [] && s.state == Ground && (0x80 <= b < 0xC2 || b > 0xF4)
    ensures PrintReaches(wide, s, 0xFFFD) && Write(wide, s, [b]) == Alive(Print(wide, s, 0xFFFD))
  {
    assert [b][1..] == [];
    assert FullRune([b]) && DecodeRune([b]) == (0xFFFD, 1);
    ReadyPrints(wide, s, 0xFFFD);
    hide Inv, Grows, SavedScreenKept, Print, PrintReaches, Write, DecodeRune, FullRune, Followed, Undisturbed;
    Unpended(wide, s, [b]);
    RunPrints(wide, s, [b]);
  }

  function EncodeAll(runes: seq<nat>): seq<byte>
    requires forall i :: 0 <= i < |runes| ==> Shown(runes[i])
  {
    if runes == [] then []
    else
      assert Shown(runes[0]);
      Encode(runes[0]) + EncodeAll(runes[1..])
  }

  /** Text comes to the screen rune by rune, however its characters are encoded. */
  lemma {:induction false} TextHeard(wide: nat -> nat, s: Screen, runes: seq<nat>)
    requires Ready(s) && s.pending == [] && s.state == Ground && forall i :: 0 <= i < |runes| ==> Shown(runes[i])
    ensures Write(wide, s, EncodeAll(runes)) == Alive(PrintAll(wide, s, runes))
    decreases |runes|
  {
    hide Inv, Grows, SavedScreenKept, Write, WriteFollowed, WriteUndisturbed, Print, Encode;
    if runes == [] {
      Unpended(wide, s, []);
      RunEmpty(wide, s);
    } else {
      RuneHeard(wide, s, runes[0]);
      WriteConcat(wide, s, Encode(runes[0]), EncodeAll(runes[1..]));
      TextHeard(wide, Print(wide, s, runes[0]), runes[1..]);
    }
  }

  /** The cell at x once a rune of width w was shown at the cursor; a wide rune takes the next cell too, if there is one. */
  function CellShown(s: Screen, r: nat, w: nat, x: int): Cell
    requires Inv(s) && OnScreen(s) && 0 <= x < s.cols
  {
    if x == s.curX then Cell(r, s.style) else if w == 2 && x == s.curX + 1 then Cell(0, s.style) else s.grid[s.curY][x]
  }

  /** One rune where no wrap is due: its cells, and the cursor behind it or on the last column with a wrap to come. */
  lemma RuneShown(wide: nat -> nat, s: Screen, r: nat)
    requires Ready(s) && s.pending == [] && s.state == Ground && Shown(r) && !(s.wrapNext && s.autoWrap)
    ensures var o, w := Write(wide, s, Encode(r)), RuneWidth(wide, r);
            && o.Alive?
            && if w == 0 then o.screen == s
               else
                 var row := o.screen.grid[s.curY];
                 && o.screen == s.(grid := s.grid[s.curY := row], curX := Min(s.curX + w, s.cols - 1),
                                   wrapNext := s.wrapNext || s.curX + w >= s.cols)
                 && |row| == s.cols && forall x :: 0 <= x < s.cols ==> row[x] == CellShown(s, r, w, x)
  {
    hide Inv, Grows, SavedScreenKept, Write, WriteFollowed, WriteUndisturbed, Encode, Place;
    RuneHeard(wide, s, r);
    if RuneWidth(wide, r) != 0 { PlaceCells(s, r, RuneWidth(wide, r)); }
  }

  lemma PlaceCells(s: Screen, r: nat, w: nat)
    requires Ready(s)
    ensures var q := Place(s, r, w);
            var row := q.grid[s.curY];
            && q == s.(grid := s.grid[s.curY := row], curX := Min(s.curX + w, s.cols - 1),
                       wrapNext := s.wrapNext || s.curX + w >= s.cols)
            && |row| == s.cols && forall x :: 0 <= x < s.cols ==> row[x] == CellShown(s, r, w, x)
  {
    RowShape(s);
    RowCount(s);
    hide Inv, Grows, SavedScreenKept;
  }

  /** A wrap that is due comes to the same as a carriage return and a line feed in front of the rune. */
  lemma WrapIsNewLine(wide: nat -> nat, s: Screen, r: nat)
    requires Ready(s) && s.pending == [] && s.state == Ground && Shown(r) && RuneWidth(wide, r) != 0
    requires s.wrapNext && s.autoWrap
    ensures Write(wide, s, Encode(r)) == Write(wide, s, [0x0D, 0x0A] + Encode(r))
  {
    hide Inv, Grows, SavedScreenKept, Write, WriteFollowed, WriteUndisturbed, Encode, Index, Place, Control;
    var t := CursorAt(s, 0, s.curY, false);
    ReturnGoesBack(wide, s);
    FedAlike(s);
    ControlHeard(wide, t, 0x0A);
    WriteConcat(wide, s, [0x0D], [0x0A]);
    assert [0x0D] + [0x0A] == [0x0D, 0x0A];
    WriteConcat(wide, s, [0x0D, 0x0A], Encode(r));
    RuneHeard(wide, s, r);
    RuneHeard(wide, Index(t), r);
  }

  lemma FedAlike(s: Screen)
    requires Ready(s) && s.wrapNext && s.autoWrap
    ensures var t := CursorAt(s, 0, s.curY, false);
            && Control(t, 0x0A) == Index(t) && Wrap(s) == Index(t) && !Index(t).wrapNext
            && Ready(Index(t)) && Index(t).pending == s.pending && Index(t).state == s.state && Wrap(Index(t)) == Index(t)
  {
    hide Inv, Grows, SavedScreenKept, ScrollUp;
    var t := CursorAt(s, 0, s.curY, false);
    RowCount(s);
    assert CursorAt(s, 0, s.curY, s.wrapNext) == s.(curX := 0);
    assert CursorAt(t, 0, RowBelow(t), false) == CursorAt(s.(curX := 0), 0, RowBelow(s.(curX := 0)), false);
  }

  // ----- the cursor that was noted, over any output -----

  predicate SameNote(s: Screen, r: Screen) {
    r.savedX == s.savedX && r.savedY == s.savedY && r.savedStyle == s.savedStyle
  }

  /** The byte completes ESC 7 or CSI s. */
  predicate Notes(s: Screen, b: byte) {
    (s.state.Esc? && b == 0x37) || (s.state.Csi? && !Private(s.params) && b == 0x73)
  }

  /** No byte of the output notes the cursor. */
  predicate Noteless(wide: nat -> nat, s: Screen, data: seq<byte>)
    requires Inv(s) && s.pending == []
    decreases |data|
  {
    data == [] || Incomplete(s, data) || !Reaches(wide, s, data)
    || (!Notes(s, data[0]) && Noteless(wide, Next(wide, s, data), data[Taken(s, data)..]))
  }

  lemma IndexSameNote(s: Screen)
    requires Inv(s)
    ensures SameNote(s, Index(s)) && SameNote(s, ReverseIndex(s))
  {
    hide Inv, Grows, SavedScreenKept, ScrollUp, ScrollDown;
  }

  lemma PrintSameNote(wide: nat -> nat, s: Screen, r: nat)
    requires Inv(s) && PrintReaches(wide, s, r)
    ensures SameNote(s, Print(wide, s, r))
  {
    hide Grows, SavedScreenKept, Index, Rectangle, StyledAll, StylesInverse, TitleOk, CharPrefix;
    if Wraps(s) { IndexSameNote(s.(curX := 0)); }
  }

  lemma ControlSameNote(s: Screen, b: byte)
    requires Inv(s)
    ensures SameNote(s, Control(s, b))
  {
    hide Inv, Grows, SavedScreenKept, Index;
    IndexSameNote(s);
  }

  lemma {:induction false} ModesSameNote(s: Screen, ps: seq<nat>, on: bool)
    requires Inv(s)
    ensures SameNote(s, SetPrivateModes(s, ps, on))
    decreases |ps|
  {
    hide Inv, Grows, SavedScreenKept, SwitchesScreen;
    if ps != [] { ModesSameNote(SetPrivateMode(s, ps[0], on), ps[1..], on); }
  }

  lemma FinalSameNote(s: Screen, final: byte)
    requires Inv(s) && FinalReaches(s, final) && (final == 0x73 ==> Private(s.params))
    ensures SameNote(s, Dispatch(s, final))
  {
    hide Inv, Grows, SavedScreenKept, SetPrivateModes, ParseParams, EditReaches, PlainSequence;
    if Private(s.params) {
      ModesSameNote(s, ParseParams(Raw(s.params)), final == 0x68);
    } else {
      PlainSameNote(s, final, Raw(s.params));
    }
  }

  lemma PlainSameNote(s: Screen, final: byte, raw: seq<byte>)
    requires Inv(s) && EditReaches(s, final, ParseParams(raw)) && final != 0x73
    ensures SameNote(s, PlainSequence(s, final, raw))
  {
    hide Inv, Grows, SavedScreenKept, ParseParams, EditReaches, EditCells, EditLines, Sgr, Target;
  }

  lemma EscapeSameNote(s: Screen, b: byte)
    requires Inv(s) && s.pending == [] && b != 0x37
    ensures SameNote(s, Escape(s, b))
  {
    hide Inv, Grows, SavedScreenKept, Index, ReverseIndex;
    var t := Parsing(s, Ground, s.params, s.inter);
    IndexSameNote(t);
    IndexSameNote(CursorAt(t, 0, t.curY, t.wrapNext));
  }

  lemma NextSameNote(wide: nat -> nat, s: Screen, data: seq<byte>)
    requires Inv(s) && s.pending == [] && data != [] && Reaches(wide, s, data) && !Notes(s, data[0])
    ensures SameNote(s, Next(wide, s, data))
  {
    hide Inv, Grows, SavedScreenKept, Print, Control, Dispatch, Escape, PrintReaches, EditReaches, ParseParams, Private, Raw, SetTitle,
      DecodeRune, Fits, LeavesAlt;
    var b := data[0];
    ControlSameNote(s, b);
    if s.state.Ground? {
      if b >= 0x80 { PrintSameNote(wide, s, DecodeRune(data).0); }
      else if b >= 0x20 && b != 0x7F { PrintSameNote(wide, s, b); }
    } else if s.state.Csi? {
      if 0x40 <= b <= 0x7E { FinalSameNote(s, b); }
    } else if s.state.Esc? {
      EscapeSameNote(s, b);
    }
  }

  lemma {:induction false} RunSameNote(wide: nat -> nat, s: Screen, data: seq<byte>)
    requires Inv(s) && s.pending == [] && Noteless(wide, s, data) && Run(wide, s, data).Alive?
    ensures SameNote(s, Run(wide, s, data).screen)
    decreases |data|
  {
    hide Inv, Grows, SavedScreenKept, Next, Reaches, Taken, Notes, Followed, Undisturbed, Fits, LeavesAlt;
    if data != [] && !Incomplete(s, data) {
      NextSameNote(wide, s, data);
      RunSameNote(wide, Next(wide, s, data), data[Taken(s, data)..]);
    }
  }

  /** Whatever was written in between, if it noted no other: ESC 8 gives back the cursor and the style of the ESC 7. */
  lemma CursorGivenBack(wide: nat -> nat, s: Screen, output: seq<byte>)
    requires Listens(s) && OnScreen(s)
    requires var t := Noted(Hushed(s)); Inv(t) && Noteless(wide, t, output)
    requires var o := Write(wide, Noted(Hushed(s)), output); o.Alive? && Listens(o.screen)
    ensures var o := Write(wide, s, [ESC, 0x37] + output + [ESC, 0x38]);
            o.Alive? && o.screen.curX == s.curX && o.screen.curY == s.curY && o.screen.style == s.style
  {
    hide Inv, Grows, SavedScreenKept, Write, WriteFollowed, WriteUndisturbed, Hushed, Run, Noteless;
    var t := Noted(Hushed(s));
    var u := Write(wide, t, output).screen;
    CursorNoted(wide, s);
    WriteConcat(wide, s, [ESC, 0x37], output);
    WriteConcat(wide, s, [ESC, 0x37] + output, [ESC, 0x38]);
    Unpended(wide, t, output);
    RunSameNote(wide, t, output);
    CursorTakenUp(wide, u);
  }
}
