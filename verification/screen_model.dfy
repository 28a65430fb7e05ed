/**
term/screen.go, on values: what one terminal screen is, and what each operation makes of it.

Every operation carries the contract Kept, which is the whole of what output may do to a screen: it stays well
formed, keeps its geometry, only ever extends its history, leaves the saved primary screen alone while the alternate
one is up, and keeps the cursor on the screen. The cursor can be off it all the same: a few motions add before they
take a minimum, and a sum can wrap. Operations that index a row by the cursor ask for what they index to be there, where
Go panics; all others work from wherever the cursor is. The class in screen.dfy does the same work in place and is
proved against these functions.
*/
module ScreenModel {
  import opened Utf8
  import opened Wrappers

  datatype Cell = Cell(r: nat, style: nat)
  type Line = seq<Cell>
  type Lines = seq<Line>

  datatype ParseState = Ground | Esc | Csi | Osc | Str | Charset

  /** Wherever the cursor is, or was when it was saved, its place is two 64-bit numbers. */
  type int64 = x: int | -0x8000_0000_0000_0000 <= x <= 0x7FFF_FFFF_FFFF_FFFF

  datatype Screen = Screen(
    cols: int, rows: int,
    grid: Lines, curX: int64, curY: int64,
    savedX: int64, savedY: int64, savedStyle: nat,
    style: nat, styles: seq<seq<byte>>, styleIndex: map<seq<byte>, nat>,
    scrollTop: int, scrollBot: int,
    wrapNext: bool, autoWrap: bool,
    scrollback: Lines, maxScrollback: nat,
    alt: Lines, altActive: bool, altCurX: int64, altCurY: int64,
    cursorHidden: bool, title: seq<nat>,
    pending: seq<byte>, state: ParseState, params: seq<byte>, inter: seq<byte>)

  const SPACE := 32
  const BLANK := Cell(SPACE, 0)
  const DEFAULT_SCROLLBACK := 2000
  const MAX_STYLES := 0xFFFF
  const MAX_OSC := 1024
  const MAX_TITLE := 128
  const ESC: byte := 0x1B
  const BEL: byte := 0x07
  const SEMICOLON: byte := 0x3B
  const COLON: byte := 0x3A
  const MAX_INT := 0x7FFF_FFFF_FFFF_FFFF

  /** Go makes no row of more cells than its address space holds, at 8 bytes a cell. */
  const MAX_SIDE := 0x0FFF_FFFF_FFFF_FFFF

  /** The 64-bit two's complement result of an operation. */
  function Wrap64(x: int): (r: int64)
    ensures -MAX_INT - 1 <= x <= MAX_INT ==> r == x
  {
    (x + 0x8000_0000_0000_0000) % 0x1_0000_0000_0000_0000 - 0x8000_0000_0000_0000
  }

  /** Go's division, which truncates toward zero. */
  function Quotient(a: int, b: int): int
    requires b > 0
  {
    if a >= 0 then a / b else -(-a / b)
  }

  function Clamp(v: int, lo: int, hi: int): int {
    if v < lo then lo else if v > hi then hi else v
  }

  // ----- lines -----

  function Blanks(n: int): (l: Line)
    ensures |l| == Max(n, 0) && forall x :: 0 <= x < |l| ==> l[x] == BLANK
  {
    seq(Max(n, 0), _ => BLANK)
  }

  function NewGrid(cols: int, rows: int): (g: Lines)
    ensures |g| == Max(rows, 0) && forall y :: 0 <= y < |g| ==> g[y] == Blanks(cols)
  {
    seq(Max(rows, 0), _ => Blanks(cols))
  }

  /** The line with the cells of columns [from, to) replaced. */
  function Fill(l: Line, from: int, to: int, c: Cell): (r: Line)
    ensures |r| == |l|
    ensures forall x :: 0 <= x < |l| ==> r[x] == if from <= x < to then c else l[x]
  {
    seq(|l|, x requires 0 <= x < |l| => if from <= x < to then c else l[x])
  }

  function Eraser(style: nat): Cell {
    Cell(SPACE, style)
  }

  /** Row top leaves rows [top, bot], the ones below it move up, and a new one enters at the bottom. */
  function ShiftUp<T>(g: seq<T>, top: int, bot: int, entering: T): (r: seq<T>)
    requires 0 <= top <= bot < |g|
    ensures |r| == |g|
  {
    g[..top] + g[top + 1..bot + 1] + [entering] + g[bot + 1..]
  }

  function ShiftDown<T>(g: seq<T>, top: int, bot: int, entering: T): (r: seq<T>)
    requires 0 <= top <= bot < |g|
    ensures |r| == |g|
  {
    g[..top] + [entering] + g[top..bot] + g[bot + 1..]
  }

  // ----- invariant -----

  predicate Styled(l: Line, styles: nat) {
    forall x :: 0 <= x < |l| ==> l[x].style < styles
  }

  predicate StyledAll(g: Lines, styles: nat) {
    forall y :: 0 <= y < |g| ==> Styled(g[y], styles)
  }

  predicate Rectangle(g: Lines, cols: int, rows: int) {
    |g| == rows && forall y :: 0 <= y < |g| ==> |g[y]| == cols
  }

  /** The style table and its index are inverse to each other, and every index fits 16 bits. */
  predicate StylesInverse(styles: seq<seq<byte>>, index: map<seq<byte>, nat>) {
    && 0 < |styles| <= MAX_STYLES
    && (forall i :: 0 <= i < |styles| ==> styles[i] in index && index[styles[i]] == i)
    && (forall k :: k in index ==> index[k] < |styles| && styles[index[k]] == k)
  }

  /** No control character may reach the tab bar through a title. */
  predicate Printable(title: seq<nat>) {
    forall i :: 0 <= i < |title| ==> title[i] >= 0x20 && title[i] != 0x7F && IsScalar(title[i])
  }

  /** The bytes that a text takes. */
  function Size(title: seq<nat>): nat
    requires forall i :: 0 <= i < |title| ==> IsScalar(title[i])
  {
    if title == [] then 0 else |Encode(title[0])| + Size(title[1..])
  }

  /** A title ends with the rune that takes it past the limit, if one does. */
  predicate TitleOk(title: seq<nat>) {
    Printable(title) && Size(title) <= MAX_TITLE + 4
  }

  /** The primary screen put aside while the alternate one is up. */
  predicate SavedOk(s: Screen) {
    Rectangle(s.alt, s.cols, s.rows) && StyledAll(s.alt, |s.styles|)
  }

  predicate Inv(s: Screen) {
    && 1 <= s.cols <= MAX_SIDE && 1 <= s.rows <= MAX_SIDE
    && Rectangle(s.grid, s.cols, s.rows) && StyledAll(s.grid, |s.styles|)
    && (if s.altActive then SavedOk(s) else s.alt == [])
    && 0 <= s.scrollTop <= s.scrollBot < s.rows
    && |s.scrollback| <= s.maxScrollback && StyledAll(s.scrollback, |s.styles|)
    && StylesInverse(s.styles, s.styleIndex)
    && s.style < |s.styles| && s.savedStyle < |s.styles|
    && TitleOk(s.title)
    && (s.pending != [] ==> s.state == Ground && CharPrefix(s.pending) && |s.pending| < Length(s.pending[0]))
  }

  lemma StyledShift(g: Lines, top: int, bot: int, entering: Line, cols: int, styles: nat)
    requires 0 <= top <= bot < |g| && Rectangle(g, cols, |g|) && StyledAll(g, styles)
    requires |entering| == cols && Styled(entering, styles)
    ensures Rectangle(ShiftUp(g, top, bot, entering), cols, |g|) && StyledAll(ShiftUp(g, top, bot, entering), styles)
    ensures Rectangle(ShiftDown(g, top, bot, entering), cols, |g|) && StyledAll(ShiftDown(g, top, bot, entering), styles)
  {
  }

  /** The cursor's row is one of the grid. */
  predicate OnRow(s: Screen) {
    0 <= s.curY < s.rows
  }

  predicate OnScreen(s: Screen) {
    0 <= s.curX < s.cols && OnRow(s)
  }

  // ----- history -----

  /** b is a with its d oldest lines gone and possibly more lines at the end. */
  predicate Slid(a: Lines, b: Lines, d: nat) {
    d <= |a| && a[d..] <= b
  }

  /** History never gets shorter, and drops a line only once it is full. */
  ghost predicate Grows(a: Lines, b: Lines, cap: nat) {
    || a == b
    || (|a| <= |b| && exists d: nat :: Slid(a, b, d) && (d > 0 ==> |b| == cap))
  }

  lemma GrowsTrans(a: Lines, b: Lines, c: Lines, cap: nat)
    requires Grows(a, b, cap) && Grows(b, c, cap) && |c| <= cap
    ensures Grows(a, c, cap)
  {
    if a == b || b == c {
      return;
    }
    var d: nat :| Slid(a, b, d) && (d > 0 ==> |b| == cap);
    var e: nat :| Slid(b, c, e) && (e > 0 ==> |c| == cap);
    if d + e <= |a| {
      assert a[d + e..] == a[d..][e..] <= b[e..] <= c;
      assert Slid(a, c, d + e);
    } else {
      assert Slid(a, c, |a|);
    }
  }

  /** Append to a history of bounded length: the oldest lines make room. */
  function Push<T>(history: seq<T>, more: seq<T>, cap: nat): (r: seq<T>)
    ensures |r| <= cap || r == history + more
  {
    var all := history + more;
    if |all| > cap then all[|all| - cap..] else all
  }

  lemma PushGrows(history: Lines, more: Lines, cap: nat)
    requires |history| <= cap
    ensures |Push(history, more, cap)| <= cap
    ensures Grows(history, Push(history, more, cap), cap)
  {
    var all := history + more;
    var r := Push(history, more, cap);
    var d := if |all| > cap then |all| - cap else 0;
    if d <= |history| {
      assert history[d..] <= r;
      assert Slid(history, r, d);
    } else {
      assert history[|history|..] <= r;
      assert Slid(history, r, |history|);
    }
  }

  // ----- what an operation may do -----

  /** What output may ever do to a screen, however much of it there is. */
  ghost predicate Lasting(s: Screen, r: Screen) {
    && Inv(r)
    && r.cols == s.cols && r.rows == s.rows && r.maxScrollback == s.maxScrollback
    && s.styles <= r.styles
    && Grows(s.scrollback, r.scrollback, s.maxScrollback)
  }

  /** While the alternate screen is up, nothing reaches the saved primary one or the history. */
  predicate SavedScreenKept(s: Screen, r: Screen) {
    s.altActive && r.altActive ==>
      r.alt == s.alt && r.altCurX == s.altCurX && r.altCurY == s.altCurY && r.scrollback == s.scrollback
  }

  /** Kept but for the cursor, which a sum that wraps can throw off the screen. */
  ghost predicate KeptButCursor(s: Screen, r: Screen) {
    Lasting(s, r) && SavedScreenKept(s, r) && r.pending == s.pending
  }

  ghost predicate Kept(s: Screen, r: Screen) {
    KeptButCursor(s, r) && (OnScreen(s) ==> OnScreen(r))
  }

  /** Rows of the grid are all that differs. */
  predicate OnlyGrid(s: Screen, r: Screen) {
    r == s.(grid := r.grid)
  }

  /** The cursor, and whether it has a wrap to come, is all that differs. */
  predicate OnlyCursor(s: Screen, r: Screen) {
    r == s.(curX := r.curX, curY := r.curY, wrapNext := r.wrapNext)
  }

  /** Scrolling up changes rows and history, and nothing else. */
  predicate OnlyLines(s: Screen, r: Screen) {
    r == s.(grid := r.grid, scrollback := r.scrollback)
  }

  predicate Ready(s: Screen) {
    Inv(s) && OnScreen(s)
  }

  /** The invariant says nothing about the cursor or the pending wrap. */
  lemma CursorFree(s: Screen, x: int64, y: int64, wrap: bool)
    requires Inv(s)
    ensures Inv(s.(curX := x, curY := y, wrapNext := wrap))
  {
  }

  lemma InvPush(s: Screen, l: Line)
    requires Inv(s) && Styled(l, |s.styles|)
    ensures Inv(s.(scrollback := Push(s.scrollback, [l], s.maxScrollback)))
  {
    PushGrows(s.scrollback, [l], s.maxScrollback);
    assert StyledAll(Push(s.scrollback, [l], s.maxScrollback), |s.styles|);
  }

  lemma LastingTrans(s: Screen, t: Screen, r: Screen)
    requires Lasting(s, t) && Lasting(t, r)
    ensures Lasting(s, r)
  {
    GrowsTrans(s.scrollback, t.scrollback, r.scrollback, s.maxScrollback);
  }

  lemma ButCursorTrans(s: Screen, t: Screen, r: Screen)
    requires KeptButCursor(s, t) && KeptButCursor(t, r)
    requires s.altActive && r.altActive ==> t.altActive
    ensures KeptButCursor(s, r)
  {
    LastingTrans(s, t, r);
  }

  lemma KeptTrans(s: Screen, t: Screen, r: Screen)
    requires Kept(s, t) && Kept(t, r)
    requires s.altActive && r.altActive ==> t.altActive
    ensures Kept(s, r)
  {
    LastingTrans(s, t, r);
  }

  /** The parser's own fields have no part in the invariant while no character is pending. */
  function Parsing(s: Screen, state: ParseState, params: seq<byte>, inter: seq<byte>): (r: Screen)
    requires Inv(s) && s.pending == []
    ensures Kept(s, r) && r == s.(state := state, params := params, inter := inter)
    ensures r.pending == [] && Inv(r)
  {
    s.(state := state, params := params, inter := inter)
  }

  // ----- scrolling -----

  predicate FullHeight(s: Screen) {
    s.scrollTop == 0 && s.scrollBot == s.rows - 1
  }

  /** Whether a line leaving the top of the region becomes history. */
  predicate Remembers(s: Screen) {
    !s.altActive && FullHeight(s) && s.maxScrollback > 0
  }

  /** The history after the top line of the region has left it. */
  function Remember(s: Screen): (history: Lines)
    requires Inv(s)
    ensures |history| <= s.maxScrollback && StyledAll(history, |s.styles|)
    ensures Grows(s.scrollback, history, s.maxScrollback)
    ensures s.altActive ==> history == s.scrollback
  {
    if !Remembers(s) then s.scrollback
    else
      PushGrows(s.scrollback, [s.grid[s.scrollTop]], s.maxScrollback);
      Push(s.scrollback, [s.grid[s.scrollTop]], s.maxScrollback)
  }

  /** Rows top to the end of the region move up by one; a blank row enters at the bottom. */
  function Raise(s: Screen, top: int): (r: Screen)
    requires Inv(s) && 0 <= top <= s.scrollBot
    ensures Kept(s, r) && OnlyGrid(s, r)
  {
    StyledShift(s.grid, top, s.scrollBot, Blanks(s.cols), s.cols, |s.styles|);
    s.(grid := ShiftUp(s.grid, top, s.scrollBot, Blanks(s.cols)))
  }

  function Lower(s: Screen, top: int): (r: Screen)
    requires Inv(s) && 0 <= top <= s.scrollBot
    ensures Kept(s, r) && OnlyGrid(s, r)
  {
    StyledShift(s.grid, top, s.scrollBot, Blanks(s.cols), s.cols, |s.styles|);
    s.(grid := ShiftDown(s.grid, top, s.scrollBot, Blanks(s.cols)))
  }

  /** One line into the history, and the region up by one. */
  function ScrollUp1(s: Screen): (r: Screen)
    requires Inv(s)
    ensures Kept(s, r) && OnlyLines(s, r)
  {
    Raise(s, s.scrollTop).(scrollback := Remember(s))
  }

  function ScrollUp(s: Screen, n: int): (r: Screen)
    requires Inv(s)
    ensures Kept(s, r) && OnlyLines(s, r)
    decreases n
  {
    if n <= 0 then s
    else
      var t := ScrollUp1(s);
      var r := ScrollUp(t, n - 1);
      KeptTrans(s, t, r);
      r
  }

  function ScrollDown(s: Screen, n: int): (r: Screen)
    requires Inv(s)
    ensures Kept(s, r) && OnlyGrid(s, r)
    decreases n
  {
    if n <= 0 then s
    else
      var t := Lower(s, s.scrollTop);
      var r := ScrollDown(t, n - 1);
      KeptTrans(s, t, r);
      r
  }

  function CursorAt(s: Screen, x: int64, y: int64, wrap: bool): (r: Screen)
    requires Inv(s)
    ensures KeptButCursor(s, r) && r == s.(curX := x, curY := y, wrapNext := wrap)
  {
    CursorFree(s, x, y, wrap);
    s.(curX := x, curY := y, wrapNext := wrap)
  }

  /** The row that a line feed takes the cursor to. */
  function RowBelow(s: Screen): int {
    if s.curY != s.scrollBot && s.curY < s.rows - 1 then s.curY + 1 else s.curY
  }

  function RowAbove(s: Screen): int {
    if s.curY != s.scrollTop && s.curY > 0 then s.curY - 1 else s.curY
  }

  function Index(s: Screen): (r: Screen)
    requires Inv(s)
    ensures Kept(s, r) && r.altActive == s.altActive && r.style == s.style && r.state == s.state
    ensures r.curX == s.curX && r.curY == RowBelow(s)
  {
    var t := CursorAt(s, s.curX, RowBelow(s), false);
    if s.curY == s.scrollBot then
      var r := ScrollUp(t, 1);
      KeptTrans(s, t, r);
      r
    else t
  }

  function ReverseIndex(s: Screen): (r: Screen)
    requires Inv(s)
    ensures Kept(s, r) && r.altActive == s.altActive && r.scrollback == s.scrollback
  {
    var t := CursorAt(s, s.curX, RowAbove(s), false);
    if s.curY == s.scrollTop then
      var r := ScrollDown(t, 1);
      KeptTrans(s, t, r);
      r
    else t
  }

  // ----- printing -----

  /** Display width. Beyond ASCII it is the width table of a library, given as a function. */
  function RuneWidth(wide: nat -> nat, r: nat): nat {
    if r < 0x80 then (if r < 0x20 || r == 0x7F then 0 else 1) else wide(r)
  }

  /** The line with one rune of width w written at column x; a wide rune takes the next column too. */
  function Stamp(l: Line, x: int, r: nat, w: nat, style: nat): (q: Line)
    requires 0 <= x < |l|
    ensures |q| == |l|
  {
    var one := l[x := Cell(r, style)];
    if w == 2 && x + 1 < |l| then one[x + 1 := Cell(0, style)] else one
  }

  function SetLine(s: Screen, y: int, l: Line): (r: Screen)
    requires Inv(s) && 0 <= y < s.rows && |l| == s.cols && Styled(l, |s.styles|)
    ensures Kept(s, r) && OnlyGrid(s, r)
  {
    s.(grid := s.grid[y := l])
  }

  predicate Wraps(s: Screen) {
    s.wrapNext && s.autoWrap
  }

  /** The wrap that the last column put off, now that another rune arrives. */
  function Wrap(s: Screen): (r: Screen)
    requires Inv(s)
    ensures Kept(s, r) && r.altActive == s.altActive && r.style == s.style && r.state == s.state
    ensures r.curX == (if Wraps(s) then 0 else s.curX) && r.curY == (if Wraps(s) then RowBelow(s) else s.curY)
  {
    if Wraps(s) then
      Index(s.(curX := 0)).(wrapNext := false)
    else s
  }

  /** The cell that a rune goes to is there; Go panics where it is not. A column beyond the last is moved back first. */
  predicate PrintReaches(wide: nat -> nat, s: Screen, r: nat) {
    || RuneWidth(wide, r) == 0
    || (0 <= (if Wraps(s) then RowBelow(s) else s.curY) < s.rows && (Wraps(s) || s.curX >= 0))
  }

  /** The cursor at column x, or on the last one with the wrap put off. */
  function Advance(s: Screen, x: nat): (q: Screen)
    requires Inv(s) && OnRow(s)
    ensures Kept(s, q) && OnScreen(q) && q == s.(curX := q.curX, wrapNext := q.wrapNext)
  {
    if x >= s.cols then CursorAt(s, s.cols - 1, s.curY, true) else CursorAt(s, x, s.curY, s.wrapNext)
  }

  /** A rune of width w at the cursor; a column beyond the last is moved back first. */
  function Stamped(s: Screen, r: nat, w: nat): (q: Screen)
    requires Inv(s) && OnRow(s) && s.curX >= 0
    ensures Kept(s, q) && OnScreen(q)
    ensures q == s.(grid := q.grid, curX := Min(s.curX, s.cols - 1))
  {
    var t := CursorAt(s, Min(s.curX, s.cols - 1), s.curY, s.wrapNext);
    var u := SetLine(t, t.curY, Stamp(t.grid[t.curY], t.curX, r, w, t.style));
    KeptTrans(s, t, u);
    u
  }

  /** And the cursor behind it. */
  function Place(s: Screen, r: nat, w: nat): (q: Screen)
    requires Inv(s) && OnRow(s) && s.curX >= 0
    ensures Kept(s, q) && OnScreen(q) && q == s.(grid := q.grid, curX := q.curX, wrapNext := q.wrapNext)
  {
    var t := Stamped(s, r, w);
    KeptTrans(s, t, Advance(t, t.curX + w));
    Advance(t, t.curX + w)
  }

  function Print(wide: nat -> nat, s: Screen, r: nat): (q: Screen)
    requires Inv(s) && PrintReaches(wide, s, r)
    ensures Kept(s, q) && q.altActive == s.altActive && q.state == s.state
    ensures if RuneWidth(wide, r) == 0 then q == s else OnScreen(q)
  {
    var w := RuneWidth(wide, r);
    if w == 0 then s
    else
      var t := Wrap(s);
      KeptTrans(s, t, Place(t, r, w));
      Place(t, r, w)
  }

  /** The next multiple of 8, as 64 bits have it, or the last column. */
  function NextStop(s: Screen): (x: int)
    ensures 0 <= s.curX < s.cols <= MAX_SIDE ==> 0 <= x < s.cols
  {
    var next := Wrap64((Quotient(s.curX, 8) + 1) * 8);
    if next >= s.cols then s.cols - 1 else next
  }

  function Control(s: Screen, b: byte): (r: Screen)
    requires Inv(s)
    ensures Kept(s, r) && r.altActive == s.altActive && r.state == s.state
  {
    if b == 0x0A || b == 0x0B || b == 0x0C then Index(s)
    else if b == 0x0D then CursorAt(s, 0, s.curY, false)
    else if b == 0x08 then
      if s.wrapNext then CursorAt(s, s.curX, s.curY, false)
      else if s.curX > 0 then CursorAt(s, s.curX - 1, s.curY, s.wrapNext)
      else s
    else if b == 0x09 then CursorAt(s, NextStop(s), s.curY, false)
    else s
  }

  // ----- erasing and editing -----

  /** The cursor's row is looked up for every mode; from the cursor on, its column is indexed too. */
  predicate EraseReaches(s: Screen, mode: int) {
    OnRow(s) && (mode == 0 ==> s.curX >= 0)
  }

  function EraseLine(s: Screen, mode: int): (r: Screen)
    requires Inv(s) && EraseReaches(s, mode)
    ensures Kept(s, r) && OnlyGrid(s, r)
  {
    var line := s.grid[s.curY];
    match mode
    case 0 => SetLine(s, s.curY, Fill(line, s.curX, s.cols, Eraser(s.style)))
    case 1 => SetLine(s, s.curY, Fill(line, 0, Min(s.curX + 1, s.cols), Eraser(s.style)))
    case 2 => SetLine(s, s.curY, Fill(line, 0, s.cols, Eraser(s.style)))
    case _ => s
  }

  /** Rows [lo, hi) erased in the current style. */
  function ClearRows(s: Screen, lo: int, hi: int): (r: Screen)
    requires Inv(s) && 0 <= lo && hi <= s.rows
    ensures Kept(s, r) && OnlyGrid(s, r)
    decreases hi - lo
  {
    if lo >= hi then s
    else
      var t := SetLine(s, lo, Fill(s.grid[lo], 0, s.cols, Eraser(s.style)));
      var r := ClearRows(t, lo + 1, hi);
      KeptTrans(s, t, r);
      r
  }

  /** Part of the cursor's row, and then rows [lo, hi). */
  function EraseRows(s: Screen, mode: int, lo: int, hi: int): (r: Screen)
    requires Inv(s) && EraseReaches(s, mode) && 0 <= lo && hi <= s.rows
    ensures Kept(s, r) && OnlyGrid(s, r)
  {
    var t := EraseLine(s, mode);
    var r := ClearRows(t, lo, hi);
    KeptTrans(s, t, r);
    r
  }

  function EraseDisplay(s: Screen, mode: int): (r: Screen)
    requires Inv(s) && (mode in {0, 1} ==> EraseReaches(s, mode))
    ensures Kept(s, r) && OnlyGrid(s, r)
  {
    match mode
    case 0 => EraseRows(s, 0, s.curY + 1, s.rows)
    case 1 => EraseRows(s, 1, 0, s.curY)
    case 2 => ClearRows(s, 0, s.rows)
    case 3 => ClearRows(s, 0, s.rows)
    case _ => s
  }

  function InsertLines(s: Screen, n: int): (r: Screen)
    requires Inv(s)
    ensures Kept(s, r) && OnlyGrid(s, r)
    decreases n
  {
    var m := Clamp(n, 0, s.scrollBot - s.curY + 1);
    if s.curY < s.scrollTop || s.curY > s.scrollBot || m == 0 then s
    else
      var t := Lower(s, s.curY);
      var r := InsertLines(t, m - 1);
      KeptTrans(s, t, r);
      r
  }

  function DeleteLines(s: Screen, n: int): (r: Screen)
    requires Inv(s)
    ensures Kept(s, r) && OnlyGrid(s, r)
    decreases n
  {
    var m := Clamp(n, 0, s.scrollBot - s.curY + 1);
    if s.curY < s.scrollTop || s.curY > s.scrollBot || m == 0 then s
    else
      var t := Raise(s, s.curY);
      var r := DeleteLines(t, m - 1);
      KeptTrans(s, t, r);
      r
  }

  function DeleteCells(l: Line, x: int, n: int, c: Cell): (r: Line)
    requires 0 <= x && 0 <= n && x + n <= |l|
    ensures |r| == |l|
  {
    l[..x] + l[x + n..] + seq(n, _ => c)
  }

  function InsertCells(l: Line, x: int, n: int, c: Cell): (r: Line)
    requires 0 <= x && 0 <= n && x + n <= |l|
    ensures |r| == |l|
  {
    l[..x] + seq(n, _ => c) + l[x..|l| - n]
  }

  /** The part of the row from the cursor on is one of the row, the empty one behind it included. */
  predicate SliceReaches(s: Screen) {
    OnRow(s) && 0 <= s.curX <= s.cols
  }

  function DeleteChars(s: Screen, n: int): (r: Screen)
    requires Inv(s) && SliceReaches(s)
    ensures Kept(s, r) && OnlyGrid(s, r)
  {
    var m := Clamp(n, 0, s.cols - s.curX);
    SetLine(s, s.curY, DeleteCells(s.grid[s.curY], s.curX, m, Eraser(s.style)))
  }

  function InsertChars(s: Screen, n: int): (r: Screen)
    requires Inv(s) && SliceReaches(s)
    ensures Kept(s, r) && OnlyGrid(s, r)
  {
    var m := Clamp(n, 0, s.cols - s.curX);
    SetLine(s, s.curY, InsertCells(s.grid[s.curY], s.curX, m, Eraser(s.style)))
  }

  function EraseChars(s: Screen, n: nat): (r: Screen)
    requires Inv(s) && EraseReaches(s, 0)
    ensures Kept(s, r) && OnlyGrid(s, r)
  {
    var m := Clamp(n, 0, s.cols - s.curX);
    SetLine(s, s.curY, Fill(s.grid[s.curY], s.curX, s.curX + m, Eraser(s.style)))
  }

  // ----- cursor, modes and the alternate screen -----

  function ClampCursor(s: Screen): (r: Screen)
    requires Inv(s)
    ensures Kept(s, r) && OnlyCursor(s, r) && OnScreen(r)
  {
    s.(curX := Clamp(s.curX, 0, s.cols - 1), curY := Clamp(s.curY, 0, s.rows - 1))
  }

  function SaveCursor(s: Screen): (r: Screen)
    requires Inv(s)
    ensures Kept(s, r)
  {
    s.(savedX := s.curX, savedY := s.curY, savedStyle := s.style)
  }

  function RestoreCursor(s: Screen): (r: Screen)
    requires Inv(s)
    ensures Kept(s, r) && OnScreen(r)
  {
    ClampCursor(s.(curX := s.savedX, curY := s.savedY, style := s.savedStyle))
  }

  function SetAltScreen(s: Screen, on: bool): (r: Screen)
    requires Inv(s)
    ensures Kept(s, r) && r.altActive == on && r.scrollback == s.scrollback
    ensures on != s.altActive ==> OnScreen(r)
  {
    if on == s.altActive then s
    else if on then
      s.(alt := s.grid, altCurX := s.curX, altCurY := s.curY,
         grid := NewGrid(s.cols, s.rows), curX := 0, curY := 0, altActive := true)
    else
      ClampCursor(s.(grid := s.alt, alt := [], curX := s.altCurX, curY := s.altCurY, altActive := false))
  }

  predicate SwitchesScreen(ps: seq<nat>) {
    exists i :: 0 <= i < |ps| && ps[i] in {47, 1047, 1049}
  }

  function SetPrivateMode(s: Screen, p: nat, on: bool): (r: Screen)
    requires Inv(s)
    ensures Kept(s, r) && r.scrollback == s.scrollback
    ensures r.altActive == (if p in {47, 1047, 1049} then on else s.altActive)
  {
    if p == 7 then s.(autoWrap := on)
    else if p == 25 then s.(cursorHidden := !on)
    else if p in {47, 1047, 1049} then SetAltScreen(s, on)
    else s
  }

  function SetPrivateModes(s: Screen, ps: seq<nat>, on: bool): (r: Screen)
    requires Inv(s)
    ensures Kept(s, r) && r.scrollback == s.scrollback
    ensures r.altActive == (if SwitchesScreen(ps) then on else s.altActive)
    decreases |ps|
  {
    if ps == [] then s
    else
      var t := SetPrivateMode(s, ps[0], on);
      var r := SetPrivateModes(t, ps[1..], on);
      assert SwitchesScreen(ps) <==> ps[0] in {47, 1047, 1049} || SwitchesScreen(ps[1..]) by {
        if SwitchesScreen(ps[1..]) {
          var i :| 0 <= i < |ps[1..]| && ps[1..][i] in {47, 1047, 1049};
          assert ps[i + 1] in {47, 1047, 1049};
        }
      }
      KeptTrans(s, t, r);
      r
  }

  function Reset(s: Screen): (r: Screen)
    requires Inv(s)
    ensures Kept(s, r) && OnScreen(r) && !r.altActive && r.scrollback == s.scrollback && r.styles == s.styles
    ensures forall y :: 0 <= y < s.rows ==> r.grid[y] == Blanks(s.cols)
  {
    s.(grid := NewGrid(s.cols, s.rows), curX := 0, curY := 0, style := 0, autoWrap := true, cursorHidden := false,
       scrollTop := 0, scrollBot := s.rows - 1, altActive := false, alt := [])
  }

  // ----- parameters -----

  function IndexOf(b: seq<byte>, c: byte): (i: int)
    ensures -1 <= i < |b|
    ensures i >= 0 ==> b[i] == c && c !in b[..i]
    ensures i < 0 ==> c !in b
  {
    if b == [] then -1
    else if b[0] == c then 0
    else
      var i := IndexOf(b[1..], c);
      if i < 0 then -1 else (assert b[..i + 1] == [b[0]] + b[1..][..i]; i + 1)
  }

  lemma {:induction false} FirstAt(b: seq<byte>, c: byte, n: nat)
    requires n < |b| && b[n] == c && c !in b[..n]
    ensures IndexOf(b, c) == n
    decreases n
  {
    if n > 0 {
      assert b[0] in b[..n];
      assert b[1..][..n - 1] == b[..n][1..];
      FirstAt(b[1..], c, n - 1);
    }
  }

  /** strings.Split at every semicolon. */
  function Fields(raw: seq<byte>): (fs: seq<seq<byte>>)
    ensures |fs| >= 1
    decreases |raw|
  {
    var i := IndexOf(raw, SEMICOLON);
    if i < 0 then [raw] else [raw[..i]] + Fields(raw[i + 1..])
  }

  predicate Digits(f: seq<byte>) {
    forall i :: 0 <= i < |f| ==> 0x30 <= f[i] <= 0x39
  }

  function Decimal(f: seq<byte>): nat
    requires Digits(f)
  {
    if f == [] then 0 else Decimal(f[..|f| - 1]) * 10 + (f[|f| - 1] as int - 0x30)
  }

  /** The decimal spelling of a number. */
  function Spell(n: nat): (f: seq<byte>)
    ensures f != [] && Digits(f)
  {
    if n < 10 then [0x30 + n] else Spell(n / 10) + [0x30 + n % 10]
  }

  lemma {:induction false} DecimalSpell(n: nat)
    ensures Decimal(Spell(n)) == n
  {
    var f := Spell(n);
    if n < 10 {
      assert f[..0] == [];
    } else {
      DecimalSpell(n / 10);
      assert f[..|f| - 1] == Spell(n / 10);
    }
  }

  /** One parameter: the number before any colon; no number, or one past 64 bits, reads as 0. */
  function Param(f: seq<byte>): (n: nat)
    ensures n <= MAX_INT
  {
    var i := IndexOf(f, COLON);
    var digits := if i >= 0 then f[..i] else f;
    if digits != [] && Digits(digits) && Decimal(digits) <= MAX_INT then Decimal(digits) else 0
  }

  function Params(fs: seq<seq<byte>>): (ps: seq<nat>)
    ensures |ps| == |fs| && forall i :: 0 <= i < |ps| ==> ps[i] <= MAX_INT
  {
    seq(|fs|, i requires 0 <= i < |fs| => Param(fs[i]))
  }

  function ParseParams(raw: seq<byte>): (ps: seq<nat>)
    ensures forall i :: 0 <= i < |ps| ==> ps[i] <= MAX_INT
  {
    if raw == [] then [] else Params(Fields(raw))
  }

  /** A spelled number is read back, up to the largest 64-bit one; a larger one reads as 0. */
  lemma ParamSpell(n: nat)
    ensures Param(Spell(n)) == if n <= MAX_INT then n else 0
    ensures ParseParams(Spell(n)) == [Param(Spell(n))]
  {
    DecimalSpell(n);
    var f := Spell(n);
    assert COLON !in f && SEMICOLON !in f;
    assert Fields(f) == [f];
  }

  function Arg(ps: seq<nat>, i: nat, def: nat): nat {
    if i < |ps| && ps[i] > 0 then ps[i] else if i < |ps| && ps[i] == 0 && def == 0 then 0 else def
  }

  predicate Private(params: seq<byte>) {
    params != [] && params[0] in {0x3C, 0x3D, 0x3E, 0x3F}
  }

  function Raw(params: seq<byte>): seq<byte> {
    if Private(params) then params[1..] else params
  }

  // ----- styles -----

  predicate IsReset(p: seq<byte>) {
    p == [] || p == [0x30] || p == [0x30, 0x30]
  }

  /** Offset of the last field that is empty, "0" or "00", or -1. A colour index counts too. */
  function LastReset(spec: seq<byte>): (i: int)
    ensures -1 <= i <= |spec|
    decreases |spec|
  {
    var k := IndexOf(spec, SEMICOLON);
    if k < 0 then (if IsReset(spec) then 0 else -1)
    else
      var later := LastReset(spec[k + 1..]);
      if later >= 0 then k + 1 + later else if IsReset(spec[..k]) then 0 else -1
  }

  function Sequence(spec: seq<byte>): seq<byte> {
    [ESC, 0x5B] + spec + [0x6D]
  }

  /** A new style takes the next index, and no line shows it yet. */
  function NewStyle(s: Screen, spelled: seq<byte>): (r: Screen)
    requires Inv(s) && spelled !in s.styleIndex && |s.styles| < MAX_STYLES
    ensures Kept(s, r) && r == s.(styles := r.styles, styleIndex := r.styleIndex)
    ensures r.styles == s.styles + [spelled]
  {
    s.(styles := s.styles + [spelled], styleIndex := s.styleIndex[spelled := |s.styles|])
  }

  /** Look a style up, or enter it while there is room; a full table answers the default style. */
  function InternStyle(s: Screen, spelled: seq<byte>): (p: (Screen, nat))
    requires Inv(s)
    ensures Kept(s, p.0) && p.1 < |p.0.styles|
    ensures p.0 == s.(styles := p.0.styles, styleIndex := p.0.styleIndex)
    ensures p.1 != 0 ==> p.0.styles[p.1] == spelled
  {
    if spelled in s.styleIndex then (s, s.styleIndex[spelled])
    else if |s.styles| >= MAX_STYLES then (s, 0)
    else (NewStyle(s, spelled), |s.styles|)
  }

  /** What the current style is spelled like with these parameters added, or with those from the last reset on. */
  function NextStyle(s: Screen, raw: seq<byte>): seq<byte>
    requires Inv(s)
  {
    var cut := LastReset(raw);
    if cut >= 0 then Sequence(raw[cut..]) else s.styles[s.style] + Sequence(raw)
  }

  function SetStyle(s: Screen, i: nat): (r: Screen)
    requires Inv(s) && i < |s.styles|
    ensures Kept(s, r) && r == s.(style := i)
  {
    s.(style := i)
  }

  function Sgr(s: Screen, raw: seq<byte>): (r: Screen)
    requires Inv(s)
    ensures Kept(s, r) && r == s.(style := r.style, styles := r.styles, styleIndex := r.styleIndex)
  {
    if IsReset(raw) then SetStyle(s, 0)
    else
      var (t, i) := InternStyle(s, NextStyle(s, raw));
      KeptTrans(s, t, SetStyle(t, i));
      SetStyle(t, i)
  }

  // ----- titles -----

  function Sanitize(b: seq<byte>, written: nat): (title: seq<nat>)
    ensures Printable(title) && (written <= MAX_TITLE ==> written + Size(title) <= MAX_TITLE + 4)
    decreases |b|
  {
    if b == [] then []
    else
      var (r, n) := DecodeRune(b);
      if r < 0x20 || r == 0x7F then Sanitize(b[n..], written)
      else
        var written' := written + |Encode(r)|;
        if written' > MAX_TITLE then [r] else [r] + Sanitize(b[n..], written')
  }

  /** The runes of a text but for the control characters. */
  function Visible(b: seq<byte>): (all: seq<nat>)
    ensures Printable(all)
    decreases |b|
  {
    if b == [] then []
    else
      var (r, n) := DecodeRune(b);
      if r < 0x20 || r == 0x7F then Visible(b[n..]) else [r] + Visible(b[n..])
  }

  /** A title is the text as far as the limit, or with the one rune that takes it past it. */
  predicate IsTitle(all: seq<nat>, title: seq<nat>, written: nat) {
    && Printable(all) && title <= all && Printable(title)
    && (title == all || written + Size(title) > MAX_TITLE)
    && (title != [] ==> Printable(title[..|title| - 1]) && written + Size(title[..|title| - 1]) <= MAX_TITLE)
  }

  lemma TitleOfOne(all: seq<nat>, r: nat, written: nat)
    requires IsScalar(r) && Printable([r] + all) && written <= MAX_TITLE < written + |Encode(r)|
    ensures IsTitle([r] + all, [r], written)
  {
    assert [r][1..] == [] && [r][..0] == [];
  }

  lemma TitleOfMore(all: seq<nat>, title: seq<nat>, r: nat, written: nat)
    requires IsScalar(r) && Printable([r] + all) && written + |Encode(r)| <= MAX_TITLE
    requires IsTitle(all, title, written + |Encode(r)|)
    ensures IsTitle([r] + all, [r] + title, written)
  {
    var whole := [r] + title;
    assert whole[1..] == title;
    if title == [] {
      assert whole[..0] == [];
    } else {
      assert whole[..|whole| - 1] == [r] + title[..|title| - 1];
      assert ([r] + title[..|title| - 1])[1..] == title[..|title| - 1];
    }
  }

  lemma {:induction false} SanitizeExactly(b: seq<byte>, written: nat)
    requires written <= MAX_TITLE
    ensures IsTitle(Visible(b), Sanitize(b, written), written)
    decreases |b|
  {
    hide IsTitle, Size, Encode, DecodeRune, IsScalar;
    if b == [] {
      NoTitle(written);
    } else {
      var (r, n) := DecodeRune(b);
      var all := Visible(b[n..]);
      if r < 0x20 || r == 0x7F {
        SanitizeExactly(b[n..], written);
      } else if written + |Encode(r)| > MAX_TITLE {
        TitleOfOne(all, r, written);
      } else {
        SanitizeExactly(b[n..], written + |Encode(r)|);
        TitleOfMore(all, Sanitize(b[n..], written + |Encode(r)|), r, written);
      }
    }
  }

  lemma NoTitle(written: nat)
    ensures IsTitle([], [], written)
  {
  }

  /** "0;" or "2;" in front of a title. */
  predicate TakesTitle(body: seq<byte>) {
    |body| >= 2 && body[0] in {0x30, 0x32} && body[1] == SEMICOLON
  }

  function WithTitle(s: Screen, title: seq<nat>): (r: Screen)
    requires Inv(s) && TitleOk(title)
    ensures Kept(s, r) && r == s.(title := title)
  {
    s.(title := title)
  }

  function SetTitle(s: Screen, body: seq<byte>): (r: Screen)
    requires Inv(s)
    ensures Kept(s, r) && r == s.(title := r.title)
    ensures if TakesTitle(body) then IsTitle(Visible(body[2..]), r.title, 0) else r == s
  {
    var i := IndexOf(body, SEMICOLON);
    if i == 1 && body[0] in {0x30, 0x32} then
      SanitizeExactly(body[2..], 0);
      WithTitle(s, Sanitize(body[2..], 0))
    else s
  }

  // ----- construction and resizing -----

  function NewScreen(cols: int, rows: int, scrollback: int): (s: Screen)
    requires cols <= MAX_SIDE && rows <= MAX_SIDE
    ensures Ready(s) && s.pending == [] && s.state == Ground && !s.altActive && s.scrollback == []
    ensures s.cols == Max(cols, 1) && s.rows == Max(rows, 1)
  {
    var c, r := Max(cols, 1), Max(rows, 1);
    Screen(c, r, NewGrid(c, r), 0, 0, 0, 0, 0, 0, [[]], map[[] := 0], 0, r - 1, false, true,
           [], if scrollback == 0 then DEFAULT_SCROLLBACK else Max(scrollback, 0),
           [], false, 0, 0, false, [], [], Ground, [], [])
  }

  function ResizeLine(l: Line, cols: nat): (r: Line)
    ensures |r| == cols
  {
    if cols <= |l| then l[..cols] else l + Blanks(cols - |l|)
  }

  function ResizeLines(g: Lines, cols: nat): (r: Lines)
    ensures |r| == |g|
  {
    seq(|g|, y requires 0 <= y < |g| => ResizeLine(g[y], cols))
  }

  /** How many rows come off the top: only as many as it takes to keep the cursor on the screen. */
  function TopDrop(g: Lines, rows: nat, curY: int): (n: nat)
    ensures n <= Max(|g| - rows, 0)
  {
    if rows < |g| then Clamp(Wrap64(curY - rows + 1), 0, |g| - rows) else 0
  }

  /** The cursor's row once the top rows have come off, as 64 bits have it. */
  function RowAfter(g: Lines, rows: nat, curY: int64): int64 {
    Wrap64(curY - TopDrop(g, rows, curY))
  }

  /** The rows that stay visible, and blank ones below them when the screen grew. */
  function ResizeGrid(g: Lines, cols: nat, rows: nat, curY: int): (r: Lines)
    ensures Rectangle(r, cols, rows)
  {
    var drop := TopDrop(g, rows, curY);
    if rows > |g| then ResizeLines(g, cols) + NewGrid(cols, rows - |g|) else ResizeLines(g, cols)[drop..drop + rows]
  }

  lemma StyledResize(g: Lines, cols: nat, rows: nat, curY: int, styles: nat)
    requires StyledAll(g, styles) && styles > 0
    ensures StyledAll(ResizeLines(g, cols), styles)
    ensures StyledAll(ResizeGrid(g, cols, rows, curY), styles)
  {
    forall y | 0 <= y < |g|
      ensures Styled(ResizeLine(g[y], cols), styles)
    {
    }
  }

  /** The primary screen, shown or saved. */
  function Primary(s: Screen): Lines {
    if s.altActive then s.alt else s.grid
  }

  function PrimaryY(s: Screen): int {
    if s.altActive then s.altCurY else s.curY
  }

  /** Rows that leave the top of the primary screen become history. */
  function Spill(s: Screen, cols: nat, rows: nat): (history: Lines)
    requires Inv(s)
    ensures |history| <= s.maxScrollback && StyledAll(history, |s.styles|)
    ensures Grows(s.scrollback, history, s.maxScrollback)
  {
    var g := Primary(s);
    if s.maxScrollback == 0 then s.scrollback
    else
      StyledResize(g, cols, rows, PrimaryY(s), |s.styles|);
      PushGrows(s.scrollback, ResizeLines(g, cols)[..TopDrop(g, rows, PrimaryY(s))], s.maxScrollback);
      Push(s.scrollback, ResizeLines(g, cols)[..TopDrop(g, rows, PrimaryY(s))], s.maxScrollback)
  }

  /** The rows of both grids and of the history, for a new size. */
  function ResizedRows(s: Screen, cols: nat, rows: nat): Screen
    requires Inv(s)
  {
    s.(grid := ResizeGrid(s.grid, cols, rows, s.curY),
       alt := if s.altActive then ResizeGrid(s.alt, cols, rows, s.altCurY) else s.alt,
       scrollback := Spill(s, cols, rows))
  }

  /** The new size itself, with the whole height as the region, and the cursors within it. */
  function Settled(s: Screen, cols: nat, rows: nat, y: int64, savedY: int64): Screen
    requires 1 <= cols <= MAX_SIDE && 1 <= rows <= MAX_SIDE
  {
    s.(cols := cols, rows := rows, scrollTop := 0, scrollBot := rows - 1, wrapNext := false,
       curX := Clamp(s.curX, 0, cols - 1), curY := Clamp(y, 0, rows - 1),
       altCurX := if s.altActive then Clamp(s.altCurX, 0, cols - 1) else s.altCurX,
       altCurY := if s.altActive then Clamp(savedY, 0, rows - 1) else s.altCurY)
  }

  function Resize(s: Screen, newCols: int, newRows: int): (r: Screen)
    requires Inv(s) && newCols <= MAX_SIDE && newRows <= MAX_SIDE
    ensures Inv(r) && r.pending == s.pending && r.altActive == s.altActive
    ensures OnScreen(s) || Max(newCols, 1) != s.cols || Max(newRows, 1) != s.rows ==> OnScreen(r)
    ensures r.cols == Max(newCols, 1) && r.rows == Max(newRows, 1) && r.maxScrollback == s.maxScrollback
    ensures Grows(s.scrollback, r.scrollback, s.maxScrollback)
  {
    var cols, rows := Max(newCols, 1), Max(newRows, 1);
    if cols == s.cols && rows == s.rows then s
    else
      StyledResize(s.grid, cols, rows, s.curY, |s.styles|);
      StyledResize(s.alt, cols, rows, s.altCurY, |s.styles|);
      Settled(ResizedRows(s, cols, rows), cols, rows, RowAfter(s.grid, rows, s.curY), RowAfter(s.alt, rows, s.altCurY))
  }
}
