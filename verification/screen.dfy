/**
term/screen.go, in place: a screen whose rows are heap arrays moved about by reference.

Each method does to the rows and fields what the source's method does, and is proved to reach the screen that the
function of the same name computes. That no two rows are ever the same array is part of Valid, so every row operation
has to keep it.
*/
module ScreenHeap {
  import opened Wrappers
  import opened Utf8
  import opened ScreenModel
  import opened ScreenParser

  type Row = array<Cell>

  predicate Apart(a: seq<Row>, b: seq<Row>) {
    forall i, j :: 0 <= i < |a| && 0 <= j < |b| ==> a[i] != b[j]
  }

  predicate Within(rows: seq<Row>, repr: set<Row>) {
    forall y :: 0 <= y < |rows| ==> rows[y] in repr
  }

  /** The rows hold these lines. */
  ghost predicate Shows(rows: seq<Row>, lines: Lines)
    reads rows
  {
    |rows| == |lines| && forall y :: 0 <= y < |rows| ==> rows[y][..] == lines[y]
  }

  method MakeLine(cols: int) returns (row: Row)
    requires cols >= 0
    ensures fresh(row) && row[..] == Blanks(cols)
  {
    row := new Cell[cols](_ => BLANK);
  }

  /** The source's erasing loop: columns [lo, hi) of a row become one cell. */
  method Paint(row: Row, lo: int, hi: int, c: Cell)
    requires 0 <= lo && hi <= row.Length
    modifies row
    ensures row[..] == Fill(old(row[..]), lo, hi, c)
  {
    var x := lo;
    while x < hi
      invariant lo <= x <= Max(lo, hi)
      invariant forall k :: 0 <= k < row.Length ==> row[k] == if lo <= k < x then c else old(row[k])
    {
      row[x] := c;
      x := x + 1;
    }
  }

  method StampRow(row: Row, x: int, r: nat, w: nat, style: nat)
    requires 0 <= x < row.Length
    modifies row
    ensures row[..] == Stamp(old(row[..]), x, r, w, style)
  {
    row[x] := Cell(r, style);
    if w == 2 && x + 1 < row.Length {
      row[x + 1] := Cell(0, style);
    }
  }

  /** Cells moved to the left, with the end of the line filled, are cells deleted. */
  lemma ShiftedLeft(was: Line, mid: Line, x: int, n: int, c: Cell)
    requires 0 <= x && 0 <= n && x + n <= |was| == |mid|
    requires forall k :: 0 <= k < x ==> mid[k] == was[k]
    requires forall k :: x <= k < |was| - n ==> mid[k] == was[k + n]
    ensures Fill(mid, |was| - n, |was|, c) == DeleteCells(was, x, n, c)
  {
    var kept := was[..x] + was[x + n..];
    assert mid[..|was| - n] == kept;
    assert Fill(mid, |was| - n, |was|, c) == mid[..|was| - n] + seq(n, _ => c);
  }

  lemma ShiftedRight(was: Line, mid: Line, x: int, n: int, c: Cell)
    requires 0 <= x && 0 <= n && x + n <= |was| == |mid|
    requires forall k :: 0 <= k < x ==> mid[k] == was[k]
    requires forall k :: x + n <= k < |was| ==> mid[k] == was[k - n]
    ensures Fill(mid, x, x + n, c) == InsertCells(was, x, n, c)
  {
    assert mid[..x] == was[..x] && mid[x + n..] == was[x..|was| - n];
    assert Fill(mid, x, x + n, c) == mid[..x] + seq(n, _ => c) + mid[x + n..];
  }

  method DeleteInRow(row: Row, x: int, n: int, c: Cell)
    requires 0 <= x && 0 <= n && x + n <= row.Length
    modifies row
    ensures row[..] == DeleteCells(old(row[..]), x, n, c)
  {
    hide Fill, DeleteCells;
    ghost var was := row[..];
    forall k | x <= k < row.Length - n {
      row[k] := row[k + n];
    }
    ShiftedLeft(was, row[..], x, n, c);
    Paint(row, row.Length - n, row.Length, c);
  }

  method InsertInRow(row: Row, x: int, n: int, c: Cell)
    requires 0 <= x && 0 <= n && x + n <= row.Length
    modifies row
    ensures row[..] == InsertCells(old(row[..]), x, n, c)
  {
    hide Fill, InsertCells;
    ghost var was := row[..];
    forall k | x + n <= k < row.Length {
      row[k] := row[k - n];
    }
    ShiftedRight(was, row[..], x, n, c);
    Paint(row, x, x + n, c);
  }

  method MakeGrid(cols: int, rows: int) returns (g: seq<Row>)
    requires cols >= 0 && rows >= 0
    ensures fresh(g) && Distinct(g) && Shows(g, NewGrid(cols, rows))
  {
    g := [];
    while |g| < rows
      invariant |g| <= rows
      invariant fresh(g) && Distinct(g)
      invariant forall y :: 0 <= y < |g| ==> g[y][..] == Blanks(cols)
    {
      var row := MakeLine(cols);
      g := g + [row];
    }
  }

  /** Rotating rows of a grid keeps the rows unaliased. */
  lemma ShiftUpRows(rows: seq<Row>, top: int, bot: int, other: seq<Row>, third: seq<Row>, repr: set<Row>)
    requires 0 <= top <= bot < |rows| && Distinct(rows) && Apart(rows, other) && Apart(rows, third) && Within(rows, repr)
    ensures var r := ShiftUp(rows, top, bot, rows[top]);
            Distinct(r) && Apart(r, other) && Apart(r, third) && Within(r, repr)
  {
  }

  lemma ShiftDownRows(rows: seq<Row>, top: int, bot: int, other: seq<Row>, third: seq<Row>, repr: set<Row>)
    requires 0 <= top <= bot < |rows| && Distinct(rows) && Apart(rows, other) && Apart(rows, third) && Within(rows, repr)
    ensures var r := ShiftDown(rows, top, bot, rows[bot]);
            Distinct(r) && Apart(r, other) && Apart(r, third) && Within(r, repr)
  {
  }

  /** Rotating rows rotates the lines they show; what the row that moves showed before is of no interest. */
  lemma ShiftUpShows(rows: seq<Row>, lines: Lines, top: int, bot: int, entering: Row, was: Line)
    requires 0 <= top <= bot < |rows| == |lines| && Shows(rows, lines[top := was])
    ensures Shows(ShiftUp(rows, top, bot, entering), ShiftUp(lines, top, bot, entering[..]))
  {
    assert forall y :: 0 <= y < |rows| && y != top ==> rows[y][..] == lines[top := was][y];
  }

  lemma ShiftDownShows(rows: seq<Row>, lines: Lines, top: int, bot: int, entering: Row, was: Line)
    requires 0 <= top <= bot < |rows| == |lines| && Shows(rows, lines[bot := was])
    ensures Shows(ShiftDown(rows, top, bot, entering), ShiftDown(lines, top, bot, entering[..]))
  {
    assert forall y :: 0 <= y < |rows| && y != bot ==> rows[y][..] == lines[bot := was][y];
  }

  predicate Lacks(rows: seq<Row>, row: Row) {
    forall y :: 0 <= y < |rows| ==> rows[y] != row
  }

  /** A new row at the bottom, and the top row out of the grid: what is left aliases neither it nor the history. */
  lemma NewRowIn(g: seq<Row>, top: int, bot: int, bottom: Row, history: seq<Row>, alt: seq<Row>, repr: set<Row>)
    requires 0 <= top <= bot < |g| && bottom !in repr
    requires Distinct(g) && Apart(g, history) && Within(g, repr) && Within(history, repr)
    requires Apart(g, alt) && Within(alt, repr)
    ensures var r := ShiftUp(g, top, bot, bottom);
            Distinct(r) && Within(r, repr + {bottom}) && Apart(r, history) && Lacks(r, g[top]) && Apart(r, alt)
    ensures Lacks(history, g[top]) && Lacks(alt, g[top])
    ensures Within(alt, repr + {bottom}) && Within(history, repr + {bottom})
  {
  }

  /** The row that has left the grid joins the history, whose oldest rows may go. */
  lemma PushedRow(r: seq<Row>, row: Row, history: seq<Row>, alt: seq<Row>, cap: nat, repr: set<Row>)
    requires Apart(r, history) && Lacks(r, row) && Distinct(history) && Lacks(history, row)
    requires Apart(alt, history) && Lacks(alt, row) && Within(history, repr) && row in repr
    ensures var h := Push(history, [row], cap);
            Apart(r, h) && Distinct(h) && Apart(alt, h) && Within(h, repr)
  {
    var all := history + [row];
    assert Apart(r, all) && Distinct(all) && Apart(alt, all) && Within(all, repr);
  }

  ghost function Rows(rows: seq<Row>): set<Row> {
    set y | 0 <= y < |rows| :: rows[y]
  }

  lemma WithinRows(g: seq<Row>, other: seq<Row>, third: seq<Row>, repr: set<Row>)
    requires Within(other, repr) && Within(third, repr)
    ensures Within(g, repr + Rows(g)) && Within(other, repr + Rows(g)) && Within(third, repr + Rows(g))
  {
  }

  lemma FreshApart(g: seq<Row>, other: seq<Row>, repr: set<Row>)
    requires Within(other, repr) && (forall y :: 0 <= y < |g| ==> g[y] !in repr)
    ensures Apart(g, other)
  {
  }

  /** The screens that the alternate screen and the full reset pass through are well formed too. */
  lemma EnterSteps(s: Screen)
    requires Inv(s) && !s.altActive
    ensures var t := s.(grid := NewGrid(s.cols, s.rows));
            Inv(t) && Inv(t.(alt := s.grid, altActive := true, altCurX := s.curX, altCurY := s.curY))
  {
    hide StylesInverse;
  }

  lemma LeaveSteps(s: Screen)
    requires Inv(s) && s.altActive
    ensures var t := s.(alt := [], altActive := false); Inv(t) && Inv(t.(grid := s.alt))
  {
    hide StylesInverse;
  }

  lemma ResetGrids(s: Screen)
    requires Inv(s)
    ensures var t := s.(alt := [], altActive := false); Inv(t) && Inv(t.(grid := NewGrid(s.cols, s.rows)))
  {
    hide StylesInverse;
  }

  lemma PushShows(history: seq<Row>, lines: Lines, row: Row, cap: nat)
    requires Shows(history, lines)
    ensures Shows(Push(history, [row], cap), Push(lines, [row[..]], cap))
  {
  }

  /** A row about to leave the region may as well be blanked first. */
  lemma RaiseBlanked(s: Screen, top: int)
    requires Inv(s) && 0 <= top <= s.scrollBot
    ensures var t := SetLine(s, top, Blanks(s.cols));
            t.grid[top] == Blanks(s.cols) && Raise(t, top) == Raise(s, top)
    ensures Fill(s.grid[top], 0, s.cols, BLANK) == Blanks(s.cols)
  {
    hide StyledAll, StylesInverse;
  }

  lemma LowerBlanked(s: Screen, top: int)
    requires Inv(s) && 0 <= top <= s.scrollBot
    ensures var t := SetLine(s, s.scrollBot, Blanks(s.cols));
            t.grid[s.scrollBot] == Blanks(s.cols) && Lower(t, top) == Lower(s, top)
    ensures Fill(s.grid[s.scrollBot], 0, s.cols, BLANK) == Blanks(s.cols)
  {
    hide StyledAll, StylesInverse;
  }

  /** IL, one line at a time, and no more lines than the region has from the cursor on. */
  lemma InsertLinesOnce(s: Screen, n: int)
    requires Inv(s) && s.scrollTop <= s.curY <= s.scrollBot && 0 < n <= s.scrollBot - s.curY + 1
    ensures ScreenModel.InsertLines(s, n) == ScreenModel.InsertLines(Lower(s, s.curY), n - 1)
  {
    hide Inv, Kept, Lower;
  }

  lemma InsertLinesDone(s: Screen)
    requires Inv(s)
    ensures ScreenModel.InsertLines(s, 0) == s
  {
    hide Inv, Kept;
  }

  lemma InsertLinesClamped(s: Screen, n: int)
    requires Inv(s) && s.scrollTop <= s.curY <= s.scrollBot
    ensures ScreenModel.InsertLines(s, Clamp(n, 0, s.scrollBot - s.curY + 1)) == ScreenModel.InsertLines(s, n)
  {
    hide Inv, Kept, Lower;
  }

  /** DL, one line at a time, and no more lines than the region has from the cursor on. */
  lemma DeleteLinesOnce(s: Screen, n: int)
    requires Inv(s) && s.scrollTop <= s.curY <= s.scrollBot && 0 < n <= s.scrollBot - s.curY + 1
    ensures ScreenModel.DeleteLines(s, n) == ScreenModel.DeleteLines(Raise(s, s.curY), n - 1)
  {
    hide Inv, Kept, Raise;
  }

  lemma DeleteLinesDone(s: Screen)
    requires Inv(s)
    ensures ScreenModel.DeleteLines(s, 0) == s
  {
    hide Inv, Kept;
  }

  lemma DeleteLinesClamped(s: Screen, n: int)
    requires Inv(s) && s.scrollTop <= s.curY <= s.scrollBot
    ensures ScreenModel.DeleteLines(s, Clamp(n, 0, s.scrollBot - s.curY + 1)) == ScreenModel.DeleteLines(s, n)
  {
    hide Inv, Kept, Raise;
  }

  class LiveScreen {
    /** The display width of a rune beyond ASCII. */
    const wide: nat -> nat

    var cols: int
    var rows: int
    var grid: seq<Row>
    var curX: int64
    var curY: int64
    var savedX: int64
    var savedY: int64
    var savedStyle: nat
    var style: nat
    var styles: seq<seq<byte>>
    var styleIndex: map<seq<byte>, nat>
    var scrollTop: int
    var scrollBot: int
    var wrapNext: bool
    var autoWrap: bool
    var scrollback: seq<Row>
    var maxScrollback: nat
    var alt: seq<Row>
    var altActive: bool
    var altCurX: int64
    var altCurY: int64
    var cursorHidden: bool
    var title: seq<nat>
    var pending: seq<byte>
    var state: ParseState
    var params: seq<byte>
    var inter: seq<byte>

    /** What the rows hold. */
    ghost var gridLines: Lines
    ghost var altLines: Lines
    ghost var historyLines: Lines
    ghost var Repr: set<Row>

    /** The screen all of this represents. */
    ghost function View(): Screen
      reads this
    {
      Screen(cols, rows, gridLines, curX, curY, savedX, savedY, savedStyle, style, styles, styleIndex, scrollTop, scrollBot,
             wrapNext, autoWrap, historyLines, maxScrollback, altLines, altActive, altCurX, altCurY, cursorHidden, title,
             pending, state, params, inter)
    }

    /** No row is in two places. */
    ghost predicate Unaliased()
      reads this
    {
      && Distinct(grid) && Distinct(alt) && Distinct(scrollback)
      && Apart(grid, alt) && Apart(grid, scrollback) && Apart(alt, scrollback)
      && Within(grid, Repr) && Within(alt, Repr) && Within(scrollback, Repr)
    }

    ghost predicate Held()
      reads this, Repr
      requires Unaliased()
    {
      Shows(grid, gridLines) && Shows(alt, altLines) && Shows(scrollback, historyLines)
    }

    ghost predicate Valid()
      reads this, Repr
    {
      Unaliased() && Held() && Inv(View())
    }

    constructor (wide: nat -> nat, cols: int, rows: int, scrollback: int)
      requires cols <= MAX_SIDE && rows <= MAX_SIDE
      ensures Valid() && fresh(Repr)
      ensures this.wide == wide && View() == NewScreen(cols, rows, scrollback)
    {
      this.wide := wide;
      this.cols, this.rows := Max(cols, 1), Max(rows, 1);
      this.maxScrollback := if scrollback == 0 then DEFAULT_SCROLLBACK else Max(scrollback, 0);
      curX, curY, savedX, savedY, savedStyle, style := 0, 0, 0, 0, 0, 0;
      styles, styleIndex := [[]], map[[] := 0];
      scrollTop, scrollBot := 0, Max(rows, 1) - 1;
      wrapNext, autoWrap := false, true;
      this.scrollback, alt := [], [];
      altActive, altCurX, altCurY, cursorHidden := false, 0, 0, false;
      title, pending, state, params, inter := [], [], Ground, [], [];
      var g := MakeGrid(Max(cols, 1), Max(rows, 1));
      grid := g;
      gridLines, altLines, historyLines := NewGrid(Max(cols, 1), Max(rows, 1)), [], [];
      Repr := set y | 0 <= y < |g| :: g[y];
    }

    // ----- rows in place -----

    /** After a change to one row of the grid and to nothing else, the grid shows one changed line. */
    twostate lemma Repainted(y: int)
      requires old(Valid()) && unchanged(this) && 0 <= y < |grid|
      requires forall r :: r in Repr && r != grid[y] ==> r[..] == old(r[..])
      ensures Shows(grid, gridLines[y := grid[y][..]]) && Shows(alt, altLines) && Shows(scrollback, historyLines)
    {
    }

    /** Rows top to the end of the region by one place up; the top one goes to the end. */
    method RotateUp(top: int)
      requires Valid() && 0 <= top <= scrollBot && gridLines[top] == Blanks(cols)
      modifies this
      ensures View() == Raise(old(View()), top)
      ensures Valid() && Repr == old(Repr)
    {
      assert gridLines[top := gridLines[top]] == gridLines;
      hide Inv, KeptButCursor, Distinct, Apart, Within, Shows, ShiftUp;
      ShiftUpRows(grid, top, scrollBot, alt, scrollback, Repr);
      ShiftUpShows(grid, gridLines, top, scrollBot, grid[top], gridLines[top]);
      grid := ShiftUp(grid, top, scrollBot, grid[top]);
      gridLines := ShiftUp(gridLines, top, scrollBot, gridLines[top]);
    }

    /** The same, down; the last row of the region goes to its top. */
    method RotateDown(top: int)
      requires Valid() && 0 <= top <= scrollBot && gridLines[scrollBot] == Blanks(cols)
      modifies this
      ensures View() == Lower(old(View()), top)
      ensures Valid() && Repr == old(Repr)
    {
      assert gridLines[scrollBot := gridLines[scrollBot]] == gridLines;
      hide Inv, KeptButCursor, Distinct, Apart, Within, Shows, ShiftDown;
      ShiftDownRows(grid, top, scrollBot, alt, scrollback, Repr);
      ShiftDownShows(grid, gridLines, top, scrollBot, grid[scrollBot], gridLines[scrollBot]);
      grid := ShiftDown(grid, top, scrollBot, grid[scrollBot]);
      gridLines := ShiftDown(gridLines, top, scrollBot, gridLines[scrollBot]);
    }

    /** Blank row top and move it to the end of the region, the rows between up by one. */
    method RaiseRow(top: int)
      requires Valid() && 0 <= top <= scrollBot
      modifies this, Repr
      ensures View() == Raise(old(View()), top)
      ensures Valid() && fresh(Repr - old(Repr))
    {
      RaiseBlanked(View(), top);
      hide Inv, Unaliased, Held, KeptButCursor, Fill, ShiftUp;
      PaintLine(top, 0, cols, BLANK);
      RotateUp(top);
    }

    method LowerRow(top: int)
      requires Valid() && 0 <= top <= scrollBot
      modifies this, Repr
      ensures View() == Lower(old(View()), top)
      ensures Valid() && fresh(Repr - old(Repr))
    {
      LowerBlanked(View(), top);
      hide Inv, Unaliased, Held, KeptButCursor, Fill, ShiftDown;
      PaintLine(scrollBot, 0, cols, BLANK);
      RotateDown(top);
    }

    /** The top row leaves the grid for good, and a new row enters at the bottom. */
    method LetIn(bottom: Row)
      requires Valid() && bottom !in Repr && bottom[..] == Blanks(cols)
      modifies this
      ensures View() == Raise(old(View()), old(scrollTop))
      ensures Valid() && old(Repr) <= Repr <= old(Repr) + {bottom}
      ensures var top := old(grid[scrollTop]); Lacks(grid, top) && Lacks(alt, top) && Lacks(scrollback, top)
    {
      assert 0 <= scrollTop <= scrollBot < |grid| == |gridLines|;
      assert gridLines[scrollTop := gridLines[scrollTop]] == gridLines;
      var g := ShiftUp(grid, scrollTop, scrollBot, bottom);
      ghost var lines := ShiftUp(gridLines, scrollTop, scrollBot, Blanks(cols));
      NewRowIn(grid, scrollTop, scrollBot, bottom, scrollback, alt, Repr);
      assert Rows(g) <= Repr + {bottom};
      hide KeptButCursor, Distinct, Apart, Within, Lacks, Shows, ShiftUp, Rows;
      ShiftUpShows(grid, gridLines, scrollTop, scrollBot, bottom, gridLines[scrollTop]);
      hide Inv;
      assert View().(grid := lines) == Raise(View(), scrollTop);
      PutGrid(g, lines);
    }

    /** A row that is nowhere else joins the history, and the oldest ones go that exceed the cap. */
    method RememberRow(row: Row)
      requires Valid() && Lacks(grid, row) && Lacks(alt, row) && Lacks(scrollback, row) && row in Repr
      requires Styled(row[..], |styles|)
      modifies this
      ensures View() == old(View()).(scrollback := Push(old(View()).scrollback, [row[..]], maxScrollback))
      ensures Valid() && Repr == old(Repr)
    {
      hide Inv, Grows, Distinct, Apart, Within, Lacks, Shows, Push;
      InvPush(View(), row[..]);
      PushedRow(grid, row, scrollback, alt, maxScrollback, Repr);
      PushShows(scrollback, historyLines, row, maxScrollback);
      scrollback := Push(scrollback, [row], maxScrollback);
      historyLines := Push(historyLines, [row[..]], maxScrollback);
    }

    /** The top row becomes history, the oldest line making room, and a new row enters at the bottom. */
    method ScrollIntoHistory()
      requires Valid() && Remembers(View())
      modifies this, Repr
      ensures View() == ScrollUp1(old(View()))
      ensures Valid() && fresh(Repr - old(Repr))
    {
      var top := grid[scrollTop];
      assert top in Repr && cols >= 1 && top[..] == gridLines[scrollTop] && Styled(top[..], |styles|);
      hide Inv, Unaliased, Held, Grows, SavedScreenKept, Lacks, ShiftUp, Push, Styled;
      var bottom := MakeLine(cols);
      LetIn(bottom);
      RememberRow(top);
    }

    method ScrollOnce(fullHeight: bool)
      requires Valid() && fullHeight == FullHeight(View())
      modifies this, Repr
      ensures View() == ScrollUp1(old(View()))
      ensures Valid() && fresh(Repr - old(Repr))
      ensures fullHeight == FullHeight(View())
    {
      assert 0 <= scrollTop <= scrollBot;
      hide Inv, Unaliased, Held, Grows, SavedScreenKept, ShiftUp;
      if !altActive && fullHeight && maxScrollback > 0 {
        ScrollIntoHistory();
      } else {
        RaiseRow(scrollTop);
      }
    }

    method ScrollUp(n: int)
      requires Valid()
      modifies this, Repr
      ensures View() == ScreenModel.ScrollUp(old(View()), n)
      ensures Valid() && fresh(Repr - old(Repr))
    {
      hide Inv, Unaliased, Held, Grows, SavedScreenKept, ScrollUp1;
      if n <= 0 {
        return;
      }
      var fullHeight := scrollTop == 0 && scrollBot == rows - 1;
      var i := 0;
      while i < n
        invariant 0 <= i <= n
        invariant Valid() && fresh(Repr - old(Repr)) && fullHeight == FullHeight(View())
        invariant ScreenModel.ScrollUp(View(), n - i) == ScreenModel.ScrollUp(old(View()), n)
      {
        ScrollOnce(fullHeight);
        i := i + 1;
      }
    }

    method ScrollDown(n: int)
      requires Valid()
      modifies this, Repr
      ensures View() == ScreenModel.ScrollDown(old(View()), n)
      ensures Valid() && fresh(Repr - old(Repr))
    {
      assert 0 <= scrollTop <= scrollBot;
      hide Inv, Unaliased, Held, Grows, SavedScreenKept;
      var i := 0;
      while i < n
        invariant 0 <= i <= Max(n, 0) && 0 <= scrollTop <= scrollBot
        invariant Valid() && fresh(Repr - old(Repr))
        invariant ScreenModel.ScrollDown(View(), n - i) == ScreenModel.ScrollDown(old(View()), n)
      {
        LowerRow(scrollTop);
        i := i + 1;
      }
    }

    // ----- the cursor -----

    method PutCursor(x: int64, y: int64, wrap: bool)
      requires Valid()
      modifies this`curX, this`curY, this`wrapNext
      ensures View() == old(View()).(curX := x, curY := y, wrapNext := wrap)
      ensures Valid()
    {
      CursorFree(View(), x, y, wrap);
      hide Inv, Unaliased, Held;
      PutPosition(x, y, wrap);
    }

    method Index()
      requires Valid()
      modifies this, Repr
      ensures View() == ScreenModel.Index(old(View()))
      ensures Valid() && fresh(Repr - old(Repr))
    {
      assert rows <= MAX_SIDE;
      hide Inv, Unaliased, Held, ScreenModel.ScrollUp;
      PutCursor(curX, curY, false);
      if curY == scrollBot {
        ScrollUp(1);
        return;
      }
      if curY < rows - 1 {
        PutCursor(curX, curY + 1, wrapNext);
      }
    }

    method ReverseIndex()
      requires Valid()
      modifies this, Repr
      ensures View() == ScreenModel.ReverseIndex(old(View()))
      ensures Valid() && fresh(Repr - old(Repr))
    {
      hide Inv, Unaliased, Held, ScreenModel.ScrollDown;
      PutCursor(curX, curY, false);
      if curY == scrollTop {
        ScrollDown(1);
        return;
      }
      if curY > 0 {
        PutCursor(curX, curY - 1, wrapNext);
      }
    }

    // ----- printing -----

    method Print(r: nat)
      requires Valid() && PrintReaches(wide, View(), r)
      modifies this, Repr
      ensures View() == ScreenModel.Print(wide, old(View()), r)
      ensures Valid() && fresh(Repr - old(Repr))
    {
      hide Inv, Unaliased, Held, Grows, SavedScreenKept, Place, Wrap;
      var w := RuneWidth(wide, r);
      if w == 0 {
        return;
      }
      WrapNow();
      PlaceRune(r, w);
    }

    method PlaceRune(r: nat, w: nat)
      requires Valid() && OnRow(View()) && curX >= 0
      modifies this, Repr
      ensures View() == Place(old(View()), r, w)
      ensures Valid() && fresh(Repr - old(Repr))
    {
      hide Inv, Unaliased, Held, Grows, SavedScreenKept, Stamped, Advance;
      StampAtCursor(r, w);
      AdvanceTo(curX + w);
    }

    method StampAtCursor(r: nat, w: nat)
      requires Valid() && OnRow(View()) && curX >= 0
      modifies this, Repr
      ensures View() == Stamped(old(View()), r, w)
      ensures Valid() && fresh(Repr - old(Repr))
    {
      assert 1 <= cols <= MAX_SIDE;
      hide Inv, Unaliased, Held, KeptButCursor, Kept, Stamp, SetLine;
      PutCursor(Min(curX, cols - 1), curY, wrapNext);
      StampRune(r, w);
    }

    method AdvanceTo(x: nat)
      requires Valid() && OnRow(View())
      modifies this`curX, this`curY, this`wrapNext
      ensures View() == Advance(old(View()), x)
      ensures Valid()
    {
      assert 1 <= cols <= MAX_SIDE;
      hide Inv, Unaliased, Held, Grows, SavedScreenKept;
      if x >= cols {
        PutCursor(cols - 1, curY, true);
      } else {
        PutCursor(x, curY, wrapNext);
      }
    }

    method WrapNow()
      requires Valid()
      modifies this, Repr
      ensures View() == Wrap(old(View()))
      ensures Valid() && fresh(Repr - old(Repr))
    {
      assert cols >= 1;
      hide Inv, Unaliased, Held, Grows, SavedScreenKept, ScreenModel.Index;
      if wrapNext && autoWrap {
        PutCursor(0, curY, wrapNext);
        Index();
        PutCursor(curX, curY, false);
      }
    }

    /** The cells a rune of width w takes, at the cursor. */
    method StampRune(r: nat, w: nat)
      requires Valid() && OnScreen(View())
      modifies this, Repr
      ensures var s := old(View()); View() == SetLine(s, s.curY, Stamp(s.grid[s.curY], s.curX, r, w, s.style))
      ensures Valid() && fresh(Repr - old(Repr))
    {
      var line := grid[curY];
      assert line[..] == gridLines[curY] && line.Length == cols;
      assert Styled(Stamp(gridLines[curY], curX, r, w, style), |styles|);
      hide Inv, KeptButCursor, Distinct, Apart, Within, Shows, Stamp, Styled;
      StampRow(line, curX, r, w, style);
      Repainted(curY);
      gridLines := gridLines[curY := line[..]];
    }

    method Control(b: byte)
      requires Valid()
      modifies this, Repr
      ensures View() == ScreenModel.Control(old(View()), b)
      ensures Valid() && fresh(Repr - old(Repr))
    {
      assert cols <= MAX_SIDE;
      hide Inv, Unaliased, Held, Grows, SavedScreenKept, ScreenModel.Index;
      if b == 0x0A || b == 0x0B || b == 0x0C {
        Index();
      } else if b == 0x0D {
        PutCursor(0, curY, false);
      } else if b == 0x08 {
        if wrapNext {
          PutCursor(curX, curY, false);
        } else if curX > 0 {
          PutCursor(curX - 1, curY, wrapNext);
        }
      } else if b == 0x09 {
        var next := Wrap64((Quotient(curX, 8) + 1) * 8);
        if next >= cols {
          next := cols - 1;
        }
        PutCursor(next, curY, false);
      }
    }

    // ----- erasing and editing -----

    /** The source's erasing loop over columns [lo, hi) of one row. */
    method PaintLine(y: int, lo: int, hi: int, c: Cell)
      requires Valid() && 0 <= y < rows && 0 <= lo && hi <= cols && c.style < |styles|
      modifies this, Repr
      ensures View() == SetLine(old(View()), y, Fill(old(View()).grid[y], lo, hi, c))
      ensures Valid() && fresh(Repr - old(Repr))
    {
      var line := grid[y];
      assert line[..] == gridLines[y] && line.Length == cols;
      assert Styled(Fill(gridLines[y], lo, hi, c), |styles|);
      hide Inv, KeptButCursor, Distinct, Apart, Within, Shows, Fill, Styled;
      Paint(line, lo, hi, c);
      Repainted(y);
      gridLines := gridLines[y := line[..]];
    }

    method EraseLine(mode: int)
      requires Valid() && EraseReaches(View(), mode)
      modifies this, Repr
      ensures View() == ScreenModel.EraseLine(old(View()), mode)
      ensures Valid() && fresh(Repr - old(Repr))
    {
      assert style < |styles|;
      hide Inv, Unaliased, Held, KeptButCursor, Fill;
      match mode
      case 0 => PaintLine(curY, curX, cols, Eraser(style));
      case 1 => PaintLine(curY, 0, Min(curX + 1, cols), Eraser(style));
      case 2 => PaintLine(curY, 0, cols, Eraser(style));
      case _ =>
    }

    method ClearRows(lo: int, hi: int)
      requires Valid() && 0 <= lo && hi <= rows
      modifies this, Repr
      ensures View() == ScreenModel.ClearRows(old(View()), lo, hi)
      ensures Valid() && fresh(Repr - old(Repr))
    {
      assert style < |styles|;
      hide Inv, Unaliased, Held, Fill;
      var y := lo;
      while y < hi
        invariant lo <= y && (lo <= hi ==> y <= hi) && hi <= rows
        invariant Valid() && fresh(Repr - old(Repr)) && style < |styles|
        invariant ScreenModel.ClearRows(View(), y, hi) == ScreenModel.ClearRows(old(View()), lo, hi)
      {
        PaintLine(y, 0, cols, Eraser(style));
        y := y + 1;
      }
    }

    method EraseDisplay(mode: int)
      requires Valid() && (mode in {0, 1} ==> EraseReaches(View(), mode))
      modifies this, Repr
      ensures View() == ScreenModel.EraseDisplay(old(View()), mode)
      ensures Valid() && fresh(Repr - old(Repr))
    {
      hide Inv, Unaliased, Held, ScreenModel.ClearRows;
      match mode
      case 0 =>
        EraseLine(0);
        ClearRows(curY + 1, rows);
      case 1 =>
        EraseLine(1);
        ClearRows(0, curY);
      case 2 => ClearRows(0, rows);
      case 3 => ClearRows(0, rows);
      case _ =>
    }

    method InsertLines(n: int)
      requires Valid()
      modifies this, Repr
      ensures View() == ScreenModel.InsertLines(old(View()), n)
      ensures Valid() && fresh(Repr - old(Repr))
    {
      if curY < scrollTop || curY > scrollBot {
        return;
      }
      hide Inv, Unaliased, Held, Kept, Lower, ScreenModel.InsertLines;
      var m := Clamp(n, 0, scrollBot - curY + 1);
      InsertLinesClamped(View(), n);
      var i := 0;
      while i < m
        invariant 0 <= i <= m <= scrollBot - curY + 1 && scrollTop <= curY <= scrollBot
        invariant Valid() && fresh(Repr - old(Repr))
        invariant ScreenModel.InsertLines(View(), m - i) == ScreenModel.InsertLines(old(View()), n)
      {
        InsertLinesOnce(View(), m - i);
        LowerRow(curY);
        i := i + 1;
      }
      InsertLinesDone(View());
    }

    method DeleteLines(n: int)
      requires Valid()
      modifies this, Repr
      ensures View() == ScreenModel.DeleteLines(old(View()), n)
      ensures Valid() && fresh(Repr - old(Repr))
    {
      if curY < scrollTop || curY > scrollBot {
        return;
      }
      hide Inv, Unaliased, Held, Kept, Raise, ScreenModel.DeleteLines;
      var m := Clamp(n, 0, scrollBot - curY + 1);
      DeleteLinesClamped(View(), n);
      var i := 0;
      while i < m
        invariant 0 <= i <= m <= scrollBot - curY + 1 && scrollTop <= curY <= scrollBot
        invariant Valid() && fresh(Repr - old(Repr))
        invariant ScreenModel.DeleteLines(View(), m - i) == ScreenModel.DeleteLines(old(View()), n)
      {
        DeleteLinesOnce(View(), m - i);
        RaiseRow(curY);
        i := i + 1;
      }
      DeleteLinesDone(View());
    }

    method DeleteChars(n: int)
      requires Valid() && SliceReaches(View())
      modifies this, Repr
      ensures View() == ScreenModel.DeleteChars(old(View()), n)
      ensures Valid() && fresh(Repr - old(Repr))
    {
      var line := grid[curY];
      assert line[..] == gridLines[curY] && line.Length == cols;
      var m := Clamp(n, 0, cols - curX);
      assert Styled(DeleteCells(gridLines[curY], curX, m, Eraser(style)), |styles|);
      hide Inv, KeptButCursor, Distinct, Apart, Within, Shows, Styled, DeleteCells;
      DeleteInRow(line, curX, m, Eraser(style));
      Repainted(curY);
      gridLines := gridLines[curY := line[..]];
    }

    method InsertChars(n: int)
      requires Valid() && SliceReaches(View())
      modifies this, Repr
      ensures View() == ScreenModel.InsertChars(old(View()), n)
      ensures Valid() && fresh(Repr - old(Repr))
    {
      var line := grid[curY];
      assert line[..] == gridLines[curY] && line.Length == cols;
      var m := Clamp(n, 0, cols - curX);
      assert Styled(InsertCells(gridLines[curY], curX, m, Eraser(style)), |styles|);
      hide Inv, KeptButCursor, Distinct, Apart, Within, Shows, Styled, InsertCells;
      InsertInRow(line, curX, m, Eraser(style));
      Repainted(curY);
      gridLines := gridLines[curY := line[..]];
    }

    method EraseChars(n: nat)
      requires Valid() && EraseReaches(View(), 0)
      modifies this, Repr
      ensures View() == ScreenModel.EraseChars(old(View()), n)
      ensures Valid() && fresh(Repr - old(Repr))
    {
      var m := Clamp(n, 0, cols - curX);
      assert style < |styles|;
      hide Inv, Unaliased, Held, KeptButCursor, Fill;
      PaintLine(curY, curX, curX + m, Eraser(style));
    }

    // ----- cursor, modes and the alternate screen -----

    method ClampCursor()
      requires Valid()
      modifies this`curX, this`curY, this`wrapNext
      ensures View() == ScreenModel.ClampCursor(old(View()))
      ensures Valid()
    {
      PutCursor(Clamp(curX, 0, cols - 1), Clamp(curY, 0, rows - 1), wrapNext);
    }

    method SaveCursor()
      requires Valid()
      modifies this`savedX, this`savedY, this`savedStyle
      ensures View() == ScreenModel.SaveCursor(old(View()))
      ensures Valid()
    {
      assert Inv(ScreenModel.SaveCursor(View()));
      hide Inv, Unaliased, Held;
      PutSaved(curX, curY, style);
    }

    method PutSaved(x: int64, y: int64, i: nat)
      requires Unaliased() && Held()
      modifies this`savedX, this`savedY, this`savedStyle
      ensures View() == old(View()).(savedX := x, savedY := y, savedStyle := i)
      ensures Unaliased() && Held()
    {
      hide Unaliased, Held;
      PutSavedSpot(x, y);
      PutSavedStyle(i);
    }

    method PutSavedSpot(x: int64, y: int64)
      requires Unaliased() && Held()
      modifies this`savedX, this`savedY
      ensures View() == old(View()).(savedX := x, savedY := y)
      ensures Unaliased() && Held()
    {
      hide Distinct, Apart, Shows, Within;
      savedX, savedY := x, y;
    }

    method PutSavedStyle(i: nat)
      requires Unaliased() && Held()
      modifies this`savedStyle
      ensures View() == old(View()).(savedStyle := i)
      ensures Unaliased() && Held()
    {
      hide Distinct, Apart, Shows, Within;
      savedStyle := i;
    }

    method PutStyle(i: nat)
      requires Valid() && i < |styles|
      modifies this`style
      ensures View() == old(View()).(style := i)
      ensures Valid()
    {
      hide Distinct, Apart, Within, Shows, StyledAll, StylesInverse;
      style := i;
    }

    method RestoreCursor()
      requires Valid()
      modifies this`curX, this`curY, this`wrapNext, this`style
      ensures View() == ScreenModel.RestoreCursor(old(View()))
      ensures Valid()
    {
      assert savedStyle < |styles|;
      hide Inv, Unaliased, Held;
      PutCursor(savedX, savedY, wrapNext);
      PutStyle(savedStyle);
      ClampCursor();
    }

    /** Other rows become the grid. */
    method PutGrid(g: seq<Row>, ghost lines: Lines)
      requires Valid() && Inv(View().(grid := lines))
      requires Distinct(g) && Apart(g, alt) && Apart(g, scrollback) && Shows(g, lines)
      modifies this`grid, this`gridLines, this`Repr
      ensures View() == old(View()).(grid := lines)
      ensures Valid() && Repr == old(Repr) + Rows(g) && grid == g
    {
      hide Inv, Unaliased, Held, Distinct, Apart, Shows, Rows;
      PutGridRows(g, lines);
    }

    /** Other rows become the saved screen; whether that is what the flags say is the caller's concern. */
    method PutAltRows(a: seq<Row>, ghost lines: Lines)
      requires Unaliased() && Held()
      requires Distinct(a) && Apart(grid, a) && Apart(a, scrollback) && Shows(a, lines)
      modifies this`alt, this`altLines, this`Repr
      ensures View() == old(View()).(alt := lines)
      ensures Unaliased() && Held() && Repr == old(Repr) + Rows(a) && alt == a
    {
      WithinRows(a, grid, scrollback, Repr);
      hide Distinct, Apart, Shows, Within, Rows;
      alt, altLines, Repr := a, lines, Repr + Rows(a);
    }

    /** Other rows become the saved screen, with its cursor; or none do. */
    method PutAlt(a: seq<Row>, active: bool, x: int64, y: int64, ghost lines: Lines)
      requires Valid() && Inv(View().(alt := lines, altActive := active, altCurX := x, altCurY := y))
      requires Distinct(a) && Apart(grid, a) && Apart(a, scrollback) && Shows(a, lines)
      modifies this`alt, this`altLines, this`altActive, this`altCurX, this`altCurY, this`Repr
      ensures View() == old(View()).(alt := lines, altActive := active, altCurX := x, altCurY := y)
      ensures Valid() && Repr == old(Repr) + Rows(a) && alt == a
    {
      hide Inv, Distinct, Apart, Shows, Within, Rows;
      PutAltRows(a, lines);
      altActive, altCurX, altCurY := active, x, y;
    }

    /** The current grid put aside for a new one. */
    method EnterAlt()
      requires Valid() && !altActive
      modifies this
      ensures View() == SetAltScreen(old(View()), true)
      ensures Valid() && fresh(Repr - old(Repr))
    {
      assert cols >= 1 && rows >= 1;
      var g := MakeGrid(cols, rows);
      var saved := grid;
      FreshApart(g, grid, Repr);
      FreshApart(g, scrollback, Repr);
      EnterSteps(View());
      assert Apart(g, alt) && Rows(grid) <= Repr;
      hide Inv, Distinct, Apart, Shows, Rows, Grows, SavedScreenKept;
      ghost var lines := gridLines;
      PutGrid(g, NewGrid(cols, rows));
      PutAlt(saved, true, curX, curY, lines);
      PutCursor(0, 0, wrapNext);
    }

    method LeaveAlt()
      requires Valid() && altActive
      modifies this
      ensures View() == SetAltScreen(old(View()), false)
      ensures Valid() && Repr == old(Repr)
    {
      assert Distinct<Row>([]) && Apart(grid, []) && Apart([], scrollback) && Shows([], []) && Apart(alt, []);
      assert Rows(alt) <= Repr && Rows([]) == {};
      LeaveSteps(View());
      hide Inv, Distinct, Apart, Shows, Rows, Grows, SavedScreenKept;
      var saved, x, y := alt, altCurX, altCurY;
      ghost var lines := altLines;
      PutAlt([], false, x, y, []);
      PutGrid(saved, lines);
      PutCursor(x, y, wrapNext);
      ClampCursor();
    }

    method SetAlt(on: bool)
      requires Valid()
      modifies this, Repr
      ensures View() == SetAltScreen(old(View()), on)
      ensures Valid() && fresh(Repr - old(Repr))
    {
      if on == altActive {
        return;
      }
      hide Inv, Unaliased, Held;
      if on {
        EnterAlt();
        return;
      }
      LeaveAlt();
    }

    method PutModes(wrap: bool, hidden: bool)
      requires Valid()
      modifies this`autoWrap, this`cursorHidden
      ensures View() == old(View()).(autoWrap := wrap, cursorHidden := hidden)
      ensures Valid()
    {
      hide Distinct, Apart, Within, Shows, StyledAll, StylesInverse;
      autoWrap, cursorHidden := wrap, hidden;
    }

    method SetModes(ps: seq<nat>, set_: bool)
      requires Valid()
      modifies this, Repr
      ensures View() == SetPrivateModes(old(View()), ps, set_)
      ensures Valid() && fresh(Repr - old(Repr))
    {
      hide Inv, Unaliased, Held, SetAltScreen, Grows, SavedScreenKept, SwitchesScreen;
      var i := 0;
      assert ps[0..] == ps;
      while i < |ps|
        invariant 0 <= i <= |ps|
        invariant Valid() && fresh(Repr - old(Repr))
        invariant SetPrivateModes(View(), ps[i..], set_) == SetPrivateModes(old(View()), ps, set_)
      {
        assert ps[i..][1..] == ps[i + 1..];
        var p := ps[i];
        if p == 7 {
          PutModes(set_, cursorHidden);
        } else if p == 25 {
          PutModes(autoWrap, !set_);
        } else if p in {47, 1047, 1049} {
          SetAlt(set_);
        }
        i := i + 1;
      }
    }

    method ResetRows()
      requires Valid()
      modifies this
      ensures View() == old(View()).(grid := NewGrid(cols, rows), alt := [], altActive := false)
      ensures Valid() && fresh(Repr - old(Repr))
    {
      assert cols >= 1 && rows >= 1;
      var g := MakeGrid(cols, rows);
      FreshApart(g, scrollback, Repr);
      assert Distinct<Row>([]) && Apart(grid, []) && Apart(g, []) && Apart([], scrollback) && Shows([], []) && Rows([]) == {};
      ResetGrids(View());
      hide Inv, Unaliased, Held, Distinct, Apart, Shows;
      PutAlt([], false, altCurX, altCurY, []);
      PutGrid(g, NewGrid(cols, rows));
    }

    method Reset()
      requires Valid()
      modifies this
      ensures View() == ScreenModel.Reset(old(View()))
      ensures Valid() && fresh(Repr - old(Repr))
    {
      assert rows >= 1 && |styles| > 0;
      hide Inv, Unaliased, Held, Grows, SavedScreenKept;
      ResetRows();
      PutCursor(0, 0, wrapNext);
      PutStyle(0);
      PutModes(true, false);
      PutRegion(0, rows - 1);
    }

    // ----- styles and titles -----

    method InternStyle(spelled: seq<byte>) returns (i: nat)
      requires Valid()
      modifies this`styles, this`styleIndex
      ensures (View(), i) == ScreenModel.InternStyle(old(View()), spelled)
      ensures Valid()
    {
      if spelled in styleIndex {
        return styleIndex[spelled];
      }
      if |styles| >= MAX_STYLES {
        return 0;
      }
      assert Inv(NewStyle(View(), spelled));
      hide Inv, Unaliased, Held, Grows, SavedScreenKept;
      i := |styles|;
      PutStyles(styles + [spelled], styleIndex[spelled := i]);
    }

    method PutStyles(table: seq<seq<byte>>, index: map<seq<byte>, nat>)
      requires Unaliased() && Held()
      modifies this`styles, this`styleIndex
      ensures View() == old(View()).(styles := table, styleIndex := index)
      ensures Unaliased() && Held()
    {
      hide Distinct, Apart, Shows, Within;
      styles, styleIndex := table, index;
    }

    /** The source's scan for the last parameter that resets. */
    static method ScanLastReset(spec: seq<byte>) returns (idx: int)
      ensures idx == LastReset(spec)
    {
      hide LastReset, IndexOf;
      idx := -1;
      var start := 0;
      var i := 0;
      assert spec[0..] == spec;
      while i < |spec|
        invariant 0 <= start <= i <= |spec|
        invariant SEMICOLON !in spec[start..i]
        invariant LastReset(spec) == if LastReset(spec[start..]) >= 0 then start + LastReset(spec[start..]) else idx
      {
        if spec[i] == SEMICOLON {
          NextField(spec, start, i);
          if IsReset(spec[start..i]) {
            idx := start;
          }
          start := i + 1;
        } else {
          assert spec[start..i + 1] == spec[start..i] + [spec[i]];
        }
        i := i + 1;
      }
      LastField(spec[start..]);
      if IsReset(spec[start..]) {
        idx := start;
      }
    }

    method Sgr(raw: seq<byte>)
      requires Valid()
      modifies this`style, this`styles, this`styleIndex
      ensures View() == ScreenModel.Sgr(old(View()), raw)
      ensures Valid()
    {
      assert |styles| > 0;
      hide Inv, Unaliased, Held, Grows, SavedScreenKept, ScreenModel.InternStyle, IsReset, NextStyle;
      if IsReset(raw) {
        PutStyle(0);
        return;
      }
      var next := SpellStyle(raw);
      var i := InternStyle(next);
      PutStyle(i);
    }

    method SpellStyle(raw: seq<byte>) returns (next: seq<byte>)
      requires Valid()
      ensures next == NextStyle(View(), raw)
    {
      next := styles[style] + Sequence(raw);
      var idx := ScanLastReset(raw);
      if idx >= 0 {
        next := Sequence(raw[idx..]);
      }
    }

    method SetTitleFrom(body: seq<byte>)
      requires Valid()
      modifies this`title
      ensures View() == SetTitle(old(View()), body)
      ensures Valid()
    {
      assert Inv(SetTitle(View(), body));
      hide Inv, Unaliased, Held, Grows, SavedScreenKept, Sanitize;
      var i := IndexOf(body, SEMICOLON);
      if i < 0 {
        return;
      }
      var num, rest := body[..i], body[i + 1..];
      if num == [0x30] || num == [0x32] {
        PutTitle(Sanitize(rest, 0));
      }
    }

    method PutTitle(text: seq<nat>)
      requires Unaliased() && Held()
      modifies this`title
      ensures View() == old(View()).(title := text)
      ensures Unaliased() && Held()
    {
      hide Distinct, Apart, Shows, Within;
      title := text;
    }

    // ----- the parser -----

    method PutParser(st: ParseState, ps: seq<byte>, it: seq<byte>)
      requires Valid() && pending == []
      modifies this`state, this`params, this`inter
      ensures View() == old(View()).(state := st, params := ps, inter := it)
      ensures Valid()
    {
      assert Inv(Parsing(View(), st, ps, it));
      hide Inv, Unaliased, Held, Grows, SavedScreenKept;
      PutState(st);
      PutRead(ps, it);
    }

    method PutState(st: ParseState)
      requires Unaliased() && Held()
      modifies this`state
      ensures View() == old(View()).(state := st)
      ensures Unaliased() && Held()
    {
      hide Distinct, Apart, Shows, Within;
      state := st;
    }

    method PutRead(ps: seq<byte>, it: seq<byte>)
      requires Unaliased() && Held()
      modifies this`params, this`inter
      ensures View() == old(View()).(params := ps, inter := it)
      ensures Unaliased() && Held()
    {
      hide Distinct, Apart, Shows, Within;
      params, inter := ps, it;
    }

    method PutPending(b: seq<byte>)
      requires Valid()
      requires b != [] ==> state == Ground && CharPrefix(b) && |b| < Length(b[0])
      modifies this`pending
      ensures View() == old(View()).(pending := b)
      ensures Valid()
    {
      hide Distinct, Apart, Within, Shows, StyledAll, StylesInverse, CharPrefix;
      pending := b;
    }

    method PutRegion(top: int, bot: int)
      requires Valid() && 0 <= top <= bot < rows
      modifies this`scrollTop, this`scrollBot
      ensures View() == old(View()).(scrollTop := top, scrollBot := bot)
      ensures Valid()
    {
      assert Inv(View().(scrollTop := top, scrollBot := bot));
      hide Inv, Unaliased, Held;
      PutMargins(top, bot);
    }

    /** The cursor motions of csi's switch. */
    method MoveCursor(final: byte, ps: seq<nat>)
      requires Valid() && IsMove(final) && (forall i :: 0 <= i < |ps| ==> ps[i] <= MAX_INT)
      modifies this`curX, this`curY, this`wrapNext
      ensures View() == Move(old(View()), final, ps)
      ensures Valid()
    {
      hide Inv, Unaliased, Held, Grows, SavedScreenKept, Target;
      var x, y := MoveTarget(final, Arg(ps, 0, 1), Arg(ps, 1, 1));
      PutCursor(x, y, wrapNext && (final == 0x45 || final == 0x46));
    }

    /** Where a motion goes, by the first parameter, or the first two. */
    method MoveTarget(final: byte, n: nat, m: nat) returns (x: int64, y: int64)
      requires Valid() && IsMove(final) && n <= MAX_INT
      ensures (x, y) == Target(View(), final, n, m)
    {
      assert 0 <= scrollTop <= scrollBot < rows <= MAX_SIDE && 1 <= cols <= MAX_SIDE;
      hide Inv, Unaliased, Held, Wrap64;
      x, y := curX, curY;
      if final == 0x41 {
        y := Max(ScrollTopBound(), Wrap64(curY - n));
      } else if final == 0x42 {
        y := Min(ScrollBotBound(), Wrap64(curY + n));
      } else if final == 0x43 {
        x := Min(cols - 1, Wrap64(curX + n));
      } else if final == 0x44 {
        x := Max(0, Wrap64(curX - n));
      } else if final == 0x45 {
        x, y := 0, Min(rows - 1, Wrap64(curY + n));
      } else if final == 0x46 {
        x, y := 0, Max(0, Wrap64(curY - n));
      } else if final == 0x64 {
        y := Clamp(n - 1, 0, rows - 1);
      } else if final == 0x48 || final == 0x66 {
        x, y := Clamp(m - 1, 0, cols - 1), Clamp(n - 1, 0, rows - 1);
      } else {
        x := Clamp(n - 1, 0, cols - 1);
      }
    }

    function ScrollTopBound(): int
      reads this
    {
      if curY >= scrollTop then scrollTop else 0
    }

    function ScrollBotBound(): int
      reads this
    {
      if curY <= scrollBot then scrollBot else rows - 1
    }

    method SetRegion(ps: seq<nat>)
      requires Valid()
      modifies this`scrollTop, this`scrollBot, this`curX, this`curY, this`wrapNext
      ensures View() == ScreenParser.SetRegion(old(View()), ps)
      ensures Valid()
    {
      assert 1 <= rows <= MAX_SIDE;
      hide Inv, Unaliased, Held, Grows, SavedScreenKept;
      var top := Clamp(Arg(ps, 0, 1) - 1, 0, rows - 1);
      var bot := Clamp(Arg(ps, 1, rows) - 1, 0, rows - 1);
      if top < bot {
        PutRegionHome(top, bot);
      }
    }

    method PutRegionHome(top: int, bot: int)
      requires Valid() && 0 <= top <= bot < rows <= MAX_SIDE
      modifies this`scrollTop, this`scrollBot, this`curX, this`curY, this`wrapNext
      ensures View() == old(View()).(scrollTop := top, scrollBot := bot, curX := 0, curY := top)
      ensures Valid()
    {
      hide Inv, Unaliased, Held;
      PutRegion(top, bot);
      PutCursor(0, top, wrapNext);
    }

    /** The rest of csi's switch: first what edits cells. */
    method EditCellsWith(final: byte, ps: seq<nat>)
      requires Valid() && EditReaches(View(), final, ps) && IsCellEdit(final)
      modifies this, Repr
      ensures View() == EditCells(old(View()), final, ps)
      ensures Valid() && fresh(Repr - old(Repr))
    {
      hide Inv, Unaliased, Held, Kept, OnlyGrid, EraseReaches, SliceReaches, Arg, ScreenModel.EraseDisplay,
        ScreenModel.EraseLine, ScreenModel.DeleteChars, ScreenModel.InsertChars, ScreenModel.EraseChars;
      match final
      case 0x4A => EraseDisplay(Arg(ps, 0, 0));
      case 0x4B => EraseLine(Arg(ps, 0, 0));
      case 0x50 => DeleteChars(Arg(ps, 0, 1));
      case 0x40 => InsertChars(Arg(ps, 0, 1));
      case _ => EraseChars(Arg(ps, 0, 1));
    }

    method EditLinesBy(final: byte, n: nat)
      requires Valid() && IsLineEdit(final)
      modifies this, Repr
      ensures View() == EditLines(old(View()), final, n)
      ensures Valid() && fresh(Repr - old(Repr))
    {
      hide Inv, Unaliased, Held, Kept, OnlyGrid, OnlyLines, ScreenModel.InsertLines, ScreenModel.DeleteLines,
        ScreenModel.ScrollUp, ScreenModel.ScrollDown;
      match final
      case 0x4C => InsertLines(n);
      case 0x4D => DeleteLines(n);
      case 0x53 => ScrollUp(n);
      case _ => ScrollDown(n);
    }

    method EditStateBy(final: byte, raw: seq<byte>)
      requires Valid()
      modifies this`curX, this`curY, this`wrapNext, this`savedX, this`savedY, this`savedStyle, this`scrollTop,
        this`scrollBot, this`style, this`styles, this`styleIndex
      ensures View() == EditState(old(View()), final, raw)
      ensures Valid()
    {
      hide Inv, Unaliased, Held, Kept, ScreenModel.Sgr, ScreenParser.SetRegion, ScreenModel.SaveCursor,
        ScreenModel.RestoreCursor;
      match final
      case 0x6D => Sgr(raw);
      case 0x72 => SetRegion(ParseParams(raw));
      case 0x73 => SaveCursor();
      case 0x75 => RestoreCursor();
      case _ =>
    }

    method EditWith(final: byte, raw: seq<byte>)
      requires Valid() && EditReaches(View(), final, ParseParams(raw))
      modifies this, Repr
      ensures View() == Edit(old(View()), final, raw)
      ensures Valid() && fresh(Repr - old(Repr))
    {
      hide Inv, Unaliased, Held, Kept, OnlyGrid, OnlyLines, EditCells, EditLines, EditState, EditReaches, ParseParams, Arg;
      if IsCellEdit(final) {
        EditCellsWith(final, ParseParams(raw));
      } else if IsLineEdit(final) {
        EditLinesBy(final, Arg(ParseParams(raw), 0, 1));
      } else {
        EditStateBy(final, raw);
      }
    }

    /** The final byte of a control sequence. */
    method CsiFinal(final: byte)
      requires Valid() && pending == []
      requires Private(params) || EditReaches(View(), final, ParseParams(Raw(params)))
      modifies this, Repr
      ensures View() == ControlSequence(old(View()), final)
      ensures Valid() && fresh(Repr - old(Repr))
    {
      hide Inv, Unaliased, Held, Lasting, SavedScreenKept, SetPrivateModes, Move, Edit, ParseParams, SwitchesScreen;
      var raw := if Private(params) then params[1..] else params;
      var ps := ParseParams(raw);
      if Private(params) {
        if final == 0x68 {
          SetModes(ps, true);
        } else if final == 0x6C {
          SetModes(ps, false);
        }
      } else if IsMove(final) {
        MoveCursor(final, ps);
      } else {
        EditWith(final, raw);
      }
      PutParser(Ground, [], []);
    }

    method EscapeByte(b: byte)
      requires Valid() && pending == []
      modifies this, Repr
      ensures View() == Escape(old(View()), b)
      ensures Valid() && fresh(Repr - old(Repr))
    {
      hide Inv, Unaliased, Held, Lasting, SavedScreenKept, EscapeCommand;
      PutParser(Ground, params, inter);
      if b == 0x5B {
        PutParser(Csi, [], []);
      } else if b == 0x5D {
        PutParser(Osc, [], inter);
      } else if b in {0x50, 0x58, 0x5E, 0x5F} {
        PutParser(Str, [], inter);
      } else if b in {0x28, 0x29, 0x2A, 0x2B} {
        PutParser(Charset, params, inter);
      } else {
        EscapeBy(b);
      }
    }

    /** The escapes that are commands of their own. */
    method EscapeBy(b: byte)
      requires Valid() && pending == []
      modifies this, Repr
      ensures View() == EscapeCommand(old(View()), b)
      ensures Valid() && fresh(Repr - old(Repr))
    {
      hide Inv, Unaliased, Held, Lasting, SavedScreenKept, ScreenModel.Index, ScreenModel.ReverseIndex, ScreenModel.Reset,
        ScreenModel.RestoreCursor, ScreenModel.SaveCursor;
      if b == 0x37 {
        SaveCursor();
      } else if b == 0x38 {
        RestoreCursor();
      } else if b == 0x44 {
        Index();
      } else if b == 0x4D {
        ReverseIndex();
      } else if b == 0x45 {
        PutCursor(0, curY, wrapNext);
        Index();
      } else if b == 0x63 {
        Reset();
      }
    }

    method EndString()
      requires Valid() && pending == []
      modifies this`title, this`state, this`params, this`inter
      ensures View() == FinishString(old(View()))
      ensures Valid()
    {
      hide Inv, Unaliased, Held, Lasting, SavedScreenKept, SetTitle;
      if state == Osc {
        SetTitleFrom(params);
      }
      PutParser(Ground, [], inter);
    }

    method FeedSequence(b: byte)
      requires Valid() && pending == [] && state == Csi && SequenceReaches(View(), b)
      modifies this, Repr
      ensures View() == InSequence(old(View()), b)
      ensures Valid() && fresh(Repr - old(Repr))
    {
      hide Inv, Unaliased, Held, Lasting, SavedScreenKept, ControlSequence, ScreenModel.Control, Fits, LeavesAlt;
      if 0x30 <= b <= 0x3F {
        PutParser(state, params + [b], inter);
      } else if 0x20 <= b <= 0x2F {
        PutParser(state, params, inter + [b]);
      } else if 0x40 <= b <= 0x7E {
        CsiFinal(b);
      } else if b == ESC {
        PutParser(Esc, [], []);
      } else {
        Control(b);
      }
    }

    method FeedString(b: byte)
      requires Valid() && pending == []
      modifies this`title, this`state, this`params, this`inter
      ensures View() == InString(old(View()), b)
      ensures Valid()
    {
      hide Inv, Unaliased, Held, Lasting, SavedScreenKept, FinishString;
      if b == BEL {
        EndString();
      } else if b == ESC {
        EndString();
        PutParser(Esc, params, inter);
      } else if state == Osc && |params| < MAX_OSC {
        PutParser(state, params + [b], inter);
      }
    }

    method FeedGround(b: byte)
      requires Valid() && pending == [] && (b >= 0x20 && b != 0x7F ==> PrintReaches(wide, View(), b))
      modifies this, Repr
      ensures View() == InGround(wide, old(View()), b)
      ensures Valid() && fresh(Repr - old(Repr))
    {
      hide Inv, Unaliased, Held, Lasting, SavedScreenKept, ScreenModel.Print, ScreenModel.Control;
      if b == ESC {
        PutParser(Esc, [], []);
      } else if b < 0x20 || b == 0x7F {
        Control(b);
      } else {
        Print(b);
      }
    }

    method FeedByte(b: byte)
      requires Valid() && pending == [] && ByteReaches(wide, View(), b)
      modifies this, Repr
      ensures View() == Feed(wide, old(View()), b)
      ensures Valid() && fresh(Repr - old(Repr))
    {
      hide Inv, Unaliased, Held, Lasting, SavedScreenKept, InGround, Escape, InSequence, InString, Fits, LeavesAlt;
      match state
      case Ground => FeedGround(b);
      case Esc => EscapeByte(b);
      case Csi => FeedSequence(b);
      case Osc => FeedString(b);
      case Str => FeedString(b);
      case Charset => PutParser(Ground, params, inter);
    }

    /** The screen without its rows: the cursor, the region, the modes and the parser. */
    function Bare(): Screen
      reads this
    {
      Screen(cols, rows, [], curX, curY, savedX, savedY, savedStyle, style, styles, styleIndex, scrollTop, scrollBot,
             wrapNext, autoWrap, [], maxScrollback, [], altActive, altCurX, altCurY, cursorHidden, title,
             pending, state, params, inter)
    }

    /** Whether the next round indexes what is there: the bounds check that Go makes, of the first index to fail. */
    predicate InRange(data: seq<byte>)
      requires data != []
      reads this
      ensures InRange(data) <==> Reaches(wide, View(), data)
    {
      Reaches(wide, Bare(), data)
    }

    /** One rune printed, or one byte through the parser. */
    method WriteNext(data: seq<byte>) returns (size: nat)
      requires Valid() && pending == [] && data != [] && Reaches(wide, View(), data)
      requires state.Ground? && data[0] >= 0x80 ==> FullRune(data)
      modifies this, Repr
      ensures View() == Next(wide, old(View()), data) && size == Taken(old(View()), data)
      ensures Valid() && fresh(Repr - old(Repr)) && pending == []
    {
      hide Inv, Unaliased, Held, Grows, SavedScreenKept, ScreenModel.Print, Feed, Fits, LeavesAlt, PrintReaches, ByteReaches;
      if state.Ground? && data[0] >= 0x80 {
        var (r, n) := DecodeRune(data);
        Print(r);
        return n;
      }
      FeedByte(data[0]);
      return 1;
    }

    /** Device output into the screen. The result says whether that went without a panic. */
    method WriteBytes(p: seq<byte>) returns (ok: bool)
      requires Valid()
      modifies this, Repr
      ensures ok <==> Write(wide, old(View()), p).Alive?
      ensures ok ==> View() == Write(wide, old(View()), p).screen
      ensures Valid() && fresh(Repr - old(Repr))
    {
      hide Inv, Unaliased, Held, Grows, SavedScreenKept, Next, Taken, CharPrefix, Followed, Undisturbed, Length, Run, Reaches;
      var data := pending + p;
      PutPending([]);
      var i := 0;
      ghost var start := View();
      assert data[0..] == data;
      while i < |data|
        invariant 0 <= i <= |data|
        invariant Valid() && fresh(Repr - old(Repr)) && pending == []
        invariant Run(wide, View(), data[i..]) == Run(wide, start, data)
        decreases |data| - i
      {
        RunUnfolds(wide, View(), data[i..]);
        if state.Ground? && data[i] >= 0x80 && !FullRune(data[i..]) {
          PutPending(data[i..]);
          return true;
        }
        if !InRange(data[i..]) {
          return false;
        }
        var size := WriteNext(data[i..]);
        assert data[i..][size..] == data[i + size..];
        i := i + size;
      }
      RunEnds(wide, View(), data[i..]);
      ok := true;
    }

    // ----- resizing -----

    method PutGridRows(g: seq<Row>, ghost lines: Lines)
      requires Unaliased() && Held()
      requires Distinct(g) && Apart(g, alt) && Apart(g, scrollback) && Shows(g, lines)
      modifies this`grid, this`gridLines, this`Repr
      ensures View() == old(View()).(grid := lines)
      ensures Unaliased() && Held() && Repr == old(Repr) + Rows(g) && grid == g
    {
      WithinRows(g, alt, scrollback, Repr);
      hide Distinct, Apart, Shows, Within, Rows;
      grid, gridLines, Repr := g, lines, Repr + Rows(g);
    }

    /** Rows that nothing else holds join the history, and the oldest ones go that exceed the cap. */
    method SpillRows(spilled: seq<Row>, ghost lines: Lines)
      requires Unaliased() && Held() && Shows(spilled, lines) && |scrollback| <= maxScrollback
      requires Distinct(spilled) && Apart(grid, spilled) && Apart(alt, spilled) && Apart(scrollback, spilled)
      modifies this`scrollback, this`historyLines, this`Repr
      ensures View() == old(View()).(scrollback :=
                if maxScrollback > 0 then Push(old(historyLines), lines, maxScrollback) else old(historyLines))
      ensures Unaliased() && Held() && Repr == old(Repr) + Rows(spilled)
    {
      WithinRows(spilled, grid, alt, Repr);
      PushedRows(grid, spilled, scrollback, alt, maxScrollback, Repr);
      PushShowsAll(scrollback, historyLines, spilled, lines, maxScrollback);
      hide Distinct, Apart, Shows, Within, Rows, Push;
      Repr := Repr + Rows(spilled);
      if maxScrollback > 0 {
        scrollback := AppendRows(spilled);
        historyLines := Push(historyLines, lines, maxScrollback);
      }
    }

    /** The history with more rows, and the oldest ones gone that exceed the cap. */
    method AppendRows(more: seq<Row>) returns (kept: seq<Row>)
      ensures kept == Push(scrollback, more, maxScrollback)
    {
      kept := scrollback;
      var i := 0;
      while i < |more|
        invariant 0 <= i <= |more|
        invariant kept == scrollback + more[..i]
      {
        kept := kept + [more[i]];
        i := i + 1;
      }
      assert more[..i] == more;
      if |kept| > maxScrollback {
        var cut := |kept| - maxScrollback;
        kept := kept[cut..];
      }
    }

    lemma Sized()
      requires Valid()
      ensures |scrollback| <= maxScrollback && (!altActive ==> alt == [])
      ensures Rows(grid) <= Repr && Rows(alt) <= Repr
    {
      assert Shows(alt, altLines) && Shows(scrollback, historyLines);
      assert Inv(View()) && !altActive ==> altLines == [];
    }

    /** Both grids cut or grown around their own cursors; what comes off the top of the primary one is history. */
    method ResizeRowsOf(newCols: int, newRows: int) returns (y: int64, savedY: int64)
      requires Valid() && newCols >= 1 && newRows >= 1
      modifies this`grid, this`gridLines, this`alt, this`altLines, this`scrollback, this`historyLines, this`Repr
      ensures View() == ResizedRows(old(View()), newCols, newRows)
      ensures y == RowAfter(old(gridLines), newRows, curY)
      ensures savedY == if altActive then RowAfter(old(altLines), newRows, altCurY) else altCurY
      ensures Unaliased() && Held() && fresh(Repr - old(Repr))
    {
      hide Inv, Distinct, Apart, Shows, Within, FromOr, Rows, ResizeGrid, ResizeLines, TopDrop, Push, StyledAll, Grows;
      Sized();
      ghost var old0 := Repr;
      var top, g;
      top, g, y := CutGrid(grid, newCols, newRows, curY, gridLines, Repr);
      FromApart(g, grid, alt, Repr);
      FromApart(g, grid, scrollback, Repr);
      FromApart(top, grid, alt, Repr);
      FromApart(top, grid, scrollback, Repr);
      ghost var topLines := ResizeLines(gridLines, newCols)[..TopDrop(gridLines, newRows, curY)];
      ghost var gl := gridLines;
      PutGridRows(g, ResizeGrid(gridLines, newCols, newRows, curY));
      if altActive {
        ghost var al := altLines;
        var a;
        top, a, savedY := CutGrid(alt, newCols, newRows, altCurY, altLines, Repr);
        FromApart(a, alt, grid, Repr);
        FromApart(a, alt, scrollback, Repr);
        FromApart(top, alt, grid, Repr);
        FromApart(top, alt, scrollback, Repr);
        topLines := ResizeLines(altLines, newCols)[..TopDrop(altLines, newRows, altCurY)];
        PutAltRows(a, ResizeGrid(altLines, newCols, newRows, altCurY));
      } else {
        savedY := altCurY;
      }
      SpillRows(top, topLines);
    }

    method PutSize(c: int, r: int)
      requires Unaliased() && Held()
      modifies this`cols, this`rows
      ensures View() == old(View()).(cols := c, rows := r)
      ensures Unaliased() && Held()
    {
      hide Distinct, Apart, Shows, Within;
      cols, rows := c, r;
    }

    method PutMargins(top: int, bot: int)
      requires Unaliased() && Held()
      modifies this`scrollTop, this`scrollBot
      ensures View() == old(View()).(scrollTop := top, scrollBot := bot)
      ensures Unaliased() && Held()
    {
      hide Distinct, Apart, Shows, Within;
      scrollTop, scrollBot := top, bot;
    }

    method PutPosition(x: int64, y: int64, wrap: bool)
      requires Unaliased() && Held()
      modifies this`curX, this`curY, this`wrapNext
      ensures View() == old(View()).(curX := x, curY := y, wrapNext := wrap)
      ensures Unaliased() && Held()
    {
      hide Unaliased, Held;
      PutSpot(x, y);
      PutWrap(wrap);
    }

    method PutSpot(x: int64, y: int64)
      requires Unaliased() && Held()
      modifies this`curX, this`curY
      ensures View() == old(View()).(curX := x, curY := y)
      ensures Unaliased() && Held()
    {
      hide Distinct, Apart, Shows, Within;
      curX, curY := x, y;
    }

    method PutWrap(wrap: bool)
      requires Unaliased() && Held()
      modifies this`wrapNext
      ensures View() == old(View()).(wrapNext := wrap)
      ensures Unaliased() && Held()
    {
      hide Distinct, Apart, Shows, Within;
      wrapNext := wrap;
    }

    method PutSavedCursor(x: int64, y: int64)
      requires Unaliased() && Held()
      modifies this`altCurX, this`altCurY
      ensures View() == old(View()).(altCurX := x, altCurY := y)
      ensures Unaliased() && Held()
    {
      hide Distinct, Apart, Shows, Within;
      altCurX, altCurY := x, y;
    }

    /** The new size, with the whole height as the region, and the cursors within it. */
    method Settle(c: int, r: int, y: int64, savedY: int64)
      requires Unaliased() && Held() && 1 <= c <= MAX_SIDE && 1 <= r <= MAX_SIDE
      modifies this`cols, this`rows, this`scrollTop, this`scrollBot, this`curX, this`curY, this`wrapNext, this`altCurX,
        this`altCurY
      ensures View() == Settled(old(View()), c, r, y, savedY)
      ensures Unaliased() && Held()
    {
      hide Unaliased, Held;
      if altActive {
        PutSavedCursor(Clamp(altCurX, 0, c - 1), Clamp(savedY, 0, r - 1));
      }
      PutSize(c, r);
      PutMargins(0, r - 1);
      PutPosition(Clamp(curX, 0, c - 1), Clamp(y, 0, r - 1), false);
    }

    method Resize(newCols: int, newRows: int)
      requires Valid() && newCols <= MAX_SIDE && newRows <= MAX_SIDE
      modifies this
      ensures View() == ScreenModel.Resize(old(View()), newCols, newRows)
      ensures Valid() && fresh(Repr - old(Repr))
    {
      var c, r := Max(newCols, 1), Max(newRows, 1);
      if c == cols && r == rows {
        return;
      }
      assert c <= MAX_SIDE && r <= MAX_SIDE;
      hide Inv, Unaliased, Held, ResizedRows, RowAfter, Grows, Settled;
      var y, savedY := ResizeRowsOf(c, r);
      Settle(c, r, y, savedY);
    }
  }

  // ----- rows of a new width -----

  /** Every row is one of these or one that did not exist. */
  predicate FromOr(rows: seq<Row>, g: seq<Row>, repr: set<Row>) {
    forall i :: 0 <= i < |rows| ==> rows[i] in g || rows[i] !in repr
  }

  lemma FromApart(rows: seq<Row>, g: seq<Row>, other: seq<Row>, repr: set<Row>)
    requires FromOr(rows, g, repr) && Within(other, repr) && (Apart(g, other) || Apart(other, g))
    ensures Apart(rows, other) && Apart(other, rows)
  {
  }

  /** A list of rows that has left the grid joins the history. */
  lemma PushedRows(r: seq<Row>, rows: seq<Row>, history: seq<Row>, alt: seq<Row>, cap: nat, repr: set<Row>)
    requires Apart(r, history) && Apart(r, rows) && Distinct(history) && Distinct(rows) && Apart(history, rows)
    requires Apart(alt, history) && Apart(alt, rows) && Within(history, repr)
    ensures var h := Push(history, rows, cap);
            Apart(r, h) && Distinct(h) && Apart(alt, h) && Within(h, repr + Rows(rows))
    ensures Within(history, repr + Rows(rows))
  {
    var all := history + rows;
    assert Apart(r, all) && Distinct(all) && Apart(alt, all) && Within(all, repr + Rows(rows));
  }

  lemma PushShowsAll(history: seq<Row>, lines: Lines, rows: seq<Row>, more: Lines, cap: nat)
    requires Shows(history, lines) && Shows(rows, more)
    ensures Shows(Push(history, rows, cap), Push(lines, more, cap))
  {
  }

  /** A row of the new width: the same one when it fits, else a new one, cut or padded. */
  method ResizeRow(l: Row, cols: nat) returns (r: Row)
    ensures r[..] == ResizeLine(l[..], cols) && (r == l || fresh(r))
  {
    if cols == l.Length {
      return l;
    }
    r := new Cell[cols](_ => BLANK);
    forall x | 0 <= x < cols && x < l.Length {
      r[x] := l[x];
    }
  }

  method ResizeRows(g: seq<Row>, cols: nat, ghost lines: Lines, ghost repr: set<Row>) returns (r: seq<Row>)
    requires Distinct(g) && Shows(g, lines) && Within(g, repr)
    ensures Shows(r, ResizeLines(lines, cols)) && Distinct(r)
    ensures forall y :: 0 <= y < |r| ==> r[y] == g[y] || (fresh(r[y]) && r[y] !in repr)
  {
    r := [];
    while |r| < |g|
      invariant |r| <= |g| && Distinct(r)
      invariant forall y :: 0 <= y < |r| ==> r[y] == g[y] || (fresh(r[y]) && r[y] !in repr)
      invariant forall y :: 0 <= y < |r| ==> r[y][..] == ResizeLine(lines[y], cols)
    {
      var row := ResizeRow(g[|r|], cols);
      r := r + [row];
    }
  }

  /** Cutting a list of distinct rows leaves two that have nothing in common. */
  lemma CutRows(r: seq<Row>, lines: Lines, drop: nat, n: nat)
    requires Distinct(r) && Shows(r, lines) && drop + n <= |r|
    ensures Distinct(r[..drop]) && Distinct(r[drop..drop + n]) && Apart(r[drop..drop + n], r[..drop])
    ensures Shows(r[..drop], lines[..drop]) && Shows(r[drop..drop + n], lines[drop..drop + n])
  {
  }

  lemma GrownRows(r: seq<Row>, lines: Lines, more: seq<Row>, moreLines: Lines)
    requires Distinct(r) && Shows(r, lines) && Distinct(more) && Shows(more, moreLines) && Apart(r, more)
    ensures Distinct(r + more) && Shows(r + more, lines + moreLines) && Shows([], lines[..0]) && Distinct<Row>([])
  {
  }

  lemma SameLength(r: seq<Row>, g: seq<Row>, lines: Lines, cols: nat)
    requires Shows(r, ResizeLines(lines, cols)) && Shows(g, lines)
    ensures |r| == |g| == |lines|
  {
  }

  /** What resizing a grid comes to: blank rows below, or rows off the top and the bottom. */
  lemma CutOf(lines: Lines, cols: nat, rows: nat, curY: int64)
    ensures rows > |lines| ==>
              && TopDrop(lines, rows, curY) == 0 && RowAfter(lines, rows, curY) == curY
              && ResizeGrid(lines, cols, rows, curY) == ResizeLines(lines, cols) + NewGrid(cols, rows - |lines|)
    ensures rows <= |lines| ==>
              var drop := if rows < |lines| then Clamp(Wrap64(curY - rows + 1), 0, |lines| - rows) else 0;
              && TopDrop(lines, rows, curY) == drop && RowAfter(lines, rows, curY) == Wrap64(curY - drop)
              && ResizeGrid(lines, cols, rows, curY) == ResizeLines(lines, cols)[drop..drop + rows]
  {
    hide ResizeLines;
  }

  /** resizeGrid: the rows that come off the top, the rows that stay, and the cursor row among them. */
  method CutGrid(g: seq<Row>, cols: int, rows: int, curY: int64, ghost lines: Lines, ghost repr: set<Row>)
    returns (top: seq<Row>, kept: seq<Row>, y: int)
    requires Distinct(g) && Shows(g, lines) && Within(g, repr) && cols >= 1 && rows >= 1
    ensures Shows(top, ResizeLines(lines, cols)[..TopDrop(lines, rows, curY)]) && Shows(kept, ResizeGrid(lines, cols, rows, curY))
    ensures Distinct(top) && Distinct(kept) && Apart(kept, top) && FromOr(top, g, repr) && FromOr(kept, g, repr)
    ensures fresh(Rows(top) - Rows(g)) && fresh(Rows(kept) - Rows(g))
    ensures y == RowAfter(lines, rows, curY)
  {
    hide ResizeLine, ResizeLines, ResizeGrid, TopDrop, RowAfter, Distinct, Shows, Within, NewGrid, Wrap64;
    var r := ResizeRows(g, cols, lines, repr);
    assert |r| == |g| == |lines| by {
      SameLength(r, g, lines, cols);
    }
    assert forall i :: 0 <= i < |g| ==> g[i] in Rows(g);
    CutOf(lines, cols, rows, curY);
    if rows > |r| {
      var more := MakeGrid(cols, rows - |r|);
      GrownRows(r, ResizeLines(lines, cols), more, NewGrid(cols, rows - |r|));
      return [], r + more, curY;
    }
    var drop := if rows < |r| then Clamp(Wrap64(curY - rows + 1), 0, |r| - rows) else 0;
    CutRows(r, ResizeLines(lines, cols), drop, rows);
    TakeOfDrop(r, drop, rows);
    top, kept, y := r[..drop], r[drop..][..rows], Wrap64(curY - drop);
  }

  lemma RunEnds(wide: nat -> nat, s: Screen, data: seq<byte>)
    requires Inv(s) && s.pending == [] && data == []
    ensures Run(wide, s, data) == Alive(s)
  {
  }

  /** One round of Run, with the pieces named as the loop has them. */
  lemma RunUnfolds(wide: nat -> nat, s: Screen, data: seq<byte>)
    requires Inv(s) && s.pending == [] && data != []
    ensures Incomplete(s, data) ==>
              Run(wide, s, data) == Alive(s.(pending := data)) && CharPrefix(data) && |data| < Length(data[0])
    ensures !Incomplete(s, data) && !Reaches(wide, s, data) ==> Run(wide, s, data) == Panicked
    ensures !Incomplete(s, data) && Reaches(wide, s, data) ==>
              var t := Next(wide, s, data);
              Inv(t) && t.pending == [] && Run(wide, s, data) == Run(wide, t, data[Taken(s, data)..])
  {
    hide Inv, Grows, SavedScreenKept, Next, Followed, Undisturbed, CharPrefix, Reaches, Taken, Fits, LeavesAlt;
  }

  /** What the first field of the rest contributes, when a semicolon ends it. */
  lemma NextField(spec: seq<byte>, start: nat, i: nat)
    requires start <= i < |spec| && SEMICOLON !in spec[start..i] && spec[i] == SEMICOLON
    ensures LastReset(spec[start..]) ==
            if LastReset(spec[i + 1..]) >= 0 then i + 1 - start + LastReset(spec[i + 1..])
            else if IsReset(spec[start..i]) then 0 else -1
  {
    var rest := spec[start..];
    assert rest[..i - start] == spec[start..i] && rest[i - start + 1..] == spec[i + 1..];
    FirstAt(rest, SEMICOLON, i - start);
  }

  lemma LastField(rest: seq<byte>)
    requires SEMICOLON !in rest
    ensures LastReset(rest) == if IsReset(rest) then 0 else -1
  {
  }
}
