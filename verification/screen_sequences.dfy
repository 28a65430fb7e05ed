/**
What a terminal makes of the bytes it is sent: for each control sequence, escape and control of term/screen.go, and for text,
the whole screen that writing it leaves, said without the functions that compute it.
*/
module ScreenSequences {
  import opened Wrappers
  import opened Utf8
  import opened ScreenModel
  import opened ScreenParser
  import opened ScreenLaws

  // ----- sequences spelled out -----

  /** A parameter: a number in decimal, or none, and perhaps a colon and more behind it, which counts for nothing. */
  datatype Field = Field(number: Option<nat>, more: Option<seq<byte>>)

  function Plain(n: nat): Field {
    Field(Some(n), None)
  }

  predicate IsMore(more: seq<byte>) {
    forall i :: 0 <= i < |more| ==> 0x30 <= more[i] <= 0x3A
  }

  function SpellField(f: Field): (raw: seq<byte>)
    ensures forall i :: 0 <= i < |raw| ==> 0x30 <= raw[i] <= 0x3A
  {
    (if f.number.Some? then Spell(f.number.value) else [])
    + if f.more.Some? && IsMore(f.more.value) then [COLON] + f.more.value else []
  }

  /** Parameters with semicolons between. */
  function Numbers(ps: seq<Field>): (raw: seq<byte>)
    ensures forall i :: 0 <= i < |raw| ==> 0x30 <= raw[i] <= 0x3B
  {
    if ps == [] then []
    else if |ps| == 1 then SpellField(ps[0])
    else SpellField(ps[0]) + [SEMICOLON] + Numbers(ps[1..])
  }

  /** ESC [, the parameters, and the final byte. */
  function Spelled(ps: seq<Field>, final: byte): seq<byte> {
    [ESC, 0x5B] + Numbers(ps) + [final]
  }

  /** What a parameter is read as: without a number, or with one beyond 64 bits, it counts for 0. */
  function Reading(f: Field): (n: nat)
    ensures n <= MAX_INT
  {
    if f.number.Some? && f.number.value <= MAX_INT then f.number.value else 0
  }

  /** What the parameters are read as; a lone one that is empty is none. */
  function Readings(ps: seq<Field>): (rs: seq<nat>)
    ensures |rs| == (if Numbers(ps) == [] then 0 else |ps|) && forall i :: 0 <= i < |rs| ==> rs[i] == Reading(ps[i])
    ensures rs == [] ==> |ps| <= 1 && (ps != [] ==> Reading(ps[0]) == 0)
  {
    if Numbers(ps) == [] then [] else seq(|ps|, i requires 0 <= i < |ps| => Reading(ps[i]))
  }

  /** The count that a sequence is given: 1 where there is none, or 0. */
  function Count(ps: seq<Field>, i: nat): (n: nat)
    ensures 1 <= n <= MAX_INT
  {
    if i < |ps| then Max(Reading(ps[i]), 1) else 1
  }

  function Spellings(ps: seq<Field>): (fs: seq<seq<byte>>)
    ensures |fs| == |ps| && forall i :: 0 <= i < |ps| ==> fs[i] == SpellField(ps[i])
  {
    seq(|ps|, i requires 0 <= i < |ps| => SpellField(ps[i]))
  }

  lemma {:induction false} FieldsOfNumbers(ps: seq<Field>)
    requires ps != []
    ensures Fields(Numbers(ps)) == Spellings(ps)
  {
    hide SpellField, IndexOf;
    var f := SpellField(ps[0]);
    assert SEMICOLON !in f;
    if |ps| == 1 {
      NoSemicolon(f);
      assert Spellings(ps) == [f];
    } else {
      var rest := Numbers(ps[1..]);
      var raw := f + [SEMICOLON] + rest;
      assert raw[..|f|] == f && raw[|f|] == SEMICOLON && raw[|f| + 1..] == rest;
      FirstAt(raw, SEMICOLON, |f|);
      FieldsOfNumbers(ps[1..]);
      assert Spellings(ps) == [f] + Spellings(ps[1..]);
    }
  }

  lemma NoSemicolon(f: seq<byte>)
    requires SEMICOLON !in f
    ensures Fields(f) == [f]
  {
  }

  lemma FieldRead(f: Field)
    ensures Param(SpellField(f)) == Reading(f)
  {
    var digits := if f.number.Some? then Spell(f.number.value) else [];
    var raw := SpellField(f);
    assert COLON !in digits;
    if f.number.Some? { DecimalSpell(f.number.value); }
    hide Spell, Decimal;
    if f.more.Some? && IsMore(f.more.value) {
      assert raw[..|digits|] == digits && raw[|digits|] == COLON;
      FirstAt(raw, COLON, |digits|);
    } else {
      assert raw == digits;
    }
  }

  /** Spelled parameters are read back, one by one. */
  lemma NumbersRead(ps: seq<Field>)
    ensures ParseParams(Numbers(ps)) == Readings(ps)
    ensures !Private(Numbers(ps)) && Raw(Numbers(ps)) == Numbers(ps)
  {
    hide SpellField, Fields, Param;
    if Numbers(ps) == [] {
      assert Readings(ps) == [];
    } else {
      FieldsOfNumbers(ps);
      forall i | 0 <= i < |ps|
        ensures Params(Spellings(ps))[i] == Reading(ps[i])
      {
        FieldRead(ps[i]);
      }
      assert Params(Spellings(ps)) == Readings(ps);
    }
  }

  /** The screen with whatever the parser was reading cut short, and nothing else changed. */
  function Quiet(s: Screen): (q: Screen)
    requires Inv(s) && s.pending == []
    ensures Inv(q) && q.pending == [] && q.state == Ground
    ensures q == s.(title := q.title, state := Ground, params := [], inter := [])
    ensures !s.state.Osc? ==> q.title == s.title
  {
    Parsing(CutShort(s), Ground, [], [])
  }

  /** A terminal that is not in the middle of a character or an escape. */
  predicate Listens(s: Screen) {
    Inv(s) && s.pending == [] && HearsEscape(s.state)
  }

  function Before(s: Screen, raw: seq<byte>): (t: Screen)
    requires Inv(s) && s.pending == []
    ensures Inv(t) && t.pending == [] && t.params == raw && t.state == ParseState.Csi
    ensures t == Quiet(s).(state := ParseState.Csi, params := raw)
  {
    InCsi(CutShort(s), raw)
  }

  lemma Heard(wide: nat -> nat, s: Screen, ps: seq<Field>, final: byte)
    requires Listens(s) && 0x40 <= final <= 0x7E
    ensures ParseParams(Numbers(ps)) == Readings(ps)
    ensures var t := Before(s, Numbers(ps));
            Write(wide, s, Spelled(ps, final)) ==
            if EditReaches(t, final, Readings(ps)) then Alive(Parsing(PlainSequence(t, final, Numbers(ps)), Ground, [], []))
            else Panicked
  {
    hide Inv, Grows, SavedScreenKept, Run, Write, Numbers, ParseParams, Params, PlainSequence, PrivateSequence, EditReaches;
    NumbersRead(ps);
    Unpended(wide, s, Spelled(ps, final));
    RunSequence(wide, s, Numbers(ps), final);
  }

  // ----- cursor motions -----

  /** The quiet screen with the cursor elsewhere. */
  function Moved(s: Screen, x: int64, y: int64, wrap: bool): (r: Screen)
    requires Inv(s) && s.pending == []
    ensures Listens(r) && r == s.(title := r.title, state := Ground, params := [], inter := [], curX := x, curY := y, wrapNext := wrap)
    ensures r == Quiet(s).(curX := x, curY := y, wrapNext := wrap)
  {
    CursorAt(Quiet(s), x, y, wrap)
  }

  lemma MotionHeard(wide: nat -> nat, s: Screen, ps: seq<Field>, final: byte)
    requires Listens(s) && IsMove(final)
    ensures Write(wide, s, Spelled(ps, final)) ==
            Alive(Moved(s, TargetX(s, final, Count(ps, 0), Count(ps, 1)), TargetY(s, final, Count(ps, 0)),
                        s.wrapNext && final in {0x45, 0x46}))
  {
    hide Inv, Grows, SavedScreenKept, Write, Numbers, ParseParams, Readings;
    Heard(wide, s, ps, final);
    SameTarget(s, Before(s, Numbers(ps)), final, Count(ps, 0), Count(ps, 1));
    hide TargetX, TargetY;
  }

  lemma SameTarget(s: Screen, t: Screen, final: byte, n: nat, m: nat)
    requires Inv(s) && Inv(t) && IsMove(final) && n <= MAX_INT
    requires t == s.(title := t.title, state := t.state, params := t.params, inter := t.inter)
    ensures TargetX(t, final, n, m) == TargetX(s, final, n, m) && TargetY(t, final, n) == TargetY(s, final, n)
  {
    hide Inv;
  }

  /** CUP and HVP: row first, then column, both from 1, and no further than the last; from anywhere. */
  lemma PositionMoves(wide: nat -> nat, s: Screen, ps: seq<Field>, final: byte)
    requires Listens(s) && final in {0x48, 0x66}
    ensures Write(wide, s, Spelled(ps, final)) ==
            Alive(Moved(s, Min(Count(ps, 1), s.cols) - 1, Min(Count(ps, 0), s.rows) - 1, false))
  {
    hide Inv, Grows, SavedScreenKept, Write, Spelled, Moved;
    MotionHeard(wide, s, ps, final);
    RowCount(s);
  }

  /** CHA, HPA and VPA are that in one coordinate. */
  lemma ColumnMoves(wide: nat -> nat, s: Screen, ps: seq<Field>, final: byte)
    requires Listens(s) && final in {0x47, 0x60}
    ensures Write(wide, s, Spelled(ps, final)) == Alive(Moved(s, Min(Count(ps, 0), s.cols) - 1, s.curY, false))
  {
    hide Inv, Grows, SavedScreenKept, Write, Spelled, Moved;
    MotionHeard(wide, s, ps, final);
    RowCount(s);
  }

  lemma RowMoves(wide: nat -> nat, s: Screen, ps: seq<Field>)
    requires Listens(s)
    ensures Write(wide, s, Spelled(ps, 0x64)) == Alive(Moved(s, s.curX, Min(Count(ps, 0), s.rows) - 1, false))
  {
    hide Inv, Grows, SavedScreenKept, Write, Spelled, Moved;
    MotionHeard(wide, s, ps, 0x64);
    RowCount(s);
  }

  /** The row that stops a motion up: the top of the region for a cursor in or below it, else that of the screen. */
  function Ceiling(s: Screen): int {
    if s.curY >= s.scrollTop then s.scrollTop else 0
  }

  function Floor(s: Screen): int {
    if s.curY <= s.scrollBot then s.scrollBot else s.rows - 1
  }

  /** CUU goes up by its count, no further than to the ceiling. */
  lemma UpMoves(wide: nat -> nat, s: Screen, ps: seq<Field>)
    requires Listens(s) && OnScreen(s)
    ensures Write(wide, s, Spelled(ps, 0x41)) ==
            Alive(Moved(s, s.curX, Max(s.curY - Count(ps, 0), Ceiling(s)), false))
  {
    hide Inv, Grows, SavedScreenKept, Write, Spelled, Moved;
    MotionHeard(wide, s, ps, 0x41);
    RowCount(s);
  }

  /** CUD goes down by its count, no further than to the floor, as long as the sum is one of 64 bits. */
  lemma DownMoves(wide: nat -> nat, s: Screen, ps: seq<Field>)
    requires Listens(s) && OnScreen(s) && s.curY + Count(ps, 0) <= MAX_INT
    ensures Write(wide, s, Spelled(ps, 0x42)) ==
            Alive(Moved(s, s.curX, Min(s.curY + Count(ps, 0), Floor(s)), false))
  {
    hide Inv, Grows, SavedScreenKept, Write, Spelled, Moved;
    MotionHeard(wide, s, ps, 0x42);
    RowCount(s);
  }

  lemma RightMoves(wide: nat -> nat, s: Screen, ps: seq<Field>)
    requires Listens(s) && OnScreen(s) && s.curX + Count(ps, 0) <= MAX_INT
    ensures Write(wide, s, Spelled(ps, 0x43)) ==
            Alive(Moved(s, Min(s.curX + Count(ps, 0), s.cols - 1), s.curY, false))
  {
    hide Inv, Grows, SavedScreenKept, Write, Spelled, Moved;
    MotionHeard(wide, s, ps, 0x43);
    RowCount(s);
  }

  lemma LeftMoves(wide: nat -> nat, s: Screen, ps: seq<Field>)
    requires Listens(s) && OnScreen(s)
    ensures Write(wide, s, Spelled(ps, 0x44)) ==
            Alive(Moved(s, Max(s.curX - Count(ps, 0), 0), s.curY, false))
  {
    hide Inv, Grows, SavedScreenKept, Write, Spelled, Moved;
    MotionHeard(wide, s, ps, 0x44);
    RowCount(s);
  }

  /** CNL and CPL go to the first column of a row below or above, past the region's ends too; a wrap to come stays so. */
  lemma NextLineMoves(wide: nat -> nat, s: Screen, ps: seq<Field>)
    requires Listens(s) && OnScreen(s) && s.curY + Count(ps, 0) <= MAX_INT
    ensures Write(wide, s, Spelled(ps, 0x45)) ==
            Alive(Moved(s, 0, Min(s.curY + Count(ps, 0), s.rows - 1), s.wrapNext))
  {
    hide Inv, Grows, SavedScreenKept, Write, Spelled, Moved;
    MotionHeard(wide, s, ps, 0x45);
    RowCount(s);
  }

  lemma PreviousLineMoves(wide: nat -> nat, s: Screen, ps: seq<Field>)
    requires Listens(s) && OnScreen(s)
    ensures Write(wide, s, Spelled(ps, 0x46)) ==
            Alive(Moved(s, 0, Max(s.curY - Count(ps, 0), 0), s.wrapNext))
  {
    hide Inv, Grows, SavedScreenKept, Write, Spelled, Moved;
    MotionHeard(wide, s, ps, 0x46);
    RowCount(s);
  }

  /** Down undoes up unless the ceiling stopped it, or the floor of a region that was entered from below stops the way back. */
  lemma DownUndoesUp(wide: nat -> nat, s: Screen, n: nat)
    requires Listens(s) && OnScreen(s) && 1 <= n <= MAX_INT && s.curY - n >= Ceiling(s)
    ensures Write(wide, s, Spelled([Plain(n)], 0x41) + Spelled([Plain(n)], 0x42)) ==
            Alive(Moved(s, s.curX, if s.curY - n <= s.scrollBot then Min(s.curY, s.scrollBot) else s.curY, false))
  {
    hide Inv, Grows, SavedScreenKept, Write, WriteFollowed, WriteUndisturbed, Spelled, Moved, Listens, Lasting;
    UpFits(s, n);
    UpMoves(wide, s, [Plain(n)]);
    WriteConcat(wide, s, Spelled([Plain(n)], 0x41), Spelled([Plain(n)], 0x42));
    var t := Moved(s, s.curX, s.curY - n, false);
    DownMoves(wide, t, [Plain(n)]);
    MovedTwice(s, s.curX, s.curY - n, s.curX, Min(s.curY, Floor(t)));
  }

  lemma UpFits(s: Screen, n: nat)
    requires Listens(s) && OnScreen(s) && 1 <= n <= MAX_INT && s.curY - n >= Ceiling(s)
    ensures Count([Plain(n)], 0) == n && s.curY - n >= 0 && s.curY <= MAX_INT && s.curY < s.rows
    ensures Inv(s) && s.pending == [] && OnScreen(Moved(s, s.curX, s.curY - n, false))
  {
    hide Grows, SavedScreenKept;
  }

  lemma LeftUndoesRight(wide: nat -> nat, s: Screen, n: nat)
    requires Listens(s) && OnScreen(s) && 1 <= n && s.curX + n < s.cols
    ensures Write(wide, s, Spelled([Plain(n)], 0x43) + Spelled([Plain(n)], 0x44)) == Alive(Moved(s, s.curX, s.curY, false))
  {
    hide Inv, Grows, SavedScreenKept, Write, WriteFollowed, WriteUndisturbed, Spelled, Moved, Lasting;
    RowCount(s);
    assert Count([Plain(n)], 0) == n;
    RightMoves(wide, s, [Plain(n)]);
    WriteConcat(wide, s, Spelled([Plain(n)], 0x43), Spelled([Plain(n)], 0x44));
    LeftMoves(wide, Moved(s, s.curX + n, s.curY, false), [Plain(n)]);
    MovedTwice(s, s.curX + n, s.curY, s.curX, s.curY);
  }

  lemma MovedTwice(s: Screen, x: int64, y: int64, x': int64, y': int64)
    requires Listens(s)
    ensures Moved(Moved(s, x, y, false), x', y', false) == Moved(s, x', y', false)
  {
    hide Inv;
  }

  // ----- rows and cells -----

  /** A sequence whose effect is on the grid alone: the screen it leaves is the quiet one, with these rows. */
  predicate Leaves(s: Screen, o: Outcome)
    requires Inv(s) && s.pending == []
  {
    o.Alive? && o.screen == Quiet(s).(grid := o.screen.grid) && |o.screen.grid| == s.rows
  }

  predicate LeavesLines(s: Screen, o: Outcome)
    requires Inv(s) && s.pending == []
  {
    && o.Alive? && o.screen == Quiet(s).(grid := o.screen.grid, scrollback := o.screen.scrollback)
    && |o.screen.grid| == s.rows
  }

  lemma LineEditHeard(wide: nat -> nat, s: Screen, ps: seq<Field>, final: byte)
    requires Listens(s) && IsLineEdit(final)
    ensures var t := Before(s, Numbers(ps));
            Write(wide, s, Spelled(ps, final)) == Alive(Parsing(EditLines(t, final, Count(ps, 0)), Ground, [], []))
  {
    hide Inv, Grows, SavedScreenKept, Write, Numbers, ParseParams, Readings, EditLines;
    Heard(wide, s, ps, final);
  }

  /** Row y once n lines came in above the cursor's, or once the cursor's and those behind it have gone. */
  function RowInserted(s: Screen, n: nat, y: int): Line
    requires Inv(s) && 0 <= y < s.rows
  {
    if CursorInRegion(s) then MovedDown(s.grid, s.curY, s.scrollBot, n, y, Blanks(s.cols)) else s.grid[y]
  }

  function RowDeleted(s: Screen, n: nat, y: int): Line
    requires Inv(s) && 0 <= y < s.rows
  {
    if CursorInRegion(s) then MovedUp(s.grid, s.curY, s.scrollBot, n, y, Blanks(s.cols)) else s.grid[y]
  }

  /** IL moves the rows from the cursor to the end of the region down, DL up; blank ones come in. */
  lemma InsertLinesMove(wide: nat -> nat, s: Screen, ps: seq<Field>)
    requires Listens(s)
    ensures var o := Write(wide, s, Spelled(ps, 0x4C));
            Leaves(s, o) && forall y :: 0 <= y < s.rows ==>
              o.screen.grid[y] == RowInserted(s, Count(ps, 0), y)
  {
    hide Inv, Grows, SavedScreenKept, Write, Numbers, InsertLines, MovedDown, WriteFollowed, WriteUndisturbed, Before;
    LineEditHeard(wide, s, ps, 0x4C);
    var t := Before(s, Numbers(ps));
    RowCount(t);
    RowCount(InsertLines(t, Count(ps, 0)));
    forall y | 0 <= y < s.rows
      ensures InsertLines(t, Count(ps, 0)).grid[y] == RowInserted(s, Count(ps, 0), y)
    {
      InsertLinesRows(t, Count(ps, 0), y);
    }
  }

  lemma DeleteLinesMove(wide: nat -> nat, s: Screen, ps: seq<Field>)
    requires Listens(s)
    ensures var o := Write(wide, s, Spelled(ps, 0x4D));
            Leaves(s, o) && forall y :: 0 <= y < s.rows ==>
              o.screen.grid[y] == RowDeleted(s, Count(ps, 0), y)
  {
    hide Inv, Grows, SavedScreenKept, Write, Numbers, DeleteLines, MovedUp, WriteFollowed, WriteUndisturbed, Before;
    LineEditHeard(wide, s, ps, 0x4D);
    var t := Before(s, Numbers(ps));
    RowCount(t);
    RowCount(DeleteLines(t, Count(ps, 0)));
    forall y | 0 <= y < s.rows
      ensures DeleteLines(t, Count(ps, 0)).grid[y] == RowDeleted(s, Count(ps, 0), y)
    {
      DeleteLinesRows(t, Count(ps, 0), y);
    }
  }

  lemma RowCount(s: Screen)
    requires Inv(s)
    ensures |s.grid| == s.rows && 0 <= s.scrollTop <= s.scrollBot < s.rows <= MAX_SIDE && 1 <= s.cols <= MAX_SIDE
  {
  }

  /** SU moves the rows of the region up, SD down. */
  lemma ScrollUpMoves(wide: nat -> nat, s: Screen, ps: seq<Field>)
    requires Listens(s)
    ensures var o := Write(wide, s, Spelled(ps, 0x53));
            && LeavesLines(s, o)
            && (forall y :: 0 <= y < s.rows ==>
                  o.screen.grid[y] == MovedUp(s.grid, s.scrollTop, s.scrollBot, Count(ps, 0), y, Blanks(s.cols)))
            && |o.screen.scrollback| ==
               if Remembers(s) then Min(|s.scrollback| + Count(ps, 0), s.maxScrollback) else |s.scrollback|
  {
    hide Inv, Grows, SavedScreenKept, Lasting, Write, WriteFollowed, WriteUndisturbed, Numbers, ScrollUp, MovedUp, Before, Remembers;
    LineEditHeard(wide, s, ps, 0x53);
    ScrolledUp(s, Before(s, Numbers(ps)), Count(ps, 0));
  }

  lemma ScrolledUp(s: Screen, t: Screen, n: nat)
    requires Inv(s) && Inv(t) && t == s.(title := t.title, state := t.state, params := t.params, inter := t.inter)
    ensures var r := ScrollUp(t, n);
            && |r.grid| == s.rows
            && (forall y :: 0 <= y < s.rows ==>
                  r.grid[y] == MovedUp(s.grid, s.scrollTop, s.scrollBot, n, y, Blanks(s.cols)))
            && |r.scrollback| == if Remembers(s) then Min(|s.scrollback| + n, s.maxScrollback) else |s.scrollback|
  {
    hide Inv, Grows, SavedScreenKept, ScrollUp, MovedUp;
    RowCount(t);
    RowCount(ScrollUp(t, n));
    if Remembers(s) { ScrollUpLength(t, n); } else { ScrollUpForgets(t, n); }
    forall y | 0 <= y < s.rows
      ensures ScrollUp(t, n).grid[y] == MovedUp(s.grid, s.scrollTop, s.scrollBot, n, y, Blanks(s.cols))
    {
      ScrollUpRows(t, n, y);
    }
  }

  lemma {:induction false} ScrollUpForgets(s: Screen, n: nat)
    requires Inv(s) && !Remembers(s)
    ensures ScrollUp(s, n).scrollback == s.scrollback
    decreases n
  {
    hide Inv, Grows, SavedScreenKept, Raise;
    if n > 0 { ScrollUpForgets(ScrollUp1(s), n - 1); }
  }

  lemma ScrollDownMoves(wide: nat -> nat, s: Screen, ps: seq<Field>)
    requires Listens(s)
    ensures var o := Write(wide, s, Spelled(ps, 0x54));
            Leaves(s, o) && forall y :: 0 <= y < s.rows ==>
              o.screen.grid[y] == MovedDown(s.grid, s.scrollTop, s.scrollBot, Count(ps, 0), y, Blanks(s.cols))
  {
    hide Inv, Grows, SavedScreenKept, Write, Numbers, ScrollDown, MovedDown, WriteFollowed, WriteUndisturbed, Before;
    LineEditHeard(wide, s, ps, 0x54);
    var t, n := Before(s, Numbers(ps)), Count(ps, 0);
    RowCount(t);
    RowCount(ScrollDown(t, n));
    forall y | 0 <= y < s.rows
      ensures ScrollDown(t, n).grid[y] == MovedDown(s.grid, s.scrollTop, s.scrollBot, n, y, Blanks(s.cols))
    {
      ScrollDownRows(t, n, y);
    }
  }

  /** The mode that ED and EL are given: 0 where there is none. */
  function ModeOf(ps: seq<Field>): (mode: nat) {
    if ps == [] then 0 else Reading(ps[0])
  }

  lemma CellEditHeard(wide: nat -> nat, s: Screen, ps: seq<Field>, final: byte)
    requires Listens(s) && OnScreen(s) && IsCellEdit(final)
    ensures EditReaches(Before(s, Numbers(ps)), final, Readings(ps))
    ensures var r := EditCells(Before(s, Numbers(ps)), final, Readings(ps));
            && Write(wide, s, Spelled(ps, final)) == Alive(Parsing(r, Ground, [], []))
            && Leaves(s, Alive(Parsing(r, Ground, [], []))) && Parsing(r, Ground, [], []).grid == r.grid
  {
    hide Inv, Grows, SavedScreenKept, Write, WriteFollowed, WriteUndisturbed, Numbers, ParseParams, Readings,
      EditCells, EditReaches, Before, Quiet;
    Heard(wide, s, ps, final);
    CellEditReaches(Before(s, Numbers(ps)), final, ps);
    RowCount(EditCells(Before(s, Numbers(ps)), final, Readings(ps)));
  }

  /** The cells of the cursor's row that EL erases: from the cursor on, up to and with it, or all. */
  predicate ErasesInRow(s: Screen, mode: int, x: int) {
    match mode
    case 0 => x >= s.curX
    case 1 => x <= s.curX
    case 2 => true
    case _ => false
  }

  lemma EraseLineCells(s: Screen, mode: int, x: int, y: int)
    requires Inv(s) && OnScreen(s) && 0 <= x < s.cols && 0 <= y < s.rows
    ensures EraseLine(s, mode).grid[y][x] == if y == s.curY && ErasesInRow(s, mode, x) then Eraser(s.style) else s.grid[y][x]
  {
    hide Grows, SavedScreenKept, StylesInverse, StyledAll, TitleOk;
  }

  lemma EraseCharsCells(s: Screen, n: nat, x: int, y: int)
    requires Inv(s) && OnScreen(s) && 0 <= x < s.cols && 0 <= y < s.rows
    ensures EraseChars(s, n).grid[y][x] == if y == s.curY && s.curX <= x < s.curX + n then Eraser(s.style) else s.grid[y][x]
  {
    hide Grows, SavedScreenKept, StylesInverse, StyledAll, TitleOk;
  }

  lemma InsertCharsCells(s: Screen, n: nat, x: int, y: int)
    requires Inv(s) && OnScreen(s) && 0 <= x < s.cols && 0 <= y < s.rows
    ensures InsertChars(s, n).grid[y][x] ==
            if y != s.curY || x < s.curX then s.grid[y][x]
            else if x < s.curX + n then Eraser(s.style) else s.grid[y][x - n]
  {
    hide Grows, SavedScreenKept, StylesInverse, StyledAll, TitleOk;
  }

  lemma DeleteCharsCells(s: Screen, n: nat, x: int, y: int)
    requires Inv(s) && OnScreen(s) && 0 <= x < s.cols && 0 <= y < s.rows
    ensures DeleteChars(s, n).grid[y][x] ==
            if y != s.curY || x < s.curX then s.grid[y][x]
            else if x + n < s.cols then s.grid[y][x + n] else Eraser(s.style)
  {
    hide Grows, SavedScreenKept, StylesInverse, StyledAll, TitleOk;
  }

  /** What each of the sequences that erase, insert and delete cells makes of one cell. */
  function CellAfter(s: Screen, final: byte, ps: seq<Field>, x: int, y: int): Cell
    requires Inv(s) && OnScreen(s) && 0 <= x < s.cols && 0 <= y < s.rows && IsCellEdit(final)
  {
    var n := Count(ps, 0);
    match final
    case 0x4A => if Erases(s, ModeOf(ps), x, y) then Eraser(s.style) else s.grid[y][x]
    case 0x4B => if y == s.curY && ErasesInRow(s, ModeOf(ps), x) then Eraser(s.style) else s.grid[y][x]
    case 0x58 => if y == s.curY && s.curX <= x < s.curX + n then Eraser(s.style) else s.grid[y][x]
    case 0x40 =>
      if y != s.curY || x < s.curX then s.grid[y][x]
      else if x < s.curX + n then Eraser(s.style) else s.grid[y][x - n]
    case _ =>
      if y != s.curY || x < s.curX then s.grid[y][x]
      else if x + n < s.cols then s.grid[y][x + n] else Eraser(s.style)
  }

  lemma EditedCell(t: Screen, final: byte, ps: seq<Field>, x: int, y: int)
    requires Inv(t) && OnScreen(t) && IsCellEdit(final) && 0 <= x < t.cols && 0 <= y < t.rows
    ensures EditReaches(t, final, Readings(ps))
    ensures var g := EditCells(t, final, Readings(ps)).grid;
            |g| == t.rows && |g[y]| == t.cols && g[y][x] == CellAfter(t, final, ps, x, y)
  {
    CellEditReaches(t, final, ps);
    RowWidth(EditCells(t, final, Readings(ps)), y);
    hide Inv, Grows, SavedScreenKept, EraseDisplay, EraseLine, EraseChars, InsertChars, DeleteChars, Erases, ErasesInRow;
    match final
    case 0x4A => EraseDisplayCells(t, ModeOf(ps), x, y);
    case 0x4B => EraseLineCells(t, ModeOf(ps), x, y);
    case 0x58 => EraseCharsCells(t, Count(ps, 0), x, y);
    case 0x40 => InsertCharsCells(t, Count(ps, 0), x, y);
    case _ => DeleteCharsCells(t, Count(ps, 0), x, y);
  }

  lemma CellEditReaches(t: Screen, final: byte, ps: seq<Field>)
    requires OnScreen(t) && IsCellEdit(final)
    ensures EditReaches(t, final, Readings(ps))
    ensures Arg(Readings(ps), 0, 0) == ModeOf(ps) && Arg(Readings(ps), 0, 1) == Count(ps, 0)
  {
  }

  lemma RowWidth(s: Screen, y: int)
    requires Inv(s) && 0 <= y < s.rows
    ensures |s.grid| == s.rows && |s.grid[y]| == s.cols
  {
  }

  lemma SameCell(s: Screen, t: Screen, final: byte, ps: seq<Field>, x: int, y: int)
    requires Inv(s) && Inv(t) && OnScreen(s) && IsCellEdit(final) && 0 <= x < s.cols && 0 <= y < s.rows
    requires t == s.(title := t.title, state := t.state, params := t.params, inter := t.inter)
    ensures CellAfter(t, final, ps, x, y) == CellAfter(s, final, ps, x, y)
  {
    hide Grows, SavedScreenKept, StylesInverse, StyledAll, TitleOk;
  }

  /** ED, EL, ECH, ICH and DCH, cell by cell; erased cells take the current background, and nothing else changes. */
  lemma CellsEdited(wide: nat -> nat, s: Screen, ps: seq<Field>, final: byte, x: int, y: int)
    requires Listens(s) && OnScreen(s) && IsCellEdit(final) && 0 <= x < s.cols && 0 <= y < s.rows
    ensures var o := Write(wide, s, Spelled(ps, final));
            Leaves(s, o) && |o.screen.grid[y]| == s.cols && o.screen.grid[y][x] == CellAfter(s, final, ps, x, y)
  {
    hide Inv, Grows, SavedScreenKept, Write, Spelled, Before, CellAfter, EditCells, EditReaches, Lasting, Parsing, Quiet;
    CellEditHeard(wide, s, ps, final);
    EditedCell(Before(s, Numbers(ps)), final, ps, x, y);
    SameCell(s, Before(s, Numbers(ps)), final, ps, x, y);
  }
}
