/** What a terminal screen is for: laws about the operations of term/screen.go that no single operation shows. */
module ScreenLaws {
  import opened Wrappers
  import opened Utf8
  import opened ScreenModel
  import opened ScreenParser

  // ----- scrolling is a bounded queue of lines -----

  /** The last n elements, or all there are. */
  function LastLines<T>(g: seq<T>, n: nat): seq<T> {
    if |g| <= n then g else g[|g| - n..]
  }

  function AllLines(s: Screen): Lines {
    s.scrollback + s.grid
  }

  lemma LastIsAll<T>(a: seq<T>, n: nat)
    requires |a| <= n
    ensures LastLines(a, n) == a
  {
  }

  lemma LastIsCut<T>(a: seq<T>, n: nat)
    requires |a| >= n
    ensures LastLines(a, n) == a[|a| - n..]
  {
  }

  lemma LastOfConcat<T>(a: seq<T>, b: seq<T>, n: nat)
    ensures LastLines(a + b, n + |b|) == LastLines(a, n) + b
  {
    if |a| > n {
      DropFromFirst(a, b, |a| - n);
    }
  }

  lemma LastOfLast<T>(a: seq<T>, b: seq<T>, n: nat)
    ensures LastLines(LastLines(a, n) + b, n) == LastLines(a + b, n)
  {
    hide LastLines;
    if |a| <= n {
      LastIsAll(a, n);
    } else {
      var last := a[|a| - n..];
      LastIsCut(a, n);
      LastIsCut(last + b, n);
      LastIsCut(a + b, n);
      DropFromFirst(a, b, |a| - n);
      DropTwice(a + b, |a| - n, |b|);
    }
  }

  lemma Regroup<T>(a: seq<T>, b: seq<T>, c: seq<T>, d: seq<T>)
    ensures (a + (b + c)) + d == (a + b) + (c + d)
  {
    Associate(a, b, c);
    Associate(a + b, c, d);
  }

  lemma PushIsLast<T>(history: seq<T>, more: seq<T>, cap: nat)
    ensures Push(history, more, cap) == LastLines(history + more, cap)
  {
  }

  lemma PushIsQueue<T>(history: seq<T>, g: seq<T>, entering: T, cap: nat)
    requires |history| <= cap && g != []
    ensures Push(history, [g[0]], cap) + (g[1..] + [entering]) == LastLines(history + g + [entering], cap + |g|)
  {
    hide LastLines, Push;
    var first, rest := [g[0]], g[1..];
    assert g == first + rest;
    Regroup(history, first, rest, [entering]);
    LastOfConcat(history + first, rest + [entering], cap);
    PushIsLast(history, first, cap);
  }

  lemma ScrollUpOnce(s: Screen)
    requires Inv(s) && Remembers(s)
    ensures AllLines(ScrollUp1(s)) == LastLines(AllLines(s) + [Blanks(s.cols)], s.maxScrollback + s.rows)
    ensures |ScrollUp1(s).scrollback| == Min(|s.scrollback| + 1, s.maxScrollback)
    ensures var t := ScrollUp1(s);
            Inv(t) && Remembers(t) && t.cols == s.cols && t.rows == s.rows && t.maxScrollback == s.maxScrollback
  {
    hide Inv, Grows, SavedScreenKept;
    HistoryCapped(s);
    PushIsQueue(s.scrollback, s.grid, Blanks(s.cols), s.maxScrollback);
    assert ShiftUp(s.grid, 0, s.rows - 1, Blanks(s.cols)) == s.grid[1..] + [Blanks(s.cols)];
  }

  lemma HistoryFits(s: Screen)
    requires Inv(s) && Remembers(s)
    ensures |s.scrollback| <= s.maxScrollback
  {
  }

  lemma {:induction false} ScrollUpLength(s: Screen, n: nat)
    requires Inv(s) && Remembers(s)
    ensures |ScrollUp(s, n).scrollback| == Min(|s.scrollback| + n, s.maxScrollback)
    decreases n
  {
    hide Inv, OnScreen, Kept, ScrollUp1, Remembers;
    HistoryFits(s);
    if n > 0 {
      ScrollUpOnce(s);
      ScrollUpLength(ScrollUp1(s), n - 1);
    }
  }

  /** n blank lines enter a queue of at most cap lines. */
  function Enter(all: Lines, cols: int, n: nat, cap: nat): Lines {
    LastLines(all + NewGrid(cols, n), cap)
  }

  lemma AllLinesFit(s: Screen)
    requires Inv(s)
    ensures |AllLines(s)| <= s.maxScrollback + s.rows
  {
  }

  lemma EnterOneMore(all: Lines, cols: int, n: nat, cap: nat)
    requires n > 0
    ensures Enter(LastLines(all + [Blanks(cols)], cap), cols, n - 1, cap) == Enter(all, cols, n, cap)
  {
    LastOfLast(all + [Blanks(cols)], NewGrid(cols, n - 1), cap);
    assert NewGrid(cols, n) == [Blanks(cols)] + NewGrid(cols, n - 1);
    assert all + NewGrid(cols, n) == all + [Blanks(cols)] + NewGrid(cols, n - 1);
  }

  /**
  Full-height scrolling of the primary screen: history and screen together are one queue of at most
  maxScrollback + rows lines, into which n blank lines enter at the end.
  */
  lemma {:induction false} ScrollUpIsQueue(s: Screen, n: nat)
    requires Inv(s) && Remembers(s)
    ensures AllLines(ScrollUp(s, n)) == Enter(AllLines(s), s.cols, n, s.maxScrollback + s.rows)
    decreases n
  {
    hide *;
    if n == 0 {
      EnterZero(s);
    } else {
      ScrollUpOnce(s);
      ScrollUpIsQueue(ScrollUp1(s), n - 1);
      EnterAfterOne(s, n);
    }
  }

  lemma EnterZero(s: Screen)
    requires Inv(s)
    ensures AllLines(ScrollUp(s, 0)) == Enter(AllLines(s), s.cols, 0, s.maxScrollback + s.rows)
  {
    assert AllLines(s) + NewGrid(s.cols, 0) == AllLines(s);
  }

  lemma EnterAfterOne(s: Screen, n: nat)
    requires Inv(s) && Remembers(s) && n > 0
    requires var t := ScrollUp1(s);
             AllLines(ScrollUp(t, n - 1)) == Enter(AllLines(t), s.cols, n - 1, s.maxScrollback + s.rows)
    ensures AllLines(ScrollUp(s, n)) == Enter(AllLines(s), s.cols, n, s.maxScrollback + s.rows)
  {
    hide *;
    AllLinesFit(s);
    ScrollUpOnce(s);
    ScrollUpUnfold(s, n);
    EnterOneMore(AllLines(s), s.cols, n, s.maxScrollback + s.rows);
  }

  lemma ScrollUpUnfold(s: Screen, n: nat)
    requires Inv(s) && n > 0
    ensures ScrollUp(s, n) == ScrollUp(ScrollUp1(s), n - 1)
  {
    hide Inv, Kept, ScrollUp1;
  }

  // ----- regions -----

  /** Rows [top, bot] moved up by n: what row y shows afterwards. */
  function MovedUp(g: Lines, top: int, bot: int, n: nat, y: int, entering: Line): Line
    requires 0 <= top <= bot < |g| && 0 <= y < |g|
  {
    if y < top || y > bot then g[y] else if y + n <= bot then g[y + n] else entering
  }

  function MovedDown(g: Lines, top: int, bot: int, n: nat, y: int, entering: Line): Line
    requires 0 <= top <= bot < |g| && 0 <= y < |g|
  {
    if y < top || y > bot then g[y] else if y - n >= top then g[y - n] else entering
  }

  lemma MovedNone(g: Lines, top: int, bot: int, y: int, entering: Line)
    requires 0 <= top <= bot < |g| && 0 <= y < |g|
    ensures MovedUp(g, top, bot, 0, y, entering) == g[y] && MovedDown(g, top, bot, 0, y, entering) == g[y]
  {
  }

  lemma MovedUpStep(g: Lines, top: int, bot: int, n: nat, y: int, entering: Line)
    requires 0 <= top <= bot < |g| && 0 <= y < |g| && n > 0
    ensures MovedUp(ShiftUp(g, top, bot, entering), top, bot, n - 1, y, entering) == MovedUp(g, top, bot, n, y, entering)
  {
  }

  lemma MovedDownStep(g: Lines, top: int, bot: int, n: nat, y: int, entering: Line)
    requires 0 <= top <= bot < |g| && 0 <= y < |g| && n > 0
    ensures MovedDown(ShiftDown(g, top, bot, entering), top, bot, n - 1, y, entering)
         == MovedDown(g, top, bot, n, y, entering)
  {
  }

  /** Scrolling by any amount moves the region as one block and touches no row outside it. */
  lemma {:induction false} ScrollUpRows(s: Screen, n: nat, y: int)
    requires Inv(s) && 0 <= y < s.rows
    ensures ScrollUp(s, n).grid[y] == MovedUp(s.grid, s.scrollTop, s.scrollBot, n, y, Blanks(s.cols))
    decreases n
  {
    hide Grows, SavedScreenKept, StyledAll, StylesInverse, TitleOk, ShiftUp, MovedUp, Remember, CharPrefix;
    if n == 0 {
      MovedNone(s.grid, s.scrollTop, s.scrollBot, y, Blanks(s.cols));
    } else {
      MovedUpStep(s.grid, s.scrollTop, s.scrollBot, n, y, Blanks(s.cols));
      ScrollUpRows(ScrollUp1(s), n - 1, y);
    }
  }

  lemma {:induction false} ScrollDownRows(s: Screen, n: nat, y: int)
    requires Inv(s) && 0 <= y < s.rows
    ensures ScrollDown(s, n).grid[y] == MovedDown(s.grid, s.scrollTop, s.scrollBot, n, y, Blanks(s.cols))
    decreases n
  {
    hide Grows, SavedScreenKept, StyledAll, StylesInverse, TitleOk, ShiftDown, MovedDown, CharPrefix;
    if n == 0 {
      MovedNone(s.grid, s.scrollTop, s.scrollBot, y, Blanks(s.cols));
    } else {
      MovedDownStep(s.grid, s.scrollTop, s.scrollBot, n, y, Blanks(s.cols));
      ScrollDownRows(Lower(s, s.scrollTop), n - 1, y);
    }
  }

  predicate CursorInRegion(s: Screen) {
    s.scrollTop <= s.curY <= s.scrollBot
  }

  /** Inserting lines moves the rows from the cursor to the region's end down as one block; outside the region, nothing. */
  lemma {:induction false} InsertLinesRows(s: Screen, n: nat, y: int)
    requires Inv(s) && 0 <= y < s.rows
    ensures InsertLines(s, n).grid[y] ==
            if CursorInRegion(s) then MovedDown(s.grid, s.curY, s.scrollBot, n, y, Blanks(s.cols)) else s.grid[y]
    decreases n
  {
    hide Grows, SavedScreenKept, StyledAll, StylesInverse, TitleOk, ShiftDown, CharPrefix;
    var m := Clamp(n, 0, s.scrollBot - s.curY + 1);
    if CursorInRegion(s) && m > 0 {
      MovedDownStep(s.grid, s.curY, s.scrollBot, m, y, Blanks(s.cols));
      InsertLinesRows(Lower(s, s.curY), m - 1, y);
    }
  }

  lemma {:induction false} DeleteLinesRows(s: Screen, n: nat, y: int)
    requires Inv(s) && 0 <= y < s.rows
    ensures DeleteLines(s, n).grid[y] ==
            if CursorInRegion(s) then MovedUp(s.grid, s.curY, s.scrollBot, n, y, Blanks(s.cols)) else s.grid[y]
    decreases n
  {
    hide Grows, SavedScreenKept, StyledAll, StylesInverse, TitleOk, ShiftUp, CharPrefix;
    var m := Clamp(n, 0, s.scrollBot - s.curY + 1);
    if CursorInRegion(s) && m > 0 {
      MovedUpStep(s.grid, s.curY, s.scrollBot, m, y, Blanks(s.cols));
      DeleteLinesRows(Raise(s, s.curY), m - 1, y);
    }
  }

  /** Deleting what was inserted brings every row back that the insertion did not push out of the region. */
  lemma DeleteUndoesInsert(s: Screen, n: nat, y: int)
    requires Inv(s) && CursorInRegion(s) && 0 <= y < s.rows
    ensures DeleteLines(InsertLines(s, n), n).grid[y] ==
            if s.curY <= y <= s.scrollBot && y + n > s.scrollBot then Blanks(s.cols) else s.grid[y]
  {
    hide Grows, StyledAll, StylesInverse, InsertLines, DeleteLines;
    var t := InsertLines(s, n);
    InsertKeepsCursor(s, n);
    DeleteLinesRows(t, n, y);
    InsertLinesRows(s, n, y);
    if s.curY <= y && y + n <= s.scrollBot {
      InsertLinesRows(s, n, y + n);
    }
  }

  lemma {:induction false} InsertKeepsCursor(s: Screen, n: nat)
    requires Inv(s)
    ensures var t := InsertLines(s, n); t == s.(grid := t.grid)
    decreases n
  {
    hide Grows, StyledAll, StylesInverse, ShiftDown;
    var m := Clamp(n, 0, s.scrollBot - s.curY + 1);
    if CursorInRegion(s) && m > 0 {
      InsertKeepsCursor(Lower(s, s.curY), m - 1);
    }
  }

  // ----- history under output -----

  /** k lines have been pushed onto the history; the oldest ones are gone that exceed its cap. */
  ghost predicate Pushed(s: Screen, r: Screen, k: nat) {
    exists more: Lines :: |more| == k && r.scrollback == Push(s.scrollback, more, s.maxScrollback)
  }

  lemma PushTwice<T>(h: seq<T>, a: seq<T>, b: seq<T>, cap: nat)
    ensures Push(Push(h, a, cap), b, cap) == Push(h, a + b, cap)
  {
    hide Push, LastLines;
    PushIsLast(h, a, cap);
    PushIsLast(Push(h, a, cap), b, cap);
    PushIsLast(h, a + b, cap);
    LastOfLast(h + a, b, cap);
    Associate(h, a, b);
  }

  lemma PushedNothing(s: Screen, r: Screen)
    requires |s.scrollback| <= s.maxScrollback && r.scrollback == s.scrollback
    ensures Pushed(s, r, 0)
  {
    assert s.scrollback + [] == s.scrollback;
    assert r.scrollback == Push(s.scrollback, [], s.maxScrollback);
  }

  lemma PushedTrans(s: Screen, t: Screen, r: Screen, j: nat, k: nat)
    requires Pushed(s, t, j) && Pushed(t, r, k) && t.maxScrollback == s.maxScrollback
    ensures Pushed(s, r, j + k)
  {
    var a: Lines :| |a| == j && t.scrollback == Push(s.scrollback, a, s.maxScrollback);
    var b: Lines :| |b| == k && r.scrollback == Push(t.scrollback, b, s.maxScrollback);
    PushTwice(s.scrollback, a, b, s.maxScrollback);
    assert |a + b| == j + k;
  }

  lemma {:induction false} ScrollUpPushes(s: Screen, n: nat)
    requires Inv(s)
    ensures Pushed(s, ScrollUp(s, n), if Remembers(s) then n else 0)
    decreases n
  {
    hide Inv, Kept, Grows, ShiftUp, Pushed, Push;
    HistoryCapped(s);
    if n == 0 {
      PushedNothing(s, s);
    } else {
      ScrollOncePushes(s);
      var t := ScrollUp1(s);
      assert OnlyLines(s, t);
      ScrollUpPushes(t, n - 1);
      PushedTrans(s, t, ScrollUp(t, n - 1), if Remembers(s) then 1 else 0, if Remembers(s) then n - 1 else 0);
    }
  }

  lemma HistoryCapped(s: Screen)
    requires Inv(s)
    ensures |s.scrollback| <= s.maxScrollback && |s.grid| == s.rows >= 1
  {
  }

  lemma ScrollOncePushes(s: Screen)
    requires Inv(s)
    ensures Pushed(s, ScrollUp1(s), if Remembers(s) then 1 else 0)
    ensures Inv(ScrollUp1(s))
  {
    if Remembers(s) {
      assert ScrollUp1(s).scrollback == Push(s.scrollback, [s.grid[s.scrollTop]], s.maxScrollback);
    } else {
      PushedNothing(s, ScrollUp1(s));
    }
  }

  /** The lines that a line feed pushes. */
  function LineFeedPushes(s: Screen): nat {
    if Remembers(s) && s.curY == s.scrollBot then 1 else 0
  }

  function PrintPushes(wide: nat -> nat, s: Screen, r: nat): nat {
    if RuneWidth(wide, r) > 0 && Wraps(s) then LineFeedPushes(s) else 0
  }

  function ControlPushes(s: Screen, b: byte): nat {
    if b in {0x0A, 0x0B, 0x0C} then LineFeedPushes(s) else 0
  }

  function SequencePushes(s: Screen, b: byte): nat {
    if b < 0x20 then ControlPushes(s, b)
    else if b == 0x53 && !Private(s.params) && Remembers(s) then Arg(ParseParams(s.params), 0, 1)
    else 0
  }

  /** The lines that one round of Write pushes: by line feeds of all kinds, wraps, and SU. */
  function RoundPushes(wide: nat -> nat, s: Screen, data: seq<byte>): nat
    requires data != []
  {
    match s.state
    case Ground =>
      if data[0] >= 0x80 then PrintPushes(wide, s, DecodeRune(data).0)
      else if data[0] < 0x20 || data[0] == 0x7F then ControlPushes(s, data[0])
      else PrintPushes(wide, s, data[0])
    case Esc => if data[0] in {0x44, 0x45} then LineFeedPushes(s) else 0
    case Csi => SequencePushes(s, data[0])
    case _ => 0
  }

  /** The lines that the output pushes, round by round. */
  function Pushes(wide: nat -> nat, s: Screen, data: seq<byte>): nat
    requires Inv(s) && s.pending == []
    decreases |data|
  {
    if data == [] || Incomplete(s, data) || !Reaches(wide, s, data) then 0
    else RoundPushes(wide, s, data) + Pushes(wide, Next(wide, s, data), data[Taken(s, data)..])
  }

  function WritePushes(wide: nat -> nat, s: Screen, p: seq<byte>): nat
    requires Inv(s)
  {
    Pushes(wide, s.(pending := []), s.pending + p)
  }

  lemma IndexPushes(s: Screen)
    requires Inv(s)
    ensures Pushed(s, Index(s), LineFeedPushes(s))
  {
    var t := CursorAt(s, s.curX, RowBelow(s), false);
    if s.curY == s.scrollBot {
      ScrollUpPushes(t, 1);
      hide Inv, Kept, ScrollUp, Push;
      SamePushes(s, t, ScrollUp(t, 1), LineFeedPushes(s));
    } else {
      PushedNothing(s, Index(s));
    }
  }

  lemma SamePushes(s: Screen, t: Screen, r: Screen, k: nat)
    requires Pushed(t, r, k) && t.scrollback == s.scrollback && t.maxScrollback == s.maxScrollback
    ensures Pushed(s, r, k)
  {
  }

  lemma PrintPushed(wide: nat -> nat, s: Screen, r: nat)
    requires Inv(s) && PrintReaches(wide, s, r)
    ensures Pushed(s, Print(wide, s, r), PrintPushes(wide, s, r))
  {
    hide Inv, Grows, SavedScreenKept, Index, Stamp;
    HistoryCapped(s);
    if RuneWidth(wide, r) > 0 && Wraps(s) {
      var t := CursorAt(s, 0, s.curY, s.wrapNext);
      IndexPushes(t);
      assert Print(wide, s, r).scrollback == Index(t).scrollback;
      SamePushes(s, t, Print(wide, s, r), PrintPushes(wide, s, r));
    } else {
      PushedNothing(s, Print(wide, s, r));
    }
  }

  lemma ControlPushed(s: Screen, b: byte)
    requires Inv(s)
    ensures Pushed(s, Control(s, b), ControlPushes(s, b))
  {
    HistoryCapped(s);
    if b in {0x0A, 0x0B, 0x0C} {
      IndexPushes(s);
    } else {
      PushedNothing(s, Control(s, b));
    }
  }

  lemma EscapePushed(s: Screen, b: byte)
    requires Inv(s) && s.pending == []
    ensures Pushed(s, Escape(s, b), if b in {0x44, 0x45} then LineFeedPushes(s) else 0)
  {
    hide Inv, Grows, SavedScreenKept, Index, EscapeCommand, Pushed;
    HistoryCapped(s);
    var t := Parsing(s, Ground, s.params, s.inter);
    if b in {0x44, 0x45} {
      var u := if b == 0x45 then CursorAt(t, 0, t.curY, t.wrapNext) else t;
      FeedingEscape(s, b);
      IndexPushes(u);
      SamePushes(s, u, Index(u), LineFeedPushes(s));
    } else {
      CommandSilent(t, b);
      PushedNothing(s, Escape(s, b));
    }
  }

  lemma FeedingEscape(s: Screen, b: byte)
    requires Inv(s) && s.pending == [] && b in {0x44, 0x45}
    ensures var t := Parsing(s, Ground, s.params, s.inter);
            Escape(s, b) == Index(if b == 0x45 then CursorAt(t, 0, t.curY, t.wrapNext) else t)
  {
    hide Inv, Grows, SavedScreenKept, Index;
  }

  lemma CommandSilent(s: Screen, b: byte)
    requires Inv(s) && s.pending == [] && b != 0x44 && b != 0x45
    ensures EscapeCommand(s, b).scrollback == s.scrollback
  {
    hide Inv, Kept, KeptButCursor, Index, ReverseIndex, Reset;
  }

  lemma EditPushed(s: Screen, final: byte, raw: seq<byte>)
    requires Inv(s) && EditReaches(s, final, ParseParams(raw))
    ensures Pushed(s, Edit(s, final, raw), if final == 0x53 && Remembers(s) then Arg(ParseParams(raw), 0, 1) else 0)
  {
    hide Inv, Kept, KeptButCursor, Pushed, ParseParams, EditReaches;
    HistoryCapped(s);
    if final == 0x53 {
      hide Remembers;
      ScrollUpPushes(s, Arg(ParseParams(raw), 0, 1));
    } else {
      EditSilent(s, final, raw);
      hide Edit;
      PushedNothing(s, Edit(s, final, raw));
    }
  }

  lemma EditSilent(s: Screen, final: byte, raw: seq<byte>)
    requires Inv(s) && EditReaches(s, final, ParseParams(raw)) && final != 0x53
    ensures Edit(s, final, raw).scrollback == s.scrollback
  {
    hide Inv, Kept, KeptButCursor, EditCells, EditLines, EditState, ParseParams, Arg;
  }

  lemma FinalPushed(s: Screen, b: byte)
    requires Inv(s) && s.pending == [] && 0x40 <= b <= 0x7E && SequenceReaches(s, b)
    ensures Pushed(s, ControlSequence(s, b), SequencePushes(s, b))
  {
    HistoryCapped(s);
    var r := Dispatch(s, b);
    if Private(s.params) {
      hide Inv, Kept, KeptButCursor, Edit, Move;
      PushedNothing(s, ControlSequence(s, b));
    } else if IsMove(b) {
      hide Inv, Kept, KeptButCursor, Edit;
      PushedNothing(s, ControlSequence(s, b));
    } else {
      EditPushed(s, b, s.params);
      hide Inv, Kept, KeptButCursor, Edit, Pushed;
      SameHistory(s, r, ControlSequence(s, b), SequencePushes(s, b));
    }
  }

  lemma SameHistory(s: Screen, t: Screen, r: Screen, k: nat)
    requires Pushed(s, t, k) && r.scrollback == t.scrollback
    ensures Pushed(s, r, k)
  {
  }

  lemma SequencePushed(s: Screen, b: byte)
    requires Inv(s) && s.pending == [] && s.state.Csi? && SequenceReaches(s, b)
    ensures Pushed(s, InSequence(s, b), SequencePushes(s, b))
  {
    hide Inv, KeptButCursor, ControlSequence, Control, SequenceReaches, Pushed;
    HistoryCapped(s);
    if 0x40 <= b <= 0x7E {
      FinalPushed(s, b);
    } else if b < 0x20 && b != ESC {
      ControlPushed(s, b);
    } else if b > 0x7E {
      ControlPushed(s, b);
    } else {
      PushedNothing(s, InSequence(s, b));
    }
  }

  lemma RoundPushed(wide: nat -> nat, s: Screen, data: seq<byte>)
    requires Inv(s) && s.pending == [] && data != [] && Reaches(wide, s, data)
    ensures Pushed(s, Next(wide, s, data), RoundPushes(wide, s, data))
  {
    hide Inv, KeptButCursor, Print, Control, Escape, InSequence, FinishString, Pushed, SequencePushes, PrintPushes, ControlPushes;
    HistoryCapped(s);
    match s.state
    case Ground =>
      if data[0] >= 0x80 {
        PrintPushed(wide, s, DecodeRune(data).0);
      } else if data[0] < 0x20 || data[0] == 0x7F {
        ControlPushed(s, data[0]);
        if data[0] == ESC { PushedNothing(s, Next(wide, s, data)); PushedNone(s); }
      } else {
        PrintPushed(wide, s, data[0]);
      }
    case Esc => EscapePushed(s, data[0]);
    case Csi => SequencePushed(s, data[0]);
    case _ => PushedNothing(s, Next(wide, s, data));
  }

  lemma PushedNone(s: Screen)
    ensures ControlPushes(s, ESC) == 0
  {
  }

  lemma {:induction false} RunPushes(wide: nat -> nat, s: Screen, data: seq<byte>)
    requires Inv(s) && s.pending == [] && Run(wide, s, data).Alive?
    ensures Pushed(s, Run(wide, s, data).screen, Pushes(wide, s, data))
    decreases |data|
  {
    hide Inv, Grows, SavedScreenKept, Next, Taken, Reaches, Followed, Undisturbed, Fits, LeavesAlt, RoundPushes, Pushed;
    HistoryCapped(s);
    if data == [] || Incomplete(s, data) {
      PushedNothing(s, Run(wide, s, data).screen);
    } else {
      var t, rest := Next(wide, s, data), data[Taken(s, data)..];
      RoundPushed(wide, s, data);
      RunPushes(wide, t, rest);
      PushedTrans(s, t, Run(wide, t, rest).screen, RoundPushes(wide, s, data), Pushes(wide, t, rest));
    }
  }

  lemma NothingPending(s: Screen)
    requires Inv(s)
    ensures Inv(s.(pending := []))
  {
  }

  /** Any output pushes as many lines onto the history as it scrolls off the primary screen, and does nothing else to it. */
  lemma OutputPushes(wide: nat -> nat, s: Screen, p: seq<byte>)
    requires Inv(s) && Write(wide, s, p).Alive?
    ensures Pushed(s, Write(wide, s, p).screen, WritePushes(wide, s, p))
  {
    NothingPending(s);
    hide Inv, Grows, Run, Pushes;
    var t := s.(pending := []);
    RunPushes(wide, t, s.pending + p);
    SamePushes(s, t, Write(wide, s, p).screen, WritePushes(wide, s, p));
  }

  /** As long as there is room for what it pushes, the history after any output begins with the history before it. */
  lemma HistoryIsPrefix(wide: nat -> nat, s: Screen, p: seq<byte>)
    requires Inv(s) && Write(wide, s, p).Alive? && |s.scrollback| + WritePushes(wide, s, p) <= s.maxScrollback
    ensures s.scrollback <= Write(wide, s, p).screen.scrollback
    ensures |Write(wide, s, p).screen.scrollback| == |s.scrollback| + WritePushes(wide, s, p)
  {
    hide Inv, Grows, Write, WritePushes;
    OutputPushes(wide, s, p);
  }

  // ----- resizing -----

  /** Cutting a grid around its cursor row y, on plain lines. */
  lemma ResizeCut(g: Lines, cols: nat, rows: nat, y: nat)
    requires y < |g| <= MAX_SIDE && 0 < rows <= MAX_SIDE
    ensures var drop := TopDrop(g, rows, y);
            && 0 <= y - drop < rows
            && ResizeLines(g[..y + 1], cols) == ResizeLines(g, cols)[..drop] + ResizeGrid(g, cols, rows, y)[..y - drop + 1]
  {
    hide ResizeLine;
    var drop := TopDrop(g, rows, y);
    var resized := ResizeLines(g, cols);
    var part := resized[..y + 1];
    assert ResizeLines(g[..y + 1], cols) == part;
    assert ResizeGrid(g, cols, rows, y)[..y - drop + 1] == part[drop..];
    assert resized[..drop] == part[..drop];
  }

  lemma ResizeCutQueue(history: Lines, g: Lines, cols: nat, rows: nat, y: nat, cap: nat)
    requires y < |g| <= MAX_SIDE && 0 < rows <= MAX_SIDE
    ensures var drop := TopDrop(g, rows, y);
            0 <= y - drop < rows
            && LastLines(history + ResizeLines(g, cols)[..drop], cap) + ResizeGrid(g, cols, rows, y)[..y - drop + 1]
            == LastLines(history + ResizeLines(g[..y + 1], cols), cap + (y - drop + 1))
  {
    ResizeCut(g, cols, rows, y);
    hide LastLines, ResizeLines, ResizeGrid, TopDrop;
    var drop := TopDrop(g, rows, y);
    var top, shown := ResizeLines(g, cols)[..drop], ResizeGrid(g, cols, rows, y)[..y - drop + 1];
    Associate(history, top, shown);
    LastOfConcat(history + top, shown, cap);
  }

  /** The primary screen down to and including its cursor row. */
  function DownToCursor(s: Screen): Lines {
    if 0 <= PrimaryY(s) < |Primary(s)| then Primary(s)[..PrimaryY(s) + 1] else []
  }

  /** The cursor of the primary screen, shown or saved, is on one of its rows. */
  predicate PrimaryOnRow(s: Screen) {
    0 <= PrimaryY(s) < s.rows
  }

  /** Resizing treats the primary screen alike whether it is shown or saved. */
  lemma ResizePrimary(s: Screen, cols: int, rows: int)
    requires Inv(s) && PrimaryOnRow(s) && 1 <= cols <= MAX_SIDE && 1 <= rows <= MAX_SIDE && (cols != s.cols || rows != s.rows)
    ensures var r := Resize(s, cols, rows);
            && Primary(r) == ResizeGrid(Primary(s), cols, rows, PrimaryY(s))
            && PrimaryY(r) == PrimaryY(s) - TopDrop(Primary(s), rows, PrimaryY(s))
            && r.scrollback == Spill(s, cols, rows)
    ensures 0 <= PrimaryY(s) < |Primary(s)| <= MAX_SIDE
  {
    hide Grows, StyledAll, StylesInverse, ResizeGrid, TopDrop, RowAfter, Spill;
    RowAfterDrop(Primary(s), rows, PrimaryY(s));
  }

  lemma RowAfterDrop(g: Lines, rows: nat, y: int64)
    requires 0 <= y < |g| <= MAX_SIDE && 1 <= rows <= MAX_SIDE
    ensures 0 <= RowAfter(g, rows, y) == y - TopDrop(g, rows, y) < rows
  {
  }

  lemma SpillIsLast(s: Screen, cols: nat, rows: nat)
    requires Inv(s) && s.maxScrollback > 0
    ensures Spill(s, cols, rows) ==
            LastLines(s.scrollback + ResizeLines(Primary(s), cols)[..TopDrop(Primary(s), rows, PrimaryY(s))], s.maxScrollback)
  {
    hide Inv, Grows, StyledAll, ResizeLines;
  }

  /**
  Changing the size loses nothing at or above the cursor of the primary screen: history and screen down to the cursor,
  cut or padded to the new width, are what history and screen down to the cursor then hold, as a queue.
  */
  lemma ResizeKeepsLines(s: Screen, cols: int, rows: int)
    requires Inv(s) && PrimaryOnRow(s) && 1 <= cols <= MAX_SIDE && 1 <= rows <= MAX_SIDE && (cols != s.cols || rows != s.rows)
    requires s.maxScrollback > 0
    ensures var r := Resize(s, cols, rows);
            && DownToCursor(r) != []
            && r.scrollback + DownToCursor(r) ==
               LastLines(s.scrollback + ResizeLines(DownToCursor(s), cols), s.maxScrollback + |DownToCursor(r)|)
  {
    hide Inv, Grows, Resize, StyledAll, Primary, PrimaryY, LastLines, ResizeLines, ResizeGrid, TopDrop, Spill;
    ResizePrimary(s, cols, rows);
    ResizeCutQueue(s.scrollback, Primary(s), cols, rows, PrimaryY(s), s.maxScrollback);
    SpillIsLast(s, cols, rows);
  }

  /** What is left of a line in another width: its own cells from the left, and blank ones behind them. */
  function CellKept(l: Line, x: nat): Cell {
    if x < |l| then l[x] else BLANK
  }

  /** The cells of line r are those of line l, at the width of r. */
  predicate KeepsCells(l: Line, r: Line, cols: int) {
    |r| == cols && forall x :: 0 <= x < cols ==> r[x] == CellKept(l, x)
  }

  /** Row by row, r is g without its first drop rows, with blank rows behind it. */
  predicate KeepsRows(g: Lines, r: Lines, cols: int, rows: int, drop: nat) {
    |r| == rows && forall y :: 0 <= y < rows ==> KeepsCells(if y + drop < |g| then g[y + drop] else [], r[y], cols)
  }

  /** The rows that have to come off the top for row y to be one of so many. */
  function Overhang(y: int, rows: int): nat {
    Max(y - rows + 1, 0)
  }

  lemma LineKept(l: Line, cols: nat)
    ensures KeepsCells(l, ResizeLine(l, cols), cols)
  {
  }

  lemma GridKept(g: Lines, cols: nat, rows: nat, y: int64)
    requires 0 <= y < |g| <= MAX_SIDE && 1 <= rows <= MAX_SIDE
    ensures TopDrop(g, rows, y) == Overhang(y, rows)
    ensures KeepsRows(g, ResizeGrid(g, cols, rows, y), cols, rows, Overhang(y, rows))
  {
    hide ResizeLine, KeepsCells, ResizeGrid;
    var r, drop := ResizeGrid(g, cols, rows, y), TopDrop(g, rows, y);
    forall i | 0 <= i < rows
      ensures KeepsCells(if i + drop < |g| then g[i + drop] else [], r[i], cols)
    {
      GridRow(g, cols, rows, y, i);
      if i + drop < |g| { LineKept(g[i + drop], cols); } else { BlankKept(cols); }
    }
  }

  lemma GridRow(g: Lines, cols: nat, rows: nat, y: int64, i: nat)
    requires i < rows
    ensures var drop := TopDrop(g, rows, y);
            ResizeGrid(g, cols, rows, y)[i] == if i + drop < |g| then ResizeLine(g[i + drop], cols) else Blanks(cols)
  {
    hide ResizeLine;
  }

  lemma BlankKept(cols: nat)
    ensures KeepsCells([], Blanks(cols), cols)
  {
  }

  lemma RowsUnchanged(g: Lines, cols: int, rows: int)
    requires Rectangle(g, cols, rows)
    ensures KeepsRows(g, g, cols, rows, 0)
  {
  }

  /** The history once drop rows have come off the top of g, in the new width: the newest lines, as many as there is room for. */
  predicate HistoryTakes(h: Lines, g: Lines, r: Lines, cols: int, drop: nat, cap: nat)
    requires drop <= |g|
  {
    && |r| == (if cap == 0 then |h| else Min(|h| + drop, cap))
    && forall i :: 0 <= i < |r| ==>
         var k := if cap == 0 then i else |h| + drop - |r| + i;
         if k < |h| then r[i] == h[k] else k - |h| < drop && KeepsCells(g[k - |h|], r[i], cols)
  }

  lemma HistoryTaken(h: Lines, g: Lines, cols: nat, drop: nat, cap: nat)
    requires drop <= |g| && |h| <= cap
    ensures HistoryTakes(h, g, if cap == 0 then h else Push(h, ResizeLines(g, cols)[..drop], cap), cols, drop, cap)
  {
    hide KeepsCells, ResizeLine, ResizeLines, Push;
    var more := ResizeLines(g, cols)[..drop];
    if cap > 0 {
      PushAt(h, more, cap);
      RowsKept(g, cols, drop);
    }
  }

  lemma RowsKept(g: Lines, cols: nat, drop: nat)
    requires drop <= |g|
    ensures forall y :: 0 <= y < drop ==> KeepsCells(g[y], ResizeLines(g, cols)[..drop][y], cols)
  {
    hide KeepsCells, ResizeLine;
    forall y | 0 <= y < drop
      ensures KeepsCells(g[y], ResizeLines(g, cols)[..drop][y], cols)
    {
      LineKept(g[y], cols);
    }
  }

  lemma PushAt<T>(h: seq<T>, more: seq<T>, cap: nat)
    requires |h| <= cap
    ensures var r := Push(h, more, cap);
            && |r| == Min(|h| + |more|, cap)
            && forall i :: 0 <= i < |r| ==>
                 var k := |h| + |more| - |r| + i;
                 r[i] == if k < |h| then h[k] else more[k - |h|]
  {
  }

  /** The side that a resize ends with. */
  function Side(n: int): (m: int)
    ensures 1 <= m && (n <= MAX_SIDE ==> m <= MAX_SIDE)
  {
    Max(n, 1)
  }

  /**
  Cell by cell, the primary screen after a resize, shown or saved: rows come off the top only as far as the cursor's row
  needs it, they go to the history, and every row that stays keeps its cells from the left.
  */
  lemma ResizeCells(s: Screen, newCols: int, newRows: int)
    requires Inv(s) && PrimaryOnRow(s) && newCols <= MAX_SIDE && newRows <= MAX_SIDE
    ensures var r, cols, rows := Resize(s, newCols, newRows), Side(newCols), Side(newRows);
            var drop := Overhang(PrimaryY(s), rows);
            && KeepsRows(Primary(s), Primary(r), cols, rows, drop)
            && drop <= |Primary(s)| && HistoryTakes(s.scrollback, Primary(s), r.scrollback, cols, drop, s.maxScrollback)
            && PrimaryY(r) == PrimaryY(s) - drop
  {
    hide Inv, Grows, Rectangle, StyledAll, Resize, Primary, PrimaryY, KeepsRows, HistoryTakes, ResizeGrid, ResizeLines, Push, TopDrop,
      Spill;
    var cols, rows := Side(newCols), Side(newRows);
    PrimaryShape(s);
    SameSize(s, newCols, newRows);
    if cols == s.cols && rows == s.rows {
      RowsUnchanged(Primary(s), cols, rows);
      HistoryUnchanged(s.scrollback, Primary(s), cols, s.maxScrollback);
    } else {
      ResizePrimary(s, cols, rows);
      GridKept(Primary(s), cols, rows, PrimaryY(s));
      HistoryTaken(s.scrollback, Primary(s), cols, Overhang(PrimaryY(s), rows), s.maxScrollback);
      SpillPushes(s, cols, rows);
    }
  }

  lemma SameSize(s: Screen, newCols: int, newRows: int)
    requires Inv(s) && newCols <= MAX_SIDE && newRows <= MAX_SIDE
    ensures Resize(s, newCols, newRows) == Resize(s, Side(newCols), Side(newRows))
    ensures Side(newCols) == s.cols && Side(newRows) == s.rows ==> Resize(s, newCols, newRows) == s
  {
    hide Inv, Grows, ResizeGrid, TopDrop, RowAfter, Spill;
  }

  lemma HistoryUnchanged(h: Lines, g: Lines, cols: int, cap: nat)
    requires |h| <= cap
    ensures HistoryTakes(h, g, h, cols, 0, cap)
  {
  }

  lemma SpillPushes(s: Screen, cols: nat, rows: nat)
    requires Inv(s)
    ensures var g := Primary(s);
            Spill(s, cols, rows) == if s.maxScrollback == 0 then s.scrollback
                                    else Push(s.scrollback, ResizeLines(g, cols)[..TopDrop(g, rows, PrimaryY(s))], s.maxScrollback)
  {
    hide Inv, Grows, StyledAll, ResizeLines;
  }

  lemma PrimaryShape(s: Screen)
    requires Inv(s)
    ensures Rectangle(Primary(s), s.cols, s.rows) && |s.scrollback| <= s.maxScrollback
    ensures 1 <= s.cols <= MAX_SIDE && 1 <= s.rows <= MAX_SIDE
  {
  }

  /** The alternate screen while it is shown; and all else that a new size changes: the region is the whole height again. */
  lemma ResizeElse(s: Screen, newCols: int, newRows: int)
    requires Inv(s) && newCols <= MAX_SIDE && newRows <= MAX_SIDE && (Side(newCols) != s.cols || Side(newRows) != s.rows)
    ensures var r, cols, rows := Resize(s, newCols, newRows), Side(newCols), Side(newRows);
            && r == s.(cols := cols, rows := rows, grid := r.grid, alt := r.alt, scrollback := r.scrollback,
                       scrollTop := 0, scrollBot := rows - 1, wrapNext := false,
                       curX := r.curX, curY := r.curY, altCurX := r.altCurX, altCurY := r.altCurY)
            && r.curX == Min(Max(s.curX, 0), cols - 1)
            && (s.altActive ==> r.altCurX == Min(Max(s.altCurX, 0), cols - 1))
            && (s.altActive && OnRow(s) ==>
                  KeepsRows(s.grid, r.grid, cols, rows, Overhang(s.curY, rows)) && r.curY == s.curY - Overhang(s.curY, rows))
  {
    hide Grows, StyledAll, StylesInverse, ResizeGrid, TopDrop, RowAfter, Spill, KeepsRows;
    if OnRow(s) {
      GridKept(s.grid, Side(newCols), Side(newRows), s.curY);
      RowAfterDrop(s.grid, Side(newRows), s.curY);
    }
  }

  // ----- the alternate screen -----

  /** A private mode switch: ESC [ ? 1 0 4 9 and its final byte. */
  function ModeSwitch(final: byte): seq<byte> {
    [ESC, 0x5B, 0x3F] + Spell(1049) + [final]
  }

  const ENTER_ALT: byte := 0x68
  const LEAVE_ALT: byte := 0x6C

  /** The screen inside a control sequence that has read these parameters. */
  function InCsi(s: Screen, params: seq<byte>): (r: Screen)
    requires Inv(s) && s.pending == []
    ensures Inv(r) && r.pending == [] && r == s.(state := Csi, params := params, inter := [])
  {
    Parsing(s, Csi, params, [])
  }

  lemma RunByte(wide: nat -> nat, s: Screen, b: byte, rest: seq<byte>)
    requires Inv(s) && s.pending == [] && b < 0x80
    ensures Run(wide, s, [b] + rest) == if ByteReaches(wide, s, b) then Run(wide, Feed(wide, s, b), rest) else Panicked
  {
    hide Inv, Grows, Lasting, Feed, Followed, Undisturbed, ByteReaches;
    assert ([b] + rest)[1..] == rest;
  }

  lemma FeedParam(wide: nat -> nat, s: Screen, read: seq<byte>, b: byte)
    requires Inv(s) && s.pending == [] && 0x30 <= b <= 0x3F
    ensures ByteReaches(wide, InCsi(s, read), b) && Feed(wide, InCsi(s, read), b) == InCsi(s, read + [b])
  {
    hide Inv, Grows, Lasting;
  }

  /** Parameter bytes of a control sequence are collected one by one. */
  lemma {:induction false} RunParams(wide: nat -> nat, s: Screen, read: seq<byte>, ps: seq<byte>, rest: seq<byte>)
    requires Inv(s) && s.pending == []
    requires forall i :: 0 <= i < |ps| ==> 0x30 <= ps[i] <= 0x3F
    ensures Run(wide, InCsi(s, read), ps + rest) == Run(wide, InCsi(s, read + ps), rest)
    decreases |ps|
  {
    hide *;
    if ps == [] {
      assert read + ps == read && ps + rest == rest;
    } else {
      assert ps + rest == [ps[0]] + (ps[1..] + rest);
      RunByte(wide, InCsi(s, read), ps[0], ps[1..] + rest);
      FeedParam(wide, s, read, ps[0]);
      assert read + [ps[0]] + ps[1..] == read + ps;
      RunParams(wide, s, read + [ps[0]], ps[1..], rest);
    }
  }

  /** States in which an ESC is seen as the beginning of a sequence, whatever it cuts short. */
  predicate HearsEscape(state: ParseState) {
    state !in {Esc, Charset}
  }

  /** The screen once an ESC has cut short what the parser was reading: a title that was being set is set. */
  function CutShort(s: Screen): (t: Screen)
    requires Inv(s) && s.pending == []
    ensures Inv(t) && t.pending == [] && t == s.(title := t.title)
  {
    if s.state.Osc? then SetTitle(s, s.params) else s
  }

  lemma FeedEscape(wide: nat -> nat, s: Screen)
    requires Inv(s) && s.pending == [] && HearsEscape(s.state)
    ensures ByteReaches(wide, s, ESC)
    ensures var t := Feed(wide, s, ESC);
            t.state == Esc && Inv(t) && t.pending == [] && InCsi(t, []) == InCsi(CutShort(s), [])
  {
    hide Inv, Grows, SavedScreenKept, SetTitle, Print, Control, ControlSequence, EditReaches, LeavesAlt, Fits, InString;
    if s.state.Osc? || s.state.Str? {
      StringEscape(s);
    }
  }

  lemma StringEscape(s: Screen)
    requires Inv(s) && s.pending == [] && (s.state.Osc? || s.state.Str?)
    ensures var t := InString(s, ESC);
            t.state == Esc && Inv(t) && t.pending == [] && InCsi(t, []) == InCsi(CutShort(s), [])
  {
    hide Inv, Grows, SavedScreenKept, SetTitle;
  }

  lemma FeedBracket(wide: nat -> nat, s: Screen)
    requires Inv(s) && s.pending == [] && s.state == Esc
    ensures ByteReaches(wide, s, 0x5B) && Feed(wide, s, 0x5B) == InCsi(s, [])
  {
    hide Inv, Grows, SavedScreenKept, EscapeCommand;
  }

  lemma OpenSequence(wide: nat -> nat, s: Screen, rest: seq<byte>)
    requires Inv(s) && s.pending == [] && HearsEscape(s.state)
    ensures Run(wide, s, [ESC, 0x5B] + rest) == Run(wide, InCsi(CutShort(s), []), rest)
  {
    assert ESC < 0x80;
    hide *;
    assert [ESC, 0x5B] + rest == [ESC] + ([0x5B] + rest);
    FeedEscape(wide, s);
    RunByte(wide, s, ESC, [0x5B] + rest);
    FeedBracket(wide, Feed(wide, s, ESC));
    RunByte(wide, Feed(wide, s, ESC), 0x5B, rest);
  }

  /** The final byte finds what it indexes. */
  predicate FinalReaches(s: Screen, final: byte) {
    Private(s.params) || EditReaches(s, final, ParseParams(Raw(s.params)))
  }

  lemma CloseSequence(wide: nat -> nat, s: Screen, final: byte)
    requires Inv(s) && s.state == Csi && s.pending == [] && 0x40 <= final <= 0x7E
    ensures Run(wide, s, [final]) == if FinalReaches(s, final) then Alive(ControlSequence(s, final)) else Panicked
  {
    hide Inv, Grows, Lasting, Followed, Undisturbed, ControlSequence, EditReaches, ParseParams;
    RunByte(wide, s, final, []);
    assert [final] + [] == [final];
  }

  /** A whole control sequence: whatever the parser was reading is cut short, then come its parameters and its final byte. */
  lemma RunSequence(wide: nat -> nat, s: Screen, params: seq<byte>, final: byte)
    requires Inv(s) && s.pending == [] && HearsEscape(s.state) && 0x40 <= final <= 0x7E
    requires forall i :: 0 <= i < |params| ==> 0x30 <= params[i] <= 0x3F
    ensures Run(wide, s, [ESC, 0x5B] + params + [final]) ==
            var t := InCsi(CutShort(s), params);
            if FinalReaches(t, final) then Alive(ControlSequence(t, final)) else Panicked
  {
    hide *;
    assert [ESC, 0x5B] + params + [final] == [ESC, 0x5B] + (params + [final]);
    OpenSequence(wide, s, params + [final]);
    RunParams(wide, CutShort(s), [], params, [final]);
    assert [] + params == params;
    CloseSequence(wide, InCsi(CutShort(s), params), final);
  }

  lemma Unpended(wide: nat -> nat, s: Screen, p: seq<byte>)
    requires Inv(s) && s.pending == []
    ensures Write(wide, s, p) == Run(wide, s, p)
  {
    assert s.(pending := []) == s && s.pending + p == p;
  }

  /** What a mode switch does to a screen. */
  lemma SwitchBytes(wide: nat -> nat, s: Screen, final: byte)
    requires Inv(s) && s.pending == [] && HearsEscape(s.state) && final in {ENTER_ALT, LEAVE_ALT}
    ensures Run(wide, s, ModeSwitch(final)) ==
            Alive(Parsing(SetAltScreen(CutShort(s), final == ENTER_ALT), Ground, [], []))
  {
    var params := [0x3F] + Spell(1049);
    SwitchSpelled(final);
    hide *;
    SwitchParams();
    RunSequence(wide, s, params, final);
    SwitchFinal(CutShort(s), params, final);
  }

  lemma SwitchSpelled(final: byte)
    ensures [ESC, 0x5B] + ([0x3F] + Spell(1049)) + [final] == ModeSwitch(final)
  {
    hide Spell;
  }

  lemma SwitchParams()
    ensures var params := [0x3F] + Spell(1049);
            && (forall i :: 0 <= i < |params| ==> 0x30 <= params[i] <= 0x3F)
            && params[1..] == Spell(1049) && ParseParams(Spell(1049)) == [1049]
  {
    ParamSpell(1049);
    hide Spell, ParseParams;
  }

  lemma SwitchFinal(s: Screen, params: seq<byte>, final: byte)
    requires Inv(s) && s.pending == [] && final in {ENTER_ALT, LEAVE_ALT}
    requires params == [0x3F] + Spell(1049) && params[1..] == Spell(1049) && ParseParams(Spell(1049)) == [1049]
    ensures FinalReaches(InCsi(s, params), final)
    ensures ControlSequence(InCsi(s, params), final) == Parsing(SetAltScreen(s, final == ENTER_ALT), Ground, [], [])
  {
    hide Inv, Grows, Lasting, ParseParams, SetAltScreen, SetPrivateModes, Spell;
    var t := InCsi(s, params);
    assert Dispatch(t, final) == SetPrivateModes(t, [1049], final == ENTER_ALT);
    OneMode(t, final == ENTER_ALT);
    SwitchIgnoresParser(s, Csi, params, [], final == ENTER_ALT);
  }

  lemma OneMode(s: Screen, on: bool)
    requires Inv(s)
    ensures SetPrivateModes(s, [1049], on) == SetAltScreen(s, on)
  {
    hide Inv, Grows, Lasting;
    assert [1049][1..] == [];
  }

  lemma SwitchIgnoresParser(s: Screen, state: ParseState, params: seq<byte>, inter: seq<byte>, on: bool)
    requires Inv(s) && s.pending == []
    ensures SetAltScreen(Parsing(s, state, params, inter), on)
         == SetAltScreen(s, on).(state := state, params := params, inter := inter)
  {
    hide Inv, Grows, Lasting;
  }

  // ----- what is left of a character or an escape when a sequence begins -----

  /** Bytes that no character can be completed from are printed, one way or another, and the parser stays where it is. */
  lemma {:induction false} RunStray(wide: nat -> nat, s: Screen, stray: seq<byte>, rest: seq<byte>) returns (o: Outcome)
    requires Inv(s) && s.pending == [] && s.state == Ground && rest != [] && rest[0] < 0x80
    requires forall i :: 0 <= i < |stray| ==> stray[i] >= 0x80
    ensures o.Alive? ==> KeptButCursor(s, o.screen) && o.screen.state == Ground && o.screen.altActive == s.altActive
    ensures Run(wide, s, stray + rest) == if o.Alive? then Run(wide, o.screen, rest) else Panicked
    ensures OnScreen(s) ==> o.Alive? && OnScreen(o.screen)
    decreases |stray|
  {
    hide Inv, Grows, Print, Run, Followed, Undisturbed, PrintReaches, DecodeRune, FullRune;
    if stray == [] {
      assert stray + rest == rest;
      SelfKept(s);
      o := Alive(s);
    } else {
      var data := stray + rest;
      StrayBytes(stray, rest);
      var (r, n) := DecodeRune(data);
      RunPrints(wide, s, data);
      if PrintReaches(wide, s, r) {
        var t := Print(wide, s, r);
        DropFromFirst(stray, rest, n);
        o := RunStray(wide, t, stray[n..], rest);
        if o.Alive? { ButCursorTrans(s, t, o.screen); }
      } else {
        ReadyPrints(wide, s, r);
        o := Panicked;
      }
    }
  }

  lemma SelfKept(s: Screen)
    requires Inv(s)
    ensures KeptButCursor(s, s)
  {
  }

  /** The round of a rune beyond ASCII. */
  lemma RunPrints(wide: nat -> nat, s: Screen, data: seq<byte>)
    requires Inv(s) && s.pending == [] && s.state == Ground && data != [] && data[0] >= 0x80 && FullRune(data)
    ensures var (r, n) := DecodeRune(data);
            Run(wide, s, data) == if PrintReaches(wide, s, r) then Run(wide, Print(wide, s, r), data[n..]) else Panicked
  {
    hide Inv, Grows, SavedScreenKept, Print, Followed, Undisturbed, PrintReaches, DecodeRune, FullRune;
  }

  lemma ReadyPrints(wide: nat -> nat, s: Screen, r: nat)
    ensures Ready(s) ==> PrintReaches(wide, s, r)
  {
  }

  /** Printable ASCII in the ground state is printed: it disturbs nothing but the screen that is shown. */
  lemma {:induction false} RunPlain(wide: nat -> nat, s: Screen, text: seq<byte>)
    requires Inv(s) && s.pending == [] && s.state == Ground
    requires forall i :: 0 <= i < |text| ==> 0x20 <= text[i] < 0x7F
    ensures Undisturbed(wide, s, text) && (OnScreen(s) ==> Followed(wide, s, text))
    decreases |text|
  {
    hide Inv, Grows, Print, PrintReaches;
    if text != [] {
      ReadyPrints(wide, s, text[0]);
      if Reaches(wide, s, text) {
        RunPlain(wide, Next(wide, s, text), text[1..]);
      }
    }
  }

  /** An ESC right behind an ESC or a charset designation is swallowed, and what follows it is text. */
  lemma RunSwallowed(wide: nat -> nat, s: Screen, text: seq<byte>)
    requires Inv(s) && s.pending == [] && !HearsEscape(s.state)
    requires forall i :: 0 <= i < |text| ==> 0x20 <= text[i] < 0x7F
    ensures Undisturbed(wide, s, [ESC] + text) && (OnScreen(s) ==> Followed(wide, s, [ESC] + text))
  {
    var t := Feed(wide, s, ESC);
    assert t == Parsing(s, Ground, s.params, s.inter);
    hide Inv, Grows, Feed;
    assert ([ESC] + text)[1..] == text;
    RunPlain(wide, t, text);
  }

  lemma SwitchIsText()
    ensures var text := [0x5B, 0x3F] + Spell(1049) + [LEAVE_ALT];
            && ModeSwitch(LEAVE_ALT) == [ESC] + text
            && forall i :: 0 <= i < |text| ==> 0x20 <= text[i] < 0x7F
  {
    assert forall i :: 0 <= i < |Spell(1049)| ==> 0x30 <= Spell(1049)[i] <= 0x39;
    hide Spell;
    assert [ESC, 0x5B, 0x3F] + Spell(1049) == [ESC] + ([0x5B, 0x3F] + Spell(1049));
  }

  /** The primary screen is shown again: every cell, the cursor, and the history. */
  predicate GivesBack(s: Screen, o: Outcome) {
    && o.Alive? && !o.screen.altActive
    && o.screen.grid == s.grid && o.screen.curX == s.curX && o.screen.curY == s.curY
    && o.screen.scrollback == s.scrollback
  }

  /** u is an alternate screen that keeps s. */
  predicate Keeps(s: Screen, u: Screen) {
    && u.altActive && u.alt == s.grid && u.altCurX == s.curX && u.altCurY == s.curY
    && u.scrollback == s.scrollback && u.cols == s.cols && u.rows == s.rows
  }

  /** The leave sequence on an alternate screen with nothing pending: heard, or swallowed and printed. */
  lemma Leaving(wide: nat -> nat, s: Screen, u: Screen)
    requires OnScreen(s) && Inv(u) && u.pending == [] && Keeps(s, u)
    ensures var o := Run(wide, u, ModeSwitch(LEAVE_ALT));
            && (HearsEscape(u.state) ==> GivesBack(s, o))
            && (!HearsEscape(u.state) ==> (o.Alive? ==> o.screen.altActive) && (OnScreen(u) ==> o.Alive?))
  {
    hide Inv, Grows, Run, Followed, Undisturbed, Spell, ModeSwitch;
    if HearsEscape(u.state) {
      SwitchBytes(wide, u, LEAVE_ALT);
    } else {
      SwitchIsText();
      RunSwallowed(wide, u, [0x5B, 0x3F] + Spell(1049) + [LEAVE_ALT]);
    }
  }

  /** The same with an unfinished character pending: its bytes are printed first. */
  lemma LeavingPending(wide: nat -> nat, s: Screen, u: Screen)
    requires OnScreen(s) && Inv(u) && Keeps(s, u)
    ensures var o := Write(wide, u, ModeSwitch(LEAVE_ALT));
            && (o.Alive? ==> (GivesBack(s, o) <==> HearsEscape(u.state)))
            && (OnScreen(u) || (u.pending == [] && HearsEscape(u.state)) ==> o.Alive?)
  {
    if u.pending == [] {
      Leaving(wide, s, u);
      Unpended(wide, u, ModeSwitch(LEAVE_ALT));
    } else {
      var v := u.(pending := []);
      PendingIsStray(u);
      NothingPending(u);
      SwitchIsText();
      hide Inv, Grows, Run, Followed, Undisturbed, Spell, ModeSwitch, CharPrefix;
      var o := RunStray(wide, v, u.pending, ModeSwitch(LEAVE_ALT));
      if o.Alive? {
        Leaving(wide, s, o.screen);
      }
    }
  }

  lemma PendingIsStray(s: Screen)
    requires Inv(s) && s.pending != []
    ensures s.state == Ground && (forall i :: 0 <= i < |s.pending| ==> s.pending[i] >= 0x80)
  {
  }

  /** The screen that ESC[?1049h shows. */
  function Entered(s: Screen): (t: Screen)
    requires Ready(s) && s.pending == [] && s.state == Ground && !s.altActive
    ensures Ready(t) && Keeps(s, t) && t.pending == []
  {
    Parsing(SetAltScreen(s, true), Ground, [], [])
  }

  /**
  A program enters the alternate screen, writes what it likes without a way out of it, and then leaves it. Unless the
  output panics, that gives the primary screen back exactly, if and only if the output does not end right behind an ESC or
  in a charset designation: the parser takes the ESC of the leave sequence for the rest of that, and prints what follows.
  Output that ends in the middle of anything else is no exception. Leaving itself panics on no screen that shows its
  cursor, and on no other either, unless it has to print.
  */
  lemma AltScreenIsolated(wide: nat -> nat, s: Screen, output: seq<byte>, u: Screen)
    requires Ready(s) && s.state == Ground && s.pending == [] && !s.altActive
    requires WriteUndisturbed(wide, Entered(s), output)
    requires Write(wide, s, ModeSwitch(ENTER_ALT) + output) == Alive(u)
    ensures var o := Write(wide, s, ModeSwitch(ENTER_ALT) + output + ModeSwitch(LEAVE_ALT));
            && (o.Alive? ==> (GivesBack(s, o) <==> HearsEscape(u.state)))
            && (OnScreen(u) || (u.pending == [] && HearsEscape(u.state)) ==> o.Alive?)
  {
    hide Inv, Grows, Run, Followed, WriteUndisturbed, ModeSwitch, SetAltScreen;
    var t := Entered(s);
    assert CutShort(s) == s;
    SwitchBytes(wide, s, ENTER_ALT);
    Unpended(wide, s, ModeSwitch(ENTER_ALT));
    WriteConcat(wide, s, ModeSwitch(ENTER_ALT), output);
    WriteConcat(wide, s, ModeSwitch(ENTER_ALT) + output, ModeSwitch(LEAVE_ALT));
    hide Write;
    LeavingPending(wide, s, u);
  }

  /** The shortest output that keeps the primary screen from coming back: one ESC. */
  lemma LoneEscape(wide: nat -> nat, s: Screen)
    requires Ready(s) && s.state == Ground && s.pending == [] && !s.altActive
    ensures WriteUndisturbed(wide, Entered(s), [ESC])
    ensures var o := Write(wide, s, ModeSwitch(ENTER_ALT) + [ESC] + ModeSwitch(LEAVE_ALT)); o.Alive? && !GivesBack(s, o)
  {
    hide Inv, Grows, ModeSwitch, SetAltScreen;
    var t := Entered(s);
    var u := Restart(t);
    EscapeOnly(wide, t);
    assert CutShort(s) == s;
    SwitchBytes(wide, s, ENTER_ALT);
    Unpended(wide, s, ModeSwitch(ENTER_ALT));
    WriteConcat(wide, s, ModeSwitch(ENTER_ALT), [ESC]);
    hide Write, WriteUndisturbed;
    AltScreenIsolated(wide, s, [ESC], u);
  }

  lemma EscapeOnly(wide: nat -> nat, t: Screen)
    requires Inv(t) && t.pending == [] && t.state == Ground
    ensures WriteUndisturbed(wide, t, [ESC]) && Write(wide, t, [ESC]) == Alive(Restart(t))
  {
    hide Inv, Grows;
    Unpended(wide, t, [ESC]);
    RunByte(wide, t, ESC, []);
    assert [ESC] + [] == [ESC] && [ESC][1..] == [] && t.pending + [ESC] == [ESC] && t.(pending := []) == t;
    assert Next(wide, t, [ESC]) == Restart(t) && Taken(t, [ESC]) == 1;
    assert Undisturbed(wide, Restart(t), []);
  }

  // ----- the cursor that leaves the screen -----

  /** The cursor is on the screen, or there was a panic. */
  predicate Stays(o: Outcome) {
    o.Alive? ==> OnScreen(o.screen)
  }

  lemma {:induction false} FollowedPrefix(wide: nat -> nat, s: Screen, data: seq<byte>, k: nat)
    requires Inv(s) && s.pending == [] && Followed(wide, s, data) && k <= |data|
    ensures Followed(wide, s, data[..k])
    decreases k
  {
    var p, q := data[..k], data[k..];
    assert p + q == data;
    hide Inv, Grows, Next, Reaches, Taken, Fits, Undisturbed, LeavesAlt;
    if p != [] && !Incomplete(s, p) {
      RoundStable(wide, s, p, q);
      var n := Taken(s, p);
      assert data[n..][..k - n] == p[n..];
      ReadyReaches(wide, s, p);
      FollowedPrefix(wide, Next(wide, s, p), data[n..], k - n);
    }
  }

  lemma ReadyReaches(wide: nat -> nat, s: Screen, data: seq<byte>)
    requires data != []
    ensures Ready(s) ==> Reaches(wide, s, data)
  {
  }

  /** Output that is not followed takes the cursor off the screen at some place, with the final byte of a motion. */
  lemma {:induction false} LostSomewhere(wide: nat -> nat, s: Screen, data: seq<byte>) returns (k: nat)
    requires Ready(s) && s.pending == [] && !Followed(wide, s, data)
    ensures 0 < k <= |data| && data[k - 1] < 0x80 && Run(wide, s, data[..k]).Alive? && !Stays(Run(wide, s, data[..k]))
    decreases |data|
  {
    hide Inv, Grows, Next, Reaches, Undisturbed, LeavesAlt, MoveFits;
    var n := Taken(s, data);
    ReadyReaches(wide, s, data);
    var fits := Fits(s, data[0]);
    if fits {
      k := LostSomewhere(wide, Next(wide, s, data), data[n..]);
      k := n + k;
    } else {
      k := 1;
    }
    var p, q := data[..k], data[k..];
    assert p + q == data && p[k - 1] < 0x80;
    Complete(s, p);
    RoundStable(wide, s, p, q);
    ReadyReaches(wide, s, p);
    hide Fits, Followed, Taken;
    assert fits ==> data[n..][..k - n] == p[n..];
    assert !fits ==> p[n..] == [];
  }

  /** Bytes that end in ASCII are no unfinished character. */
  lemma Complete(s: Screen, p: seq<byte>)
    requires p != [] && p[|p| - 1] < 0x80
    ensures !Incomplete(s, p)
  {
  }

  /**
  The motions of a write stay within 64 bits exactly when, after each beginning of it, the cursor is on the screen: no
  write panics before its cursor has left the screen.
  */
  lemma FollowedExactly(wide: nat -> nat, s: Screen, data: seq<byte>)
    requires Inv(s) && s.pending == []
    ensures Followed(wide, s, data) <==> forall k :: 0 <= k <= |data| ==> Stays(Run(wide, s, data[..k]))
  {
    hide Inv, Grows, Run, Followed, Undisturbed;
    if Followed(wide, s, data) {
      forall k | 0 <= k <= |data|
        ensures Stays(Run(wide, s, data[..k]))
      {
        FollowedPrefix(wide, s, data, k);
      }
    } else if OnScreen(s) {
      var k := LostSomewhere(wide, s, data);
    } else {
      RunNothing(wide, s, data);
    }
  }

  lemma RunNothing(wide: nat -> nat, s: Screen, data: seq<byte>)
    requires Inv(s) && s.pending == []
    ensures Run(wide, s, data[..0]) == Alive(s)
  {
  }

  /** The first k bytes of the output, in whole rounds, lead from s to t. */
  predicate Rounds(wide: nat -> nat, s: Screen, data: seq<byte>, k: nat, t: Screen)
    requires Inv(s) && s.pending == [] && k <= |data|
    decreases |data|
  {
    if k == 0 then t == s
    else
      && !Incomplete(s, data) && Reaches(wide, s, data) && Taken(s, data) <= k
      && Rounds(wide, Next(wide, s, data), data[Taken(s, data)..], k - Taken(s, data), t)
  }

  /** The next round indexes by the cursor what is not there. */
  predicate OutOfRange(wide: nat -> nat, t: Screen, data: seq<byte>) {
    data != [] && !Incomplete(t, data) && !Reaches(wide, t, data)
  }

  lemma {:induction false} PanicSomewhere(wide: nat -> nat, s: Screen, data: seq<byte>) returns (k: nat, t: Screen)
    requires Inv(s) && s.pending == [] && Run(wide, s, data).Panicked?
    ensures k <= |data| && Rounds(wide, s, data, k, t) && OutOfRange(wide, t, data[k..])
    decreases |data|
  {
    hide Inv, Grows, Next, Reaches, Taken, Undisturbed, LeavesAlt, Followed;
    if !Reaches(wide, s, data) {
      k, t := 0, s;
      assert data[0..] == data;
    } else {
      var n := Taken(s, data);
      var j;
      j, t := PanicSomewhere(wide, Next(wide, s, data), data[n..]);
      k := n + j;
      assert data[n..][j..] == data[k..];
    }
  }

  lemma {:induction false} RoundsPanic(wide: nat -> nat, s: Screen, data: seq<byte>, k: nat, t: Screen)
    requires Inv(s) && s.pending == [] && k <= |data| && Rounds(wide, s, data, k, t) && OutOfRange(wide, t, data[k..])
    ensures Run(wide, s, data).Panicked?
    decreases |data|
  {
    hide Inv, Grows, Next, Reaches, Taken, Undisturbed, LeavesAlt, Followed;
    if k == 0 {
      assert data[0..] == data;
    } else {
      var n := Taken(s, data);
      assert data[n..][k - n..] == data[k..];
      RoundsPanic(wide, Next(wide, s, data), data[n..], k - n, t);
    }
  }

  /** Output panics exactly when some screen that its rounds lead to meets a round that indexes what is not there. */
  lemma PanicsExactly(wide: nat -> nat, s: Screen, data: seq<byte>)
    requires Inv(s) && s.pending == []
    ensures Run(wide, s, data).Panicked? <==>
              exists k, t :: 0 <= k <= |data| && Rounds(wide, s, data, k, t) && OutOfRange(wide, t, data[k..])
  {
    hide Inv, Grows, Run, Rounds, OutOfRange, Followed, Undisturbed;
    if Run(wide, s, data).Panicked? {
      var k, t := PanicSomewhere(wide, s, data);
    }
    if k, t :| 0 <= k <= |data| && Rounds(wide, s, data, k, t) && OutOfRange(wide, t, data[k..]) {
      RoundsPanic(wide, s, data, k, t);
    }
  }

  /** A cursor that whole rounds have taken off the screen was taken off by one of them, the final byte of a motion. */
  lemma {:induction false} WrapSomewhere(wide: nat -> nat, s: Screen, data: seq<byte>, k: nat, t: Screen)
    returns (j: nat, u: Screen)
    requires Ready(s) && s.pending == [] && k <= |data| && Rounds(wide, s, data, k, t) && !OnScreen(t)
    ensures j < k && Rounds(wide, s, data, j, u) && OnScreen(u) && !Fits(u, data[j])
    decreases |data|
  {
    hide Inv, Grows, Next, Reaches, Undisturbed, LeavesAlt, MoveFits, Fits;
    if !Fits(s, data[0]) {
      j, u := 0, s;
    } else {
      var n := Taken(s, data);
      var i;
      i, u := WrapSomewhere(wide, Next(wide, s, data), data[n..], k - n, t);
      j := n + i;
      assert data[n..][i] == data[j];
    }
  }

  /**
  A write that begins with the cursor on the screen and panics has come to a motion that leaves 64 bits, and later, with the
  cursor off the screen, to what indexes by it.
  */
  lemma PanicTraced(wide: nat -> nat, s: Screen, data: seq<byte>)
    requires Ready(s) && s.pending == [] && Run(wide, s, data).Panicked?
    ensures exists j, u, k, t :: 0 <= j < k <= |data|
              && Rounds(wide, s, data, j, u) && OnScreen(u) && !Fits(u, data[j])
              && Rounds(wide, s, data, k, t) && !OnScreen(t) && OutOfRange(wide, t, data[k..])
  {
    hide Inv, Grows, Run, Rounds, OutOfRange, Fits, Followed, Undisturbed;
    PanicsExactly(wide, s, data);
    var k, t :| 0 <= k <= |data| && Rounds(wide, s, data, k, t) && OutOfRange(wide, t, data[k..]);
    RoundsKeep(wide, s, data, k, t);
    RangeLeft(wide, t, data[k..]);
    var j, u := WrapSomewhere(wide, s, data, k, t);
  }

  lemma {:induction false} RoundsKeep(wide: nat -> nat, s: Screen, data: seq<byte>, k: nat, t: Screen)
    requires Inv(s) && s.pending == [] && k <= |data| && Rounds(wide, s, data, k, t)
    ensures Inv(t) && t.pending == []
    decreases |data|
  {
    hide Inv, Grows, Next, Reaches, Taken, Undisturbed, LeavesAlt, Fits;
    if k > 0 {
      var n := Taken(s, data);
      RoundsKeep(wide, Next(wide, s, data), data[n..], k - n, t);
    }
  }

  /** On a screen that shows its cursor, nothing is out of range. */
  lemma RangeLeft(wide: nat -> nat, t: Screen, data: seq<byte>)
    requires Inv(t) && OutOfRange(wide, t, data)
    ensures !OnScreen(t)
  {
    ReadyReaches(wide, t, data);
  }

  const DOWN_MOST := [ESC, 0x5B] + Spell(MAX_INT) + [0x42]

  /** CUD by the largest 64-bit number, 9223372036854775807, from any row but the first puts the cursor above row 0. */
  lemma CursorDownWraps(wide: nat -> nat, s: Screen)
    requires Ready(s) && s.state == Ground && s.pending == [] && s.curY > 0
    ensures match Write(wide, s, DOWN_MOST)
            case Alive(t) => t.curY < 0 && t.state == Ground && t.pending == [] && !t.wrapNext && t.altActive == s.altActive
            case Panicked => false
  {
    hide Spell, Write, Run;
    Unpended(wide, s, DOWN_MOST);
    assert Digits(Spell(MAX_INT));
    RunSequence(wide, s, Spell(MAX_INT), 0x42);
    ParamSpell(MAX_INT);
    assert CutShort(s) == s;
    DownByMost(InCsi(s, Spell(MAX_INT)));
  }

  lemma DownByMost(s: Screen)
    requires Ready(s) && s.curY > 0 && s.pending == [] && Digits(s.params) && ParseParams(s.params) == [MAX_INT]
    ensures var t := ControlSequence(s, 0x42); t.curY < 0 && t.pending == [] && !t.wrapNext && t.altActive == s.altActive
    ensures FinalReaches(s, 0x42)
  {
    assert s.curY < s.rows <= MAX_SIDE;
    hide Inv, Lasting, SavedScreenKept, ParseParams;
    assert !Private(s.params);
    assert Target(s, 0x42, MAX_INT, 1).1 < 0;
  }

  /** ESC [ H: the cursor to the top left. */
  const HOME: seq<byte> := [ESC, 0x5B, 0x48]

  /** A motion that wraps is harmless before another that is absolute, and fatal before text. */
  lemma LostCursor(wide: nat -> nat, s: Screen)
    requires Ready(s) && s.state == Ground && s.pending == [] && s.curY > 0 && !s.altActive
    ensures Write(wide, s, DOWN_MOST + [0x78]).Panicked?
    ensures match Write(wide, s, DOWN_MOST + HOME)
            case Alive(r) => r.curX == 0 && r.curY == 0
            case Panicked => false
  {
    CursorDownWraps(wide, s);
    hide Inv, Grows, Write, WriteFollowed, WriteUndisturbed;
    WriteConcat(wide, s, DOWN_MOST, [0x78]);
    WriteConcat(wide, s, DOWN_MOST, HOME);
    FromAbove(wide, Write(wide, s, DOWN_MOST).screen);
  }

  /**
  With the cursor above row 0, a rune panics; a cursor position brings the cursor back; and the alternate screen saves the
  cursor where it is.
  */
  lemma FromAbove(wide: nat -> nat, t: Screen)
    requires Inv(t) && t.curY < 0 && t.state == Ground && t.pending == [] && !t.wrapNext && !t.altActive
    ensures Write(wide, t, [0x78]).Panicked?
    ensures match Write(wide, t, HOME)
            case Alive(r) => r.curX == 0 && r.curY == 0
            case Panicked => false
    ensures match Write(wide, t, ModeSwitch(ENTER_ALT))
            case Alive(r) => OnScreen(r) && r.altCurY < 0
            case Panicked => false
  {
    hide Inv, Grows, SavedScreenKept, Run, ModeSwitch;
    Unpended(wide, t, [0x78]);
    RunByte(wide, t, 0x78, []);
    assert [0x78] + [] == [0x78];
    assert [ESC, 0x5B] + [] + [0x48] == HOME;
    Unpended(wide, t, HOME);
    RunSequence(wide, t, [], 0x48);
    assert CutShort(t) == t;
    PositionHome(InCsi(t, []));
    Unpended(wide, t, ModeSwitch(ENTER_ALT));
    SwitchBytes(wide, t, ENTER_ALT);
  }

  lemma PositionHome(s: Screen)
    requires Inv(s) && s.pending == [] && s.params == []
    ensures FinalReaches(s, 0x48) && ControlSequence(s, 0x48).curX == 0 && ControlSequence(s, 0x48).curY == 0
  {
    assert s.cols >= 1 && s.rows >= 1;
    hide Inv, Lasting, SavedScreenKept;
    assert ParseParams([]) == [];
  }

  // ----- any mixture of output and resizing -----

  datatype Event = Bytes(data: seq<byte>) | Window(cols: int, rows: int)

  predicate FitsSide(events: seq<Event>) {
    forall e :: e in events && e.Window? ==> e.cols <= MAX_SIDE && e.rows <= MAX_SIDE
  }

  /**
  The screen after any interleaving of writes and size changes, wherever the cursor has been: unless there was a panic,
  grid, saved screen, scroll region, styles and history are still well formed, and the history has not lost a line it had
  room for.
  */
  function Driven(wide: nat -> nat, s: Screen, events: seq<Event>): (o: Outcome)
    requires Inv(s) && FitsSide(events)
    ensures Steady(wide, s, events) ==> o.Alive? && OnScreen(o.screen)
    ensures o.Alive? ==> Inv(o.screen) && o.screen.maxScrollback == s.maxScrollback
    ensures o.Alive? ==> Grows(s.scrollback, o.screen.scrollback, s.maxScrollback)
    decreases |events|
  {
    if events == [] then Alive(s)
    else match Happen(wide, s, events[0])
      case Panicked => Panicked
      case Alive(t) =>
        var o := Driven(wide, t, events[1..]);
        if o.Alive? then GrowsTrans(s.scrollback, t.scrollback, o.screen.scrollback, s.maxScrollback); o else o
  }

  /** The cursor is on the screen, and no motion in any of the writes leaves 64 bits. */
  predicate Steady(wide: nat -> nat, s: Screen, events: seq<Event>)
    requires Inv(s) && FitsSide(events)
    decreases |events|
  {
    && OnScreen(s)
    && (events == []
        || ((events[0].Bytes? ==> WriteFollowed(wide, s, events[0].data))
            && Steady(wide, Happen(wide, s, events[0]).screen, events[1..])))
  }

  function Happen(wide: nat -> nat, s: Screen, e: Event): (o: Outcome)
    requires Inv(s) && FitsSide([e])
    ensures o.Alive? ==> Inv(o.screen) && o.screen.maxScrollback == s.maxScrollback && |o.screen.scrollback| <= s.maxScrollback
    ensures o.Alive? ==> Grows(s.scrollback, o.screen.scrollback, s.maxScrollback)
    ensures OnScreen(s) && (e.Window? || WriteFollowed(wide, s, e.data)) ==> o.Alive? && OnScreen(o.screen)
  {
    match e
    case Bytes(data) => Write(wide, s, data)
    case Window(cols, rows) => Alive(Resize(s, cols, rows))
  }

  // ----- styles -----

  /** A parameter of an SGR begins at i. */
  predicate FieldAt(spec: seq<byte>, i: nat) {
    i <= |spec| && (i == 0 || spec[i - 1] == SEMICOLON)
  }

  /** The parameter that begins at i, up to the next semicolon. */
  function FieldFrom(spec: seq<byte>, i: nat): seq<byte>
    requires i <= |spec|
  {
    var rest := spec[i..];
    var k := IndexOf(rest, SEMICOLON);
    if k < 0 then rest else rest[..k]
  }

  predicate ResetsAt(spec: seq<byte>, i: nat) {
    FieldAt(spec, i) && IsReset(FieldFrom(spec, i))
  }

  lemma FieldShift(spec: seq<byte>, k: nat, i: nat)
    requires k < |spec| && spec[k] == SEMICOLON && i <= |spec| - k - 1
    ensures ResetsAt(spec[k + 1..], i) <==> ResetsAt(spec, k + 1 + i)
  {
    hide IsReset, IndexOf;
    DropTwice(spec, k + 1, i);
    assert FieldAt(spec[k + 1..], i) <==> FieldAt(spec, k + 1 + i);
  }

  /** At i begins a parameter that resets, and none does behind it; i is -1 where no parameter resets. */
  predicate IsLastReset(spec: seq<byte>, i: int) {
    && -1 <= i <= |spec|
    && (i >= 0 ==> ResetsAt(spec, i))
    && forall j :: i < j <= |spec| && j >= 0 ==> !ResetsAt(spec, j)
  }

  lemma FirstField(spec: seq<byte>)
    ensures var k := IndexOf(spec, SEMICOLON);
            && (ResetsAt(spec, 0) <==> IsReset(if k < 0 then spec else spec[..k]))
            && forall j :: 0 < j <= (if k < 0 then |spec| else k) ==> !ResetsAt(spec, j)
  {
    hide IsReset;
    var k := IndexOf(spec, SEMICOLON);
    assert spec[0..] == spec;
    assert FieldFrom(spec, 0) == if k < 0 then spec else spec[..k];
    assert forall j :: 0 < j <= (if k < 0 then |spec| else k) ==> !FieldAt(spec, j);
  }

  lemma LaterField(spec: seq<byte>, k: nat, later: int)
    requires k < |spec| && spec[k] == SEMICOLON && IsLastReset(spec[k + 1..], later)
    requires forall j :: 0 < j <= k ==> !ResetsAt(spec, j)
    ensures IsLastReset(spec, if later >= 0 then k + 1 + later else if ResetsAt(spec, 0) then 0 else -1)
  {
    hide ResetsAt;
    if later >= 0 { FieldShift(spec, k, later); }
    forall j | k + 1 + later < j <= |spec| && j > k
      ensures !ResetsAt(spec, j)
    {
      FieldShift(spec, k, j - k - 1);
      assert later < j - k - 1;
    }
  }

  /** The place found is that of the last parameter that resets. The numbers of a colour are parameters here. */
  lemma {:induction false} LastResetExactly(spec: seq<byte>)
    ensures IsLastReset(spec, LastReset(spec))
    decreases |spec|
  {
    hide IsReset, ResetsAt, IndexOf;
    var k := IndexOf(spec, SEMICOLON);
    FirstField(spec);
    if k >= 0 {
      hide IsLastReset;
      LastResetExactly(spec[k + 1..]);
      LaterField(spec, k, LastReset(spec[k + 1..]));
    }
  }

  /** Where the parameter behind the one at i begins; beyond the end where there is none. */
  function Behind(spec: seq<byte>, i: nat): (j: nat)
    ensures i <= |spec| ==> i < j
  {
    if i <= |spec| then i + |FieldFrom(spec, i)| + 1 else i
  }

  /** Foreground and background colours: 38 and 48. */
  predicate IsColour(field: seq<byte>) {
    field == [0x33, 0x38] || field == [0x34, 0x38]
  }

  /**
  With the parameters read from a place on, i is that of a number of a colour: the one behind 38;5 or 48;5, or one of the
  three behind 38;2 or 48;2.
  */
  predicate ColourAt(spec: seq<byte>, from: nat, i: nat)
    decreases |spec| + 1 - from
  {
    && from <= |spec|
    && var one := Behind(spec, from);
       var two := Behind(spec, one);
       if IsColour(FieldFrom(spec, from)) && one <= |spec| && FieldFrom(spec, one) == [0x35] then
         (i == two <= |spec|) || ColourFrom(spec, from, Behind(spec, two), i)
       else if IsColour(FieldFrom(spec, from)) && one <= |spec| && FieldFrom(spec, one) == [0x32] then
         var three := Behind(spec, two);
         var four := Behind(spec, three);
         (i <= |spec| && i in {two, three, four}) || ColourFrom(spec, from, Behind(spec, four), i)
       else ColourFrom(spec, from, one, i)
  }

  predicate ColourFrom(spec: seq<byte>, was: nat, from: nat, i: nat)
    decreases |spec| + 1 - was, 0
  {
    was < from <= |spec| && ColourAt(spec, from, i)
  }

  /** A colour is cut off in front of one of its own numbers. */
  predicate CutsColour(spec: seq<byte>) {
    LastReset(spec) >= 0 && ColourAt(spec, 0, LastReset(spec))
  }

  /**
  What the search is meant never to do, it does exactly where a number of a colour is 0, 00 or left out, and no parameter
  behind it resets.
  */
  lemma CutsColourExactly(spec: seq<byte>)
    ensures CutsColour(spec) <==>
              exists i: nat :: ColourAt(spec, 0, i) && ResetsAt(spec, i) && forall j :: i < j <= |spec| ==> !ResetsAt(spec, j)
  {
    hide ResetsAt, ColourAt, LastReset;
    LastResetExactly(spec);
    var last := LastReset(spec);
    if i: nat :| ColourAt(spec, 0, i) && ResetsAt(spec, i) && forall j :: i < j <= |spec| ==> !ResetsAt(spec, j) {
      ResetsWithin(spec, i);
      assert i == last;
    }
  }

  lemma ResetsWithin(spec: seq<byte>, i: nat)
    ensures ResetsAt(spec, i) ==> i <= |spec|
  {
  }

  /** "38;5;0" is cut before the 0, and the colour is lost. */
  lemma ColourIsReset()
    ensures var spec: seq<byte> := [0x33, 0x38, 0x3B, 0x35, 0x3B, 0x30]; LastReset(spec) == 5 && CutsColour(spec)
  {
    var spec: seq<byte> := [0x33, 0x38, 0x3B, 0x35, 0x3B, 0x30];
    FieldEnds(spec, 0, 2);
    FieldEnds(spec, 3, 4);
    FieldEnds(spec, 5, 6);
    assert spec[0..2] == [0x33, 0x38] && spec[3..4] == [0x35] && spec[5..6] == [0x30];
    OneColour(spec);
  }

  lemma OneColour(spec: seq<byte>)
    requires |spec| == 6 && spec[4] == SEMICOLON && spec[5] != SEMICOLON
    requires FieldFrom(spec, 0) == [0x33, 0x38] && Behind(spec, 0) == 3
    requires FieldFrom(spec, 3) == [0x35] && Behind(spec, 3) == 5 && FieldFrom(spec, 5) == [0x30]
    ensures LastReset(spec) == 5 && CutsColour(spec)
  {
    hide FieldFrom, Behind, IndexOf, LastReset;
    LastResetExactly(spec);
    assert ResetsAt(spec, 5) && !FieldAt(spec, 6);
    assert ColourAt(spec, 0, 5);
  }

  /** Up to a semicolon or the end, with none between, is one parameter. */
  lemma FieldEnds(spec: seq<byte>, i: nat, j: nat)
    requires i <= j <= |spec| && SEMICOLON !in spec[i..j] && (j < |spec| ==> spec[j] == SEMICOLON)
    ensures FieldFrom(spec, i) == spec[i..j] && Behind(spec, i) == j + 1
  {
    hide IndexOf;
    var rest := spec[i..];
    TakeOfDrop(spec, i, j - i);
    if j < |spec| {
      FirstAt(rest, SEMICOLON, j - i);
    } else {
      Whole(rest);
    }
  }

  // ----- text, erasing and characters -----

  function PrintAll(wide: nat -> nat, s: Screen, runes: seq<nat>): (r: Screen)
    requires Ready(s)
    ensures Ready(r)
    decreases |runes|
  {
    if runes == [] then s else PrintAll(wide, Print(wide, s, runes[0]), runes[1..])
  }

  predicate IsAscii(runes: seq<nat>) {
    forall i :: 0 <= i < |runes| ==> 0x20 <= runes[i] < 0x7F
  }

  function Cells(runes: seq<nat>, style: nat): Line {
    seq(|runes|, i requires 0 <= i < |runes| => Cell(runes[i], style))
  }

  lemma PrintOne(wide: nat -> nat, s: Screen, r: nat)
    requires Ready(s) && !s.wrapNext && 0x20 <= r < 0x7F
    ensures var q := Print(wide, s, r);
            && Ready(q) && q.grid == s.grid[s.curY := s.grid[s.curY][s.curX := Cell(r, s.style)]]
            && q.curY == s.curY && q.style == s.style && q.cols == s.cols
            && (if s.curX + 1 == s.cols then q.curX == s.curX && q.wrapNext else q.curX == s.curX + 1 && !q.wrapNext)
  {
    hide Grows, SavedScreenKept, StyledAll, StylesInverse, TitleOk, CharPrefix;
  }

  /**
  Text that fits in the rest of the row appears there, from the cursor on, in the current style, and nowhere else; the
  cursor ends behind it, or on the last column with the wrap put off.
  */
  lemma {:induction false} TextAppears(wide: nat -> nat, s: Screen, runes: seq<nat>)
    requires Ready(s) && !s.wrapNext && IsAscii(runes) && s.curX + |runes| <= s.cols
    ensures var q, x, row := PrintAll(wide, s, runes), s.curX, s.grid[s.curY];
            && q.grid == s.grid[s.curY := row[..x] + Cells(runes, s.style) + row[x + |runes|..]]
            && q.curY == s.curY && q.wrapNext == (runes != [] && x + |runes| == s.cols)
            && q.curX == (if q.wrapNext then s.cols - 1 else x + |runes|)
    decreases |runes|
  {
    hide Print, Inv, Kept, Lasting;
    RowShape(s);
    var x, row := s.curX, s.grid[s.curY];
    if runes == [] {
      assert row[..x] + Cells(runes, s.style) + row[x..] == row;
    } else {
      var t := Print(wide, s, runes[0]);
      PrintOne(wide, s, runes[0]);
      var after := row[x := Cell(runes[0], s.style)];
      TextSplit(row, x, runes, s.style);
      if |runes| > 1 {
        TextAppears(wide, t, runes[1..]);
      } else {
        assert runes[1..] == [];
      }
    }
  }

  lemma RowShape(s: Screen)
    requires Ready(s)
    ensures |s.grid| == s.rows && |s.grid[s.curY]| == s.cols
  {
  }

  /** Writing the first rune and then the others is writing them all. */
  lemma TextSplit(row: Line, x: nat, runes: seq<nat>, style: nat)
    requires runes != [] && x + |runes| <= |row|
    ensures var after := row[x := Cell(runes[0], style)];
            var all := row[..x] + Cells(runes, style) + row[x + |runes|..];
            && (|runes| == 1 ==> after == all)
            && after[..x + 1] + Cells(runes[1..], style) + after[x + 1 + |runes[1..]|..] == all
  {
  }

  /** What ED erases: from the cursor on, up to and with it, or everything. */
  predicate Erases(s: Screen, mode: int, x: int, y: int) {
    match mode
    case 0 => y > s.curY || (y == s.curY && x >= s.curX)
    case 1 => y < s.curY || (y == s.curY && x <= s.curX)
    case 2 => true
    case 3 => true
    case _ => false
  }

  lemma {:induction false} ClearRowsCells(s: Screen, lo: int, hi: int, y: int)
    requires Inv(s) && 0 <= lo && hi <= s.rows && 0 <= y < s.rows
    ensures var r := ClearRows(s, lo, hi);
            r.grid[y] == (if lo <= y < hi then Fill(s.grid[y], 0, s.cols, Eraser(s.style)) else s.grid[y]) && r.style == s.style
    decreases hi - lo
  {
    if lo < hi {
      ClearRowsCells(SetLine(s, lo, Fill(s.grid[lo], 0, s.cols, Eraser(s.style))), lo + 1, hi, y);
    }
  }

  /** Erasing the display blanks the cells it should, in the current background, and no other. */
  lemma EraseDisplayCells(s: Screen, mode: int, x: int, y: int)
    requires Ready(s) && 0 <= x < s.cols && 0 <= y < s.rows
    ensures EraseDisplay(s, mode).grid[y][x] == if Erases(s, mode, x, y) then Eraser(s.style) else s.grid[y][x]
  {
    hide Grows, SavedScreenKept, StylesInverse, StyledAll, TitleOk;
    if mode == 0 {
      ClearRowsCells(EraseLine(s, 0), s.curY + 1, s.rows, y);
    } else if mode == 1 {
      ClearRowsCells(EraseLine(s, 1), 0, s.curY, y);
    } else {
      ClearRowsCells(s, 0, s.rows, y);
    }
  }

  lemma CellsBack(row: Line, x: nat, m: nat, c: Cell)
    requires x + m <= |row|
    ensures DeleteCells(InsertCells(row, x, m, c), x, m, c) == row[..|row| - m] + seq(m, _ => c)
  {
    var inserted := InsertCells(row, x, m, c);
    assert inserted[..x] == row[..x] && inserted[x + m..] == row[x..|row| - m];
  }

  /** Deleting as many characters as were inserted brings the row back, but for those pushed off its end. */
  lemma DeleteCharsUndoesInsert(s: Screen, n: nat)
    requires Inv(s) && SliceReaches(s)
    ensures var m := Min(n, s.cols - s.curX);
            var row, r := s.grid[s.curY], DeleteChars(InsertChars(s, n), n);
            && r == s.(grid := s.grid[s.curY := row[..s.cols - m] + seq(m, _ => Eraser(s.style))])
  {
    var m := Min(n, s.cols - s.curX);
    var row := s.grid[s.curY];
    assert |row| == s.cols;
    hide Inv, Grows, SavedScreenKept, InsertCells, DeleteCells;
    CellsBack(row, s.curX, m, Eraser(s.style));
  }
}
