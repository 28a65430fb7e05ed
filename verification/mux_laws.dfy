/**
term/mux_model.go: what each message makes of the multiplexer, pane by pane and key by key, and exactly which messages end it.
*/
module MuxLaws {
  import opened Wrappers
  import opened Utf8
  import opened ScreenModel
  import opened ScreenParser
  import opened MuxModel

  // ----- messages -----

  /** Every tab has been attached, and every one of those sessions has ended without an error. */
  predicate NothingLeft(m: Mux) {
    forall i :: 0 <= i < |m.panes| ==> m.panes[i].state == Closed && !m.panes[i].failed
  }

  /** The pane that a message is for, if it is there and the message is of its newest attach. */
  predicate ReachesPane(m: Mux, idx: int, gen: nat) {
    0 <= idx < |m.panes| && m.panes[idx].gen == gen
  }

  /** A line of the multiplexer's own can be written to the pane. */
  predicate NoticeShows(wide: nat -> nat, m: Mux, idx: int, env: Env)
    requires MuxOk(m) && 0 <= idx < |m.panes|
  {
    PaneScreenOk(m, idx);
    Write(wide, m.panes[idx].screen, SystemLine(env.notice)).Alive?
  }

  lemma PaneScreenOk(m: Mux, i: int)
    requires MuxOk(m) && 0 <= i < |m.panes|
    ensures PaneOk(m.panes[i], PaneRows(m.height)) && Inv(m.panes[i].screen)
  {
  }

  /** Only this pane differs. */
  predicate OnlyPane(m: Mux, r: Mux, idx: int)
    requires 0 <= idx < |m.panes|
  {
    |r.panes| == |m.panes| && r == m.(panes := m.panes[idx := r.panes[idx]])
  }

  /**
  Output of the newest attach is written to the screen of its tab, just those bytes, and nothing else changes but how far up a
  scrolled-up view is; output of an earlier one is dropped.
  */
  lemma OutputShown(wide: nat -> nat, m: Mux, idx: int, gen: nat, data: seq<byte>, env: Env)
    requires MuxOk(m)
    ensures ReachesPane(m, idx, gen) ==> Inv(m.panes[idx].screen)
    ensures var (r, effects) := Update(wide, m, Output(idx, gen, data), env);
            if !ReachesPane(m, idx, gen) then r == m && effects == [NextEvent]
            else match Write(wide, m.panes[idx].screen, data)
              case Panicked => r == m && effects == [Crash]
              case Alive(screen) =>
                && effects == [NextEvent] && OnlyPane(m, r, idx) && SameAttach(m.panes[idx], r.panes[idx])
                && r.panes[idx].screen == screen
                && r.panes[idx].offset ==
                   if m.panes[idx].offset == 0 then 0
                   else m.panes[idx].offset + |screen.scrollback| - |m.panes[idx].screen.scrollback|
  {
    hide MuxOk, PaneOk, Inv, Grows, Write;
    if ReachesPane(m, idx, gen) {
      PaneScreenOk(m, idx);
      PaneShape(m, idx);
      HistoryGains(wide, m.panes[idx].screen, data);
    }
  }

  lemma HistoryGains(wide: nat -> nat, s: Screen, data: seq<byte>)
    requires Inv(s)
    ensures match Write(wide, s, data)
            case Panicked => true
            case Alive(r) => r.rows == s.rows && |r.scrollback| >= |s.scrollback|
  {
    hide Inv, Write;
  }

  /** A session that has been opened is that of its tab from then on, and its output is read. */
  lemma OpenedShown(wide: nat -> nat, m: Mux, idx: int, gen: nat, session: SessionId, env: Env)
    requires MuxOk(m) && Deliverable(m, Opened(idx, gen, session))
    ensures var (r, effects) := Update(wide, m, Opened(idx, gen, session), env);
            if !ReachesPane(m, idx, gen) then r == m && effects == [CloseSession(session), NextEvent]
            else
              && effects == [StartPump(idx, gen, session), NextEvent] && OnlyPane(m, r, idx)
              && r.panes[idx] == m.panes[idx].(session := Some(session), state := Live)
  {
    if ReachesPane(m, idx, gen) { PaneScreenOk(m, idx); }
    hide MuxOk, PaneOk;
  }

  /** The tab of a session that has ended is closed, with that session if it still held one, and the line saying so is written. */
  predicate ClosedBy(wide: nat -> nat, m: Mux, r: Mux, idx: int, failed: bool, env: Env)
    requires MuxOk(m) && 0 <= idx < |m.panes|
  {
    PaneScreenOk(m, idx);
    && OnlyPane(m, r, idx)
    && match Write(wide, m.panes[idx].screen, SystemLine(env.notice))
       case Panicked => r.panes[idx] == m.panes[idx].(state := Closed, failed := failed, session := None)
       case Alive(screen) =>
         r.panes[idx] == m.panes[idx].(screen := screen, state := Closed, failed := failed, session := None)
  }

  lemma ClosedShown(wide: nat -> nat, m: Mux, msg: Msg, env: Env)
    requires MuxOk(m) && Deliverable(m, msg) && (msg.Ended? || msg.OpenFailed?)
    ensures var (r, effects) := Update(wide, m, msg, env);
            if !ReachesPane(m, msg.idx, msg.gen) then r == m && effects == [NextEvent]
            else
              && ClosedBy(wide, m, r, msg.idx, msg.OpenFailed? || msg.failed, env)
              && forall s: SessionId :: CloseSession(s) in effects <==> m.panes[msg.idx].session == Some(s)
  {
    hide MuxOk, PaneOk, Inv, Write, SystemLine, AllEndedCleanly;
    if ReachesPane(m, msg.idx, msg.gen) { PaneScreenOk(m, msg.idx); PaneShape(m, msg.idx); }
  }

  lemma PaneShape(m: Mux, i: int)
    requires MuxOk(m) && 0 <= i < |m.panes|
    ensures var p := m.panes[i]; (p.state == Live <==> p.session.Some?) && 0 <= p.offset <= |p.screen.scrollback|
    ensures var p := m.panes[i]; p.screen.rows == PaneRows(m.height) && (p.gen == 0 ==> p.state == Idle)
  {
    PaneScreenOk(m, i);
    hide Inv;
  }

  /** A new size reaches every screen. */
  lemma WindowShown(wide: nat -> nat, m: Mux, width: int, height: int, env: Env)
    requires MuxOk(m) && width <= MAX_SIDE && height <= MAX_SIDE
    ensures var (r, effects) := Update(wide, m, WindowSize(width, height), env);
            && effects == []
            && if width < 1 || height < 1 then r == m
               else
                 && r == m.(width := width, height := height, panes := r.panes) && |r.panes| == |m.panes|
                 && forall i :: 0 <= i < |m.panes| ==>
                      && Inv(m.panes[i].screen)
                      && r.panes[i] == m.panes[i].(screen := Resize(m.panes[i].screen, width, if height > 3 then height - 2 else 1))
  {
    forall i | 0 <= i < |m.panes|
      ensures PaneOk(m.panes[i], PaneRows(m.height)) && Inv(m.panes[i].screen)
    {
      PaneScreenOk(m, i);
    }
    hide MuxOk, PaneOk, Inv, Resize;
  }

  // ----- the end of the loop -----

  /**
  The loop quits exactly when it is asked to detach, or when a session has ended and, once its tab is closed and says so,
  nothing is left: no tab is idle, opening or live, and none has failed.
  */
  lemma QuitExactly(wide: nat -> nat, m: Mux, msg: Msg, env: Env)
    requires MuxOk(m) && Deliverable(m, msg)
    ensures var (r, effects) := Update(wide, m, msg, env);
            Quit in effects <==>
              || msg.Detach?
              || (msg.Ended? && ReachesPane(m, msg.idx, msg.gen) && NoticeShows(wide, m, msg.idx, env) && NothingLeft(r))
  {
    assert msg.KeyPress? ==> Update(wide, m, msg, env) == KeyStep(wide, m, msg.key, env);
    hide Update;
    if msg.KeyPress? {
      KeysDoNotQuit(wide, m, msg.key, env);
    } else {
      MessagesQuit(wide, m, msg, env);
    }
  }

  lemma MessagesQuit(wide: nat -> nat, m: Mux, msg: Msg, env: Env)
    requires MuxOk(m) && Deliverable(m, msg) && !msg.KeyPress?
    ensures var (r, effects) := Update(wide, m, msg, env);
            Quit in effects <==>
              || msg.Detach?
              || (msg.Ended? && ReachesPane(m, msg.idx, msg.gen) && NoticeShows(wide, m, msg.idx, env) && NothingLeft(r))
  {
    hide MuxOk, PaneOk, Inv, Write, SystemLine, PaneOutput, ResizeAll;
    if (msg.Ended? || msg.OpenFailed?) && ReachesPane(m, msg.idx, msg.gen) { PaneScreenOk(m, msg.idx); }
  }

  lemma KeysDoNotQuit(wide: nat -> nat, m: Mux, key: Key, env: Env)
    requires MuxOk(m)
    ensures Quit !in KeyStep(wide, m, key, env).1
  {
    hide MuxOk, KeyStep, PanesKept, PaneReopens, PanesCrash;
    assert KeyOutcome(m, KeyStep(wide, m, key, env).0, KeyStep(wide, m, key, env).1);
  }

  /** It goes down with a panic exactly when output, or a line of its own, cannot be written to the screen that it is for. */
  lemma CrashExactly(wide: nat -> nat, m: Mux, msg: Msg, env: Env)
    requires MuxOk(m) && Deliverable(m, msg)
    ensures var effects := Update(wide, m, msg, env).1;
            Crash in effects <==>
              match msg
              case Output(idx, gen, data) =>
                ReachesPane(m, idx, gen) && (PaneScreenOk(m, idx); Write(wide, m.panes[idx].screen, data).Panicked?)
              case OpenFailed(idx, gen) => ReachesPane(m, idx, gen) && !NoticeShows(wide, m, idx, env)
              case Ended(idx, gen, _) => ReachesPane(m, idx, gen) && !NoticeShows(wide, m, idx, env)
              case KeyPress(key) =>
                && m.prefix && !key.isPrefix && key.name == "r"
                && m.panes[m.active].state == Closed && !NoticeShows(wide, m, m.active, env)
              case _ => false
  {
    hide MuxOk, PaneOk, Write, SystemLine, ResizeAll;
    if msg.KeyPress? {
      KeyCrashes(wide, m, msg.key, env);
    } else if (msg.Ended? || msg.OpenFailed? || msg.Output?) && ReachesPane(m, msg.idx, msg.gen) {
      PaneScreenOk(m, msg.idx);
    }
  }

  lemma KeyCrashes(wide: nat -> nat, m: Mux, key: Key, env: Env)
    requires MuxOk(m)
    ensures Crash in KeyStep(wide, m, key, env).1 <==>
              && m.prefix && !key.isPrefix && key.name == "r"
              && m.panes[m.active].state == Closed && !NoticeShows(wide, m, m.active, env)
  {
    hide PaneOk, Inv, Write, WriteSystem, SystemLine, ScrollKey, EnterScroll, CommandOf, SendKey, Activate, Reattach, ReattachedPane,
      KeyOutcome;
    PaneScreenOk(m, m.active);
    CommandNames(key.name);
    var t := m.(prefix := false);
    PaneScreenOk(t, t.active);
    ReattachPanics(wide, t, env);
  }

  lemma ReattachPanics(wide: nat -> nat, m: Mux, env: Env)
    requires MuxOk(m)
    ensures Crash in Reattach(wide, m, env).1 <==> m.panes[m.active].state == Closed && !NoticeShows(wide, m, m.active, env)
  {
    hide PaneOk, Inv, Write, SystemLine, KeyOutcome, Reopens;
    PaneScreenOk(m, m.active);
  }

  /** What the keys behind the prefix are called. */
  lemma CommandNames(name: string)
    ensures CommandOf(name) == NextTab <==> name in {"n", "right", "tab"}
    ensures CommandOf(name) == PreviousTab <==> name in {"p", "left", "shift+tab"}
    ensures CommandOf(name) == Leaving <==> name in {"d", "q"}
    ensures CommandOf(name) == Scrolling <==> name == "["
    ensures CommandOf(name) == Helping <==> name == "?"
    ensures CommandOf(name) == Reattaching <==> name == "r"
  {
  }

  // ----- keys -----

  /** The prefix waits for one key, whatever that is; no other key is taken for a command. */
  lemma PrefixTaken(wide: nat -> nat, m: Mux, key: Key, env: Env)
    requires MuxOk(m)
    ensures var (r, effects) := KeyStep(wide, m, key, env);
            && (r.prefix <==> !m.prefix && key.isPrefix && !key.alt)
            && (r.prefix ==> r == m.(prefix := true) && effects == [])
  {
    hide MuxOk, PaneOk, WriteSystem, Inv;
  }

  /** The tab that a command asks for is shown and attached, and no other differs. */
  predicate Shows(m: Mux, r: Mux, effects: seq<Effect>, idx: int) {
    && 0 <= idx < |m.panes|
    && r == m.(prefix := false, mode := Attached, active := idx, panes := r.panes)
    && if m.panes[idx].state == Idle then
         var gen := m.panes[idx].gen + 1;
         effects == [StartOpen(idx, gen)] && r.panes == m.panes[idx := m.panes[idx].(state := Opening, gen := gen)]
       else effects == [] && r.panes == m.panes
  }

  lemma NextShows(wide: nat -> nat, m: Mux, key: Key, env: Env)
    requires MuxOk(m) && m.prefix && !key.isPrefix && key.name in {"n", "right", "tab"}
    ensures var (r, effects) := KeyStep(wide, m, key, env);
            Shows(m, r, effects, if m.active + 1 < |m.panes| then m.active + 1 else 0)
  {
    hide PaneOk, Inv, CommandOf, KeyOutcome;
    CommandNames(key.name);
    NextIndex(m.active, |m.panes|);
  }

  lemma NextIndex(i: nat, n: nat)
    requires i < n
    ensures (i + 1) % n == if i + 1 < n then i + 1 else 0
  {
  }

  lemma PreviousShows(wide: nat -> nat, m: Mux, key: Key, env: Env)
    requires MuxOk(m) && m.prefix && !key.isPrefix && key.name in {"p", "left", "shift+tab"}
    ensures var (r, effects) := KeyStep(wide, m, key, env);
            Shows(m, r, effects, if m.active > 0 then m.active - 1 else |m.panes| - 1)
  {
    hide PaneOk, Inv, CommandOf, KeyOutcome;
    CommandNames(key.name);
    PreviousIndex(m.active, |m.panes|);
  }

  lemma PreviousIndex(i: nat, n: nat)
    requires i < n
    ensures (i + (n - 1)) % n == if i > 0 then i - 1 else n - 1
  {
    if i > 0 { assert i + (n - 1) == (i - 1) + n; }
  }

  /** A digit shows that tab, counted from 1, and 0 the tenth; one that is not there leaves all as it was. */
  lemma DigitShows(wide: nat -> nat, m: Mux, key: Key, env: Env, digit: nat)
    requires MuxOk(m) && m.prefix && !key.isPrefix && digit <= 9 && key.number == Some(digit) && CommandOf(key.name).NoCommand?
    ensures var (r, effects) := KeyStep(wide, m, key, env);
            var tab := if digit == 0 then 10 else digit;
            if tab <= |m.panes| then Shows(m, r, effects, tab - 1) else r == m.(prefix := false) && effects == []
  {
    hide PaneOk, Inv;
  }

  /** The other commands: d and q ask to detach, [ looks back from the last line in view, ? shows the help. */
  lemma OtherCommands(wide: nat -> nat, m: Mux, key: Key, env: Env)
    requires MuxOk(m) && m.prefix && !key.isPrefix
    ensures var (r, effects) := KeyStep(wide, m, key, env);
            && (key.name in {"d", "q"} ==> r == m.(prefix := false) && effects == [Deliver(Detach)])
            && (key.name == "[" ==>
                  && effects == [] && r == m.(prefix := false, mode := Scroll, sel := r.sel) && !r.sel.active
                  && r.sel.cursor == ViewBottom(m.panes[m.active]) - 1)
            && (key.name == "?" ==> r == m.(prefix := false, mode := Help) && effects == [])
  {
    hide PaneOk, Inv, CommandOf, KeyOutcome, Activate, Reattach, SendKey, SelectTab, Turn;
    CommandNames(key.name);
    PaneShape(m, m.active);
  }

  /** r opens a closed tab again, with a line saying so, and forgets the error that it ended with; no other tab. */
  lemma ReattachShows(wide: nat -> nat, m: Mux, key: Key, env: Env)
    requires MuxOk(m) && m.prefix && !key.isPrefix && key.name == "r"
    ensures Inv(m.panes[m.active].screen)
    ensures var (r, effects) := KeyStep(wide, m, key, env);
            var p := m.panes[m.active];
            if p.state != Closed then r == m.(prefix := false) && effects == []
            else
              && OnlyPane(m.(prefix := false), r, m.active)
              && match Write(wide, p.screen, SystemLine(env.notice))
                 case Panicked => effects == [Crash] && r.panes[m.active] == p.(state := Idle, failed := false)
                 case Alive(screen) =>
                   && effects == [StartOpen(m.active, p.gen + 1)]
                   && r.panes[m.active] == p.(screen := screen, state := Opening, failed := false, gen := p.gen + 1)
  {
    hide PaneOk, Inv, Write, SystemLine, KeyOutcome, CommandOf, Reopens;
    CommandNames(key.name);
    PaneScreenOk(m, m.active);
    PaneShape(m, m.active);
  }

  /** Any other key goes to the device, and brings the view back to the tail; so does the prefix behind the prefix. */
  lemma TypingShows(wide: nat -> nat, m: Mux, key: Key, env: Env)
    requires MuxOk(m) && if m.prefix then key.isPrefix && m.mode != Scroll else m.mode == Attached && !(key.isPrefix && !key.alt)
    ensures var r, p := KeyStep(wide, m, key, env).0, m.panes[m.active];
            r == m.(prefix := false, mode := Attached, panes := m.panes[m.active := p.(offset := 0)])
  {
    hide PaneOk, Inv, CommandStep, ScrollKey, KeyOutcome;
  }

  // ----- looking back -----

  /** How far the keys of the scroll mode move the selection cursor. */
  predicate Steps(m: Mux, name: string, delta: int)
    requires m.active < |m.panes|
  {
    var rows, total := PaneRows(m.height), TotalLines(m.panes[m.active].screen);
    || (name in {"up", "k"} && delta == -1)
    || (name in {"down", "j"} && delta == 1)
    || (name in {"pgup", "ctrl+b"} && delta == -rows)
    || (name in {"pgdown", "ctrl+f", " "} && delta == rows)
    || (name in {"home", "g"} && delta == -total)
    || (name in {"end", "G"} && delta == total)
  }

  /** The last line of all. */
  function LastLine(m: Mux): int
    requires m.active < |m.panes|
  {
    TotalLines(m.panes[m.active].screen) - 1
  }

  /**
  The selection cursor moves by just that much, as far as there are lines. The view stays where it is as long as it shows the
  cursor; otherwise it moves until the cursor is on its first or last line. The other end of a selection stays behind.
  */
  lemma CursorSteps(m: Mux, key: Key, delta: int)
    requires MuxOk(m) && m.mode == Scroll && !m.prefix && Steps(m, key.name, delta)
    ensures var r := ScrollKey(m, key);
            var p, q := m.panes[m.active], r.panes[m.active];
            && OnlyPane(m.(sel := r.sel), r, m.active) && q == p.(offset := q.offset)
            && r.sel.cursor == Min(Max(m.sel.cursor + delta, 0), LastLine(m))
            && (0 <= m.sel.cursor + delta <= LastLine(m) ==> r.sel.cursor == m.sel.cursor + delta)
            && r.sel.active == m.sel.active && r.sel.anchor == (if m.sel.active then m.sel.anchor else r.sel.cursor)
            && (if ViewBottom(p) - PaneRows(m.height) <= r.sel.cursor < ViewBottom(p) then q.offset == p.offset
                else r.sel.cursor == ViewBottom(q) - 1 || r.sel.cursor == ViewTop(q, PaneRows(m.height)))
  {
    hide PaneOk, Inv, ScrollCommandOf, MoveSelection;
    PaneShape(m, m.active);
    ScrollNames(key.name);
    SelectionSteps(m, delta);
  }

  lemma ScrollNames(name: string)
    ensures name in {"up", "k"} ==> ScrollCommandOf(name) == Lines(-1)
    ensures name in {"down", "j"} ==> ScrollCommandOf(name) == Lines(1)
    ensures name in {"pgup", "ctrl+b"} ==> ScrollCommandOf(name) == Pages(-1)
    ensures name in {"pgdown", "ctrl+f", " "} ==> ScrollCommandOf(name) == Pages(1)
    ensures name in {"home", "g"} ==> ScrollCommandOf(name) == ToEnd(-1)
    ensures name in {"end", "G"} ==> ScrollCommandOf(name) == ToEnd(1)
    ensures name in {"esc", "q", "y"} ==> ScrollCommandOf(name) == Leave
    ensures name == "v" ==> ScrollCommandOf(name) == Mark
  {
  }

  lemma SelectionSteps(m: Mux, delta: int)
    requires MuxOk(m)
    ensures var r := MoveSelection(m, delta);
            var p, q := m.panes[m.active], r.panes[m.active];
            && OnlyPane(m.(sel := r.sel), r, m.active) && q == p.(offset := q.offset)
            && r.sel.cursor == Min(Max(m.sel.cursor + delta, 0), LastLine(m))
            && r.sel.active == m.sel.active && r.sel.anchor == (if m.sel.active then m.sel.anchor else r.sel.cursor)
            && (if ViewBottom(p) - PaneRows(m.height) <= r.sel.cursor < ViewBottom(p) then q.offset == p.offset
                else r.sel.cursor == ViewBottom(q) - 1 || r.sel.cursor == ViewTop(q, PaneRows(m.height)))
  {
    PaneShape(m, m.active);
    hide Inv;
  }

  /** Leaving goes back to the tail, and v begins a selection at the cursor or drops it. */
  lemma ScrollEnds(m: Mux, key: Key)
    requires MuxOk(m)
    ensures key.name in {"esc", "q", "y"} ==>
              ScrollKey(m, key) == m.(mode := Attached, sel := NO_SELECTION,
                                      panes := m.panes[m.active := m.panes[m.active].(offset := 0)])
    ensures key.name == "v" ==>
              ScrollKey(m, key) == m.(sel := Selection(!m.sel.active, m.sel.cursor, m.sel.cursor))
  {
    hide MuxOk, PaneOk, Inv, ScrollCommandOf;
    ScrollNames(key.name);
  }

  lemma DownUndoesUp(m: Mux, up: Key, down: Key)
    requires MuxOk(m) && m.mode == Scroll && !m.prefix && up.name in {"up", "k"} && down.name in {"down", "j"}
    requires 0 < m.sel.cursor <= LastLine(m)
    ensures ScrollKey(ScrollKey(m, up), down).sel == m.sel.(anchor := if m.sel.active then m.sel.anchor else m.sel.cursor)
  {
    CursorSteps(m, up, -1);
    CursorSteps(ScrollKey(m, up), down, 1);
    hide MuxOk, ScrollKey;
  }
}
