/**
term/mux_model.go: the multiplexer as the object that its update loop changes in place, one pane object for each tab.
Every method is proved against the function of MuxModel that says what the step amounts to.
*/
module MuxHeap {
  import opened Wrappers
  import opened Utf8
  import opened ScreenModel
  import opened ScreenParser
  import opened MuxModel

  class PaneCell {
    var screen: Screen
    var session: Option<SessionId>
    var state: PaneState
    var failed: bool
    var gen: nat
    var offset: int

    constructor (scrollback: int)
      ensures Value() == NewPane(scrollback)
    {
      screen := NewScreen(80, 22, scrollback);
      session, state, failed, gen, offset := None, Idle, false, 0, 0;
    }

    ghost function Value(): Pane
      reads this
    {
      Pane(screen, session, state, failed, gen, offset)
    }

    /** A message of the multiplexer goes into the pane's own screen. The result says whether that went without a panic. */
    method WriteSystem(wide: nat -> nat, text: seq<byte>) returns (ok: bool)
      requires Inv(screen) && 0 <= offset <= |screen.scrollback|
      modifies `screen
      ensures ok <==> MuxModel.WriteSystem(wide, old(Value()), text).Some?
      ensures ok ==> Value() == MuxModel.WriteSystem(wide, old(Value()), text).value
      ensures !ok ==> unchanged(this)
    {
      hide Inv, Write, WriteFollowed, WriteUndisturbed, SavedScreenKept, Lasting, SystemLine;
      var o := Write(wide, screen, SystemLine(text));
      ok := o.Alive?;
      if ok { screen := o.screen; }
    }

    /** The pane turns idle, says that it will be opened again, and is opening; unless saying so panics. */
    method Reattach(wide: nat -> nat, env: Env, ghost rows: int) returns (ok: bool)
      requires PaneOk(Value(), rows) && state == Closed
      modifies `screen, `state, `failed, `gen
      ensures ok == ReattachedPane(wide, old(Value()), env, rows).1
      ensures Value() == ReattachedPane(wide, old(Value()), env, rows).0
    {
      PaneHolds(Value(), rows);
      hide PaneOk, Inv, MuxModel.WriteSystem;
      ok := SayReopening(wide, env.notice);
      if ok {
        Open();
      }
    }

    method SayReopening(wide: nat -> nat, notice: seq<byte>) returns (ok: bool)
      requires Inv(screen) && 0 <= offset <= |screen.scrollback|
      modifies `screen, `state, `failed
      ensures ok <==> MuxModel.WriteSystem(wide, old(Value()), notice).Some?
      ensures ok ==> Value() == MuxModel.WriteSystem(wide, old(Value()), notice).value.(state := Idle, failed := false)
      ensures !ok ==> Value() == old(Value()).(state := Idle, failed := false)
    {
      hide Inv, MuxModel.WriteSystem;
      Rest();
      NoticeOnly(wide, old(Value()), Value(), notice);
      ok := WriteSystem(wide, notice);
    }

    method Rest()
      modifies `state, `failed
      ensures Value() == old(Value()).(state := Idle, failed := false)
    {
      state, failed := Idle, false;
    }

    /** A new attach, under the next number. */
    method Open()
      modifies `state, `gen
      ensures Value() == old(Value()).(state := Opening, gen := old(gen) + 1)
    {
      state := Opening;
      gen := gen + 1;
    }

    /** The pane lets go of its session and says that it ended; unless saying so panics. */
    method Close(wide: nat -> nat, failed: bool, env: Env, ghost rows: int) returns (ok: bool)
      requires PaneOk(Value(), rows) && gen > 0
      modifies this
      ensures Value() == ClosedPane(wide, old(Value()), failed, env, rows).0
      ensures ok == ClosedPane(wide, old(Value()), failed, env, rows).1
    {
      PaneHolds(Value(), rows);
      hide PaneOk, Inv, MuxModel.WriteSystem;
      state := Closed;
      this.failed := failed;
      if session.Some? {
        session := None;
      }
      NoticeOnly(wide, old(Value()), Value(), env.notice);
      ok := WriteSystem(wide, env.notice);
    }

    method Resize(width: int, rows: int, ghost was: int)
      requires PaneOk(Value(), was) && 1 <= width <= MAX_SIDE && 1 <= rows <= MAX_SIDE
      modifies `screen
      ensures Value() == ResizePane(old(Value()), width, rows, was)
    {
      PaneHolds(Value(), was);
      hide PaneOk, Inv;
      screen := ScreenModel.Resize(screen, width, rows);
    }

    /** Output, and the view that stays where it is. */
    method Show(wide: nat -> nat, data: seq<byte>, rows: int) returns (ok: bool)
      requires PaneOk(Value(), rows)
      modifies `screen, `offset
      ensures PaneOutput(wide, old(Value()), data, rows) == if ok then Some(Value()) else None
      ensures !ok ==> unchanged(this)
    {
      PaneHolds(Value(), rows);
      hide PaneOk, Inv, Write, Lasting, WriteFollowed, WriteUndisturbed, SavedScreenKept, Shown;
      var o := Write(wide, screen, data);
      ok := o.Alive?;
      if ok {
        Pin(o.screen, rows);
      }
    }

    /** A new screen, and the view that stays where it is. */
    method Pin(next: Screen, rows: int)
      modifies `screen, `offset
      ensures Value() == Shown(old(Value()), next, rows)
    {
      var before := TotalLines(screen);
      screen := next;
      if offset > 0 {
        var total := TotalLines(screen);
        offset := Clamp(offset + total - before, 0, Max(0, total - rows));
      }
    }
  }

  lemma PaneIsOk(m: Mux, idx: int)
    requires MuxOk(m) && 0 <= idx < |m.panes|
    ensures PaneOk(m.panes[idx], PaneRows(m.height))
  {
  }

  /** A notice goes into the screen, whatever else there is about the pane. */
  lemma NoticeOnly(wide: nat -> nat, p: Pane, q: Pane, text: seq<byte>)
    requires Inv(p.screen) && 0 <= p.offset <= |p.screen.scrollback| && q.screen == p.screen && q.offset == p.offset
    ensures MuxModel.WriteSystem(wide, q, text).Some? <==> MuxModel.WriteSystem(wide, p, text).Some?
    ensures MuxModel.WriteSystem(wide, q, text).Some? ==>
              MuxModel.WriteSystem(wide, q, text).value == q.(screen := MuxModel.WriteSystem(wide, p, text).value.screen)
  {
    hide Inv, Write, WriteFollowed, WriteUndisturbed, SystemLine, SavedScreenKept, Lasting;
  }

  lemma NewIsIdle(p: Pane, rows: int)
    requires PaneOk(p, rows)
    ensures p.state != Idle ==> p.gen > 0
  {
  }

  lemma PaneHolds(p: Pane, rows: int)
    requires PaneOk(p, rows)
    ensures Inv(p.screen) && 0 <= p.offset <= |p.screen.scrollback|
  {
  }

  lemma ActiveIsTab(m: Mux)
    requires MuxOk(m)
    ensures m.active < |m.panes|
  {
  }

  lemma MarkKeeps(m: Mux)
    requires MuxOk(m)
    ensures forall sel :: MuxOk(m.(sel := sel))
  {
  }

  lemma ModeKeeps(m: Mux)
    requires MuxOk(m)
    ensures m.active < |m.panes| && forall mode :: MuxOk(m.(mode := mode))
  {
  }

  lemma PrefixKeeps(m: Mux)
    requires MuxOk(m)
    ensures forall prefix :: MuxOk(m.(prefix := prefix))
  {
  }

  class LiveMux {
    const panes: seq<PaneCell>
    var active: nat
    var width: int
    var height: int
    var mode: Mode
    var prefix: bool
    var sel: Selection

    constructor (cells: seq<PaneCell>, ghost scrollback: int)
      requires cells != [] && forall i, j :: 0 <= i < j < |cells| ==> cells[i] != cells[j]
      requires forall i :: 0 <= i < |cells| ==> cells[i].Value() == NewPane(scrollback)
      ensures Valid() && panes == cells && View() == NewMux(|cells|, scrollback)
    {
      panes := cells;
      active, width, height, mode, prefix, sel := 0, 80, 24, Attached, false, NO_SELECTION;
      new;
      assert Values() == NewMux(|cells|, scrollback).panes;
    }

    ghost function Values(): (r: seq<Pane>)
      reads panes
      ensures |r| == |panes| && forall i :: 0 <= i < |panes| ==> r[i] == panes[i].Value()
    {
      seq(|panes|, i requires 0 <= i < |panes| reads panes => panes[i].Value())
    }

    ghost function View(): Mux
      reads this, panes
    {
      Mux(Values(), active, width, height, mode, prefix, sel)
    }

    /** No two tabs share a pane. */
    ghost predicate Apart() {
      forall i, j :: 0 <= i < j < |panes| ==> panes[i] != panes[j]
    }

    ghost predicate Valid()
      reads this, panes
    {
      Apart() && MuxOk(View())
    }

    /** Where one pane has changed and the others have not, one entry of the view has. */
    twostate lemma OneChanged(idx: nat)
      requires idx < |panes| && Apart()
      requires forall i :: 0 <= i < |panes| && i != idx ==> unchanged(panes[i])
      ensures Values() == old(Values())[idx := panes[idx].Value()]
    {
    }

    method Activate(idx: int) returns (effects: seq<Effect>)
      requires Valid()
      modifies `active, panes
      ensures View() == MuxModel.Activate(old(View()), idx).0
      ensures effects == MuxModel.Activate(old(View()), idx).1
      ensures Valid()
    {
      if idx < 0 || idx >= |panes| { return []; }
      active := idx;
      var p := panes[idx];
      if p.state != Idle { return []; }
      p.Open();
      OneChanged(idx);
      effects := [StartOpen(idx, p.gen)];
    }

    method Reattach(wide: nat -> nat, env: Env) returns (effects: seq<Effect>)
      requires Valid()
      modifies `active, panes
      ensures View() == MuxModel.Reattach(wide, old(View()), env).0
      ensures effects == MuxModel.Reattach(wide, old(View()), env).1
      ensures Valid()
    {
      hide PaneOk, KeyOutcome, ReattachedPane, WriteSystem;
      PaneIsOk(View(), active);
      var p := panes[active];
      if p.state != Closed { return []; }
      var ok := p.Reattach(wide, env, PaneRows(height));
      OneChanged(active);
      effects := [if ok then StartOpen(active, p.gen) else Crash];
    }

    method ResizeAll(newWidth: int, newHeight: int)
      requires Valid() && newWidth <= MAX_SIDE && newHeight <= MAX_SIDE
      modifies `width, `height, panes
      ensures View() == MuxModel.ResizeAll(old(View()), newWidth, newHeight)
      ensures Valid()
    {
      if newWidth < 1 || newHeight < 1 { return; }
      hide PaneOk, ResizePane, AttachKept;
      width, height := newWidth, newHeight;
      ResizePanes(newWidth, PaneRows(height), PaneRows(old(height)));
      assert Values() == MuxModel.ResizeAll(old(View()), newWidth, newHeight).panes;
    }

    method ResizePanes(newWidth: int, rows: int, ghost was: int)
      requires Apart() && 1 <= newWidth <= MAX_SIDE && 1 <= rows <= MAX_SIDE
      requires forall k :: 0 <= k < |panes| ==> PaneOk(panes[k].Value(), was)
      modifies panes
      ensures forall k :: 0 <= k < |panes| ==> panes[k].Value() == ResizePane(old(panes[k].Value()), newWidth, rows, was)
    {
      hide PaneOk, ResizePane;
      for i := 0 to |panes|
        invariant forall k :: 0 <= k < i ==> panes[k].Value() == ResizePane(old(panes[k].Value()), newWidth, rows, was)
        invariant forall k :: i <= k < |panes| ==> unchanged(panes[k])
      {
        panes[i].Resize(newWidth, rows, was);
      }
    }

    method SendKey(key: Key, env: Env) returns (effects: seq<Effect>)
      requires Valid()
      modifies panes
      ensures View() == MuxModel.SendKey(old(View()), key, env).0
      ensures effects == MuxModel.SendKey(old(View()), key, env).1
      ensures Valid()
    {
      var p := panes[active];
      p.offset := 0;
      OneChanged(active);
      if p.state != Live || p.session == None { return []; }
      if key.bytes == [] { return []; }
      if env.writeFails { return [Deliver(Ended(active, p.gen, true))]; }
      effects := [];
    }

    method EnterScroll()
      requires Valid()
      modifies `mode, `sel
      ensures View() == MuxModel.EnterScroll(old(View()))
      ensures Valid()
    {
      mode := Scroll;
      var p := panes[active];
      sel := NO_SELECTION;
      sel := sel.(cursor := Max(0, TotalLines(p.screen) - 1 - p.offset));
    }

    method MoveSelection(delta: int)
      requires Valid()
      modifies `sel, panes
      ensures View() == MuxModel.MoveSelection(old(View()), delta)
      ensures Valid()
    {
      hide PaneOk, PanesKept, PaneRows, TotalLines, ViewTop, ViewBottom;
      var p := panes[active];
      PaneIsOk(View(), active);
      var rows := PaneRows(height);
      var total := TotalLines(p.screen);
      sel := sel.(cursor := Clamp(sel.cursor + delta, 0, Max(0, total - 1)));
      if !sel.active { sel := sel.(anchor := sel.cursor); }
      var bottom := total - 1 - p.offset;
      var top := bottom - rows + 1;
      if sel.cursor > bottom {
        p.offset := Max(0, total - 1 - sel.cursor);
      } else if sel.cursor < top {
        p.offset := Clamp(total - rows - sel.cursor, 0, Max(0, total - rows));
      }
      OneChanged(active);
    }

    method LeaveScroll()
      requires Valid()
      modifies `mode, `sel, panes
      ensures View() == MuxModel.LeaveScroll(old(View()))
      ensures Valid()
    {
      mode := Attached;
      sel := NO_SELECTION;
      panes[active].offset := 0;
      OneChanged(active);
    }

    method ScrollKey(key: Key)
      requires Valid()
      modifies `mode, `sel, panes
      ensures View() == MuxModel.ScrollKey(old(View()), key)
      ensures Valid()
    {
      hide MuxOk, MuxModel.MoveSelection, MuxModel.LeaveScroll, ScrollCommandOf, AttachKept;
      assert active < |panes| by { ActiveIsTab(View()); }
      match ScrollCommandOf(key.name)
      case Leave => LeaveScroll();
      case Lines(count) => MoveSelection(count);
      case Pages(count) => MoveSelection(count * PaneRows(height));
      case ToEnd(sign) => MoveSelection(sign * TotalLines(panes[active].screen));
      case Mark =>
        MarkKeeps(View());
        sel := sel.(active := !sel.active);
        sel := sel.(anchor := sel.cursor);
      case Nothing =>
    }

    method SelectTab(number: Option<int>) returns (effects: seq<Effect>)
      requires Valid()
      modifies `mode, `active, panes
      ensures View() == MuxModel.SelectTab(old(View()), number).0
      ensures effects == MuxModel.SelectTab(old(View()), number).1
      ensures Valid()
    {
      hide MuxOk, MuxModel.Activate, KeyOutcome;
      ModeKeeps(View());
      effects := [];
      if number.Some? && 0 <= number.value <= 9 {
        var idx := number.value - 1;
        if number.value == 0 { idx := 9; }
        if idx < |panes| {
          mode := Attached;
          effects := Activate(idx);
        }
      }
    }

    method PrefixCommand(wide: nat -> nat, key: Key, env: Env) returns (effects: seq<Effect>)
      requires Valid()
      modifies this, panes
      ensures View() == MuxModel.PrefixCommand(wide, old(View()), key, env).0
      ensures effects == MuxModel.PrefixCommand(wide, old(View()), key, env).1
      ensures Valid()
    {
      hide MuxOk, MuxModel.SendKey, MuxModel.ScrollKey, CommandStep, KeyOutcome, AttachKept;
      ModeKeeps(View());
      if !key.isPrefix {
        effects := Obey(wide, key, env);
        return;
      }
      if mode == Scroll {
        ScrollKey(key);
        return [];
      }
      mode := Attached;
      effects := SendKey(key, env);
    }

    method Obey(wide: nat -> nat, key: Key, env: Env) returns (effects: seq<Effect>)
      requires Valid()
      modifies this, panes
      ensures View() == CommandStep(wide, old(View()), key, env).0
      ensures effects == CommandStep(wide, old(View()), key, env).1
      ensures Valid()
    {
      hide MuxOk, MuxModel.Turn, MuxModel.Reattach, MuxModel.EnterScroll, MuxModel.SelectTab, CommandOf, KeyOutcome,
           AttachKept;
      effects := [];
      match CommandOf(key.name)
      case Leaving => effects := [Deliver(Detach)];
      case NextTab => effects := Turn(1);
      case PreviousTab => effects := Turn(|panes| - 1);
      case Scrolling => EnterScroll();
      case Helping => ShowHelp();
      case Reattaching => effects := Reattach(wide, env);
      case NoCommand => effects := SelectTab(key.number);
    }

    method Turn(steps: int) returns (effects: seq<Effect>)
      requires Valid()
      modifies `mode, `active, panes
      ensures View() == MuxModel.Turn(old(View()), steps).0
      ensures effects == MuxModel.Turn(old(View()), steps).1
      ensures Valid()
    {
      hide MuxOk, MuxModel.Activate, KeyOutcome;
      ModeKeeps(View());
      mode := Attached;
      effects := Activate((active + steps) % |panes|);
    }

    method ShowHelp()
      requires Valid()
      modifies `mode
      ensures View() == old(View()).(mode := Mode.Help)
      ensures Valid()
    {
      hide MuxOk;
      ModeKeeps(View());
      mode := Mode.Help;
    }

    method HandleKey(wide: nat -> nat, key: Key, env: Env) returns (effects: seq<Effect>)
      requires Valid()
      modifies this, panes
      ensures View() == KeyStep(wide, old(View()), key, env).0
      ensures effects == KeyStep(wide, old(View()), key, env).1
      ensures Valid()
    {
      hide MuxOk, MuxModel.PrefixCommand, MuxModel.SendKey, MuxModel.ScrollKey, KeyOutcome, AttachKept;
      ModeKeeps(View());
      PrefixKeeps(View());
      effects := [];
      if prefix {
        prefix := false;
        effects := PrefixCommand(wide, key, env);
      } else if key.isPrefix && !key.alt {
        prefix := true;
      } else {
        match mode
        case Help => mode := Attached;
        case Scroll => ScrollKey(key);
        case Attached => effects := SendKey(key, env);
      }
    }

    method HandleOutput(wide: nat -> nat, idx: int, gen: nat, data: seq<byte>) returns (effects: seq<Effect>)
      requires Valid()
      modifies panes
      ensures View() == Update(wide, old(View()), Output(idx, gen, data), Env(false, [])).0
      ensures effects == Update(wide, old(View()), Output(idx, gen, data), Env(false, [])).1
      ensures Valid()
    {
      hide PaneOk, PaneOutput;
      var ok := true;
      if 0 <= idx < |panes| && panes[idx].gen == gen {
        PaneIsOk(View(), idx);
        ok := panes[idx].Show(wide, data, PaneRows(height));
        OneChanged(idx);
      }
      effects := [if ok then NextEvent else Crash];
    }

    method HandleOpened(idx: int, gen: nat, session: SessionId) returns (effects: seq<Effect>)
      requires Valid() && Deliverable(View(), Opened(idx, gen, session))
      modifies panes
      ensures (AddressesPane(old(View()), idx, gen) ==> gen > 0)
           && View() == OpenedStep(old(View()), idx, gen, session).0 && effects == OpenedStep(old(View()), idx, gen, session).1
      ensures Valid()
    {
      if !(0 <= idx < |panes| && panes[idx].gen == gen) {
        return [CloseSession(session), NextEvent];
      }
      var p := panes[idx];
      assert PaneOk(View().panes[idx], PaneRows(height));
      p.session := Some(session);
      p.state := Live;
      OneChanged(idx);
      effects := [StartPump(idx, gen, session), NextEvent];
    }

    method HandleOpenFailed(wide: nat -> nat, idx: int, gen: nat, env: Env) returns (effects: seq<Effect>)
      requires Valid() && Deliverable(View(), OpenFailed(idx, gen))
      modifies panes
      ensures View() == Update(wide, old(View()), OpenFailed(idx, gen), env).0
      ensures effects == Update(wide, old(View()), OpenFailed(idx, gen), env).1
      ensures Valid()
    {
      var ok := true;
      if 0 <= idx < |panes| && panes[idx].gen == gen {
        PaneIsOk(View(), idx);
        NewIsIdle(panes[idx].Value(), PaneRows(height));
        ok := panes[idx].Close(wide, true, env, PaneRows(height));
        OneChanged(idx);
      }
      effects := [if ok then NextEvent else Crash];
    }

    /** Whether there is nothing left to look at. */
    method EverySessionEndedCleanly() returns (all: bool)
      ensures all == AllEndedCleanly(View())
    {
      for i := 0 to |panes|
        invariant forall k :: 0 <= k < i ==> panes[k].state == Closed && !panes[k].failed
      {
        if panes[i].state != Closed || panes[i].failed {
          assert View().panes[i] == panes[i].Value();
          return false;
        }
      }
      all := true;
    }

    method HandleEnded(wide: nat -> nat, idx: int, gen: nat, failed: bool, env: Env) returns (effects: seq<Effect>)
      requires Valid() && Deliverable(View(), Ended(idx, gen, failed))
      modifies panes
      ensures View() == Update(wide, old(View()), Ended(idx, gen, failed), env).0
      ensures effects == Update(wide, old(View()), Ended(idx, gen, failed), env).1
      ensures Valid()
    {
      if !(0 <= idx < |panes| && panes[idx].gen == gen) {
        return [NextEvent];
      }
      hide PaneOk, AllEndedCleanly, ClosedPane;
      PaneIsOk(View(), idx);
      NewIsIdle(panes[idx].Value(), PaneRows(height));
      effects := if panes[idx].session.Some? then [CloseSession(panes[idx].session.value)] else [];
      var ok := panes[idx].Close(wide, failed, env, PaneRows(height));
      OneChanged(idx);
      var quit := EverySessionEndedCleanly();
      effects := effects + [if !ok then Crash else if quit then Quit else NextEvent];
    }

    /** The update loop: one message, and what it starts. */
    method HandleMessage(wide: nat -> nat, msg: Msg, env: Env) returns (effects: seq<Effect>)
      requires Valid() && Deliverable(View(), msg)
      modifies this, panes
      ensures View() == Update(wide, old(View()), msg, env).0
      ensures effects == Update(wide, old(View()), msg, env).1
      ensures Valid()
    {
      match msg
      case WindowSize(w, h) => ResizeAll(w, h); effects := [];
      case KeyPress(key) => effects := HandleKey(wide, key, env);
      case Output(idx, gen, data) => effects := HandleOutput(wide, idx, gen, data);
      case Opened(idx, gen, session) => effects := HandleOpened(idx, gen, session);
      case OpenFailed(idx, gen) => effects := HandleOpenFailed(wide, idx, gen, env);
      case Ended(idx, gen, failed) => effects := HandleEnded(wide, idx, gen, failed, env);
      case Detach => effects := [Quit];
    }
  }

  /** newMux: one pane for each device, none of them shared. */
  method Build(devices: nat, scrollback: int) returns (m: LiveMux)
    requires devices > 0
    ensures fresh(m) && m.Valid() && m.View() == NewMux(devices, scrollback)
  {
    var cells: seq<PaneCell> := [];
    while |cells| < devices
      invariant |cells| <= devices
      invariant forall i :: 0 <= i < |cells| ==> fresh(cells[i]) && cells[i].Value() == NewPane(scrollback)
      invariant forall i, j :: 0 <= i < j < |cells| ==> cells[i] != cells[j]
    {
      var p := new PaneCell(scrollback);
      cells := cells + [p];
    }
    m := new LiveMux(cells, scrollback);
  }
}
