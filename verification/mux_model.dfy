/**
term/mux_model.go, on values: what the multiplexer's update loop makes of one message, and what it starts or asks for.

The contract of every step is the invariant of the loop: a pane is live exactly when it holds a session, and a scrolled-up
view never points outside the history its screen retains. A write to a screen whose cursor has been thrown off it can
panic, and takes the loop down with it: that is an outcome of a step like any other.
*/
module MuxModel {
  import opened Wrappers
  import opened Utf8
  import opened ScreenModel
  import opened ScreenParser
  import opened ScreenLaws

  type SessionId = nat

  datatype PaneState = Idle | Opening | Live | Closed

  /** One tab. offset counts the lines by which the view is pinned above the bottom; gen counts attaches. */
  datatype Pane = Pane(screen: Screen, session: Option<SessionId>, state: PaneState, failed: bool, gen: nat, offset: int)

  datatype Mode = Attached | Scroll | Help

  datatype Selection = Selection(active: bool, anchor: int, cursor: int)

  datatype Mux = Mux(panes: seq<Pane>, active: nat, width: int, height: int, mode: Mode, prefix: bool, sel: Selection)

  /** A keystroke: its name, whether it is the bare prefix key, the bytes a device gets, and the name read as a number. */
  datatype Key = Key(name: string, isPrefix: bool, alt: bool, bytes: seq<byte>, number: Option<int>)

  datatype Msg =
    | WindowSize(width: int, height: int)
    | KeyPress(key: Key)
    | Output(idx: int, gen: nat, data: seq<byte>)
    | Opened(idx: int, gen: nat, session: SessionId)
    | OpenFailed(idx: int, gen: nat)
    | Ended(idx: int, gen: nat, failed: bool)
    | Detach

  /** What a step starts or leaves to be delivered later; or that it panicked, and there is no later. */
  datatype Effect =
    | StartOpen(idx: nat, gen: nat)
    | StartPump(idx: nat, gen: nat, session: SessionId)
    | CloseSession(session: SessionId)
    | NextEvent
    | Deliver(msg: Msg)
    | Quit
    | Crash

  /** What the step's calls to the outside answer: whether writing to the session failed, and the text of a notice. */
  datatype Env = Env(writeFails: bool, notice: seq<byte>)

  const NO_SELECTION := Selection(false, 0, 0)

  function PaneRows(height: int): int {
    Max(1, height - 2)
  }

  function TotalLines(s: Screen): int {
    |s.scrollback| + s.rows
  }

  // ----- the view -----

  /** The line behind the last one in view, as the pane is drawn. */
  function ViewBottom(p: Pane): int {
    TotalLines(p.screen) - p.offset
  }

  function ViewTop(p: Pane, rows: int): int {
    Max(0, ViewBottom(p) - rows)
  }

  // ----- the invariant -----

  predicate PaneOk(p: Pane, rows: int) {
    && Inv(p.screen) && p.screen.rows == rows
    && (p.state == Live <==> p.session.Some?)
    && (p.gen == 0 ==> p.state == Idle)
    && 0 <= p.offset <= |p.screen.scrollback|
  }

  predicate MuxOk(m: Mux) {
    && m.active < |m.panes|
    && 1 <= m.width <= MAX_SIDE && 1 <= m.height <= MAX_SIDE
    && forall i :: 0 <= i < |m.panes| ==> PaneOk(m.panes[i], PaneRows(m.height))
  }

  /** Only what a pane shows may differ: neither its attach state nor its session. */
  predicate SameAttach(p: Pane, q: Pane) {
    q.session == p.session && q.state == p.state && q.gen == p.gen && q.failed == p.failed
  }

  predicate PanesKept(ps: seq<Pane>, qs: seq<Pane>) {
    |qs| == |ps| && forall i :: 0 <= i < |ps| ==> SameAttach(ps[i], qs[i])
  }

  predicate AttachKept(m: Mux, r: Mux) {
    PanesKept(m.panes, r.panes)
  }

  /** One tab that was idle or closed starts a new attach. */
  predicate PaneReopens(ps: seq<Pane>, qs: seq<Pane>, idx: nat) {
    && |qs| == |ps| && idx < |ps|
    && (forall i :: 0 <= i < |ps| && i != idx ==> SameAttach(ps[i], qs[i]))
    && ps[idx].state in {Idle, Closed}
    && qs[idx].state == Opening && qs[idx].session == None && qs[idx].gen == ps[idx].gen + 1
  }

  predicate Reopens(m: Mux, r: Mux, idx: nat) {
    PaneReopens(m.panes, r.panes, idx)
  }

  /** The loop has gone down in a tab that was closed, and is about to be opened again; every session is where it was. */
  predicate PanesCrash(ps: seq<Pane>, qs: seq<Pane>) {
    |qs| == |ps| && forall i :: 0 <= i < |ps| ==>
      && qs[i].session == ps[i].session && qs[i].gen == ps[i].gen
      && (qs[i].state == ps[i].state || (ps[i].state == Closed && qs[i].state == Idle))
  }

  predicate Crashes(m: Mux, r: Mux) {
    PanesCrash(m.panes, r.panes)
  }

  /** All a keystroke can do: ask to detach, report a failed write to a live session, start an attach, or panic in a notice. */
  predicate PanesOutcome(ps: seq<Pane>, active: nat, qs: seq<Pane>, effects: seq<Effect>) {
    || (PanesKept(ps, qs) && (effects == [] || effects == [Deliver(Detach)]))
    || (PanesKept(ps, qs) && active < |ps| && ps[active].state == Live
        && effects == [Deliver(Ended(active, ps[active].gen, true))])
    || (|effects| == 1 && effects[0].StartOpen? && PaneReopens(ps, qs, effects[0].idx)
        && effects[0].gen == ps[effects[0].idx].gen + 1)
    || (effects == [Crash] && PanesCrash(ps, qs))
  }

  predicate KeyOutcome(m: Mux, r: Mux, effects: seq<Effect>) {
    PanesOutcome(m.panes, m.active, r.panes, effects)
  }

  function SetPane(m: Mux, i: nat, p: Pane): (r: Mux)
    requires MuxOk(m) && i < |m.panes| && PaneOk(p, PaneRows(m.height))
    ensures MuxOk(r) && r == m.(panes := r.panes) && r.panes == m.panes[i := p]
  {
    m.(panes := m.panes[i := p])
  }

  function NewPane(scrollback: int): (p: Pane)
    ensures PaneOk(p, PaneRows(24))
  {
    Pane(NewScreen(80, 22, scrollback), None, Idle, false, 0, 0)
  }

  function NewMux(devices: nat, scrollback: int): (m: Mux)
    requires devices > 0
    ensures MuxOk(m)
  {
    Mux(seq(devices, _ => NewPane(scrollback)), 0, 80, 24, Attached, false, NO_SELECTION)
  }

  // ----- screens inside panes -----

  /** "\r\n", reset, "[kathara] ", the text, "\r\n". */
  function SystemLine(text: seq<byte>): seq<byte> {
    [0x0D, 0x0A, ESC, 0x5B, 0x30, 0x6D, 0x5B, 0x6B, 0x61, 0x74, 0x68, 0x61, 0x72, 0x61, 0x5D, 0x20] + text + [0x0D, 0x0A]
  }

  /** A message of the multiplexer in the pane's own screen, unless writing it panics. */
  function WriteSystem(wide: nat -> nat, p: Pane, text: seq<byte>): (r: Option<Pane>)
    requires Inv(p.screen)
    requires 0 <= p.offset <= |p.screen.scrollback|
    ensures r.Some? ==> var q := r.value;
              && Inv(q.screen) && q.screen.rows == p.screen.rows && 0 <= q.offset <= |q.screen.scrollback|
              && q == p.(screen := q.screen)
  {
    match Write(wide, p.screen, SystemLine(text))
    case Alive(screen) => Some(p.(screen := screen))
    case Panicked => None
  }

  /** With a new screen, the offset of a scrolled-up pane grows by the lines that the history gained. */
  function Shown(p: Pane, screen: Screen, rows: int): Pane {
    var grown := TotalLines(screen) - TotalLines(p.screen);
    p.(screen := screen,
       offset := if p.offset > 0 then Clamp(p.offset + grown, 0, Max(0, TotalLines(screen) - rows)) else p.offset)
  }

  /** Output into a pane, unless it panics. */
  function PaneOutput(wide: nat -> nat, p: Pane, data: seq<byte>, rows: int): (r: Option<Pane>)
    requires PaneOk(p, rows)
    ensures r.Some? ==> PaneOk(r.value, rows) && SameAttach(p, r.value)
  {
    match Write(wide, p.screen, data)
    case Panicked => None
    case Alive(screen) => Some(Shown(p, screen, rows))
  }

  function ResizePane(p: Pane, width: int, rows: int, was: int): (q: Pane)
    requires PaneOk(p, was) && 1 <= width <= MAX_SIDE && 1 <= rows <= MAX_SIDE
    ensures PaneOk(q, rows) && SameAttach(p, q) && q.screen.cols == width
  {
    p.(screen := Resize(p.screen, width, rows))
  }

  /** A closed pane about to be opened again: it turns idle, and opening unless its notice panics. */
  function ReattachedPane(wide: nat -> nat, p: Pane, env: Env, rows: int): (r: (Pane, bool))
    requires PaneOk(p, rows) && p.state == Closed
    ensures PaneOk(r.0, rows) && r.0.session == None && p.session == None
    ensures r.1 <==> WriteSystem(wide, p, env.notice).Some?
    ensures if r.1 then r.0.state == Opening && r.0.gen == p.gen + 1 else r.0.state == Idle && r.0.gen == p.gen
  {
    match WriteSystem(wide, p, env.notice)
    case None => (p.(state := Idle, failed := false), false)
    case Some(q) => (q.(state := Opening, failed := false, gen := p.gen + 1), true)
  }

  /** A pane whose session has ended, or could not be had: it holds none, and says so unless that panics. */
  function ClosedPane(wide: nat -> nat, p: Pane, failed: bool, env: Env, rows: int): (r: (Pane, bool))
    requires PaneOk(p, rows) && p.gen > 0
    ensures PaneOk(r.0, rows) && r.0.session == None && r.0.state == Closed && r.0.gen == p.gen
    ensures r.1 <==> WriteSystem(wide, p, env.notice).Some?
  {
    match WriteSystem(wide, p, env.notice)
    case None => (p.(state := Closed, failed := failed, session := None), false)
    case Some(q) => (q.(state := Closed, failed := failed, session := None), true)
  }

  // ----- tabs -----

  function Activate(m: Mux, idx: int): (r: (Mux, seq<Effect>))
    requires MuxOk(m)
    ensures MuxOk(r.0) && KeyOutcome(m, r.0, r.1)
    ensures r.0.active == if 0 <= idx < |m.panes| then idx else m.active
    ensures if 0 <= idx < |m.panes| && m.panes[idx].state == Idle
            then r.1 == [StartOpen(idx, m.panes[idx].gen + 1)] && Reopens(m, r.0, idx)
            else r.1 == [] && r.0.panes == m.panes
  {
    if idx < 0 || idx >= |m.panes| then (m, [])
    else
      var t := m.(active := idx);
      var p := m.panes[idx];
      if p.state != Idle then (t, [])
      else (SetPane(t, idx, p.(state := Opening, gen := p.gen + 1)), [StartOpen(idx, p.gen + 1)])
  }

  function Reattach(wide: nat -> nat, m: Mux, env: Env): (r: (Mux, seq<Effect>))
    requires MuxOk(m)
    ensures MuxOk(r.0) && KeyOutcome(m, r.0, r.1)
    ensures m.panes[m.active].state != Closed ==> r.0 == m && r.1 == []
    ensures m.panes[m.active].state == Closed ==>
              if ReattachedPane(wide, m.panes[m.active], env, PaneRows(m.height)).1
              then r.1 == [StartOpen(m.active, m.panes[m.active].gen + 1)] && Reopens(m, r.0, m.active)
              else r.1 == [Crash]
  {
    var p := m.panes[m.active];
    if p.state != Closed then (m, [])
    else
      var (q, ok) := ReattachedPane(wide, p, env, PaneRows(m.height));
      var t := SetPane(m, m.active, q);
      var effects := [if ok then StartOpen(m.active, p.gen + 1) else Crash];
      ReattachOutcome(m, t, q, ok, effects);
      (t, effects)
  }

  lemma ReattachOutcome(m: Mux, r: Mux, q: Pane, ok: bool, effects: seq<Effect>)
    requires m.active < |m.panes| && r.panes == m.panes[m.active := q] && m.panes[m.active].state == Closed
    requires q.session == None && m.panes[m.active].session == None
    requires effects == [if ok then StartOpen(m.active, m.panes[m.active].gen + 1) else Crash]
    requires if ok then q.state == Opening && q.gen == m.panes[m.active].gen + 1
             else q.state == Idle && q.gen == m.panes[m.active].gen
    ensures KeyOutcome(m, r, effects) && (ok ==> Reopens(m, r, m.active))
  {
    if ok { ReopensOne(m, r, m.active, q); } else { CrashesOne(m, r, m.active, q); }
    hide Reopens, Crashes;
  }

  lemma ReopensOne(m: Mux, r: Mux, idx: nat, q: Pane)
    requires idx < |m.panes| && r.panes == m.panes[idx := q] && m.panes[idx].state in {Idle, Closed}
    requires q.state == Opening && q.session == None && q.gen == m.panes[idx].gen + 1
    ensures Reopens(m, r, idx)
  {
  }

  lemma CrashesOne(m: Mux, r: Mux, idx: nat, q: Pane)
    requires idx < |m.panes| && r.panes == m.panes[idx := q] && m.panes[idx].state == Closed
    requires q.state == Idle && q.session == m.panes[idx].session && q.gen == m.panes[idx].gen
    ensures Crashes(m, r)
  {
  }

  function ResizeAll(m: Mux, width: int, height: int): (r: Mux)
    requires MuxOk(m) && width <= MAX_SIDE && height <= MAX_SIDE
    ensures MuxOk(r) && AttachKept(m, r)
    ensures if width < 1 || height < 1 then r == m
            else r.width == width && r.height == height && forall i :: 0 <= i < |r.panes| ==>
              r.panes[i].screen.cols == width && r.panes[i].screen.rows == PaneRows(height)
  {
    if width < 1 || height < 1 then m
    else
      m.(width := width, height := height,
         panes := seq(|m.panes|, i requires 0 <= i < |m.panes| =>
           ResizePane(m.panes[i], width, PaneRows(height), PaneRows(m.height))))
  }

  // ----- keys -----

  function SendKey(m: Mux, key: Key, env: Env): (r: (Mux, seq<Effect>))
    requires MuxOk(m)
    ensures MuxOk(r.0) && KeyOutcome(m, r.0, r.1) && AttachKept(m, r.0)
    ensures r.0.active == m.active && ViewBottom(r.0.panes[m.active]) == TotalLines(m.panes[m.active].screen)
    ensures r.1 == if m.panes[m.active].state == Live && key.bytes != [] && env.writeFails
                   then [Deliver(Ended(m.active, m.panes[m.active].gen, true))] else []
  {
    var p := m.panes[m.active];
    var t := SetPane(m, m.active, p.(offset := 0));
    if p.state != Live || key.bytes == [] || !env.writeFails then (t, [])
    else (t, [Deliver(Ended(m.active, p.gen, true))])
  }

  function EnterScroll(m: Mux): (r: Mux)
    requires MuxOk(m)
    ensures MuxOk(r) && AttachKept(m, r)
  {
    var p := m.panes[m.active];
    m.(mode := Scroll, sel := Selection(false, 0, Max(0, TotalLines(p.screen) - 1 - p.offset)))
  }

  /** Move the selection cursor, and the view only as far as it takes to keep the cursor in it. */
  function MoveSelection(m: Mux, delta: int): (r: Mux)
    requires MuxOk(m)
    ensures MuxOk(r) && AttachKept(m, r)
    ensures var p := r.panes[r.active]; ViewTop(p, PaneRows(r.height)) <= r.sel.cursor < ViewBottom(p)
  {
    var p := m.panes[m.active];
    var rows := PaneRows(m.height);
    var total := TotalLines(p.screen);
    var cursor := Clamp(m.sel.cursor + delta, 0, Max(0, total - 1));
    var sel := m.sel.(cursor := cursor, anchor := if m.sel.active then m.sel.anchor else cursor);
    var bottom := total - 1 - p.offset;
    var top := bottom - rows + 1;
    var offset :=
      if cursor > bottom then Max(0, total - 1 - cursor)
      else if cursor < top then Clamp(total - rows - cursor, 0, Max(0, total - rows))
      else p.offset;
    SetPane(m, m.active, p.(offset := offset)).(sel := sel)
  }

  function LeaveScroll(m: Mux): (r: Mux)
    requires MuxOk(m)
    ensures MuxOk(r) && AttachKept(m, r)
  {
    SetPane(m, m.active, m.panes[m.active].(offset := 0)).(mode := Attached, sel := NO_SELECTION)
  }

  datatype ScrollCommand = Leave | Lines(count: int) | Pages(count: int) | ToEnd(sign: int) | Mark | Nothing

  function ScrollCommandOf(name: string): ScrollCommand {
    match name
    case "esc" => Leave
    case "q" => Leave
    case "up" => Lines(-1)
    case "k" => Lines(-1)
    case "down" => Lines(1)
    case "j" => Lines(1)
    case "pgup" => Pages(-1)
    case "ctrl+b" => Pages(-1)
    case "pgdown" => Pages(1)
    case "ctrl+f" => Pages(1)
    case " " => Pages(1)
    case "home" => ToEnd(-1)
    case "g" => ToEnd(-1)
    case "end" => ToEnd(1)
    case "G" => ToEnd(1)
    case "v" => Mark
    case "y" => Leave
    case _ => Nothing
  }

  function ScrollKey(m: Mux, key: Key): (r: Mux)
    requires MuxOk(m)
    ensures MuxOk(r) && AttachKept(m, r)
  {
    match ScrollCommandOf(key.name)
    case Leave => LeaveScroll(m)
    case Lines(count) => MoveSelection(m, count)
    case Pages(count) => MoveSelection(m, count * PaneRows(m.height))
    case ToEnd(sign) => MoveSelection(m, sign * TotalLines(m.panes[m.active].screen))
    case Mark => m.(sel := m.sel.(active := !m.sel.active, anchor := m.sel.cursor))
    case Nothing => m
  }

  datatype Command = Leaving | NextTab | PreviousTab | Scrolling | Helping | Reattaching | NoCommand

  function CommandOf(name: string): Command {
    match name
    case "d" => Leaving
    case "q" => Leaving
    case "n" => NextTab
    case "right" => NextTab
    case "tab" => NextTab
    case "p" => PreviousTab
    case "left" => PreviousTab
    case "shift+tab" => PreviousTab
    case "[" => Scrolling
    case "?" => Helping
    case "r" => Reattaching
    case _ => NoCommand
  }

  /** Tabs are numbered from 1, and 0 is the tenth. */
  function SelectTab(m: Mux, number: Option<int>): (r: (Mux, seq<Effect>))
    requires MuxOk(m)
    ensures MuxOk(r.0) && KeyOutcome(m, r.0, r.1)
  {
    match number
    case Some(n) =>
      var idx := if n == 0 then 9 else n - 1;
      if 0 <= n <= 9 && idx < |m.panes| then Activate(m.(mode := Attached), idx) else (m, [])
    case None => (m, [])
  }

  /** The tab that lies some way to the right, round the end. */
  function Turn(m: Mux, steps: int): (r: (Mux, seq<Effect>))
    requires MuxOk(m)
    ensures MuxOk(r.0) && KeyOutcome(m, r.0, r.1)
  {
    Activate(m.(mode := Attached), (m.active + steps) % |m.panes|)
  }

  /** The keys that are commands behind the prefix. */
  function CommandStep(wide: nat -> nat, m: Mux, key: Key, env: Env): (r: (Mux, seq<Effect>))
    requires MuxOk(m)
    ensures MuxOk(r.0) && KeyOutcome(m, r.0, r.1)
  {
    match CommandOf(key.name)
    case Leaving => (m, [Deliver(Detach)])
    case NextTab => Turn(m, 1)
    case PreviousTab => Turn(m, |m.panes| - 1)
    case Scrolling => (EnterScroll(m), [])
    case Helping => (m.(mode := Help), [])
    case Reattaching => Reattach(wide, m, env)
    case NoCommand => SelectTab(m, key.number)
  }

  /** The key behind the prefix; the prefix itself goes to the device, or pages up where keys do not reach it. */
  function PrefixCommand(wide: nat -> nat, m: Mux, key: Key, env: Env): (r: (Mux, seq<Effect>))
    requires MuxOk(m)
    ensures MuxOk(r.0) && KeyOutcome(m, r.0, r.1)
  {
    if !key.isPrefix then CommandStep(wide, m, key, env)
    else if m.mode == Scroll then (ScrollKey(m, key), [])
    else SendKey(m.(mode := Attached), key, env)
  }

  function KeyStep(wide: nat -> nat, m: Mux, key: Key, env: Env): (r: (Mux, seq<Effect>))
    requires MuxOk(m)
    ensures MuxOk(r.0) && KeyOutcome(m, r.0, r.1)
  {
    if m.prefix then PrefixCommand(wide, m.(prefix := false), key, env)
    else if key.isPrefix && !key.alt then (m.(prefix := true), [])
    else match m.mode
      case Help => (m.(mode := Attached), [])
      case Scroll => (ScrollKey(m, key), [])
      case Attached => SendKey(m, key, env)
  }

  // ----- messages -----

  predicate AddressesPane(m: Mux, idx: int, gen: nat) {
    0 <= idx < |m.panes| && m.panes[idx].gen == gen
  }

  predicate AllEndedCleanly(m: Mux) {
    forall i :: 0 <= i < |m.panes| ==> m.panes[i].state == Closed && !m.panes[i].failed
  }

  function OpenedStep(m: Mux, idx: int, gen: nat, session: SessionId): (r: (Mux, seq<Effect>))
    requires MuxOk(m) && (AddressesPane(m, idx, gen) ==> gen > 0)
    ensures MuxOk(r.0)
  {
    if !AddressesPane(m, idx, gen) then (m, [CloseSession(session), NextEvent])
    else
      (SetPane(m, idx, m.panes[idx].(session := Some(session), state := Live)), [StartPump(idx, gen, session), NextEvent])
  }

  function OpenFailedStep(wide: nat -> nat, m: Mux, idx: int, gen: nat, env: Env): (r: (Mux, seq<Effect>))
    requires MuxOk(m) && (AddressesPane(m, idx, gen) ==> gen > 0 && m.panes[idx].session.None?)
    ensures MuxOk(r.0)
  {
    if !AddressesPane(m, idx, gen) then (m, [NextEvent])
    else
      var (q, ok) := ClosedPane(wide, m.panes[idx], true, env, PaneRows(m.height));
      (SetPane(m, idx, q), [if ok then NextEvent else Crash])
  }

  function EndedStep(wide: nat -> nat, m: Mux, idx: int, gen: nat, failed: bool, env: Env): (r: (Mux, seq<Effect>))
    requires MuxOk(m) && (AddressesPane(m, idx, gen) ==> gen > 0)
    ensures MuxOk(r.0)
  {
    if !AddressesPane(m, idx, gen) then (m, [NextEvent])
    else
      var p := m.panes[idx];
      var closing := if p.session.Some? then [CloseSession(p.session.value)] else [];
      var (q, ok) := ClosedPane(wide, p, failed, env, PaneRows(m.height));
      var t := SetPane(m, idx, q);
      (t, closing + [if !ok then Crash else if AllEndedCleanly(t) then Quit else NextEvent])
  }

  /** What a message may assume about the pane it addresses; the protocol keeps it (MuxProtocol.Inv). */
  predicate Deliverable(m: Mux, msg: Msg) {
    match msg
    case WindowSize(w, h) => w <= MAX_SIDE && h <= MAX_SIDE
    case Opened(idx, gen, _) => AddressesPane(m, idx, gen) ==> m.panes[idx].state == Opening
    case OpenFailed(idx, gen) => AddressesPane(m, idx, gen) ==> m.panes[idx].state == Opening
    case Ended(idx, gen, _) => AddressesPane(m, idx, gen) ==> gen > 0 && m.panes[idx].state != Opening
    case _ => true
  }

  function Update(wide: nat -> nat, m: Mux, msg: Msg, env: Env): (r: (Mux, seq<Effect>))
    requires MuxOk(m) && Deliverable(m, msg)
    ensures MuxOk(r.0)
  {
    match msg
    case WindowSize(w, h) => (ResizeAll(m, w, h), [])
    case KeyPress(key) => KeyStep(wide, m, key, env)
    case Output(idx, gen, data) =>
      if !AddressesPane(m, idx, gen) then (m, [NextEvent])
      else
        (match PaneOutput(wide, m.panes[idx], data, PaneRows(m.height))
         case None => (m, [Crash])
         case Some(q) => (SetPane(m, idx, q), [NextEvent]))
    case Opened(idx, gen, session) => OpenedStep(m, idx, gen, session)
    case OpenFailed(idx, gen) => OpenFailedStep(wide, m, idx, gen, env)
    case Ended(idx, gen, failed) => EndedStep(wide, m, idx, gen, failed, env)
    case Detach => (m, [Quit])
  }

  // ----- what the user sees -----

  /**
  As long as the history has room for the lines that output scrolls off, it neither moves the view of a scrolled-up pane nor
  changes a history line in it, even where it fills the history up.
  */
  lemma OutputKeepsView(wide: nat -> nat, p: Pane, data: seq<byte>, rows: int)
    requires PaneOk(p, rows) && p.offset > 0 && PaneOutput(wide, p, data, rows).Some?
    requires |p.screen.scrollback| + WritePushes(wide, p.screen, data) <= p.screen.maxScrollback
    ensures var q := PaneOutput(wide, p, data, rows).value;
            && ViewTop(q, rows) == ViewTop(p, rows) && ViewBottom(q) == ViewBottom(p)
            && forall i :: ViewTop(p, rows) <= i < ViewBottom(p) && i < |p.screen.scrollback| ==>
                 i < |q.screen.scrollback| && q.screen.scrollback[i] == p.screen.scrollback[i]
  {
    HistoryIsPrefix(wide, p.screen, data);
  }
}
