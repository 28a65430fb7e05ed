/**
term/mux.go: the multiplexer as a transition system. The update loop, the goroutines that open sessions and copy their
output, the event channel, the commands that take messages off it, and shutdown, one atomic step at a time.

A goroutine is named by the tab and the attach it serves. Any message that a command has taken may be the next one the
loop sees: nothing below relies on the order in which they arrive.
*/
module MuxProtocol {
  import opened Wrappers
  import opened Utf8
  import opened MuxModel

  type Attach = (nat, nat)

  /** openSession, statement by statement. Sent holds the announcement until the loop has seen it. */
  datatype Opener =
    | Calling
    | Got(session: SessionId)
    | Registered(session: SessionId)
    | Failing
    | Sent(msg: Msg)
    | Handled
    | Dropped

  /** pump, statement by statement; end is the error that ended the read, if it did. */
  datatype PumpPhase = Reading | Holding(data: seq<byte>, end: Option<bool>) | Ending(failed: bool) | Stopped

  datatype Pump = Pump(session: SessionId, phase: PumpPhase)

  /** shutdown, statement by statement. */
  datatype Phase =
    | Running
    | Cancelling
    | Closing(next: nat)
    | Waiting
    | Draining(left: seq<SessionId>)
    | Finished

  datatype World = World(
    mux: Mux,
    openers: map<Attach, Opener>, pumps: map<Attach, Pump>, wg: nat,
    events: seq<Msg>, taken: multiset<Msg>, takers: nat,
    phase: Phase,
    registry: seq<SessionId>, returned: set<SessionId>, closed: set<SessionId>)

  const CHANNEL := 64

  /** close(done) comes first in shutdown, cancel() second. */
  predicate DoneClosed(w: World) {
    w.phase != Running
  }

  predicate Cancelled(w: World) {
    w.phase != Running && w.phase != Cancelling
  }

  predicate Unfinished(o: Opener) {
    o.Calling? || o.Got? || o.Registered? || o.Failing?
  }

  predicate Pumping(p: Pump) {
    p.phase != Stopped
  }

  function InFlight(w: World): multiset<Msg> {
    multiset(w.events) + w.taken
  }

  // ----- effects of one update -----

  function Start(w: World, e: Effect): World {
    match e
    case StartOpen(idx, gen) => w.(openers := w.openers[(idx, gen) := Calling], wg := w.wg + 1)
    case StartPump(idx, gen, s) => w.(pumps := w.pumps[(idx, gen) := Pump(s, Reading)], wg := w.wg + 1)
    case CloseSession(s) => w.(closed := w.closed + {s})
    case NextEvent => w.(takers := w.takers + 1)
    case Deliver(msg) => w.(taken := w.taken + multiset{msg})
    // Nothing more is asked of a loop that has quit or panicked. What ends it is Stop, which may come at any time.
    case Quit => w
    case Crash => w
  }

  function StartAll(w: World, effects: seq<Effect>): World
    decreases |effects|
  {
    if effects == [] then w else StartAll(Start(w, effects[0]), effects[1..])
  }

  /** The opener whose announcement the loop has just seen has nothing more to do. */
  function MarkSeen(w: World, msg: Msg): World {
    if (msg.Opened? || msg.OpenFailed?) && msg.idx >= 0 && (msg.idx, msg.gen) in w.openers
    then w.(openers := w.openers[(msg.idx as nat, msg.gen) := Handled])
    else w
  }

  // ----- steps -----

  datatype Label =
    | User(msg: Msg, env: Env)
    | Handle(msg: Msg, env: Env)
    | Take
    | TakerLeaves
    | OpenReturns(a: Attach, result: Option<SessionId>)
    | Register(a: Attach)
    | Announce(a: Attach)
    | GiveUpOpening(a: Attach)
    | Read(a: Attach, data: seq<byte>, end: Option<bool>)
    | Emit(a: Attach)
    | GiveUpPumping(a: Attach)
    | Stop
    | Cancel
    | CloseNext
    | WaitReturns
    | DrainNext

  predicate IsUserMsg(msg: Msg) {
    match msg
    case KeyPress(_) => true
    case WindowSize(w, h) => w <= 0x0FFF_FFFF_FFFF_FFFF && h <= 0x0FFF_FFFF_FFFF_FFFF
    case _ => false
  }

  /** Whether the step can be taken. Reading from a closed session fails; that is the one thing asked of Read. */
  predicate Enabled(w: World, l: Label) {
    match l
    case User(msg, _) => w.phase == Running && IsUserMsg(msg)
    case Handle(msg, _) => w.phase == Running && msg in w.taken
    case Take => w.takers > 0 && w.events != []
    case TakerLeaves => w.takers > 0 && DoneClosed(w)
    case OpenReturns(a, _) => a in w.openers && w.openers[a] == Calling
    case Register(a) => a in w.openers && w.openers[a].Got?
    case Announce(a) => a in w.openers && (w.openers[a].Registered? || w.openers[a].Failing?) && |w.events| < CHANNEL
    case GiveUpOpening(a) => a in w.openers && (w.openers[a].Registered? || w.openers[a].Failing?) && DoneClosed(w)
    case Read(a, _, end) =>
      a in w.pumps && w.pumps[a].phase == Reading && (w.pumps[a].session in w.closed ==> end.Some?)
    case Emit(a) => a in w.pumps && (w.pumps[a].phase.Holding? || w.pumps[a].phase.Ending?) && |w.events| < CHANNEL
    case GiveUpPumping(a) => a in w.pumps && (w.pumps[a].phase.Holding? || w.pumps[a].phase.Ending?) && DoneClosed(w)
    case Stop => w.phase == Running
    case Cancel => w.phase == Cancelling
    case CloseNext => w.phase.Closing?
    case WaitReturns => w.phase == Waiting && w.wg == 0
    case DrainNext => w.phase.Draining?
  }

  function Less(n: nat): nat {
    if n > 0 then n - 1 else 0
  }

  function SetOpener(w: World, a: Attach, o: Opener): World {
    w.(openers := w.openers[a := o])
  }

  function SetPhase(w: World, a: Attach, p: PumpPhase): World
    requires a in w.pumps
  {
    w.(pumps := w.pumps[a := w.pumps[a].(phase := p)])
  }

  function AfterRead(data: seq<byte>, end: Option<bool>): PumpPhase {
    if data != [] then Holding(data, end) else if end.Some? then Ending(end.value) else Reading
  }

  function Announcement(a: Attach, o: Opener): Msg {
    if o.Registered? then Opened(a.0, a.1, o.session) else OpenFailed(a.0, a.1)
  }

  function LoopStep(wide: nat -> nat, w: World, msg: Msg, env: Env): World
    requires MuxOk(w.mux) && Deliverable(w.mux, msg)
  {
    var (mux, effects) := Update(wide, w.mux, msg, env);
    StartAll(MarkSeen(w.(mux := mux), msg), effects)
  }

  function OpenerStep(w: World, l: Label): World
    requires Enabled(w, l) && (l.OpenReturns? || l.Register? || l.Announce? || l.GiveUpOpening?)
  {
    var o := w.openers[l.a];
    match l
    case OpenReturns(a, Some(s)) => SetOpener(w, a, Got(s)).(returned := w.returned + {s})
    case OpenReturns(a, None) => SetOpener(w, a, Failing)
    case Register(a) => SetOpener(w, a, Registered(o.session)).(registry := w.registry + [o.session])
    case Announce(a) =>
      SetOpener(w, a, Sent(Announcement(a, o))).(events := w.events + [Announcement(a, o)], wg := Less(w.wg))
    case GiveUpOpening(a) =>
      // A session that nobody will hear of is closed by its opener.
      SetOpener(w, a, Dropped).(wg := Less(w.wg), closed := if o.Registered? then w.closed + {o.session} else w.closed)
  }

  function PumpStep(w: World, l: Label): World
    requires Enabled(w, l) && (l.Read? || l.Emit? || l.GiveUpPumping?)
  {
    var p := w.pumps[l.a].phase;
    match l
    case Read(a, data, end) => SetPhase(w, a, AfterRead(data, end))
    case Emit(a) =>
      if p.Holding? then
        SetPhase(w, a, AfterRead([], p.end)).(events := w.events + [Output(a.0, a.1, p.data)])
      else
        SetPhase(w, a, Stopped).(events := w.events + [Ended(a.0, a.1, p.failed)], wg := Less(w.wg))
    case GiveUpPumping(a) => SetPhase(w, a, Stopped).(wg := Less(w.wg))
  }

  function ShutdownStep(w: World, l: Label): World
    requires Enabled(w, l) && (l.Stop? || l.Cancel? || l.CloseNext? || l.WaitReturns? || l.DrainNext?)
  {
    match l
    case Stop => w.(phase := Cancelling)
    case Cancel => w.(phase := Closing(0))
    case CloseNext =>
      var i := w.phase.next;
      if i >= |w.mux.panes| then w.(phase := Waiting)
      else
        var s := w.mux.panes[i].session;
        w.(phase := Closing(i + 1), closed := if s.Some? then w.closed + {s.value} else w.closed)
    case WaitReturns => w.(phase := Draining(w.registry), registry := [])
    case DrainNext =>
      var left := w.phase.left;
      if left == [] then w.(phase := Finished) else w.(phase := Draining(left[1..]), closed := w.closed + {left[0]})
  }

  function Step(wide: nat -> nat, w: World, l: Label): World
    requires Inv(w) && Enabled(w, l)
  {
    match l
    case User(msg, env) => UserDeliverable(w, msg); LoopStep(wide, w, msg, env)
    case Handle(msg, env) =>
      TakenDeliverable(w, msg);
      LoopStep(wide, w.(taken := w.taken - multiset{msg}), msg, env)
    case Take => w.(events := w.events[1..], taken := w.taken + multiset{w.events[0]}, takers := w.takers - 1)
    case TakerLeaves => w.(takers := w.takers - 1)
    case OpenReturns(_, _) => OpenerStep(w, l)
    case Register(_) => OpenerStep(w, l)
    case Announce(_) => OpenerStep(w, l)
    case GiveUpOpening(_) => OpenerStep(w, l)
    case Read(_, _, _) => PumpStep(w, l)
    case Emit(_) => PumpStep(w, l)
    case GiveUpPumping(_) => PumpStep(w, l)
    case _ => ShutdownStep(w, l)
  }

  function NewWorld(devices: nat, scrollback: int): World
    requires devices > 0
  {
    var (mux, effects) := Activate(NewMux(devices, scrollback), 0);
    StartAll(World(mux, map[], map[], 0, [], multiset{}, 1, Running, [], {}, {}), effects)
  }

  // ----- the invariant -----

  /** How many more steps an opener has in it. */
  function OpenerRank(o: Opener): nat {
    match o
    case Calling => 3
    case Got(_) => 2
    case Registered(_) => 1
    case Failing => 1
    case _ => 0
  }

  /** How many more steps a pump has in it once reading fails. */
  function PumpRank(p: Pump): nat {
    match p.phase
    case Holding(_, None) => 4
    case Reading => 3
    case Holding(_, Some(_)) => 2
    case Ending(_) => 1
    case Stopped => 0
  }

  function OpenersAbove(w: World, rank: nat): set<Attach> {
    set a | a in w.openers && OpenerRank(w.openers[a]) > rank
  }

  function PumpsAbove(w: World, rank: nat): set<Attach> {
    set a | a in w.pumps && PumpRank(w.pumps[a]) > rank
  }

  /** Each tab's attach is its newest; an attach is unanswered exactly while its tab says it is opening. */
  predicate AttachesOk(w: World) {
    && (forall a: Attach :: a in w.openers ==>
          && a.0 < |w.mux.panes| && 1 <= a.1 <= w.mux.panes[a.0].gen
          && (a.1 < w.mux.panes[a.0].gen ==> w.openers[a] == Handled))
    && (forall i :: 0 <= i < |w.mux.panes| && w.mux.panes[i].gen > 0 ==>
          && (i, w.mux.panes[i].gen) in w.openers
          && (w.mux.panes[i].state == Opening <==> w.openers[(i, w.mux.panes[i].gen)] != Handled))
  }

  /** A pump serves an attach the loop has seen succeed, and its session is the tab's own or a closed one. */
  predicate PumpsOk(w: World) {
    forall a: Attach :: a in w.pumps ==>
      && a in w.openers && w.openers[a] == Handled && a.0 < |w.mux.panes|
      && (Pumping(w.pumps[a]) ==>
            w.pumps[a].session in w.closed || w.mux.panes[a.0].session == Some(w.pumps[a].session))
  }

  /** The announcement of an attach is unique; output and end of an attach come after it was handled. */
  predicate MsgOk(w: World, msg: Msg) {
    match msg
    case Opened(idx, gen, _) =>
      idx >= 0 && (idx, gen) in w.openers && w.openers[(idx, gen)] == Sent(msg) && InFlight(w)[msg] == 1
    case OpenFailed(idx, gen) =>
      idx >= 0 && (idx, gen) in w.openers && w.openers[(idx, gen)] == Sent(msg) && InFlight(w)[msg] == 1
    case Output(idx, gen, _) => idx >= 0 && (idx, gen) in w.openers && w.openers[(idx, gen)] == Handled
    case Ended(idx, gen, _) => idx >= 0 && (idx, gen) in w.openers && w.openers[(idx, gen)] == Handled
    case Detach => true
    case _ => false
  }

  predicate MessagesOk(w: World) {
    forall msg :: msg in InFlight(w) ==> MsgOk(w, msg)
  }

  predicate HeldByOpener(w: World, s: SessionId) {
    exists a :: a in w.openers && w.openers[a] == Got(s)
  }

  /** No session that any Open returned is forgotten. */
  predicate SessionsOk(w: World) {
    forall s :: s in w.returned ==>
      s in w.closed || s in w.registry || (w.phase.Draining? && s in w.phase.left) || HeldByOpener(w, s)
  }

  predicate PanesClosed(w: World, n: nat) {
    forall i :: 0 <= i < n && i < |w.mux.panes| && w.mux.panes[i].session.Some? ==> w.mux.panes[i].session.value in w.closed
  }

  predicate PhaseOk(w: World) {
    match w.phase
    case Closing(next) => PanesClosed(w, next)
    case Waiting => PanesClosed(w, |w.mux.panes|)
    case Draining(_) => PanesClosed(w, |w.mux.panes|) && w.wg == 0 && w.registry == []
    case Finished => PanesClosed(w, |w.mux.panes|) && w.wg == 0 && w.registry == []
    case _ => true
  }

  /** The wait group counts the goroutines that are still at work. */
  predicate CountOk(w: World) {
    w.wg == |OpenersAbove(w, 0)| + |PumpsAbove(w, 0)|
  }

  predicate Inv(w: World) {
    && MuxOk(w.mux)
    && AttachesOk(w) && PumpsOk(w) && MessagesOk(w) && SessionsOk(w) && PhaseOk(w)
    && CountOk(w) && |w.events| <= CHANNEL
  }

  lemma UserDeliverable(w: World, msg: Msg)
    requires Inv(w) && IsUserMsg(msg)
    ensures Deliverable(w.mux, msg)
  {
  }

  /** Whatever order messages arrive in, none reaches a tab that is not ready for it. */
  lemma TakenDeliverable(w: World, msg: Msg)
    requires Inv(w) && msg in w.taken
    ensures Deliverable(w.mux, msg)
  {
    assert MsgOk(w, msg);
    hide MuxOk, PumpsOk, SessionsOk, PhaseOk, CountOk, InFlight;
  }

  // ----- every step keeps the invariant -----

  /** What one opener's step does to the number of openers above a rank. */
  lemma OpenersCounted(w: World, r: World, a: Attach, o: Opener, rank: nat)
    requires a in w.openers && r.openers == w.openers[a := o] && OpenerRank(o) <= OpenerRank(w.openers[a])
    ensures |OpenersAbove(r, rank)| ==
            |OpenersAbove(w, rank)| - if OpenerRank(o) <= rank < OpenerRank(w.openers[a]) then 1 else 0
  {
    if OpenerRank(o) <= rank < OpenerRank(w.openers[a]) {
      assert a in OpenersAbove(w, rank);
      assert OpenersAbove(r, rank) == OpenersAbove(w, rank) - {a};
    } else {
      assert OpenersAbove(r, rank) == OpenersAbove(w, rank);
    }
  }

  lemma PumpsCounted(w: World, r: World, a: Attach, p: Pump, rank: nat)
    requires a in w.pumps && r.pumps == w.pumps[a := p]
    requires (PumpRank(p) > rank) == (PumpRank(w.pumps[a]) > rank) || PumpRank(p) <= rank
    ensures |PumpsAbove(r, rank)| ==
            |PumpsAbove(w, rank)| - if PumpRank(p) <= rank < PumpRank(w.pumps[a]) then 1 else 0
  {
    if PumpRank(p) <= rank < PumpRank(w.pumps[a]) {
      assert a in PumpsAbove(w, rank);
      assert PumpsAbove(r, rank) == PumpsAbove(w, rank) - {a};
    } else {
      assert PumpsAbove(r, rank) == PumpsAbove(w, rank);
    }
  }

  lemma SameGoroutines(w: World, r: World, rank: nat)
    ensures r.pumps == w.pumps ==> PumpsAbove(r, rank) == PumpsAbove(w, rank)
    ensures r.openers == w.openers ==> OpenersAbove(r, rank) == OpenersAbove(w, rank)
  {
  }

  /** While a goroutine is at work, the wait group is not empty, so shutdown has not got past it. */
  lemma StillWaiting(w: World, a: Attach)
    requires CountOk(w) && PhaseOk(w)
    requires (a in w.openers && Unfinished(w.openers[a])) || (a in w.pumps && Pumping(w.pumps[a]))
    ensures w.wg > 0 && !w.phase.Draining? && !w.phase.Finished?
  {
    assert a in OpenersAbove(w, 0) || a in PumpsAbove(w, 0);
  }

  /** An opener that is still at work belongs to the newest attach of its tab, and no pump serves that attach yet. */
  lemma OpenerIsCurrent(w: World, a: Attach)
    requires AttachesOk(w) && PumpsOk(w) && MessagesOk(w) && a in w.openers && w.openers[a] != Handled
    ensures a.0 < |w.mux.panes| && w.mux.panes[a.0].gen == a.1 && w.mux.panes[a.0].state == Opening
    ensures a !in w.pumps
    ensures forall msg :: msg in InFlight(w) && (msg.Output? || msg.Ended?) ==> (msg.idx, msg.gen) != a
  {
    forall msg | msg in InFlight(w) && (msg.Output? || msg.Ended?)
      ensures (msg.idx, msg.gen) != a
    {
      assert MsgOk(w, msg);
    }
  }

  lemma OpenerMessages(w: World, r: World, a: Attach, o: Opener)
    requires AttachesOk(w) && PumpsOk(w) && MessagesOk(w) && a in w.openers && Unfinished(w.openers[a])
    requires r.openers == w.openers[a := o] && r.events == w.events && r.taken == w.taken
    ensures MessagesOk(r)
  {
    OpenerIsCurrent(w, a);
    forall msg | msg in InFlight(r)
      ensures MsgOk(r, msg)
    {
      assert MsgOk(w, msg);
    }
  }

  /** A step of an opener that puts nothing on the channel. */
  lemma OpenerAdvances(w: World, r: World, a: Attach, o: Opener)
    requires Inv(w) && a in w.openers && Unfinished(w.openers[a]) && !o.Handled?
    requires OpenerRank(o) <= OpenerRank(w.openers[a])
    requires r.openers == w.openers[a := o] && r.pumps == w.pumps && r.mux == w.mux && r.phase == w.phase
    requires r.events == w.events && r.taken == w.taken && w.closed <= r.closed
    requires r.wg == w.wg - if OpenerRank(o) == 0 then 1 else 0
    ensures MuxOk(r.mux) && AttachesOk(r) && PumpsOk(r) && MessagesOk(r) && PhaseOk(r) && CountOk(r)
  {
    hide MuxOk, AttachesOk, PumpsOk, MessagesOk, SessionsOk, InFlight;
    OpenerTables(w, r, a, o);
    OpenerMessages(w, r, a, o);
    OpenersCounted(w, r, a, o, 0);
    SameGoroutines(w, r, 0);
    StillWaiting(w, a);
    hide OpenersAbove, PumpsAbove;
  }

  lemma OpenerTables(w: World, r: World, a: Attach, o: Opener)
    requires AttachesOk(w) && PumpsOk(w) && MessagesOk(w) && a in w.openers && Unfinished(w.openers[a]) && !o.Handled?
    requires r.openers == w.openers[a := o] && r.pumps == w.pumps && r.mux == w.mux && w.closed <= r.closed
    ensures AttachesOk(r) && PumpsOk(r)
  {
    OpenerIsCurrent(w, a);
    OpenerAttaches(w, r, a, o);
    hide MessagesOk, InFlight, AttachesOk;
  }

  lemma OpenerAttaches(w: World, r: World, a: Attach, o: Opener)
    requires AttachesOk(w) && a in w.openers && w.openers[a] != Handled && o != Handled
    requires a.0 < |w.mux.panes| && w.mux.panes[a.0].gen == a.1
    requires r.openers == w.openers[a := o] && r.mux == w.mux
    ensures AttachesOk(r)
  {
  }

  lemma SessionsKept(w: World, r: World, a: Attach)
    requires SessionsOk(w) && w.returned == r.returned && w.closed <= r.closed && r.phase == w.phase && w.registry <= r.registry
    requires a in w.openers && a in r.openers && r.openers == w.openers[a := r.openers[a]]
    requires w.openers[a].Got? ==> w.openers[a].session in r.registry
    ensures SessionsOk(r)
  {
    forall s | s in r.returned
      ensures s in r.closed || s in r.registry || (r.phase.Draining? && s in r.phase.left) || HeldByOpener(r, s)
    {
      if s !in w.closed && s !in w.registry && HeldByOpener(w, s) {
        var b :| b in w.openers && w.openers[b] == Got(s);
        assert b != a ==> r.openers[b] == Got(s);
      }
    }
  }

  lemma SessionReturned(w: World, r: World, a: Attach, result: Option<SessionId>)
    requires SessionsOk(w) && a in w.openers && w.openers[a] == Calling
    requires r.openers == w.openers[a := if result.Some? then Got(result.value) else Failing]
    requires r.returned == if result.Some? then w.returned + {result.value} else w.returned
    requires w.closed == r.closed && r.phase == w.phase && w.registry == r.registry
    ensures SessionsOk(r)
  {
    forall s | s in r.returned
      ensures s in r.closed || s in r.registry || (r.phase.Draining? && s in r.phase.left) || HeldByOpener(r, s)
    {
      if s !in w.returned || s == (if result.Some? then result.value else s + 1) {
        assert r.openers[a] == Got(s);
      } else if HeldByOpener(w, s) {
        var b :| b in w.openers && w.openers[b] == Got(s);
        assert r.openers[b] == Got(s);
      }
    }
  }

  lemma OpenReturnsKeeps(w: World, l: Label)
    requires Inv(w) && Enabled(w, l) && l.OpenReturns?
    ensures Inv(OpenerStep(w, l))
  {
    hide MuxOk, AttachesOk, PumpsOk, MessagesOk, SessionsOk, PhaseOk, CountOk, InFlight;
    var r := OpenerStep(w, l);
    OpenerAdvances(w, r, l.a, r.openers[l.a]);
    SessionReturned(w, r, l.a, l.result);
  }

  lemma RegisterKeeps(w: World, a: Attach)
    requires Inv(w) && Enabled(w, Register(a))
    ensures Inv(OpenerStep(w, Register(a)))
  {
    hide MuxOk, AttachesOk, PumpsOk, MessagesOk, PhaseOk, CountOk, SessionsOk;
    var r := OpenerStep(w, Register(a));
    OpenerAdvances(w, r, a, r.openers[a]);
    SessionsKept(w, r, a);
  }

  /** An opener that nobody listens to any more closes the session it has, and is done. */
  lemma GiveUpOpeningCloses(w: World, a: Attach)
    requires CountOk(w) && PhaseOk(w) && Enabled(w, GiveUpOpening(a))
    ensures var r := OpenerStep(w, GiveUpOpening(a));
            && r.openers == w.openers[a := Dropped] && r.wg == w.wg - 1 && r.events == w.events
            && r.closed == w.closed + (if w.openers[a].Registered? then {w.openers[a].session} else {})
  {
    StillWaiting(w, a);
  }

  lemma GiveUpOpeningKeeps(w: World, a: Attach)
    requires Inv(w) && Enabled(w, GiveUpOpening(a))
    ensures Inv(OpenerStep(w, GiveUpOpening(a)))
  {
    hide MuxOk, AttachesOk, PumpsOk, MessagesOk, PhaseOk, CountOk, SessionsOk;
    var r := OpenerStep(w, GiveUpOpening(a));
    GiveUpOpeningCloses(w, a);
    OpenerAdvances(w, r, a, Dropped);
    SessionsKept(w, r, a);
  }

  /** The announcement is recorded with its opener and put on the channel in one step, so it is there exactly once. */
  lemma AnnounceKeeps(w: World, a: Attach)
    requires Inv(w) && Enabled(w, Announce(a))
    ensures Inv(OpenerStep(w, Announce(a)))
  {
    hide MuxOk, AttachesOk, PumpsOk, MessagesOk, SessionsOk, PhaseOk, CountOk;
    var r := OpenerStep(w, Announce(a));
    var msg := Announcement(a, w.openers[a]);
    var mid := r.(events := w.events);
    StillWaiting(w, a);
    OpenerAdvances(w, mid, a, Sent(msg));
    AnnouncedOnce(w, mid, r, a, msg);
    TablesIgnoreChannel(mid, r);
    SessionsKept(w, r, a);
  }

  /** Nothing but the messages depends on the channel and on those who read it. */
  lemma TablesIgnoreChannel(w: World, r: World)
    requires r == w.(events := r.events, taken := r.taken, takers := r.takers)
    ensures AttachesOk(w) ==> AttachesOk(r)
    ensures PumpsOk(w) ==> PumpsOk(r)
    ensures SessionsOk(w) ==> SessionsOk(r)
    ensures PhaseOk(w) ==> PhaseOk(r)
    ensures CountOk(w) ==> CountOk(r)
  {
    SameGoroutines(w, r, 0);
    assert SessionsOk(w) ==> SessionsOk(r) by {
      forall s | HeldByOpener(w, s)
        ensures HeldByOpener(r, s)
      {
      }
    }
  }

  lemma AnnouncedOnce(w: World, mid: World, r: World, a: Attach, msg: Msg)
    requires MessagesOk(w) && a in w.openers && Unfinished(w.openers[a]) && msg == Announcement(a, w.openers[a])
    requires MessagesOk(mid) && mid.openers == w.openers[a := Sent(msg)] && InFlight(mid) == InFlight(w)
    requires r == mid.(events := mid.events + [msg])
    ensures MessagesOk(r)
  {
    assert InFlight(r) == InFlight(mid) + multiset{msg};
    assert msg in InFlight(w) ==> MsgOk(w, msg);
    forall m | m in InFlight(r)
      ensures MsgOk(r, m)
    {
      if m != msg { assert MsgOk(mid, m); }
    }
  }

  lemma PumpMessages(w: World, r: World)
    requires MessagesOk(w) && r.openers == w.openers && r.taken == w.taken
    requires r.events == w.events || (|r.events| > 0 && r.events[..|r.events| - 1] == w.events
                                      && (r.events[|r.events| - 1].Output? || r.events[|r.events| - 1].Ended?)
                                      && MsgOk(w, r.events[|r.events| - 1]))
    ensures MessagesOk(r)
  {
    if r.events != w.events {
      var msg := r.events[|r.events| - 1];
      assert r.events == w.events + [msg];
      assert InFlight(r) == InFlight(w) + multiset{msg};
    }
    forall m | m in InFlight(r)
      ensures MsgOk(r, m)
    {
      assert MsgOk(w, m);
    }
  }

  lemma PumpTables(w: World, r: World, a: Attach, p: Pump)
    requires AttachesOk(w) && PumpsOk(w) && a in w.pumps && Pumping(w.pumps[a]) && p.session == w.pumps[a].session
    requires r.openers == w.openers && r.pumps == w.pumps[a := p] && r.mux == w.mux && r.closed == w.closed
    ensures AttachesOk(r) && PumpsOk(r)
  {
  }

  /** A step of a pump, but for the message it may send. */
  lemma PumpAdvances(w: World, r: World, a: Attach, p: PumpPhase)
    requires Inv(w) && a in w.pumps && Pumping(w.pumps[a])
    requires r == SetPhase(w, a, p).(wg := if p == Stopped then Less(w.wg) else w.wg, events := r.events)
    ensures MuxOk(r.mux) && AttachesOk(r) && PumpsOk(r) && SessionsOk(r) && PhaseOk(r) && CountOk(r)
  {
    hide MuxOk, AttachesOk, PumpsOk, MessagesOk, SessionsOk, InFlight;
    StillWaiting(w, a);
    PumpsCounted(w, r, a, r.pumps[a], 0);
    SameGoroutines(w, r, 0);
    hide OpenersAbove, PumpsAbove;
    PumpTables(w, r, a, r.pumps[a]);
    SessionsSame(w, r);
  }

  lemma PumpSilentKeeps(w: World, l: Label)
    requires Inv(w) && Enabled(w, l) && (l.Read? || l.GiveUpPumping?)
    ensures Inv(PumpStep(w, l))
  {
    hide MuxOk, AttachesOk, PumpsOk, MessagesOk, SessionsOk, CountOk, PhaseOk;
    var r := PumpStep(w, l);
    PumpAdvances(w, r, l.a, r.pumps[l.a].phase);
    PumpMessages(w, r);
  }

  lemma EmittedOk(w: World, a: Attach)
    requires PumpsOk(w) && AttachesOk(w) && a in w.pumps
    ensures forall data :: MsgOk(w, Output(a.0, a.1, data))
    ensures forall failed :: MsgOk(w, Ended(a.0, a.1, failed))
  {
    hide InFlight;
  }

  lemma EmitKeeps(w: World, a: Attach)
    requires Inv(w) && Enabled(w, Emit(a))
    ensures Inv(PumpStep(w, Emit(a)))
  {
    hide MuxOk, AttachesOk, PumpsOk, MessagesOk, SessionsOk, CountOk, PhaseOk, MsgOk;
    var r := PumpStep(w, Emit(a));
    PumpAdvances(w, r, a, r.pumps[a].phase);
    EmittedOk(w, a);
    assert r.events[..|r.events| - 1] == w.events;
    PumpMessages(w, r);
  }

  lemma SessionsSame(w: World, r: World)
    requires SessionsOk(w) && w.returned == r.returned && w.closed <= r.closed && w.registry == r.registry
    requires r.openers == w.openers && (r.phase == w.phase || !w.phase.Draining?)
    ensures SessionsOk(r)
  {
    forall s | HeldByOpener(w, s)
      ensures HeldByOpener(r, s)
    {
    }
  }

  lemma ShutdownMessages(w: World, r: World)
    requires MessagesOk(w) && r.openers == w.openers && InFlight(r) == InFlight(w)
    ensures MessagesOk(r)
  {
    forall m | m in InFlight(r)
      ensures MsgOk(r, m)
    {
      assert MsgOk(w, m);
    }
  }

  lemma SameMessages(w: World, r: World)
    requires MessagesOk(w) && r.openers == w.openers && r.events == w.events && r.taken == w.taken
    ensures MessagesOk(r)
  {
    ShutdownMessages(w, r);
  }

  lemma TablesUnderShutdown(w: World, r: World)
    requires r.openers == w.openers && r.pumps == w.pumps && r.mux == w.mux && w.closed <= r.closed && r.wg == w.wg
    ensures AttachesOk(w) ==> AttachesOk(r)
    ensures PumpsOk(w) ==> PumpsOk(r)
    ensures CountOk(w) ==> CountOk(r)
  {
    SameGoroutines(w, r, 0);
  }

  /** What shutdown hands from the registry to the list it closes, and closes, stays accounted for. */
  lemma SessionsUnderShutdown(w: World, l: Label)
    requires SessionsOk(w) && PhaseOk(w) && Enabled(w, l)
    requires l.Stop? || l.Cancel? || l.CloseNext? || l.WaitReturns? || l.DrainNext?
    ensures SessionsOk(ShutdownStep(w, l)) && PhaseOk(ShutdownStep(w, l))
  {
    var r := ShutdownStep(w, l);
    forall s | s in r.returned
      ensures s in r.closed || s in r.registry || (r.phase.Draining? && s in r.phase.left) || HeldByOpener(r, s)
    {
      if HeldByOpener(w, s) {
        var b :| b in w.openers && w.openers[b] == Got(s);
        assert r.openers[b] == Got(s);
      }
    }
  }

  lemma ShutdownStepKeeps(w: World, l: Label)
    requires Inv(w) && Enabled(w, l) && (l.Stop? || l.Cancel? || l.CloseNext? || l.WaitReturns? || l.DrainNext?)
    ensures Inv(ShutdownStep(w, l))
  {
    hide MuxOk, AttachesOk, PumpsOk, MessagesOk, SessionsOk, PhaseOk, CountOk, InFlight;
    var r := ShutdownStep(w, l);
    SameMessages(w, r);
    TablesUnderShutdown(w, r);
    SessionsUnderShutdown(w, l);
  }

  lemma MovedToTaken(w: World, r: World)
    requires w.events != [] && r.events == w.events[1..] && r.taken == w.taken + multiset{w.events[0]}
    ensures InFlight(r) == InFlight(w)
  {
    assert w.events == [w.events[0]] + w.events[1..];
  }

  lemma TakeKeeps(wide: nat -> nat, w: World, l: Label)
    requires Inv(w) && Enabled(w, l) && (l.Take? || l.TakerLeaves?)
    ensures Inv(Step(wide, w, l))
  {
    hide MuxOk, AttachesOk, PumpsOk, MessagesOk, SessionsOk, PhaseOk, CountOk, InFlight;
    var r := Step(wide, w, l);
    if l.Take? {
      MovedToTaken(w, r);
      ShutdownMessages(w, r);
    } else {
      SameMessages(w, r);
    }
    TablesIgnoreChannel(w, r);
  }

  // ----- the steps of the update loop -----

  /** A message that the loop has taken is gone; the others are as good as before. */
  lemma MessageTaken(w: World, msg: Msg)
    requires MessagesOk(w) && msg in w.taken
    ensures MessagesOk(w.(taken := w.taken - multiset{msg}))
    ensures msg.Opened? || msg.OpenFailed? ==> msg !in InFlight(w.(taken := w.taken - multiset{msg}))
  {
    var r := w.(taken := w.taken - multiset{msg});
    assert MsgOk(w, msg);
    forall m | m in InFlight(r)
      ensures MsgOk(r, m)
    {
      assert MsgOk(w, m);
    }
  }

  lemma MessageAdded(w: World, msg: Msg)
    requires MessagesOk(w) && (msg.Ended? || msg.Detach?) && MsgOk(w, msg)
    ensures MessagesOk(w.(taken := w.taken + multiset{msg}))
  {
    var r := w.(taken := w.taken + multiset{msg});
    forall m | m in InFlight(r)
      ensures MsgOk(r, m)
    {
      assert MsgOk(w, m);
    }
  }

  /** The loop's part of the invariant, for the phase in which the loop runs. */
  predicate LoopInv(w: World) {
    && w.phase == Running
    && AttachesOk(w) && PumpsOk(w) && MessagesOk(w) && SessionsOk(w) && CountOk(w) && |w.events| <= CHANNEL
  }

  /** Only the tabs' screens, the selection and the like have changed. */
  lemma ScreensChanged(w: World, mux: Mux)
    requires LoopInv(w) && AttachKept(w.mux, mux)
    ensures LoopInv(w.(mux := mux))
  {
    var r := w.(mux := mux);
    SameGoroutines(w, r, 0);
    SessionsSame(w, r);
    ShutdownMessages(w, r);
    hide MessagesOk, SessionsOk, InFlight;
  }

  lemma TakerAdded(w: World)
    requires LoopInv(w)
    ensures LoopInv(w.(takers := w.takers + 1))
  {
    var r := w.(takers := w.takers + 1);
    ShutdownMessages(w, r);
    hide AttachesOk, PumpsOk, MessagesOk, SessionsOk, CountOk, InFlight;
    TablesIgnoreChannel(w, r);
  }

  lemma Effects1(w: World, e: Effect)
    ensures StartAll(w, [e]) == Start(w, e)
  {
    assert [e][1..] == [];
  }

  lemma Effects2(w: World, e: Effect, f: Effect)
    ensures StartAll(w, [e, f]) == Start(Start(w, e), f)
  {
    assert [e, f][1..] == [f];
    Effects1(Start(w, e), f);
  }

  lemma OneMoreOpener(w: World, r: World, a: Attach)
    requires CountOk(w) && a !in w.openers && r.openers == w.openers[a := Calling] && r.pumps == w.pumps && r.wg == w.wg + 1
    ensures CountOk(r)
  {
    assert OpenersAbove(r, 0) == OpenersAbove(w, 0) + {a} by {
      forall b
        ensures b in OpenersAbove(r, 0) <==> b in OpenersAbove(w, 0) + {a}
      {
      }
    }
    hide OpenersAbove;
    SameGoroutines(w, r, 0);
  }

  lemma OneMorePump(w: World, r: World, a: Attach, p: Pump)
    requires CountOk(w) && a !in w.pumps && r.pumps == w.pumps[a := p] && Pumping(p) && r.wg == w.wg + 1
    requires OpenersAbove(r, 0) == OpenersAbove(w, 0)
    ensures CountOk(r)
  {
    assert PumpsAbove(r, 0) == PumpsAbove(w, 0) + {a} by {
      forall b
        ensures b in PumpsAbove(r, 0) <==> b in PumpsAbove(w, 0) + {a}
      {
      }
    }
    hide PumpsAbove;
  }

  /** A new attach of an idle or ended tab. */
  lemma AttachStarts(w: World, mux: Mux, idx: nat)
    requires LoopInv(w) && MuxOk(w.mux) && Reopens(w.mux, mux, idx)
    ensures LoopInv(Start(w.(mux := mux), StartOpen(idx, w.mux.panes[idx].gen + 1)))
  {
    hide MuxOk, AttachesOk, PumpsOk, MessagesOk, SessionsOk, CountOk, OpenersAbove, PumpsAbove, InFlight, SameAttach;
    var a := (idx, w.mux.panes[idx].gen + 1);
    var r := w.(mux := mux, openers := w.openers[a := Calling], wg := w.wg + 1);
    assert r == Start(w.(mux := mux), StartOpen(idx, w.mux.panes[idx].gen + 1));
    NewAttach(w, a);
    StartAttaches(w, r, mux, idx);
    StartPumps(w, r, mux, idx);
    OneMoreOpener(w, r, a);
    StartMessages(w, r, a);
    StartSessions(w, r, a);
  }

  lemma NewAttach(w: World, a: Attach)
    requires AttachesOk(w) && a.0 < |w.mux.panes| && a.1 > w.mux.panes[a.0].gen
    ensures a !in w.openers
  {
  }

  lemma StartAttaches(w: World, r: World, mux: Mux, idx: nat)
    requires AttachesOk(w) && MuxOk(w.mux) && Reopens(w.mux, mux, idx)
    requires r.openers == w.openers[(idx, w.mux.panes[idx].gen + 1) := Calling] && r.mux == mux
    ensures AttachesOk(r)
  {
    hide MuxOk, PaneOk;
    EarlierHandled(w, idx);
    SameOpeners(w, r, mux, idx);
  }

  /** Every attach of a tab that is not opening has been answered. */
  lemma EarlierHandled(w: World, idx: nat)
    requires AttachesOk(w) && idx < |w.mux.panes| && w.mux.panes[idx].state != Opening
    ensures forall a: Attach :: a in w.openers && a.0 == idx ==> w.openers[a] == Handled && a.1 <= w.mux.panes[idx].gen
  {
  }

  lemma SameOpeners(w: World, r: World, mux: Mux, idx: nat)
    requires AttachesOk(w) && Reopens(w.mux, mux, idx) && r.mux == mux
    requires r.openers == w.openers[(idx, w.mux.panes[idx].gen + 1) := Calling]
    ensures forall i :: 0 <= i < |mux.panes| && mux.panes[i].gen > 0 ==>
              && (i, mux.panes[i].gen) in r.openers
              && (mux.panes[i].state == Opening <==> r.openers[(i, mux.panes[i].gen)] != Handled)
  {
  }

  lemma IdleIsNew(m: Mux, idx: nat)
    requires MuxOk(m) && idx < |m.panes|
    ensures m.panes[idx].gen == 0 ==> m.panes[idx].state == Idle
    ensures m.panes[idx].state == Live <==> m.panes[idx].session.Some?
  {
    assert PaneOk(m.panes[idx], PaneRows(m.height));
  }

  lemma StartPumps(w: World, r: World, mux: Mux, idx: nat)
    requires PumpsOk(w) && MuxOk(w.mux) && Reopens(w.mux, mux, idx)
    requires (idx, w.mux.panes[idx].gen + 1) !in w.openers
    requires r.openers == w.openers[(idx, w.mux.panes[idx].gen + 1) := Calling]
    requires r.pumps == w.pumps && r.mux == mux && r.closed == w.closed
    ensures PumpsOk(r)
  {
    hide MuxOk, PaneOk;
    IdleIsNew(w.mux, idx);
  }

  lemma StartMessages(w: World, r: World, a: Attach)
    requires MessagesOk(w) && a !in w.openers && r.openers == w.openers[a := Calling] && r.events == w.events && r.taken == w.taken
    ensures MessagesOk(r)
  {
    forall m | m in InFlight(r)
      ensures MsgOk(r, m)
    {
      assert MsgOk(w, m);
    }
  }

  lemma StartSessions(w: World, r: World, a: Attach)
    requires SessionsOk(w) && w.returned == r.returned && w.closed == r.closed && w.registry == r.registry && r.phase == w.phase
    requires a !in w.openers && r.openers == w.openers[a := Calling]
    ensures SessionsOk(r)
  {
    forall s | HeldByOpener(w, s)
      ensures HeldByOpener(r, s)
    {
      var b :| b in w.openers && w.openers[b] == Got(s);
      assert r.openers[b] == Got(s);
    }
  }

  /** The loop sees the answer of an attach: nothing is left to do for its opener. */
  lemma SeenOnce(w: World, r: World, a: Attach)
    requires a in w.openers && w.openers[a].Sent? && r.openers == w.openers[a := Handled]
    ensures OpenersAbove(r, 0) == OpenersAbove(w, 0)
    ensures (w.returned == r.returned && w.closed == r.closed && w.registry == r.registry && r.phase == w.phase
             && SessionsOk(w)) ==> SessionsOk(r)
  {
    forall s | HeldByOpener(w, s)
      ensures HeldByOpener(r, s)
    {
      var b :| b in w.openers && w.openers[b] == Got(s);
      assert r.openers[b] == Got(s);
    }
  }

  lemma SeenMessages(w: World, r: World, a: Attach, msg: Msg)
    requires MessagesOk(w) && a in w.openers && w.openers[a] == Sent(msg) && msg !in InFlight(w)
    requires r.openers == w.openers[a := Handled] && r.events == w.events && r.taken == w.taken
    ensures MessagesOk(r)
  {
    forall m | m in InFlight(r)
      ensures MsgOk(r, m)
    {
      assert MsgOk(w, m);
    }
  }

  /** An attach that succeeded: the tab is live, and one pump copies the output of its session. */
  lemma AttachSucceeds(w: World, mux: Mux, msg: Msg)
    requires LoopInv(w) && msg.Opened? && msg !in InFlight(w)
    requires msg.idx >= 0 && (msg.idx, msg.gen) in w.openers && w.openers[(msg.idx, msg.gen)] == Sent(msg)
    requires |mux.panes| == |w.mux.panes| && msg.idx < |w.mux.panes| && w.mux.panes[msg.idx].gen == msg.gen
    requires w.mux.panes[msg.idx].session == None
    requires mux.panes == w.mux.panes[msg.idx := w.mux.panes[msg.idx].(session := Some(msg.session), state := Live)]
    ensures LoopInv(Start(MarkSeen(w.(mux := mux), msg), StartPump(msg.idx, msg.gen, msg.session)))
  {
    var a: Attach := (msg.idx, msg.gen);
    var p := Pump(msg.session, Reading);
    var r := w.(mux := mux, openers := w.openers[a := Handled], pumps := w.pumps[a := p], wg := w.wg + 1);
    assert r == Start(MarkSeen(w.(mux := mux), msg), StartPump(msg.idx, msg.gen, msg.session));
    hide MuxOk, AttachesOk, PumpsOk, MessagesOk, SessionsOk, CountOk, OpenersAbove, PumpsAbove, InFlight;
    OpenerIsCurrent(w, a);
    SucceedAttaches(w, r, a, msg.session);
    SucceedPumps(w, r, a, msg.session);
    SeenOnce(w, r, a);
    OneMorePump(w, r, a, p);
    SeenMessages(w, r, a, msg);
  }

  lemma SucceedAttaches(w: World, r: World, a: Attach, session: SessionId)
    requires AttachesOk(w) && a in w.openers && w.openers[a].Sent? && a.0 < |w.mux.panes| && w.mux.panes[a.0].gen == a.1
    requires r.openers == w.openers[a := Handled]
    requires r.mux.panes == w.mux.panes[a.0 := w.mux.panes[a.0].(session := Some(session), state := Live)]
    ensures AttachesOk(r)
  {
    forall i | 0 <= i < |r.mux.panes| && r.mux.panes[i].gen > 0
      ensures (i, r.mux.panes[i].gen) in r.openers
      ensures r.mux.panes[i].state == Opening <==> r.openers[(i, r.mux.panes[i].gen)] != Handled
    {
      assert i != a.0 ==> r.mux.panes[i] == w.mux.panes[i];
    }
  }

  lemma SucceedPumps(w: World, r: World, a: Attach, session: SessionId)
    requires PumpsOk(w) && a in w.openers && a.0 < |w.mux.panes| && w.mux.panes[a.0].session == None
    requires r.openers == w.openers[a := Handled] && r.pumps == w.pumps[a := Pump(session, Reading)] && r.closed == w.closed
    requires r.mux.panes == w.mux.panes[a.0 := w.mux.panes[a.0].(session := Some(session), state := Live)]
    ensures PumpsOk(r)
  {
  }

  lemma AttachFails(w: World, mux: Mux, msg: Msg)
    requires LoopInv(w) && msg.OpenFailed? && msg !in InFlight(w)
    requires msg.idx >= 0 && (msg.idx, msg.gen) in w.openers && w.openers[(msg.idx, msg.gen)] == Sent(msg)
    requires |mux.panes| == |w.mux.panes| && msg.idx < |w.mux.panes| && w.mux.panes[msg.idx].gen == msg.gen
    requires forall i :: 0 <= i < |mux.panes| && i != msg.idx ==> mux.panes[i] == w.mux.panes[i]
    requires mux.panes[msg.idx].gen == msg.gen && mux.panes[msg.idx].state == Closed
    requires mux.panes[msg.idx].session == w.mux.panes[msg.idx].session
    ensures LoopInv(MarkSeen(w.(mux := mux), msg))
  {
    hide AttachesOk, PumpsOk, MessagesOk, SessionsOk, CountOk, InFlight;
    var a: Attach := (msg.idx, msg.gen);
    var r := MarkSeen(w.(mux := mux), msg);
    OpenerIsCurrent(w, a);
    SeenOnce(w, r, a);
    SeenMessages(w, r, a, msg);
    SameCount(w, r);
    FailAttaches(w, r, a);
    FailPumps(w, r, a);
  }

  lemma SameCount(w: World, r: World)
    requires CountOk(w) && r.pumps == w.pumps && r.wg == w.wg && OpenersAbove(r, 0) == OpenersAbove(w, 0)
    ensures CountOk(r)
  {
    hide OpenersAbove;
    SameGoroutines(w, r, 0);
  }

  lemma FailAttaches(w: World, r: World, a: Attach)
    requires AttachesOk(w) && a in w.openers && w.openers[a].Sent? && r.openers == w.openers[a := Handled]
    requires |r.mux.panes| == |w.mux.panes| && a.0 < |w.mux.panes| && w.mux.panes[a.0].gen == a.1
    requires forall i :: 0 <= i < |w.mux.panes| && i != a.0 ==> r.mux.panes[i] == w.mux.panes[i]
    requires r.mux.panes[a.0].gen == a.1 && r.mux.panes[a.0].state == Closed
    ensures AttachesOk(r)
  {
    forall i | 0 <= i < |r.mux.panes| && r.mux.panes[i].gen > 0
      ensures (i, r.mux.panes[i].gen) in r.openers
      ensures r.mux.panes[i].state == Opening <==> r.openers[(i, r.mux.panes[i].gen)] != Handled
    {
      assert i != a.0 ==> r.mux.panes[i] == w.mux.panes[i];
    }
  }

  lemma FailPumps(w: World, r: World, a: Attach)
    requires PumpsOk(w) && a in w.openers && r.openers == w.openers[a := Handled]
    requires |r.mux.panes| == |w.mux.panes|
    requires forall i :: 0 <= i < |w.mux.panes| ==> r.mux.panes[i].session == w.mux.panes[i].session
    requires r.closed == w.closed && r.pumps == w.pumps
    ensures PumpsOk(r)
  {
  }

  /** A session ended: the tab lets go of it, and it is closed. */
  lemma SessionEnds(w: World, mux: Mux, idx: int, released: Option<SessionId>)
    requires LoopInv(w) && EndOutcome(w.mux, mux, idx, released)
    ensures LoopInv(Released(w, mux, released))
  {
    hide AttachesOk, PumpsOk, MessagesOk, SessionsOk, CountOk, InFlight, EndOutcome;
    var r := Released(w, mux, released);
    EndTables(w, mux, idx, released);
    SameGoroutines(w, r, 0);
    SameCount(w, r);
    SessionsSame(w, r);
    SameMessages(w, r);
  }

  lemma EndTables(w: World, mux: Mux, idx: int, released: Option<SessionId>)
    requires AttachesOk(w) && PumpsOk(w) && EndOutcome(w.mux, mux, idx, released)
    ensures AttachesOk(Released(w, mux, released)) && PumpsOk(Released(w, mux, released))
  {
  }

  /** Every message the loop can be given keeps the invariant. */
  lemma UserStepKeeps(wide: nat -> nat, w: World, msg: Msg, env: Env)
    requires Inv(w) && Enabled(w, User(msg, env))
    ensures Inv(Step(wide, w, User(msg, env)))
  {
    UserDeliverable(w, msg);
    var (mux, effects) := Update(wide, w.mux, msg, env);
    assert MarkSeen(w.(mux := mux), msg) == w.(mux := mux);
    assert LoopInv(w);
    if msg.WindowSize? {
      ScreensChanged(w, mux);
    } else {
      assert KeyOutcome(w.mux, mux, effects);
      KeyEffectsKeep(w, mux, effects);
    }
    LoopInvIsInv(StartAll(w.(mux := mux), effects));
  }

  lemma LoopInvIsInv(w: World)
    requires LoopInv(w) && MuxOk(w.mux)
    ensures Inv(w)
  {
  }

  lemma KeyEffectsKeep(w: World, mux: Mux, effects: seq<Effect>)
    requires LoopInv(w) && MuxOk(w.mux) && KeyOutcome(w.mux, mux, effects)
    ensures LoopInv(StartAll(w.(mux := mux), effects))
    ensures StartAll(w.(mux := mux), effects).mux == mux
  {
    hide LoopInv, MuxOk, PaneReopens, PanesKept, MsgOk, PanesCrash;
    if effects == [] {
      ScreensChanged(w, mux);
    } else {
      assert effects == [effects[0]];
      Effects1(w.(mux := mux), effects[0]);
      if effects[0].StartOpen? {
        AttachStarts(w, mux, effects[0].idx);
      } else if effects[0].Crash? {
        LoopCrashes(w, mux);
      } else {
        ScreensChanged(w, mux);
        LocalMessageOk(w, mux, effects[0].msg);
        DeliveredKeeps(w.(mux := mux), effects[0].msg);
      }
    }
  }

  /** Where the loop goes down, the sessions and the attaches are still accounted for: shutdown is all that is to come. */
  lemma LoopCrashes(w: World, mux: Mux)
    requires LoopInv(w) && Crashes(w.mux, mux)
    ensures LoopInv(w.(mux := mux))
  {
    var r := w.(mux := mux);
    SameGoroutines(w, r, 0);
    SessionsSame(w, r);
    ShutdownMessages(w, r);
    hide MessagesOk, SessionsOk, InFlight;
  }

  /** A failed write to a live session is reported for an attach that the loop has seen succeed. */
  lemma LocalMessageOk(w: World, mux: Mux, msg: Msg)
    requires LoopInv(w)
    requires msg == Detach
          || (w.mux.active < |w.mux.panes| && w.mux.panes[w.mux.active].state == Live && MuxOk(w.mux)
              && msg == Ended(w.mux.active, w.mux.panes[w.mux.active].gen, true))
    ensures (msg.Ended? || msg.Detach?) && MsgOk(w.(mux := mux), msg)
  {
    if msg.Ended? { IdleIsNew(w.mux, w.mux.active); }
  }

  lemma DeliveredKeeps(w: World, msg: Msg)
    requires LoopInv(w) && (msg.Ended? || msg.Detach?) && MsgOk(w, msg)
    ensures LoopInv(w.(taken := w.taken + multiset{msg}))
  {
    hide AttachesOk, PumpsOk, MessagesOk, SessionsOk, CountOk, MsgOk;
    MessageAdded(w, msg);
    TablesIgnoreChannel(w, w.(taken := w.taken + multiset{msg}));
  }

  lemma TakenKeeps(w: World, msg: Msg)
    requires LoopInv(w) && msg in w.taken
    ensures LoopInv(w.(taken := w.taken - multiset{msg}))
    ensures msg.Opened? || msg.OpenFailed? ==> msg !in InFlight(w.(taken := w.taken - multiset{msg}))
  {
    MessageTaken(w, msg);
    hide AttachesOk, PumpsOk, MessagesOk, SessionsOk, CountOk, InFlight;
    TablesIgnoreChannel(w, w.(taken := w.taken - multiset{msg}));
  }

  /** The loop's step on a message that it has already taken. */
  lemma MessageStepKeeps(wide: nat -> nat, w: World, msg: Msg, env: Env)
    requires LoopInv(w) && MuxOk(w.mux) && Deliverable(w.mux, msg) && AnswersOpener(w, msg)
    requires !IsUserMsg(msg)
    ensures LoopInv(LoopStep(wide, w, msg, env)) && MuxOk(LoopStep(wide, w, msg, env).mux)
  {
    match msg
    case Output(_, _, _) => OutputKeeps(wide, w, msg, env);
    case Opened(_, _, _) => OpenedKeeps(wide, w, msg, env);
    case OpenFailed(_, _) => OpenFailedKeeps(wide, w, msg, env);
    case Ended(_, _, _) => EndedKeeps(wide, w, msg, env);
    case Detach => Effects1(w, Quit);
    case _ =>
  }

  /** An answer that has been taken is the one its opener sent, and is in flight no more. */
  predicate AnswersOpener(w: World, msg: Msg) {
    msg.Opened? || msg.OpenFailed? ==>
      msg.idx >= 0 && (msg.idx, msg.gen) in w.openers && w.openers[(msg.idx, msg.gen)] == Sent(msg) && msg !in InFlight(w)
  }

  /** The one effect that asks for the next event, or for nothing. */
  predicate Ends(e: Effect) {
    e == NextEvent || e == Quit || e == Crash
  }

  lemma OutputUpdate(wide: nat -> nat, w: World, msg: Msg, env: Env) returns (last: Effect)
    requires MuxOk(w.mux) && msg.Output? && Deliverable(w.mux, msg)
    ensures var mux := Update(wide, w.mux, msg, env).0;
            && AttachKept(w.mux, mux) && MuxOk(mux) && Ends(last)
            && LoopStep(wide, w, msg, env) == Start(w.(mux := mux), last) && LoopStep(wide, w, msg, env).mux == mux
  {
    hide MuxOk, PaneOutput;
    var (mux, effects) := Update(wide, w.mux, msg, env);
    last := effects[0];
    OutputEffect(wide, w.mux, msg, env);
    hide Update, Deliverable, AttachKept;
    Effects1(w.(mux := mux), last);
  }

  lemma OutputEffect(wide: nat -> nat, m: Mux, msg: Msg, env: Env)
    requires MuxOk(m) && msg.Output? && Deliverable(m, msg)
    ensures var (mux, effects) := Update(wide, m, msg, env);
            |effects| == 1 && Ends(effects[0]) && effects == [effects[0]] && AttachKept(m, mux)
  {
    hide MuxOk, PaneOk;
  }

  lemma OutputKeeps(wide: nat -> nat, w: World, msg: Msg, env: Env)
    requires LoopInv(w) && MuxOk(w.mux) && msg.Output? && Deliverable(w.mux, msg)
    ensures LoopInv(LoopStep(wide, w, msg, env)) && MuxOk(LoopStep(wide, w, msg, env).mux)
  {
    hide *;
    var last := OutputUpdate(wide, w, msg, env);
    var mux := Update(wide, w.mux, msg, env).0;
    ScreensChanged(w, mux);
    LastEffectKeeps(w.(mux := mux), last);
  }

  lemma OpenedUpdate(wide: nat -> nat, m: Mux, msg: Msg, env: Env)
    requires MuxOk(m) && msg.Opened? && AddressesPane(m, msg.idx, msg.gen) && msg.gen > 0 && Deliverable(m, msg)
    ensures var (mux, effects) := Update(wide, m, msg, env);
            && MuxOk(mux)
            && mux.panes == m.panes[msg.idx := m.panes[msg.idx].(session := Some(msg.session), state := Live)]
            && effects == [StartPump(msg.idx, msg.gen, msg.session), NextEvent]
            && m.panes[msg.idx].session == None
  {
    assert PaneOk(m.panes[msg.idx], PaneRows(m.height));
  }

  lemma OpenedIs(wide: nat -> nat, w: World, msg: Msg, env: Env)
    requires MuxOk(w.mux) && msg.Opened? && AddressesPane(w.mux, msg.idx, msg.gen) && msg.gen > 0 && Deliverable(w.mux, msg)
    ensures var mux := Update(wide, w.mux, msg, env).0;
            var seen := Start(MarkSeen(w.(mux := mux), msg), StartPump(msg.idx, msg.gen, msg.session));
            LoopStep(wide, w, msg, env) == seen.(takers := seen.takers + 1) && seen.mux == mux
  {
    hide MuxOk, Update, Deliverable;
    OpenedUpdate(wide, w.mux, msg, env);
    var mid := MarkSeen(w.(mux := Update(wide, w.mux, msg, env).0), msg);
    Effects2(mid, StartPump(msg.idx, msg.gen, msg.session), NextEvent);
  }

  lemma OpenedKeeps(wide: nat -> nat, w: World, msg: Msg, env: Env)
    requires LoopInv(w) && MuxOk(w.mux) && Deliverable(w.mux, msg) && AnswersOpener(w, msg) && msg.Opened?
    ensures LoopInv(LoopStep(wide, w, msg, env)) && MuxOk(LoopStep(wide, w, msg, env).mux)
  {
    hide *;
    AnswerIsCurrent(w, msg);
    OpenedIs(wide, w, msg, env);
    OpenedUpdate(wide, w.mux, msg, env);
    var mux := Update(wide, w.mux, msg, env).0;
    AttachSucceeds(w, mux, msg);
    TakerAdded(Start(MarkSeen(w.(mux := mux), msg), StartPump(msg.idx, msg.gen, msg.session)));
  }

  lemma AnswerIsCurrent(w: World, msg: Msg)
    requires LoopInv(w) && AnswersOpener(w, msg) && (msg.Opened? || msg.OpenFailed?)
    ensures AddressesPane(w.mux, msg.idx, msg.gen) && msg.gen > 0
    ensures 0 <= msg.idx < |w.mux.panes| && w.mux.panes[msg.idx].gen == msg.gen
    ensures (msg.idx, msg.gen) in w.openers && w.openers[(msg.idx, msg.gen)] == Sent(msg) && msg !in InFlight(w)
  {
    OpenerIsCurrent(w, (msg.idx, msg.gen));
  }

  lemma OpenFailedUpdate(wide: nat -> nat, m: Mux, msg: Msg, env: Env) returns (last: Effect)
    requires MuxOk(m) && msg.OpenFailed? && AddressesPane(m, msg.idx, msg.gen) && msg.gen > 0 && Deliverable(m, msg)
    ensures var (mux, effects) := Update(wide, m, msg, env);
            && MuxOk(mux) && Ends(last) && effects == [last] && |mux.panes| == |m.panes|
            && (forall i :: 0 <= i < |mux.panes| && i != msg.idx ==> mux.panes[i] == m.panes[i])
            && mux.panes[msg.idx].gen == msg.gen && mux.panes[msg.idx].state == Closed
            && mux.panes[msg.idx].session == m.panes[msg.idx].session
  {
    assert PaneOk(m.panes[msg.idx], PaneRows(m.height));
    last := Update(wide, m, msg, env).1[0];
  }

  lemma OpenFailedIs(wide: nat -> nat, w: World, msg: Msg, env: Env) returns (last: Effect)
    requires MuxOk(w.mux) && msg.OpenFailed? && AddressesPane(w.mux, msg.idx, msg.gen) && msg.gen > 0 && Deliverable(w.mux, msg)
    ensures var seen := MarkSeen(w.(mux := Update(wide, w.mux, msg, env).0), msg);
            && LoopStep(wide, w, msg, env) == Start(seen, last) && seen.mux == Update(wide, w.mux, msg, env).0
            && Ends(last) && Start(seen, last).mux == seen.mux
  {
    hide MuxOk, Update, Deliverable;
    last := OpenFailedUpdate(wide, w.mux, msg, env);
    Effects1(MarkSeen(w.(mux := Update(wide, w.mux, msg, env).0), msg), last);
  }

  lemma OpenFailedKeeps(wide: nat -> nat, w: World, msg: Msg, env: Env)
    requires LoopInv(w) && MuxOk(w.mux) && Deliverable(w.mux, msg) && AnswersOpener(w, msg) && msg.OpenFailed?
    ensures LoopInv(LoopStep(wide, w, msg, env)) && MuxOk(LoopStep(wide, w, msg, env).mux)
  {
    hide *;
    AnswerIsCurrent(w, msg);
    var last := OpenFailedIs(wide, w, msg, env);
    var _ := OpenFailedUpdate(wide, w.mux, msg, env);
    var mux := Update(wide, w.mux, msg, env).0;
    AttachFails(w, mux, msg);
    LastEffectKeeps(MarkSeen(w.(mux := mux), msg), last);
  }

  /** Either the message is stale, or the tab lets go of its session; the loop then asks for the next event or quits. */
  predicate EndOutcome(m: Mux, mux: Mux, idx: int, released: Option<SessionId>) {
    || (mux == m && released == None)
    || (&& |mux.panes| == |m.panes| && 0 <= idx < |m.panes| && m.panes[idx].state != Opening
        && (forall i :: 0 <= i < |mux.panes| && i != idx ==> mux.panes[i] == m.panes[i])
        && mux.panes[idx].gen == m.panes[idx].gen && mux.panes[idx].state == Closed && mux.panes[idx].session == None
        && released == m.panes[idx].session)
  }

  lemma EndedUpdate(wide: nat -> nat, m: Mux, msg: Msg, env: Env) returns (released: Option<SessionId>, last: Effect)
    requires MuxOk(m) && msg.Ended? && Deliverable(m, msg)
    requires AddressesPane(m, msg.idx, msg.gen) ==> msg.gen > 0
    ensures var (mux, effects) := Update(wide, m, msg, env);
            && MuxOk(mux) && EndOutcome(m, mux, msg.idx, released)
            && Ends(last)
            && effects == (if released.Some? then [CloseSession(released.value), last] else [last])
  {
    var effects := Update(wide, m, msg, env).1;
    released := if AddressesPane(m, msg.idx, msg.gen) then m.panes[msg.idx].session else None;
    last := effects[|effects| - 1];
    hide MuxOk, WriteSystem, AllEndedCleanly;
  }

  function Released(w: World, mux: Mux, released: Option<SessionId>): World {
    w.(mux := mux, closed := if released.Some? then w.closed + {released.value} else w.closed)
  }

  lemma EndedIs(wide: nat -> nat, w: World, msg: Msg, env: Env) returns (released: Option<SessionId>, last: Effect)
    requires MuxOk(w.mux) && msg.Ended? && Deliverable(w.mux, msg)
    requires AddressesPane(w.mux, msg.idx, msg.gen) ==> msg.gen > 0
    ensures var mux := Update(wide, w.mux, msg, env).0;
            && MuxOk(mux) && EndOutcome(w.mux, mux, msg.idx, released)
            && Ends(last)
            && LoopStep(wide, w, msg, env) == Start(Released(w, mux, released), last)
            && LoopStep(wide, w, msg, env).mux == mux
  {
    hide MuxOk, EndOutcome, Update, Deliverable;
    released, last := EndedUpdate(wide, w.mux, msg, env);
    var start := w.(mux := Update(wide, w.mux, msg, env).0);
    Effects1(start, last);
    if released.Some? { Effects2(start, CloseSession(released.value), last); }
  }

  lemma EndedKeeps(wide: nat -> nat, w: World, msg: Msg, env: Env)
    requires LoopInv(w) && MuxOk(w.mux) && Deliverable(w.mux, msg) && msg.Ended?
    ensures LoopInv(LoopStep(wide, w, msg, env)) && MuxOk(LoopStep(wide, w, msg, env).mux)
  {
    hide *;
    AddressedIsOpen(w.mux, msg);
    var released, last := EndedIs(wide, w, msg, env);
    var mux := Update(wide, w.mux, msg, env).0;
    SessionEnds(w, mux, msg.idx, released);
    LastEffectKeeps(Released(w, mux, released), last);
  }

  lemma AddressedIsOpen(m: Mux, msg: Msg)
    requires MuxOk(m) && msg.Ended? && Deliverable(m, msg)
    ensures AddressesPane(m, msg.idx, msg.gen) ==> msg.gen > 0
  {
    assert AddressesPane(m, msg.idx, msg.gen) ==> PaneOk(m.panes[msg.idx], PaneRows(m.height));
  }

  lemma LastEffectKeeps(w: World, last: Effect)
    requires LoopInv(w) && Ends(last)
    ensures LoopInv(Start(w, last))
  {
    hide LoopInv;
    TakerAdded(w);
  }

  lemma HandleStepKeeps(wide: nat -> nat, w: World, msg: Msg, env: Env)
    requires Inv(w) && Enabled(w, Handle(msg, env))
    ensures Inv(Step(wide, w, Handle(msg, env)))
  {
    hide Inv, MuxOk, LoopInv, LoopStep, Deliverable, AnswersOpener, IsUserMsg;
    var t := w.(taken := w.taken - multiset{msg});
    MessageReady(w, msg);
    MessageStepKeeps(wide, t, msg, env);
    LoopInvIsInv(LoopStep(wide, t, msg, env));
  }

  /** What the loop may assume once it has taken a message. */
  lemma MessageReady(w: World, msg: Msg)
    requires Inv(w) && w.phase == Running && msg in w.taken
    ensures var t := w.(taken := w.taken - multiset{msg});
            LoopInv(t) && MuxOk(t.mux) && Deliverable(t.mux, msg) && AnswersOpener(t, msg) && !IsUserMsg(msg)
  {
    TakenDeliverable(w, msg);
    hide AttachesOk, PumpsOk, SessionsOk, CountOk, MuxOk, InFlight, Deliverable;
    assert MsgOk(w, msg);
    TakenKeeps(w, msg);
  }

  /** The invariant is kept by every step anything in the system can take. */
  lemma StepKeeps(wide: nat -> nat, w: World, l: Label)
    requires Inv(w) && Enabled(w, l)
    ensures Inv(Step(wide, w, l))
  {
    hide Inv;
    match l
    case User(msg, env) => UserStepKeeps(wide, w, msg, env);
    case Handle(msg, env) => HandleStepKeeps(wide, w, msg, env);
    case Take => TakeKeeps(wide, w, l);
    case TakerLeaves => TakeKeeps(wide, w, l);
    case OpenReturns(_, _) => OpenReturnsKeeps(w, l);
    case Register(a) => RegisterKeeps(w, a);
    case Announce(a) => AnnounceKeeps(w, a);
    case GiveUpOpening(a) => GiveUpOpeningKeeps(w, a);
    case Read(_, _, _) => PumpSilentKeeps(w, l);
    case Emit(a) => EmitKeeps(w, a);
    case GiveUpPumping(_) => PumpSilentKeeps(w, l);
    case _ => ShutdownStepKeeps(w, l);
  }

  lemma InitialWorld(devices: nat, scrollback: int)
    requires devices > 0
    ensures Inv(NewWorld(devices, scrollback))
  {
    var m := NewMux(devices, scrollback);
    var w := World(m, map[], map[], 0, [], multiset{}, 1, Running, [], {}, {});
    assert OpenersAbove(w, 0) == {} && PumpsAbove(w, 0) == {};
    assert LoopInv(w);
    var (mux, effects) := Activate(m, 0);
    Effects1(w.(mux := mux), effects[0]);
    assert Reopens(m, mux, 0);
    AttachStarts(w, mux, 0);
    LoopInvIsInv(NewWorld(devices, scrollback));
  }
}
