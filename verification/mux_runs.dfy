/**
term/mux.go, over whole runs: what holds in every world that any interleaving of the update loop, the goroutines, the
channel's readers and shutdown can reach.
*/
module MuxRuns {
  import opened Wrappers
  import opened Utf8
  import opened MuxModel
  import opened MuxProtocol

  /** The world after the given steps, if each can be taken where it comes. */
  function Run(wide: nat -> nat, w: World, labels: seq<Label>): (r: Option<World>)
    requires Inv(w)
    ensures r.Some? ==> Inv(r.value)
    decreases |labels|
  {
    if labels == [] then Some(w)
    else if !Enabled(w, labels[0]) then None
    else
      StepKeeps(wide, w, labels[0]);
      Run(wide, Step(wide, w, labels[0]), labels[1..])
  }

  predicate Reaches(wide: nat -> nat, devices: nat, scrollback: int, labels: seq<Label>, w: World)
    requires devices > 0
  {
    InitialWorld(devices, scrollback);
    Run(wide, NewWorld(devices, scrollback), labels) == Some(w)
  }

  // ----- shutdown closes everything -----

  /** Once shutdown has returned, every session that any Open ever returned has been closed, and nothing is at work. */
  lemma NoSessionLeaks(wide: nat -> nat, devices: nat, scrollback: int, labels: seq<Label>, w: World)
    requires devices > 0 && Reaches(wide, devices, scrollback, labels, w) && w.phase == Finished
    ensures w.returned <= w.closed
    ensures forall a :: a in w.openers ==> !Unfinished(w.openers[a])
    ensures forall a :: a in w.pumps ==> !Pumping(w.pumps[a])
  {
    hide Inv, Run, Unfinished, Pumping;
    InitialWorld(devices, scrollback);
    FinishedClosed(w);
  }

  lemma FinishedClosed(w: World)
    requires Inv(w) && w.phase == Finished
    ensures w.returned <= w.closed
    ensures forall a :: a in w.openers ==> !Unfinished(w.openers[a])
    ensures forall a :: a in w.pumps ==> !Pumping(w.pumps[a])
  {
    hide MuxOk, AttachesOk, PumpsOk, MessagesOk, InFlight;
    forall a | (a in w.openers && Unfinished(w.openers[a])) || (a in w.pumps && Pumping(w.pumps[a]))
      ensures false
    {
      StillWaiting(w, a);
    }
  }

  // ----- shutdown does not hang -----

  /** Blocked on nothing but itself: an attach needs cancel, a read a closed session, an emit room or a closed done. */
  predicate OpenerFree(w: World, a: Attach)
    requires a in w.openers
  {
    match w.openers[a]
    case Calling => Cancelled(w)
    case Registered(_) => DoneClosed(w) || |w.events| < CHANNEL
    case Failing => DoneClosed(w) || |w.events| < CHANNEL
    case _ => true
  }

  predicate PumpFree(w: World, a: Attach)
    requires a in w.pumps
  {
    match w.pumps[a].phase
    case Reading => w.pumps[a].session in w.closed
    case Stopped => true
    case _ => DoneClosed(w) || |w.events| < CHANNEL
  }

  predicate IsWork(l: Label) {
    || l.OpenReturns? || l.Register? || l.Announce? || l.GiveUpOpening?
    || l.Read? || l.Emit? || l.GiveUpPumping?
  }

  /** The goroutines' own steps that remain once reads fail. */
  ghost function Work(w: World): nat {
    |OpenersAbove(w, 0)| + |OpenersAbove(w, 1)| + |OpenersAbove(w, 2)|
    + |PumpsAbove(w, 0)| + |PumpsAbove(w, 1)| + |PumpsAbove(w, 2)| + |PumpsAbove(w, 3)|
  }

  /** shutdown itself can always go on, except to wait for goroutines that are still at work. */
  lemma ShutdownGoesOn(w: World)
    requires Inv(w)
    ensures w.phase == Cancelling ==> Enabled(w, Cancel)
    ensures w.phase.Closing? ==> Enabled(w, CloseNext)
    ensures w.phase == Waiting ==> (Enabled(w, WaitReturns) <==> OpenersAbove(w, 0) == {} && PumpsAbove(w, 0) == {})
    ensures w.phase.Draining? ==> Enabled(w, DrainNext)
  {
    if w.phase == Waiting && w.wg == 0 {
      assert |OpenersAbove(w, 0)| == 0 && |PumpsAbove(w, 0)| == 0;
    }
  }

  /** From the moment shutdown waits, no goroutine waits for anyone. */
  lemma NobodyIsStuck(w: World, a: Attach)
    requires Inv(w) && w.phase == Waiting
    ensures a in w.openers ==> OpenerFree(w, a)
    ensures a in w.openers && Unfinished(w.openers[a]) ==> exists l :: IsWork(l) && l.a == a && Enabled(w, l)
    ensures a in w.pumps ==> PumpFree(w, a)
    ensures a in w.pumps && Pumping(w.pumps[a]) ==> exists l :: IsWork(l) && l.a == a && Enabled(w, l)
  {
    hide MuxOk, MessagesOk, SessionsOk, CountOk, AttachesOk;
    if a in w.openers && Unfinished(w.openers[a]) {
      var l := match w.openers[a] case Calling => OpenReturns(a, None) case Got(_) => Register(a) case _ => GiveUpOpening(a);
      assert IsWork(l) && l.a == a && Enabled(w, l);
    }
    if a in w.pumps && Pumping(w.pumps[a]) {
      assert w.pumps[a].session in w.closed;
      var l := if w.pumps[a].phase == Reading then Read(a, [], Some(false)) else GiveUpPumping(a);
      assert IsWork(l) && l.a == a && Enabled(w, l);
    }
  }

  /** While shutdown waits, every step a goroutine takes brings it closer to its end, and no other step sets one back. */
  lemma WorkGetsDone(wide: nat -> nat, w: World, l: Label)
    requires Inv(w) && w.phase == Waiting && Enabled(w, l)
    ensures IsWork(l) ==> Step(wide, w, l).phase == Waiting && Work(Step(wide, w, l)) < Work(w)
    ensures !IsWork(l) ==> Work(Step(wide, w, l)) == Work(w)
  {
    hide Inv, Work, PumpStep, OpenerStep;
    if l.OpenReturns? || l.Register? || l.Announce? || l.GiveUpOpening? {
      OpenerWork(w, l);
    } else if IsWork(l) {
      WaitingClosed(w, l.a);
      PumpWork(w, l);
    } else {
      SameWork(w, Step(wide, w, l));
    }
  }

  lemma WaitingClosed(w: World, a: Attach)
    requires Inv(w) && w.phase == Waiting && a in w.pumps && Pumping(w.pumps[a])
    ensures w.pumps[a].session in w.closed
  {
  }

  lemma SameWork(w: World, r: World)
    requires r.openers == w.openers && r.pumps == w.pumps
    ensures Work(r) == Work(w)
  {
    SameGoroutines(w, r, 0);
    SameGoroutines(w, r, 1);
    SameGoroutines(w, r, 2);
    SameGoroutines(w, r, 3);
  }

  lemma OpenerWork(w: World, l: Label)
    requires Enabled(w, l) && (l.OpenReturns? || l.Register? || l.Announce? || l.GiveUpOpening?)
    ensures OpenerStep(w, l).phase == w.phase && Work(OpenerStep(w, l)) < Work(w)
  {
    hide OpenersAbove, PumpsAbove;
    var r := OpenerStep(w, l);
    var o := r.openers[l.a];
    OpenersCounted(w, r, l.a, o, 0);
    OpenersCounted(w, r, l.a, o, 1);
    OpenersCounted(w, r, l.a, o, 2);
    SameGoroutines(w, r, 0);
    SameGoroutines(w, r, 1);
    SameGoroutines(w, r, 2);
    SameGoroutines(w, r, 3);
  }

  lemma PumpWork(w: World, l: Label)
    requires Enabled(w, l) && (l.Read? || l.Emit? || l.GiveUpPumping?) && w.pumps[l.a].session in w.closed
    ensures PumpStep(w, l).phase == w.phase && Work(PumpStep(w, l)) < Work(w)
  {
    hide OpenersAbove, PumpsAbove;
    var r := PumpStep(w, l);
    var p := r.pumps[l.a];
    PumpsCounted(w, r, l.a, p, 0);
    PumpsCounted(w, r, l.a, p, 1);
    PumpsCounted(w, r, l.a, p, 2);
    PumpsCounted(w, r, l.a, p, 3);
    SameGoroutines(w, r, 0);
    SameGoroutines(w, r, 1);
    SameGoroutines(w, r, 2);
    SameGoroutines(w, r, 3);
  }

  function WorkSteps(labels: seq<Label>): nat {
    if labels == [] then 0 else (if IsWork(labels[0]) then 1 else 0) + WorkSteps(labels[1..])
  }

  /** However the steps interleave, the wait is over after a number of the goroutines' steps that is known at its start. */
  lemma {:induction false} WaitIsBounded(wide: nat -> nat, w: World, labels: seq<Label>)
    requires Inv(w) && w.phase == Waiting && WaitReturns !in labels
    ensures match Run(wide, w, labels)
            case Some(r) => r.phase == Waiting && WorkSteps(labels) + Work(r) <= Work(w)
            case None => true
    decreases |labels|
  {
    if labels != [] && Enabled(w, labels[0]) {
      hide Inv, Work, Step, Enabled;
      StaysWaiting(wide, w, labels[0]);
      WorkGetsDone(wide, w, labels[0]);
      StepKeeps(wide, w, labels[0]);
      WaitIsBounded(wide, Step(wide, w, labels[0]), labels[1..]);
    }
  }

  lemma StaysWaiting(wide: nat -> nat, w: World, l: Label)
    requires Inv(w) && w.phase == Waiting && Enabled(w, l) && l != WaitReturns
    ensures Step(wide, w, l).phase == Waiting
  {
    hide Inv, MuxOk;
  }

  // ----- shutdown comes to an end -----

  predicate IsShutdown(l: Label) {
    l.Cancel? || l.CloseNext? || l.WaitReturns? || l.DrainNext?
  }

  /** The sessions that the final list of shutdown holds, or may yet come to hold. */
  function Listed(w: World): nat {
    |w.registry| + |OpenersAbove(w, 1)|
  }

  /** The steps that remain before shutdown has returned: panes to close, goroutines to wait for, sessions to close again. */
  ghost function Remaining(w: World): nat
    requires w.phase != Running
  {
    var most := 3 * |w.openers| + 4 * |w.pumps|;
    match w.phase
    case Cancelling => |w.mux.panes| + most + Listed(w) + 5
    case Closing(next) => (if next < |w.mux.panes| then |w.mux.panes| - next else 0) + most + Listed(w) + 4
    case Waiting => Work(w) + Listed(w) + 3
    case Draining(left) => |left| + 2
    case Finished => 0
  }

  /** The steps that bring shutdown closer to its end: its own, and while it waits, those of the goroutines. */
  predicate Progresses(w: World, l: Label) {
    IsShutdown(l) || (w.phase == Waiting && IsWork(l))
  }

  lemma Subset<T>(a: set<T>, b: set<T>)
    requires a <= b
    ensures |a| <= |b|
  {
    assert b == a + (b - a);
  }

  lemma WorkBounded(w: World)
    ensures Work(w) <= 3 * |w.openers| + 4 * |w.pumps|
  {
    Subset(OpenersAbove(w, 0), w.openers.Keys);
    Subset(OpenersAbove(w, 1), w.openers.Keys);
    Subset(OpenersAbove(w, 2), w.openers.Keys);
    Subset(PumpsAbove(w, 0), w.pumps.Keys);
    Subset(PumpsAbove(w, 1), w.pumps.Keys);
    Subset(PumpsAbove(w, 2), w.pumps.Keys);
    Subset(PumpsAbove(w, 3), w.pumps.Keys);
  }

  /** A goroutine's step makes no new goroutine, and brings no session to the list that was not counted. */
  lemma WorkLists(wide: nat -> nat, w: World, l: Label)
    requires Inv(w) && w.phase != Running && Enabled(w, l) && IsWork(l)
    ensures SameSize(w, Step(wide, w, l)) && Listed(Step(wide, w, l)) <= Listed(w)
  {
    hide Inv, OpenerStep, PumpStep, SameSize, Listed;
    if l.OpenReturns? || l.Register? || l.Announce? || l.GiveUpOpening? {
      OpenerLists(w, l);
    } else {
      PumpLists(w, l);
    }
  }

  predicate SameSize(w: World, r: World) {
    r.phase == w.phase && r.mux == w.mux && |r.openers| == |w.openers| && |r.pumps| == |w.pumps|
  }

  lemma OpenerLists(w: World, l: Label)
    requires Enabled(w, l) && (l.OpenReturns? || l.Register? || l.Announce? || l.GiveUpOpening?)
    ensures SameSize(w, OpenerStep(w, l)) && Listed(OpenerStep(w, l)) <= Listed(w)
  {
    hide OpenersAbove;
    var r := OpenerStep(w, l);
    assert r.openers.Keys == w.openers.Keys;
    OpenersCounted(w, r, l.a, r.openers[l.a], 1);
  }

  lemma PumpLists(w: World, l: Label)
    requires Enabled(w, l) && (l.Read? || l.Emit? || l.GiveUpPumping?)
    ensures SameSize(w, PumpStep(w, l)) && Listed(PumpStep(w, l)) <= Listed(w)
  {
    hide OpenersAbove;
    var r := PumpStep(w, l);
    assert r.pumps.Keys == w.pumps.Keys;
    SameGoroutines(w, r, 1);
  }

  lemma TakersAside(wide: nat -> nat, w: World, l: Label)
    requires Inv(w) && w.phase != Running && Enabled(w, l) && (l.Take? || l.TakerLeaves?)
    ensures var r := Step(wide, w, l); r.phase == w.phase && Remaining(r) == Remaining(w)
  {
    hide Inv, Work, OpenersAbove, PumpsAbove;
    var r := Step(wide, w, l);
    assert r == w.(events := r.events, taken := r.taken, takers := r.takers);
    SameWork(w, r);
    SameGoroutines(w, r, 1);
  }

  lemma OwnStep(w: World, l: Label)
    requires w.phase != Running && Enabled(w, l) && IsShutdown(l)
    ensures var r := ShutdownStep(w, l); r.phase != Running && Remaining(r) < Remaining(w)
  {
    hide Work, OpenersAbove, PumpsAbove;
    var r := ShutdownStep(w, l);
    SameWork(w, r);
    SameGoroutines(w, r, 1);
    WorkBounded(w);
  }

  /**
  From Stop on, nothing that anyone does puts the end of shutdown off, its own steps bring it closer, and so do those of the
  goroutines while it waits.
  */
  lemma ShutdownProgresses(wide: nat -> nat, w: World, l: Label)
    requires Inv(w) && w.phase != Running && Enabled(w, l)
    ensures var r := Step(wide, w, l);
            r.phase != Running && Remaining(r) <= Remaining(w) && (Progresses(w, l) ==> Remaining(r) < Remaining(w))
  {
    hide Inv, Remaining, ShutdownStep, PumpStep, OpenerStep, LoopStep;
    if IsShutdown(l) {
      OwnStep(w, l);
    } else if IsWork(l) {
      WorkProgresses(wide, w, l);
    } else {
      TakersAside(wide, w, l);
    }
  }

  lemma WorkProgresses(wide: nat -> nat, w: World, l: Label)
    requires Inv(w) && w.phase != Running && Enabled(w, l) && IsWork(l)
    ensures var r := Step(wide, w, l);
            r.phase == w.phase && Remaining(r) <= Remaining(w) && (w.phase == Waiting ==> Remaining(r) < Remaining(w))
  {
    hide Inv, Work, Listed, SameSize, Step, Enabled, Remaining;
    StillAtWork(w, l);
    WorkLists(wide, w, l);
    if w.phase == Waiting { WorkGetsDone(wide, w, l); }
    LessRemains(w, Step(wide, w, l));
  }

  lemma LessRemains(w: World, r: World)
    requires w.phase == Cancelling || w.phase.Closing? || w.phase == Waiting
    requires SameSize(w, r) && Listed(r) <= Listed(w) && (w.phase == Waiting ==> Work(r) < Work(w))
    ensures r.phase == w.phase && Remaining(r) <= Remaining(w) && (w.phase == Waiting ==> Remaining(r) < Remaining(w))
  {
    hide Work, Listed;
  }

  lemma StillAtWork(w: World, l: Label)
    requires Inv(w) && Enabled(w, l) && IsWork(l)
    ensures w.phase in {Running, Cancelling, Waiting} || w.phase.Closing?
  {
    hide MuxOk, AttachesOk, PumpsOk, MessagesOk, SessionsOk, InFlight;
    StillWaiting(w, l.a);
  }

  /** Until shutdown has returned, there is a step that brings it closer to its end. */
  lemma ShutdownNeverStuck(w: World)
    requires Inv(w) && w.phase != Running && w.phase != Finished
    ensures exists l :: Enabled(w, l) && Progresses(w, l)
  {
    hide Inv;
    ShutdownGoesOn(w);
    if w.phase == Waiting && !Enabled(w, WaitReturns) {
      var busy := OpenersAbove(w, 0) + PumpsAbove(w, 0);
      assert busy != {};
      var a :| a in busy;
      NobodyIsStuck(w, a);
      assert (a in w.openers && Unfinished(w.openers[a])) || (a in w.pumps && Pumping(w.pumps[a]));
      var l :| IsWork(l) && l.a == a && Enabled(w, l);
      assert Progresses(w, l);
    } else {
      var l := match w.phase
        case Cancelling => Cancel case Closing(_) => CloseNext case Waiting => WaitReturns case _ => DrainNext;
      assert Enabled(w, l) && Progresses(w, l);
    }
  }

  /** How many steps of a run bring shutdown closer to its end. */
  function ProgressSteps(wide: nat -> nat, w: World, labels: seq<Label>): nat
    requires Inv(w)
    decreases |labels|
  {
    if labels == [] || !Enabled(w, labels[0]) then 0
    else
      StepKeeps(wide, w, labels[0]);
      (if Progresses(w, labels[0]) then 1 else 0) + ProgressSteps(wide, Step(wide, w, labels[0]), labels[1..])
  }

  /**
  From Stop on, however the steps interleave, shutdown has returned once as many steps have brought it closer to its end as
  remained at the start; and it has returned exactly when none remains.
  */
  lemma {:induction false} ShutdownEnds(wide: nat -> nat, w: World, labels: seq<Label>)
    requires Inv(w) && w.phase != Running
    ensures Remaining(w) == 0 <==> w.phase == Finished
    ensures match Run(wide, w, labels)
            case Some(r) => r.phase != Running && ProgressSteps(wide, w, labels) + Remaining(r) <= Remaining(w)
            case None => true
    decreases |labels|
  {
    if labels != [] && Enabled(w, labels[0]) {
      hide Inv, Remaining, Step, Enabled;
      ShutdownProgresses(wide, w, labels[0]);
      StepKeeps(wide, w, labels[0]);
      ShutdownEnds(wide, Step(wide, w, labels[0]), labels[1..]);
    }
    NoneRemains(w);
  }

  lemma NoneRemains(w: World)
    requires w.phase != Running
    ensures Remaining(w) == 0 <==> w.phase == Finished
  {
  }

  // ----- generations -----

  /** Attaches of a tab are numbered upwards. */
  predicate GensGrow(m: Mux, r: Mux) {
    |r.panes| == |m.panes| && forall i :: 0 <= i < |m.panes| ==> m.panes[i].gen <= r.panes[i].gen
  }

  lemma UpdateGrows(wide: nat -> nat, m: Mux, msg: Msg, env: Env)
    requires MuxOk(m) && Deliverable(m, msg)
    ensures GensGrow(m, Update(wide, m, msg, env).0)
  {
    hide PaneOk, WriteSystem, AllEndedCleanly, PaneOutput;
    var (r, effects) := Update(wide, m, msg, env);
    if msg.KeyPress? {
      assert KeyOutcome(m, r, effects);
      hide KeyStep;
    }
  }

  lemma {:induction false} EffectsKeepMux(w: World, effects: seq<Effect>)
    ensures StartAll(w, effects).mux == w.mux
    decreases |effects|
  {
    if effects != [] { EffectsKeepMux(Start(w, effects[0]), effects[1..]); }
  }

  lemma StepGrows(wide: nat -> nat, w: World, l: Label)
    requires Inv(w) && Enabled(w, l)
    ensures GensGrow(w.mux, Step(wide, w, l).mux)
  {
    hide Inv, LoopStep, GensGrow;
    if l.User? || l.Handle? {
      LoopStepMux(wide, w, l, if l.User? then w else w.(taken := w.taken - multiset{l.msg}));
    } else {
      SameGens(w.mux);
    }
  }

  lemma SameGens(m: Mux)
    ensures GensGrow(m, m)
  {
  }

  lemma LoopStepMux(wide: nat -> nat, w: World, l: Label, v: World)
    requires Inv(w) && Enabled(w, l) && (l.User? || l.Handle?)
    requires v == if l.User? then w else w.(taken := w.taken - multiset{l.msg})
    ensures Deliverable(w.mux, l.msg)
    ensures Step(wide, w, l).mux == Update(wide, w.mux, l.msg, l.env).0
    ensures GensGrow(w.mux, Step(wide, w, l).mux)
  {
    if l.User? { UserDeliverable(w, l.msg); } else { TakenDeliverable(w, l.msg); }
    hide Inv, MuxOk, Deliverable, Update;
    var (mux, effects) := Update(wide, w.mux, l.msg, l.env);
    UpdateGrows(wide, w.mux, l.msg, l.env);
    EffectsKeepMux(MarkSeen(v.(mux := mux), l.msg), effects);
  }

  lemma {:induction false} RunGrows(wide: nat -> nat, w: World, labels: seq<Label>)
    requires Inv(w)
    ensures Run(wide, w, labels).Some? ==> GensGrow(w.mux, Run(wide, w, labels).value.mux)
    decreases |labels|
  {
    if labels != [] && Enabled(w, labels[0]) {
      hide Inv, Step, Enabled;
      StepGrows(wide, w, labels[0]);
      StepKeeps(wide, w, labels[0]);
      RunGrows(wide, Step(wide, w, labels[0]), labels[1..]);
    }
  }

  /**
  Once a tab has moved on to a later attach, nothing that an earlier one still says is seen: however long after, its output
  and its end leave every tab as it was. An answer of its Open cannot come so late, as AnswersAreCurrent says.
  */
  lemma StaleMessagesIgnored(wide: nat -> nat, w: World, labels: seq<Label>, later: World, msg: Msg, env: Env)
    requires Inv(w) && Run(wide, w, labels) == Some(later) && Enabled(later, Handle(msg, env))
    requires msg.Output? || msg.Ended?
    requires 0 <= msg.idx < |w.mux.panes| && msg.gen < w.mux.panes[msg.idx].gen
    ensures Step(wide, later, Handle(msg, env)).mux == later.mux
  {
    hide Inv, Run, GensGrow, Update, Step, Enabled, Deliverable, AddressesPane;
    RunGrows(wide, w, labels);
    GensApart(w.mux, later.mux, msg.idx, msg.gen);
    StaleHandled(wide, later, msg, env);
  }

  lemma StaleHandled(wide: nat -> nat, w: World, msg: Msg, env: Env)
    requires Inv(w) && Enabled(w, Handle(msg, env)) && (msg.Output? || msg.Ended?)
    requires !AddressesPane(w.mux, msg.idx, msg.gen)
    ensures Step(wide, w, Handle(msg, env)).mux == w.mux
  {
    hide AttachesOk, PumpsOk, MessagesOk, SessionsOk, PhaseOk, CountOk, GensGrow, MarkSeen, Update, StartAll, Deliverable;
    LoopStepMux(wide, w, Handle(msg, env), w.(taken := w.taken - multiset{msg}));
    StaleUpdate(wide, w.mux, msg, env);
  }

  lemma GensApart(m: Mux, later: Mux, idx: int, gen: nat)
    requires GensGrow(m, later) && 0 <= idx < |m.panes| && gen < m.panes[idx].gen
    ensures !AddressesPane(later, idx, gen)
  {
  }

  lemma StaleUpdate(wide: nat -> nat, m: Mux, msg: Msg, env: Env)
    requires MuxOk(m) && Deliverable(m, msg) && (msg.Output? || msg.Ended?)
    requires !AddressesPane(m, msg.idx, msg.gen)
    ensures Update(wide, m, msg, env).0 == m
  {
  }

  /**
  An answer of an Open is always that of its tab's newest attach, and finds the tab waiting for it. So the branches of the
  loop for an answer that comes too late, one of which closes the session, are never taken.
  */
  lemma AnswersAreCurrent(wide: nat -> nat, w: World, msg: Msg, env: Env)
    requires Inv(w) && Enabled(w, Handle(msg, env)) && (msg.Opened? || msg.OpenFailed?)
    ensures AddressesPane(w.mux, msg.idx, msg.gen) && w.mux.panes[msg.idx].state == Opening
    ensures Deliverable(w.mux, msg)
    ensures var (mux, effects) := Update(wide, w.mux, msg, env);
            && (msg.Opened? ==> mux.panes[msg.idx].session == Some(msg.session)
                                && effects == [StartPump(msg.idx, msg.gen, msg.session), NextEvent])
            && (msg.OpenFailed? ==> mux.panes[msg.idx].state == Closed && mux.panes[msg.idx].failed)
  {
    hide MuxOk, PhaseOk, SessionsOk, CountOk, PumpsOk, Update, AddressesPane, InFlight;
    TakenDeliverable(w, msg);
    AnswerExpected(w, msg);
    CurrentAnswer(wide, w.mux, msg, env);
  }

  lemma AnswerExpected(w: World, msg: Msg)
    requires AttachesOk(w) && PumpsOk(w) && MessagesOk(w) && msg in w.taken && (msg.Opened? || msg.OpenFailed?)
    ensures AddressesPane(w.mux, msg.idx, msg.gen) && w.mux.panes[msg.idx].state == Opening
  {
    assert msg in InFlight(w);
    hide AttachesOk, PumpsOk, MessagesOk, InFlight;
    InOrder(w);
  }

  lemma CurrentAnswer(wide: nat -> nat, m: Mux, msg: Msg, env: Env)
    requires MuxOk(m) && Deliverable(m, msg) && (msg.Opened? || msg.OpenFailed?)
    requires AddressesPane(m, msg.idx, msg.gen) && m.panes[msg.idx].state == Opening
    ensures var (mux, effects) := Update(wide, m, msg, env);
            && (msg.Opened? ==> mux.panes[msg.idx].session == Some(msg.session)
                                && effects == [StartPump(msg.idx, msg.gen, msg.session), NextEvent])
            && (msg.OpenFailed? ==> mux.panes[msg.idx].state == Closed && mux.panes[msg.idx].failed)
  {
    assert PaneOk(m.panes[msg.idx], PaneRows(m.height));
  }

  // ----- the reader of the channel -----

  /** The loop has quit or panicked with this step. */
  predicate EndsLoop(wide: nat -> nat, w: World, l: Label)
    requires Inv(w) && Enabled(w, l)
  {
    match l
    case User(msg, env) => UserDeliverable(w, msg); GivesUp(Update(wide, w.mux, msg, env).1)
    case Handle(msg, env) => TakenDeliverable(w, msg); GivesUp(Update(wide, w.mux, msg, env).1)
    case _ => false
  }

  predicate GivesUp(effects: seq<Effect>) {
    Quit in effects || Crash in effects
  }

  /** A command waits for the next message, or has taken one that the loop is yet to handle. */
  predicate Reads(w: World) {
    w.takers > 0 || w.taken != multiset{}
  }

  lemma {:induction false} EffectsRead(w: World, effects: seq<Effect>)
    ensures var r := StartAll(w, effects);
            && r.takers >= w.takers && w.taken <= r.taken && r.phase == w.phase
            && (NextEvent in effects ==> r.takers > 0)
            && (forall msg :: Deliver(msg) in effects ==> msg in r.taken)
    decreases |effects|
  {
    if effects != [] { EffectsRead(Start(w, effects[0]), effects[1..]); }
  }

  /** Every message from outside is answered by a new command, unless the loop ends. */
  lemma AsksAgain(wide: nat -> nat, m: Mux, msg: Msg, env: Env)
    requires MuxOk(m) && Deliverable(m, msg) && !msg.KeyPress? && !msg.WindowSize?
    ensures NextEvent in Update(wide, m, msg, env).1 || GivesUp(Update(wide, m, msg, env).1)
  {
    hide PaneOk, PaneOutput, ClosedPane, AllEndedCleanly;
    var effects := Update(wide, m, msg, env).1;
    assert effects[|effects| - 1] in {NextEvent, Quit, Crash};
  }

  lemma ReadsOn(wide: nat -> nat, w: World, l: Label)
    requires Inv(w) && w.phase == Running && Enabled(w, l) && Reads(w) && !EndsLoop(wide, w, l)
    ensures Step(wide, w, l).phase == Running ==> Reads(Step(wide, w, l))
  {
    hide Inv, LoopStep, Reads, EndsLoop;
    if l.User? || l.Handle? {
      LoopReads(wide, w, l);
    } else {
      OthersRead(wide, w, l);
    }
  }

  lemma OthersRead(wide: nat -> nat, w: World, l: Label)
    requires Inv(w) && w.phase == Running && Enabled(w, l) && Reads(w) && !l.User? && !l.Handle?
    ensures Reads(Step(wide, w, l))
  {
    hide Inv;
  }

  lemma LoopReads(wide: nat -> nat, w: World, l: Label)
    requires Inv(w) && Enabled(w, l) && Reads(w) && !EndsLoop(wide, w, l) && (l.User? || l.Handle?)
    ensures Reads(Step(wide, w, l))
  {
    if l.User? { UserDeliverable(w, l.msg); } else { TakenDeliverable(w, l.msg); TakenIsNotUser(w, l.msg); }
    hide Inv, Update, Deliverable;
    var v := if l.User? then w else w.(taken := w.taken - multiset{l.msg});
    var (mux, effects) := Update(wide, w.mux, l.msg, l.env);
    EffectsRead(MarkSeen(v.(mux := mux), l.msg), effects);
    if l.Handle? { InvMux(w); AsksAgain(wide, w.mux, l.msg, l.env); }
  }

  lemma InvMux(w: World)
    requires Inv(w)
    ensures MuxOk(w.mux)
  {
  }

  lemma TakenIsNotUser(w: World, msg: Msg)
    requires Inv(w) && msg in w.taken
    ensures !msg.KeyPress? && !msg.WindowSize?
  {
    assert MsgOk(w, msg);
  }

  /** No step of the run has ended the loop. */
  predicate LoopLives(wide: nat -> nat, w: World, labels: seq<Label>)
    requires Inv(w)
    decreases |labels|
  {
    labels == [] || !Enabled(w, labels[0])
    || (!EndsLoop(wide, w, labels[0])
        && (StepKeeps(wide, w, labels[0]); LoopLives(wide, Step(wide, w, labels[0]), labels[1..])))
  }

  predicate LivesOn(wide: nat -> nat, devices: nat, scrollback: int, labels: seq<Label>)
    requires devices > 0
  {
    InitialWorld(devices, scrollback);
    LoopLives(wide, NewWorld(devices, scrollback), labels)
  }

  lemma {:induction false} RunReads(wide: nat -> nat, w: World, labels: seq<Label>)
    requires Inv(w) && w.phase == Running && Reads(w) && LoopLives(wide, w, labels)
    ensures match Run(wide, w, labels)
            case Some(r) => r.phase == Running ==> Reads(r)
            case None => true
    decreases |labels|
  {
    if labels != [] && Enabled(w, labels[0]) {
      hide Inv, Step, Enabled, EndsLoop, Reads;
      var next := Step(wide, w, labels[0]);
      ReadsOn(wide, w, labels[0]);
      StepKeeps(wide, w, labels[0]);
      if next.phase == Running {
        RunReads(wide, next, labels[1..]);
      } else {
        NeverRunsAgain(wide, next, labels[1..]);
      }
    }
  }

  lemma {:induction false} NeverRunsAgain(wide: nat -> nat, w: World, labels: seq<Label>)
    requires Inv(w) && w.phase != Running
    ensures match Run(wide, w, labels)
            case Some(r) => r.phase != Running
            case None => true
  {
    hide Inv, Remaining, Run;
    ShutdownEnds(wide, w, labels);
  }

  /**
  As long as the loop has neither quit nor panicked and shutdown has not begun, the channel has a reader: one waits for a
  message and can take the next, or the loop has one at hand, and handling it leaves a reader waiting or ends the loop. So
  no opener and no pump is kept waiting for good by a full channel.
  */
  lemma ReaderNeverLost(wide: nat -> nat, devices: nat, scrollback: int, labels: seq<Label>, w: World)
    requires devices > 0 && Reaches(wide, devices, scrollback, labels, w) && w.phase == Running
    requires LivesOn(wide, devices, scrollback, labels)
    ensures w.takers > 0 || exists msg :: msg in w.taken
    ensures w.takers > 0 && w.events != [] ==>
              Enabled(w, Take) && |Step(wide, w, Take).events| < |w.events|
    ensures forall msg, env :: msg in w.taken ==>
              && Enabled(w, Handle(msg, env))
              && (EndsLoop(wide, w, Handle(msg, env)) || Step(wide, w, Handle(msg, env)).takers > 0)
  {
    hide Inv, Run, EndsLoop, LoopLives, LoopStep;
    InitialWorld(devices, scrollback);
    var start := NewWorld(devices, scrollback);
    StartsReading(devices, scrollback);
    RunReads(wide, start, labels);
    forall msg, env | msg in w.taken
      ensures Enabled(w, Handle(msg, env))
      ensures EndsLoop(wide, w, Handle(msg, env)) || Step(wide, w, Handle(msg, env)).takers > 0
    {
      HandledReads(wide, w, msg, env);
    }
    assert w.taken != multiset{} ==> exists msg :: msg in w.taken;
  }

  lemma StartsReading(devices: nat, scrollback: int)
    requires devices > 0
    ensures NewWorld(devices, scrollback).phase == Running && Reads(NewWorld(devices, scrollback))
  {
    var (mux, effects) := Activate(NewMux(devices, scrollback), 0);
    EffectsRead(World(mux, map[], map[], 0, [], multiset{}, 1, Running, [], {}, {}), effects);
  }

  lemma HandledReads(wide: nat -> nat, w: World, msg: Msg, env: Env)
    requires Inv(w) && w.phase == Running && msg in w.taken
    ensures Enabled(w, Handle(msg, env))
    ensures EndsLoop(wide, w, Handle(msg, env)) || Step(wide, w, Handle(msg, env)).takers > 0
  {
    TakenDeliverable(w, msg);
    TakenIsNotUser(w, msg);
    InvMux(w);
    hide Inv, MuxOk, Update, Deliverable;
    var (mux, effects) := Update(wide, w.mux, msg, env);
    EffectsRead(MarkSeen(w.(taken := w.taken - multiset{msg}, mux := mux), msg), effects);
    AsksAgain(wide, w.mux, msg, env);
  }

  // ----- sessions on the register -----

  /** The session that an opener has or has announced, once it is on the register. */
  function Entered(o: Opener): Option<SessionId> {
    match o
    case Registered(s) => Some(s)
    case Sent(Opened(_, _, s)) => Some(s)
    case _ => None
  }

  /** Until shutdown takes the register over, it holds every session that has been announced or is about to be. */
  predicate RegisterFirst(w: World) {
    w.phase.Draining? || w.phase.Finished? ||
    forall a :: a in w.openers && Entered(w.openers[a]).Some? ==> Entered(w.openers[a]).value in w.registry
  }

  lemma {:induction false} EffectsRegister(w: World, effects: seq<Effect>)
    requires RegisterFirst(w)
    ensures RegisterFirst(StartAll(w, effects))
    decreases |effects|
  {
    if effects != [] { EffectsRegister(Start(w, effects[0]), effects[1..]); }
  }

  lemma RegisterKept(wide: nat -> nat, w: World, l: Label)
    requires Inv(w) && Enabled(w, l) && RegisterFirst(w)
    ensures RegisterFirst(Step(wide, w, l))
  {
    hide Inv, Update, Deliverable;
    if l.User? || l.Handle? {
      if l.User? { UserDeliverable(w, l.msg); } else { TakenDeliverable(w, l.msg); }
      InvMux(w);
      var v := if l.User? then w else w.(taken := w.taken - multiset{l.msg});
      var (mux, effects) := Update(wide, w.mux, l.msg, l.env);
      EffectsRegister(MarkSeen(v.(mux := mux), l.msg), effects);
    }
  }

  lemma {:induction false} RunRegisters(wide: nat -> nat, w: World, labels: seq<Label>)
    requires Inv(w) && RegisterFirst(w)
    ensures Run(wide, w, labels).Some? ==> RegisterFirst(Run(wide, w, labels).value)
    decreases |labels|
  {
    if labels != [] && Enabled(w, labels[0]) {
      hide Inv, Step, Enabled, RegisterFirst;
      RegisterKept(wide, w, labels[0]);
      StepKeeps(wide, w, labels[0]);
      RunRegisters(wide, Step(wide, w, labels[0]), labels[1..]);
    }
  }

  /** On every run, a session is on the register before it is announced, and stays there until shutdown closes what is on it. */
  lemma RegisteredBeforeAnnounced(wide: nat -> nat, devices: nat, scrollback: int, labels: seq<Label>, w: World)
    requires devices > 0 && Reaches(wide, devices, scrollback, labels, w)
    ensures RegisterFirst(w)
    ensures forall msg :: msg in InFlight(w) && msg.Opened? && !w.phase.Draining? && !w.phase.Finished? ==>
              msg.session in w.registry
  {
    hide Inv, Run, RegisterFirst;
    InitialWorld(devices, scrollback);
    StartsRegistered(devices, scrollback);
    RunRegisters(wide, NewWorld(devices, scrollback), labels);
    InFlightRegistered(w);
  }

  lemma StartsRegistered(devices: nat, scrollback: int)
    requires devices > 0
    ensures RegisterFirst(NewWorld(devices, scrollback))
  {
    var (mux, effects) := Activate(NewMux(devices, scrollback), 0);
    EffectsRegister(World(mux, map[], map[], 0, [], multiset{}, 1, Running, [], {}, {}), effects);
  }

  lemma InFlightRegistered(w: World)
    requires Inv(w) && RegisterFirst(w)
    ensures forall msg :: msg in InFlight(w) && msg.Opened? && !w.phase.Draining? && !w.phase.Finished? ==>
              msg.session in w.registry
  {
    hide MuxOk, AttachesOk, PumpsOk, SessionsOk, PhaseOk, CountOk, InFlight;
    forall msg | msg in InFlight(w) && msg.Opened? && !w.phase.Draining? && !w.phase.Finished?
      ensures msg.session in w.registry
    {
      assert MsgOk(w, msg);
      assert Entered(w.openers[(msg.idx, msg.gen)]) == Some(msg.session);
    }
  }

  /** A pane is live exactly when it holds a session, and its view points into the history it has. */
  predicate PanesSafe(w: World) {
    forall i :: 0 <= i < |w.mux.panes| ==>
      && (w.mux.panes[i].state == Live <==> w.mux.panes[i].session.Some?)
      && 0 <= w.mux.panes[i].offset <= |w.mux.panes[i].screen.scrollback|
  }

  /** No tab waits for two answers. */
  predicate OneAttachEach(w: World) {
    forall a: Attach, b: Attach ::
      a in w.openers && b in w.openers && !w.openers[a].Handled? && !w.openers[b].Handled? && a.0 == b.0 ==> a == b
  }

  /** Nothing of an attach is on its way before the loop has seen its answer; an answer is on its way once, and expected. */
  predicate AnswersFirst(w: World) {
    forall msg :: msg in InFlight(w) ==>
      && (msg.Output? || msg.Ended? ==>
            msg.idx >= 0 && (msg.idx, msg.gen) in w.openers && w.openers[(msg.idx, msg.gen)] == Handled)
      && (msg.Opened? || msg.OpenFailed? ==>
            InFlight(w)[msg] == 1 && AddressesPane(w.mux, msg.idx, msg.gen) && w.mux.panes[msg.idx].state == Opening)
  }

  lemma GenerationSafety(wide: nat -> nat, devices: nat, scrollback: int, labels: seq<Label>, w: World)
    requires devices > 0 && Reaches(wide, devices, scrollback, labels, w)
    ensures PanesSafe(w) && OneAttachEach(w) && AnswersFirst(w)
  {
    InitialWorld(devices, scrollback);
    hide MuxOk, AttachesOk, PumpsOk, MessagesOk, SessionsOk, PhaseOk, CountOk, PanesSafe, OneAttachEach, AnswersFirst, Run;
    AllPanesSafe(w);
    AttachesApart(w);
    InOrder(w);
  }

  lemma AllPanesSafe(w: World)
    requires MuxOk(w.mux)
    ensures PanesSafe(w)
  {
    forall i | 0 <= i < |w.mux.panes|
      ensures PaneOk(w.mux.panes[i], PaneRows(w.mux.height))
    {
    }
  }

  lemma AttachesApart(w: World)
    requires AttachesOk(w)
    ensures OneAttachEach(w)
  {
  }

  lemma InOrder(w: World)
    requires AttachesOk(w) && PumpsOk(w) && MessagesOk(w)
    ensures AnswersFirst(w)
  {
    forall msg | msg in InFlight(w)
      ensures MsgOk(w, msg)
      ensures msg.Opened? || msg.OpenFailed? ==>
                AddressesPane(w.mux, msg.idx, msg.gen) && w.mux.panes[msg.idx].state == Opening
    {
      assert MsgOk(w, msg);
      if msg.Opened? || msg.OpenFailed? { OpenerIsCurrent(w, (msg.idx, msg.gen)); }
    }
    hide InFlight;
  }
}
