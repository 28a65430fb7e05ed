/**
term/mux.go and term/mux_model.go, over whole runs: what sessions send is what the loop is sent, byte for byte and in order, and
the loop quits only when it is asked to or nothing is left.
*/
module MuxTraffic {
  import opened Wrappers
  import opened Utf8
  import opened MuxModel
  import opened MuxProtocol
  import opened MuxRuns
  import opened MuxLaws

  // ----- what is read, held and sent -----

  /** All that the reads of an attach have returned. */
  function ReadBy(labels: seq<Label>, a: Attach): seq<byte> {
    if labels == [] then []
    else (if labels[0].Read? && labels[0].a == a then labels[0].data else []) + ReadBy(labels[1..], a)
  }

  /** All the output of an attach that is in these messages, in their order. */
  function DataOf(msgs: seq<Msg>, a: Attach): seq<byte> {
    if msgs == [] then []
    else (if IsOutputOf(msgs[0], a) then msgs[0].data else []) + DataOf(msgs[1..], a)
  }

  predicate IsOutputOf(msg: Msg, a: Attach) {
    msg.Output? && msg.idx == a.0 && msg.gen == a.1
  }

  predicate IsEndOf(msg: Msg, a: Attach) {
    msg.Ended? && msg.idx == a.0 && msg.gen == a.1
  }

  /** What a pump has read and not sent yet. */
  function Held(w: World, a: Attach): seq<byte> {
    if a in w.pumps && w.pumps[a].phase.Holding? then w.pumps[a].phase.data else []
  }

  /** What is at the end of the channel after a step and was not there before. */
  function Put(w: World, r: World): seq<Msg> {
    if |w.events| <= |r.events| then r.events[|w.events|..] else []
  }

  /** All that a run puts into the channel. */
  function Transmitted(wide: nat -> nat, w: World, labels: seq<Label>): seq<Msg>
    requires Inv(w)
    decreases |labels|
  {
    if labels == [] || !Enabled(w, labels[0]) then []
    else
      StepKeeps(wide, w, labels[0]);
      var r := Step(wide, w, labels[0]);
      Put(w, r) + Transmitted(wide, r, labels[1..])
  }

  // ----- one step -----

  /** The pumps that were there are as they were, and new ones have read nothing. */
  predicate PumpsKept(w: World, r: World) {
    && (forall a :: a in w.pumps ==> a in r.pumps && r.pumps[a] == w.pumps[a])
    && (forall a :: a in r.pumps && a !in w.pumps ==> r.pumps[a].phase == Reading)
  }

  lemma {:induction false} EffectsQuiet(w: World, effects: seq<Effect>)
    requires forall e :: e in effects ==> !e.StartPump?
    ensures var r := StartAll(w, effects); r.pumps == w.pumps && r.events == w.events && r.mux == w.mux
    decreases |effects|
  {
    if effects != [] { EffectsQuiet(Start(w, effects[0]), effects[1..]); }
  }

  lemma PumpStarts(w: World, idx: nat, gen: nat, session: SessionId)
    requires (idx, gen) !in w.pumps
    ensures var r := StartAll(w, [StartPump(idx, gen, session), NextEvent]);
            PumpsKept(w, r) && r.events == w.events && r.mux == w.mux
  {
    var effects := [StartPump(idx, gen, session), NextEvent];
    assert effects[1..] == [NextEvent] && [NextEvent][1..] == [];
  }

  lemma NoPumpStarts(wide: nat -> nat, m: Mux, msg: Msg, env: Env)
    requires MuxOk(m) && Deliverable(m, msg) && !msg.Opened?
    ensures forall e :: e in Update(wide, m, msg, env).1 ==> !e.StartPump?
  {
    if msg.KeyPress? {
      KeysStartNoPump(wide, m, msg.key, env);
    }
    hide MuxOk, PaneOk, PaneOutput, ClosedPane, KeyStep, ResizeAll, AllEndedCleanly;
  }

  lemma KeysStartNoPump(wide: nat -> nat, m: Mux, key: Key, env: Env)
    requires MuxOk(m)
    ensures forall e :: e in KeyStep(wide, m, key, env).1 ==> !e.StartPump?
  {
    hide MuxOk, KeyStep, PanesKept, PaneReopens, PanesCrash;
    assert KeyOutcome(m, KeyStep(wide, m, key, env).0, KeyStep(wide, m, key, env).1);
  }

  /** The loop sends nothing through the channel, and touches no pump. */
  lemma LoopQuiet(wide: nat -> nat, w: World, l: Label)
    requires Inv(w) && Enabled(w, l) && (l.User? || l.Handle?)
    ensures Deliverable(w.mux, l.msg) && MuxOk(w.mux)
    ensures var r := Step(wide, w, l);
            PumpsKept(w, r) && r.events == w.events && r.mux == Update(wide, w.mux, l.msg, l.env).0
  {
    hide Inv, MuxOk, Update, Deliverable, StartAll, AddressesPane, InFlight;
    InvMux(w);
    if l.User? { UserDeliverable(w, l.msg); } else { TakenDeliverable(w, l.msg); }
    var (mux, effects) := Update(wide, w.mux, l.msg, l.env);
    var v := MarkSeen((if l.User? then w else w.(taken := w.taken - multiset{l.msg})).(mux := mux), l.msg);
    if l.msg.Opened? {
      AnswersAreCurrent(wide, w, l.msg, l.env);
      NotPumpedYet(w, l.msg);
      PumpStarts(v, l.msg.idx, l.msg.gen, l.msg.session);
    } else {
      NoPumpStarts(wide, w.mux, l.msg, l.env);
      EffectsQuiet(v, effects);
    }
  }

  lemma NotPumpedYet(w: World, msg: Msg)
    requires Inv(w) && msg in w.taken && msg.Opened?
    ensures msg.idx >= 0 && (msg.idx, msg.gen) !in w.pumps
  {
    assert MsgOk(w, msg);
    hide MuxOk, AttachesOk, SessionsOk, PhaseOk, CountOk, InFlight;
  }

  predicate IsPumpStep(l: Label) {
    l.Read? || l.Emit? || l.GiveUpPumping?
  }

  predicate IsOpenerStep(l: Label) {
    l.OpenReturns? || l.Register? || l.Announce? || l.GiveUpOpening?
  }

  predicate IsShutdownStep(l: Label) {
    l.Stop? || l.Cancel? || l.CloseNext? || l.WaitReturns? || l.DrainNext?
  }

  /** Only a reader takes anything out of the channel; every other step leaves what is there, and puts what it puts behind it. */
  predicate QueueKept(w: World, l: Label, r: World) {
    if l.Take? then w.events != [] && r.events == w.events[1..] && r.taken == w.taken + multiset{w.events[0]}
    else r.events == w.events + Put(w, r)
  }

  /** What is read is held, what is held is sent, and what is given up is lost. */
  predicate Conserves(w: World, l: Label, r: World, a: Attach) {
    if l == GiveUpPumping(a) then Held(r, a) == [] && DataOf(Put(w, r), a) == [] && a in r.pumps && r.pumps[a].phase == Stopped
    else Held(w, a) + ReadBy([l], a) == DataOf(Put(w, r), a) + Held(r, a)
  }

  /** A pump that has stopped reads nothing more and sends nothing more. */
  predicate StaysStopped(w: World, l: Label, r: World, a: Attach) {
    a in w.pumps && w.pumps[a].phase == Stopped ==>
      && a in r.pumps && r.pumps[a].phase == Stopped && ReadBy([l], a) == [] && DataOf(Put(w, r), a) == []
      && Silent(Put(w, r), a)
  }

  /** Nothing of the attach's session is among these messages. */
  predicate Silent(msgs: seq<Msg>, a: Attach) {
    forall msg :: msg in msgs ==> !IsEndOf(msg, a) && !IsOutputOf(msg, a)
  }

  /** The error that ended the last read of an attach, if one did. */
  function LastEnd(labels: seq<Label>, a: Attach, was: Option<bool>): Option<bool> {
    if labels == [] then was
    else LastEnd(labels[1..], a, if labels[0].Read? && labels[0].a == a then labels[0].end else was)
  }

  /** What the pump knows of it. */
  function EndKnown(w: World, a: Attach): Option<bool> {
    if a !in w.pumps then None
    else match w.pumps[a].phase
      case Holding(_, end) => end
      case Ending(failed) => Some(failed)
      case _ => None
  }

  predicate HasStopped(w: World, a: Attach) {
    a in w.pumps && w.pumps[a].phase == Stopped
  }

  /** A pump that does not give up stops with the message that says so, and with the error that it knows of. */
  predicate EndsWell(w: World, l: Label, r: World, a: Attach) {
    HasStopped(w, a) || l == GiveUpPumping(a) ||
    if HasStopped(r, a) then EndKnown(w, a).Some? && Put(w, r) == [Ended(a.0, a.1, EndKnown(w, a).value)] && !(l.Read? && l.a == a)
    else (forall msg :: msg in Put(w, r) ==> !IsEndOf(msg, a)) && EndKnown(r, a) == LastEnd([l], a, EndKnown(w, a))
  }

  lemma PumpPuts(w: World, l: Label, a: Attach)
    requires Enabled(w, l) && IsPumpStep(l)
    ensures var r := PumpStep(w, l);
            && QueueKept(w, l, r) && Conserves(w, l, r, a) && StaysStopped(w, l, r, a) && EndsWell(w, l, r, a)
            && r.mux == w.mux && r.taken == w.taken && r.takers == w.takers
  {
    hide Put, DataOf, Conserves, StaysStopped, EndsWell;
    PumpQueues(w, l);
    PumpConserves(w, l, a);
    PumpStays(w, l, a);
    PumpEnds(w, l, a);
  }

  lemma PumpQueues(w: World, l: Label)
    requires Enabled(w, l) && IsPumpStep(l)
    ensures var r := PumpStep(w, l);
            QueueKept(w, l, r) && r.mux == w.mux && r.taken == w.taken && r.takers == w.takers
  {
  }

  lemma PumpConserves(w: World, l: Label, a: Attach)
    requires Enabled(w, l) && IsPumpStep(l)
    ensures Conserves(w, l, PumpStep(w, l), a)
  {
    var r := PumpStep(w, l);
    if l.Emit? {
      assert |Put(w, r)| == 1 && Put(w, r)[1..] == [];
    } else {
      assert Put(w, r) == [];
    }
  }

  lemma PumpStays(w: World, l: Label, a: Attach)
    requires Enabled(w, l) && IsPumpStep(l)
    ensures StaysStopped(w, l, PumpStep(w, l), a)
  {
    var r := PumpStep(w, l);
    if l.Emit? {
      assert |Put(w, r)| == 1 && Put(w, r)[1..] == [];
    } else {
      assert Put(w, r) == [];
    }
  }

  lemma PumpEnds(w: World, l: Label, a: Attach)
    requires Enabled(w, l) && IsPumpStep(l)
    ensures EndsWell(w, l, PumpStep(w, l), a)
  {
    var r := PumpStep(w, l);
    if l.Emit? {
      assert |Put(w, r)| == 1 && Put(w, r)[1..] == [];
    } else {
      assert Put(w, r) == [];
    }
  }

  lemma OpenerPuts(w: World, l: Label, a: Attach)
    requires Enabled(w, l) && IsOpenerStep(l)
    ensures var r := OpenerStep(w, l);
            && QueueKept(w, l, r) && Conserves(w, l, r, a) && StaysStopped(w, l, r, a) && EndsWell(w, l, r, a)
            && r.mux == w.mux && r.taken == w.taken && r.takers == w.takers
            && r.pumps == w.pumps
  {
    hide DataOf, Conserves, StaysStopped, EndsWell, Put;
    var r := OpenerStep(w, l);
    OpenerAnswers(w, l);
    AnswersAside(w, l, r, a);
  }

  lemma OpenerAnswers(w: World, l: Label)
    requires Enabled(w, l) && IsOpenerStep(l)
    ensures var r := OpenerStep(w, l);
            QueueKept(w, l, r) && |Put(w, r)| <= 1 && forall msg :: msg in Put(w, r) ==> msg.Opened? || msg.OpenFailed?
  {
  }

  /** Answers of openers are no output, and no end. */
  lemma AnswersAside(w: World, l: Label, r: World, a: Attach)
    requires IsOpenerStep(l) && r.pumps == w.pumps && |Put(w, r)| <= 1
    requires forall msg :: msg in Put(w, r) ==> msg.Opened? || msg.OpenFailed?
    ensures Conserves(w, l, r, a) && StaysStopped(w, l, r, a) && EndsWell(w, l, r, a)
  {
    var msgs := Put(w, r);
    if msgs != [] {
      assert msgs[0] in msgs && msgs[1..] == [];
    }
  }

  lemma ShutdownPuts(w: World, l: Label, a: Attach)
    requires Enabled(w, l) && IsShutdownStep(l)
    ensures var r := ShutdownStep(w, l);
            && QueueKept(w, l, r) && Conserves(w, l, r, a) && StaysStopped(w, l, r, a) && EndsWell(w, l, r, a)
            && r.mux == w.mux && r.taken == w.taken && r.takers == w.takers
            && r.pumps == w.pumps
  {
    assert Put(w, ShutdownStep(w, l)) == [];
  }

  /** The commands and the loop leave the pumps at work alone. */
  lemma SamePumps(w: World, l: Label, r: World, a: Attach)
    requires PumpsKept(w, r) && Put(w, r) == [] && (l.User? || l.Handle? || l.Take? || l.TakerLeaves?)
    ensures Conserves(w, l, r, a) && StaysStopped(w, l, r, a) && EndsWell(w, l, r, a)
  {
  }

  lemma OneStep(wide: nat -> nat, w: World, l: Label, a: Attach)
    requires Inv(w) && Enabled(w, l)
    ensures var r := Step(wide, w, l);
            QueueKept(w, l, r) && Conserves(w, l, r, a) && StaysStopped(w, l, r, a) && EndsWell(w, l, r, a)
  {
    hide Inv, LoopStep, OpenerStep, ShutdownStep, PumpStep, Conserves, StaysStopped, EndsWell, PumpsKept;
    var r := Step(wide, w, l);
    if l.User? || l.Handle? {
      LoopQuiet(wide, w, l);
      assert Put(w, r) == [];
      SamePumps(w, l, r, a);
    } else if IsPumpStep(l) {
      PumpPuts(w, l, a);
    } else if IsOpenerStep(l) {
      OpenerPuts(w, l, a);
    } else if IsShutdownStep(l) {
      ShutdownPuts(w, l, a);
    } else {
      assert Put(w, r) == [];
      SamePumps(w, l, r, a);
    }
  }

  // ----- runs -----

  lemma {:induction false} DataOfConcat(msgs: seq<Msg>, more: seq<Msg>, a: Attach)
    ensures DataOf(msgs + more, a) == DataOf(msgs, a) + DataOf(more, a)
    decreases |msgs|
  {
    if msgs == [] {
      assert msgs + more == more;
    } else {
      assert (msgs + more)[1..] == msgs[1..] + more;
      DataOfConcat(msgs[1..], more, a);
    }
  }

  lemma {:induction false} StoppedSilent(wide: nat -> nat, w: World, labels: seq<Label>, a: Attach)
    requires Inv(w) && a in w.pumps && w.pumps[a].phase == Stopped && Run(wide, w, labels).Some?
    ensures var r := Run(wide, w, labels).value;
            && a in r.pumps && r.pumps[a].phase == Stopped && ReadBy(labels, a) == [] && DataOf(Transmitted(wide, w, labels), a) == []
            && Silent(Transmitted(wide, w, labels), a)
    decreases |labels|
  {
    hide *;
    if labels == [] {
      NothingSent(wide, w, a);
    } else {
      var r := FirstStep(wide, w, labels, a);
      OneStep(wide, w, labels[0], a);
      StoppedGoesOn(w, labels[0], r, a);
      StoppedSilent(wide, r, labels[1..], a);
      BothSilent(Put(w, r), Transmitted(wide, r, labels[1..]), a);
    }
  }

  lemma BothSilent(msgs: seq<Msg>, more: seq<Msg>, a: Attach)
    requires Silent(msgs, a) && Silent(more, a)
    ensures Silent(msgs + more, a)
  {
  }

  lemma StoppedGoesOn(w: World, l: Label, r: World, a: Attach)
    requires StaysStopped(w, l, r, a) && a in w.pumps && w.pumps[a].phase == Stopped
    ensures a in r.pumps && r.pumps[a].phase == Stopped && ReadBy([l], a) == [] && DataOf(Put(w, r), a) == []
    ensures Silent(Put(w, r), a)
  {
  }

  lemma Conserved(w: World, l: Label, r: World, a: Attach)
    requires Conserves(w, l, r, a)
    ensures if l == GiveUpPumping(a) then DataOf(Put(w, r), a) == [] && a in r.pumps && r.pumps[a].phase == Stopped
            else Held(w, a) + ReadBy([l], a) == DataOf(Put(w, r), a) + Held(r, a)
  {
  }

  lemma NothingSent(wide: nat -> nat, w: World, a: Attach)
    requires Inv(w)
    ensures Run(wide, w, []) == Some(w) && ReadBy([], a) == [] && Transmitted(wide, w, []) == [] && DataOf([], a) == []
    ensures Silent([], a)
  {
    hide Inv;
  }

  /** A run is its first step and the run from there. */
  lemma FirstStep(wide: nat -> nat, w: World, labels: seq<Label>, a: Attach) returns (r: World)
    requires Inv(w) && labels != [] && Run(wide, w, labels).Some?
    ensures Enabled(w, labels[0]) && r == Step(wide, w, labels[0]) && Inv(r) && Run(wide, w, labels) == Run(wide, r, labels[1..])
    ensures Transmitted(wide, w, labels) == Put(w, r) + Transmitted(wide, r, labels[1..])
    ensures DataOf(Transmitted(wide, w, labels), a) == DataOf(Put(w, r), a) + DataOf(Transmitted(wide, r, labels[1..]), a)
    ensures ReadBy(labels, a) == ReadBy([labels[0]], a) + ReadBy(labels[1..], a)
  {
    hide Inv, Step, Enabled, Put, DataOf;
    StepKeeps(wide, w, labels[0]);
    r := Step(wide, w, labels[0]);
    DataOfConcat(Put(w, r), Transmitted(wide, r, labels[1..]), a);
  }

  lemma MoveOver<T>(held: seq<T>, read: seq<T>, put: seq<T>, held': seq<T>, rest: seq<T>, sent: seq<T>, end: seq<T>)
    requires held + read == put + held' && held' + rest == sent + end
    ensures held + (read + rest) == (put + sent) + end
  {
    assert held + (read + rest) == (held + read) + rest == put + (held' + rest) == (put + sent) + end;
  }

  /**
  Whatever else happens in between: what the reads of an attach have returned is what has been sent of it, in the same order,
  and what its pump holds; as long as the pump does not give up, which it does only under shutdown.
  */
  lemma {:induction false} OutputConserved(wide: nat -> nat, w: World, labels: seq<Label>, a: Attach)
    requires Inv(w) && Run(wide, w, labels).Some? && GiveUpPumping(a) !in labels
    ensures Held(w, a) + ReadBy(labels, a) == DataOf(Transmitted(wide, w, labels), a) + Held(Run(wide, w, labels).value, a)
    decreases |labels|
  {
    hide *;
    if labels == [] {
      NothingSent(wide, w, a);
    } else {
      var r := FirstStep(wide, w, labels, a);
      OneStep(wide, w, labels[0], a);
      Conserved(w, labels[0], r, a);
      OutputConserved(wide, r, labels[1..], a);
      MoveOver(Held(w, a), ReadBy([labels[0]], a), DataOf(Put(w, r), a), Held(r, a), ReadBy(labels[1..], a),
               DataOf(Transmitted(wide, r, labels[1..]), a), Held(Run(wide, w, labels).value, a));
    }
  }

  lemma PrefixOver<T>(held: seq<T>, read: seq<T>, put: seq<T>, held': seq<T>, rest: seq<T>, sent: seq<T>)
    requires held + read == put + held' && sent <= held' + rest
    ensures put + sent <= held + (read + rest)
  {
    assert held + (read + rest) == (held + read) + rest == put + (held' + rest);
    assert (put + (held' + rest))[..|put| + |sent|] == put + (held' + rest)[..|sent|];
  }

  /** If it gives up, what has been sent is a beginning of what was read. */
  lemma {:induction false} OutputInOrder(wide: nat -> nat, w: World, labels: seq<Label>, a: Attach)
    requires Inv(w) && Run(wide, w, labels).Some?
    ensures DataOf(Transmitted(wide, w, labels), a) <= Held(w, a) + ReadBy(labels, a)
    decreases |labels|
  {
    hide *;
    if labels == [] {
      NothingSent(wide, w, a);
    } else {
      var r := FirstStep(wide, w, labels, a);
      OneStep(wide, w, labels[0], a);
      Conserved(w, labels[0], r, a);
      if labels[0] == GiveUpPumping(a) {
        StoppedSilent(wide, r, labels[1..], a);
      } else {
        OutputInOrder(wide, r, labels[1..], a);
        PrefixOver(Held(w, a), ReadBy([labels[0]], a), DataOf(Put(w, r), a), Held(r, a), ReadBy(labels[1..], a),
                   DataOf(Transmitted(wide, r, labels[1..]), a));
      }
    }
  }

  // ----- how a session ends -----

  /** Exactly one message says that the session has ended, with this error or none, and nothing of it comes behind. */
  predicate EndsOnce(msgs: seq<Msg>, a: Attach, failed: bool) {
    msgs != [] &&
    if IsEndOf(msgs[0], a) then msgs[0].failed == failed && Silent(msgs[1..], a) else EndsOnce(msgs[1..], a, failed)
  }

  predicate Endless(msgs: seq<Msg>, a: Attach) {
    forall msg :: msg in msgs ==> !IsEndOf(msg, a)
  }

  /** What a run says of the end of a session: nothing while its pump is at work, else once what the last read ended with. */
  predicate ReportsEnd(w: World, labels: seq<Label>, r: World, sent: seq<Msg>, a: Attach) {
    var end := LastEnd(labels, a, EndKnown(w, a));
    if HasStopped(r, a) then end.Some? && EndsOnce(sent, a, end.value) else Endless(sent, a)
  }

  /**
  A pump that does not give up tells the end of its session once, behind all that was read, and with the error, or none, that
  the last read ended with. Until then it does not.
  */
  lemma {:induction false} EndReported(wide: nat -> nat, w: World, labels: seq<Label>, a: Attach)
    requires Inv(w) && Run(wide, w, labels).Some? && GiveUpPumping(a) !in labels && !HasStopped(w, a)
    ensures ReportsEnd(w, labels, Run(wide, w, labels).value, Transmitted(wide, w, labels), a)
    decreases |labels|
  {
    hide *;
    if labels == [] {
      NothingSent(wide, w, a);
      NothingReported(w, a);
    } else {
      var r := FirstStep(wide, w, labels, a);
      OneStep(wide, w, labels[0], a);
      if HasStopped(r, a) {
        NowStopped(r, a);
        StoppedSilent(wide, r, labels[1..], a);
        NoMoreEnds(wide, r, labels[1..], a, EndKnown(w, a));
        EndsHere(w, labels, r, Run(wide, w, labels).value, Transmitted(wide, r, labels[1..]), a);
      } else {
        EndReported(wide, r, labels[1..], a);
        EndsLater(w, labels, r, Run(wide, w, labels).value, Transmitted(wide, r, labels[1..]), a);
      }
    }
  }

  lemma NothingReported(w: World, a: Attach)
    requires !HasStopped(w, a)
    ensures ReportsEnd(w, [], w, [], a)
  {
  }

  lemma NowStopped(w: World, a: Attach)
    requires HasStopped(w, a)
    ensures a in w.pumps && w.pumps[a].phase == Stopped
  {
  }

  lemma {:induction false} NoMoreEnds(wide: nat -> nat, w: World, labels: seq<Label>, a: Attach, end: Option<bool>)
    requires Inv(w) && a in w.pumps && w.pumps[a].phase == Stopped && Run(wide, w, labels).Some?
    ensures LastEnd(labels, a, end) == end
    decreases |labels|
  {
    hide *;
    if labels == [] {
      NoLastEnd(a, end);
    } else {
      var r := FirstStep(wide, w, labels, a);
      OneStep(wide, w, labels[0], a);
      StoppedGoesOn(w, labels[0], r, a);
      NotRead(w, labels, a, end);
      NoMoreEnds(wide, r, labels[1..], a, end);
    }
  }

  lemma NoLastEnd(a: Attach, end: Option<bool>)
    ensures LastEnd([], a, end) == end
  {
  }

  lemma NotRead(w: World, labels: seq<Label>, a: Attach, end: Option<bool>)
    requires labels != [] && Enabled(w, labels[0]) && a in w.pumps && w.pumps[a].phase == Stopped
    ensures LastEnd(labels, a, end) == LastEnd(labels[1..], a, end)
  {
  }

  lemma EndsHere(w: World, labels: seq<Label>, r: World, last: World, sent: seq<Msg>, a: Attach)
    requires labels != [] && EndsWell(w, labels[0], r, a) && labels[0] != GiveUpPumping(a) && !HasStopped(w, a)
    requires HasStopped(r, a) && a in last.pumps && last.pumps[a].phase == Stopped && Silent(sent, a)
    requires LastEnd(labels[1..], a, EndKnown(w, a)) == EndKnown(w, a)
    ensures ReportsEnd(w, labels, last, Put(w, r) + sent, a)
  {
    hide Put, EndKnown, Silent;
    assert (Put(w, r) + sent)[1..] == sent;
  }

  lemma EndsLater(w: World, labels: seq<Label>, r: World, last: World, sent: seq<Msg>, a: Attach)
    requires labels != [] && EndsWell(w, labels[0], r, a) && labels[0] != GiveUpPumping(a) && !HasStopped(w, a)
    requires !HasStopped(r, a) && ReportsEnd(r, labels[1..], last, sent, a)
    ensures ReportsEnd(w, labels, last, Put(w, r) + sent, a)
  {
    hide Put, EndKnown, HasStopped;
    assert LastEnd(labels, a, EndKnown(w, a)) == LastEnd(labels[1..], a, LastEnd([labels[0]], a, EndKnown(w, a)));
    var end := LastEnd(labels, a, EndKnown(w, a));
    if HasStopped(last, a) {
      EndsBehind(Put(w, r), sent, a, end.value);
    }
  }

  lemma {:induction false} EndsBehind(msgs: seq<Msg>, more: seq<Msg>, a: Attach, failed: bool)
    requires Endless(msgs, a) && EndsOnce(more, a, failed)
    ensures EndsOnce(msgs + more, a, failed)
    decreases |msgs|
  {
    if msgs == [] {
      assert msgs + more == more;
    } else {
      assert (msgs + more)[1..] == msgs[1..] + more;
      assert msgs[0] in msgs;
      EndsBehind(msgs[1..], more, a, failed);
    }
  }

  // ----- what is told of an attach -----

  /** The loop is told that an attach succeeded only where its Open returned that session, and that it failed only where it did. */
  predicate AnswerTrue(msg: Msg, labels: seq<Label>) {
    match msg
    case Opened(idx, gen, s) => idx >= 0 && OpenReturns((idx, gen), Some(s)) in labels
    case OpenFailed(idx, gen) => idx >= 0 && OpenReturns((idx, gen), None) in labels
    case _ => true
  }

  /** What an opener goes by is what its Open has returned. */
  predicate OpenerTrue(a: Attach, o: Opener, labels: seq<Label>) {
    match o
    case Got(s) => OpenReturns(a, Some(s)) in labels
    case Registered(s) => OpenReturns(a, Some(s)) in labels
    case Failing => OpenReturns(a, None) in labels
    case _ => true
  }

  predicate OpenersTrue(w: World, labels: seq<Label>) {
    forall a :: a in w.openers ==> OpenerTrue(a, w.openers[a], labels)
  }

  predicate AnswersTrue(msgs: seq<Msg>, labels: seq<Label>) {
    forall msg :: msg in msgs ==> AnswerTrue(msg, labels)
  }

  lemma MoreLabels(w: World, labels: seq<Label>, l: Label)
    requires OpenersTrue(w, labels)
    ensures OpenersTrue(w, labels + [l])
  {
    forall a | a in w.openers
      ensures OpenerTrue(a, w.openers[a], labels + [l])
    {
      assert OpenerTrue(a, w.openers[a], labels);
    }
  }

  lemma {:induction false} EffectsTrue(w: World, effects: seq<Effect>, labels: seq<Label>)
    requires OpenersTrue(w, labels)
    ensures OpenersTrue(StartAll(w, effects), labels)
    decreases |effects|
  {
    if effects != [] { EffectsTrue(Start(w, effects[0]), effects[1..], labels); }
  }

  lemma LoopTrue(wide: nat -> nat, w: World, l: Label, labels: seq<Label>)
    requires Inv(w) && Enabled(w, l) && (l.User? || l.Handle?) && OpenersTrue(w, labels)
    ensures OpenersTrue(Step(wide, w, l), labels)
  {
    hide Inv, MuxOk, Update, Deliverable, StartAll, InFlight;
    InvMux(w);
    if l.User? { UserDeliverable(w, l.msg); } else { TakenDeliverable(w, l.msg); }
    var (mux, effects) := Update(wide, w.mux, l.msg, l.env);
    var v := MarkSeen((if l.User? then w else w.(taken := w.taken - multiset{l.msg})).(mux := mux), l.msg);
    EffectsTrue(v, effects, labels);
  }

  lemma OpenerTells(w: World, l: Label, labels: seq<Label>)
    requires Enabled(w, l) && IsOpenerStep(l) && OpenersTrue(w, labels) && l in labels
    ensures var r := OpenerStep(w, l); OpenersTrue(r, labels) && AnswersTrue(Put(w, r), labels)
  {
    assert OpenerTrue(l.a, w.openers[l.a], labels);
    var r := OpenerStep(w, l);
    hide OpenersTrue, AnswersTrue;
    OpenerTrueStep(w, l, labels);
    OneOpenerTrue(w, r, l.a, labels);
    PutTrue(w, l, labels);
  }

  lemma OpenerTrueStep(w: World, l: Label, labels: seq<Label>)
    requires Enabled(w, l) && IsOpenerStep(l) && OpenerTrue(l.a, w.openers[l.a], labels) && l in labels
    ensures var r := OpenerStep(w, l); r.openers == w.openers[l.a := r.openers[l.a]] && OpenerTrue(l.a, r.openers[l.a], labels)
  {
  }

  lemma OneOpenerTrue(w: World, r: World, a: Attach, labels: seq<Label>)
    requires OpenersTrue(w, labels) && a in r.openers && r.openers == w.openers[a := r.openers[a]]
    requires OpenerTrue(a, r.openers[a], labels)
    ensures OpenersTrue(r, labels)
  {
  }

  lemma PutTrue(w: World, l: Label, labels: seq<Label>)
    requires Enabled(w, l) && IsOpenerStep(l) && OpenerTrue(l.a, w.openers[l.a], labels)
    ensures AnswersTrue(Put(w, OpenerStep(w, l)), labels)
  {
    var r := OpenerStep(w, l);
    if l.Announce? {
      assert Put(w, r) == [Announcement(l.a, w.openers[l.a])];
    } else {
      assert Put(w, r) == [];
    }
  }

  lemma OthersTell(wide: nat -> nat, w: World, l: Label)
    requires Inv(w) && Enabled(w, l) && !IsOpenerStep(l) && !l.User? && !l.Handle?
    ensures var r := Step(wide, w, l); r.openers == w.openers && forall msg :: msg in Put(w, r) ==> !msg.Opened? && !msg.OpenFailed?
  {
    hide Inv, PumpStep, ShutdownStep, Put;
    if IsPumpStep(l) {
      PumpTells(w, l);
    } else if IsShutdownStep(l) {
      ShutdownPuts(w, l, (0, 0));
      ShutdownTells(w, l);
    } else {
      PutsNothing(w, Step(wide, w, l));
    }
  }

  lemma PumpTells(w: World, l: Label)
    requires Enabled(w, l) && IsPumpStep(l)
    ensures var r := PumpStep(w, l); r.openers == w.openers && forall msg :: msg in Put(w, r) ==> !msg.Opened? && !msg.OpenFailed?
  {
  }

  lemma ShutdownTells(w: World, l: Label)
    requires Enabled(w, l) && IsShutdownStep(l)
    ensures ShutdownStep(w, l).openers == w.openers && Put(w, ShutdownStep(w, l)) == []
  {
  }

  lemma PutsNothing(w: World, r: World)
    requires |r.events| <= |w.events|
    ensures Put(w, r) == []
  {
  }

  lemma StepTells(wide: nat -> nat, w: World, l: Label, labels: seq<Label>)
    requires Inv(w) && Enabled(w, l) && OpenersTrue(w, labels)
    ensures var r := Step(wide, w, l); OpenersTrue(r, labels + [l]) && AnswersTrue(Put(w, r), labels + [l])
  {
    hide Inv, LoopStep, OpenerStep, ShutdownStep, PumpStep, OpenersTrue, PumpsKept, Update, MuxOk, Deliverable;
    MoreLabels(w, labels, l);
    var r := Step(wide, w, l);
    if l.User? || l.Handle? {
      LoopTrue(wide, w, l, labels + [l]);
      LoopQuiet(wide, w, l);
      assert Put(w, r) == [];
    } else if IsOpenerStep(l) {
      OpenerTells(w, l, labels + [l]);
    } else {
      OthersTell(wide, w, l);
      SameTrue(w, r, labels + [l]);
    }
  }

  lemma SameTrue(w: World, r: World, labels: seq<Label>)
    requires OpenersTrue(w, labels) && r.openers == w.openers
    ensures OpenersTrue(r, labels)
  {
  }

  lemma MoreTrue(msgs: seq<Msg>, labels: seq<Label>, more: seq<Label>)
    requires AnswersTrue(msgs, labels)
    ensures AnswersTrue(msgs, labels + more)
  {
    forall msg | msg in msgs
      ensures AnswerTrue(msg, labels + more)
    {
      assert AnswerTrue(msg, labels);
    }
  }

  lemma BothTrue(msgs: seq<Msg>, more: seq<Msg>, labels: seq<Label>)
    requires AnswersTrue(msgs, labels) && AnswersTrue(more, labels)
    ensures AnswersTrue(msgs + more, labels)
  {
  }

  lemma {:induction false} RunTells(wide: nat -> nat, w: World, before: seq<Label>, labels: seq<Label>)
    requires Inv(w) && OpenersTrue(w, before) && Run(wide, w, labels).Some?
    ensures AnswersTrue(Transmitted(wide, w, labels), before + labels)
    decreases |labels|
  {
    hide *;
    if labels == [] {
      NothingSent(wide, w, (0, 0));
      NothingTold(before + labels);
    } else {
      var r := FirstStep(wide, w, labels, (0, 0));
      StepTells(wide, w, labels[0], before);
      RunTells(wide, r, before + [labels[0]], labels[1..]);
      MoreTrue(Put(w, r), before + [labels[0]], labels[1..]);
      assert before + [labels[0]] + labels[1..] == before + labels;
      BothTrue(Put(w, r), Transmitted(wide, r, labels[1..]), before + labels);
    }
  }

  lemma NothingTold(labels: seq<Label>)
    ensures AnswersTrue([], labels)
  {
  }

  /** From the start on, every answer that the loop is sent is what the Open of that attach has returned. */
  lemma AnswersTold(wide: nat -> nat, devices: nat, scrollback: int, labels: seq<Label>, w: World)
    requires devices > 0 && Reaches(wide, devices, scrollback, labels, w)
    ensures Inv(NewWorld(devices, scrollback)) && AnswersTrue(Transmitted(wide, NewWorld(devices, scrollback), labels), labels)
  {
    hide Inv, Run, NewWorld, AnswersTrue, OpenersTrue, Transmitted;
    InitialWorld(devices, scrollback);
    StartsTrue(devices, scrollback);
    RunTells(wide, NewWorld(devices, scrollback), [], labels);
    assert [] + labels == labels;
  }

  lemma StartsTrue(devices: nat, scrollback: int)
    requires devices > 0
    ensures OpenersTrue(NewWorld(devices, scrollback), [])
  {
    var (mux, effects) := Activate(NewMux(devices, scrollback), 0);
    EffectsTrue(World(mux, map[], map[], 0, [], multiset{}, 1, Running, [], {}, {}), effects, []);
  }
}
