/**
term/mux.go and term/mux_model.go, over whole runs: while the channel has one reader, what a session sends is handled in the
order it was sent and shown in its tab; a failed write to a session makes a second reader. And when the loop quits.
*/
module MuxOrder {
  import opened Wrappers
  import opened Utf8
  import ScreenModel
  import ScreenParser
  import ScreenLaws
  import opened MuxModel
  import opened MuxProtocol
  import opened MuxRuns
  import opened MuxLaws
  import opened MuxTraffic

  // ----- one reader -----

  /** A command waits for a message, or one message from outside is at hand; never both, and never two. */
  predicate OneReader(w: World) {
    && w.takers <= 1
    && (forall x, y :: x in w.taken && y in w.taken && x != Detach && y != Detach ==> x == y)
    && (forall x :: x in w.taken && x != Detach ==> w.taken[x] == 1 && w.takers == 0)
  }

  /** The user types nothing that a session refuses to take. */
  predicate WritesSucceed(labels: seq<Label>) {
    forall l :: l in labels && l.User? ==> !l.env.writeFails
  }

  /** The output of an attach that has been taken off the channel and not been handled yet. */
  ghost function InHand(w: World, a: Attach): seq<byte> {
    if exists msg :: msg in w.taken && IsOutputOf(msg, a) then
      var msg :| msg in w.taken && IsOutputOf(msg, a);
      msg.data
    else []
  }

  /** The output of an attach that the loop has handled, in the order in which it was handled. */
  function HandledBy(labels: seq<Label>, a: Attach): seq<byte> {
    if labels == [] then []
    else (if labels[0].Handle? && IsOutputOf(labels[0].msg, a) then labels[0].msg.data else []) + HandledBy(labels[1..], a)
  }

  function CountNext(effects: seq<Effect>): nat {
    if effects == [] then 0 else (if effects[0] == NextEvent then 1 else 0) + CountNext(effects[1..])
  }

  predicate OnlyDetach(effects: seq<Effect>) {
    forall e :: e in effects && e.Deliver? ==> e.msg == Detach
  }

  /** Requests to detach aside, the same messages are at hand. */
  ghost predicate SameAtHand(w: World, r: World) {
    forall x :: x != Detach ==> r.taken[x] == w.taken[x]
  }

  lemma {:induction false} EffectsReaders(w: World, effects: seq<Effect>)
    requires OnlyDetach(effects)
    ensures var r := StartAll(w, effects); r.takers == w.takers + CountNext(effects) && SameAtHand(w, r)
    decreases |effects|
  {
    if effects != [] {
      assert effects[0] in effects;
      EffectsReaders(Start(w, effects[0]), effects[1..]);
    }
  }

  /** Where no write fails, every message asks for as many readers as it has used up. */
  lemma UpdateReaders(wide: nat -> nat, m: Mux, msg: Msg, env: Env)
    requires MuxOk(m) && Deliverable(m, msg) && (msg.KeyPress? ==> !env.writeFails)
    ensures var effects := Update(wide, m, msg, env).1;
            OnlyDetach(effects) && CountNext(effects) <= if msg.KeyPress? || msg.WindowSize? || msg.Detach? then 0 else 1
  {
    if msg.KeyPress? {
      KeyReaders(wide, m, msg.key, env);
    } else if msg.Ended? {
      EndedReaders(wide, m, msg, env);
    }
    hide MuxOk, PaneOk, PaneOutput, ClosedPane, KeyStep, ResizeAll, EndedStep;
    var effects := Update(wide, m, msg, env).1;
    if |effects| == 2 { CountTwo(effects[0], effects[1]); assert effects == [effects[0], effects[1]]; }
  }

  lemma CountTwo(e: Effect, f: Effect)
    ensures CountNext([e, f]) == (if e == NextEvent then 1 else 0) + (if f == NextEvent then 1 else 0)
  {
    assert [e, f][1..] == [f] && [f][1..] == [];
    assert CountNext([f]) == if f == NextEvent then 1 else 0;
  }

  lemma KeyReaders(wide: nat -> nat, m: Mux, key: Key, env: Env)
    requires MuxOk(m) && !env.writeFails
    ensures var effects := KeyStep(wide, m, key, env).1; OnlyDetach(effects) && CountNext(effects) == 0
  {
    hide MuxOk, PaneOk, ScrollKey, EnterScroll, KeyOutcome, CommandOf, SendKey, Activate, Reattach, ReattachedPane, WriteSystem;
  }

  lemma EndedReaders(wide: nat -> nat, m: Mux, msg: Msg, env: Env)
    requires MuxOk(m) && Deliverable(m, msg) && msg.Ended?
    ensures var effects := EndedStep(wide, m, msg.idx, msg.gen, msg.failed, env).1; OnlyDetach(effects) && CountNext(effects) <= 1
  {
    hide MuxOk, PaneOk, ClosedPane, AllEndedCleanly;
    var effects := EndedStep(wide, m, msg.idx, msg.gen, msg.failed, env).1;
    if |effects| == 2 { CountTwo(effects[0], effects[1]); assert effects == [effects[0], effects[1]]; }
  }

  /** What a step of the loop does to the readers and the messages at hand. */
  lemma LoopReaders(wide: nat -> nat, w: World, l: Label)
    requires Inv(w) && Enabled(w, l) && (l.User? || l.Handle?) && (l.User? ==> !l.env.writeFails)
    ensures var r := Step(wide, w, l);
            && r.takers <= w.takers + (if l.User? || l.msg == Detach then 0 else 1)
            && (if l.User? then SameAtHand(w, r) else SameAtHand(w.(taken := w.taken - multiset{l.msg}), r))
  {
    hide Inv, MuxOk, Update, Deliverable, StartAll, AddressesPane, InFlight, CountNext, OnlyDetach, SameAtHand;
    InvMux(w);
    if l.User? { UserDeliverable(w, l.msg); } else { TakenDeliverable(w, l.msg); TakenIsNotUser(w, l.msg); }
    UpdateReaders(wide, w.mux, l.msg, l.env);
    var (mux, effects) := Update(wide, w.mux, l.msg, l.env);
    var u := if l.User? then w else w.(taken := w.taken - multiset{l.msg});
    var v := MarkSeen(u.(mux := mux), l.msg);
    EffectsReaders(v, effects);
    SameAs(u, v, Step(wide, w, l));
  }

  lemma SameAs(u: World, v: World, r: World)
    requires v.taken == u.taken && SameAtHand(v, r)
    ensures SameAtHand(u, r)
  {
  }

  /** Conserved by one step: what is handled, in hand, and in the channel. */
  ghost predicate KeepsOrder(w: World, l: Label, r: World, a: Attach) {
    HandledBy([l], a) + InHand(r, a) + DataOf(r.events, a) == InHand(w, a) + DataOf(w.events, a) + DataOf(Put(w, r), a)
  }

  lemma NoneInHand(w: World, a: Attach)
    requires forall x :: x in w.taken ==> x == Detach
    ensures InHand(w, a) == []
  {
  }

  lemma OneInHand(w: World, msg: Msg, a: Attach)
    requires OneReader(w) && msg in w.taken && msg != Detach
    ensures InHand(w, a) == if IsOutputOf(msg, a) then msg.data else []
  {
  }

  lemma SameInHand(w: World, r: World, a: Attach)
    requires OneReader(w) && SameAtHand(w, r)
    ensures InHand(r, a) == InHand(w, a)
    ensures r.takers <= w.takers ==> OneReader(r)
  {
    if x :| x in w.taken && x != Detach {
      assert x in r.taken;
    }
    assert forall x :: x in r.taken && x != Detach ==> x in w.taken;
  }

  lemma HandleOrder(w: World, msg: Msg, env: Env, r: World, a: Attach)
    requires OneReader(w) && msg in w.taken && SameAtHand(w.(taken := w.taken - multiset{msg}), r) && r.events == w.events
    requires r.takers <= w.takers + (if msg == Detach then 0 else 1)
    ensures OneReader(r) && KeepsOrder(w, Handle(msg, env), r, a)
  {
    assert Put(w, r) == [];
    assert HandledBy([Handle(msg, env)], a) == if IsOutputOf(msg, a) then msg.data else [];
    if msg == Detach {
      assert SameAtHand(w, r);
      SameInHand(w, r, a);
    } else {
      OneInHand(w, msg, a);
      forall x | x in r.taken
        ensures x == Detach
      {
        assert x == Detach || r.taken[x] == (w.taken - multiset{msg})[x];
      }
      NoneInHand(r, a);
    }
  }

  lemma TakeOrder(w: World, r: World, a: Attach)
    requires OneReader(w) && w.takers > 0 && w.events != []
    requires r == w.(events := w.events[1..], taken := w.taken + multiset{w.events[0]}, takers := w.takers - 1)
    ensures OneReader(r) && KeepsOrder(w, Take, r, a)
  {
    var msg := w.events[0];
    assert Put(w, r) == [];
    assert forall x :: x in w.taken ==> x == Detach;
    NoneInHand(w, a);
    if msg == Detach {
      NoneInHand(r, a);
    } else {
      assert w.taken[msg] == 0;
      OneInHand(r, msg, a);
    }
  }

  lemma QueueOrder(w: World, l: Label, r: World, a: Attach)
    requires OneReader(w) && r.taken == w.taken && r.takers <= w.takers && QueueKept(w, l, r) && !l.Take? && !l.Handle?
    ensures OneReader(r) && KeepsOrder(w, l, r, a)
  {
    hide OneReader, InHand;
    SameInHand(w, r, a);
    DataOfConcat(w.events, Put(w, r), a);
    assert HandledBy([l], a) == [];
    assert InHand(w, a) + (DataOf(w.events, a) + DataOf(Put(w, r), a)) == InHand(w, a) + DataOf(w.events, a) + DataOf(Put(w, r), a);
  }

  lemma OrderStep(wide: nat -> nat, w: World, l: Label, a: Attach)
    requires Inv(w) && Enabled(w, l) && OneReader(w) && (l.User? ==> !l.env.writeFails)
    ensures var r := Step(wide, w, l); OneReader(r) && KeepsOrder(w, l, r, a)
  {
    hide Inv, LoopStep, OpenerStep, ShutdownStep, PumpStep, OneReader, KeepsOrder, PumpsKept, SameAtHand, Conserves, StaysStopped, EndsWell,
      Update, MuxOk, Deliverable;
    var r := Step(wide, w, l);
    if l.User? || l.Handle? {
      LoopQuiet(wide, w, l);
      LoopReaders(wide, w, l);
      if l.Handle? { HandleOrder(w, l.msg, l.env, r, a); } else { UserOrder(w, l, r, a); }
    } else if l.Take? {
      TakeOrder(w, r, a);
    } else {
      OtherQueues(wide, w, l, a);
      QueueOrder(w, l, r, a);
    }
  }

  lemma NoData(w: World, r: World, a: Attach)
    requires r.events == w.events
    ensures Put(w, r) == [] && DataOf(Put(w, r), a) == []
  {
  }

  lemma UserOrder(w: World, l: Label, r: World, a: Attach)
    requires OneReader(w) && SameAtHand(w, r) && r.events == w.events && r.takers <= w.takers && l.User?
    ensures OneReader(r) && KeepsOrder(w, l, r, a)
  {
    hide OneReader, InHand, SameAtHand;
    NoData(w, r, a);
    HandledOne(l, a);
    SameInHand(w, r, a);
  }

  lemma OtherQueues(wide: nat -> nat, w: World, l: Label, a: Attach)
    requires Inv(w) && Enabled(w, l) && !l.User? && !l.Handle? && !l.Take?
    ensures var r := Step(wide, w, l); QueueKept(w, l, r) && r.taken == w.taken && r.takers <= w.takers && r.mux == w.mux
  {
    hide Inv, Conserves, StaysStopped, EndsWell, OpenerStep, ShutdownStep, PumpStep;
    OneStep(wide, w, l, a);
    if IsPumpStep(l) {
      PumpPuts(w, l, a);
    } else if IsOpenerStep(l) {
      OpenerPuts(w, l, a);
    } else if IsShutdownStep(l) {
      ShutdownPuts(w, l, a);
    }
  }

  // ----- runs -----

  lemma HandledOn(labels: seq<Label>, a: Attach)
    requires labels != []
    ensures HandledBy(labels, a) == HandledBy([labels[0]], a) + HandledBy(labels[1..], a)
  {
  }

  lemma OrderOver<T>(handled: seq<T>, hand: seq<T>, queue: seq<T>, was: seq<T>, before: seq<T>, put: seq<T>,
                     later: seq<T>, last: seq<T>, behind: seq<T>, sent: seq<T>)
    requires handled + hand + queue == was + before + put
    requires later + last + behind == hand + queue + sent
    ensures (handled + later) + last + behind == was + before + (put + sent)
  {
    assert (handled + later) + last + behind == handled + (later + last + behind);
    assert handled + (hand + queue + sent) == (handled + hand + queue) + sent;
  }

  /**
  As long as no write to a session fails: what the loop has handled of an attach, what it has at hand, and what is in the
  channel are, in this order, what has been sent.
  */
  lemma {:induction false} HandledInOrder(wide: nat -> nat, w: World, labels: seq<Label>, a: Attach)
    requires Inv(w) && OneReader(w) && Run(wide, w, labels).Some? && WritesSucceed(labels)
    ensures var r := Run(wide, w, labels).value;
            && OneReader(r)
            && HandledBy(labels, a) + InHand(r, a) + DataOf(r.events, a)
               == InHand(w, a) + DataOf(w.events, a) + DataOf(Transmitted(wide, w, labels), a)
    decreases |labels|
  {
    hide *;
    if labels == [] {
      NothingSent(wide, w, a);
      NothingHandled(a);
    } else {
      var r := FirstStep(wide, w, labels, a);
      var last := Run(wide, w, labels).value;
      FirstSucceeds(labels);
      OrderStep(wide, w, labels[0], a);
      Kept(w, labels[0], r, a);
      HandledInOrder(wide, r, labels[1..], a);
      HandledOn(labels, a);
      OrderOver(HandledBy([labels[0]], a), InHand(r, a), DataOf(r.events, a), InHand(w, a), DataOf(w.events, a), DataOf(Put(w, r), a),
                HandledBy(labels[1..], a), InHand(last, a), DataOf(last.events, a), DataOf(Transmitted(wide, r, labels[1..]), a));
    }
  }

  lemma NothingHandled(a: Attach)
    ensures HandledBy([], a) == []
  {
  }

  lemma FirstSucceeds(labels: seq<Label>)
    requires labels != [] && WritesSucceed(labels)
    ensures labels[0].User? ==> !labels[0].env.writeFails
    ensures WritesSucceed(labels[1..])
  {
  }

  lemma Kept(w: World, l: Label, r: World, a: Attach)
    requires KeepsOrder(w, l, r, a)
    ensures HandledBy([l], a) + InHand(r, a) + DataOf(r.events, a) == InHand(w, a) + DataOf(w.events, a) + DataOf(Put(w, r), a)
  {
  }

  lemma StartsInOrder(devices: nat, scrollback: int, a: Attach)
    requires devices > 0
    ensures var w := NewWorld(devices, scrollback);
            OneReader(w) && InHand(w, a) == [] && w.events == [] && w.pumps == map[]
  {
    var (mux, effects) := Activate(NewMux(devices, scrollback), 0);
    EffectsReaders(World(mux, map[], map[], 0, [], multiset{}, 1, Running, [], {}, {}), effects);
    EffectsQuiet(World(mux, map[], map[], 0, [], multiset{}, 1, Running, [], {}, {}), effects);
    var w := NewWorld(devices, scrollback);
    assert forall x :: x in w.taken ==> x == Detach;
    NoneInHand(w, a);
  }

  /**
  From the start, over every run in which no write to a session fails: every byte that a session's reads have returned has been
  handled, or is at hand, in the channel, or with its pump; in the order in which it was read.
  */
  lemma EveryByteInOrder(wide: nat -> nat, devices: nat, scrollback: int, labels: seq<Label>, w: World, a: Attach)
    requires devices > 0 && Reaches(wide, devices, scrollback, labels, w)
    requires WritesSucceed(labels) && GiveUpPumping(a) !in labels
    ensures ReadBy(labels, a) == HandledBy(labels, a) + InHand(w, a) + DataOf(w.events, a) + Held(w, a)
  {
    hide Inv, Run, NewWorld, OneReader, InHand, DataOf, HandledBy, ReadBy, WritesSucceed, Transmitted;
    InitialWorld(devices, scrollback);
    var start := NewWorld(devices, scrollback);
    StartsInOrder(devices, scrollback, a);
    NothingSent(wide, start, a);
    OutputConserved(wide, start, labels, a);
    HandledInOrder(wide, start, labels, a);
    assert Held(start, a) == [];
    assert [] + ReadBy(labels, a) == ReadBy(labels, a);
    assert [] + [] + DataOf(Transmitted(wide, start, labels), a) == DataOf(Transmitted(wide, start, labels), a);
  }

  // ----- a second reader -----

  lemma RunCons(wide: nat -> nat, w: World, l: Label, rest: seq<Label>)
    requires Inv(w) && Enabled(w, l)
    ensures Inv(Step(wide, w, l)) && Run(wide, w, [l] + rest) == Run(wide, Step(wide, w, l), rest)
  {
    hide Inv, Step, Enabled;
    StepKeeps(wide, w, l);
    assert ([l] + rest)[1..] == rest;
  }

  lemma HandlesOne(wide: nat -> nat, w: World, msg: Msg, env: Env, other: Msg)
    requires Inv(w) && w.phase == Running && msg in w.taken && other in w.taken && msg != other
    ensures Enabled(w, Handle(msg, env)) && Enabled(Step(wide, w, Handle(msg, env)), Handle(other, env))
  {
    TakenDeliverable(w, msg);
    InvMux(w);
    hide Inv, Update, MuxOk, Deliverable;
    var (mux, effects) := Update(wide, w.mux, msg, env);
    var v := w.(taken := w.taken - multiset{msg});
    assert other in v.taken;
    EffectsRead(MarkSeen(v.(mux := mux), msg), effects);
  }

  /** Two readers can hand the loop two messages in either order. */
  lemma TwoReadersReorder(wide: nat -> nat, w: World, a: Attach, x: seq<byte>, y: seq<byte>, env: Env)
    requires Inv(w) && w.phase == Running && w.takers >= 2 && x != y
    requires |w.events| >= 2 && w.events[0] == Output(a.0, a.1, x) && w.events[1] == Output(a.0, a.1, y)
    ensures var labels := [Take, Take, Handle(w.events[1], env), Handle(w.events[0], env)];
            Run(wide, w, labels).Some? && HandledBy(labels, a) == y + x
  {
    hide Inv, LoopStep, Run;
    var first, second := w.events[0], w.events[1];
    var h1, h2 := Handle(second, env), Handle(first, env);
    RunCons(wide, w, Take, [Take, h1, h2]);
    var u := Step(wide, w, Take);
    RunCons(wide, u, Take, [h1, h2]);
    var v := Step(wide, u, Take);
    HandlesOne(wide, v, second, env, first);
    RunCons(wide, v, h1, [h2]);
    RunCons(wide, Step(wide, v, h1), h2, []);
    RunsNowhere(wide, Step(wide, Step(wide, v, h1), h2));
    assert [Take, Take, h1, h2] == [Take] + [Take, h1, h2] && [Take, h1, h2] == [Take] + [h1, h2] && [h1, h2] == [h1] + [h2]
           && [h2] == [h2] + [];
    HandledFour(first, second, env, a);
  }

  lemma RunsNowhere(wide: nat -> nat, w: World)
    requires Inv(w)
    ensures Run(wide, w, []) == Some(w)
  {
    hide Inv;
  }

  lemma HandledFour(x: Msg, y: Msg, env: Env, a: Attach)
    requires IsOutputOf(x, a) && IsOutputOf(y, a)
    ensures HandledBy([Take, Take, Handle(y, env), Handle(x, env)], a) == y.data + x.data
  {
    var labels := [Take, Take, Handle(y, env), Handle(x, env)];
    assert labels[1..] == [Take, Handle(y, env), Handle(x, env)] && labels[1..][1..] == [Handle(y, env), Handle(x, env)];
    assert labels[1..][1..][1..] == [Handle(x, env)] && [Handle(x, env)][1..] == [];
    HandledOn(labels, a);
    HandledOn(labels[1..], a);
    HandledOn(labels[1..][1..], a);
  }

  /** A key that the session of the active tab refuses. */
  predicate Refused(m: Mux, key: Key, env: Env)
    requires m.active < |m.panes|
  {
    && m.mode == Attached && !m.prefix && !key.isPrefix && key.bytes != [] && env.writeFails
    && m.panes[m.active].state == Live && m.panes[m.active].session.Some?
  }

  /** Its own tab goes back to the tail. */
  function AtTail(m: Mux): Mux
    requires m.active < |m.panes|
  {
    m.(panes := m.panes[m.active := m.panes[m.active].(offset := 0)])
  }

  lemma RefusedKey(wide: nat -> nat, m: Mux, key: Key, env: Env)
    requires MuxOk(m) && Refused(m, key, env)
    ensures MuxOk(AtTail(m)) && Update(wide, m, KeyPress(key), env).0 == AtTail(m)
    ensures Update(wide, m, KeyPress(key), env).1 == [Deliver(Ended(m.active, m.panes[m.active].gen, true))]
  {
    hide PaneOk, ScreenModel.Inv, KeyOutcome;
    assert KeyStep(wide, m, key, env) == SendKey(m, key, env);
  }

  lemma RefusalHandled(wide: nat -> nat, m: Mux, key: Key, env: Env)
    requires MuxOk(m) && Refused(m, key, env) && NoticeShows(wide, m, m.active, env) && MuxOk(AtTail(m))
    ensures var end := Ended(m.active, m.panes[m.active].gen, true);
            && Deliverable(AtTail(m), end)
            && Update(wide, AtTail(m), end, env).1 == [CloseSession(m.panes[m.active].session.value), NextEvent]
  {
    hide PaneOk, ScreenModel.Inv, ScreenParser.Write, SystemLine;
    PaneShape(m, m.active);
    PaneScreenOk(m, m.active);
    PaneScreenOk(AtTail(m), m.active);
    var t := SetPane(AtTail(m), m.active, ClosedPane(wide, AtTail(m).panes[m.active], true, env, PaneRows(m.height)).0);
    assert t.panes[m.active].failed;
  }

  lemma OneDelivered(w: World, msg: Msg)
    ensures StartAll(w, [Deliver(msg)]) == w.(taken := w.taken + multiset{msg})
  {
    assert [Deliver(msg)][1..] == [];
  }

  /** A key that a session refuses ends that session, and leaves the channel with one reader more. */
  lemma RefusedKeyAddsReader(wide: nat -> nat, w: World, key: Key, env: Env)
    requires Inv(w) && w.phase == Running && MuxOk(w.mux) && Refused(w.mux, key, env) && NoticeShows(wide, w.mux, w.mux.active, env)
    ensures var end := Ended(w.mux.active, w.mux.panes[w.mux.active].gen, true);
            && Enabled(w, User(KeyPress(key), env))
            && (var v := Step(wide, w, User(KeyPress(key), env));
                Inv(v) && Enabled(v, Handle(end, env)) && Step(wide, v, Handle(end, env)).takers == w.takers + 1)
  {
    hide Inv, PaneOk, Step, Enabled, Deliverable, NoticeShows, Update, AtTail;
    RefusedKeyStep(wide, w, key, env);
    RefusedKey(wide, w.mux, key, env);
    RefusalHandled(wide, w.mux, key, env);
    var l := User(KeyPress(key), env);
    StepKeeps(wide, w, l);
    CountTwo(CloseSession(w.mux.panes[w.mux.active].session.value), NextEvent);
    EndAddsReader(wide, Step(wide, w, l), Ended(w.mux.active, w.mux.panes[w.mux.active].gen, true), env);
  }

  lemma RefusedKeyStep(wide: nat -> nat, w: World, key: Key, env: Env)
    requires Inv(w) && w.phase == Running && MuxOk(w.mux) && Refused(w.mux, key, env)
    ensures Enabled(w, User(KeyPress(key), env))
    ensures Step(wide, w, User(KeyPress(key), env)) ==
            w.(mux := AtTail(w.mux), taken := w.taken + multiset{Ended(w.mux.active, w.mux.panes[w.mux.active].gen, true)})
  {
    hide Inv, PaneOk, Update, Deliverable, Refused, AtTail;
    UserDeliverable(w, KeyPress(key));
    RefusedKey(wide, w.mux, key, env);
    OneDelivered(w.(mux := AtTail(w.mux)), Ended(w.mux.active, w.mux.panes[w.mux.active].gen, true));
  }

  lemma EndAddsReader(wide: nat -> nat, w: World, end: Msg, env: Env)
    requires Inv(w) && w.phase == Running && end in w.taken && end.Ended? && MuxOk(w.mux) && Deliverable(w.mux, end)
    requires OnlyDetach(Update(wide, w.mux, end, env).1)
    ensures Enabled(w, Handle(end, env))
    ensures Step(wide, w, Handle(end, env)).takers == w.takers + CountNext(Update(wide, w.mux, end, env).1)
  {
    hide Inv, MuxOk, Update, Deliverable, OnlyDetach, CountNext;
    TakenDeliverable(w, end);
    var (mux, effects) := Update(wide, w.mux, end, env);
    EffectsReaders(w.(taken := w.taken - multiset{end}, mux := mux), effects);
  }

  // ----- what a tab shows -----

  /** The tab waits for a session or has one, and this is its attach. */
  predicate Attaching(m: Mux, i: nat, gen: nat) {
    i < |m.panes| && m.panes[i].state in {Opening, Live} && m.panes[i].gen == gen
  }

  /** Neither a new size nor the end of its session reaches the tab; anything else may happen, in it and elsewhere. */
  predicate LeavesAttached(l: Label, a: Attach) {
    match l
    case User(msg, _) => !msg.WindowSize?
    case Handle(msg, _) => !(msg.WindowSize? || (msg.OpenFailed? && msg.idx == a.0 && msg.gen == a.1) || IsEndOf(msg, a))
    case _ => true
  }

  /** Its screen is as it was, and the attach goes on. */
  predicate SameShown(m: Mux, r: Mux, i: nat, gen: nat)
    requires Attaching(m, i, gen)
  {
    Attaching(r, i, gen) && r.panes[i].screen == m.panes[i].screen
  }

  lemma KeysLeaveScreens(wide: nat -> nat, m: Mux, key: Key, env: Env, i: nat, gen: nat)
    requires MuxOk(m) && Attaching(m, i, gen)
    ensures SameShown(m, KeyStep(wide, m, key, env).0, i, gen)
  {
    hide MuxOk, PaneOk, KeyOutcome, CommandStep, ScrollKey, SendKey;
    var t := m.(prefix := false);
    Remoded(m, false, m.mode);
    Remoded(m, false, Attached);
    SendLeaves(t, key, env, i, gen);
    SendLeaves(t.(mode := Attached), key, env, i, gen);
    ScrollLeaves(t, key, i, gen);
    CommandLeaves(wide, t, key, env, i, gen);
    assert !m.prefix ==> t == m;
  }

  lemma Remoded(m: Mux, prefix: bool, mode: Mode)
    requires MuxOk(m)
    ensures MuxOk(m.(prefix := prefix, mode := mode)) && m.active < |m.panes|
  {
    hide PaneOk;
  }

  lemma SendLeaves(m: Mux, key: Key, env: Env, i: nat, gen: nat)
    requires MuxOk(m) && Attaching(m, i, gen)
    ensures SameShown(m, SendKey(m, key, env).0, i, gen)
  {
    hide PaneOk, KeyOutcome;
  }

  lemma ScrollLeaves(m: Mux, key: Key, i: nat, gen: nat)
    requires MuxOk(m) && Attaching(m, i, gen)
    ensures SameShown(m, ScrollKey(m, key), i, gen)
  {
    hide MuxOk, PaneOk, ScrollCommandOf, MoveSelection;
    Remoded(m, m.prefix, m.mode);
    match ScrollCommandOf(key.name)
    case Lines(count) => MovingLeaves(m, count, i, gen);
    case Pages(count) => MovingLeaves(m, count * PaneRows(m.height), i, gen);
    case ToEnd(sign) => MovingLeaves(m, sign * TotalLines(m.panes[m.active].screen), i, gen);
    case _ =>
  }

  lemma MovingLeaves(m: Mux, delta: int, i: nat, gen: nat)
    requires MuxOk(m) && Attaching(m, i, gen)
    ensures SameShown(m, MoveSelection(m, delta), i, gen)
  {
    hide PaneOk;
  }

  lemma ReattachLeaves(wide: nat -> nat, m: Mux, env: Env, i: nat, gen: nat)
    requires MuxOk(m) && Attaching(m, i, gen)
    ensures SameShown(m, Reattach(wide, m, env).0, i, gen)
  {
    hide PaneOk, KeyOutcome, ReattachedPane;
  }

  lemma ActivateLeaves(m: Mux, idx: int, i: nat, gen: nat)
    requires MuxOk(m) && Attaching(m, i, gen)
    ensures SameShown(m, Activate(m, idx).0, i, gen)
  {
    hide PaneOk, KeyOutcome;
  }

  lemma CommandLeaves(wide: nat -> nat, m: Mux, key: Key, env: Env, i: nat, gen: nat)
    requires MuxOk(m) && Attaching(m, i, gen)
    ensures SameShown(m, CommandStep(wide, m, key, env).0, i, gen)
  {
    hide MuxOk, PaneOk, KeyOutcome, CommandOf, Turn, SelectTab, Reattach;
    ReattachLeaves(wide, m, env, i, gen);
    TurnLeaves(m, 1, i, gen);
    Remoded(m, m.prefix, m.mode);
    TurnLeaves(m, |m.panes| - 1, i, gen);
    SelectLeaves(m, key.number, i, gen);
  }

  lemma TurnLeaves(m: Mux, steps: int, i: nat, gen: nat)
    requires MuxOk(m) && Attaching(m, i, gen)
    ensures SameShown(m, Turn(m, steps).0, i, gen)
  {
    hide MuxOk, PaneOk, KeyOutcome, Activate;
    Remoded(m, m.prefix, Attached);
    ActivateLeaves(m.(mode := Attached), (m.active + steps) % |m.panes|, i, gen);
  }

  lemma SelectLeaves(m: Mux, number: Option<int>, i: nat, gen: nat)
    requires MuxOk(m) && Attaching(m, i, gen)
    ensures SameShown(m, SelectTab(m, number).0, i, gen)
  {
    hide MuxOk, PaneOk, KeyOutcome, Activate;
    Remoded(m, m.prefix, Attached);
    if number.Some? {
      ActivateLeaves(m.(mode := Attached), if number.value == 0 then 9 else number.value - 1, i, gen);
    }
  }

  /** What a screen comes to with this output, if the output does not panic. */
  predicate Written(wide: nat -> nat, s: ScreenModel.Screen, data: seq<byte>, r: ScreenModel.Screen) {
    ScreenModel.Inv(s) && ScreenParser.Write(wide, s, data) == ScreenParser.Alive(r)
  }

  lemma WrittenNothing(wide: nat -> nat, s: ScreenModel.Screen)
    requires ScreenModel.Inv(s)
    ensures Written(wide, s, [], s)
  {
    assert s.pending + [] == s.pending;
    assert s.(pending := []).(pending := s.pending) == s;
    hide ScreenModel.Grows, ScreenModel.SavedScreenKept, ScreenModel.Rectangle, ScreenModel.StyledAll, ScreenModel.StylesInverse,
      ScreenModel.TitleOk;
  }

  lemma WrittenOn(wide: nat -> nat, s: ScreenModel.Screen, t: ScreenModel.Screen, r: ScreenModel.Screen, x: seq<byte>, y: seq<byte>)
    requires Written(wide, s, x, t) && Written(wide, t, y, r)
    ensures Written(wide, s, x + y, r)
  {
    ScreenParser.WriteConcat(wide, s, x, y);
    hide ScreenModel.Inv, ScreenParser.Write;
  }

  lemma MessagesLeaveScreens(wide: nat -> nat, m: Mux, msg: Msg, env: Env, i: nat, gen: nat)
    requires MuxOk(m) && Deliverable(m, msg) && Attaching(m, i, gen)
    requires !msg.KeyPress? && !msg.WindowSize? && !IsOutputOf(msg, (i, gen))
    requires !IsEndOf(msg, (i, gen)) && !(msg.OpenFailed? && msg.idx == i && msg.gen == gen)
    ensures SameShown(m, Update(wide, m, msg, env).0, i, gen)
  {
    hide MuxOk, PaneOk, PaneOutput, ClosedPane;
  }

  /** What a message writes to the tab's screen: the output of its attach, and no other. */
  lemma MessageShows(wide: nat -> nat, m: Mux, msg: Msg, env: Env, a: Attach)
    requires MuxOk(m) && Deliverable(m, msg) && Attaching(m, a.0, a.1) && !GivesUp(Update(wide, m, msg, env).1)
    requires !msg.WindowSize? && !IsEndOf(msg, a) && !(msg.OpenFailed? && msg.idx == a.0 && msg.gen == a.1)
    ensures var r := Update(wide, m, msg, env).0;
            && Attaching(r, a.0, a.1)
            && Written(wide, m.panes[a.0].screen, if IsOutputOf(msg, a) then msg.data else [], r.panes[a.0].screen)
  {
    PaneScreenOk(m, a.0);
    if msg.KeyPress? {
      KeysLeaveScreens(wide, m, msg.key, env, a.0, a.1);
      KeyIsUpdate(wide, m, msg.key, env);
    } else if IsOutputOf(msg, a) {
      OutputShown(wide, m, msg.idx, msg.gen, msg.data, env);
    } else {
      MessagesLeaveScreens(wide, m, msg, env, a.0, a.1);
    }
    WrittenNothing(wide, m.panes[a.0].screen);
    hide MuxOk, PaneOk, ScreenModel.Inv, ScreenParser.Write, Update, Deliverable;
  }

  lemma KeyIsUpdate(wide: nat -> nat, m: Mux, key: Key, env: Env)
    requires MuxOk(m)
    ensures Update(wide, m, KeyPress(key), env).0 == KeyStep(wide, m, key, env).0
  {
    hide MuxOk, KeyStep;
  }

  lemma StepShows(wide: nat -> nat, w: World, l: Label, a: Attach)
    requires Inv(w) && Enabled(w, l) && LeavesAttached(l, a) && Attaching(w.mux, a.0, a.1) && !EndsLoop(wide, w, l)
    ensures var r := Step(wide, w, l);
            Attaching(r.mux, a.0, a.1) && Written(wide, w.mux.panes[a.0].screen, HandledBy([l], a), r.mux.panes[a.0].screen)
  {
    hide Inv, MuxOk, PaneOk, Update, LoopStep, OpenerStep, ShutdownStep, PumpStep, PumpsKept, Written, ScreenModel.Inv;
    InvMux(w);
    HandledOne(l, a);
    if l.User? || l.Handle? {
      LoopQuiet(wide, w, l);
      MessageShows(wide, w.mux, l.msg, l.env, a);
    } else {
      PaneScreenOk(w.mux, a.0);
      WrittenNothing(wide, w.mux.panes[a.0].screen);
      if !l.Take? { OtherQueues(wide, w, l, a); }
    }
  }

  lemma HandledOne(l: Label, a: Attach)
    ensures HandledBy([l], a) == if l.Handle? && IsOutputOf(l.msg, a) then l.msg.data else []
  {
  }

  lemma LivesFirst(wide: nat -> nat, w: World, labels: seq<Label>)
    requires Inv(w) && labels != [] && Enabled(w, labels[0]) && LoopLives(wide, w, labels)
    ensures !EndsLoop(wide, w, labels[0]) && Inv(Step(wide, w, labels[0])) && LoopLives(wide, Step(wide, w, labels[0]), labels[1..])
  {
    hide Inv, Step, Enabled, EndsLoop;
    StepKeeps(wide, w, labels[0]);
  }

  /** A tab's screen is what all the output that the loop handles of its attach makes of it, written as one. */
  lemma {:induction false} TabShows(wide: nat -> nat, w: World, labels: seq<Label>, a: Attach)
    requires Inv(w) && Run(wide, w, labels).Some? && LoopLives(wide, w, labels) && Attaching(w.mux, a.0, a.1)
    requires forall l :: l in labels ==> LeavesAttached(l, a)
    ensures var r := Run(wide, w, labels).value;
            Attaching(r.mux, a.0, a.1) && Written(wide, w.mux.panes[a.0].screen, HandledBy(labels, a), r.mux.panes[a.0].screen)
    decreases |labels|
  {
    hide Inv, Step, Enabled, EndsLoop, LoopLives, LeavesAttached, Written, Run, HandledBy, Transmitted, DataOf, ReadBy, Attaching;
    if labels == [] {
      StartsShown(wide, w, a);
    } else {
      var r := FirstStep(wide, w, labels, a);
      LivesFirst(wide, w, labels);
      assert labels[0] in labels;
      StepShows(wide, w, labels[0], a);
      TabShows(wide, r, labels[1..], a);
      HandledOn(labels, a);
      InRange(w.mux, a);
      InRange(r.mux, a);
      InRange(Run(wide, w, labels).value.mux, a);
      WrittenOn(wide, w.mux.panes[a.0].screen, r.mux.panes[a.0].screen, Run(wide, w, labels).value.mux.panes[a.0].screen,
                HandledBy([labels[0]], a), HandledBy(labels[1..], a));
    }
  }

  lemma InRange(m: Mux, a: Attach)
    requires Attaching(m, a.0, a.1)
    ensures a.0 < |m.panes|
  {
  }

  lemma StartsShown(wide: nat -> nat, w: World, a: Attach)
    requires Inv(w) && Attaching(w.mux, a.0, a.1)
    ensures Run(wide, w, []) == Some(w) && HandledBy([], a) == []
    ensures Written(wide, w.mux.panes[a.0].screen, [], w.mux.panes[a.0].screen) && a.0 < |w.mux.panes|
  {
    InvMux(w);
    PaneScreenOk(w.mux, a.0);
    WrittenNothing(wide, w.mux.panes[a.0].screen);
    hide Inv, ScreenModel.Inv, Written;
  }

  /**
  What a session sends is what its tab shows. All that reads have returned since the attach began is written to the tab's
  screen, in order, but for what is still on its way; where nothing is, the screen is that of all of it, written as one.
  */
  lemma SessionShown(wide: nat -> nat, w: World, labels: seq<Label>, a: Attach)
    requires Inv(w) && OneReader(w) && Attaching(w.mux, a.0, a.1) && a !in w.pumps && InHand(w, a) == [] && DataOf(w.events, a) == []
    requires Run(wide, w, labels).Some? && LoopLives(wide, w, labels) && WritesSucceed(labels) && GiveUpPumping(a) !in labels
    requires forall l :: l in labels ==> LeavesAttached(l, a)
    ensures var r := Run(wide, w, labels).value;
            var shown, coming := HandledBy(labels, a), InHand(r, a) + DataOf(r.events, a) + Held(r, a);
            && Attaching(r.mux, a.0, a.1) && ReadBy(labels, a) == shown + coming
            && Written(wide, w.mux.panes[a.0].screen, shown, r.mux.panes[a.0].screen)
            && (coming == [] ==> Written(wide, w.mux.panes[a.0].screen, ReadBy(labels, a), r.mux.panes[a.0].screen))
  {
    hide Inv, Run, OneReader, InHand, DataOf, HandledBy, ReadBy, WritesSucceed, Transmitted, LoopLives, LeavesAttached, Written, Attaching;
    var r := Run(wide, w, labels).value;
    TabShows(wide, w, labels, a);
    OutputConserved(wide, w, labels, a);
    HandledInOrder(wide, w, labels, a);
    assert Held(w, a) == [];
    AllAccounted(ReadBy(labels, a), DataOf(Transmitted(wide, w, labels), a), HandledBy(labels, a), InHand(r, a), DataOf(r.events, a),
                 Held(r, a));
  }

  lemma AllAccounted<T>(read: seq<T>, sent: seq<T>, shown: seq<T>, hand: seq<T>, queue: seq<T>, held: seq<T>)
    requires [] + read == sent + held && shown + hand + queue == [] + [] + sent
    ensures read == shown + (hand + queue + held)
    ensures hand + queue + held == [] ==> read == shown
  {
    assert [] + read == read && [] + [] + sent == sent;
    assert shown + (hand + queue + held) == (shown + hand + queue) + held;
    assert shown + [] == shown;
  }

  // ----- when the loop quits -----

  predicate QuitsAt(wide: nat -> nat, w: World, l: Label)
    requires Inv(w) && Enabled(w, l)
  {
    match l
    case User(msg, env) => UserDeliverable(w, msg); Quit in Update(wide, w.mux, msg, env).1
    case Handle(msg, env) => TakenDeliverable(w, msg); Quit in Update(wide, w.mux, msg, env).1
    case _ => false
  }

  /** A step that quits handles a request to detach, or the end of a session behind which nothing is left. */
  lemma LoopQuits(wide: nat -> nat, w: World, l: Label)
    requires Inv(w) && Enabled(w, l)
    ensures MuxOk(w.mux)
    ensures QuitsAt(wide, w, l) <==>
              l.Handle? && (|| l.msg == Detach
                            || (l.msg.Ended? && ReachesPane(w.mux, l.msg.idx, l.msg.gen) && NoticeShows(wide, w.mux, l.msg.idx, l.env)
                                && NothingLeft(Step(wide, w, l).mux)))
  {
    hide Inv, MuxOk, Update, Deliverable, NothingLeft, NoticeShows, LoopStep;
    InvMux(w);
    if l.User? || l.Handle? {
      LoopQuiet(wide, w, l);
      QuitExactly(wide, w.mux, l.msg, l.env);
    }
  }

  /** The user's asking to leave, as far as a keystroke shows. */
  predicate AsksToLeave(l: Label) {
    l.User? && l.msg.KeyPress? && !l.msg.key.isPrefix && l.msg.key.name in {"d", "q"}
  }

  predicate DetachComing(w: World) {
    Detach in w.taken || Detach in w.events
  }

  lemma KeyAsks(wide: nat -> nat, m: Mux, key: Key, env: Env)
    requires MuxOk(m)
    ensures Deliver(Detach) in KeyStep(wide, m, key, env).1 ==> m.prefix && !key.isPrefix && key.name in {"d", "q"}
  {
    hide MuxOk, PaneOk, ScrollKey, EnterScroll, KeyOutcome, CommandOf, SendKey, Activate, Reattach, ReattachedPane, WriteSystem;
    CommandNames(key.name);
  }

  lemma {:induction false} EffectsAsk(w: World, effects: seq<Effect>)
    requires Detach !in w.taken && Deliver(Detach) !in effects
    ensures Detach !in StartAll(w, effects).taken
    decreases |effects|
  {
    if effects != [] { EffectsAsk(Start(w, effects[0]), effects[1..]); }
  }

  lemma UpdateAsks(wide: nat -> nat, m: Mux, msg: Msg, env: Env)
    requires MuxOk(m) && Deliverable(m, msg)
    ensures Deliver(Detach) in Update(wide, m, msg, env).1 ==>
              msg.KeyPress? && !msg.key.isPrefix && msg.key.name in {"d", "q"}
  {
    if msg.KeyPress? { KeyAsks(wide, m, msg.key, env); }
    hide MuxOk, PaneOk, PaneOutput, ClosedPane, KeyStep, ResizeAll, AllEndedCleanly;
  }

  lemma DetachArises(wide: nat -> nat, w: World, l: Label)
    requires Inv(w) && Enabled(w, l) && !DetachComing(w) && !AsksToLeave(l)
    ensures !DetachComing(Step(wide, w, l))
  {
    hide Inv, Update, MuxOk, Deliverable, OpenerStep, PumpStep, ShutdownStep, Conserves, StaysStopped, EndsWell;
    if l.User? || l.Handle? {
      InvMux(w);
      if l.User? { UserDeliverable(w, l.msg); } else { TakenDeliverable(w, l.msg); TakenIsNotUser(w, l.msg); }
      UpdateAsks(wide, w.mux, l.msg, l.env);
      LoopQuiet(wide, w, l);
      var (mux, effects) := Update(wide, w.mux, l.msg, l.env);
      var u := if l.User? then w else w.(taken := w.taken - multiset{l.msg});
      EffectsAsk(MarkSeen(u.(mux := mux), l.msg), effects);
    } else if !l.Take? {
      OtherQueues(wide, w, l, (0, 0));
      PutsNoDetach(wide, w, l);
    }
  }

  lemma PutsNoDetach(wide: nat -> nat, w: World, l: Label)
    requires Inv(w) && Enabled(w, l) && !l.User? && !l.Handle? && !l.Take?
    ensures Detach !in Put(w, Step(wide, w, l))
  {
    hide Inv;
  }

  lemma {:induction false} DetachAsked(wide: nat -> nat, w: World, labels: seq<Label>)
    requires Inv(w) && !DetachComing(w) && Run(wide, w, labels).Some?
    ensures DetachComing(Run(wide, w, labels).value) ==> exists l :: l in labels && AsksToLeave(l)
    decreases |labels|
  {
    hide Inv, Step, Enabled, DetachComing, AsksToLeave, Transmitted, DataOf, ReadBy;
    if labels != [] {
      var r := FirstStep(wide, w, labels, (0, 0));
      if AsksToLeave(labels[0]) {
        assert labels[0] in labels;
      } else {
        DetachArises(wide, w, labels[0]);
        DetachAsked(wide, r, labels[1..]);
      }
    }
  }

  /** On every run, the loop quits only if the user has asked to leave, or with no tab idle, opening or live, and none failed. */
  lemma QuitsOnlyAtTheEnd(wide: nat -> nat, devices: nat, scrollback: int, labels: seq<Label>, w: World, l: Label)
    requires devices > 0 && Reaches(wide, devices, scrollback, labels, w) && Inv(w) && Enabled(w, l) && QuitsAt(wide, w, l)
    ensures (exists k :: k in labels && AsksToLeave(k)) || NothingLeft(Step(wide, w, l).mux)
  {
    hide Inv, Run, NewWorld, DetachComing, AsksToLeave, NothingLeft, QuitsAt, Step, MuxOk, NoticeShows;
    InitialWorld(devices, scrollback);
    LoopQuits(wide, w, l);
    StartsSilent(devices, scrollback);
    DetachAsked(wide, NewWorld(devices, scrollback), labels);
    if l.Handle? && l.msg == Detach { DetachInHand(w, l); }
  }

  lemma DetachInHand(w: World, l: Label)
    requires Enabled(w, l) && l.Handle? && l.msg == Detach
    ensures DetachComing(w)
  {
  }

  lemma StartsSilent(devices: nat, scrollback: int)
    requires devices > 0
    ensures !DetachComing(NewWorld(devices, scrollback))
  {
    var (mux, effects) := Activate(NewMux(devices, scrollback), 0);
    EffectsAsk(World(mux, map[], map[], 0, [], multiset{}, 1, Running, [], {}, {}), effects);
    EffectsQuiet(World(mux, map[], map[], 0, [], multiset{}, 1, Running, [], {}, {}), effects);
  }
}
