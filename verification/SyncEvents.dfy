// Synchronous events between language threads and the Qt thread.
module SyncEvents {
  // The code of QcApplication.cpp, Common.cpp, Common.h, QObjectProxy.cpp and .h
  // as a state machine: any number of threads post events and sleep until the
  // Qt thread has run and deleted them, while the Qt thread may be spinning for
  // gLangMutex.

  type Thread = nat

  // Who holds gLangMutex, or QcApplication's _mutex.
  datatype Owner = Nobody | Qt | Lang(thread: Thread)

  // Who holds the mutex on a poster's stack.
  datatype Holder = Free | Poster | QtThread

  // A posted event of type Event_Sync: its sender waits for it, or not.
  datatype Event = Async | Sync(thread: Thread)

  // A language thread in postSyncEvent; app tells the overload with a handler,
  // which keeps _mutex locked.
  datatype Pc =
    | Running
    | Asked               // line 77
    | Checking            // lines 78-84
    | Checked             // line 96
    | Ready(app: bool)    // lines 60-65 and 98-104
    | Locked(app: bool)   // lines 66-67 and 105-106
    | Posted(app: bool)   // lines 68 and 107
    | Waiting(app: bool)  // asleep in cond.wait
    | Woken(app: bool)    // cond.wait relocks the mutex
    | Held(app: bool)     // lines 69 and 108
    | Leaving(app: bool)  // lines 70 and 110

  // The Qt thread: in its event loop, in lockLang (spin), or owning the lock.
  datatype QtPc =
    | Idle
    | Try
    | Drain
    | Exec(event: Event, spin: bool)
    | Handing(thread: Thread, spin: bool)  // execute has returned, *p_done is not yet set
    | WantMutex(thread: Thread, spin: bool)
    | Waking(thread: Thread, spin: bool)
    | Unlocking(thread: Thread, spin: bool)
    | Owning

  datatype State = State(
    pc: seq<Pc>, mutex: seq<Holder>,
    ran: seq<bool>,     // the handler of the thread's event has run ..
    result: seq<bool>,  // .. and returned this
    done: seq<bool>,    // the variable behind p_done
    todo: seq<nat>,     // requests the thread's code will still make
    lang: Owner, app: Owner, instance: bool, queue: seq<Event>, qt: QtPc)
  {
    ghost predicate Sized() {
      |pc| == |mutex| == |ran| == |result| == |done| == |todo|
    }
  }

  datatype Action =
    | TakeLang(t: Thread, n: nat) | DropLang(t: Thread) | Plan(t: Thread, n: nat)
    | PostAsync(t: Thread)
    | Ask(t: Thread) | LockCheck(t: Thread) | Check(t: Thread) | LockApp(t: Thread) | Direct(t: Thread)
    | LockOwn(t: Thread) | Post(t: Thread) | Sleep(t: Thread) | Relock(t: Thread) | UnlockOwn(t: Thread)
    | Leave(t: Thread)
    | QtDispatch | QtLockLang | QtTry | QtPop | QtYield | QtPerform(v: bool) | QtHandBack
    | QtLockOwn | QtWake | QtUnlockOwn | QtDropLang

  predicate ByQt(a: Action) {
    a.QtDispatch? || a.QtLockLang? || a.QtTry? || a.QtPop? || a.QtYield? || a.QtPerform? || a.QtHandBack?
    || a.QtLockOwn? || a.QtWake? || a.QtUnlockOwn? || a.QtDropLang?
  }

  // When a step can be taken.
  ghost predicate Can(s: State, a: Action) {
    && s.Sized()
    && (!ByQt(a) ==> a.t < |s.pc|)
    && match a
       case TakeLang(t, n) => s.lang.Nobody? && s.pc[t].Running?
       case DropLang(t) => s.lang == Lang(t) && s.pc[t].Running? && s.todo[t] == 0
       case Plan(t, n) => s.lang != Lang(t) && s.pc[t].Running?
       case PostAsync(t) => s.pc[t].Running? && s.todo[t] > 0
       case Ask(t) => s.pc[t].Running? && s.todo[t] > 0
       case LockCheck(t) => s.pc[t].Asked? && s.app.Nobody?
       case Check(t) => s.pc[t].Checking?
       case LockApp(t) => s.pc[t].Checked? && s.app.Nobody?
       case Direct(t) => s.pc[t].Running? && s.todo[t] > 0
       case LockOwn(t) => s.pc[t].Ready? && s.mutex[t].Free?
       case Post(t) => s.pc[t].Locked?
       case Sleep(t) => s.pc[t].Posted?
       case Relock(t) => s.pc[t].Woken? && s.mutex[t].Free?
       case UnlockOwn(t) => s.pc[t].Held?
       case Leave(t) => s.pc[t].Leaving?
       case QtDispatch => s.qt.Idle? && s.queue != []
       case QtLockLang => s.qt.Idle?
       case QtTry => s.qt.Try?
       case QtPop => s.qt.Drain? && s.queue != []
       case QtYield => s.qt.Drain? && s.queue == []
       case QtPerform(v) => s.qt.Exec? && (s.qt.event.Sync? ==> s.qt.event.thread < |s.pc|)
       case QtHandBack => s.qt.Handing? && s.qt.thread < |s.pc|
       case QtLockOwn => s.qt.WantMutex? && s.qt.thread < |s.pc| && s.mutex[s.qt.thread].Free?
       case QtWake => s.qt.Waking? && s.qt.thread < |s.pc|
       case QtUnlockOwn => s.qt.Unlocking? && s.qt.thread < |s.pc|
       case QtDropLang => s.qt.Owning?
  }

  function Back(spin: bool): QtPc {
    if spin then Drain else Idle
  }

  ghost function Do(s: State, a: Action): (s': State)
    requires Can(s, a)
    ensures s'.Sized() && |s'.pc| == |s.pc|
  {
    if ByQt(a) then DoQt(s, a) else DoLang(s, a)
  }

  ghost function DoLang(s: State, a: Action): (s': State)
    requires Can(s, a) && !ByQt(a)
    ensures s'.Sized() && |s'.pc| == |s.pc|
  {
    match a
    case TakeLang(t, n) => s.(lang := Lang(t), todo := s.todo[t := n])
    case DropLang(t) => s.(lang := Nobody)
    case Plan(t, n) => s.(todo := s.todo[t := n])
    case PostAsync(t) => s.(queue := s.queue + [Async], todo := s.todo[t := s.todo[t] - 1])
    case Ask(t) => s.(pc := s.pc[t := Asked], todo := s.todo[t := s.todo[t] - 1])
    case LockCheck(t) => s.(pc := s.pc[t := Checking], app := Lang(t))
    case Check(t) => s.(pc := s.pc[t := if s.instance then Checked else Running], app := Nobody)
    case LockApp(t) => Begin(s, t, true).(app := Lang(t))
    case Direct(t) => Begin(s, t, false).(todo := s.todo[t := s.todo[t] - 1])
    case LockOwn(t) => s.(pc := s.pc[t := Locked(s.pc[t].app)], mutex := s.mutex[t := Poster])
    case Post(t) => s.(pc := s.pc[t := Posted(s.pc[t].app)], queue := s.queue + [Sync(t)])
    case Sleep(t) => s.(pc := s.pc[t := Waiting(s.pc[t].app)], mutex := s.mutex[t := Free])
    case Relock(t) => s.(pc := s.pc[t := Held(s.pc[t].app)], mutex := s.mutex[t := Poster])
    case UnlockOwn(t) => s.(pc := s.pc[t := Leaving(s.pc[t].app)], mutex := s.mutex[t := Free])
    case Leave(t) => s.(pc := s.pc[t := Running], app := if s.pc[t].app then Nobody else s.app)
    case _ => s
  }

  ghost function DoQt(s: State, a: Action): (s': State)
    requires Can(s, a) && ByQt(a)
    ensures s'.Sized() && |s'.pc| == |s.pc|
  {
    match a
    case QtDispatch => s.(qt := Exec(s.queue[0], false), queue := s.queue[1..])
    case QtLockLang => s.(qt := Try)
    case QtTry => if s.lang.Nobody? then s.(qt := Owning, lang := Qt) else s.(qt := Drain)
    case QtPop => s.(qt := Exec(s.queue[0], true), queue := s.queue[1..])
    case QtYield => s.(qt := Try)
    case QtPerform(v) =>
      if s.qt.event.Async? then s.(qt := Back(s.qt.spin))
      else
        var t := s.qt.event.thread;
        s.(qt := Handing(t, s.qt.spin), ran := s.ran[t := true], result := s.result[t := v])
    case QtHandBack =>
      var t := s.qt.thread;
      s.(qt := WantMutex(t, s.qt.spin), done := s.done[t := s.result[t]])
    case QtLockOwn => s.(qt := Waking(s.qt.thread, s.qt.spin), mutex := s.mutex[s.qt.thread := QtThread])
    case QtWake =>
      var t := s.qt.thread;
      s.(qt := Unlocking(t, s.qt.spin), pc := s.pc[t := if s.pc[t].Waiting? then Woken(s.pc[t].app) else s.pc[t]])
    case QtUnlockOwn => s.(qt := Back(s.qt.spin), mutex := s.mutex[s.qt.thread := Free])
    case QtDropLang => s.(qt := Idle, lang := Nobody)
    case _ => s
  }

  // send: done starts false, and nothing has run yet.
  ghost function Begin(s: State, t: Thread, app: bool): State
    requires s.Sized() && t < |s.pc|
  {
    s.(pc := s.pc[t := Ready(app)], ran := s.ran[t := false], done := s.done[t := false])
  }

  ghost predicate Init(s: State) {
    && s.Sized() && s.lang.Nobody? && s.app.Nobody? && s.queue == [] && s.qt.Idle?
    && forall t :: 0 <= t < |s.pc| ==> s.pc[t].Running? && s.mutex[t].Free? && !s.ran[t]
  }

  // --- the invariant ---

  // The Qt thread is at work on t's event.
  predicate Serves(q: QtPc, t: Thread) {
    match q
    case Exec(e, spin) => e == Sync(t)
    case Handing(u, spin) => u == t
    case WantMutex(u, spin) => u == t
    case Waking(u, spin) => u == t
    case Unlocking(u, spin) => u == t
    case _ => false
  }

  predicate HoldsApp(p: Pc) {
    p.Checking? || ((p.Ready? || p.Locked? || p.Posted? || p.Waiting? || p.Woken? || p.Held? || p.Leaving?) && p.app)
  }

  // Where t's event is, and who holds t's mutex, for each place t can be at.
  ghost predicate EventOK(p: Pc, m: Holder, ran: bool, queued: bool, q: QtPc, t: Thread) {
    match p
    case Locked(_) => m.Poster? && !queued && !Serves(q, t) && !ran
    case Posted(_) => m.Poster? && (queued ==> !Serves(q, t) && !ran)
                      && (!queued ==> ((q.Exec? && !ran) || ((q.Handing? || q.WantMutex?) && ran)) && Serves(q, t))
    case Waiting(_) => (queued ==> !Serves(q, t) && !ran && m.Free?)
                       && (!queued ==>
                            && Serves(q, t)
                            && ((q.Exec? && !ran && m.Free?) || ((q.Handing? || q.WantMutex?) && ran && m.Free?)
                                || (q.Waking? && ran && m.QtThread?)))
    case Woken(_) => !queued && ran && (if Serves(q, t) then q.Unlocking? && m.QtThread? else m.Free?)
    case Held(_) => !queued && ran && !Serves(q, t) && m.Poster?
    case Leaving(_) => !queued && ran && !Serves(q, t) && m.Free?
    case Ready(_) => !queued && !ran && !Serves(q, t) && m.Free?
    case _ => !queued && !Serves(q, t) && m.Free?
  }

  ghost predicate ThreadOK(s: State, t: Thread)
    requires s.Sized() && t < |s.pc|
  {
    && EventOK(s.pc[t], s.mutex[t], s.ran[t], Sync(t) in s.queue, s.qt, t)
    && (HoldsApp(s.pc[t]) <==> s.app == Lang(t))
    && (s.ran[t] && !(s.qt.Handing? && s.qt.thread == t) ==> s.done[t] == s.result[t])
  }

  ghost predicate QueueOK(s: State) {
    && (forall i :: 0 <= i < |s.queue| && s.queue[i].Sync? ==> s.queue[i].thread < |s.pc|)
    && (forall i, j :: 0 <= i < j < |s.queue| && s.queue[i].Sync? ==> s.queue[i] != s.queue[j])
  }

  ghost predicate Inv(s: State) {
    && s.Sized() && QueueOK(s)
    && (forall t: Thread :: Serves(s.qt, t) ==> t < |s.pc|)
    && (s.qt.Owning? <==> s.lang == Qt) && (s.app.Lang? ==> s.app.thread < |s.pc|) && s.app != Qt
    && (s.lang.Lang? ==> s.lang.thread < |s.pc|)
    && forall t :: 0 <= t < |s.pc| ==> ThreadOK(s, t)
  }

  lemma InitInv(s: State)
    requires Init(s)
    ensures Inv(s)
  {
  }

  // Thread t's part of the invariant after a step: of its own, of another
  // thread, of the Qt thread.
  lemma OwnStep(s: State, a: Action)
    requires Inv(s) && Can(s, a) && !ByQt(a)
    ensures ThreadOK(DoLang(s, a), a.t)
  {
    hide ThreadOK, DoLang, QueueOK;
    Appended(s.queue, a.t);
    assert ThreadOK(s, a.t);
    if a.LockOwn? || a.Post? || a.Sleep? {
      OwnDown(s, a);
    } else if a.Relock? || a.UnlockOwn? || a.Leave? {
      OwnUp(s, a);
    } else {
      OwnEntry(s, a);
    }
  }

  lemma OwnDown(s: State, a: Action)
    requires Can(s, a) && (a.LockOwn? || a.Post? || a.Sleep?) && ThreadOK(s, a.t)
    requires forall e :: Sync(a.t) in s.queue + [e] <==> Sync(a.t) in s.queue || e == Sync(a.t)
    ensures ThreadOK(DoLang(s, a), a.t)
  {
  }

  lemma OwnUp(s: State, a: Action)
    requires Can(s, a) && (a.Relock? || a.UnlockOwn? || a.Leave?) && ThreadOK(s, a.t)
    ensures ThreadOK(DoLang(s, a), a.t)
  {
  }

  lemma OwnEntry(s: State, a: Action)
    requires Can(s, a) && !ByQt(a) && ThreadOK(s, a.t)
    requires !(a.LockOwn? || a.Post? || a.Sleep? || a.Relock? || a.UnlockOwn? || a.Leave?)
    requires forall e :: Sync(a.t) in s.queue + [e] <==> Sync(a.t) in s.queue || e == Sync(a.t)
    ensures ThreadOK(DoLang(s, a), a.t)
  {
  }

  lemma OtherStep(s: State, a: Action, t: Thread)
    requires Inv(s) && Can(s, a) && !ByQt(a) && t < |s.pc| && t != a.t
    ensures ThreadOK(DoLang(s, a), t)
  {
    hide EventOK;
    assert ThreadOK(s, t) && ThreadOK(s, a.t);
    Appended(s.queue, t);
  }

  lemma QtTakes(s: State, a: Action, t: Thread)
    requires Inv(s) && Can(s, a) && (a.QtDispatch? || a.QtPop?) && t < |s.pc|
    ensures ThreadOK(DoQt(s, a), t)
  {
    assert ThreadOK(s, t);
    Popped(s, t);
  }

  lemma QtRuns(s: State, a: Action, t: Thread)
    requires Inv(s) && Can(s, a) && (a.QtPerform? || a.QtHandBack?) && t < |s.pc|
    ensures ThreadOK(DoQt(s, a), t)
  {
    assert ThreadOK(s, t);
  }

  lemma QtServes(s: State, a: Action, t: Thread)
    requires Inv(s) && Can(s, a) && (a.QtLockOwn? || a.QtWake? || a.QtUnlockOwn?) && t < |s.pc|
    ensures ThreadOK(DoQt(s, a), t)
  {
    assert ThreadOK(s, t);
  }

  lemma QtSpins(s: State, a: Action, t: Thread)
    requires Inv(s) && Can(s, a) && (a.QtLockLang? || a.QtTry? || a.QtYield? || a.QtDropLang?) && t < |s.pc|
    ensures ThreadOK(DoQt(s, a), t)
  {
    assert ThreadOK(s, t);
  }

  lemma QtStep(s: State, a: Action, t: Thread)
    requires Inv(s) && Can(s, a) && ByQt(a) && t < |s.pc|
    ensures ThreadOK(DoQt(s, a), t)
  {
    hide ThreadOK, Can, DoQt, Inv;
    if a.QtDispatch? || a.QtPop? {
      QtTakes(s, a, t);
    } else if a.QtLockLang? || a.QtTry? || a.QtYield? || a.QtDropLang? {
      QtSpins(s, a, t);
    } else if a.QtPerform? || a.QtHandBack? {
      QtRuns(s, a, t);
    } else {
      QtServes(s, a, t);
    }
  }

  lemma StepThread(s: State, a: Action, t: Thread)
    requires Inv(s) && Can(s, a) && t < |s.pc|
    ensures ThreadOK(Do(s, a), t)
  {
    hide ThreadOK, Can, DoQt, DoLang, QueueOK;
    if ByQt(a) {
      QtStep(s, a, t);
    } else if t == a.t {
      OwnStep(s, a);
    } else {
      OtherStep(s, a, t);
    }
  }

  lemma Appended(queue: seq<Event>, t: Thread)
    ensures forall e :: Sync(t) in queue + [e] <==> Sync(t) in queue || e == Sync(t)
  {
  }

  lemma Popped(s: State, t: Thread)
    requires QueueOK(s) && s.queue != []
    ensures Sync(t) in s.queue[1..] <==> Sync(t) in s.queue && s.queue[0] != Sync(t)
  {
    assert s.queue == [s.queue[0]] + s.queue[1..];
    if Sync(t) in s.queue[1..] {
      var i :| 0 <= i < |s.queue[1..]| && s.queue[1..][i] == Sync(t);
      assert s.queue[i + 1] == Sync(t);
    }
  }

  lemma StepQueue(s: State, a: Action)
    requires Inv(s) && Can(s, a)
    ensures QueueOK(Do(s, a))
  {
    hide ThreadOK;
    if a.Post? {
      assert ThreadOK(s, a.t);
      NotQueued(s, a.t);
    }
  }

  lemma NotQueued(s: State, t: Thread)
    requires s.Sized() && t < |s.pc| && s.pc[t].Locked? && ThreadOK(s, t)
    ensures Sync(t) !in s.queue
  {
  }

  lemma StepRest(s: State, a: Action)
    requires Inv(s) && Can(s, a)
    ensures var s' := Do(s, a);
            && (forall t: Thread :: Serves(s'.qt, t) ==> t < |s'.pc|)
            && (s'.qt.Owning? <==> s'.lang == Qt) && (s'.app.Lang? ==> s'.app.thread < |s'.pc|) && s'.app != Qt
            && (s'.lang.Lang? ==> s'.lang.thread < |s'.pc|)
  {
    hide ThreadOK;
  }

  // Every step keeps the invariant.
  lemma StepInv(s: State, a: Action)
    requires Inv(s) && Can(s, a)
    ensures Inv(Do(s, a))
  {
    hide ThreadOK, Can, Do;
    StepQueue(s, a);
    StepRest(s, a);
    forall t | 0 <= t < |Do(s, a).pc|
      ensures ThreadOK(Do(s, a), t)
    {
      StepThread(s, a, t);
    }
  }

  // --- safety over runs ---

  ghost predicate Runs(s: State, acts: seq<Action>)
    decreases |acts|
  {
    acts == [] || (Can(s, acts[0]) && Runs(Do(s, acts[0]), acts[1..]))
  }

  ghost function End(s: State, acts: seq<Action>): State
    requires Runs(s, acts)
    decreases |acts|
  {
    if acts == [] then s else End(Do(s, acts[0]), acts[1..])
  }

  lemma {:induction false} RunInv(s: State, acts: seq<Action>)
    requires Inv(s) && Runs(s, acts)
    ensures Inv(End(s, acts)) && |End(s, acts).pc| == |s.pc|
    decreases |acts|
  {
    hide Inv, Can, Do;
    if acts != [] {
      StepInv(s, acts[0]);
      RunInv(Do(s, acts[0]), acts[1..]);
    }
  }

  // No lost wake-up: a sleeping poster's event is queued, or the Qt thread is
  // running it or about to wake the poster.
  lemma NoLostWakeup(s0: State, acts: seq<Action>, t: Thread)
    requires Init(s0) && Runs(s0, acts) && t < |s0.pc|
    ensures var s := End(s0, acts);
            t < |s.pc| && (s.pc[t].Waiting? ==> Sync(t) in s.queue || (Serves(s.qt, t) && !s.qt.Unlocking?))
  {
    hide Init, Runs, End;
    InitInv(s0);
    RunInv(s0, acts);
    assert ThreadOK(End(s0, acts), t);
  }

  // No early return: when a poster leaves, its handler has run, done holds the
  // handler's result, and the Qt thread is past the poster's mutex and condition.
  lemma NoEarlyReturn(s0: State, acts: seq<Action>, t: Thread)
    requires Init(s0) && Runs(s0, acts) && t < |s0.pc|
    ensures var s := End(s0, acts);
            s.Sized() && t < |s.pc|
            && (s.pc[t].Leaving? ==>
                  s.ran[t] && s.done[t] == s.result[t] && Sync(t) !in s.queue && !Serves(s.qt, t) && s.mutex[t].Free?)
  {
    hide Init, Runs, End;
    InitInv(s0);
    RunInv(s0, acts);
    assert ThreadOK(End(s0, acts), t);
  }

  // The event, and the mutex, condition and done on the poster's stack, are
  // used only while the poster is in cond.wait or on its way there.
  lemma StackAlive(s0: State, acts: seq<Action>, t: Thread)
    requires Init(s0) && Runs(s0, acts) && t < |s0.pc|
    ensures var s := End(s0, acts);
            t < |s.pc|
            && (Sync(t) in s.queue || Serves(s.qt, t) ==> s.pc[t].Posted? || s.pc[t].Waiting? || s.pc[t].Woken?)
  {
    hide Init, Runs, End;
    InitInv(s0);
    RunInv(s0, acts);
    assert ThreadOK(End(s0, acts), t);
  }

  // --- progress while a language thread holds gLangMutex ---

  // The steps thread t still has to take before it can give up gLangMutex.
  function OwnSteps(p: Pc): nat {
    match p
    case Running => 0
    case Asked => 10
    case Checking => 9
    case Checked => 8
    case Ready(_) => 7
    case Locked(_) => 6
    case Posted(_) => 5
    case Waiting(_) => 4
    case Woken(_) => 3
    case Held(_) => 2
    case Leaving(_) => 1
  }

  ghost function Ahead(s: State, t: Thread): nat
    requires s.Sized() && t < |s.pc|
  {
    12 * s.todo[t] + OwnSteps(s.pc[t])
  }

  // The steps until the Qt thread can take the next event.
  ghost function QtSteps(s: State): nat {
    match s.qt
    case Idle => 2
    case Try => 1
    case Drain => 0
    case Exec(e, spin) => 6 + Away(spin)
    case Handing(t, spin) => 5 + Away(spin)
    case WantMutex(t, spin) => (if t < |s.pc| && s.pc[t].Posted? then 4 else 3) + Away(spin)
    case Waking(t, spin) => 2 + Away(spin)
    case Unlocking(t, spin) => 1 + Away(spin)
    case Owning => 3
  }

  function Away(spin: bool): nat {
    if spin then 0 else 2
  }

  ghost function Position(queue: seq<Event>, t: Thread): nat {
    if queue == [] || queue[0] == Sync(t) then 0 else 1 + Position(queue[1..], t)
  }

  // The steps until t's event has been dealt with.
  ghost function Service(s: State, t: Thread): nat {
    if Sync(t) in s.queue then 8 * (Position(s.queue, t) + 1) + QtSteps(s)
    else if Serves(s.qt, t) then QtSteps(s)
    else 0
  }

  // The pair Ahead, Service in lexicographic order.
  ghost predicate NotMore(s: State, s': State, t: Thread)
    requires s.Sized() && s'.Sized() && t < |s.pc| == |s'.pc|
  {
    Ahead(s', t) < Ahead(s, t) || (Ahead(s', t) == Ahead(s, t) && Service(s', t) <= Service(s, t))
  }

  ghost predicate Less(s: State, s': State, t: Thread)
    requires s.Sized() && s'.Sized() && t < |s.pc| == |s'.pc|
  {
    Ahead(s', t) < Ahead(s, t) || (Ahead(s', t) == Ahead(s, t) && Service(s', t) < Service(s, t))
  }

  lemma {:induction false} PositionAppend(queue: seq<Event>, e: Event, t: Thread)
    requires Sync(t) in queue
    ensures Position(queue + [e], t) == Position(queue, t) && Sync(t) in queue + [e]
    decreases |queue|
  {
    if queue[0] != Sync(t) {
      assert (queue + [e])[1..] == queue[1..] + [e];
      PositionAppend(queue[1..], e, t);
    }
  }

  // A language thread's own steps count down.
  lemma OwnAhead(s: State, a: Action)
    requires Can(s, a) && !ByQt(a) && !a.Plan? && !a.TakeLang? && !a.DropLang?
    ensures Ahead(DoLang(s, a), a.t) < Ahead(s, a.t)
  {
  }

  lemma DropAhead(s: State, t: Thread)
    requires Can(s, DropLang(t))
    ensures Ahead(DoLang(s, DropLang(t)), t) == Ahead(s, t) && Service(DoLang(s, DropLang(t)), t) == Service(s, t)
  {
  }

  // The other threads do not disturb it.
  lemma OtherAhead(s: State, a: Action, t: Thread)
    requires Can(s, a) && !ByQt(a) && t < |s.pc| && t != a.t
    ensures Ahead(DoLang(s, a), t) == Ahead(s, t)
    ensures Sync(t) in DoLang(s, a).queue <==> Sync(t) in s.queue
    ensures Sync(t) in s.queue ==> Position(DoLang(s, a).queue, t) == Position(s.queue, t)
  {
    if Sync(t) in s.queue {
      PositionAppend(s.queue, Async, t);
      PositionAppend(s.queue, Sync(a.t), t);
    }
    Appended(s.queue, t);
  }

  lemma LangNotMore(s: State, a: Action, t: Thread)
    requires Inv(s) && Can(s, a) && !ByQt(a) && s.lang.Lang? && t < |s.pc| && (a.Plan? ==> a.t != t)
    ensures NotMore(s, DoLang(s, a), t)
    ensures a.t == t && !a.DropLang? ==> Less(s, DoLang(s, a), t)
    ensures a.Sleep? && s.qt.WantMutex? && s.qt.thread == a.t && Pending(s, t) ==> Less(s, DoLang(s, a), t)
  {
    hide Inv, Can, DoLang, Ahead, QtSteps, Position, Serves;
    LangQtSteps(s, a);
    if a.t != t {
      OtherAhead(s, a, t);
    } else if a.DropLang? {
      DropAhead(s, t);
    } else {
      OwnAhead(s, a);
    }
  }

  lemma LangQtSteps(s: State, a: Action)
    requires Inv(s) && Can(s, a) && !ByQt(a) && s.lang.Lang?
    ensures !a.TakeLang? && QtSteps(DoLang(s, a)) <= QtSteps(s) && DoLang(s, a).qt == s.qt
    ensures a.Sleep? && s.qt.WantMutex? && s.qt.thread == a.t ==> QtSteps(DoLang(s, a)) < QtSteps(s)
  {
    assert ThreadOK(s, a.t);
  }

  ghost predicate Pending(s: State, t: Thread) {
    Sync(t) in s.queue || Serves(s.qt, t)
  }

  lemma QtTakesNotMore(s: State, a: Action, t: Thread)
    requires Inv(s) && Can(s, a) && (a.QtDispatch? || a.QtPop?) && t < |s.pc|
    ensures Ahead(DoQt(s, a), t) == Ahead(s, t) && Service(DoQt(s, a), t) <= Service(s, t)
    ensures Pending(s, t) ==> Service(DoQt(s, a), t) < Service(s, t)
  {
    hide ThreadOK;
    Popped(s, t);
  }

  lemma QtSpinsNotMore(s: State, a: Action, t: Thread)
    requires Inv(s) && Can(s, a) && (a.QtLockLang? || a.QtTry? || a.QtYield?) && s.lang.Lang? && t < |s.pc|
    ensures Ahead(DoQt(s, a), t) == Ahead(s, t) && Service(DoQt(s, a), t) <= Service(s, t)
    ensures Pending(s, t) ==> Service(DoQt(s, a), t) < Service(s, t)
  {
    hide ThreadOK;
  }

  lemma QtServesNotMore(s: State, a: Action, t: Thread)
    requires Inv(s) && Can(s, a) && (a.QtPerform? || a.QtHandBack? || a.QtLockOwn? || a.QtUnlockOwn?) && t < |s.pc|
    ensures Ahead(DoQt(s, a), t) == Ahead(s, t) && Service(DoQt(s, a), t) <= Service(s, t)
    ensures Pending(s, t) ==> Service(DoQt(s, a), t) < Service(s, t)
  {
    assert ThreadOK(s, t);
  }

  lemma QtWakeNotMore(s: State, t: Thread)
    requires Inv(s) && Can(s, QtWake) && t < |s.pc|
    ensures NotMore(s, DoQt(s, QtWake), t) && (Pending(s, t) ==> Less(s, DoQt(s, QtWake), t))
  {
    assert ThreadOK(s, t);
  }

  // The Qt thread's steps do not set t back, and bring it forward while its event is pending.
  lemma QtNotMore(s: State, a: Action, t: Thread)
    requires Inv(s) && Can(s, a) && ByQt(a) && s.lang.Lang? && t < |s.pc|
    ensures NotMore(s, DoQt(s, a), t)
    ensures Pending(s, t) ==> Less(s, DoQt(s, a), t)
  {
    hide DoQt, Ahead, Service, Serves, ThreadOK, QueueOK;
    if a.QtDispatch? || a.QtPop? {
      QtTakesNotMore(s, a, t);
    } else if a.QtWake? {
      QtWakeNotMore(s, t);
    } else if a.QtLockLang? || a.QtTry? || a.QtYield? {
      QtSpinsNotMore(s, a, t);
    } else if !a.QtDropLang? {
      QtServesNotMore(s, a, t);
    }
  }

  // The ranking: while a language thread holds gLangMutex no step of any thread
  // increases it for a thread t that is not given new work.
  lemma StepNotMore(s: State, a: Action, t: Thread)
    requires Inv(s) && Can(s, a) && s.lang.Lang? && t < |s.pc| && (a.Plan? ==> a.t != t)
    ensures NotMore(s, Do(s, a), t)
  {
    hide Inv, Can, DoQt, DoLang, NotMore, Less;
    if ByQt(a) {
      QtNotMore(s, a, t);
    } else {
      LangNotMore(s, a, t);
    }
  }

  // The step that serves a pending event: the Qt thread's, or that of the one
  // poster whose mutex it waits for.
  lemma ServingStep(s: State) returns (a: Action)
    requires Inv(s) && s.lang != Qt && (s.queue != [] || Occupied(s.qt))
    ensures Can(s, a) && !a.Plan?
    ensures ByQt(a) || (a.Sleep? && s.qt.WantMutex? && s.qt.thread == a.t)
    ensures s.lang.Lang? ==> Do(s, a).lang == s.lang
  {
    match s.qt
    case Idle => a := QtDispatch;
    case Try => a := QtTry;
    case Drain => a := QtPop;
    case Exec(e, spin) =>
      assert e.Sync? ==> Serves(s.qt, e.thread);
      a := QtPerform(true);
    case Handing(u, spin) =>
      assert Serves(s.qt, u);
      a := QtHandBack;
    case WantMutex(u, spin) =>
      assert Serves(s.qt, u);
      assert ThreadOK(s, u);
      a := if s.mutex[u].Free? then QtLockOwn else Sleep(u);
    case Waking(u, spin) =>
      assert Serves(s.qt, u);
      a := QtWake;
    case Unlocking(u, spin) =>
      assert Serves(s.qt, u);
      a := QtUnlockOwn;
    case Owning =>
  }

  predicate Occupied(q: QtPc) {
    q.Exec? || q.Handing? || q.WantMutex? || q.Waking? || q.Unlocking?
  }

  // Thread t waits for _mutex, which another thread holds.
  ghost predicate Blocked(s: State, t: Thread)
    requires s.Sized() && t < |s.pc|
  {
    (s.pc[t].Asked? || s.pc[t].Checked?) && !s.app.Nobody?
  }

  // A thread inside postSyncEvent, or with work to do, is never stuck: it can
  // take a step, or a step that serves its event can be taken.
  lemma NotStuck(s: State, t: Thread) returns (a: Action)
    requires Inv(s) && s.lang.Lang? && t < |s.pc| && (!s.pc[t].Running? || s.todo[t] > 0) && !Blocked(s, t)
    ensures Can(s, a) && Less(s, Do(s, a), t) && !a.Plan? && Do(s, a).lang == s.lang
  {
    hide Less, NotMore, Ahead, Service, DoQt, QtSteps;
    assert ThreadOK(s, t);
    if s.pc[t].Waiting? || (s.pc[t].Woken? && !s.mutex[t].Free?) {
      InQueue(s, t);
      a := ServingStep(s);
      if ByQt(a) {
        QtNotMore(s, a, t);
      } else {
        LangNotMore(s, a, t);
      }
    } else {
      a := OwnNext(s, t);
      LangNotMore(s, a, t);
    }
  }

  lemma InQueue(s: State, t: Thread)
    ensures Sync(t) in s.queue ==> s.queue != []
  {
  }

  lemma OwnNext(s: State, t: Thread) returns (a: Action)
    requires Inv(s) && t < |s.pc| && (!s.pc[t].Running? || s.todo[t] > 0) && !Blocked(s, t)
    requires !s.pc[t].Waiting? && (s.pc[t].Woken? ==> s.mutex[t].Free?)
    ensures !ByQt(a) && a.t == t && Can(s, a) && !a.Plan? && !a.DropLang? && !a.TakeLang? && DoLang(s, a).lang == s.lang
  {
    assert ThreadOK(s, t);
    match s.pc[t]
    case Running => a := Direct(t);
    case Asked => a := LockCheck(t);
    case Checking => a := Check(t);
    case Checked => a := LockApp(t);
    case Ready(_) => a := LockOwn(t);
    case Locked(_) => a := Post(t);
    case Posted(_) => a := Sleep(t);
    case Woken(_) => a := Relock(t);
    case Held(_) => a := UnlockOwn(t);
    case Leaving(_) => a := Leave(t);
  }

  // --- every run ---

  ghost predicate Forever(states: nat -> State, acts: nat -> Action) {
    forall i: nat :: Can(states(i), acts(i)) && states(i + 1) == Do(states(i), acts(i))
  }

  // A step of t itself, or of the Qt thread while t's event is pending.
  ghost predicate Counts(s: State, a: Action, t: Thread) {
    if ByQt(a) then Pending(s, t) else a.t == t
  }

  ghost predicate CountsAfter(states: nat -> State, acts: nat -> Action, t: Thread, n: nat) {
    exists j: nat :: j >= n && Counts(states(j), acts(j), t)
  }

  // From i on a language thread holds gLangMutex, and t is given no new work.
  ghost predicate HeldFrom(states: nat -> State, acts: nat -> Action, t: Thread, i: nat) {
    forall j: nat :: j >= i ==> states(j).lang.Lang? && !(acts(j).Plan? && acts(j).t == t)
  }

  lemma {:induction false} RankKept(states: nat -> State, acts: nat -> Action, t: Thread, i: nat, j: nat)
    requires Forever(states, acts) && HeldFrom(states, acts, t, i) && i <= j
    requires Inv(states(i)) && t < |states(i).pc|
    ensures Inv(states(j)) && |states(j).pc| == |states(i).pc| && NotMore(states(i), states(j), t)
    decreases j
  {
    hide Inv, Can, Do, Ahead, Service;
    Sized(states(i));
    if i < j {
      RankKept(states, acts, t, i, j - 1);
      var s, a := states(j - 1), acts(j - 1);
      assert states((j - 1) + 1) == Do(s, a);
      StepInv(s, a);
      StepNotMore(s, a, t);
    }
  }

  lemma Sized(s: State)
    requires Inv(s)
    ensures s.Sized()
  {
  }

  lemma CountedLess(s: State, a: Action, t: Thread)
    requires Inv(s) && Can(s, a) && s.lang.Lang? && Do(s, a).lang.Lang? && t < |s.pc| && (a.Plan? ==> a.t != t)
    requires Counts(s, a, t)
    ensures Less(s, Do(s, a), t)
  {
    hide Less, NotMore, Inv, DoQt, Ahead, Service;
    if ByQt(a) {
      QtNotMore(s, a, t);
    } else {
      LangNotMore(s, a, t);
    }
  }

  // In every run in which language threads hold gLangMutex on and on, thread t
  // takes finitely many steps, and the Qt thread finitely many while t's event is pending.
  lemma {:induction false} Settles(states: nat -> State, acts: nat -> Action, t: Thread, i: nat) returns (n: nat)
    requires Forever(states, acts) && HeldFrom(states, acts, t, i) && Inv(states(i)) && t < |states(i).pc|
    ensures n >= i && !CountsAfter(states, acts, t, n)
    decreases Ahead(states(i), t), Service(states(i), t)
  {
    hide Inv, Can, Do, Ahead, Service, Counts, Forever;
    n := i;
    if j: nat :| j >= i && Counts(states(j), acts(j), t) {
      RankKept(states, acts, t, i, j);
      NextState(states, acts, j);
      assert states(j).lang.Lang? && states(j + 1).lang.Lang?;
      CountedLess(states(j), acts(j), t);
      StepInv(states(j), acts(j));
      n := Settles(states, acts, t, j + 1);
    }
  }

  lemma NextState(states: nat -> State, acts: nat -> Action, j: nat)
    requires Forever(states, acts)
    ensures Can(states(j), acts(j)) && states(j + 1) == Do(states(j), acts(j))
  {
  }

  // So in every run in which the holder keeps getting steps, or the Qt thread
  // does while the holder's event is pending, gLangMutex is given up.
  lemma HolderReleases(states: nat -> State, acts: nat -> Action, t: Thread, i: nat)
    requires Forever(states, acts) && Inv(states(i)) && states(i).lang == Lang(t)
    requires forall n: nat :: CountsAfter(states, acts, t, n)
    ensures exists j: nat :: j >= i && states(j).lang != Lang(t)
  {
    if forall j: nat :: j >= i ==> states(j).lang == Lang(t) {
      forall j: nat | j >= i
        ensures !(acts(j).Plan? && acts(j).t == t)
      {
        assert Can(states(j), acts(j));
      }
      var n := Settles(states, acts, t, i);
    }
  }

  // --- the Qt thread gets the lock ---

  ghost function AppAhead(s: State): nat
    requires Inv(s)
  {
    if s.app.Lang? then 1 + Ahead(s, s.app.thread) else 0
  }

  ghost function AppService(s: State): nat
    requires Inv(s)
  {
    if s.app.Lang? then Service(s, s.app.thread) else 0
  }

  lemma RunsMore(s: State, a: Action, acts: seq<Action>)
    requires Can(s, a) && Runs(Do(s, a), acts)
    ensures Runs(s, [a] + acts) && End(s, [a] + acts) == End(Do(s, a), acts)
  {
    hide Can, Do;
    assert ([a] + acts)[1..] == acts;
  }

  // The owner of _mutex is past waiting for it.
  lemma AppOwner(s: State, t: Thread)
    requires Inv(s) && t < |s.pc| && Blocked(s, t)
    ensures s.app.Lang? && s.app.thread < |s.pc| && s.app.thread != t
    ensures !s.pc[s.app.thread].Running? && !Blocked(s, s.app.thread)
  {
    assert ThreadOK(s, t) && ThreadOK(s, s.app.thread);
  }

  // The lock _mutex stays with its owner or is given up.
  lemma AppKept(s: State, a: Action)
    requires Inv(s) && Can(s, a) && s.app.Lang?
    ensures Do(s, a).app == s.app || Do(s, a).app.Nobody?
  {
  }

  // Whoever holds gLangMutex can come to give it up, whatever the Qt thread and
  // the other threads are at.
  lemma {:induction false} HolderLeaves(s: State, t: Thread) returns (acts: seq<Action>)
    requires Inv(s) && s.lang == Lang(t)
    ensures Runs(s, acts) && Inv(End(s, acts)) && End(s, acts).lang.Nobody?
    decreases Ahead(s, t), Service(s, t), AppAhead(s), AppService(s)
  {
    hide Can, Do, Ahead, Service, ThreadOK, QueueOK, Runs, End;
    var a: Action;
    if s.pc[t].Running? && s.todo[t] == 0 {
      acts := GiveUp(s, t);
      return;
    }
    if Blocked(s, t) {
      AppOwner(s, t);
      a := NotStuck(s, s.app.thread);
      AppKept(s, a);
    } else {
      a := NotStuck(s, t);
    }
    StepInv(s, a);
    StepNotMore(s, a, t);
    acts := HolderLeaves(Do(s, a), t);
    RunsMore(s, a, acts);
    acts := [a] + acts;
  }

  lemma GiveUp(s: State, t: Thread) returns (acts: seq<Action>)
    requires Inv(s) && s.lang == Lang(t) && s.pc[t].Running? && s.todo[t] == 0
    ensures Runs(s, acts) && Inv(End(s, acts)) && End(s, acts).lang.Nobody?
  {
    StepInv(s, DropLang(t));
    acts := [DropLang(t)];
    hide Inv;
    assert acts[1..] == [];
    assert Runs(Do(s, DropLang(t)), []);
  }

  // The steps until the Qt thread has served everything and tries for the lock.
  ghost function Left(s: State): nat {
    8 * |s.queue| + match s.qt
                    case Idle => 1
                    case Try => 0
                    case Drain => 1
                    case Exec(_, _) => 7
                    case Handing(_, _) => 6
                    case WantMutex(u, _) => if u < |s.pc| && s.pc[u].Posted? then 5 else 4
                    case Waking(_, _) => 3
                    case Unlocking(_, _) => 2
                    case Owning => 0
  }

  lemma LockStep(s: State) returns (a: Action)
    requires Inv(s) && s.lang.Nobody? && !s.qt.Try?
    ensures Can(s, a) && Do(s, a).lang.Nobody? && Left(Do(s, a)) < Left(s)
  {
    if s.qt.Idle? {
      a := QtLockLang;
    } else if s.qt.Drain? && s.queue == [] {
      a := QtYield;
    } else {
      a := ServingStep(s);
    }
  }

  lemma {:induction false} QtLocks(s: State) returns (acts: seq<Action>)
    requires Inv(s) && s.lang.Nobody?
    ensures Runs(s, acts) && End(s, acts).qt.Owning?
    decreases Left(s)
  {
    if s.qt.Try? {
      acts := [QtTry];
      assert acts[1..] == [];
      assert Runs(Do(s, QtTry), []);
    } else {
      hide Can, Do, Left, Inv, Runs, End;
      var a := LockStep(s);
      StepInv(s, a);
      acts := QtLocks(Do(s, a));
      RunsMore(s, a, acts);
      acts := [a] + acts;
    }
  }

  lemma {:induction false} RunsConcat(s: State, p: seq<Action>, q: seq<Action>)
    requires Runs(s, p) && Runs(End(s, p), q)
    ensures Runs(s, p + q) && End(s, p + q) == End(End(s, p), q)
    decreases |p|
  {
    hide Can, Do;
    if p == [] {
      assert p + q == q;
    } else {
      assert (p + q)[1..] == p[1..] + q;
      RunsConcat(Do(s, p[0]), p[1..], q);
    }
  }

  // No deadlock: from every reachable state in which a language thread holds
  // gLangMutex, asleep in postSyncEvent or anywhere else, while the Qt thread
  // spins in lockLang or is anywhere else, the Qt thread can still get the lock.
  lemma QtGetsLock(s0: State, acts: seq<Action>, t: Thread) returns (more: seq<Action>)
    requires Init(s0) && Runs(s0, acts) && End(s0, acts).lang == Lang(t)
    ensures Runs(s0, acts + more) && End(s0, acts + more).qt.Owning?
  {
    hide Inv, Init, Runs, End;
    InitInv(s0);
    RunInv(s0, acts);
    var leaving := HolderLeaves(End(s0, acts), t);
    var locking := QtLocks(End(End(s0, acts), leaving));
    RunsConcat(End(s0, acts), leaving, locking);
    more := leaving + locking;
    RunsConcat(s0, acts, more);
  }
}
