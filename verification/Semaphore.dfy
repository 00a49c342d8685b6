// SC_Semaphore (SC_Sem.cpp).
module Semaphore {
  // A counter under a mutex with a condition, used by any number of threads;
  // cond_wait may also return without a signal.

  type Thread = nat

  datatype Pc =
    | Outside
    | Testing(awakened: bool)  // in the wait loop, holding the mutex
    | Asleep                   // in pthread_cond_wait
    | Awake                    // out of it again, but without the mutex
    | Releasing                // in Release, holding the mutex
    | Leaving                  // about to unlock

  datatype State = State(count: int, pc: seq<Pc>)

  datatype Action =
    | Acquire(t: Thread)                // lock, line 39
    | Test(t: Thread)                   // lines 40-43
    | Relock(t: Thread)                 // the end of cond_wait, line 41
    | Release(t: Thread)                // lock, line 50
    | Signal(t: Thread, woken: Thread)  // lines 51-53
    | Unlock(t: Thread)                 // lines 44 and 54
    | Spurious(t: Thread)

  predicate Holds(p: Pc) {
    p.Testing? || p.Releasing? || p.Leaving?
  }

  ghost predicate MutexFree(s: State) {
    forall t :: 0 <= t < |s.pc| ==> !Holds(s.pc[t])
  }

  ghost predicate SomeAsleep(pc: seq<Pc>) {
    exists t :: 0 <= t < |pc| && pc[t].Asleep?
  }

  ghost predicate Can(s: State, a: Action) {
    a.t < |s.pc| &&
    match a
    case Acquire(t) => s.pc[t].Outside? && MutexFree(s)
    case Test(t) => s.pc[t].Testing?
    case Relock(t) => s.pc[t].Awake? && MutexFree(s)
    case Release(t) => s.pc[t].Outside? && MutexFree(s)
    // A signal wakes a sleeping thread if there is one.
    case Signal(t, w) =>
      s.pc[t].Releasing? && (SomeAsleep(s.pc) && s.count + 1 > 0 ==> w < |s.pc| && s.pc[w].Asleep?)
    case Unlock(t) => s.pc[t].Leaving?
    case Spurious(t) => s.pc[t].Asleep?
  }

  ghost function Do(s: State, a: Action): (s': State)
    requires Can(s, a)
    ensures |s'.pc| == |s.pc|
  {
    match a
    case Acquire(t) => s.(pc := s.pc[t := Testing(false)])
    case Test(t) =>
      if s.count < 1 then s.(pc := s.pc[t := Asleep])
      else s.(count := s.count - 1, pc := s.pc[t := Leaving])
    case Relock(t) => s.(pc := s.pc[t := Testing(true)])
    case Release(t) => s.(pc := s.pc[t := Releasing])
    case Signal(t, w) =>
      var pc := s.pc[t := Leaving];
      s.(count := s.count + 1, pc := if s.count + 1 > 0 && SomeAsleep(s.pc) then pc[w := Awake] else pc)
    case Unlock(t) => s.(pc := s.pc[t := Outside])
    case Spurious(t) => s.(pc := s.pc[t := Awake])
  }

  // Awakened threads that have not yet looked at the count again.
  predicate Contends(p: Pc) {
    p.Awake? || (p.Testing? && p.awakened)
  }

  function Contenders(pc: seq<Pc>): nat {
    if pc == [] then 0 else (if Contends(pc[0]) then 1 else 0) + Contenders(pc[1..])
  }

  lemma {:induction false} ContendersUpdate(pc: seq<Pc>, t: Thread, p: Pc)
    requires t < |pc|
    ensures Contenders(pc[t := p])
            == Contenders(pc) - (if Contends(pc[t]) then 1 else 0) + (if Contends(p) then 1 else 0)
    decreases |pc|
  {
    if t > 0 {
      assert pc[t := p][1..] == pc[1..][t - 1 := p];
      ContendersUpdate(pc[1..], t - 1, p);
    } else {
      assert pc[0 := p][1..] == pc[1..];
    }
  }

  lemma {:induction false} SomeContends(pc: seq<Pc>) returns (t: Thread)
    requires Contenders(pc) > 0
    ensures t < |pc| && Contends(pc[t])
    decreases |pc|
  {
    if Contends(pc[0]) {
      t := 0;
    } else {
      t := SomeContends(pc[1..]);
      t := t + 1;
    }
  }

  ghost predicate Exclusive(s: State) {
    forall t, u :: 0 <= t < u < |s.pc| && Holds(s.pc[t]) ==> !Holds(s.pc[u])
  }

  ghost predicate Inv(s: State, initial: int) {
    && s.count >= (if initial < 0 then initial else 0) && Exclusive(s)
    && (SomeAsleep(s.pc) ==> Contenders(s.pc) >= s.count)
  }

  ghost predicate Init(s: State, initial: int) {
    s.count == initial && forall t :: 0 <= t < |s.pc| ==> s.pc[t].Outside?
  }

  lemma StepCount(s: State, a: Action, initial: int)
    requires Inv(s, initial) && Can(s, a)
    ensures Do(s, a).count >= (if initial < 0 then initial else 0)
  {
  }

  lemma StepMutex(s: State, a: Action, initial: int)
    requires Inv(s, initial) && Can(s, a)
    ensures Exclusive(Do(s, a))
  {
  }

  lemma StepAsleep(s: State, a: Action, initial: int)
    requires Inv(s, initial) && Can(s, a)
    ensures SomeAsleep(Do(s, a).pc) ==> Contenders(Do(s, a).pc) >= Do(s, a).count
  {
    var s' := Do(s, a);
    if SomeAsleep(s'.pc) && !(a.Test? && s.count < 1) {
      var u :| 0 <= u < |s'.pc| && s'.pc[u].Asleep?;
      assert s.pc[u].Asleep?;
      match a
      case Acquire(t) => ContendersUpdate(s.pc, t, Testing(false));
      case Test(t) => ContendersUpdate(s.pc, t, Leaving);
      case Relock(t) => ContendersUpdate(s.pc, t, Testing(true));
      case Release(t) => ContendersUpdate(s.pc, t, Releasing);
      case Signal(t, w) =>
        ContendersUpdate(s.pc, t, Leaving);
        if s.count + 1 > 0 {
          ContendersUpdate(s.pc[t := Leaving], w, Awake);
        }
      case Unlock(t) => ContendersUpdate(s.pc, t, Outside);
      case Spurious(t) => ContendersUpdate(s.pc, t, Awake);
    }
  }

  ghost predicate Runs(s: State, acts: seq<Action>)
    decreases |acts|
  {
    acts == [] || (Can(s, acts[0]) && Runs(Do(s, acts[0]), acts[1..]))
  }

  ghost function End(s: State, acts: seq<Action>): State
    requires Runs(s, acts)
    decreases |acts|
  {
    if acts == [] then s else End(Do(s, acts[0]), acts[1..])
  }

  lemma {:induction false} RunInv(s: State, acts: seq<Action>, initial: int)
    requires Inv(s, initial) && Runs(s, acts)
    ensures Inv(End(s, acts), initial)
    decreases |acts|
  {
    hide Can, Do;
    if acts != [] {
      StepCount(s, acts[0], initial);
      StepMutex(s, acts[0], initial);
      StepAsleep(s, acts[0], initial);
      RunInv(Do(s, acts[0]), acts[1..], initial);
    }
  }

  // --- permits, counted in the run ---

  // Some thread goes on from the wait loop.
  ghost predicate Passes(s: State, s': State) {
    exists t :: 0 <= t < |s.pc| == |s'.pc| && s.pc[t].Testing? && s'.pc[t].Leaving?
  }

  ghost function Passed(s: State, acts: seq<Action>): nat
    requires Runs(s, acts)
    decreases |acts|
  {
    if acts == [] then 0 else (if Passes(s, Do(s, acts[0])) then 1 else 0) + Passed(Do(s, acts[0]), acts[1..])
  }

  function Signals(acts: seq<Action>): nat {
    if acts == [] then 0 else (if acts[0].Signal? then 1 else 0) + Signals(acts[1..])
  }

  lemma StepPermit(s: State, a: Action)
    requires Can(s, a)
    ensures Do(s, a).count == s.count + (if a.Signal? then 1 else 0) - (if Passes(s, Do(s, a)) then 1 else 0)
  {
    if a.Test? && s.count >= 1 {
      assert s.pc[a.t].Testing? && Do(s, a).pc[a.t].Leaving?;
    }
  }

  lemma {:induction false} PermitsCounted(s: State, acts: seq<Action>)
    requires Runs(s, acts)
    ensures End(s, acts).count == s.count + Signals(acts) - Passed(s, acts)
    decreases |acts|
  {
    hide Can, Do, Passes;
    if acts != [] {
      StepPermit(s, acts[0]);
      PermitsCounted(Do(s, acts[0]), acts[1..]);
    }
  }

  // For every interleaving: the count is what it began with, plus one for every
  // signal, less one for every thread that got through; it does not go below zero (or
  // a negative start), one thread at most is in a critical section, and with a thread
  // asleep at least count others are awake.
  lemma Accounting(s: State, acts: seq<Action>, initial: int)
    requires Init(s, initial) && Runs(s, acts)
    ensures var e := End(s, acts);
            && e.count == initial + Signals(acts) - Passed(s, acts)
            && (initial >= 0 ==> e.count >= 0 && Passed(s, acts) <= initial + Signals(acts))
            && (forall t, u :: 0 <= t < u < |e.pc| && Holds(e.pc[t]) ==> !Holds(e.pc[u]))
            && (SomeAsleep(e.pc) ==> Contenders(e.pc) >= e.count)
  {
    assert Inv(s, initial);
    RunInv(s, acts, initial);
    PermitsCounted(s, acts);
  }

  // --- calls, as their callers see them ---

  datatype Call = NoCall | InAcquire | InRelease

  // The call each thread is in, and how many calls of Acquire and Release have returned.
  datatype Log = Log(calls: seq<Call>, acquired: nat, released: nat)

  function Note(l: Log, a: Action): Log {
    if a.t >= |l.calls| then l
    else if a.Acquire? then l.(calls := l.calls[a.t := InAcquire])
    else if a.Release? then l.(calls := l.calls[a.t := InRelease])
    else if a.Unlock? then
      Log(l.calls[a.t := NoCall], l.acquired + (if l.calls[a.t].InAcquire? then 1 else 0),
          l.released + (if l.calls[a.t].InRelease? then 1 else 0))
    else l
  }

  function Notes(l: Log, acts: seq<Action>): Log
    decreases |acts|
  {
    if acts == [] then l else Notes(Note(l, acts[0]), acts[1..])
  }

  ghost predicate About(s: State, l: Log) {
    && |l.calls| == |s.pc|
    && forall t :: 0 <= t < |s.pc| ==>
         match s.pc[t]
         case Outside => l.calls[t].NoCall?
         case Releasing => l.calls[t].InRelease?
         case Leaving => !l.calls[t].NoCall?
         case _ => l.calls[t].InAcquire?
  }

  // What a thread that is about to unlock has done to the count.
  ghost function Due(s: State, l: Log): int
    requires About(s, l)
  {
    if LeavingCall(s, l, InRelease) then 1 else if LeavingCall(s, l, InAcquire) then -1 else 0
  }

  ghost predicate LeavingCall(s: State, l: Log, c: Call)
    requires About(s, l)
  {
    exists t :: 0 <= t < |s.pc| && s.pc[t].Leaving? && l.calls[t] == c
  }

  lemma NoteAbout(s: State, l: Log, a: Action)
    requires About(s, l) && Can(s, a)
    ensures About(Do(s, a), Note(l, a))
  {
  }

  // Every call that returns has done its one step of the count.
  lemma NoteStep(s: State, l: Log, a: Action)
    requires About(s, l) && Exclusive(s) && Can(s, a)
    ensures var s', l' := Do(s, a), Note(l, a);
            && About(s', l')
            && s'.count - l'.released + l'.acquired - Due(s', l') == s.count - l.released + l.acquired - Due(s, l)
  {
    NoteAbout(s, l, a);
    var s', l' := Do(s, a), Note(l, a);
    match a
    case Test(t) =>
      if s.count >= 1 {
        assert s'.pc[t].Leaving? && l'.calls[t].InAcquire?;
      }
    case Signal(t, w) => assert s'.pc[t].Leaving? && l'.calls[t].InRelease?;
    case Unlock(t) => assert s.pc[t].Leaving?;
    case _ => assert forall u :: 0 <= u < |s.pc| ==> (s.pc[u].Leaving? <==> s'.pc[u].Leaving?);
  }

  lemma {:induction false} NotesRun(s: State, l: Log, acts: seq<Action>, initial: int)
    requires About(s, l) && Inv(s, initial) && Runs(s, acts)
    ensures var e, m := End(s, acts), Notes(l, acts);
            && About(e, m)
            && e.count - m.released + m.acquired - Due(e, m) == s.count - l.released + l.acquired - Due(s, l)
    decreases |acts|
  {
    hide Can, Do, Note, Due, About, Contenders, SomeAsleep;
    if acts != [] {
      NoteStep(s, l, acts[0]);
      StepCount(s, acts[0], initial);
      StepMutex(s, acts[0], initial);
      StepAsleep(s, acts[0], initial);
      NotesRun(Do(s, acts[0]), Note(l, acts[0]), acts[1..], initial);
    }
  }

  // For every interleaving, whenever the mutex is free: the count is what it began
  // with, plus the calls of Release less the calls of Acquire that have returned.  In
  // between it is off by the call about to return, so that no more calls of Acquire
  // return than there are permits.
  lemma CallsCounted(s: State, acts: seq<Action>, initial: int)
    requires Init(s, initial) && Runs(s, acts)
    ensures var e, l := End(s, acts), Notes(Log(seq(|s.pc|, _ => NoCall), 0, 0), acts);
            && (MutexFree(e) ==> e.count == initial + l.released - l.acquired)
            && |l.calls| == |e.pc|
            && (initial >= 0 ==> l.acquired <= initial + l.released
                                 || exists t :: 0 <= t < |e.pc| && l.calls[t].InRelease? && e.pc[t].Leaving?
                                                && l.acquired == initial + l.released + 1)
  {
    var l0 := Log(seq(|s.pc|, _ => NoCall), 0, 0);
    assert Inv(s, initial) && About(s, l0);
    NotesRun(s, l0, acts, initial);
    RunInv(s, acts, initial);
    var e, l := End(s, acts), Notes(l0, acts);
    assert Due(s, l0) == 0;
  }

  // Nobody sleeps while permits go unused: when permits exist and a thread
  // sleeps, an awakened thread can take one as soon as the mutex is free.
  lemma NotStranded(s: State, acts: seq<Action>, initial: int) returns (t: Thread)
    requires Init(s, initial) && Runs(s, acts)
    requires End(s, acts).count > 0 && SomeAsleep(End(s, acts).pc)
    ensures var e := End(s, acts);
            && t < |e.pc| && Contends(e.pc[t])
            && (MutexFree(e) ==>
                  Can(e, Relock(t)) && Can(Do(e, Relock(t)), Test(t))
                  && Do(Do(e, Relock(t)), Test(t)).count == e.count - 1)
            && (!MutexFree(e) && e.pc[t].Testing? ==> Can(e, Test(t)) && Do(e, Test(t)).count == e.count - 1)
  {
    Accounting(s, acts, initial);
    t := SomeContends(End(s, acts).pc);
  }
}
