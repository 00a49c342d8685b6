// What a poster can rely on.
module SyncCalls {
  // Every call of send or of postSyncEvent with a handler, in every run, told by
  // the steps taken between its beginning and its return.

  import opened SyncEvents

  // The states of a run.
  ghost function Path(s: State, acts: seq<Action>): (p: seq<State>)
    requires Runs(s, acts)
    ensures |p| == |acts| + 1 && p[0] == s && p[|acts|] == End(s, acts)
    ensures forall i :: 0 <= i < |p| ==> |p[i].pc| == |s.pc| && (acts != [] ==> p[i].Sized())
    decreases |acts|
  {
    if acts == [] then [s] else [s] + Path(Do(s, acts[0]), acts[1..])
  }

  lemma {:induction false} PathStep(s: State, acts: seq<Action>, i: nat)
    requires Runs(s, acts) && i < |acts|
    ensures Can(Path(s, acts)[i], acts[i]) && Path(s, acts)[i + 1] == Do(Path(s, acts)[i], acts[i])
    decreases |acts|
  {
    hide Can, Do;
    if i > 0 {
      PathStep(Do(s, acts[0]), acts[1..], i - 1);
    }
  }

  lemma {:induction false} PathInv(s: State, acts: seq<Action>, i: nat)
    requires Inv(s) && Runs(s, acts) && i <= |acts|
    ensures Inv(Path(s, acts)[i]) && Path(s, acts)[i].Sized() && |Path(s, acts)[i].pc| == |s.pc|
    decreases i
  {
    hide Can, Do, Inv, Path, Runs;
    if i > 0 {
      PathInv(s, acts, i - 1);
      PathStep(s, acts, i - 1);
      StepInv(Path(s, acts)[i - 1], acts[i - 1]);
      Sized(Path(s, acts)[i]);
      assert i - 1 + 1 == i;
    } else {
      Sized(s);
    }
  }

  // --- a call with a handler runs it once ---

  // The Qt thread runs the handler of t's event.
  predicate Handles(s: State, a: Action, t: Thread) {
    a.QtPerform? && s.qt.Exec? && s.qt.event == Sync(t)
  }

  // Between the beginning of such a call and its return.
  predicate Posting(p: Pc) {
    p.Ready? || p.Locked? || p.Posted? || p.Waiting? || p.Woken? || p.Held? || p.Leaving?
  }

  lemma BeginStep(s: State, a: Action, t: Thread)
    requires Can(s, a) && (a == Direct(t) || a == LockApp(t))
    ensures t < |Do(s, a).pc| && Posting(Do(s, a).pc[t]) && !Do(s, a).ran[t] && !Do(s, a).done[t]
  {
  }

  // One step while t's call is under way.
  ghost predicate Goes(s: State, a: Action, t: Thread, s': State)
    requires s.Sized() && s'.Sized() && t < |s.pc| == |s'.pc|
  {
    && (Posting(s'.pc[t]) || (s'.pc[t].Running? && s.ran[t] && s'.done[t] == s.result[t]))
    && (Handles(s, a, t) ==> !s.ran[t] && s'.ran[t] && s'.result[t] == a.v && Posting(s'.pc[t]))
    && (!Handles(s, a, t) ==> s'.ran[t] == s.ran[t] && s'.result[t] == s.result[t])
    && (!s.ran[t] ==> s'.done[t] == s.done[t])
  }

  lemma PostingQt(s: State, a: Action, t: Thread)
    requires Inv(s) && Can(s, a) && ByQt(a) && t < |s.pc| && Posting(s.pc[t])
    ensures Goes(s, a, t, DoQt(s, a))
  {
    assert ThreadOK(s, t);
  }

  lemma PostingLang(s: State, a: Action, t: Thread)
    requires Inv(s) && Can(s, a) && !ByQt(a) && t < |s.pc| && Posting(s.pc[t])
    ensures Goes(s, a, t, DoLang(s, a))
  {
    assert ThreadOK(s, t);
  }

  lemma PostingStep(s: State, a: Action, t: Thread)
    requires Inv(s) && Can(s, a) && t < |s.pc| && Posting(s.pc[t])
    ensures s.Sized() && Goes(s, a, t, Do(s, a))
  {
    hide DoQt, DoLang, Goes, ThreadOK, QueueOK, Posting;
    if ByQt(a) {
      PostingQt(s, a, t);
    } else {
      PostingLang(s, a, t);
    }
  }

  // At place m of a call begun at i: the handler has run at one place k, or has not run.
  lemma {:induction false} HandledOnce(s0: State, acts: seq<Action>, t: Thread, i: nat, m: nat) returns (k: nat)
    requires Init(s0) && Runs(s0, acts) && t < |s0.pc| && i < m <= |acts|
    requires acts[i] == Direct(t) || acts[i] == LockApp(t)
    requires forall l :: i < l < m ==> !Path(s0, acts)[l].pc[t].Running?
    ensures var p := Path(s0, acts);
            && t < |p[m].pc| == |p[m].ran| == |p[m].done| == |p[m].result| && t < |p[m - 1].pc|
            && (Posting(p[m].pc[t]) || (m > i + 1 && p[m].pc[t].Running? && p[m].ran[t] && p[m].done[t] == p[m].result[t]))
            && (!p[m].ran[t] ==> !p[m].done[t] && forall l :: i <= l < m ==> !Handles(p[l], acts[l], t))
            && (p[m].ran[t] ==>
                  && i < k < m && Handles(p[k], acts[k], t) && p[m].result[t] == acts[k].v
                  && !p[k].done[t] && forall l :: i <= l < m && Handles(p[l], acts[l], t) ==> l == k)
    decreases m
  {
    hide Can, Do, Inv, Path, Runs, Init;
    InitInv(s0);
    PathInv(s0, acts, m);
    PathInv(s0, acts, m - 1);
    PathStep(s0, acts, m - 1);
    k := 0;
    if m == i + 1 {
      BeginStep(Path(s0, acts)[i], acts[i], t);
    } else {
      k := HandledOnce(s0, acts, t, i, m - 1);
      PostingStep(Path(s0, acts)[m - 1], acts[m - 1], t);
      if Handles(Path(s0, acts)[m - 1], acts[m - 1], t) {
        k := m - 1;
      }
    }
  }

  // A call of send, or the part of postSyncEvent behind line 96, that has returned:
  // in between the Qt thread has run its handler exactly once, and done, false until
  // then, is what that run of the handler gave.
  lemma SendHandled(s0: State, acts: seq<Action>, t: Thread, i: nat, j: nat) returns (k: nat)
    requires Init(s0) && Runs(s0, acts) && t < |s0.pc| && i < j <= |acts|
    requires acts[i] == Direct(t) || acts[i] == LockApp(t)
    requires forall l :: i < l < j ==> !Path(s0, acts)[l].pc[t].Running?
    requires Path(s0, acts)[j].pc[t].Running?
    ensures var p := Path(s0, acts);
            && i < k < j && acts[k].QtPerform? && p[k].qt.Exec? && p[k].qt.event == Sync(t)
            && !p[k].done[t] && p[j].done[t] == acts[k].v
            && forall l :: i <= l < j && acts[l].QtPerform? && p[l].qt.Exec? && p[l].qt.event == Sync(t) ==> l == k
  {
    hide Path, Runs, Init, End;
    k := HandledOnce(s0, acts, t, i, j);
  }

  // --- a call of postSyncEvent with a handler returns without it only if there is no instance ---

  // In the part that looks for the instance.
  predicate Looking(p: Pc) {
    p.Asked? || p.Checking? || p.Checked?
  }

  lemma LookingStep(s: State, a: Action, t: Thread)
    requires Can(s, a) && t < |s.pc| && Looking(s.pc[t])
    ensures var p := Do(s, a).pc[t];
            && (Looking(p) ==> a != LockApp(t) && (p.Checked? ==> s.pc[t].Checked? || s.instance))
            && (p.Running? ==> a == Check(t) && !s.instance && !s.pc[t].Checked?)
            && (!Looking(p) && !p.Running? ==> a == LockApp(t) && s.pc[t].Checked?)
  {
    if ByQt(a) {
      LookingQt(s, a, t);
      hide DoQt;
    }
  }

  lemma LookingQt(s: State, a: Action, t: Thread)
    requires Can(s, a) && ByQt(a) && t < |s.pc| && Looking(s.pc[t])
    ensures DoQt(s, a).pc[t] == s.pc[t]
  {
  }

  lemma InstanceStep(s: State, a: Action)
    requires Can(s, a)
    ensures Do(s, a).instance == s.instance
  {
  }

  lemma {:induction false} InstanceKept(s: State, acts: seq<Action>, i: nat)
    requires Runs(s, acts) && i <= |acts|
    ensures Path(s, acts)[i].instance == s.instance
  {
    hide Can, Do, Path, Runs;
    if i > 0 {
      InstanceKept(s, acts, i - 1);
      PathStep(s, acts, i - 1);
      InstanceStep(Path(s, acts)[i - 1], acts[i - 1]);
      assert i - 1 + 1 == i;
    }
  }

  // At place m of a call begun at i: still looking, or the handler was called for, or there is no instance.
  lemma {:induction false} LookedFor(s0: State, acts: seq<Action>, t: Thread, i: nat, m: nat)
    requires Runs(s0, acts) && t < |s0.pc| && i < m <= |acts| && acts[i] == Ask(t)
    requires forall l :: i < l < m ==> !Path(s0, acts)[l].pc[t].Running?
    ensures var p := Path(s0, acts);
            || (exists l :: i < l < m && acts[l] == LockApp(t) && s0.instance)
            || (&& (forall l :: i <= l < m ==> acts[l] != LockApp(t))
                && (if p[m].pc[t].Running? then m > i + 1 && acts[m - 1] == Check(t) && !s0.instance
                    else Looking(p[m].pc[t]) && (p[m].pc[t].Checked? ==> s0.instance)))
    decreases m
  {
    hide Can, Do, Path, Runs, Looking;
    var p := Path(s0, acts);
    PathStep(s0, acts, m - 1);
    assert m - 1 + 1 == m;
    if m == i + 1 {
      AskStep(p[i], t);
    } else {
      LookedFor(s0, acts, t, i, m - 1);
      InstanceKept(s0, acts, m - 1);
      if Looking(p[m - 1].pc[t]) {
        LookingStep(p[m - 1], acts[m - 1], t);
      }
    }
  }

  lemma AskStep(s: State, t: Thread)
    requires Can(s, Ask(t))
    ensures Looking(Do(s, Ask(t)).pc[t]) && Do(s, Ask(t)).pc[t].Asked?
  {
  }

  // A call of postSyncEvent with a handler that has returned: the handler was sent,
  // as SendHandled says, if and only if there is an instance; if not, the call
  // returned from the check.
  lemma AskAnswered(s0: State, acts: seq<Action>, t: Thread, i: nat, j: nat)
    requires Init(s0) && Runs(s0, acts) && t < |s0.pc| && i < j <= |acts| && acts[i] == Ask(t)
    requires forall l :: i < l < j ==> !Path(s0, acts)[l].pc[t].Running?
    requires Path(s0, acts)[j].pc[t].Running?
    ensures (exists l :: i < l < j && acts[l] == LockApp(t)) <==> s0.instance
    ensures !s0.instance ==> acts[j - 1] == Check(t)
  {
    hide Path, Runs, Init, Looking;
    LookedFor(s0, acts, t, i, j);
  }

  // --- every event once, in order ---

  function PostedBy(a: Action): seq<Event> {
    match a
    case Post(t) => [Sync(t)]
    case PostAsync(t) => [Async]
    case _ => []
  }

  function Posted(acts: seq<Action>): seq<Event> {
    if acts == [] then [] else PostedBy(acts[0]) + Posted(acts[1..])
  }

  // The event whose handler a step runs.
  function HandledBy(s: State, a: Action): seq<Event> {
    if a.QtPerform? && s.qt.Exec? then [s.qt.event] else []
  }

  ghost function Performed(s: State, acts: seq<Action>): seq<Event>
    requires Runs(s, acts)
    decreases |acts|
  {
    if acts == [] then [] else HandledBy(s, acts[0]) + Performed(Do(s, acts[0]), acts[1..])
  }

  // The events under way: taken by the Qt thread, and queued.
  function UnderWay(s: State): seq<Event> {
    (if s.qt.Exec? then [s.qt.event] else []) + s.queue
  }

  lemma EventQt(s: State, a: Action)
    requires Can(s, a) && ByQt(a)
    ensures UnderWay(s) == HandledBy(s, a) + UnderWay(DoQt(s, a))
  {
    if a.QtDispatch? || a.QtPop? {
      EventTaken(s, a);
    } else {
      assert [] + s.queue == s.queue;
    }
  }

  lemma EventTaken(s: State, a: Action)
    requires Can(s, a) && (a.QtDispatch? || a.QtPop?)
    ensures UnderWay(s) == HandledBy(s, a) + UnderWay(DoQt(s, a))
  {
    assert s.queue == [s.queue[0]] + s.queue[1..];
  }

  lemma EventLang(s: State, a: Action)
    requires Can(s, a) && !ByQt(a)
    ensures UnderWay(s) + PostedBy(a) == UnderWay(DoLang(s, a))
  {
  }

  lemma EventStep(s: State, a: Action)
    requires Can(s, a)
    ensures UnderWay(s) + PostedBy(a) == HandledBy(s, a) + UnderWay(Do(s, a))
  {
    hide Can, DoQt, DoLang, UnderWay;
    if ByQt(a) {
      EventQt(s, a);
      assert UnderWay(s) + [] == UnderWay(s);
    } else {
      EventLang(s, a);
    }
  }

  lemma {:induction false} EventsFollow(s: State, acts: seq<Action>)
    requires Runs(s, acts)
    ensures UnderWay(s) + Posted(acts) == Performed(s, acts) + UnderWay(End(s, acts))
    decreases |acts|
  {
    hide Can, Do, UnderWay, PostedBy, HandledBy;
    if acts == [] {
      assert UnderWay(s) + [] == UnderWay(s) == [] + UnderWay(s);
    } else {
      EventStep(s, acts[0]);
      EventsFollow(Do(s, acts[0]), acts[1..]);
      Chained(UnderWay(s), PostedBy(acts[0]), Posted(acts[1..]), HandledBy(s, acts[0]), UnderWay(Do(s, acts[0])),
              Performed(Do(s, acts[0]), acts[1..]), UnderWay(End(s, acts)));
    }
  }

  lemma Chained(u: seq<Event>, p: seq<Event>, ps: seq<Event>, h: seq<Event>, u': seq<Event>, hs: seq<Event>, e: seq<Event>)
    requires u + p == h + u' && u' + ps == hs + e
    ensures u + (p + ps) == (h + hs) + e
  {
    assert u + (p + ps) == (u + p) + ps;
    assert (h + u') + ps == h + (u' + ps);
    assert h + (hs + e) == (h + hs) + e;
  }

  // Handlers are run in the order in which their events were posted, each once:
  // those that were run, then the one being run, then the queue, are all that were posted.
  lemma EventsInOrder(s0: State, acts: seq<Action>)
    requires Init(s0) && Runs(s0, acts)
    ensures var e := End(s0, acts);
            Posted(acts) == Performed(s0, acts) + (if e.qt.Exec? then [e.qt.event] else []) + e.queue
  {
    hide Runs, End, Posted, Performed;
    EventsFollow(s0, acts);
    var e, done := End(s0, acts), Performed(s0, acts);
    assert UnderWay(s0) + Posted(acts) == Posted(acts);
    assert done + UnderWay(e) == done + (if e.qt.Exec? then [e.qt.event] else []) + e.queue;
  }

  // --- the locks ---

  lemma LangStep(s: State, a: Action, t: Thread)
    requires Can(s, a) && s.lang == Lang(t) && a != DropLang(t)
    ensures s.qt.Owning? || Do(s, a).lang == Lang(t)
  {
  }

  // From its TakeLang to its DropLang thread t holds gLangMutex, and the Qt thread does not.
  lemma {:induction false} LangKept(s0: State, acts: seq<Action>, t: Thread, i: nat, j: nat)
    requires Init(s0) && Runs(s0, acts) && i < j <= |acts| && acts[i].TakeLang? && acts[i].t == t
    requires forall l :: i < l < j ==> acts[l] != DropLang(t)
    ensures Path(s0, acts)[j].lang == Lang(t) && !Path(s0, acts)[j].qt.Owning?
    decreases j
  {
    hide Can, Do, Inv, Path, Runs, Init;
    InitInv(s0);
    PathInv(s0, acts, j);
    PathStep(s0, acts, j - 1);
    assert j - 1 + 1 == j;
    if i + 1 < j {
      LangKept(s0, acts, t, i, j - 1);
      LangStep(Path(s0, acts)[j - 1], acts[j - 1], t);
    } else {
      TakeStep(Path(s0, acts)[i], acts[i]);
    }
    NotOwning(Path(s0, acts)[j], t);
  }

  lemma TakeStep(s: State, a: Action)
    requires Can(s, a) && a.TakeLang?
    ensures Do(s, a).lang == Lang(a.t)
  {
  }

  lemma NotOwning(s: State, t: Thread)
    requires Inv(s) && s.lang == Lang(t)
    ensures !s.qt.Owning?
  {
  }

  lemma AppStep(s: State, a: Action, t: Thread)
    requires Inv(s) && Can(s, a) && t < |s.pc| && Posting(s.pc[t]) && s.pc[t].app
    ensures var p := Do(s, a).pc[t]; p.Running? || (Posting(p) && p.app)
  {
    assert ThreadOK(s, t);
  }

  lemma BeginsApp(s: State, t: Thread)
    requires Can(s, LockApp(t))
    ensures Posting(Do(s, LockApp(t)).pc[t]) && Do(s, LockApp(t)).pc[t].app
  {
  }

  lemma AppOwned(s: State, t: Thread)
    requires Inv(s) && t < |s.pc| && Posting(s.pc[t]) && s.pc[t].app
    ensures s.app == Lang(t)
  {
    assert ThreadOK(s, t);
  }

  // postSyncEvent with a handler keeps _mutex until it returns.
  lemma {:induction false} AppHeld(s0: State, acts: seq<Action>, t: Thread, i: nat, m: nat)
    requires Init(s0) && Runs(s0, acts) && t < |s0.pc| && i < m <= |acts| && acts[i] == LockApp(t)
    requires forall l :: i < l <= m ==> !Path(s0, acts)[l].pc[t].Running?
    ensures Path(s0, acts)[m].app == Lang(t)
    ensures var q := Path(s0, acts)[m].pc[t]; Posting(q) && q.app
    decreases m
  {
    hide Can, Do, Inv, Path, Runs, Init, Posting;
    InitInv(s0);
    PathInv(s0, acts, m - 1);
    PathInv(s0, acts, m);
    PathStep(s0, acts, m - 1);
    if m == i + 1 {
      BeginsApp(Path(s0, acts)[i], t);
    } else {
      AppHeld(s0, acts, t, i, m - 1);
      AppStep(Path(s0, acts)[m - 1], acts[m - 1], t);
    }
    AppOwned(Path(s0, acts)[m], t);
  }

  // The Qt thread's calls of lockLang, by the steps taken: begun, and not yet returned
  // with the lock.
  ghost function Locking(s: State, acts: seq<Action>, before: bool): bool
    requires Runs(s, acts)
    decreases |acts|
  {
    if acts == [] then before
    else Locking(Do(s, acts[0]), acts[1..], acts[0].QtLockLang? || (before && !(acts[0].QtTry? && s.lang.Nobody?)))
  }

  predicate InLockLang(q: QtPc) {
    match q
    case Idle => false
    case Owning => false
    case Try => true
    case Drain => true
    case _ => q.spin
  }

  lemma LockingStep(s: State, a: Action)
    requires Can(s, a)
    ensures InLockLang(Do(s, a).qt) <==> a.QtLockLang? || (InLockLang(s.qt) && !(a.QtTry? && s.lang.Nobody?))
  {
  }

  lemma {:induction false} LockingFollows(s: State, acts: seq<Action>)
    requires Runs(s, acts)
    ensures InLockLang(End(s, acts).qt) <==> Locking(s, acts, InLockLang(s.qt))
    decreases |acts|
  {
    hide Can, Do, InLockLang;
    if acts != [] {
      LockingStep(s, acts[0]);
      LockingFollows(Do(s, acts[0]), acts[1..]);
    }
  }

  // lockLang returns with the lock and not before, whatever events it handles.
  lemma LockLangReturns(s0: State, acts: seq<Action>)
    requires Init(s0) && Runs(s0, acts)
    ensures var q, locking := End(s0, acts).qt, Locking(s0, acts, false);
            && (q.Try? || q.Drain? ==> locking) && (q.Idle? || q.Owning? ==> !locking)
            && (q.Exec? || q.Handing? || q.WantMutex? || q.Waking? || q.Unlocking? ==> q.spin == locking)
  {
    hide Runs, End, Locking;
    LockingFollows(s0, acts);
  }

  // Two threads are never between the locking and the unlocking of _mutex at once.
  lemma AppExclusive(s0: State, acts: seq<Action>, t: Thread, u: Thread)
    requires Init(s0) && Runs(s0, acts) && t < u < |s0.pc|
    ensures var p := End(s0, acts).pc;
            && u < |p|
            && (p[t].Checking? || (Posting(p[t]) && p[t].app) ==> !(p[u].Checking? || (Posting(p[u]) && p[u].app)))
  {
    hide Init, Runs, End;
    InitInv(s0);
    RunInv(s0, acts);
    assert ThreadOK(End(s0, acts), t) && ThreadOK(End(s0, acts), u);
  }
}
