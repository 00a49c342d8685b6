// Every fair run of the synchronous-event protocol.
module SyncFairness {
  import opened SyncEvents

  // A language thread, or the Qt thread.
  datatype Runner = QtRunner | Thr(t: Thread)

  predicate By(a: Action, w: Runner) {
    if ByQt(a) then w == QtRunner else w == Thr(a.t)
  }

  ghost predicate Enabled(s: State, w: Runner) {
    exists a :: Can(s, a) && By(a, w)
  }

  ghost predicate EnabledAfter(states: nat -> State, w: Runner, n: nat) {
    exists j: nat :: j >= n && Enabled(states(j), w)
  }

  ghost predicate StepsAfter(acts: nat -> Action, w: Runner, n: nat) {
    exists j: nat :: j >= n && By(acts(j), w)
  }

  // If w can take a step again and again, it takes one again and again.
  ghost predicate FairTo(states: nat -> State, acts: nat -> Action, w: Runner) {
    (forall n: nat :: EnabledAfter(states, w, n)) ==> forall n: nat :: StepsAfter(acts, w, n)
  }

  // The scheduler and the locks are fair: a thread that waits for a lock gets it,
  // if it is free again and again.
  ghost predicate Fair(states: nat -> State, acts: nat -> Action) {
    forall w: Runner :: FairTo(states, acts, w)
  }

  lemma FairStep(states: nat -> State, acts: nat -> Action, w: Runner, n: nat) returns (j: nat)
    requires Fair(states, acts) && forall m: nat :: EnabledAfter(states, w, m)
    ensures j >= n && By(acts(j), w)
  {
    hide EnabledAfter;
    assert FairTo(states, acts, w) && StepsAfter(acts, w, n);
    j :| j >= n && By(acts(j), w);
  }

  // --- a thread that takes no steps ---

  // After n, thread x takes no step, and the Qt thread none while x's event is pending.
  ghost predicate Quiet(states: nat -> State, acts: nat -> Action, x: Thread, n: nat) {
    && Forever(states, acts) && HeldFrom(states, acts, x, n) && Inv(states(n)) && x < |states(n).pc|
    && !CountsAfter(states, acts, x, n)
  }

  lemma QuietStep(states: nat -> State, acts: nat -> Action, x: Thread, n: nat, j: nat)
    requires Quiet(states, acts, x, n) && j >= n
    ensures Can(states(j), acts(j)) && states(j + 1) == Do(states(j), acts(j)) && !Counts(states(j), acts(j), x)
    ensures states(j).lang.Lang?
  {
    hide Inv, Counts, Can, Do;
  }

  // Then it stays where it is.
  lemma {:induction false} Still(states: nat -> State, acts: nat -> Action, x: Thread, n: nat, j: nat)
    requires Quiet(states, acts, x, n) && j >= n
    ensures Inv(states(j)) && |states(j).pc| == |states(n).pc| && states(j).Sized() && states(n).Sized()
    ensures states(j).pc[x] == states(n).pc[x] && states(j).todo[x] == states(n).todo[x]
    decreases j
  {
    hide Inv, Can, Do, Counts, Quiet;
    QuietInv(states, acts, x, n);
    if j > n {
      Still(states, acts, x, n, j - 1);
      QuietStep(states, acts, x, n, j - 1);
      StepInv(states(j - 1), acts(j - 1));
      Uncounted(states(j - 1), acts(j - 1), x);
      assert j - 1 + 1 == j;
    }
  }

  lemma QuietInv(states: nat -> State, acts: nat -> Action, x: Thread, n: nat)
    requires Quiet(states, acts, x, n)
    ensures Inv(states(n)) && states(n).Sized() && x < |states(n).pc|
  {
  }

  lemma QuietRuns(states: nat -> State, acts: nat -> Action, x: Thread, n: nat)
    requires Quiet(states, acts, x, n)
    ensures Forever(states, acts)
  {
  }

  lemma Uncounted(s: State, a: Action, x: Thread)
    requires Inv(s) && Can(s, a) && !Counts(s, a, x) && x < |s.pc|
    ensures Do(s, a).Sized() && |Do(s, a).pc| == |s.pc| && Do(s, a).pc[x] == s.pc[x] && Do(s, a).todo[x] == s.todo[x]
  {
  }

  // So it cannot be able to step again and again.
  lemma NotEnabled(states: nat -> State, acts: nat -> Action, x: Thread, n: nat) returns (m: nat)
    requires Quiet(states, acts, x, n) && Fair(states, acts)
    ensures m >= n && !EnabledAfter(states, Thr(x), m)
  {
    hide Inv, Counts, Can, Fair;
    if forall k: nat :: EnabledAfter(states, Thr(x), k) {
      var j := FairStep(states, acts, Thr(x), n);
      QuietStep(states, acts, x, n, j);
      OwnCounts(states(j), acts(j), x);
      assert false;
    } else {
      m :| !EnabledAfter(states, Thr(x), m);
      if m < n {
        Later(states, Thr(x), m, n);
        m := n;
      }
    }
  }

  lemma Later(states: nat -> State, w: Runner, m: nat, n: nat)
    requires m <= n && !EnabledAfter(states, w, m)
    ensures !EnabledAfter(states, w, n)
  {
  }

  lemma OwnCounts(s: State, a: Action, x: Thread)
    requires By(a, Thr(x))
    ensures Counts(s, a, x)
  {
  }

  // --- threads that do not wait for _mutex ---

  // What thread x, when it has work and does not wait for _mutex, can count on.
  lemma SomethingCan(s: State, x: Thread)
    requires Inv(s) && x < |s.pc| && (!s.pc[x].Running? || s.todo[x] > 0 || s.lang == Lang(x))
    requires !s.pc[x].Asked? && !s.pc[x].Checked?
    ensures Enabled(s, Thr(x)) || Pending(s, x)
  {
    assert ThreadOK(s, x);
    if s.pc[x].Running? {
      assert Can(s, if s.todo[x] > 0 then Ask(x) else DropLang(x));
    } else if !s.pc[x].Waiting? && (s.pc[x].Woken? ==> s.mutex[x].Free?) {
      var a := OwnNext(s, x);
      assert By(a, Thr(x));
    }
  }

  // While an event is pending, the Qt thread can step, or it waits for the mutex
  // of a poster that can.
  lemma QtOrPoster(s: State, x: Thread)
    requires Inv(s) && x < |s.pc| && Pending(s, x) && s.lang.Lang?
    ensures Enabled(s, QtRunner)
            || (s.qt.WantMutex? && s.qt.thread < |s.pc| && s.pc[s.qt.thread].Posted? && Enabled(s, Thr(s.qt.thread)))
  {
    InQueue(s, x);
    var a := ServingStep(s);
    if !ByQt(a) {
      assert By(a, Thr(s.qt.thread));
    } else {
      assert By(a, QtRunner);
    }
  }

  // The one step of a poster that has posted frees its mutex for the Qt thread.
  lemma SleepFrees(s: State, a: Action)
    requires Inv(s) && Can(s, a) && s.qt.WantMutex? && s.qt.thread < |s.pc| && s.pc[s.qt.thread].Posted?
    requires By(a, Thr(s.qt.thread))
    ensures Enabled(Do(s, a), QtRunner)
  {
    assert a == Sleep(s.qt.thread);
    assert Can(Do(s, a), QtLockOwn) && By(QtLockOwn, QtRunner);
  }

  // A pending event is served: the Qt thread cannot be idle for ever.
  lemma QtServesOn(states: nat -> State, acts: nat -> Action, x: Thread, n: nat)
    requires Quiet(states, acts, x, n) && forall j: nat :: j >= n ==> Pending(states(j), x)
    ensures !Fair(states, acts)
  {
    hide Inv, Can, Do, Fair, Quiet, Pending, EnabledAfter, Enabled;
    if Fair(states, acts) {
      forall k: nat
        ensures EnabledAfter(states, QtRunner, k)
      {
        PosterSleeps(states, acts, x, n, if k > n then k else n, k);
      }
      var j := FairStep(states, acts, QtRunner, n);
      QuietStep(states, acts, x, n, j);
      QtCounts(states(j), acts(j), x);
      assert false;
    }
  }

  lemma QtCounts(s: State, a: Action, x: Thread)
    requires By(a, QtRunner) && Pending(s, x)
    ensures Counts(s, a, x)
  {
  }

  // The Qt thread can always step again: a poster whose mutex it wants goes to sleep.
  lemma PosterSleeps(states: nat -> State, acts: nat -> Action, x: Thread, n: nat, k: nat, m: nat)
    requires Quiet(states, acts, x, n) && Fair(states, acts) && n <= k && m <= k
    requires forall j: nat :: j >= n ==> Pending(states(j), x)
    ensures EnabledAfter(states, QtRunner, m)
  {
    hide Inv, Can, Do, Fair, Quiet, Pending, Enabled, EnabledAfter;
    if !EnabledAfter(states, QtRunner, m) {
      WantsOn(states, acts, x, n, k, m, k);
      var u := states(k).qt.thread;
      forall j: nat | j >= k
        ensures states(j).qt.WantMutex? && states(j).qt.thread == u && u < |states(j).pc| && states(j).pc[u].Posted?
        ensures Enabled(states(j), Thr(u))
      {
        WantsOn(states, acts, x, n, k, m, j);
      }
      forall i: nat
        ensures EnabledAfter(states, Thr(u), i)
      {
        var j: nat := if i > k then i else k;
        OnceAfter(states, Thr(u), i, j);
      }
      var j := FairStep(states, acts, Thr(u), k);
      Still(states, acts, x, n, j);
      QuietStep(states, acts, x, n, j);
      SleepFrees(states(j), acts(j));
      NeverAfter(states, QtRunner, m, j + 1);
      assert false;
    }
  }

  lemma {:induction false} WantsOn(states: nat -> State, acts: nat -> Action, x: Thread, n: nat, k: nat, m: nat, j: nat)
    requires Quiet(states, acts, x, n) && n <= k && m <= k <= j && !EnabledAfter(states, QtRunner, m)
    requires forall j: nat :: j >= n ==> Pending(states(j), x)
    ensures states(j).qt.WantMutex? && states(j).qt == states(k).qt && states(j).qt.thread < |states(j).pc|
    ensures states(j).pc[states(j).qt.thread].Posted? && Enabled(states(j), Thr(states(j).qt.thread))
    decreases j
  {
    hide Inv, Can, Do, Quiet, Enabled;
    QuietInv(states, acts, x, n);
    Still(states, acts, x, n, j);
    QuietStep(states, acts, x, n, j);
    NeverAfter(states, QtRunner, m, j);
    QtOrPoster(states(j), x);
    if j > k {
      WantsOn(states, acts, x, n, k, m, j - 1);
      QuietStep(states, acts, x, n, j - 1);
      QtUnmoved(states(j - 1), acts(j - 1), x);
      assert j - 1 + 1 == j;
    }
  }

  lemma QtUnmoved(s: State, a: Action, x: Thread)
    requires Can(s, a) && Pending(s, x) && !Counts(s, a, x)
    ensures Do(s, a).qt == s.qt
  {
  }

  // A thread with work that does not wait for _mutex goes on.
  lemma GoesOn(states: nat -> State, acts: nat -> Action, x: Thread, n: nat)
    requires Quiet(states, acts, x, n) && forall j: nat :: j >= n ==> Busy(states(j), x)
    ensures !Fair(states, acts)
  {
    hide Inv, Can, Do, Fair, Quiet, Pending, EnabledAfter, Enabled, Busy;
    if Fair(states, acts) {
      var m := NotEnabled(states, acts, x, n);
      forall j: nat | j >= m
        ensures Pending(states(j), x)
      {
        Still(states, acts, x, n, j);
        BusyCan(states(j), x);
        NeverAfter(states, Thr(x), m, j);
      }
      QuietLater(states, acts, x, n, m);
      QtServesOn(states, acts, x, m);
    }
  }

  lemma NeverAfter(states: nat -> State, w: Runner, m: nat, j: nat)
    requires j >= m && !EnabledAfter(states, w, m)
    ensures !Enabled(states(j), w)
  {
  }

  lemma OnceAfter(states: nat -> State, w: Runner, m: nat, j: nat)
    requires j >= m && Enabled(states(j), w)
    ensures EnabledAfter(states, w, m)
  {
    hide Enabled;
  }

  lemma QuietLater(states: nat -> State, acts: nat -> Action, x: Thread, n: nat, m: nat)
    requires Quiet(states, acts, x, n) && m >= n
    ensures Quiet(states, acts, x, m)
  {
    hide Inv, Can, Do, Counts;
    Still(states, acts, x, n, m);
  }

  ghost predicate Busy(s: State, x: Thread) {
    && s.Sized() && x < |s.pc| && (!s.pc[x].Running? || s.todo[x] > 0 || s.lang == Lang(x))
    && !s.pc[x].Asked? && !s.pc[x].Checked?
  }

  lemma BusyCan(s: State, x: Thread)
    requires Inv(s) && Busy(s, x)
    ensures Enabled(s, Thr(x)) || Pending(s, x)
  {
    hide Inv, Enabled, Pending;
    SomethingCan(s, x);
  }

  // --- the holder ---

  // In every fair run, whoever holds gLangMutex gives it up.
  lemma FairRelease(states: nat -> State, acts: nat -> Action, t: Thread, i: nat)
    requires Forever(states, acts) && Fair(states, acts) && Inv(states(i)) && states(i).lang == Lang(t)
    ensures exists j: nat :: j >= i && states(j).lang != Lang(t)
  {
    hide Fair, Inv, Can, Do;
    if forall j: nat :: j >= i ==> states(j).lang == Lang(t) {
      HolderStuck(states, acts, t, i);
      assert false;
    }
  }

  lemma HolderStuck(states: nat -> State, acts: nat -> Action, t: Thread, i: nat)
    requires Forever(states, acts) && Inv(states(i)) && forall j: nat :: j >= i ==> states(j).lang == Lang(t)
    ensures !Fair(states, acts)
  {
    hide Fair, Inv, Do, Quiet, EnabledAfter, Busy;
    HolderHeld(states, acts, t, i);
    var n := Settles(states, acts, t, i);
    RankKept(states, acts, t, i, n);
    MakeQuiet(states, acts, t, i, n);
    QuietInv(states, acts, t, n);
    if states(n).pc[t].Asked? || states(n).pc[t].Checked? {
      WaitsForApp(states, acts, t, n);
    } else {
      forall j: nat | j >= n
        ensures Busy(states(j), t)
      {
        Still(states, acts, t, n, j);
        HolderBusy(states(j), t);
      }
      GoesOn(states, acts, t, n);
    }
  }

  lemma HolderHeld(states: nat -> State, acts: nat -> Action, t: Thread, i: nat)
    requires Forever(states, acts) && Inv(states(i)) && forall j: nat :: j >= i ==> states(j).lang == Lang(t)
    ensures HeldFrom(states, acts, t, i) && t < |states(i).pc|
  {
    forall j: nat | j >= i
      ensures !(acts(j).Plan? && acts(j).t == t)
    {
      assert Can(states(j), acts(j));
    }
  }

  lemma HolderBusy(s: State, t: Thread)
    requires Inv(s) && s.lang == Lang(t) && t < |s.pc| && s.Sized() && !s.pc[t].Asked? && !s.pc[t].Checked?
    ensures Busy(s, t)
  {
  }

  lemma MakeQuiet(states: nat -> State, acts: nat -> Action, x: Thread, i: nat, n: nat)
    requires Forever(states, acts) && HeldFrom(states, acts, x, i) && i <= n && Inv(states(n)) && x < |states(n).pc|
    requires !CountsAfter(states, acts, x, n)
    ensures Quiet(states, acts, x, n)
  {
    hide Inv, CountsAfter, Forever;
  }

  // A thread that waits for _mutex gets it: its owner, which does not wait for it, goes on.
  lemma WaitsForApp(states: nat -> State, acts: nat -> Action, x: Thread, n: nat)
    requires Quiet(states, acts, x, n)
    requires states(n).Sized() && x < |states(n).pc| && (states(n).pc[x].Asked? || states(n).pc[x].Checked?)
    ensures !Fair(states, acts)
  {
    hide Inv, Fair, Quiet, Do, EnabledAfter, Enabled, Busy;
    if Fair(states, acts) {
      var m := NotEnabled(states, acts, x, n);
      QuietLater(states, acts, x, n, m);
      QuietRuns(states, acts, x, n);
      forall j: nat | j >= m
        ensures states(j).Sized() && x < |states(j).pc| && Blocked(states(j), x) && Inv(states(j))
      {
        Still(states, acts, x, n, j);
        NeverAfter(states, Thr(x), m, j);
        FreeEnables(states(j), x);
      }
      AppOwner(states(m), x);
      var u := states(m).app.thread;
      forall j: nat | j >= m
        ensures Owns(states(j), u)
      {
        OwnerStays(states, acts, x, m, j);
      }
      OwnerHeld(states, acts, x, u, m);
      var k := Settles(states, acts, u, m);
      RankKept(states, acts, u, m, k);
      MakeQuiet(states, acts, u, m, k);
      forall j: nat | j >= k
        ensures Busy(states(j), u)
      {
        OwnerBusy(states(j), u);
      }
      GoesOn(states, acts, u, k);
    }
  }

  lemma FreeEnables(s: State, x: Thread)
    requires s.Sized() && x < |s.pc| && (s.pc[x].Asked? || s.pc[x].Checked?) && !Enabled(s, Thr(x))
    ensures Blocked(s, x)
  {
    if s.app.Nobody? {
      assert Can(s, if s.pc[x].Asked? then LockCheck(x) else LockApp(x));
    }
  }

  // u owns _mutex.
  ghost predicate Owns(s: State, u: Thread) {
    Inv(s) && s.app == Lang(u) && u < |s.pc|
  }

  lemma {:induction false} OwnerStays(states: nat -> State, acts: nat -> Action, x: Thread, m: nat, j: nat)
    requires Forever(states, acts) && j >= m
    requires forall j: nat :: j >= m ==> states(j).Sized() && x < |states(j).pc| && Blocked(states(j), x) && Inv(states(j))
    ensures states(m).app.Lang? && Owns(states(j), states(m).app.thread)
    decreases j
  {
    hide Inv, Do, Blocked;
    assert Blocked(states(j), x) && Blocked(states(m), x);
    AppOwner(states(j), x);
    AppOwner(states(m), x);
    if j > m {
      OwnerStays(states, acts, x, m, j - 1);
      assert Can(states(j - 1), acts(j - 1)) && states(j - 1 + 1) == Do(states(j - 1), acts(j - 1));
      AppKept(states(j - 1), acts(j - 1));
    }
  }

  lemma OwnerHeld(states: nat -> State, acts: nat -> Action, x: Thread, u: Thread, m: nat)
    requires Quiet(states, acts, x, m) && forall j: nat :: j >= m ==> Owns(states(j), u)
    ensures HeldFrom(states, acts, u, m) && Forever(states, acts) && Inv(states(m)) && u < |states(m).pc|
  {
    hide Inv, Do, Counts;
    assert Owns(states(m), u);
    forall j: nat | j >= m
      ensures states(j).lang.Lang? && !(acts(j).Plan? && acts(j).t == u)
    {
      QuietStep(states, acts, x, m, j);
      OwnerAway(states(j), u);
    }
  }

  lemma OwnerAway(s: State, u: Thread)
    requires Owns(s, u)
    ensures s.Sized() && !s.pc[u].Running? && !s.pc[u].Asked? && !s.pc[u].Checked?
  {
    assert ThreadOK(s, u);
  }

  lemma OwnerBusy(s: State, u: Thread)
    requires Owns(s, u)
    ensures Busy(s, u)
  {
    OwnerAway(s, u);
  }

  // --- weaker fairness ---

  ghost predicate OffAfter(states: nat -> State, w: Runner, n: nat) {
    exists j: nat :: j >= n && !Enabled(states(j), w)
  }

  // A thread that can take a step from some point on without interruption takes one.
  ghost predicate WeaklyFair(states: nat -> State, acts: nat -> Action) {
    forall w: Runner, n: nat :: OffAfter(states, w, n) || StepsAfter(acts, w, n)
  }

  ghost predicate NoMoreWork(acts: nat -> Action, i: nat) {
    forall j: nat :: j >= i ==> !acts(j).Plan?
  }

  // That is enough for the holder to give gLangMutex up, once the threads are
  // given no more work.
  lemma WeakRelease(states: nat -> State, acts: nat -> Action, t: Thread, i: nat)
    requires Forever(states, acts) && WeaklyFair(states, acts) && NoMoreWork(acts, i)
    requires Inv(states(i)) && states(i).lang == Lang(t)
    ensures exists j: nat :: j >= i && states(j).lang != Lang(t)
  {
    hide WeaklyFair, Inv, Can, Do, Forever, AllQuiet, NoMoreWork, Mover, Pending, Enabled;
    if forall j: nat :: j >= i ==> states(j).lang == Lang(t) {
      HolderHeld(states, acts, t, i);
      var n := AllSettle(states, acts, t, i, |states(i).pc|);
      RankKept(states, acts, t, i, n);
      MakeAllQuiet(states, acts, t, i, n);
      MoverCan(states(n), t);
      MoverStuck(states, acts, t, Mover(states(n), t), n);
      assert false;
    }
  }

  lemma MoverStuck(states: nat -> State, acts: nat -> Action, t: Thread, x: Thread, n: nat)
    requires AllQuiet(states, acts, n) && states(n).lang == Lang(t) && x < |states(n).pc| && x == Mover(states(n), t)
    ensures !WeaklyFair(states, acts)
  {
    hide WeaklyFair, Inv, Can, Do, Forever, AllQuiet, Pending, Enabled;
    forall j: nat | j >= n
      ensures Enabled(states(j), Thr(x))
    {
      AllStill(states, acts, n, j);
      MoverCan(states(j), t);
      NothingPending(states, acts, n, x, j);
    }
    QuietOne(states, acts, n, x);
    if WeaklyFair(states, acts) {
      AlwaysSteps(states, acts, Thr(x), n);
      var j: nat :| j >= n && By(acts(j), Thr(x));
      QuietStep(states, acts, x, n, j);
      OwnCounts(states(j), acts(j), x);
      assert false;
    }
  }

  lemma AlwaysSteps(states: nat -> State, acts: nat -> Action, w: Runner, n: nat)
    requires WeaklyFair(states, acts) && forall j: nat :: j >= n ==> Enabled(states(j), w)
    ensures exists j: nat :: j >= n && By(acts(j), w)
  {
    hide Enabled;
    assert !OffAfter(states, w, n);
    assert StepsAfter(acts, w, n);
  }

  // No thread steps after n, and the Qt thread serves none.
  ghost predicate AllQuiet(states: nat -> State, acts: nat -> Action, n: nat) {
    && Forever(states, acts) && Inv(states(n)) && states(n).lang.Lang?
    && forall x: Thread :: x < |states(n).pc| ==> Quiet(states, acts, x, n)
  }

  lemma QuietBase(states: nat -> State, acts: nat -> Action, n: nat)
    requires AllQuiet(states, acts, n)
    ensures Inv(states(n)) && states(n).Sized() && states(n).lang.Lang?
  {
    hide Quiet, Forever;
  }

  lemma QuietNow(states: nat -> State, acts: nat -> Action, n: nat, j: nat)
    requires AllQuiet(states, acts, n) && j >= n
    ensures Can(states(j), acts(j)) && states(j + 1) == Do(states(j), acts(j))
    ensures forall x: Thread :: x < |states(n).pc| ==> !Counts(states(j), acts(j), x)
  {
    hide Inv, Counts, Can, Do, Quiet;
    NextState(states, acts, j);
    forall x: Thread | x < |states(n).pc|
      ensures !Counts(states(j), acts(j), x)
    {
      QuietStep(states, acts, x, n, j);
    }
  }

  // Such a step is one of the Qt thread in its event loop or in lockLang.
  lemma OnlyQt(s: State, a: Action)
    requires Inv(s) && Can(s, a) && s.lang.Lang? && forall x: Thread :: x < |s.pc| ==> !Counts(s, a, x)
    ensures ByQt(a) && Do(s, a).pc == s.pc && Do(s, a).todo == s.todo && Do(s, a).app == s.app && Do(s, a).lang == s.lang
  {
    assert !ByQt(a) ==> Counts(s, a, a.t);
    if a.QtWake? {
      assert Serves(s.qt, s.qt.thread);
      assert Pending(s, s.qt.thread) && Counts(s, a, s.qt.thread);
    }
  }

  lemma NothingPending(states: nat -> State, acts: nat -> Action, n: nat, x: Thread, j: nat)
    requires AllQuiet(states, acts, n) && j >= n && x < |states(n).pc|
    ensures !Pending(states(j), x)
  {
    hide Inv, Can, Do, Quiet, Pending;
    AllStill(states, acts, n, j);
    QuietNow(states, acts, n, j);
    OnlyQt(states(j), acts(j));
    assert !Counts(states(j), acts(j), x);
  }

  // The holder of gLangMutex, or the owner of _mutex if the holder waits for it.
  ghost function Mover(s: State, t: Thread): (x: Thread) {
    if s.Sized() && t < |s.pc| && Blocked(s, t) && s.app.Lang? then s.app.thread else t
  }

  lemma MoverCan(s: State, t: Thread)
    requires Inv(s) && s.lang == Lang(t)
    ensures Mover(s, t) < |s.pc| && (Enabled(s, Thr(Mover(s, t))) || Pending(s, Mover(s, t)))
  {
    hide Inv, Enabled, Pending, Busy;
    Sized(s);
    HolderIn(s, t);
    if Blocked(s, t) {
      AppOwner(s, t);
      OwnerBusy(s, s.app.thread);
      BusyCan(s, s.app.thread);
    } else if s.pc[t].Asked? || s.pc[t].Checked? {
      if !Enabled(s, Thr(t)) {
        FreeEnables(s, t);
      }
    } else {
      HolderBusy(s, t);
      BusyCan(s, t);
    }
  }

  lemma HolderIn(s: State, t: Thread)
    requires Inv(s) && s.lang == Lang(t)
    ensures t < |s.pc|
  {
  }

  lemma QuietOne(states: nat -> State, acts: nat -> Action, n: nat, x: Thread)
    requires AllQuiet(states, acts, n) && x < |states(n).pc|
    ensures Quiet(states, acts, x, n)
  {
    hide Quiet;
  }

  lemma {:induction false} AllSettle(states: nat -> State, acts: nat -> Action, t: Thread, i: nat, k: nat) returns (n: nat)
    requires Forever(states, acts) && NoMoreWork(acts, i) && HeldFrom(states, acts, t, i) && Inv(states(i))
    requires k <= |states(i).pc|
    ensures n >= i && forall x: Thread :: x < k ==> !CountsAfter(states, acts, x, n)
  {
    hide Forever, Inv, Counts, CountsAfter;
    n := i;
    if k > 0 {
      var m := AllSettle(states, acts, t, i, k - 1);
      assert HeldFrom(states, acts, k - 1, i);
      n := Settles(states, acts, k - 1, i);
      var top := if m > n then m else n;
      CountsLater(states, acts, k - 1, n, top);
      forall x: Thread | x < k - 1
        ensures !CountsAfter(states, acts, x, top)
      {
        CountsLater(states, acts, x, m, top);
      }
      n := top;
    }
  }

  lemma CountsLater(states: nat -> State, acts: nat -> Action, x: Thread, m: nat, n: nat)
    requires m <= n && !CountsAfter(states, acts, x, m)
    ensures !CountsAfter(states, acts, x, n)
  {
    hide Counts;
  }

  lemma MakeAllQuiet(states: nat -> State, acts: nat -> Action, t: Thread, i: nat, n: nat)
    requires Forever(states, acts) && HeldFrom(states, acts, t, i) && NoMoreWork(acts, i) && i <= n && Inv(states(n))
    requires forall x: Thread :: x < |states(n).pc| ==> !CountsAfter(states, acts, x, n)
    ensures AllQuiet(states, acts, n)
  {
    hide Inv, CountsAfter, Forever, Quiet;
    assert states(n).lang.Lang?;
    forall x: Thread | x < |states(n).pc|
      ensures Quiet(states, acts, x, n)
    {
      assert HeldFrom(states, acts, x, n);
      MakeQuiet(states, acts, x, n, n);
    }
  }

  lemma {:induction false} AllStill(states: nat -> State, acts: nat -> Action, n: nat, j: nat)
    requires AllQuiet(states, acts, n) && j >= n
    ensures Inv(states(j)) && states(j).Sized() && states(n).Sized()
    ensures states(j).pc == states(n).pc && states(j).todo == states(n).todo && states(j).app == states(n).app
    ensures states(j).lang == states(n).lang
    decreases j
  {
    hide Inv, Can, Do, Quiet, Counts;
    QuietBase(states, acts, n);
    if j > n {
      AllStill(states, acts, n, j - 1);
      QuietNow(states, acts, n, j - 1);
      OnlyQt(states(j - 1), acts(j - 1));
      StepInv(states(j - 1), acts(j - 1));
      assert j - 1 + 1 == j;
    }
  }

  // --- the Qt thread gets gLangMutex ---

  ghost function AllAhead(s: State, k: nat): nat
    requires s.Sized() && k <= |s.pc|
  {
    if k == 0 then 0 else AllAhead(s, k - 1) + Ahead(s, k - 1)
  }

  lemma {:induction false} OwnAllAhead(s: State, a: Action, k: nat)
    requires Can(s, a) && !ByQt(a) && !a.Plan? && !a.TakeLang? && !a.DropLang? && k <= |s.pc|
    ensures AllAhead(DoLang(s, a), k) <= AllAhead(s, k) - if a.t < k then 1 else 0
  {
    hide Can, DoLang, Ahead;
    CanSized(s, a);
    if k > 0 {
      OwnAllAhead(s, a, k - 1);
      if a.t == k - 1 {
        OwnAhead(s, a);
      } else {
        OtherAhead(s, a, k - 1);
      }
    }
  }

  lemma CanSized(s: State, a: Action)
    requires Can(s, a)
    ensures s.Sized() && (!ByQt(a) ==> a.t < |s.pc|)
  {
  }

  lemma {:induction false} QtAllAhead(s: State, a: Action, k: nat)
    requires Inv(s) && Can(s, a) && ByQt(a) && k <= |s.pc|
    ensures AllAhead(DoQt(s, a), k) <= AllAhead(s, k)
  {
    hide Can, DoQt, Ahead, Inv;
    CanSized(s, a);
    if k > 0 {
      QtAllAhead(s, a, k - 1);
      QtAhead(s, a, k - 1);
    }
  }

  lemma QtAhead(s: State, a: Action, t: Thread)
    requires Inv(s) && Can(s, a) && ByQt(a) && t < |s.pc|
    ensures Ahead(DoQt(s, a), t) <= Ahead(s, t)
  {
    assert ThreadOK(s, t);
  }

  lemma QtLeft(s: State, a: Action)
    requires Inv(s) && Can(s, a) && ByQt(a) && s.lang.Nobody?
    ensures a.QtTry? || (DoQt(s, a).lang.Nobody? && Left(DoQt(s, a)) < Left(s))
    ensures a.QtTry? ==> DoQt(s, a).qt.Owning?
  {
    if Occupied(s.qt) && !s.qt.Exec? {
      assert Serves(s.qt, s.qt.thread);
      assert ThreadOK(s, s.qt.thread);
    }
  }

  ghost predicate NoNewHolder(acts: nat -> Action, i: nat) {
    forall j: nat :: j >= i ==> !acts(j).Plan? && !acts(j).TakeLang?
  }

  // While gLangMutex is free every step brings the Qt thread closer to it.
  lemma {:induction false} FreeToQt(states: nat -> State, acts: nat -> Action, i: nat) returns (j: nat)
    requires Forever(states, acts) && NoNewHolder(acts, i) && Inv(states(i)) && states(i).lang.Nobody?
    ensures j >= i && states(j).qt.Owning?
    decreases AllAhead(states(i), |states(i).pc|), Left(states(i))
  {
    hide Can, DoQt, DoLang, Inv, Forever, Left, Ahead;
    var s, a := states(i), acts(i);
    NextState(states, acts, i);
    StepInv(s, a);
    CanSized(s, a);
    if a.QtTry? {
      QtLeft(s, a);
      j := i + 1;
    } else {
      StepToQt(s, a);
      j := FreeToQt(states, acts, i + 1);
    }
  }

  lemma StepToQt(s: State, a: Action)
    requires Inv(s) && Can(s, a) && s.lang.Nobody? && !a.Plan? && !a.TakeLang? && !a.QtTry? && s.Sized()
    ensures Do(s, a).lang.Nobody? && |Do(s, a).pc| == |s.pc|
    ensures AllAhead(Do(s, a), |s.pc|) < AllAhead(s, |s.pc|)
            || (AllAhead(Do(s, a), |s.pc|) == AllAhead(s, |s.pc|) && Left(Do(s, a)) < Left(s))
  {
    hide Can, DoQt, DoLang, Inv, Left, AllAhead;
    CanSized(s, a);
    if ByQt(a) {
      QtAllAhead(s, a, |s.pc|);
      QtLeft(s, a);
    } else {
      NotDropped(s, a);
      OwnAllAhead(s, a, |s.pc|);
    }
  }

  lemma NotDropped(s: State, a: Action)
    requires Can(s, a) && s.lang.Nobody? && !ByQt(a) && !a.TakeLang?
    ensures !a.DropLang? && DoLang(s, a).lang.Nobody?
  {
  }

  // In every run that is at least weakly fair the Qt thread gets gLangMutex, once no
  // language thread takes it or is given more work.
  lemma QtGetsLockAlways(states: nat -> State, acts: nat -> Action, i: nat)
    requires Forever(states, acts) && WeaklyFair(states, acts) && NoNewHolder(acts, i) && Inv(states(i))
    ensures exists j: nat :: j >= i && states(j).qt.Owning?
  {
    hide Can, Do, Inv, WeaklyFair, Forever;
    var k := i;
    if states(i).lang.Lang? {
      var t := states(i).lang.thread;
      WeakRelease(states, acts, t, i);
      k :| k >= i && states(k).lang != Lang(t);
    }
    Handed(states, acts, i, k);
    if states(k).lang.Nobody? {
      var j := FreeToQt(states, acts, k);
    } else {
      QtOwns(states(k));
    }
  }

  lemma {:induction false} Handed(states: nat -> State, acts: nat -> Action, i: nat, j: nat)
    requires Forever(states, acts) && NoNewHolder(acts, i) && Inv(states(i)) && i <= j
    ensures Inv(states(j)) && (states(j).lang.Lang? ==> states(j).lang == states(i).lang)
    decreases j
  {
    hide Can, Do, Inv, Forever;
    if i < j {
      Handed(states, acts, i, j - 1);
      NextState(states, acts, j - 1);
      StepInv(states(j - 1), acts(j - 1));
      NotTaken(states(j - 1), acts(j - 1));
      assert j - 1 + 1 == j;
    }
  }

  lemma NotTaken(s: State, a: Action)
    requires Can(s, a) && !a.TakeLang?
    ensures Do(s, a).lang.Lang? ==> Do(s, a).lang == s.lang
  {
  }

  lemma QtOwns(s: State)
    requires Inv(s) && s.lang == Qt
    ensures s.qt.Owning?
  {
  }

  // --- what fairness does not give ---

  // Thread 0 holds gLangMutex and waits for _mutex, which thread 1, without
  // gLangMutex, takes for one request after another.
  ghost function Contended(i: nat): (s: State) {
    var k := i % 6;
    State(
      [Asked, if k == 4 then Asked else if k == 5 then Checking else Running], [Free, Free],
      [false, false], [false, false], [false, false], [0, if k == 3 then 1 else 0],
      Lang(0), if k == 5 then Lang(1) else Nobody, false, [], if k == 1 then Drain else Try)
  }

  function Contending(i: nat): Action {
    match i % 6
    case 0 => QtTry
    case 1 => QtYield
    case 2 => Plan(1, 1)
    case 3 => Ask(1)
    case 4 => LockCheck(1)
    case _ => Check(1)
  }

  // Weak fairness is not enough while new requests come: _mutex is free between any
  // two of them, but never for long, and the holder of gLangMutex keeps it.
  lemma WeakNotEnough(s0: State)
    requires s0 == State([Running, Running], [Free, Free], [false, false], [false, false], [false, false], [0, 0],
                         Nobody, Nobody, false, [], Idle)
    ensures Init(s0) && Runs(s0, [TakeLang(0, 1), Ask(0), QtLockLang])
    ensures End(s0, [TakeLang(0, 1), Ask(0), QtLockLang]) == Contended(0)
    ensures Forever(Contended, Contending) && WeaklyFair(Contended, Contending)
    ensures forall i: nat :: Contended(i).lang == Lang(0)
  {
    ThreeSteps(s0, TakeLang(0, 1), Ask(0), QtLockLang);
    forall i: nat
      ensures Can(Contended(i), Contending(i)) && Contended(i + 1) == Do(Contended(i), Contending(i))
    {
      ContendedStep(i);
    }
    forall w: Runner, n: nat
      ensures OffAfter(Contended, w, n) || StepsAfter(Contending, w, n)
    {
      ContendedFair(w, n);
    }
  }

  lemma ThreeSteps(s: State, a: Action, b: Action, c: Action)
    requires Can(s, a) && Can(Do(s, a), b) && Can(Do(Do(s, a), b), c)
    ensures Runs(s, [a, b, c]) && End(s, [a, b, c]) == Do(Do(Do(s, a), b), c)
  {
    hide Can, Do;
    assert [a, b, c][1..] == [b, c] && [b, c][1..] == [c] && [c][1..] == [];
    var last := Do(Do(Do(s, a), b), c);
    assert Runs(last, []) && End(last, []) == last;
    assert Runs(Do(Do(s, a), b), [c]) && End(Do(Do(s, a), b), [c]) == last;
    assert Runs(Do(s, a), [b, c]) && End(Do(s, a), [b, c]) == last;
  }

  lemma ContendedStep(i: nat)
    ensures Can(Contended(i), Contending(i)) && Contended(i + 1) == Do(Contended(i), Contending(i))
  {
    assert (i + 1) % 6 == if i % 6 == 5 then 0 else i % 6 + 1;
  }

  lemma ContendedFair(w: Runner, n: nat)
    ensures OffAfter(Contended, w, n) || StepsAfter(Contending, w, n)
  {
    var j := 6 * n;
    assert j % 6 == 0 && (j + 2) % 6 == 2 && (j + 5) % 6 == 5;
    if w == QtRunner {
      assert By(Contending(j), w);
    } else if w.t == 1 {
      assert By(Contending(j + 2), w);
    } else {
      assert !Enabled(Contended(j + 5), w);
    }
  }

  // Thread 0 takes and gives up gLangMutex; whenever the Qt thread tries the lock, it is taken.
  ghost function Starved(i: nat): (s: State) {
    var k := i % 4;
    State([Running], [Free], [false], [false], [false], [0],
          if k == 0 then Nobody else Lang(0), Nobody, false, [], if k == 2 then Try else Drain)
  }

  function Starving(i: nat): Action {
    match i % 4
    case 0 => TakeLang(0, 0)
    case 1 => QtYield
    case 2 => QtTry
    case _ => DropLang(0)
  }

  // No fairness of threads gives the Qt thread gLangMutex: lockLang only tries for it.
  lemma QtStarves(s0: State)
    requires s0 == State([Running], [Free], [false], [false], [false], [0], Nobody, Nobody, false, [], Idle)
    ensures Init(s0) && Runs(s0, [TakeLang(0, 0), QtLockLang, QtTry, DropLang(0)])
    ensures End(s0, [TakeLang(0, 0), QtLockLang, QtTry, DropLang(0)]) == Starved(0)
    ensures Forever(Starved, Starving) && Fair(Starved, Starving)
    ensures forall i: nat :: !Starved(i).qt.Owning?
  {
    StarvedOpening(s0);
    hide Can, Do, Starved, Starving, Runs, End, FairTo;
    forall i: nat
      ensures Can(Starved(i), Starving(i)) && Starved(i + 1) == Do(Starved(i), Starving(i))
    {
      StarvedStep(i);
    }
    forall w: Runner
      ensures FairTo(Starved, Starving, w)
    {
      StarvedFair(w);
    }
  }

  lemma StarvedOpening(s0: State)
    requires s0 == State([Running], [Free], [false], [false], [false], [0], Nobody, Nobody, false, [], Idle)
    ensures Runs(s0, [TakeLang(0, 0), QtLockLang, QtTry, DropLang(0)])
    ensures End(s0, [TakeLang(0, 0), QtLockLang, QtTry, DropLang(0)]) == Starved(0)
  {
    hide Runs, End;
    var s1 := Do(s0, TakeLang(0, 0));
    ThreeSteps(s1, QtLockLang, QtTry, DropLang(0));
    RunsMore(s0, TakeLang(0, 0), [QtLockLang, QtTry, DropLang(0)]);
    assert [TakeLang(0, 0)] + [QtLockLang, QtTry, DropLang(0)] == [TakeLang(0, 0), QtLockLang, QtTry, DropLang(0)];
  }

  lemma StarvedStep(i: nat)
    ensures Can(Starved(i), Starving(i)) && Starved(i + 1) == Do(Starved(i), Starving(i))
  {
    assert (i + 1) % 4 == if i % 4 == 3 then 0 else i % 4 + 1;
  }

  lemma StarvedFair(w: Runner)
    ensures FairTo(Starved, Starving, w)
  {
    if w.Thr? && w.t != 0 {
      assert !EnabledAfter(Starved, w, 0);
    } else {
      forall n: nat
        ensures StepsAfter(Starving, w, n)
      {
        var j := 4 * n;
        assert j % 4 == 0 && (j + 1) % 4 == 1;
        assert By(Starving(if w == QtRunner then j + 1 else j), w);
      }
    }
  }
}
