/** Mutex and semaphore steps keep the invariant, and so do the events made of several steps. A step
    that leaves a retry loop, or stays in it, is first shown to keep everything except the lock it
    works on; the counts of that lock follow. */
module KernelLocks {
  import opened Lists
  import opened Kernel
  import opened KernelInv
  import opened KernelSteps

  /** Counts of semaphore l while the running process is between its decrement and its test. */
  ghost predicate TurnCounts(s: State, l: nat)
    requires SemAt(s, l)
  {
    var k := s.locks[l];
    && k.count == k.initial - k.permits - |Pending(s, l) + {s.current}|
    && 0 <= k.permits <= k.initial
  }

  ghost predicate OthersCount(s: State, l: nat) {
    forall k: nat {:trigger SemCounts(s, k)} :: SemAt(s, k) && k != l ==> SemCounts(s, k)
  }

  /** The running process is about to test lock l. */
  ghost predicate Turn(s: State, l: nat) {
    && Places(s) && ProcsOk(s) && IdleOk(s) && TreeOk(s) && WaitsOk(s) && PagesOk(s) && MutexOk(s) && OneRunning(s)
    && l < |s.locks|
    && Cur(s).task != Waiting
    && (Cur(s).lock == None || Cur(s).lock == Some(l))
    && OthersCount(s, l)
    && (SemAt(s, l) ==> TurnCounts(s, l))
    && (s.current == 0 ==> !MustSleep(s.locks[l]))
  }

  // ---- going to sleep ----

  lemma SleepPlaces(s: State, l: nat)
    requires Places(s) && OneRunning(s) && l < |s.locks|
    ensures Places(Sleep(s, l))
  {
    var t := Sleep(s, l);
    forall k ensures ListOk(t, k) {
      assert ListOk(s, k);
      if k == BlockedOn(l) { PushList(s, t, k, s.current); } else { SameList(s, t, k); }
    }
  }

  lemma SleepProcs(s: State, l: nat)
    requires ProcsOk(s) && OneRunning(s) && l < |s.locks| && Cur(s).task != Waiting
    ensures ProcsOk(Sleep(s, l))
  {
    SameProcs(s, Sleep(s, l));
  }

  lemma SleepRest(s: State, l: nat)
    requires TreeOk(s) && WaitsOk(s) && PagesOk(s) && OneRunning(s) && l < |s.locks|
    ensures var t := Sleep(s, l); TreeOk(t) && WaitsOk(t) && PagesOk(t)
  {
    var t := Sleep(s, l);
    SameTree(s, t);
    SameWaits(s, t);
    SamePages(s, t);
  }

  lemma SleepMutex(s: State, l: nat)
    requires MutexOk(s) && OneRunning(s) && l < |s.locks| && (Cur(s).lock == None || Cur(s).lock == Some(l))
    requires MustSleep(s.locks[l])
    ensures MutexOk(Sleep(s, l))
  {
    var t := Sleep(s, l);
    forall k: nat, p | p in t.procs && k in t.procs[p].held ensures MutexAt(t, k) && t.locks[k].locked {
      assert k in s.procs[p].held;
      assert k in s.procs[p].held ==> MutexAt(s, k) && s.locks[k].locked;
    }
    forall k: nat | MutexAt(t, k) && !t.locks[k].locked && t.locks[k].blocked != []
      ensures exists p :: Retrying(t, k, p) {
      var p :| Retrying(s, k, p);
      assert Retrying(t, k, p);
    }
  }

  lemma SleepSem(s: State, l: nat)
    requires OthersCount(s, l) && (SemAt(s, l) ==> TurnCounts(s, l))
    requires s.current in s.procs && l < |s.locks| && (Cur(s).lock == None || Cur(s).lock == Some(l))
    ensures SemOk(Sleep(s, l))
  {
    var t := Sleep(s, l);
    assert Pending(t, l) == Pending(s, l) + {s.current};
    forall k: nat | SemAt(t, k) ensures SemCounts(t, k) {
      if k != l {
        assert SemCounts(s, k);
        assert Pending(t, k) == Pending(s, k);
      }
    }
  }

  lemma SleepPreserves(s: State, l: nat)
    requires Turn(s, l) && MustSleep(s.locks[l])
    ensures Off(Sleep(s, l))
  {
    SleepPlaces(s, l);
    SleepProcs(s, l);
    SleepRest(s, l);
    SleepMutex(s, l);
    SleepSem(s, l);
  }

  // ---- getting through ----

  lemma AcquirePlaces(s: State, l: nat)
    requires Places(s) && OneRunning(s) && l < |s.locks|
    ensures Places(Acquire(s, l))
  {
    var t := Acquire(s, l);
    forall k ensures ListOk(t, k) {
      assert ListOk(s, k);
      SameList(s, t, k);
    }
  }

  lemma AcquireProcs(s: State, l: nat)
    requires ProcsOk(s) && OneRunning(s) && l < |s.locks| && Cur(s).task != Waiting
    ensures ProcsOk(Acquire(s, l))
  {
    SameProcs(s, Acquire(s, l));
  }

  lemma AcquireRest(s: State, l: nat)
    requires TreeOk(s) && WaitsOk(s) && PagesOk(s) && OneRunning(s) && l < |s.locks|
    ensures var t := Acquire(s, l); TreeOk(t) && WaitsOk(t) && PagesOk(t)
  {
    var t := Acquire(s, l);
    SameTree(s, t);
    SameWaits(s, t);
    SamePages(s, t);
  }

  lemma AcquireMutex(s: State, l: nat)
    requires MutexOk(s) && OneRunning(s) && l < |s.locks| && (Cur(s).lock == None || Cur(s).lock == Some(l))
    requires !MustSleep(s.locks[l])
    ensures MutexOk(Acquire(s, l))
  {
    var t := Acquire(s, l);
    forall k: nat, p | p in t.procs && k in t.procs[p].held ensures MutexAt(t, k) && t.locks[k].locked {
      assert k in s.procs[p].held || k == l;
      assert k in s.procs[p].held ==> MutexAt(s, k) && s.locks[k].locked;
    }
    forall k: nat | MutexAt(t, k) && !t.locks[k].locked && t.locks[k].blocked != []
      ensures exists p :: Retrying(t, k, p) {
      var p :| Retrying(s, k, p);
      assert Retrying(t, k, p);
    }
  }

  lemma AcquireSem(s: State, l: nat)
    requires OthersCount(s, l) && (SemAt(s, l) ==> TurnCounts(s, l))
    requires s.current in s.procs && l < |s.locks| && (Cur(s).lock == None || Cur(s).lock == Some(l))
    requires !MustSleep(s.locks[l])
    ensures SemOk(Acquire(s, l))
  {
    var t := Acquire(s, l);
    assert Pending(t, l) == (Pending(s, l) + {s.current}) - {s.current};
    forall k: nat | SemAt(t, k) ensures SemCounts(t, k) {
      if k != l {
        assert SemCounts(s, k);
        assert Pending(t, k) == Pending(s, k);
      }
    }
  }

  lemma AcquirePreserves(s: State, l: nat)
    requires Turn(s, l) && !MustSleep(s.locks[l])
    ensures Inv(Acquire(s, l))
  {
    AcquirePlaces(s, l);
    AcquireProcs(s, l);
    AcquireRest(s, l);
    AcquireMutex(s, l);
    AcquireSem(s, l);
  }

  lemma TryPreserves(s: State, l: nat)
    requires Turn(s, l)
    ensures CanTry(s, l) && Inv(Try(s, l))
  {
    if MustSleep(s.locks[l]) {
      SleepPreserves(s, l);
      SchedulePreserves(Sleep(s, l));
    } else {
      AcquirePreserves(s, l);
    }
  }

  // ---- reaching the test ----

  lemma MutexTurn(s: State, l: nat)
    requires Inv(s) && MutexAt(s, l) && Interruptible(Cur(s)) && (s.current == 0 ==> !s.locks[l].locked)
    ensures Turn(s, l)
  {}

  lemma RetryTurn(s: State)
    requires Inv(s) && Cur(s).lock.Some?
    ensures Turn(s, Cur(s).lock.value)
  {
    var l := Cur(s).lock.value;
    assert ProcOk(s, s.current);
    if SemAt(s, l) {
      assert SemCounts(s, l);
      assert Pending(s, l) + {s.current} == Pending(s, l);
    }
  }

  lemma DecrementTurn(s: State, l: nat)
    requires Inv(s) && SemAt(s, l) && Interruptible(Cur(s)) && (s.current == 0 ==> s.locks[l].count > 0)
    ensures Turn(Decrement(s, l), l)
  {
    var t := Decrement(s, l);
    SamePlaces(s, t);
    SameProcs(s, t);
    DecrementRest(s, l);
    assert SemCounts(s, l);
    assert Pending(t, l) == Pending(s, l);
    assert s.current !in Pending(t, l);
    assert |Pending(t, l) + {s.current}| == |Pending(t, l)| + 1;
  }

  lemma DecrementRest(s: State, l: nat)
    requires TreeOk(s) && WaitsOk(s) && PagesOk(s) && MutexOk(s) && SemOk(s) && SemAt(s, l)
    ensures var t := Decrement(s, l); TreeOk(t) && WaitsOk(t) && PagesOk(t) && MutexOk(t) && OthersCount(t, l)
  {
    var t := Decrement(s, l);
    SameTree(s, t);
    SameWaits(s, t);
    SamePages(s, t);
    forall k: nat, p | p in t.procs && k in t.procs[p].held ensures MutexAt(t, k) && t.locks[k].locked {
      assert k in s.procs[p].held;
      assert k in s.procs[p].held ==> MutexAt(s, k) && s.locks[k].locked;
    }
    forall k: nat | MutexAt(t, k) && !t.locks[k].locked && t.locks[k].blocked != []
      ensures exists p :: Retrying(t, k, p) {
      var p :| Retrying(s, k, p);
      assert Retrying(t, k, p);
    }
    forall k: nat | SemAt(t, k) && k != l ensures SemCounts(t, k) {
      assert SemCounts(s, k);
      assert Pending(t, k) == Pending(s, k);
    }
  }

  // ---- waking one sleeper ----

  lemma WakePlaces(s: State, l: nat)
    requires Places(s) && l < |s.locks|
    ensures Places(WakeFront(s, l))
  {
    var t := WakeFront(s, l);
    var q := s.locks[l].blocked;
    assert ListOk(s, BlockedOn(l));
    if q != [] {
      assert Belongs(s, BlockedOn(l), q[0]);
      forall k ensures ListOk(t, k) {
        assert ListOk(s, k);
        if k == BlockedOn(l) { PopList(s, t, k); }
        else if k == ReadyQueue { PushList(s, t, k, q[0]); }
        else { SameList(s, t, k); }
      }
    }
  }

  lemma WakeProcs(s: State, l: nat)
    requires ProcsOk(s) && l < |s.locks| && ListOk(s, BlockedOn(l))
    ensures ProcsOk(WakeFront(s, l))
  {
    var q := s.locks[l].blocked;
    if q != [] {
      assert Belongs(s, BlockedOn(l), q[0]);
      assert ProcOk(s, q[0]);
    }
    SameProcs(s, WakeFront(s, l));
  }

  lemma WakeRest(s: State, l: nat)
    requires TreeOk(s) && WaitsOk(s) && PagesOk(s) && l < |s.locks| && ListOk(s, BlockedOn(l)) && ListOk(s, Waiters)
    ensures var t := WakeFront(s, l); TreeOk(t) && WaitsOk(t) && PagesOk(t)
  {
    var t := WakeFront(s, l);
    var q := s.locks[l].blocked;
    if q != [] {
      assert Belongs(s, BlockedOn(l), q[0]);
    }
    SameTree(s, t);
    SameWaits(s, t);
    SamePages(s, t);
  }

  /** A mutex is left unlocked with sleepers only if one was just woken. */
  lemma UnlockMutex(s: State, l: nat)
    requires MutexOk(s) && MutexAt(s, l) && s.current in s.procs && l in Cur(s).held && Cur(s).lock == None
    requires ListOk(s, BlockedOn(l))
    ensures MutexOk(Unlock(s, l))
  {
    var t := Unlock(s, l);
    var q := s.locks[l].blocked;
    if q != [] {
      assert Belongs(s, BlockedOn(l), q[0]);
      assert Retrying(t, l, q[0]);
    }
    forall k: nat, p | p in t.procs && k in t.procs[p].held ensures MutexAt(t, k) && t.locks[k].locked {
      assert k in s.procs[p].held && k != l;
      assert k in s.procs[p].held ==> MutexAt(s, k) && s.locks[k].locked;
    }
    forall k: nat | MutexAt(t, k) && !t.locks[k].locked && t.locks[k].blocked != []
      ensures exists p :: Retrying(t, k, p) {
      if k != l {
        var p :| Retrying(s, k, p);
        assert Retrying(t, k, p);
      }
    }
  }

  lemma UnlockSem(s: State, l: nat)
    requires SemOk(s) && MutexAt(s, l) && s.current in s.procs
    ensures SemOk(Unlock(s, l))
  {
    var t := Unlock(s, l);
    forall k: nat | SemAt(t, k) ensures SemCounts(t, k) {
      assert SemCounts(s, k);
      assert Pending(t, k) == Pending(s, k);
    }
  }

  lemma SignalMutex(s: State, l: nat)
    requires MutexOk(s) && SemAt(s, l) && ListOk(s, BlockedOn(l))
    ensures MutexOk(Signal(s, l))
  {
    var t := Signal(s, l);
    var q := s.locks[l].blocked;
    if q != [] {
      assert Belongs(s, BlockedOn(l), q[0]);
    }
    forall k: nat, p | p in t.procs && k in t.procs[p].held ensures MutexAt(t, k) && t.locks[k].locked {
      assert k in s.procs[p].held;
      assert k in s.procs[p].held ==> MutexAt(s, k) && s.locks[k].locked;
    }
    forall k: nat | MutexAt(t, k) && !t.locks[k].locked && t.locks[k].blocked != []
      ensures exists p :: Retrying(t, k, p) {
      var p :| Retrying(s, k, p);
      assert Retrying(t, k, p);
    }
  }

  lemma SignalSem(s: State, l: nat)
    requires SemOk(s) && SemAt(s, l) && s.locks[l].permits > 0
    ensures SemOk(Signal(s, l))
  {
    var t := Signal(s, l);
    forall k: nat | SemAt(t, k) ensures SemCounts(t, k) {
      assert SemCounts(s, k);
      assert Pending(t, k) == Pending(s, k);
    }
  }

  lemma UnlockPreserves(s: State, l: nat)
    requires Inv(s) && MutexAt(s, l) && Interruptible(Cur(s)) && l in Cur(s).held
    ensures Inv(Unlock(s, l))
  {
    var u := SetLock(SetCurrent(s, Cur(s).(held := Cur(s).held - {l})), l, s.locks[l].(locked := false));
    SamePlaces(s, u);
    ReleaseFrame(s, u, l);
    assert ListOk(s, BlockedOn(l));
    UnlockMutex(s, l);
    UnlockSem(s, l);
  }

  lemma SignalPreserves(s: State, l: nat)
    requires Inv(s) && SemAt(s, l) && Interruptible(Cur(s)) && s.locks[l].permits > 0
    ensures Inv(Signal(s, l))
  {
    var u := SetLock(s, l, s.locks[l].(count := s.locks[l].count + 1, permits := s.locks[l].permits - 1));
    SamePlaces(s, u);
    ReleaseFrame(s, u, l);
    assert ListOk(s, BlockedOn(l));
    SignalMutex(s, l);
    SignalSem(s, l);
  }

  lemma HeldFrame(s: State, u: State)
    requires ProcsOk(s) && TreeOk(s) && WaitsOk(s) && PagesOk(s) && s.current in s.procs && s.current in u.procs
    requires u == s.(locks := u.locks, procs := s.procs[s.current := Cur(s).(held := u.procs[s.current].held)])
    requires |u.locks| == |s.locks|
    ensures ProcsOk(u) && TreeOk(u) && WaitsOk(u) && PagesOk(u)
  {
    SameProcs(s, u);
    SameTree(s, u);
    SameWaits(s, u);
    SamePages(s, u);
  }

  lemma ReleaseFrame(s: State, u: State, l: nat)
    requires ProcsOk(s) && IdleOk(s) && TreeOk(s) && WaitsOk(s) && PagesOk(s) && OneRunning(s)
    requires Places(u) && l < |u.locks| && s.current in u.procs
    requires u == s.(locks := u.locks, procs := s.procs[s.current := Cur(s).(held := u.procs[s.current].held)])
    requires |u.locks| == |s.locks|
    ensures var t := WakeFront(u, l);
            Places(t) && ProcsOk(t) && IdleOk(t) && TreeOk(t) && WaitsOk(t) && PagesOk(t) && OneRunning(t)
  {
    HeldFrame(s, u);
    assert ListOk(u, BlockedOn(l)) && ListOk(u, Waiters);
    WakePlaces(u, l);
    WakeProcs(u, l);
    WakeRest(u, l);
    var q := u.locks[l].blocked;
    if q != [] {
      assert Belongs(u, BlockedOn(l), q[0]);
    }
  }

  // ---- every step ----

  lemma WaitpidPreserves(s: State, pid: int, options: int)
    requires Inv(s) && Enabled(s, Waitpid(pid, options))
    ensures Safe(s, Waitpid(pid, options)) && Inv(Step(s, Waitpid(pid, options)))
  {
    if options != 0 && options != WNOHANG {
      SetRet(s, WaitEnter(s, pid, options), -1);
    } else if FindChild(s, s.zombies, s.current, pid).Some? {
      TakePreserves(s, FindChild(s, s.zombies, s.current, pid).value, pid);
    } else if FindChild(s, s.processList, s.current, pid) == None {
      SetRet(s, WaitEnter(s, pid, options), -1);
    } else if options == WNOHANG {
      SetRet(s, WaitEnter(s, pid, options), 0);
    } else {
      WaitSleepPreserves(s, pid, options);
      SchedulePreserves(WaitEnter(s, pid, options));
    }
  }

  lemma ExitPreserves(s: State, code: int)
    requires Inv(s) && Enabled(s, Exit(code))
    ensures Safe(s, Exit(code)) && Inv(Step(s, Exit(code)))
  {
    var d := Die(s, code);
    match FindWaiter(d, d.waiters, d.current)
    case Some(w) => HandOverPreserves(s, code, w);
    case None =>
      BuryPreserves(s, code);
      SchedulePreserves(Bury(d));
  }

  lemma TryLockPreserves(s: State, l: nat)
    requires Inv(s) && Enabled(s, MutexTryLock(l))
    ensures Inv(Step(s, MutexTryLock(l)))
  {
    if s.locks[l].locked {
      SetRet(s, SetCurrent(s, Cur(s).(ret := 0)), 0);
    } else {
      var s1 := SetCurrent(s, Cur(s).(ret := 1));
      SetRet(s, s1, 1);
      MutexTurn(s1, l);
      AcquirePreserves(s1, l);
    }
  }

  lemma TryWaitPreserves(s: State, l: nat)
    requires Inv(s) && Enabled(s, SemTryWait(l))
    ensures Inv(Step(s, SemTryWait(l)))
  {
    if s.locks[l].count <= 0 {
      SetRet(s, SetCurrent(s, Cur(s).(ret := 0)), 0);
    } else {
      var s1 := SetCurrent(s, Cur(s).(ret := 1));
      SetRet(s, s1, 1);
      DecrementTurn(s1, l);
      AcquirePreserves(Decrement(s1, l), l);
    }
  }

  lemma ForkStepPreserves(s: State, e: Event)
    requires Inv(s) && Enabled(s, e)
    requires e.ForkSetParent? || e.ForkFail? || e.ForkDone? || e.Reap?
    ensures Safe(s, e) && Inv(Step(s, e))
  {
    match e
    case ForkSetParent => SetParentPreserves(s);
    case ForkFail => ReleasePreserves(s, Cur(s).task.child, -1);
    case ForkDone => CompletePreserves(s);
    case Reap => ReleasePreserves(s, Cur(s).task.zombie, Cur(s).task.zombie);
  }
}
