/** Mutexes and semaphores, over whole runs of the kernel. */
module KernelSync {
  import opened Lists
  import opened Kernel
  import opened KernelInv
  import opened KernelEvents
  import opened KernelRuns

  /** At most one process has locked a mutex and not unlocked it, and the mutex is then marked locked. */
  lemma MutualExclusion(s: State, l: nat, p: Pid, q: Pid)
    requires Reachable(s) && p in s.procs && l in s.procs[p].held
    ensures MutexAt(s, l) && s.locks[l].locked
    ensures q in s.procs && l in s.procs[q].held ==> p == q
    ensures Enabled(s, MutexTryLock(l)) ==> Step(s, MutexTryLock(l)) == SetCurrent(s, Cur(s).(ret := 0))
  {
    ReachableInv(s);
  }

  /** Sleepers on a mutex are never forgotten: it is locked, or one that was woken has yet to retry. */
  lemma NoLostWakeup(s: State, l: nat)
    requires Reachable(s) && MutexAt(s, l) && s.locks[l].blocked != []
    ensures s.locks[l].locked || exists p :: Retrying(s, l, p) && (p == s.current || p in s.ready)
  {
    ReachableInv(s);
    if !s.locks[l].locked {
      var p :| Retrying(s, l, p);
      assert ProcOk(s, p);
      ReadLists(s, p);
    }
  }

  /** A semaphore's count is its initial value less the permits held and the processes not yet through. */
  lemma SemaphoreAccounting(s: State, l: nat)
    requires Reachable(s) && SemAt(s, l)
    ensures var k := s.locks[l];
            && k.count == k.initial - k.permits - |Pending(s, l)|
            && 0 <= k.permits <= k.initial
            && forall p :: p in k.blocked ==> p in Pending(s, l)
  {
    ReachableInv(s);
    assert SemCounts(s, l);
    forall p | p in s.locks[l].blocked ensures p in Pending(s, l) {
      ReadLists(s, p);
    }
  }

  /** A process that tests a semaphore again gets through exactly when the permits held and all the
      processes waiting, itself among them, fit in the initial value. */
  lemma RetryGetsThrough(s: State, l: nat)
    requires Reachable(s) && s.current in s.procs && Cur(s).lock == Some(l) && SemAt(s, l)
    ensures Safe(s, Retry)
    ensures var t := Step(s, Retry);
            var through := s.locks[l].permits + |Pending(s, l)| <= s.locks[l].initial;
            && (through ==>
                  t.current == s.current && Cur(t).lock == None && t.locks[l].permits == s.locks[l].permits + 1)
            && (!through ==> s.current in t.locks[l].blocked && t.locks[l].permits == s.locks[l].permits)
  {
    ReachableInv(s);
    StepPreserves(s, Retry);
    assert SemCounts(s, l);
  }

  /** A signal lets the sleeper it wakes get through at once exactly when the count was at least -1:
      with the permit it returns, all who wait must fit. */
  lemma SignalServesSleeper(s: State, l: nat)
    requires Reachable(s) && Enabled(s, SemSignal(l)) && s.locks[l].blocked != []
    ensures var t := Step(s, SemSignal(l));
            var w := s.locks[l].blocked[0];
            && w in t.ready && w !in t.locks[l].blocked
            && (!MustSleep(t.locks[l]) <==> s.locks[l].count >= -1)
            && (s.locks[l].count >= -1 <==> s.locks[l].permits + |Pending(s, l)| <= s.locks[l].initial + 1)
  {
    ReachableInv(s);
    assert SemCounts(s, l);
    var w := s.locks[l].blocked[0];
    ReadLists(s, w);
    StepPreserves(s, SemSignal(l));
    ReadLists(Step(s, SemSignal(l)), w);
  }

  /** Every permit is free, yet the count is negative and all who wait are asleep. */
  ghost predicate Stranded(s: State, l: nat) {
    && SemAt(s, l) && s.locks[l].permits == 0 && s.locks[l].count < 0
    && forall p :: p in Pending(s, l) ==> p in s.locks[l].blocked
  }

  /** The running process is not asleep on l and grips nobody who is. */
  ghost predicate Clear(s: State, l: nat) {
    && l < |s.locks| && s.current in s.procs && s.current !in Pending(s, l) && s.nextPid !in s.procs
    && (Grip(Cur(s)).Some? ==> Grip(Cur(s)).value !in Pending(s, l))
  }

  lemma IsClear(s: State, l: nat)
    requires Inv(s) && Stranded(s, l)
    ensures Clear(s, l)
  {
    ReadLists(s, s.current);
    assert ProcOk(s, s.current);
    assert s.nextPid in s.procs ==> ProcOk(s, s.nextPid);
    assert Grip(Cur(s)).Some? ==> ProcOk(s, Grip(Cur(s)).value);
  }

  /** Stranded before, stranded after, with at least the same processes waiting. */
  ghost predicate Keeps(s: State, t: State, l: nat) {
    Stranded(t, l) && Pending(s, l) <= Pending(t, l)
  }

  lemma ScheduleKeeps(s: State, l: nat)
    requires Stranded(s, l) && CanSchedule(s)
    ensures Keeps(s, Schedule(s), l)
  {
    assert Pending(Schedule(s), l) == Pending(s, l);
  }

  lemma SleepKeeps(s: State, k: nat, l: nat)
    requires Stranded(s, l) && s.current in s.procs && s.current !in Pending(s, l) && k < |s.locks|
    ensures Keeps(s, Sleep(s, k), l)
  {
    var t := Sleep(s, k);
    assert forall p :: p in Pending(t, l) ==> p in Pending(s, l) || (p == s.current && k == l);
  }

  lemma AcquireKeeps(s: State, k: nat, l: nat)
    requires Stranded(s, l) && s.current in s.procs && s.current !in Pending(s, l) && k < |s.locks| && k != l
    ensures Keeps(s, Acquire(s, k), l)
  {
    assert Pending(Acquire(s, k), l) == Pending(s, l);
  }

  lemma WakeKeeps(s: State, k: nat, l: nat)
    requires Stranded(s, l) && k < |s.locks| && k != l
    ensures Keeps(s, WakeFront(s, k), l)
  {
    assert Pending(WakeFront(s, k), l) == Pending(s, l);
  }

  lemma TryKeeps(s: State, k: nat, l: nat)
    requires Stranded(s, l) && CanTry(s, k) && s.current !in Pending(s, l)
    ensures Keeps(s, Try(s, k), l)
  {
    if MustSleep(s.locks[k]) {
      SleepKeeps(s, k, l);
      ScheduleKeeps(Sleep(s, k), l);
    } else {
      AcquireKeeps(s, k, l);
    }
  }

  /** Lock l and those inside it are untouched. */
  lemma FrameKeeps(s: State, t: State, l: nat)
    requires Stranded(s, l) && SemAt(t, l)
    requires t.locks[l] == s.locks[l].(count := t.locks[l].count) && t.locks[l].count <= s.locks[l].count
    requires forall p :: p in Pending(t, l) <==> p in Pending(s, l)
    ensures Keeps(s, t, l)
  {}

  lemma LockStepKeeps(s: State, e: Event, l: nat)
    requires Stranded(s, l) && Enabled(s, e) && Safe(s, e) && Clear(s, l)
    requires OnLock(e)
    ensures Keeps(s, Step(s, e), l)
  {
    match e
    case MutexLock(k) => TryKeeps(s, k, l);
    case MutexTryLock(k) =>
      if s.locks[k].locked {
        FrameKeeps(s, Step(s, e), l);
      } else {
        var u := SetCurrent(s, Cur(s).(ret := 1));
        FrameKeeps(s, u, l);
        AcquireKeeps(u, k, l);
      }
    case MutexUnlock(k) =>
      var u := SetLock(SetCurrent(s, Cur(s).(held := Cur(s).held - {k})), k, s.locks[k].(locked := false));
      FrameKeeps(s, u, l);
      WakeKeeps(u, k, l);
    case SemWait(k) =>
      var u := Decrement(s, k);
      FrameKeeps(s, u, l);
      TryKeeps(u, k, l);
    case SemTryWait(k) =>
      if s.locks[k].count <= 0 {
        FrameKeeps(s, Step(s, e), l);
      } else {
        var u := Decrement(SetCurrent(s, Cur(s).(ret := 1)), k);
        FrameKeeps(s, u, l);
        AcquireKeeps(u, k, l);
      }
    case SemSignal(k) =>
      var u := SetLock(s, k, s.locks[k].(count := s.locks[k].count + 1, permits := s.locks[k].permits - 1));
      FrameKeeps(s, u, l);
      WakeKeeps(u, k, l);
    case Retry => TryKeeps(s, Cur(s).lock.value, l);
  }

  lemma ProcStepKeeps(s: State, e: Event, l: nat)
    requires Stranded(s, l) && Enabled(s, e) && Safe(s, e) && Clear(s, l)
    requires e.ForkBegin? || e.ForkCreate? || e.ForkSetParent? || e.ForkFail? || e.ForkDone? || e.Reap? || e.WaitResume?
    ensures Keeps(s, Step(s, e), l)
  {
    FrameKeeps(s, Step(s, e), l);
  }

  lemma ExitKeeps(s: State, code: int, l: nat)
    requires Stranded(s, l) && Enabled(s, Exit(code)) && Safe(s, Exit(code)) && Clear(s, l)
    ensures Keeps(s, Step(s, Exit(code)), l)
  {
    var d := Die(s, code);
    FrameKeeps(s, d, l);
    if FindWaiter(d, d.waiters, d.current) == None {
      FrameKeeps(s, Bury(d), l);
      ScheduleKeeps(Bury(d), l);
    } else {
      FrameKeeps(d, Step(s, Exit(code)), l);
    }
  }

  lemma StrandedStep(s: State, e: Event, l: nat)
    requires Stranded(s, l) && Enabled(s, e) && Safe(s, e) && Clear(s, l)
    ensures Keeps(s, Step(s, e), l)
  {
    match e
    case Tick =>
      FrameKeeps(s, Yield(s), l);
      ScheduleKeeps(Yield(s), l);
    case Waitpid(pid, options) =>
      var u := WaitEnter(s, pid, options);
      FrameKeeps(s, u, l);
      if WaitSleeps(s, pid, options) {
        ScheduleKeeps(u, l);
      }
    case Exit(code) =>
      ExitKeeps(s, code, l);
    case _ =>
      if e.ForkBegin? || e.ForkCreate? || e.ForkSetParent? || e.ForkFail? || e.ForkDone? || e.Reap? || e.WaitResume? {
        ProcStepKeeps(s, e, l);
      } else {
        LockStepKeeps(s, e, l);
      }
  }

  /** A stranded semaphore stays so: nobody gets a permit of it again, and whoever waits for one never runs again. */
  lemma {:induction false} StrandedForever(tr: seq<State>, es: seq<Event>, i: nat, j: nat, l: nat)
    requires Run(tr, es) && i <= j <= |es| && Stranded(tr[i], l)
    ensures Stranded(tr[j], l) && Pending(tr[i], l) <= Pending(tr[j], l)
    ensures tr[j].current !in Pending(tr[j], l)
  {
    if i < j {
      StrandedForever(tr, es, i, j - 1, l);
      assert Next(tr[j - 1], es[j - 1], tr[j]);
      assert Clear(tr[j - 1], l) by {
        RunInv(tr, es, j - 1);
        IsClear(tr[j - 1], l);
      }
      StrandedStep(tr[j - 1], es[j - 1], l);
    }
    assert Clear(tr[j], l) by {
      RunInv(tr, es, j);
      IsClear(tr[j], l);
    }
  }
}
