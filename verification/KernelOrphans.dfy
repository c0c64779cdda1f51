/** Zombies and the parents that sleep in sys_waitpid, over whole runs: who can overlook whom. */
module KernelOrphans {
  import opened Lists
  import opened Kernel
  import opened KernelInv
  import opened KernelEvents
  import opened KernelRuns

  /** w sleeps in sys_waitpid although an unclaimed zombie would end its wait. */
  ghost predicate Overlooks(s: State, w: Pid, z: Pid) {
    && w in s.waiters && w in s.procs && z in s.zombies && z in s.procs
    && s.procs[z].ppid == w && Matches(s.procs[w].waitPid, z)
  }

  ghost predicate OnlyInitOverlooks(s: State) {
    forall w, z {:trigger Overlooks(s, w, z)} :: Overlooks(s, w, z) ==> w == 1
  }

  /** Every zombie overlooked now was overlooked before. */
  ghost predicate NoNewOverlooked(s: State, t: State) {
    forall w, z {:trigger Overlooks(t, w, z)} :: Overlooks(t, w, z) ==> Overlooks(s, w, z)
  }

  lemma LocksOverlookNone(s: State, e: Event)
    requires Enabled(s, e) && Safe(s, e)
    requires OnLock(e)
    ensures NoNewOverlooked(s, Step(s, e))
  {
    assert Step(s, e).waiters == s.waiters && Step(s, e).zombies == s.zombies;
  }

  /** A process under construction is no zombie. */
  lemma BuiltIsNoZombie(s: State)
    requires Inv(s)
    ensures s.current in s.procs && s.nextPid !in s.zombies && s.nextPid !in s.waiters
    ensures Cur(s).task.ForkCreated? ==> Cur(s).task.child !in s.zombies
  {
    assert ProcOk(s, s.current);
    assert s.nextPid in s.procs ==> ProcOk(s, s.nextPid);
    ReadLists(s, s.nextPid);
    if Cur(s).task.ForkCreated? {
      ReadLists(s, Cur(s).task.child);
    }
  }

  lemma ForkOverlooksNone(s: State, e: Event)
    requires Enabled(s, e) && Safe(s, e) && s.nextPid !in s.zombies && s.nextPid !in s.waiters
    requires e.ForkBegin? || e.ForkCreate? || e.ForkSetParent? || e.ForkFail? || e.ForkDone?
    requires Cur(s).task.ForkCreated? ==> Cur(s).task.child !in s.zombies
    ensures NoNewOverlooked(s, Step(s, e))
  {}

  lemma ReapOverlooksNone(s: State, e: Event)
    requires Inv(s) && Enabled(s, e) && Safe(s, e)
    requires e.Tick? || e.WaitResume? || e.Reap?
    ensures NoNewOverlooked(s, Step(s, e))
  {}

  /** Who goes to sleep has looked through the zombies. */
  lemma WaitOverlooksNone(s: State, pid: int, options: int)
    requires Enabled(s, Waitpid(pid, options)) && Safe(s, Waitpid(pid, options)) && s.current !in s.waiters
    ensures NoNewOverlooked(s, Step(s, Waitpid(pid, options)))
  {
    var u := WaitEnter(s, pid, options);
    assert NoNewOverlooked(s, u);
    if WaitSleeps(s, pid, options) {
      ScheduleOverlooksNone(u);
    }
  }

  /** What a death itself can change: the children pass to PID 1. */
  lemma DyingOverlooks(s: State, code: int, w: Pid, z: Pid)
    requires s.current in s.procs && Overlooks(Die(s, code), w, z) && !Overlooks(s, w, z)
    ensures w == 1 && 1 in s.waiters && 1 in s.procs && Matches(s.procs[1].waitPid, z)
    ensures z in s.zombies && z in s.procs && s.procs[z].ppid == s.current
  {}

  /** Who dies without a waiter has looked through the waiters. */
  lemma DeadOverlooksNone(s: State, code: int)
    requires Enabled(s, Exit(code)) && Safe(s, Exit(code))
    ensures NoNewOverlooked(Die(s, code), Step(s, Exit(code)))
  {
    var d := Die(s, code);
    match FindWaiter(d, d.waiters, d.current)
    case Some(w) => HandOverOverlooksNone(d, w);
    case None => BuryOverlooksNone(d);
  }

  lemma HandOverOverlooksNone(d: State, w: Pid)
    requires d.current in d.procs && w in d.procs
    ensures NoNewOverlooked(d, HandOver(d, w))
  {}

  lemma BuryOverlooksNone(d: State)
    requires d.current in d.procs && FindWaiter(d, d.waiters, d.current) == None && CanSchedule(Bury(d))
    ensures NoNewOverlooked(d, Schedule(Bury(d)))
  {
    assert NoNewOverlooked(d, Bury(d));
    ScheduleOverlooksNone(Bury(d));
  }

  lemma ScheduleOverlooksNone(d: State)
    requires CanSchedule(d)
    ensures NoNewOverlooked(d, Schedule(d))
  {}

  /** No step but an exit lets anybody overlook a zombie. */
  lemma StepOverlooksNone(s: State, e: Event)
    requires Inv(s) && Enabled(s, e) && Safe(s, e) && !e.Exit?
    ensures NoNewOverlooked(s, Step(s, e))
  {
    match e
    case Waitpid(pid, options) =>
      ReadLists(s, s.current);
      WaitOverlooksNone(s, pid, options);
    case Tick => ReapOverlooksNone(s, e);
    case WaitResume => ReapOverlooksNone(s, e);
    case Reap => ReapOverlooksNone(s, e);
    case _ => OtherOverlooksNone(s, e);
  }

  lemma OtherOverlooksNone(s: State, e: Event)
    requires Inv(s) && Enabled(s, e) && Safe(s, e)
    requires !(e.Tick? || e.WaitResume? || e.Reap? || e.Waitpid? || e.Exit?)
    ensures NoNewOverlooked(s, Step(s, e))
  {
    if e.ForkBegin? || e.ForkCreate? || e.ForkSetParent? || e.ForkFail? || e.ForkDone? {
      BuiltIsNoZombie(s);
      ForkOverlooksNone(s, e);
    } else {
      LocksOverlookNone(s, e);
    }
  }

  // ---- exactly when ----

  /** The running process exits, is not PID 1's child, and leaves an unclaimed zombie child that
      matches what PID 1 sleeps for. */
  ghost predicate LeavesOrphan(s: State, e: Event, z: Pid) {
    && e.Exit? && s.current in s.procs && Cur(s).ppid != 1
    && 1 in s.waiters && 1 in s.procs && Matches(s.procs[1].waitPid, z)
    && z in s.zombies && z in s.procs && s.procs[z].ppid == s.current
  }

  /** If PID 1 sleeps on, the dying process was not its child: a wait for any child would have ended,
      and a wait for the zombie itself could not have begun while it was another's child. */
  lemma DyingIsNoChild(s: State, code: int, z: Pid)
    requires Inv(s) && Enabled(s, Exit(code)) && Safe(s, Exit(code)) && Overlooks(Step(s, Exit(code)), 1, z)
    requires z in s.zombies && z in s.procs && s.procs[z].ppid == s.current && Matches(s.procs[1].waitPid, z)
    requires 1 in s.waiters && 1 in s.procs
    ensures Cur(s).ppid != 1
  {
    ReadLists(s, 1);
    ReadLists(s, z);
    if Cur(s).ppid == 1 {
      var c :| Awaited(s, 1, c);
      assert c != z;
      assert s.procs[1].waitPid == -1;
      HandedToInit(s, code);
      assert false;
    }
  }

  lemma HandedToInit(s: State, code: int)
    requires Inv(s) && Enabled(s, Exit(code)) && Safe(s, Exit(code)) && 1 in s.waiters && 1 in s.procs
    requires Cur(s).ppid == 1 && s.procs[1].waitPid == -1 && s.current != 1
    ensures 1 !in Step(s, Exit(code)).waiters
  {
    var d := Die(s, code);
    assert ListOk(s, Waiters);
    assert d.procs[d.current].ppid == 1 && d.procs[1].waitPid == -1 && d.waiters == s.waiters;
    assert FindWaiter(d, d.waiters, d.current) == Some(1);
    RemoveNoDup(s.waiters, 1);
  }

  lemma ExitOverlooks(s: State, code: int, w: Pid, z: Pid)
    requires Inv(s) && Enabled(s, Exit(code)) && Safe(s, Exit(code))
    requires Overlooks(Step(s, Exit(code)), w, z) && !Overlooks(s, w, z)
    ensures w == 1 && LeavesOrphan(s, Exit(code), z)
  {
    DeadOverlooksNone(s, code);
    assert Overlooks(Die(s, code), w, z);
    DyingOverlooks(s, code, w, z);
    DyingIsNoChild(s, code, z);
  }

  lemma DyingOrphans(s: State, code: int, z: Pid)
    requires s.current in s.procs && s.current != 1 && 1 in s.waiters && 1 in s.procs && z != s.current
    requires z in s.zombies && z in s.procs && s.procs[z].ppid == s.current && Matches(s.procs[1].waitPid, z)
    ensures Overlooks(Die(s, code), 1, z)
  {}

  lemma StillOverlooked(d: State, z: Pid, w: Pid)
    requires Overlooks(d, 1, z) && d.current in d.procs && d.current != z && d.current != 1
    ensures w in d.procs && w != 1 ==> Overlooks(HandOver(d, w), 1, z)
    ensures CanSchedule(Bury(d)) ==> Overlooks(Schedule(Bury(d)), 1, z)
  {}

  lemma SleeperAndZombie(s: State, z: Pid)
    requires Inv(s) && s.current != 0 && 1 in s.waiters && z in s.zombies
    ensures s.current != 1 && s.current != z && s.current in s.procs && Cur(s).ppid != s.current
  {
    assert ProcOk(s, s.current) && ParentLives(s, s.current);
    ReadLists(s, 1);
    ReadLists(s, z);
  }

  lemma OrphanIsOverlooked(s: State, code: int, z: Pid)
    requires Inv(s) && Enabled(s, Exit(code)) && Safe(s, Exit(code)) && LeavesOrphan(s, Exit(code), z)
    ensures Overlooks(Step(s, Exit(code)), 1, z) && !Overlooks(s, 1, z)
  {
    SleeperAndZombie(s, z);
    DyingOrphans(s, code, z);
    StillOverlooked(Die(s, code), z, Cur(s).ppid);
  }

  /** A step makes a sleeper overlook a zombie exactly when the sleeper is PID 1 and the step is the
      exit of a process that is not its child and leaves it that zombie. */
  lemma OverlooksExactly(s: State, e: Event, w: Pid, z: Pid)
    requires Reachable(s) && Enabled(s, e)
    ensures Safe(s, e)
    ensures Overlooks(Step(s, e), w, z) && !Overlooks(s, w, z) <==> w == 1 && LeavesOrphan(s, e, z)
  {
    ReachableInv(s);
    StepPreserves(s, e);
    OverlooksNewly(s, e, w, z);
  }

  lemma OverlooksNewly(s: State, e: Event, w: Pid, z: Pid)
    requires Inv(s) && Enabled(s, e) && Safe(s, e)
    ensures Overlooks(Step(s, e), w, z) && !Overlooks(s, w, z) <==> w == 1 && LeavesOrphan(s, e, z)
  {
    if !e.Exit? {
      StepOverlooksNone(s, e);
    } else {
      if Overlooks(Step(s, e), w, z) && !Overlooks(s, w, z) {
        ExitOverlooks(s, e.code, w, z);
      }
      if w == 1 && LeavesOrphan(s, e, z) {
        OrphanIsOverlooked(s, e.code, z);
      }
    }
  }

  /** Over any run, only PID 1 ever sleeps in sys_waitpid beside a zombie that would end its wait. */
  lemma {:induction false} RunOverlooksNone(tr: seq<State>, es: seq<Event>, i: nat)
    requires Run(tr, es) && i <= |es|
    ensures OnlyInitOverlooks(tr[i])
  {
    if i > 0 {
      RunOverlooksNone(tr, es, i - 1);
      assert Next(tr[i - 1], es[i - 1], tr[i]);
      RunInv(tr, es, i - 1);
      forall w, z | Overlooks(tr[i], w, z) ensures w == 1 {
        OverlooksNewly(tr[i - 1], es[i - 1], w, z);
      }
    }
  }

  /** The next sys_waitpid call of a zombie's parent finds a zombie. */
  lemma NextWaitFinds(s: State, pid: int, options: int, z: Pid)
    requires Reachable(s) && Enabled(s, Waitpid(pid, options)) && (options == 0 || options == WNOHANG)
    requires z in s.zombies && IsChild(s, z, s.current, pid)
    ensures !WaitSleeps(s, pid, options) && Step(s, Waitpid(pid, options)).procs[s.current].task.Reaping?
  {
    ReachableInv(s);
    ReadLists(s, s.current);
  }
}
