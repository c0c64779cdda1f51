/** What holds over whole runs of the kernel. */
module KernelRuns {
  import opened Lists
  import opened PageMap
  import opened Kernel
  import opened KernelInv
  import opened KernelSteps
  import opened KernelLocks
  import opened KernelEvents

  /** After boot: PID 0 runs in block 8, which main reserved for it, and no lock was used. */
  ghost predicate Init(s: State) {
    && s.processList == [0] && s.ready == [] && s.zombies == [] && s.waiters == []
    && s.current == 0 && s.nextPid == 1
    && s.procs == map[0 := Proc(RESERVED * PAGES_PER_BLOCK, RUNNING, 0, 0, 0, None, 0, Free, None, None, {})]
    && s.pages == seq(PAGE_BLOCK_COUNT, i => if i <= RESERVED then FULL else 0)
    && Unused(s.locks)
  }

  /** Locks as mutex_init and semaphore_init leave them. */
  ghost predicate Unused(locks: seq<Lock>) {
    forall l :: 0 <= l < |locks| ==>
      && locks[l].blocked == []
      && (locks[l].Mutex? ==> !locks[l].locked)
      && (locks[l].Semaphore? ==> 0 <= locks[l].initial == locks[l].count && locks[l].permits == 0)
  }

  ghost predicate Next(s: State, e: Event, t: State) {
    Enabled(s, e) && Safe(s, e) && t == Step(s, e)
  }

  /** States tr[0], tr[1], ... joined by steps es[0], es[1], ... */
  ghost predicate Run(tr: seq<State>, es: seq<Event>) {
    && |tr| == |es| + 1
    && Init(tr[0])
    && forall i :: 0 <= i < |es| ==> Next(tr[i], es[i], tr[i + 1])
  }

  ghost predicate Reachable(s: State) {
    exists tr, es :: Run(tr, es) && tr[|es|] == s
  }

  lemma InitInv(s: State)
    requires Init(s)
    ensures Inv(s)
  {
    forall k ensures ListOk(s, k) {}
    assert ProcOk(s, 0);
    assert ParentLives(s, 0);
    assert forall p, b: nat {:trigger Claims(s, p, b)} :: Claims(s, p, b) <==> p == 0 && b == RESERVED;
    assert Claims(s, 0, RESERVED);
    forall l: nat | SemAt(s, l) ensures SemCounts(s, l) {
      assert Pending(s, l) == {};
    }
  }

  lemma {:induction false} RunInv(tr: seq<State>, es: seq<Event>, i: nat)
    requires Run(tr, es) && i <= |es|
    ensures Inv(tr[i])
  {
    if i == 0 {
      InitInv(tr[0]);
    } else {
      RunInv(tr, es, i - 1);
      assert Next(tr[i - 1], es[i - 1], tr[i]);
      StepPreserves(tr[i - 1], es[i - 1]);
    }
  }

  lemma ReachableInv(s: State)
    requires Reachable(s)
    ensures Inv(s)
  {
    var tr, es :| Run(tr, es) && tr[|es|] == s;
    RunInv(tr, es, |es|);
  }

  /** The scheduler never finds the ready queue empty, no missing process is read, and some step can always start. */
  lemma NeverStuck(s: State)
    requires Reachable(s)
    ensures forall e :: Enabled(s, e) ==> Safe(s, e)
    ensures exists e :: Enabled(s, e)
    ensures s.current == 0 || 0 in s.ready
  {
    ReachableInv(s);
    forall e | Enabled(s, e) ensures Safe(s, e) { StepPreserves(s, e); }
    assert ProcOk(s, s.current);
    assert Enabled(s, if Cur(s).lock.Some? then Retry else if Cur(s).task == Waiting then WaitResume else Tick);
    assert ListOk(s, ReadyQueue);
    assert s.current != 0 ==> Belongs(s, ReadyQueue, 0);
  }

  // ---- one place each ----

  /** Where a process can be between steps. */
  datatype Place = OnCpu | Queued | Asleep(l: nat) | AsleepInWait | Unclaimed | HandedTo(w: Pid) | BuiltBy(m: Pid)

  ghost predicate At(s: State, p: Pid, place: Place) {
    match place
    case OnCpu => p == s.current
    case Queued => p in s.ready
    case Asleep(l) => l < |s.locks| && p in s.locks[l].blocked
    case AsleepInWait => p in s.waiters
    case Unclaimed => p in s.zombies
    case HandedTo(w) =>
      w in s.procs && Grip(s.procs[w]) == Some(p) && (s.procs[w].task.Reaping? || s.procs[w].task == Waiting)
    case BuiltBy(m) =>
      m in s.procs && Grip(s.procs[m]) == Some(p) && (s.procs[m].task.ForkCreated? || s.procs[m].task.ForkParented?)
  }

  function StateAt(place: Place): ProcState {
    match place
    case OnCpu => RUNNING
    case Queued => READY
    case Asleep(_) => BLOCKED
    case AsleepInWait => BLOCKED
    case Unclaimed => ZOMBIE
    case HandedTo(_) => ZOMBIE
    case BuiltBy(_) => EMPTY
  }

  /** The place that the fields of p name. */
  ghost function PlaceOf(s: State, p: Pid): Place
    requires p in s.procs
  {
    var r := s.procs[p];
    match r.state
    case RUNNING => OnCpu
    case READY => Queued
    case BLOCKED => if r.lock.Some? then Asleep(r.lock.value) else AsleepInWait
    case ZOMBIE => if r.owner.Some? then HandedTo(r.owner.value) else Unclaimed
    case EMPTY => if r.owner.Some? then BuiltBy(r.owner.value) else Unclaimed
  }

  lemma ReadLists(s: State, p: Pid)
    requires Inv(s)
    ensures p in s.ready <==> Belongs(s, ReadyQueue, p)
    ensures p in s.zombies <==> Belongs(s, Zombies, p)
    ensures p in s.waiters <==> Belongs(s, Waiters, p)
    ensures forall l: nat :: l < |s.locks| ==> (p in s.locks[l].blocked <==> Belongs(s, BlockedOn(l), p))
  {
    assert ListOk(s, ReadyQueue) && ListOk(s, Zombies) && ListOk(s, Waiters);
    forall l: nat | l < |s.locks| ensures p in s.locks[l].blocked <==> Belongs(s, BlockedOn(l), p) {
      assert ListOk(s, BlockedOn(l));
    }
  }

  lemma AtOnly(s: State, p: Pid, place: Place)
    requires Inv(s) && At(s, p, place)
    ensures p in s.procs && place == PlaceOf(s, p)
  {
    ReadLists(s, p);
    match place
    case HandedTo(w) => assert ProcOk(s, w);
    case BuiltBy(m) => assert ProcOk(s, m);
    case _ =>
  }

  lemma AtPlaceOf(s: State, p: Pid)
    requires Inv(s) && p in s.procs
    ensures At(s, p, PlaceOf(s, p)) && s.procs[p].state == StateAt(PlaceOf(s, p))
  {
    ReadLists(s, p);
    assert ProcOk(s, p);
    if s.procs[p].owner.Some? {
      assert ProcOk(s, s.procs[p].owner.value);
    }
  }

  lemma NoListTwice(s: State)
    requires Inv(s)
    ensures NoDup(s.ready) && NoDup(s.zombies) && NoDup(s.waiters)
    ensures forall l :: 0 <= l < |s.locks| ==> NoDup(s.locks[l].blocked)
  {
    assert ListOk(s, ReadyQueue) && ListOk(s, Zombies) && ListOk(s, Waiters);
    forall l | 0 <= l < |s.locks| ensures NoDup(s.locks[l].blocked) {
      assert ListOk(s, BlockedOn(l));
    }
  }

  /** Every created process is in exactly one place, its state field says which, and no list holds it twice. */
  lemma ExactlyOnePlace(s: State, p: Pid)
    requires Reachable(s)
    ensures forall place :: At(s, p, place) ==> p in s.procs
    ensures p in s.procs ==> forall place :: At(s, p, place) <==> place == PlaceOf(s, p)
    ensures p in s.procs ==> s.procs[p].state == StateAt(PlaceOf(s, p))
    ensures NoDup(s.ready) && NoDup(s.zombies) && NoDup(s.waiters)
    ensures forall l :: 0 <= l < |s.locks| ==> NoDup(s.locks[l].blocked)
  {
    ReachableInv(s);
    NoListTwice(s);
    forall place | At(s, p, place) ensures p in s.procs && place == PlaceOf(s, p) {
      AtOnly(s, p, place);
    }
    if p in s.procs {
      AtPlaceOf(s, p);
    }
  }

  // ---- waitpid ----

  /** A process asleep in sys_waitpid has a child that has not exited and would end the wait;
      one that has woken holds its own zombie, matching what it waited for. */
  lemma WaitersAreServed(s: State, w: Pid)
    requires Reachable(s) && w in s.procs && s.procs[w].task == Waiting
    ensures w in s.waiters || w == s.current
    ensures w in s.waiters ==> exists c :: Awaited(s, w, c)
    ensures w == s.current ==>
              match s.procs[w].waitProcess
              case None => false
              case Some(z) =>
                && z in s.procs && s.procs[z].state == ZOMBIE && s.procs[z].ppid == w
                && Matches(s.procs[w].waitPid, z) && z !in s.zombies
                && Step(s, WaitResume).procs[w].task == Reaping(z)
  {
    ReachableInv(s);
    assert ProcOk(s, w);
    ReadLists(s, w);
    if w == s.current {
      ReadLists(s, s.procs[w].waitProcess.value);
    }
  }

  /** Nothing the running process holds or wakes is w, which sleeps in sys_waitpid. */
  ghost predicate Elsewhere(s: State, w: Pid) {
    && w in s.procs && s.procs[w].task == Waiting && s.procs[w].state == BLOCKED && s.procs[w].lock == None
    && s.current in s.procs && w != s.current && Grip(Cur(s)) != Some(w) && w != s.nextPid
    && w !in s.zombies
    && forall l: nat :: l < |s.locks| ==> w !in s.locks[l].blocked
  }

  lemma IsElsewhere(s: State, w: Pid)
    requires Inv(s) && w in s.procs && s.procs[w].task == Waiting && w != s.current
    ensures Elsewhere(s, w)
  {
    assert ProcOk(s, w) && ProcOk(s, s.current);
    ReadLists(s, w);
  }

  ghost predicate Undisturbed(s: State, t: State, w: Pid) {
    w in s.procs && w in t.procs && t.procs[w].task == s.procs[w].task && t.procs[w].waitPid == s.procs[w].waitPid
  }

  lemma LocksLeaveAsleep(s: State, e: Event, w: Pid)
    requires Elsewhere(s, w) && Enabled(s, e) && Safe(s, e)
    requires OnLock(e)
    ensures Undisturbed(s, Step(s, e), w)
  {}

  lemma StillAsleep(s: State, e: Event, w: Pid)
    requires Elsewhere(s, w) && Enabled(s, e) && Safe(s, e)
    ensures Undisturbed(s, Step(s, e), w)
  {
    if OnLock(e) {
      LocksLeaveAsleep(s, e, w);
    }
  }

  lemma SleepsOn(s: State, e: Event, t: State, w: Pid)
    ensures Inv(s) && w in s.procs && s.procs[w].task == Waiting && w != s.current && Next(s, e, t) ==>
            Undisturbed(s, t, w)
  {
    if Inv(s) && w in s.procs && s.procs[w].task == Waiting && w != s.current && Next(s, e, t) {
      IsElsewhere(s, w);
      StillAsleep(s, e, w);
    }
  }

  lemma SleepsAt(tr: seq<State>, es: seq<Event>, k: nat, w: Pid)
    requires Run(tr, es) && k < |es| && tr[k].current != w
    ensures w in tr[k].procs && tr[k].procs[w].task == Waiting ==> Undisturbed(tr[k], tr[k + 1], w)
  {
    RunInv(tr, es, k);
    SleepsOn(tr[k], es[k], tr[k + 1], w);
  }

  lemma {:induction false} WaitPidKept(tr: seq<State>, es: seq<Event>, i: nat, j: nat, w: Pid)
    requires Run(tr, es) && i <= j <= |es|
    requires w in tr[i].procs && tr[i].procs[w].task == Waiting
    requires forall k :: i <= k < j ==> tr[k].current != w
    ensures w in tr[j].procs && tr[j].procs[w].task == Waiting && tr[j].procs[w].waitPid == tr[i].procs[w].waitPid
  {
    if i < j {
      WaitPidKept(tr, es, i, j - 1, w);
      SleepsAt(tr, es, j - 1, w);
    }
  }

  /** Over any run: when a process that went to sleep in sys_waitpid(pid) next runs, it holds a zombie
      child that matches pid, so the call does not return 0. */
  lemma SleepingWaitFindsItsChild(tr: seq<State>, es: seq<Event>, i: nat, j: nat, pid: int)
    requires Run(tr, es) && i < j <= |es|
    requires es[i] == Waitpid(pid, 0) && WaitSleeps(tr[i], pid, 0)
    requires forall k :: i < k < j ==> tr[k].current != tr[i].current
    requires tr[j].current == tr[i].current
    ensures var w := tr[j].current;
            && w in tr[j].procs && tr[j].procs[w].task == Waiting && tr[j].procs[w].waitProcess.Some?
            && var z := tr[j].procs[w].waitProcess.value;
               z in tr[j].procs && tr[j].procs[z].state == ZOMBIE && tr[j].procs[z].ppid == w && Matches(pid, z)
  {
    FallsAsleep(tr, es, i, pid);
    WaitPidKept(tr, es, i + 1, j, tr[i].current);
    RunInv(tr, es, j);
    WokenHolds(tr[j], tr[j].current);
  }

  lemma FallsAsleep(tr: seq<State>, es: seq<Event>, i: nat, pid: int)
    requires Run(tr, es) && i < |es| && es[i] == Waitpid(pid, 0) && WaitSleeps(tr[i], pid, 0)
    ensures var w := tr[i].current;
            w in tr[i + 1].procs && tr[i + 1].procs[w].task == Waiting && tr[i + 1].procs[w].waitPid == pid
            && tr[i + 1].current != w
  {
    assert Next(tr[i], es[i], tr[i + 1]);
    RunInv(tr, es, i);
    WaitSleepPreserves(tr[i], pid, 0);
    ScheduledOther(tr[i], pid);
  }

  lemma WokenHolds(s: State, w: Pid)
    requires Inv(s) && w == s.current && w in s.procs && s.procs[w].task == Waiting
    ensures s.procs[w].waitProcess.Some?
    ensures var z := s.procs[w].waitProcess.value;
            z in s.procs && s.procs[z].state == ZOMBIE && s.procs[z].ppid == w && Matches(s.procs[w].waitPid, z)
  {
    assert ProcOk(s, w);
  }

  /** The scheduler does not pick the process that has just gone to sleep. */
  lemma ScheduledOther(s: State, pid: int)
    requires Inv(s) && Enabled(s, Waitpid(pid, 0)) && WaitSleeps(s, pid, 0) && Off(WaitEnter(s, pid, 0))
             && Safe(s, Waitpid(pid, 0))
    ensures var t := Step(s, Waitpid(pid, 0));
            t.current != s.current && s.current in t.procs
            && t.procs[s.current].task == Waiting && t.procs[s.current].waitPid == pid
  {
    var u := WaitEnter(s, pid, 0);
    assert ListOk(u, ReadyQueue);
    PickIsFromQueue(u.ready);
    assert !Belongs(u, ReadyQueue, s.current);
  }

  /** A zombie whose parent is not reaping anything is on the zombie list. */
  lemma ZombieIsListed(s: State, z: Pid)
    requires Inv(s) && z in s.procs && s.procs[z].state == ZOMBIE && s.procs[z].ppid == s.current && AtEase(Cur(s))
    ensures z in s.zombies
  {
    assert ProcOk(s, z);
    assert s.procs[z].owner.Some? ==> ProcOk(s, s.procs[z].owner.value);
    ReadLists(s, z);
  }

  /** sys_waitpid fails exactly when its options are unknown or the caller has no matching child;
      with WNOHANG it returns 0 exactly when matching children exist and none of them is an unclaimed zombie. */
  lemma WaitpidReturns(s: State, pid: int, options: int)
    requires Reachable(s) && Enabled(s, Waitpid(pid, options))
    ensures Safe(s, Waitpid(pid, options))
    ensures var t := Step(s, Waitpid(pid, options));
            var me := s.current;
            var known := options == 0 || options == WNOHANG;
            var child := exists c :: IsChild(s, c, me, pid);
            var zombie := exists z :: IsChild(s, z, me, pid) && s.procs[z].state == ZOMBIE;
            && (!known || !child ==> t == SetCurrent(s, Cur(s).(ret := -1)))
            && (known && child && !zombie && options == WNOHANG ==> t == SetCurrent(s, Cur(s).(ret := 0)))
            && (known && child && !zombie && options == 0 ==> me in t.waiters)
            && (known && zombie ==> t.current == me && t.procs[me].task.Reaping?
                                    && IsChild(s, t.procs[me].task.zombie, me, pid)
                                    && s.procs[t.procs[me].task.zombie].state == ZOMBIE)
  {
    ReachableInv(s);
    WaitpidPreserves(s, pid, options);
    WaitEnters(s, pid);
    if WaitSleeps(s, pid, options) {
      WaitSleepPreserves(s, pid, 0);
      ScheduledOther(s, pid);
    }
  }

  /** What the two searches of sys_waitpid find, in terms of the caller's children. */
  lemma WaitEnters(s: State, pid: int)
    requires Inv(s) && AtEase(Cur(s))
    ensures var me := s.current;
            var z, c := FindChild(s, s.zombies, me, pid), FindChild(s, s.processList, me, pid);
            && (z.Some? ==> IsChild(s, z.value, me, pid) && s.procs[z.value].state == ZOMBIE && z.value != me)
            && (z.None? ==> forall x :: IsChild(s, x, me, pid) ==> s.procs[x].state != ZOMBIE && c.Some?)
            && (c.Some? ==> IsChild(s, c.value, me, pid))
  {
    var me := s.current;
    assert ListOk(s, Zombies) && ListOk(s, Created);
    var z := FindChild(s, s.zombies, me, pid);
    if z.Some? {
      assert Belongs(s, Zombies, z.value);
    } else {
      forall x | IsChild(s, x, me, pid)
        ensures s.procs[x].state != ZOMBIE && FindChild(s, s.processList, me, pid).Some? {
        if s.procs[x].state == ZOMBIE {
          ZombieIsListed(s, x);
          assert false;
        }
        assert Belongs(s, Created, x);
      }
    }
  }
}
