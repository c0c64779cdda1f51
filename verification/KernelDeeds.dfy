/** What fork, waitpid and exit do, field by field, and what lasts over runs. */
module KernelDeeds {
  import opened Lists
  import opened Kernel
  import opened KernelInv
  import opened KernelEvents
  import opened KernelRuns
  import opened KernelEffects

  /** Every process but p and c has the record it had, or still does not exist. */
  ghost predicate SameBut(s: State, t: State, p: Pid, c: Pid) {
    forall q :: q != p && q != c ==> (q in t.procs <==> q in s.procs) && (q in s.procs ==> t.procs[q] == s.procs[q])
  }

  // ---- fork ----

  /** The first empty page block is marked used and remembered, or the call fails with -1. */
  lemma ForkBeginDoes(s: State, heap: bool)
    requires Enabled(s, ForkBegin(heap))
    ensures var t, me := Step(s, ForkBegin(heap)), s.current;
            && me in t.procs
            && (if heap && exists b: nat :: b < |s.pages| && s.pages[b] == 0 then
                  && t.procs[me].task.ForkAllocated?
                  && var b := t.procs[me].task.block;
                     && b < |s.pages| && s.pages[b] == 0 && (forall k :: 0 <= k < b ==> s.pages[k] != 0)
                     && t == s.(pages := s.pages[b := 0xFFFF],
                                procs := s.procs[me := s.procs[me].(task := ForkAllocated(b))])
                else t == s.(procs := s.procs[me := s.procs[me].(ret := -1)]))
  {}

  /** The child takes the next pid and goes to the end of the process list, with the block claimed. */
  lemma ForkCreateDoes(s: State)
    requires Inv(s) && Enabled(s, ForkCreate)
    ensures var t, me, c := Step(s, ForkCreate), s.current, s.nextPid;
            && c !in s.procs && c in t.procs && c != me
            && t.procs[c].cbr == s.procs[me].task.block * 16 && t.procs[c].state == EMPTY && t.procs[c].ppid == 0
            && t.procs[c].lock == None && t.procs[c].held == {}
            && t.processList == s.processList + [c] && t.nextPid == c + 1
            && t.procs[me] == s.procs[me].(task := ForkCreated(c))
            && SameBut(s, t, me, c)
            && t.pages == s.pages && t.locks == s.locks && SameQueues(s, t)
  {
    assert ProcOk(s, s.current);
    assert s.nextPid in s.procs ==> ProcOk(s, s.nextPid);
  }

  lemma ForkSetParentDoes(s: State)
    requires Inv(s) && Enabled(s, ForkSetParent)
    ensures Safe(s, ForkSetParent)
    ensures var t, me, c := Step(s, ForkSetParent), s.current, s.procs[s.current].task.child;
            && c in s.procs && c != me && t.procs == s.procs[me := s.procs[me].(task := ForkParented(c))]
                                                          [c := s.procs[c].(ppid := me)]
            && SameTables(s, t) && SameQueues(s, t) && t.locks == s.locks
  {
    StepPreserves(s, ForkSetParent);
    assert ProcOk(s, s.current);
  }

  /** The child is ready, last in the queue, and will return 0 where the parent returns its pid. */
  lemma ForkDoneDoes(s: State)
    requires Inv(s) && Enabled(s, ForkDone)
    ensures Safe(s, ForkDone)
    ensures var t, me, c := Step(s, ForkDone), s.current, s.procs[s.current].task.child;
            && c in s.procs && c != me && c in t.procs && me in t.procs
            && t.procs[me] == s.procs[me].(task := Free, ret := c)
            && t.procs[c].state == READY && t.procs[c].ret == 0 && t.procs[c].ppid == s.procs[c].ppid
            && t.procs[c].cbr == s.procs[c].cbr && t.procs[c].task == s.procs[c].task
            && t.ready == s.ready + [c]
            && SameBut(s, t, me, c)
            && SameTables(s, t) && t.locks == s.locks && t.current == me
            && t.zombies == s.zombies && t.waiters == s.waiters
  {
    StepPreserves(s, ForkDone);
    assert ProcOk(s, s.current);
  }

  /** Process c is gone from the list and the records, its page block is free, and the caller returns r. */
  ghost predicate Destroys(s: State, t: State, c: Pid, r: int) {
    && s.current in s.procs && c in s.procs && c != s.current && s.procs[c].cbr / 16 < |s.pages|
    && c !in t.procs && (forall q :: q in t.processList <==> q in s.processList && q != c)
    && t.pages == s.pages[s.procs[c].cbr / 16 := 0]
    && s.current in t.procs && t.procs[s.current] == s.procs[s.current].(task := Free, ret := r)
    && SameBut(s, t, s.current, c)
    && t.nextPid == s.nextPid && t.locks == s.locks && SameQueues(s, t)
  }

  lemma RemoveAll<T>(s: seq<T>, x: T)
    requires NoDup(s)
    ensures forall y :: y in Remove(s, x) <==> y in s && y != x
  {
    RemoveNoDup(s, x);
  }

  /** A fork that fails destroys its child and returns -1. */
  lemma ForkFailDoes(s: State)
    requires Inv(s) && Enabled(s, ForkFail)
    ensures Safe(s, ForkFail) && Destroys(s, Step(s, ForkFail), s.procs[s.current].task.child, -1)
  {
    StepPreserves(s, ForkFail);
    assert ProcOk(s, s.current) && ListOk(s, Created);
    Destroying(s, ForkFail, s.procs[s.current].task.child, -1);
  }

  lemma Destroying(s: State, e: Event, c: Pid, r: int)
    requires Enabled(s, e) && Safe(s, e) && c != s.current && NoDup(s.processList)
    requires || (e == ForkFail && c == s.procs[s.current].task.child && r == -1)
             || (e == Reap && c == s.procs[s.current].task.zombie && r == c)
    ensures Destroys(s, Step(s, e), c, r)
  {
    RemoveAll(s.processList, c);
  }

  // ---- waitpid ----

  /** The zombie that waitpid found is destroyed and its pid returned. */
  lemma ReapDoes(s: State)
    requires Inv(s) && Enabled(s, Reap)
    ensures Safe(s, Reap) && Destroys(s, Step(s, Reap), s.procs[s.current].task.zombie, s.procs[s.current].task.zombie)
  {
    StepPreserves(s, Reap);
    assert ProcOk(s, s.current) && ListOk(s, Created);
    Destroying(s, Reap, s.procs[s.current].task.zombie, s.procs[s.current].task.zombie);
  }

  /** z is one of the caller's children and one that waitpid(pid) asks for. */
  ghost predicate Wanted(s: State, z: Pid, pid: int) {
    z in s.procs && s.procs[z].ppid == s.current && (pid == -1 || pid == z)
  }

  ghost predicate NoneWanted(s: State, list: seq<Pid>, pid: int) {
    forall z :: z in list ==> !Wanted(s, z, pid)
  }

  /** A blocking waitpid that finds a child but no zombie: the caller sleeps last on the wait list for
      what it asked, and the next process runs. */
  lemma WaitSleepDoes(s: State, pid: int)
    requires Inv(s) && Enabled(s, Waitpid(pid, 0))
    requires NoneWanted(s, s.zombies, pid) && !NoneWanted(s, s.processList, pid)
    ensures Safe(s, Waitpid(pid, 0))
    ensures var t, me := Step(s, Waitpid(pid, 0)), s.current;
            && Dispatches(t, s.ready, s.procs[me := s.procs[me].(state := BLOCKED, task := Waiting, waitPid := pid,
                                                                 waitProcess := None)])
            && t.waiters == s.waiters + [me] && t.zombies == s.zombies && SameTables(s, t) && t.locks == s.locks
  {
    StepPreserves(s, Waitpid(pid, 0));
  }

  /** A waitpid with other options or with no child to wait for answers -1, and one that is not to block
      answers 0 if no child is a zombie yet; nothing else changes. */
  lemma WaitAnswers(s: State, pid: int, options: int)
    requires Enabled(s, Waitpid(pid, options))
    requires !(options == 0 || options == 1) || NoneWanted(s, s.zombies, pid)
    requires options == 0 ==> NoneWanted(s, s.processList, pid)
    ensures Safe(s, Waitpid(pid, options))
    ensures var r := if options == 1 && !NoneWanted(s, s.processList, pid) then 0 else -1;
            Step(s, Waitpid(pid, options)) == s.(procs := s.procs[s.current := s.procs[s.current].(ret := r)])
  {}

  /** A woken waiter has the zombie it was left, and is the only one changed. */
  lemma WaitResumeDoes(s: State)
    requires Enabled(s, WaitResume) && s.procs[s.current].waitProcess.Some?
    ensures var me := s.procs[s.current];
            Step(s, WaitResume) == s.(procs := s.procs[s.current := me.(task := Reaping(me.waitProcess.value))])
  {}

  /** A waitpid that finds a zombie takes it off the list, for this caller alone. */
  lemma WaitTakeDoes(s: State, pid: int, options: int)
    requires Inv(s) && Enabled(s, Waitpid(pid, options)) && (options == 0 || options == 1)
    requires !NoneWanted(s, s.zombies, pid)
    ensures Safe(s, Waitpid(pid, options))
    ensures var t, me := Step(s, Waitpid(pid, options)), s.current;
            && me in t.procs && t.procs[me].task.Reaping?
            && var z := t.procs[me].task.zombie;
               && z in s.zombies && Wanted(s, z, pid) && z != me
               && (forall q :: q in t.zombies <==> q in s.zombies && q != z)
               && t.procs == s.procs[me := s.procs[me].(task := Reaping(z))][z := s.procs[z].(owner := Some(me))]
               && SameTables(s, t) && t.locks == s.locks
               && t.current == me && t.ready == s.ready && t.waiters == s.waiters
  {
    StepPreserves(s, Waitpid(pid, options));
    WaitEnters(s, pid);
    assert ListOk(s, Zombies);
    var z := FindChild(s, s.zombies, s.current, pid).value;
    RemoveAll(s.zombies, z);
  }

  // ---- exit ----

  /** The dying process is a zombie with the low byte of its status, and keeps its parent and memory. */
  ghost predicate DiesWith(r: Proc, was: Proc, code: int) {
    && r.state == ZOMBIE && 0 <= r.status < 256 && (code - r.status) % 256 == 0
    && r.ppid == was.ppid && r.cbr == was.cbr
  }

  /** A process other than the dying one has a new parent, PID 1, if it was its child. */
  ghost predicate OrphanedBy(r: Proc, was: Proc, me: Pid) {
    r == was.(ppid := if was.ppid == me then 1 else was.ppid)
  }

  /** The records after a death; nobody has been dispatched yet. */
  ghost predicate Dead(s: State, procs: map<Pid, Proc>, code: int) {
    && s.current in s.procs && procs.Keys == s.procs.Keys
    && DiesWith(procs[s.current], s.procs[s.current], code)
    && forall q :: q in s.procs && q != s.current ==> OrphanedBy(procs[q], s.procs[q], s.current)
  }

  /** A parent asleep in waitpid, for any child or for this one. */
  ghost predicate ParentWaits(s: State, w: Pid) {
    && s.current in s.procs && w == s.procs[s.current].ppid && w in s.waiters && w in s.procs
    && (s.procs[w].waitPid == -1 || s.procs[w].waitPid == s.current)
  }

  lemma DieDoes(s: State, code: int)
    requires s.current in s.procs && s.procs[s.current].ppid != s.current
    ensures Dead(s, Die(s, code).procs, code)
    ensures var d := Die(s, code); d == s.(procs := d.procs)
  {}

  lemma WaiterFound(s: State, code: int)
    requires Inv(s) && s.current != 0
    ensures var d := Die(s, code);
            && d.current in d.procs
            && var w := s.procs[s.current].ppid;
               FindWaiter(d, d.waiters, d.current) == if ParentWaits(s, w) then Some(w) else None
  {
    assert ParentLives(s, s.current) && ProcOk(s, s.current);
    assert ListOk(s, Waiters);
    DieDoes(s, code);
  }

  lemma HandOverDoes(d: State, w: Pid)
    requires d.current in d.procs && w in d.procs && w != d.current && NoDup(d.waiters)
    ensures var t, me := HandOver(d, w), d.current;
            && t.procs == d.procs[me := d.procs[me].(owner := Some(w))]
                                 [w := d.procs[w].(waitProcess := Some(me), state := RUNNING)]
            && t.current == w && t.ready == d.ready && t.zombies == d.zombies
            && (forall q :: q in t.waiters <==> q in d.waiters && q != w)
            && SameTables(d, t) && t.locks == d.locks
  {
    RemoveAll(d.waiters, w);
  }

  /** A parent that waits takes the zombie and runs at once; the queues stay as they were. */
  lemma ExitHandsOver(s: State, code: int, w: Pid)
    requires Inv(s) && Enabled(s, Exit(code)) && ParentWaits(s, w)
    ensures Safe(s, Exit(code)) && w != s.current && Dead(s, Die(s, code).procs, code)
    ensures var t, me, d := Step(s, Exit(code)), s.current, Die(s, code).procs;
            && t.procs == d[me := d[me].(owner := Some(w))]
                           [w := d[w].(waitProcess := Some(me), state := RUNNING)]
            && t.current == w && t.ready == s.ready && t.zombies == s.zombies
            && (forall q :: q in t.waiters <==> q in s.waiters && q != w)
            && SameTables(s, t) && t.locks == s.locks
  {
    ExitLeadsTo(s, code);
    assert ParentLives(s, s.current) && ListOk(s, Waiters);
    DieDoes(s, code);
    HandOverDoes(Die(s, code), w);
  }

  lemma ExitLeadsTo(s: State, code: int)
    requires Inv(s) && Enabled(s, Exit(code))
    ensures Safe(s, Exit(code))
    ensures var w := s.procs[s.current].ppid;
            && (ParentWaits(s, w) ==> w in Die(s, code).procs && Step(s, Exit(code)) == HandOver(Die(s, code), w))
            && (!ParentWaits(s, w) ==>
                  CanSchedule(Bury(Die(s, code))) && Step(s, Exit(code)) == Schedule(Bury(Die(s, code))))
  {
    StepPreserves(s, Exit(code));
    WaiterFound(s, code);
  }

  /** Otherwise the zombie goes to the end of the zombie list and the next process runs. */
  lemma ExitBuries(s: State, code: int)
    requires Inv(s) && Enabled(s, Exit(code)) && !ParentWaits(s, s.procs[s.current].ppid)
    ensures Safe(s, Exit(code))
    ensures var t, d := Step(s, Exit(code)), Die(s, code).procs;
            && Dead(s, d, code) && Dispatches(t, s.ready, d)
            && t.zombies == s.zombies + [s.current] && t.waiters == s.waiters
            && SameTables(s, t) && t.locks == s.locks
  {
    StepPreserves(s, Exit(code));
    WaiterFound(s, code);
    assert ParentLives(s, s.current);
    DieDoes(s, code);
  }

  /** In either case the dead process is there, a zombie, with the low byte of its status. */
  lemma ExitDies(s: State, code: int)
    requires Inv(s) && Enabled(s, Exit(code))
    ensures Safe(s, Exit(code))
    ensures var t := Step(s, Exit(code));
            s.current in t.procs && DiesWith(t.procs[s.current], s.procs[s.current], code)
  {
    if ParentWaits(s, s.procs[s.current].ppid) {
      DiesInHand(s, code);
    } else {
      DiesBuried(s, code);
    }
  }

  lemma DiesInHand(s: State, code: int)
    requires Inv(s) && Enabled(s, Exit(code)) && ParentWaits(s, s.procs[s.current].ppid)
    ensures Safe(s, Exit(code))
    ensures s.current in Step(s, Exit(code)).procs
    ensures DiesWith(Step(s, Exit(code)).procs[s.current], s.procs[s.current], code)
  {
    ExitHandsOver(s, code, s.procs[s.current].ppid);
  }

  lemma DiesBuried(s: State, code: int)
    requires Inv(s) && Enabled(s, Exit(code)) && !ParentWaits(s, s.procs[s.current].ppid)
    ensures Safe(s, Exit(code))
    ensures s.current in Step(s, Exit(code)).procs
    ensures DiesWith(Step(s, Exit(code)).procs[s.current], s.procs[s.current], code)
  {
    ExitBuries(s, code);
    NotDispatched(s, Step(s, Exit(code)), Die(s, code).procs);
  }

  /** Only a process from the ready queue is dispatched, which the dying one is not. */
  lemma NotDispatched(s: State, t: State, procs: map<Pid, Proc>)
    requires Inv(s) && Dispatches(t, s.ready, procs) && s.current in procs
    ensures s.current in t.procs && t.procs[s.current] == procs[s.current]
  {
    assert ListOk(s, ReadyQueue);
    assert !Belongs(s, ReadyQueue, s.current);
    assert t.current in s.ready;
  }

  // ---- a zombie's status lasts ----

  ghost predicate SameZombie(s: State, t: State, z: Pid) {
    z in s.procs && s.procs[z].state == ZOMBIE && z in t.procs ==>
      t.procs[z].state == ZOMBIE && t.procs[z].status == s.procs[z].status
  }

  lemma LocksKeepZombie(s: State, e: Event, z: Pid)
    requires Enabled(s, e) && Safe(s, e) && OnLock(e) && z !in s.ready && z != s.current
    requires forall l :: 0 <= l < |s.locks| ==> z !in s.locks[l].blocked
    ensures SameZombie(s, Step(s, e), z)
  {}

  /** Who is not running, ready or asleep is not written to, but for its owner and parent. */
  lemma EventKeepsZombie(s: State, e: Event, z: Pid)
    requires Enabled(s, e) && Safe(s, e) && z !in s.ready && z != s.current && z !in s.waiters && z != s.nextPid
    requires forall l :: 0 <= l < |s.locks| ==> z !in s.locks[l].blocked
    requires s.procs[s.current].task.ForkParented? ==> s.procs[s.current].task.child != z
    ensures SameZombie(s, Step(s, e), z)
  {
    if OnLock(e) {
      LocksKeepZombie(s, e, z);
    }
  }

  lemma StepKeepsZombie(s: State, e: Event, z: Pid)
    requires Inv(s) && Enabled(s, e) && Safe(s, e)
    ensures SameZombie(s, Step(s, e), z)
  {
    if z in s.procs && s.procs[z].state == ZOMBIE {
      ReadLists(s, z);
      assert ProcOk(s, s.current) && ProcOk(s, z);
      EventKeepsZombie(s, e, z);
    }
  }
}
