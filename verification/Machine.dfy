/** The kernel's global variables and the functions that update them in place.
    Each method is one critical section and is proved equal to the corresponding step. */
module Machine {
  import opened Lists
  import opened PageMap
  import opened Kernel
  import opened KernelInv
  import opened KernelEvents
  import opened KernelRuns

  class Globals {
    var processList: seq<Pid>
    var procs: map<Pid, Proc>
    var readyList: seq<Pid>
    var zombieList: seq<Pid>
    var waitList: seq<Pid>
    var locks: seq<Lock>
    var currentProc: Pid
    var nextPid: Pid
    const pageUsage: array<Word>

    ghost function View(): State
      reads this, pageUsage
    {
      State(processList, procs, readyList, zombieList, waitList, locks, currentProc, nextPid, pageUsage[..])
    }

    /** main's reservation of the page block it runs in, on the map as linked, and process_init. */
    constructor (lockTable: seq<Lock>, usage: array<Word>)
      requires usage[..] == seq(PAGE_BLOCK_COUNT, i => if i < RESERVED then FULL else 0) && Unused(lockTable)
      modifies usage
      ensures pageUsage == usage && locks == lockTable && Init(View()) && Inv(View())
    {
      var page := AllocPageBlockSpecific(usage, RESERVED * PAGES_PER_BLOCK);
      processList, readyList, zombieList, waitList := [0], [], [], [];
      procs := map[0 := Proc(RESERVED * PAGES_PER_BLOCK, RUNNING, 0, 0, 0, None, 0, Free, None, None, {})];
      locks, currentProc, nextPid := lockTable, 0, 1;
      pageUsage := usage;
      new;
      InitInv(View());
    }

    method SetProc(p: Pid, r: Proc)
      modifies this`procs
      ensures procs == old(procs)[p := r]
    {
      procs := procs[p := r];
    }

    /** p_list_pop_front on the ready list. */
    method PopReady() returns (p: Pid)
      requires readyList != []
      modifies this`readyList
      ensures p == old(readyList)[0] && readyList == old(readyList)[1..]
    {
      p := readyList[0];
      readyList := readyList[1..];
    }

    method ProcessSwitch(next: Pid)
      requires next in procs
      modifies this`currentProc, this`procs
      ensures View() == Switch(old(View()), next)
    {
      currentProc := next;
      SetProc(next, procs[next].(state := RUNNING));
    }

    method ProcessSchedule()
      requires CanSchedule(View())
      modifies this`readyList, this`currentProc, this`procs
      ensures View() == Schedule(old(View()))
    {
      ghost var s := View();
      var next := PopReady();
      if next == 0 {
        if readyList != [] {
          readyList := readyList + [next];
          next := PopReady();
          assert readyList == s.ready[2..] + [0];
        }
      }
      assert (next, readyList) == Pick(s.ready);
      ProcessSwitch(next);
    }

    method ProcessTick()
      requires Inv(View()) && Enabled(View(), Tick)
      modifies this
      ensures Safe(old(View()), Tick) && View() == Step(old(View()), Tick) && Inv(View())
    {
      ghost var s := View();
      StepPreserves(s, Tick);
      SetProc(currentProc, procs[currentProc].(state := READY));
      readyList := readyList + [currentProc];
      assert View() == Yield(s);
      ProcessSchedule();
    }

    // ---- process_new and sys_fork, one critical section at a time ----

    /** process_new up to its page block: -1 in the caller's result if the heap or the page map is exhausted. */
    method ForkBegins(heap: bool)
      requires Inv(View()) && Enabled(View(), ForkBegin(heap))
      modifies this`procs, pageUsage
      ensures View() == Step(old(View()), ForkBegin(heap)) && Inv(View())
    {
      ghost var s := View();
      StepPreserves(s, ForkBegin(heap));
      var r := procs[currentProc];
      if !heap {
        SetProc(currentProc, r.(ret := -1));
      } else {
        var page := AllocPageBlock(pageUsage);
        if page < 0 {
          SetProc(currentProc, r.(ret := -1));
        } else {
          assert FirstFree(s.pages, 0) == Some(page / PAGES_PER_BLOCK);
          SetProc(currentProc, r.(task := ForkAllocated(page / PAGES_PER_BLOCK)));
        }
      }
      assert View() == Allocate(s, heap);
    }

    /** process_new's `di` region: the next PID, and a place on the process list. */
    method ForkCreates()
      requires Inv(View()) && Enabled(View(), ForkCreate)
      modifies this
      ensures View() == Step(old(View()), ForkCreate) && Inv(View())
    {
      ghost var s := View();
      StepPreserves(s, ForkCreate);
      var child := nextPid;
      var block := procs[currentProc].task.block;
      nextPid := nextPid + 1;
      SetProc(currentProc, procs[currentProc].(task := ForkCreated(child)));
      SetProc(child, NewProc(block, currentProc));
      processList := processList + [child];
      assert View() == Create(s);
    }

    method ForkSetsParent()
      requires Inv(View()) && Enabled(View(), ForkSetParent)
      modifies this`procs
      ensures Safe(old(View()), ForkSetParent) && View() == Step(old(View()), ForkSetParent) && Inv(View())
    {
      ghost var s := View();
      StepPreserves(s, ForkSetParent);
      GripIsOther(s);
      var child := procs[currentProc].task.child;
      SetProc(currentProc, procs[currentProc].(task := ForkParented(child)));
      SetProc(child, procs[child].(ppid := currentProc));
      assert View() == SetParent(s);
    }

    /** process_destroy. */
    method ProcessDestroy(p: Pid)
      requires p in procs && pageUsage.Length == PAGE_BLOCK_COUNT && procs[p].cbr < PAGE_BLOCK_COUNT * PAGES_PER_BLOCK
      modifies this`processList, this`procs, pageUsage
      ensures pageUsage.Length == PAGE_BLOCK_COUNT && View() == Destroy(old(View()), p)
    {
      FreePageBlock(pageUsage, procs[p].cbr);
      processList := Remove(processList, p);
      procs := procs - {p};
    }

    method ForkFails()
      requires Inv(View()) && Enabled(View(), ForkFail)
      modifies this`processList, this`procs, pageUsage
      ensures Safe(old(View()), ForkFail) && View() == Step(old(View()), ForkFail) && Inv(View())
    {
      ghost var s := View();
      StepPreserves(s, ForkFail);
      var child := procs[currentProc].task.child;
      assert s.procs[child].cbr == Block(s, child) * PAGES_PER_BLOCK && Block(s, child) < PAGE_BLOCK_COUNT;
      GripIsOther(s);
      SetProc(currentProc, procs[currentProc].(task := Free, ret := -1));
      ProcessDestroy(child);
    }

    method ForkCompletes()
      requires Inv(View()) && Enabled(View(), ForkDone)
      modifies this`readyList, this`procs
      ensures Safe(old(View()), ForkDone) && View() == Step(old(View()), ForkDone) && Inv(View())
    {
      ghost var s := View();
      StepPreserves(s, ForkDone);
      GripIsOther(s);
      var child := procs[currentProc].task.child;
      SetProc(currentProc, procs[currentProc].(task := Free, ret := child));
      SetProc(child, procs[child].(state := READY, owner := None, ret := 0));
      readyList := readyList + [child];
      assert View() == ForkComplete(s);
    }

    // ---- sys_waitpid ----

    /** The walk over a list for the first matching child. */
    method SearchChild(list: seq<Pid>, parent: Pid, wanted: int) returns (found: Option<Pid>)
      requires forall p :: p in list ==> p in procs
      ensures found == FindChild(View(), list, parent, wanted)
    {
      var i := 0;
      while i < |list|
        invariant 0 <= i <= |list|
        invariant FindChild(View(), list, parent, wanted) == FindChild(View(), list[i..], parent, wanted)
      {
        if procs[list[i]].ppid == parent && (wanted == -1 || list[i] == wanted) {
          return Some(list[i]);
        }
        assert list[i..][1..] == list[i + 1..];
        i := i + 1;
      }
      return None;
    }

    /** A zombie leaves the list for the hands of its parent. */
    method TakeZombie(z: Pid)
      requires currentProc in procs && z in procs && z != currentProc
      modifies this`procs, this`zombieList
      ensures var s := old(View());
              View() == s.(procs := s.procs[currentProc := s.procs[currentProc].(task := Reaping(z))]
                                            [z := s.procs[z].(owner := Some(currentProc))],
                           zombies := Remove(s.zombies, z))
    {
      zombieList := Remove(zombieList, z);
      SetProc(currentProc, procs[currentProc].(task := Reaping(z)));
      SetProc(z, procs[z].(owner := Some(currentProc)));
    }

    method SysWaitpid(pid: int, options: int)
      requires Inv(View()) && Enabled(View(), Waitpid(pid, options))
      modifies this
      ensures Safe(old(View()), Waitpid(pid, options))
      ensures View() == Step(old(View()), Waitpid(pid, options)) && Inv(View())
    {
      ghost var s := View();
      StepPreserves(s, Waitpid(pid, options));
      ListedExist(s);
      var r := procs[currentProc];
      if options != 0 && options != WNOHANG {
        SetProc(currentProc, r.(ret := -1));
        return;
      }
      var nohang := options == WNOHANG;
      var foundProcess := SearchChild(zombieList, currentProc, pid);
      if foundProcess.Some? {
        TakeZombie(foundProcess.value);
        return;
      }
      var child := SearchChild(processList, currentProc, pid);
      if child == None {
        SetProc(currentProc, r.(ret := -1));
      } else if nohang {
        SetProc(currentProc, r.(ret := 0));
      } else {
        SetProc(currentProc, r.(state := BLOCKED, task := Waiting, waitPid := pid, waitProcess := None));
        waitList := waitList + [currentProc];
        assert View() == WaitEnter(s, pid, options);
        ProcessSchedule();
      }
    }

    /** sys_waitpid after its call of the scheduler returns. */
    method WaitResumes()
      requires Inv(View()) && Enabled(View(), WaitResume)
      modifies this`procs
      ensures View() == Step(old(View()), WaitResume) && Inv(View())
    {
      StepPreserves(View(), WaitResume);
      var r := procs[currentProc];
      var foundProcess := r.waitProcess;
      if foundProcess.Some? {
        SetProc(currentProc, r.(task := Reaping(foundProcess.value)));
      } else {
        SetProc(currentProc, r.(task := Free, ret := 0));
      }
    }

    method Reaps()
      requires Inv(View()) && Enabled(View(), Reap)
      modifies this`processList, this`procs, pageUsage
      ensures Safe(old(View()), Reap) && View() == Step(old(View()), Reap) && Inv(View())
    {
      ghost var s := View();
      StepPreserves(s, Reap);
      GripIsOther(s);
      var z := procs[currentProc].task.zombie;
      assert s.procs[z].cbr == Block(s, z) * PAGES_PER_BLOCK && Block(s, z) < PAGE_BLOCK_COUNT;
      SetProc(currentProc, procs[currentProc].(task := Free, ret := z));
      ProcessDestroy(z);
    }

    // ---- sys_exit ----

    /** The walk over the process list that gives every child of `parent` to PID 1. */
    method ReparentChildren(parent: Pid)
      requires forall p :: p in processList <==> p in procs
      modifies this`procs
      ensures procs == Reparent(old(procs), parent)
    {
      ghost var before := procs;
      var i := 0;
      while i < |processList|
        invariant 0 <= i <= |processList|
        invariant procs == map p | p in before ::
                    if p in processList[..i] && before[p].ppid == parent then before[p].(ppid := 1) else before[p]
      {
        var p := processList[i];
        assert processList[..i + 1] == processList[..i] + [p];
        if procs[p].ppid == parent {
          SetProc(p, procs[p].(ppid := 1));
        }
        i := i + 1;
      }
      assert processList[..i] == processList;
    }

    /** The walk over the wait list for a parent that waits for `child`. */
    method SearchWaiter(child: Pid) returns (found: Option<Pid>)
      requires child in procs && forall w :: w in waitList ==> w in procs
      ensures found == FindWaiter(View(), waitList, child)
    {
      var i := 0;
      while i < |waitList|
        invariant 0 <= i <= |waitList|
        invariant FindWaiter(View(), waitList, child) == FindWaiter(View(), waitList[i..], child)
      {
        var w := waitList[i];
        if w == procs[child].ppid {
          if procs[w].waitPid == -1 || procs[w].waitPid == child {
            return Some(w);
          }
        }
        assert waitList[i..][1..] == waitList[i + 1..];
        i := i + 1;
      }
      return None;
    }

    /** The first half of sys_exit's critical section. */
    method Dies(status: int)
      requires currentProc in procs && forall p :: p in processList <==> p in procs
      modifies this`procs
      ensures View() == Die(old(View()), status)
    {
      SetProc(currentProc, procs[currentProc].(status := status % 256, state := ZOMBIE));
      ReparentChildren(currentProc);
    }

    /** The second half, when a sleeping parent can reap this process: hand it over and switch. */
    method HandsOver(w: Pid)
      requires currentProc in procs && w in procs && w != currentProc
      modifies this
      ensures View() == HandOver(old(View()), w)
    {
      SetProc(currentProc, procs[currentProc].(owner := Some(w)));
      SetProc(w, procs[w].(waitProcess := Some(currentProc)));
      waitList := Remove(waitList, w);
      ProcessSwitch(w);
    }

    method SysExit(status: int)
      requires Inv(View()) && Enabled(View(), Exit(status))
      modifies this
      ensures Safe(old(View()), Exit(status)) && View() == Step(old(View()), Exit(status)) && Inv(View())
    {
      ghost var s := View();
      StepPreserves(s, Exit(status));
      ListedExist(s);
      Dies(status);
      var waiter := SearchWaiter(currentProc);
      if waiter.Some? {
        HandsOver(waiter.value);
      } else {
        zombieList := zombieList + [currentProc];
        ProcessSchedule();
      }
    }

    // ---- mutex.c and semaphore.c ----

    method SetLockAt(l: nat, k: Lock)
      requires l < |locks|
      modifies this`locks
      ensures locks == old(locks)[l := k]
    {
      locks := locks[l := k];
    }

    /** The body of either retry loop: sleep on the lock and give up the processor. */
    method SleepOn(l: nat)
      requires l < |locks| && currentProc in procs && CanSchedule(Sleep(View(), l))
      modifies this
      ensures View() == Schedule(Sleep(old(View()), l))
    {
      ghost var s := View();
      SetProc(currentProc, procs[currentProc].(state := BLOCKED, lock := Some(l)));
      SetLockAt(l, locks[l].(blocked := locks[l].blocked + [currentProc]));
      assert View() == Sleep(s, l);
      ProcessSchedule();
    }

    /** One turn of the loop in mutex_lock, on entry or when the sleeper runs again. */
    method MutexLockTurn(l: nat)
      requires MutexAt(View(), l) && CanTry(View(), l)
      modifies this
      ensures View() == Try(old(View()), l)
    {
      if locks[l].locked {
        SleepOn(l);
      } else {
        SetProc(currentProc, procs[currentProc].(lock := None, held := procs[currentProc].held + {l}));
        SetLockAt(l, locks[l].(locked := true));
      }
    }

    method MutexLocks(l: nat)
      requires Inv(View()) && Enabled(View(), MutexLock(l))
      modifies this
      ensures Safe(old(View()), MutexLock(l)) && View() == Step(old(View()), MutexLock(l)) && Inv(View())
    {
      StepPreserves(View(), MutexLock(l));
      MutexLockTurn(l);
    }

    method MutexTryLocks(l: nat) returns (ok: bool)
      requires Inv(View()) && Enabled(View(), MutexTryLock(l))
      modifies this
      ensures View() == Step(old(View()), MutexTryLock(l)) && Inv(View())
      ensures ok == !old(locks[l].locked)
    {
      StepPreserves(View(), MutexTryLock(l));
      var r := procs[currentProc];
      if locks[l].locked {
        SetProc(currentProc, r.(ret := 0));
        return false;
      }
      SetProc(currentProc, r.(ret := 1, lock := None, held := r.held + {l}));
      SetLockAt(l, locks[l].(locked := true));
      return true;
    }

    /** The end of mutex_unlock and semaphore_signal: make the front sleeper ready. */
    method WakeOne(l: nat)
      requires l < |locks| && forall p :: p in locks[l].blocked ==> p in procs
      modifies this
      ensures View() == WakeFront(old(View()), l)
    {
      var blocked := locks[l].blocked;
      if blocked != [] {
        var unlocked := blocked[0];
        assert unlocked in blocked;
        SetLockAt(l, locks[l].(blocked := blocked[1..]));
        SetProc(unlocked, procs[unlocked].(state := READY));
        readyList := readyList + [unlocked];
      }
    }

    method MutexUnlocks(l: nat)
      requires Inv(View()) && Enabled(View(), MutexUnlock(l))
      modifies this
      ensures View() == Step(old(View()), MutexUnlock(l)) && Inv(View())
    {
      StepPreserves(View(), MutexUnlock(l));
      SleepersExist(View(), l);
      ClearLocked(l);
    }

    method ClearLocked(l: nat)
      requires MutexAt(View(), l) && currentProc in procs && forall p :: p in locks[l].blocked ==> p in procs
      modifies this
      ensures View() == Unlock(old(View()), l)
    {
      SetProc(currentProc, procs[currentProc].(held := procs[currentProc].held - {l}));
      SetLockAt(l, locks[l].(locked := false));
      WakeOne(l);
    }

    /** One turn of the loop in semaphore_wait. */
    method SemWaitTurn(l: nat)
      requires SemAt(View(), l) && CanTry(View(), l)
      modifies this
      ensures View() == Try(old(View()), l)
    {
      if locks[l].count < 0 {
        SleepOn(l);
      } else {
        SetProc(currentProc, procs[currentProc].(lock := None));
        SetLockAt(l, locks[l].(permits := locks[l].permits + 1));
      }
    }

    method SemWaits(l: nat)
      requires Inv(View()) && Enabled(View(), SemWait(l))
      modifies this
      ensures Safe(old(View()), SemWait(l)) && View() == Step(old(View()), SemWait(l)) && Inv(View())
    {
      StepPreserves(View(), SemWait(l));
      SetLockAt(l, locks[l].(count := locks[l].count - 1));
      SemWaitTurn(l);
    }

    /** The body of semaphore_trywait. */
    method TakesPermit(l: nat) returns (ok: bool)
      requires SemAt(View(), l) && currentProc in procs
      modifies this
      ensures ok == (old(locks[l].count) > 0)
      ensures View() == if ok then Acquire(Decrement(SetCurrent(old(View()), Cur(old(View())).(ret := 1)), l), l)
                        else SetCurrent(old(View()), Cur(old(View())).(ret := 0))
    {
      if locks[l].count <= 0 {
        SetProc(currentProc, procs[currentProc].(ret := 0));
        return false;
      }
      SetProc(currentProc, procs[currentProc].(ret := 1));
      SetLockAt(l, locks[l].(count := locks[l].count - 1));
      SetProc(currentProc, procs[currentProc].(lock := None));
      SetLockAt(l, locks[l].(permits := locks[l].permits + 1));
      return true;
    }

    method SemTryWaits(l: nat) returns (ok: bool)
      requires Inv(View()) && Enabled(View(), SemTryWait(l))
      modifies this
      ensures View() == Step(old(View()), SemTryWait(l)) && Inv(View())
      ensures ok == (old(locks[l].count) > 0)
    {
      StepPreserves(View(), SemTryWait(l));
      ok := TakesPermit(l);
    }

    method SemSignals(l: nat)
      requires Inv(View()) && Enabled(View(), SemSignal(l))
      modifies this
      ensures View() == Step(old(View()), SemSignal(l)) && Inv(View())
    {
      StepPreserves(View(), SemSignal(l));
      SleepersExist(View(), l);
      RaiseCount(l);
    }

    method RaiseCount(l: nat)
      requires SemAt(View(), l) && forall p :: p in locks[l].blocked ==> p in procs
      modifies this
      ensures View() == Signal(old(View()), l)
    {
      SetLockAt(l, locks[l].(count := locks[l].count + 1, permits := locks[l].permits - 1));
      WakeOne(l);
    }

    /** A sleeper that runs again goes round the loop it was in. */
    method Retries()
      requires Inv(View()) && Enabled(View(), Retry)
      modifies this
      ensures Safe(old(View()), Retry) && View() == Step(old(View()), Retry) && Inv(View())
    {
      StepPreserves(View(), Retry);
      var l := procs[currentProc].lock.value;
      if locks[l].Mutex? {
        MutexLockTurn(l);
      } else {
        SemWaitTurn(l);
      }
    }
  }

  lemma GripIsOther(s: State)
    requires Inv(s) && Grip(Cur(s)).Some?
    ensures Grip(Cur(s)).value in s.procs && Grip(Cur(s)).value != s.current
  {
    assert ProcOk(s, s.current);
    assert ProcOk(s, Grip(Cur(s)).value);
  }

  lemma ListedExist(s: State)
    requires Inv(s)
    ensures forall p :: p in s.processList <==> p in s.procs
    ensures forall p :: p in s.zombies ==> p in s.procs && p != s.current
    ensures forall p :: p in s.waiters ==> p in s.procs && p != s.current
  {
    assert ListOk(s, Created) && ListOk(s, Zombies) && ListOk(s, Waiters);
  }

  lemma SleepersExist(s: State, l: nat)
    requires Inv(s) && l < |s.locks|
    ensures forall p :: p in s.locks[l].blocked ==> p in s.procs && p != s.current
  {
    assert ListOk(s, BlockedOn(l));
  }
}
