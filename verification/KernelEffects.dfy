/** What each event does to the kernel's variables, field by field. */
module KernelEffects {
  import opened Lists
  import opened Kernel
  import opened KernelInv

  // ---- what an event leaves alone ----

  ghost predicate SameTables(s: State, t: State) {
    t.processList == s.processList && t.nextPid == s.nextPid && t.pages == s.pages
  }

  ghost predicate SameQueues(s: State, t: State) {
    t.current == s.current && t.ready == s.ready && t.zombies == s.zombies && t.waiters == s.waiters
  }

  /** Every process but p has the record it had, or still does not exist. */
  ghost predicate SameOthers(s: State, t: State, p: Pid) {
    forall q :: q != p ==> (q in s.procs <==> q in t.procs) && (q in s.procs ==> t.procs[q] == s.procs[q])
  }

  ghost predicate SameLocksBut(s: State, t: State, l: nat) {
    |t.locks| == |s.locks| && forall k :: 0 <= k < |s.locks| && k != l ==> t.locks[k] == s.locks[k]
  }

  /** From queue q the front process runs, or the second if the front is PID 0; a PID 0 passed over
      goes to the back. Nothing else happens to the records. */
  ghost predicate Dispatches(t: State, q: seq<Pid>, procs: map<Pid, Proc>) {
    && q != [] && t.current in procs
    && (if q[0] == 0 && |q| > 1 then t.current == q[1] && t.ready == q[2..] + [0]
        else t.current == q[0] && t.ready == q[1..])
    && t.procs == procs[t.current := procs[t.current].(state := RUNNING)]
  }

  // ---- scheduling ----

  /** A timer tick queues the running process at the back. */
  lemma TickDoes(s: State)
    requires Enabled(s, Tick) && Safe(s, Tick)
    ensures var t, me := Step(s, Tick), s.current;
            && Dispatches(t, s.ready + [me], s.procs[me := s.procs[me].(state := READY)])
            && SameTables(s, t) && t.locks == s.locks && t.zombies == s.zombies && t.waiters == s.waiters
  {}

  // ---- mutexes ----

  /** The caller has taken the free mutex l, and nothing but l and its own record has changed. */
  ghost predicate TakesMutex(s: State, t: State, l: nat) {
    && l < |s.locks| && s.locks[l].Mutex? && s.current in s.procs && s.current in t.procs
    && SameLocksBut(s, t, l) && t.locks[l].Mutex? && t.locks[l].locked && t.locks[l].blocked == s.locks[l].blocked
    && t.procs[s.current].held == s.procs[s.current].held + {l} && t.procs[s.current].lock == None
    && t.procs[s.current].state == s.procs[s.current].state && t.procs[s.current].task == s.procs[s.current].task
    && SameOthers(s, t, s.current) && SameTables(s, t) && SameQueues(s, t)
  }

  /** The caller sleeps at the back of lock l's list, and the next process runs. */
  ghost predicate SleepsOn(s: State, t: State, l: nat) {
    && l < |s.locks| && s.current in s.procs
    && SameLocksBut(s, t, l) && l < |t.locks| && t.locks[l].blocked == s.locks[l].blocked + [s.current]
    && Dispatches(t, s.ready, s.procs[s.current := s.procs[s.current].(state := BLOCKED, lock := Some(l))])
    && SameTables(s, t) && t.zombies == s.zombies && t.waiters == s.waiters
  }

  /** mutex_trylock answers 1 and takes a free mutex, or answers 0 and changes nothing. */
  lemma TryLockDoes(s: State, l: nat)
    requires Enabled(s, MutexTryLock(l))
    ensures var t := Step(s, MutexTryLock(l));
            if s.locks[l].locked then t == s.(procs := s.procs[s.current := s.procs[s.current].(ret := 0)])
            else TakesMutex(s, t, l) && t.procs[s.current].ret == 1
  {}

  /** mutex_lock, and each later turn of its loop, takes a free mutex and sleeps on a locked one. */
  lemma LockDoes(s: State, e: Event, l: nat)
    requires Enabled(s, e) && Safe(s, e) && l < |s.locks| && s.locks[l].Mutex?
    requires e == MutexLock(l) || (e == Retry && s.procs[s.current].lock == Some(l))
    ensures var t := Step(s, e);
            if s.locks[l].locked then SleepsOn(s, t, l) && t.locks[l].Mutex? && t.locks[l].locked
            else TakesMutex(s, t, l)
  {}

  /** The longest sleeper of lock l, if there is one, has moved to the back of the ready queue. */
  ghost predicate Wakes(s: State, t: State, l: nat, procs: map<Pid, Proc>)
    requires l < |s.locks|
  {
    var q := s.locks[l].blocked;
    && l < |t.locks|
    && (if q == [] then t.ready == s.ready && t.procs == procs && t.locks[l].blocked == []
        else && q[0] in procs && t.ready == s.ready + [q[0]] && t.locks[l].blocked == q[1..]
             && t.procs == procs[q[0] := procs[q[0]].(state := READY)])
  }

  lemma UnlockDoes(s: State, l: nat)
    requires Inv(s) && Enabled(s, MutexUnlock(l))
    ensures var t, me := Step(s, MutexUnlock(l)), s.current;
            && SameLocksBut(s, t, l) && t.locks[l].Mutex? && !t.locks[l].locked
            && Wakes(s, t, l, s.procs[me := s.procs[me].(held := s.procs[me].held - {l})])
            && SameTables(s, t) && t.current == me && t.zombies == s.zombies && t.waiters == s.waiters
  {
    assert ListOk(s, BlockedOn(l));
    assert s.locks[l].blocked != [] ==> Belongs(s, BlockedOn(l), s.locks[l].blocked[0]);
  }

  // ---- semaphores ----

  /** The caller has got a permit of semaphore l, whose count is now n. */
  ghost predicate TakesPermit(s: State, t: State, l: nat, n: int) {
    && l < |s.locks| && s.locks[l].Semaphore? && s.current in s.procs && s.current in t.procs
    && SameLocksBut(s, t, l)
    && t.locks[l] == Semaphore(n, s.locks[l].blocked, s.locks[l].initial, s.locks[l].permits + 1)
    && t.procs[s.current].lock == None && t.procs[s.current].state == s.procs[s.current].state
    && t.procs[s.current].held == s.procs[s.current].held && t.procs[s.current].task == s.procs[s.current].task
    && SameOthers(s, t, s.current) && SameTables(s, t) && SameQueues(s, t)
  }

  /** semaphore_wait decrements once; it gets a permit if the count is not negative then, or else sleeps. */
  lemma SemWaitDoes(s: State, l: nat)
    requires Enabled(s, SemWait(l)) && Safe(s, SemWait(l))
    ensures var t, n := Step(s, SemWait(l)), s.locks[l].count - 1;
            if n < 0 then SleepsOn(s, t, l) && t.locks[l].Semaphore? && t.locks[l].count == n
                          && t.locks[l].permits == s.locks[l].permits
            else TakesPermit(s, t, l, n)
  {}

  /** A later turn of the loop decrements no more. */
  lemma SemRetryDoes(s: State, l: nat)
    requires Enabled(s, Retry) && Safe(s, Retry) && s.procs[s.current].lock == Some(l) && s.locks[l].Semaphore?
    ensures var t, n := Step(s, Retry), s.locks[l].count;
            if n < 0 then SleepsOn(s, t, l) && t.locks[l].Semaphore? && t.locks[l].count == n
                          && t.locks[l].permits == s.locks[l].permits
            else TakesPermit(s, t, l, n)
  {}

  lemma TryWaitDoes(s: State, l: nat)
    requires Enabled(s, SemTryWait(l))
    ensures var t := Step(s, SemTryWait(l));
            if s.locks[l].count <= 0 then t == s.(procs := s.procs[s.current := s.procs[s.current].(ret := 0)])
            else TakesPermit(s, t, l, s.locks[l].count - 1) && t.procs[s.current].ret == 1
  {}

  lemma SignalDoes(s: State, l: nat)
    requires Inv(s) && Enabled(s, SemSignal(l))
    ensures var t := Step(s, SemSignal(l));
            && SameLocksBut(s, t, l) && t.locks[l].Semaphore? && t.locks[l].count == s.locks[l].count + 1
            && t.locks[l].permits == s.locks[l].permits - 1
            && Wakes(s, t, l, s.procs)
            && SameTables(s, t) && t.current == s.current && t.zombies == s.zombies && t.waiters == s.waiters
  {
    assert ListOk(s, BlockedOn(l));
    assert s.locks[l].blocked != [] ==> Belongs(s, BlockedOn(l), s.locks[l].blocked[0]);
  }
}
