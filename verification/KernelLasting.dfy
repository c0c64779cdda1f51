/** What lasts over runs: a lock until its unlock, an exit status until the zombie is reaped. */
module KernelLasting {
  import opened Kernel
  import opened KernelInv
  import opened KernelRuns
  import opened KernelSafety
  import opened KernelEffects
  import opened KernelDeeds

  /** What each step carries over lasts. */
  lemma {:induction false} Lasts(holds: nat -> bool, i: nat, j: nat)
    requires i <= j && holds(i) && forall k :: i <= k < j && holds(k) ==> holds(k + 1)
    ensures holds(j)
    decreases j - i
  {
    if i < j {
      Lasts(holds, i + 1, j);
    }
  }

  // ---- a mutex stays locked until it is unlocked ----

  ghost predicate Locked(s: State, l: nat) {
    l < |s.locks| && s.locks[l].Mutex? && s.locks[l].locked
  }

  lemma LocksKeepLocked(s: State, e: Event, l: nat)
    requires Enabled(s, e) && Safe(s, e) && Locked(s, l) && OnLock(e) && e != MutexUnlock(l)
    ensures Locked(Step(s, e), l)
  {}

  lemma StaysLocked(s: State, e: Event, l: nat)
    requires Enabled(s, e) && Safe(s, e) && Locked(s, l) && e != MutexUnlock(l)
    ensures Locked(Step(s, e), l)
  {
    if OnLock(e) {
      LocksKeepLocked(s, e, l);
    }
  }

  lemma LockedAt(tr: seq<State>, es: seq<Event>, k: nat, l: nat)
    requires Run(tr, es) && k < |es| && es[k] != MutexUnlock(l)
    ensures Locked(tr[k], l) ==> Locked(tr[k + 1], l)
  {
    assert Next(tr[k], es[k], tr[k + 1]);
    if Locked(tr[k], l) {
      StaysLocked(tr[k], es[k], l);
    }
  }

  lemma LockedUntilUnlock(tr: seq<State>, es: seq<Event>, i: nat, j: nat, l: nat)
    requires Run(tr, es) && i <= j <= |es| && Locked(tr[i], l)
    requires forall k :: i <= k < j ==> es[k] != MutexUnlock(l)
    ensures Locked(tr[j], l)
  {
    var holds := (k: nat) => k < |tr| && Locked(tr[k], l);
    forall k | i <= k < j && holds(k) ensures holds(k + 1) {
      LockedAt(tr, es, k, l);
    }
    Lasts(holds, i, j);
  }

  /** A successful mutex_trylock excludes everybody: until the unlock every other mutex_trylock, by whom
      ever, answers 0 and changes nothing else. */
  lemma TryLockExcludes(tr: seq<State>, es: seq<Event>, i: nat, j: nat, l: nat)
    requires Run(tr, es) && i < j < |es| && es[i] == MutexTryLock(l) && es[j] == MutexTryLock(l)
    requires forall k :: i < k < j ==> es[k] != MutexUnlock(l)
    ensures tr[j].current in tr[j].procs
    ensures tr[j + 1] == tr[j].(procs := tr[j].procs[tr[j].current := tr[j].procs[tr[j].current].(ret := 0)])
  {
    assert Next(tr[i], es[i], tr[i + 1]) && Next(tr[j], es[j], tr[j + 1]);
    TryLockDoes(tr[i], l);
    LockedUntilUnlock(tr, es, i + 1, j, l);
    TryLockDoes(tr[j], l);
  }

  // ---- an exit status lasts until the zombie is reaped ----

  ghost predicate ExitedWith(s: State, z: Pid, code: int) {
    z in s.procs ==> s.procs[z].state == ZOMBIE && 0 <= s.procs[z].status < 256 && (code - s.procs[z].status) % 256 == 0
  }

  lemma PidsGrow(s: State, e: Event)
    requires Enabled(s, e) && Safe(s, e)
    ensures s.nextPid <= Step(s, e).nextPid
  {}

  lemma StatusAt(tr: seq<State>, es: seq<Event>, k: nat, z: Pid, code: int)
    requires Run(tr, es) && k < |es|
    ensures z < tr[k].nextPid && ExitedWith(tr[k], z, code) ==>
              z < tr[k + 1].nextPid && ExitedWith(tr[k + 1], z, code)
  {
    var s, e := tr[k], es[k];
    assert Next(s, e, tr[k + 1]);
    RunInv(tr, es, k);
    if z < s.nextPid && ExitedWith(s, z, code) {
      PidsGrow(s, e);
      if z in s.procs {
        StepKeepsZombie(s, e, z);
      } else {
        GoneStays(s, e, z);
      }
    }
  }

  /** While it exists, a process that exited is a zombie with the low byte of what it exited with. */
  lemma StatusLasts(tr: seq<State>, es: seq<Event>, x: nat, k: nat, code: int)
    requires Run(tr, es) && x < k <= |es| && es[x] == Exit(code)
    ensures ExitedWith(tr[k], tr[x].current, code)
  {
    var z := tr[x].current;
    ExitStatus(tr, es, x, code);
    var holds := (n: nat) => n < |tr| && z < tr[n].nextPid && ExitedWith(tr[n], z, code);
    forall n | x + 1 <= n < k && holds(n) ensures holds(n + 1) {
      StatusAt(tr, es, n, z, code);
    }
    Lasts(holds, x + 1, k);
  }

  lemma ExitStatus(tr: seq<State>, es: seq<Event>, x: nat, code: int)
    requires Run(tr, es) && x < |es| && es[x] == Exit(code)
    ensures tr[x].current < tr[x + 1].nextPid && ExitedWith(tr[x + 1], tr[x].current, code)
  {
    assert Next(tr[x], es[x], tr[x + 1]);
    RunInv(tr, es, x);
    assert ProcOk(tr[x], tr[x].current);
    ExitDies(tr[x], code);
    PidsGrow(tr[x], es[x]);
  }

  /** What waitpid reaps carries the status that the process passed to exit, and waitpid returns its pid. */
  lemma WaitpidGetsStatus(tr: seq<State>, es: seq<Event>, x: nat, k: nat, code: int)
    requires Run(tr, es) && x < k < |es| && es[x] == Exit(code) && es[k] == Reap
    requires tr[k].current in tr[k].procs && tr[k].procs[tr[k].current].task == Reaping(tr[x].current)
    ensures var z := tr[x].current;
            && z in tr[k].procs && tr[k].procs[z].state == ZOMBIE
            && 0 <= tr[k].procs[z].status < 256 && (code - tr[k].procs[z].status) % 256 == 0
            && z !in tr[k + 1].procs && tr[k].current in tr[k + 1].procs && tr[k + 1].procs[tr[k].current].ret == z
  {
    StatusLasts(tr, es, x, k, code);
    assert Next(tr[k], es[k], tr[k + 1]);
    RunInv(tr, es, k);
    ReapDoes(tr[k]);
  }
}
