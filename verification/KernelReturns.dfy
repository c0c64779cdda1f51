/** What a blocking sys_waitpid returns, over whole runs. */
module KernelReturns {
  import opened Lists
  import opened Kernel
  import opened KernelInv
  import opened KernelRuns

  /** w has found a zombie and will destroy it; nobody else can end w. */
  ghost predicate Reaper(s: State, w: Pid, z: Pid) {
    && w in s.procs && s.procs[w].task == Reaping(z)
    && s.current in s.procs && w != s.nextPid && (w != s.current ==> Grip(Cur(s)) != Some(w))
  }

  lemma IsReaper(s: State, w: Pid, z: Pid)
    requires Inv(s) && w in s.procs && s.procs[w].task == Reaping(z)
    ensures Reaper(s, w, z)
  {
    assert ProcOk(s, w) && ProcOk(s, s.current);
  }

  lemma LocksLeaveReaper(s: State, e: Event, w: Pid, z: Pid)
    requires Reaper(s, w, z) && Enabled(s, e) && Safe(s, e)
    requires OnLock(e)
    ensures w in Step(s, e).procs && Step(s, e).procs[w].task == Reaping(z)
  {}

  /** Only its own last step ends the reaper's task. */
  lemma StillReaps(s: State, e: Event, w: Pid, z: Pid)
    requires Reaper(s, w, z) && Enabled(s, e) && Safe(s, e) && !(e == Reap && s.current == w)
    ensures w in Step(s, e).procs && Step(s, e).procs[w].task == Reaping(z)
  {
    if OnLock(e) {
      LocksLeaveReaper(s, e, w, z);
    }
  }

  lemma ReapsOn(s: State, e: Event, t: State, w: Pid, z: Pid)
    ensures Inv(s) && w in s.procs && s.procs[w].task == Reaping(z) && Next(s, e, t) && !(e == Reap
            && s.current == w) ==>
              w in t.procs && t.procs[w].task == Reaping(z)
  {
    if Inv(s) && w in s.procs && s.procs[w].task == Reaping(z) && Next(s, e, t) && !(e == Reap && s.current == w) {
      IsReaper(s, w, z);
      StillReaps(s, e, w, z);
    }
  }

  /** From its waking to its reaping w holds the same zombie. */
  lemma {:induction false} KeepsZombie(tr: seq<State>, es: seq<Event>, j: nat, k: nat, w: Pid, z: Pid)
    requires Run(tr, es) && j <= k <= |es| && w in tr[j].procs && tr[j].procs[w].task == Reaping(z)
    requires forall m :: j <= m < k && tr[m].current == w ==> es[m] != Reap
    ensures w in tr[k].procs && tr[k].procs[w].task == Reaping(z)
  {
    if j < k {
      KeepsZombie(tr, es, j, k - 1, w, z);
      ReapsAt(tr, es, k - 1, w, z);
    }
  }

  lemma ReapsAt(tr: seq<State>, es: seq<Event>, k: nat, w: Pid, z: Pid)
    requires Run(tr, es) && k < |es| && (tr[k].current == w ==> es[k] != Reap)
    ensures w in tr[k].procs && tr[k].procs[w].task == Reaping(z) ==>
              w in tr[k + 1].procs && tr[k + 1].procs[w].task == Reaping(z)
  {
    RunInv(tr, es, k);
    ReapsOn(tr[k], es[k], tr[k + 1], w, z);
  }

  /** A process just woken in sys_waitpid takes the zombie it was handed. */
  lemma Resumes(s: State, e: Event, t: State, w: Pid, z: Pid)
    requires w == s.current && w in s.procs && s.procs[w].task == Waiting && s.procs[w].lock == None
    requires s.procs[w].waitProcess == Some(z) && Next(s, e, t)
    ensures w in t.procs && t.procs[w].task == Reaping(z)
  {}

  lemma Returns(s: State, t: State, w: Pid, z: Pid)
    requires Inv(s) && w == s.current && w in s.procs && s.procs[w].task == Reaping(z) && Next(s, Reap, t)
    ensures w in t.procs && t.procs[w].ret == z && t.procs[w].task == Free && z !in t.procs && z != 0
  {
    assert ProcOk(s, w);
  }

  /** A blocking sys_waitpid(pid) that slept and has returned gave back the pid of a child that matches,
      which is positive, and destroyed that child, whatever ran meanwhile. */
  lemma WaitpidReturnsChild(tr: seq<State>, es: seq<Event>, i: nat, j: nat, k: nat, pid: int)
    requires Run(tr, es) && i < j < k < |es|
    requires es[i] == Waitpid(pid, 0) && WaitSleeps(tr[i], pid, 0)
    requires forall m :: i < m < j ==> tr[m].current != tr[i].current
    requires tr[j].current == tr[i].current == tr[k].current && es[k] == Reap
    requires forall m :: j <= m < k && tr[m].current == tr[i].current ==> es[m] != Reap
    ensures var w := tr[i].current;
            && w in tr[k + 1].procs && tr[k + 1].procs[w].task == Free && tr[k + 1].procs[w].ret > 0
            && var z := tr[k + 1].procs[w].ret;
               z in tr[j].procs && tr[j].procs[z].state == ZOMBIE && tr[j].procs[z].ppid == w
               && Matches(pid, z) && z !in tr[k + 1].procs
  {
    var w := tr[i].current;
    SleepingWaitFindsItsChild(tr, es, i, j, pid);
    var z := tr[j].procs[w].waitProcess.value;
    AwakeTakesZombie(tr, es, j, w, z);
    KeepsZombie(tr, es, j + 1, k, w, z);
    RunInv(tr, es, k);
    assert Next(tr[k], es[k], tr[k + 1]);
    Returns(tr[k], tr[k + 1], w, z);
  }

  lemma AwakeTakesZombie(tr: seq<State>, es: seq<Event>, j: nat, w: Pid, z: Pid)
    requires Run(tr, es) && j < |es| && w == tr[j].current && w in tr[j].procs
    requires tr[j].procs[w].task == Waiting && tr[j].procs[w].waitProcess == Some(z)
    ensures w in tr[j + 1].procs && tr[j + 1].procs[w].task == Reaping(z)
  {
    RunInv(tr, es, j);
    assert ProcOk(tr[j], w);
    assert Next(tr[j], es[j], tr[j + 1]);
    Resumes(tr[j], es[j], tr[j + 1], w, z);
  }
}
