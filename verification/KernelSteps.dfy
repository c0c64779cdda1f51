/** Every step of fork, waitpid and exit keeps the invariant, and so does the scheduler. For each
    step there is one lemma for the places of processes, one for their fields and one for the tree,
    the waits, the pages and the locks; the lemma whose name ends in Preserves joins them. */
module KernelSteps {
  import opened Lists
  import opened PageMap
  import opened Kernel
  import opened KernelInv

  // ---- giving up the processor ----

  lemma YieldPreserves(s: State)
    requires Inv(s) && Interruptible(Cur(s))
    ensures Off(Yield(s))
  {
    var t := Yield(s);
    forall k ensures ListOk(t, k) {
      assert ListOk(s, k);
      if k == ReadyQueue { PushList(s, t, k, s.current); } else { SameList(s, t, k); }
    }
    assert ProcOk(s, s.current);
    SameProcs(s, t);
    SameTree(s, t);
    SameWaits(s, t);
    SamePages(s, t);
    SameLocks(s, t);
  }

  lemma ChildLives(s: State, c: Pid, parent: Pid, wanted: int)
    requires Places(s) && ProcsOk(s) && parent in s.procs && AtEase(s.procs[parent]) && parent != 0
    requires IsChild(s, c, parent, wanted) && !Belongs(s, Zombies, c)
    ensures Lives(s, c)
  {
    assert ProcOk(s, c);
    assert s.procs[c].owner.Some? ==> ProcOk(s, s.procs[c].owner.value);
  }

  lemma WaitSleepPlaces(s: State, pid: int)
    requires Places(s) && OneRunning(s) && AtEase(Cur(s))
    ensures Places(StartWait(s, pid))
  {
    var t := StartWait(s, pid);
    forall k ensures ListOk(t, k) {
      assert ListOk(s, k);
      if k == Waiters { PushList(s, t, k, s.current); } else { SameList(s, t, k); }
    }
  }

  lemma WaitSleepWaits(s: State, pid: int, c: Pid)
    requires WaitsOk(s) && s.current in s.procs && IsChild(s, c, s.current, pid) && Lives(s, c)
    requires s.current !in s.waiters
    ensures WaitsOk(StartWait(s, pid))
  {
    var t := StartWait(s, pid);
    forall w | w in t.waiters ensures exists k :: Awaited(t, w, k) {
      if w == s.current {
        assert Awaited(t, w, c);
      } else {
        var k :| Awaited(s, w, k);
        assert Awaited(t, w, k);
      }
    }
  }

  lemma WaitSleepProcs(s: State, pid: int)
    requires ProcsOk(s) && OneRunning(s) && AtEase(Cur(s))
    ensures ProcsOk(StartWait(s, pid))
  {
    var t := StartWait(s, pid);
    forall p | p in t.procs ensures ProcOk(t, p) { assert ProcOk(s, p); }
  }

  lemma WaitSleepPreserves(s: State, pid: int, options: int)
    requires Inv(s) && AtEase(Cur(s)) && s.current != 0 && WaitSleeps(s, pid, options)
    ensures Off(WaitEnter(s, pid, options))
  {
    var t := StartWait(s, pid);
    assert ProcOk(s, s.current);
    WaitSleepPlaces(s, pid);
    WaitSleepProcs(s, pid);
    WaitSleepRest(s, pid);
    assert ListOk(s, Created) && ListOk(s, Zombies) && ListOk(s, Waiters);
    var c := FindChild(s, s.processList, s.current, pid).value;
    ChildLives(s, c, s.current, pid);
    WaitSleepWaits(s, pid, c);
  }

  lemma WaitSleepRest(s: State, pid: int)
    requires TreeOk(s) && PagesOk(s) && MutexOk(s) && SemOk(s) && s.current in s.procs && AtEase(Cur(s))
    requires Cur(s).state == RUNNING
    ensures TreeOk(StartWait(s, pid)) && PagesOk(StartWait(s, pid))
    ensures MutexOk(StartWait(s, pid)) && SemOk(StartWait(s, pid))
  {
    var t := StartWait(s, pid);
    SameTree(s, t);
    SamePages(s, t);
    SameLocks(s, t);
  }

  // ---- fork ----

  lemma SetRet(s: State, t: State, v: int)
    requires Inv(s) && t == SetCurrent(s, Cur(s).(ret := v))
    ensures Inv(t)
  {
    SamePlaces(s, t);
    SameProcs(s, t);
    SameTree(s, t);
    SameWaits(s, t);
    SamePages(s, t);
    SameLocks(s, t);
  }

  lemma AllocateProcs(s: State, b: nat)
    requires ProcsOk(s) && s.current in s.procs && AtEase(Cur(s)) && OneRunning(s)
    ensures ProcsOk(SetCurrent(s, Cur(s).(task := ForkAllocated(b))))
  {
    var t := SetCurrent(s, Cur(s).(task := ForkAllocated(b)));
    forall p | p in t.procs ensures ProcOk(t, p) { assert ProcOk(s, p); }
  }

  lemma AllocatePreserves(s: State, heap: bool)
    requires Inv(s) && AtEase(Cur(s))
    ensures Inv(Allocate(s, heap))
  {
    var t := Allocate(s, heap);
    if FirstFree(s.pages, 0) == None || !heap {
      SetRet(s, t, -1);
    } else {
      var b := FirstFree(s.pages, 0).value;
      SamePlaces(s, t);
      AllocateProcs(s, b);
      assert ProcsOk(t) by {
        var u := SetCurrent(s, Cur(s).(task := ForkAllocated(b)));
        forall p | p in t.procs ensures ProcOk(t, p) { assert ProcOk(u, p); }
      }
      AllocateRest(s, t, b);
      ClaimBlock(s, t, b);
    }
  }

  lemma AllocateRest(s: State, t: State, b: nat)
    requires TreeOk(s) && WaitsOk(s) && MutexOk(s) && SemOk(s) && s.current in s.procs
    requires t == SetCurrent(s, Cur(s).(task := ForkAllocated(b))).(pages := t.pages)
    ensures TreeOk(t) && WaitsOk(t) && MutexOk(t) && SemOk(t)
  {
    SameTree(s, t);
    SameWaits(s, t);
    SameLocks(s, t);
  }

  lemma ClaimBlock(s: State, t: State, b: nat)
    requires PagesOk(s) && s.current in s.procs && !Cur(s).task.ForkAllocated?
    requires b < |s.pages| && s.pages[b] == 0 && t.pages == s.pages[b := FULL]
    requires t.procs == s.procs[s.current := Cur(s).(task := ForkAllocated(b))]
    ensures PagesOk(t)
  {
    assert forall p, k :: Claims(t, p, k) <==> Claims(s, p, k) || (p == s.current && k == b);
    assert Claims(t, s.current, b);
    assert Claims(s, s.current, Block(s, s.current));
    forall k | 0 <= k < |t.pages|
      ensures t.pages[k] == FULL <==> k < RESERVED || exists p :: Claims(t, p, k)
    {
      if exists p :: Claims(s, p, k) {
        var p :| Claims(s, p, k);
        assert Claims(t, p, k);
      }
    }
  }

  lemma CreatePlaces(s: State)
    requires Places(s) && s.current in s.procs && Cur(s).task.ForkAllocated? && s.nextPid !in s.procs
    ensures Places(Create(s))
  {
    var t := Create(s);
    forall k ensures ListOk(t, k) {
      assert ListOk(s, k);
      if k == Created { PushList(s, t, k, s.nextPid); } else { SameList(s, t, k); }
    }
  }

  lemma CreateProcs(s: State)
    requires ProcsOk(s) && OneRunning(s) && Cur(s).lock == None && Cur(s).task.ForkAllocated? && s.nextPid !in s.procs
    ensures ProcsOk(Create(s))
  {
    var t := Create(s);
    assert ProcOk(s, s.current);
    forall p | p in t.procs ensures ProcOk(t, p) {
      if p != s.nextPid { assert ProcOk(s, p); }
    }
  }

  lemma CreateTree(s: State)
    requires Inv(s) && Cur(s).task.ForkAllocated? && s.nextPid !in s.procs
    ensures TreeOk(Create(s))
  {
    var t := Create(s);
    assert ProcOk(s, 0);
    forall p | p in t.procs ensures ParentLives(t, p) {
      if p != s.nextPid {
        assert ParentLives(s, p);
      }
    }
  }

  lemma CreatePages(s: State)
    requires PagesOk(s) && s.current in s.procs && Cur(s).task.ForkAllocated? && s.nextPid !in s.procs
    ensures PagesOk(Create(s))
  {
    var t := Create(s);
    var b := Cur(s).task.block;
    var c := s.nextPid;
    assert forall p, k {:trigger Claims(t, p, k)} :: p != c && !(p == s.current && k == b) ==>
           (Claims(t, p, k) <==> Claims(s, p, k));
    assert Claims(s, s.current, b) && Claims(t, c, b) && !Claims(t, s.current, b);
    assert forall k: nat {:trigger Claims(t, c, k)} :: Claims(t, c, k) <==> k == b;
    forall k | 0 <= k < |t.pages|
      ensures t.pages[k] == FULL <==> k < RESERVED || exists p :: Claims(t, p, k)
    {
      if exists p :: Claims(s, p, k) {
        var p :| Claims(s, p, k);
        assert Claims(t, if k == b then c else p, k);
      }
      if exists p :: Claims(t, p, k) {
        var p :| Claims(t, p, k);
        assert Claims(s, if p == c then s.current else p, k);
      }
    }
  }

  lemma CreatePreserves(s: State)
    requires Inv(s) && Cur(s).lock == None && Cur(s).task.ForkAllocated?
    ensures Inv(Create(s))
  {
    assert s.nextPid in s.procs ==> ProcOk(s, s.nextPid);
    CreatePlaces(s);
    CreateProcs(s);
    CreateTree(s);
    CreatePages(s);
    CreateRest(s);
  }

  lemma CreateRest(s: State)
    requires WaitsOk(s) && MutexOk(s) && SemOk(s)
    requires s.current in s.procs && Cur(s).task.ForkAllocated? && s.nextPid !in s.procs
    ensures WaitsOk(Create(s)) && MutexOk(Create(s)) && SemOk(Create(s))
  {
    var t := Create(s);
    SameWaits(s, t);
    SameLocks(s, t);
  }

  lemma SetParentProcs(s: State)
    requires ProcsOk(s) && OneRunning(s) && Cur(s).task.ForkCreated? && Cur(s).task.child in s.procs
    ensures ProcsOk(SetParent(s))
  {
    var t := SetParent(s);
    assert ProcOk(s, s.current);
    forall p | p in t.procs ensures ProcOk(t, p) { assert ProcOk(s, p); }
  }

  lemma SetParentTree(s: State)
    requires TreeOk(s) && OneRunning(s) && Cur(s).task.ForkCreated? && ProcOk(s, s.current)
    ensures TreeOk(SetParent(s))
  {
    var t := SetParent(s);
    assert forall p :: Lives(t, p) <==> Lives(s, p);
    forall p | p in t.procs ensures ParentLives(t, p) {
      assert ParentLives(s, p);
    }
  }

  lemma SetParentPreserves(s: State)
    requires Inv(s) && Cur(s).lock == None && Cur(s).task.ForkCreated?
    ensures Cur(s).task.child in s.procs && Inv(SetParent(s))
  {
    assert ProcOk(s, s.current);
    var t := SetParent(s);
    SamePlaces(s, t);
    SetParentProcs(s);
    SetParentTree(s);
    SameWaits(s, t);
    SamePages(s, t);
    SameLocks(s, t);
  }

  // ---- destroying a process ----

  /** The shared tail of a failed fork and of sys_waitpid: the gripped process is destroyed. */
  function Release(s: State, c: Pid, v: int): State
    requires s.current in s.procs && c in s.procs && Block(s, c) < |s.pages| && c != s.current
  {
    Destroy(SetCurrent(s, Cur(s).(task := Free, ret := v)), c)
  }

  ghost predicate Held(s: State, c: Pid) {
    && s.current in s.procs && Cur(s).lock == None && (Cur(s).task.ForkParented? || Cur(s).task.Reaping?)
    && Grip(Cur(s)) == Some(c)
  }

  lemma ReleasePlaces(s: State, c: Pid, v: int)
    requires Places(s) && OneRunning(s) && c in s.procs && Block(s, c) < |s.pages| && c != s.current
    requires s.procs[c].state == EMPTY || (s.procs[c].state == ZOMBIE && s.procs[c].owner.Some?)
    ensures Places(Release(s, c, v))
  {
    var t := Release(s, c, v);
    forall k ensures ListOk(t, k) {
      assert ListOk(s, k);
      if k == Created { RemoveList(s, t, k, c); } else { SameList(s, t, k); }
    }
  }

  lemma ReleaseProcs(s: State, c: Pid, v: int)
    requires ProcsOk(s) && OneRunning(s) && Held(s, c) && c in s.procs && Block(s, c) < |s.pages| && c != s.current
    ensures ProcsOk(Release(s, c, v))
  {
    var t := Release(s, c, v);
    assert ProcOk(s, c) && ProcOk(s, s.current);
    forall p | p in t.procs ensures ProcOk(t, p) { assert ProcOk(s, p); }
  }

  lemma ReleaseTree(s: State, c: Pid, v: int)
    requires TreeOk(s) && OneRunning(s) && c in s.procs && Block(s, c) < |s.pages| && c != s.current && c < s.nextPid
    requires !Lives(s, c) && c != 0
    ensures TreeOk(Release(s, c, v))
  {
    var t := Release(s, c, v);
    assert forall p :: Lives(t, p) <==> Lives(s, p);
    forall p | p in t.procs ensures ParentLives(t, p) {
      assert ParentLives(s, p);
    }
  }

  lemma ReleasePages(s: State, c: Pid, v: int)
    requires PagesOk(s) && s.current in s.procs && !Cur(s).task.ForkAllocated?
    requires c in s.procs && c != s.current && !s.procs[c].task.ForkAllocated?
    ensures PagesOk(Release(s, c, v))
  {
    var t := Release(s, c, v);
    var b := Block(s, c);
    assert Claims(s, c, b);
    assert forall p, k {:trigger Claims(t, p, k)} :: Claims(t, p, k) <==> Claims(s, p, k) && p != c;
    forall k | 0 <= k < |t.pages|
      ensures t.pages[k] == FULL <==> k < RESERVED || exists p :: Claims(t, p, k)
    {
      if k != b && exists p :: Claims(s, p, k) {
        var p :| Claims(s, p, k);
        assert Claims(t, p, k);
      }
    }
  }

  lemma ReleasePreserves(s: State, c: Pid, v: int)
    requires Inv(s) && Held(s, c)
    ensures c in s.procs && c != s.current && Block(s, c) < |s.pages|
    ensures Inv(Release(s, c, v))
  {
    assert ProcOk(s, s.current);
    assert ProcOk(s, c);
    ReleasePlaces(s, c, v);
    ReleaseProcs(s, c, v);
    ReleaseTree(s, c, v);
    ReleasePages(s, c, v);
    assert ListOk(s, Waiters);
    ReleaseWaits(s, c, v);
    ReleaseLocks(s, c, v);
  }

  lemma ReleaseWaits(s: State, c: Pid, v: int)
    requires WaitsOk(s) && s.current in s.procs && c in s.procs && Block(s, c) < |s.pages| && c != s.current
    requires !Lives(s, c) && c !in s.waiters
    ensures WaitsOk(Release(s, c, v))
  {
    var t := Release(s, c, v);
    forall w | w in t.waiters ensures exists k :: Awaited(t, w, k) {
      var k :| Awaited(s, w, k);
      assert Awaited(t, w, k);
    }
  }

  lemma ReleaseLocks(s: State, c: Pid, v: int)
    requires MutexOk(s) && SemOk(s) && s.current in s.procs && c in s.procs && Block(s, c) < |s.pages| && c != s.current
    requires s.procs[c].lock == None
    ensures MutexOk(Release(s, c, v)) && SemOk(Release(s, c, v))
  {
    SameLocks(s, Release(s, c, v));
  }

  // ---- the rest of fork ----

  lemma CompletePlaces(s: State)
    requires Places(s) && OneRunning(s) && Cur(s).task.ForkParented?
    requires var c := Cur(s).task.child; c in s.procs && s.procs[c].state == EMPTY && AtEase(s.procs[c])
    ensures Places(ForkComplete(s))
  {
    var t := ForkComplete(s);
    forall k ensures ListOk(t, k) {
      assert ListOk(s, k);
      if k == ReadyQueue { PushList(s, t, k, Cur(s).task.child); } else { SameList(s, t, k); }
    }
  }

  lemma CompleteProcs(s: State)
    requires ProcsOk(s) && OneRunning(s) && Cur(s).lock == None && Cur(s).task.ForkParented?
    requires Cur(s).task.child in s.procs
    ensures ProcsOk(ForkComplete(s))
  {
    var t := ForkComplete(s);
    assert ProcOk(s, s.current) && ProcOk(s, Cur(s).task.child);
    forall p | p in t.procs ensures ProcOk(t, p) { assert ProcOk(s, p); }
  }

  lemma CompleteTree(s: State)
    requires TreeOk(s) && OneRunning(s) && Cur(s).task.ForkParented?
    requires var c := Cur(s).task.child; c in s.procs && s.procs[c].state == EMPTY
    ensures TreeOk(ForkComplete(s))
  {
    var t := ForkComplete(s);
    assert forall p :: Lives(s, p) ==> Lives(t, p);
    forall p | p in t.procs ensures ParentLives(t, p) {
      assert ParentLives(s, p);
    }
  }

  lemma CompletePreserves(s: State)
    requires Inv(s) && Cur(s).lock == None && Cur(s).task.ForkParented?
    ensures Cur(s).task.child in s.procs && Inv(ForkComplete(s))
  {
    assert ProcOk(s, s.current);
    assert ProcOk(s, Cur(s).task.child);
    CompletePlaces(s);
    CompleteProcs(s);
    CompleteTree(s);
    CompleteRest(s);
  }

  lemma CompleteRest(s: State)
    requires WaitsOk(s) && PagesOk(s) && MutexOk(s) && SemOk(s) && OneRunning(s) && Cur(s).task.ForkParented?
    requires var c := Cur(s).task.child; c in s.procs && s.procs[c].state == EMPTY && AtEase(s.procs[c])
    ensures var t := ForkComplete(s); WaitsOk(t) && PagesOk(t) && MutexOk(t) && SemOk(t)
  {
    var t := ForkComplete(s);
    SameWaits(s, t);
    SamePages(s, t);
    SameLocks(s, t);
  }

  // ---- waitpid ----

  /** sys_waitpid takes a zombie child off the zombie list. */
  function Take(s: State, z: Pid): State
    requires s.current in s.procs && z in s.procs && z != s.current
  {
    var s1 := SetCurrent(s, Cur(s).(task := Reaping(z)));
    s1.(procs := s1.procs[z := s1.procs[z].(owner := Some(s.current))], zombies := Remove(s.zombies, z))
  }

  lemma TakePlaces(s: State, z: Pid)
    requires Places(s) && OneRunning(s) && z in s.procs && z != s.current && s.procs[z].state == ZOMBIE
    ensures Places(Take(s, z))
  {
    var t := Take(s, z);
    forall k ensures ListOk(t, k) {
      assert ListOk(s, k);
      if k == Zombies { RemoveList(s, t, k, z); } else { SameList(s, t, k); }
    }
  }

  lemma TakeProcs(s: State, z: Pid)
    requires ProcsOk(s) && OneRunning(s) && AtEase(Cur(s))
    requires z in s.procs && z != s.current && s.procs[z].state == ZOMBIE && s.procs[z].owner == None
    requires s.procs[z].ppid == s.current
    ensures ProcsOk(Take(s, z))
  {
    var t := Take(s, z);
    assert ProcOk(s, s.current) && ProcOk(s, z);
    forall p | p in t.procs ensures ProcOk(t, p) { assert ProcOk(s, p); }
  }

  lemma TakeRest(s: State, z: Pid)
    requires TreeOk(s) && WaitsOk(s) && PagesOk(s) && MutexOk(s) && SemOk(s) && OneRunning(s) && AtEase(Cur(s))
    requires z in s.procs && z != s.current
    ensures TreeOk(Take(s, z)) && WaitsOk(Take(s, z))
    ensures PagesOk(Take(s, z)) && MutexOk(Take(s, z)) && SemOk(Take(s, z))
  {
    SameTree(s, Take(s, z));
    SameWaits(s, Take(s, z));
    TakeResources(s, z);
  }

  lemma TakeResources(s: State, z: Pid)
    requires PagesOk(s) && MutexOk(s) && SemOk(s) && OneRunning(s) && AtEase(Cur(s)) && z in s.procs && z != s.current
    ensures PagesOk(Take(s, z)) && MutexOk(Take(s, z)) && SemOk(Take(s, z))
  {
    SamePages(s, Take(s, z));
    SameLocks(s, Take(s, z));
  }

  lemma TakePreserves(s: State, z: Pid, pid: int)
    requires Inv(s) && AtEase(Cur(s)) && z in s.zombies && IsChild(s, z, s.current, pid)
    ensures z != s.current && Inv(Take(s, z))
  {
    assert ListOk(s, Zombies);
    assert Belongs(s, Zombies, z);
    TakePlaces(s, z);
    TakeProcs(s, z);
    TakeRest(s, z);
  }

  lemma WakePreserves(s: State)
    requires Inv(s) && Cur(s).task == Waiting
    ensures Inv(WaitWake(s))
  {
    var t := WaitWake(s);
    assert ProcOk(s, s.current);
    SamePlaces(s, t);
    WakeProcs(s);
    WakeRest(s);
  }

  lemma WakeProcs(s: State)
    requires ProcsOk(s) && OneRunning(s) && Cur(s).task == Waiting
    ensures ProcsOk(WaitWake(s))
  {
    var t := WaitWake(s);
    assert ProcOk(s, s.current);
    forall p | p in t.procs ensures ProcOk(t, p) { assert ProcOk(s, p); }
  }

  lemma WakeRest(s: State)
    requires TreeOk(s) && WaitsOk(s) && PagesOk(s) && MutexOk(s) && SemOk(s) && OneRunning(s) && Cur(s).task == Waiting
    ensures var t := WaitWake(s); TreeOk(t) && WaitsOk(t) && PagesOk(t) && MutexOk(t) && SemOk(t)
  {
    var t := WaitWake(s);
    SameTree(s, t);
    SameWaits(s, t);
    SamePages(s, t);
    SameLocks(s, t);
  }

  // ---- exit ----

  /** What both ways out of sys_exit do to the process table. */
  ghost predicate Died(s: State, t: State) {
    && s.current in s.procs && t.procs.Keys == s.procs.Keys && t.nextPid == s.nextPid
    && t.locks == s.locks && t.pages == s.pages
    && (forall p :: p in s.procs ==>
          && t.procs[p].ppid == (if s.procs[p].ppid == s.current then 1 else s.procs[p].ppid)
          && (t.procs[p].state == ZOMBIE <==> s.procs[p].state == ZOMBIE || p == s.current)
          && (t.procs[p].state == EMPTY <==> s.procs[p].state == EMPTY)
          && t.procs[p].task == s.procs[p].task
          && t.procs[p].cbr == s.procs[p].cbr
          && t.procs[p].waitPid == s.procs[p].waitPid
          && t.procs[p].lock == s.procs[p].lock
          && t.procs[p].held == s.procs[p].held
          && (s.procs[p].lock.Some? ==> t.procs[p].state == s.procs[p].state))
  }

  lemma DiedTree(s: State, t: State)
    requires Inv(s) && s.current != 0 && Died(s, t)
    ensures TreeOk(t)
  {
    assert ProcOk(s, s.current);
    forall p | p in t.procs ensures ParentLives(t, p) {
      assert ParentLives(s, p);
    }
  }

  lemma DiedWaits(s: State, t: State)
    requires WaitsOk(s) && Died(s, t)
    requires forall w :: w in t.waiters ==> w in s.waiters && w != s.current
    requires forall w :: w in t.waiters ==> !Awaited(s, w, s.current)
    ensures WaitsOk(t)
  {
    forall w | w in t.waiters ensures exists k :: Awaited(t, w, k) {
      var k :| Awaited(s, w, k);
      assert Awaited(t, w, k);
    }
  }

  lemma DiedRest(s: State, t: State)
    requires PagesOk(s) && MutexOk(s) && SemOk(s) && Died(s, t)
    ensures PagesOk(t) && MutexOk(t) && SemOk(t)
  {
    SamePages(s, t);
    SameLocks(s, t);
  }

  lemma BuryPlaces(s: State, code: int)
    requires Places(s) && OneRunning(s) && Cur(s).owner == None
    ensures Places(Bury(Die(s, code)))
  {
    var t := Bury(Die(s, code));
    forall k ensures ListOk(t, k) {
      assert ListOk(s, k);
      if k == Zombies { PushList(s, t, k, s.current); } else { SameList(s, t, k); }
    }
  }

  lemma BuryProcs(s: State, code: int)
    requires ProcsOk(s) && OneRunning(s) && AtEase(Cur(s)) && s.current != 0
    ensures ProcsOk(Bury(Die(s, code)))
  {
    var t := Bury(Die(s, code));
    assert ProcOk(s, s.current);
    forall p | p in t.procs ensures ProcOk(t, p) { assert ProcOk(s, p); }
  }

  lemma BuryPreserves(s: State, code: int)
    requires Inv(s) && AtEase(Cur(s)) && s.current != 0
    requires var d := Die(s, code); FindWaiter(d, d.waiters, d.current) == None
    ensures Off(Bury(Die(s, code)))
  {
    var d := Die(s, code);
    var t := Bury(d);
    assert ProcOk(s, s.current);
    BuryPlaces(s, code);
    BuryProcs(s, code);
    DiedTree(s, t);
    assert ListOk(s, Waiters);
    assert d.procs[s.current].ppid == s.procs[s.current].ppid;
    DiedWaits(s, t);
    DiedRest(s, t);
  }

  lemma HandOverPlaces(s: State, code: int, w: Pid)
    requires Places(s) && OneRunning(s) && w in s.waiters && w in s.procs
    ensures Places(HandOver(Die(s, code), w))
  {
    var t := HandOver(Die(s, code), w);
    assert ListOk(s, Waiters);
    assert Belongs(s, Waiters, w);
    forall k ensures ListOk(t, k) {
      assert ListOk(s, k);
      if k == Waiters { RemoveList(s, t, k, w); } else { SameList(s, t, k); }
    }
  }

  lemma HandOverProc(s: State, code: int, w: Pid, p: Pid)
    requires ProcsOk(s) && s.current in s.procs && AtEase(Cur(s)) && s.current != 0 && p in s.procs
    requires w in s.procs && s.procs[w].state == BLOCKED && s.procs[w].lock == None
    requires w == s.procs[s.current].ppid && Matches(s.procs[w].waitPid, s.current)
    requires ProcOk(s, s.current) && ProcOk(s, w) && Cur(s).state == RUNNING
    ensures ProcOk(HandOver(Die(s, code), w), p)
  {
    if p != s.current && p != w {
      HandOverOther(s, code, w, p);
    }
  }

  lemma HandOverOther(s: State, code: int, w: Pid, p: Pid)
    requires ProcsOk(s) && s.current in s.procs && AtEase(Cur(s)) && s.current != 0 && p in s.procs
    requires w in s.procs && w != s.current && p != w && p != s.current
    requires s.procs[w].lock == None && Grip(s.procs[w]) == None && Cur(s).owner == None
    requires s.procs[w].state == BLOCKED && s.procs[w].owner == None && Cur(s).state == RUNNING
    ensures ProcOk(HandOver(Die(s, code), w), p)
  {
    assert ProcOk(s, p);
  }

  lemma HandOverProcs(s: State, code: int, w: Pid)
    requires ProcsOk(s) && OneRunning(s) && AtEase(Cur(s)) && s.current != 0
    requires w in s.procs && s.procs[w].state == BLOCKED && s.procs[w].lock == None
    requires w == s.procs[s.current].ppid && Matches(s.procs[w].waitPid, s.current)
    ensures ProcsOk(HandOver(Die(s, code), w))
  {
    assert ProcOk(s, s.current) && ProcOk(s, w);
    forall p | p in s.procs ensures ProcOk(HandOver(Die(s, code), w), p) {
      HandOverProc(s, code, w, p);
    }
  }

  /** The search for a waiter reads only fields that dying does not change. */
  lemma FoundWaiter(s: State, code: int, w: Pid)
    requires s.current in s.procs && s.procs[s.current].ppid != s.current
    requires var d := Die(s, code); FindWaiter(d, d.waiters, d.current) == Some(w)
    ensures w in s.waiters && w in s.procs && w == s.procs[s.current].ppid && Matches(s.procs[w].waitPid, s.current)
  {}

  lemma HandOverWaits(s: State, code: int, w: Pid)
    requires WaitsOk(s) && s.current in s.procs && w in s.procs && ListOk(s, Waiters)
             && s.procs[s.current].state == RUNNING
    requires w == s.procs[s.current].ppid && w != s.current && Died(s, HandOver(Die(s, code), w))
    ensures WaitsOk(HandOver(Die(s, code), w))
  {
    RemoveNoDup(s.waiters, w);
    DiedWaits(s, HandOver(Die(s, code), w));
  }

  lemma HandOverDies(s: State, code: int, w: Pid)
    requires s.current in s.procs && w in s.procs && s.current != w
    requires s.procs[w].state == BLOCKED && s.procs[w].lock == None && AtEase(Cur(s)) && Cur(s).state == RUNNING
    ensures Died(s, HandOver(Die(s, code), w))
  {}

  lemma HandOverPreserves(s: State, code: int, w: Pid)
    requires Inv(s) && AtEase(Cur(s)) && s.current != 0
    requires var d := Die(s, code); FindWaiter(d, d.waiters, d.current) == Some(w)
    ensures Inv(HandOver(Die(s, code), w))
  {
    FoundWaiter(s, code, w);
    assert ListOk(s, Waiters);
    assert Belongs(s, Waiters, w);
    HandOverPlaces(s, code, w);
    HandOverProcs(s, code, w);
    HandOverRest(s, code, w);
  }

  lemma HandOverRest(s: State, code: int, w: Pid)
    requires Inv(s) && AtEase(Cur(s)) && s.current != 0 && w in s.procs && w != s.current
             && w == s.procs[s.current].ppid
    requires s.procs[w].state == BLOCKED && s.procs[w].lock == None && Cur(s).state == RUNNING
    ensures TreeOk(HandOver(Die(s, code), w)) && WaitsOk(HandOver(Die(s, code), w))
    ensures PagesOk(HandOver(Die(s, code), w)) && MutexOk(HandOver(Die(s, code), w)) && SemOk(HandOver(Die(s, code), w))
  {
    HandOverDies(s, code, w);
    assert ListOk(s, Waiters);
    DiedTree(s, HandOver(Die(s, code), w));
    HandOverWaits(s, code, w);
    DiedRest(s, HandOver(Die(s, code), w));
  }
}
