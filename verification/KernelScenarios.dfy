/** Runs that reach the states in which the kernel keeps less than one would hope for. */
module KernelScenarios {
  import opened Lists
  import opened PageMap
  import opened Kernel
  import opened KernelInv
  import opened KernelEvents
  import opened KernelRuns
  import opened KernelSafety
  import opened KernelOrphans

  /** A reachable state and a step that can start lead to a reachable state. */
  lemma StepReaches(s: State, e: Event)
    requires Reachable(s) && Enabled(s, e)
    ensures Safe(s, e) && Reachable(Step(s, e))
  {
    var tr, es :| Run(tr, es) && tr[|es|] == s;
    RunInv(tr, es, |es|);
    StepPreserves(s, e);
    assert Next(s, e, Step(s, e));
    RunGrows(tr, es, e, Step(s, e));
  }

  lemma RunGrows(tr: seq<State>, es: seq<Event>, e: Event, t: State)
    ensures Run(tr, es) && Next(tr[|es|], e, t) ==> Reachable(t)
  {
    if Run(tr, es) && Next(tr[|es|], e, t) {
      Extends(tr, es, e, t);
      assert (tr + [t])[|es + [e]|] == t;
    }
  }

  lemma Extends(tr: seq<State>, es: seq<Event>, e: Event, t: State)
    requires Run(tr, es) && Next(tr[|es|], e, t)
    ensures Run(tr + [t], es + [e])
  {
    var tr', es' := tr + [t], es + [e];
    forall i | 0 <= i < |es'| ensures Next(tr'[i], es'[i], tr'[i + 1]) {
      if i < |es| {
        assert Next(tr[i], es[i], tr[i + 1]);
      }
    }
  }

  // ---- a line of descent ----

  /** Process k of a line of n: the child of k - 1, and at ease. */
  ghost predicate Member(s: State, k: Pid) {
    k in s.procs && s.procs[k].ppid == (if k == 0 then 0 else k - 1) && s.procs[k].lock == None
  }

  /** Processes 0 to n-1, each the child of the one before, and a free page block for each further one. */
  ghost predicate Line(s: State, n: nat) {
    && s.nextPid == n && |s.pages| == PAGE_BLOCK_COUNT
    && (forall p :: p in s.procs ==> p < n)
    && (forall k: nat {:trigger Member(s, k)} :: k < n ==> Member(s, k))
    && (forall b: nat :: RESERVED + n <= b < PAGE_BLOCK_COUNT ==> s.pages[b] == 0)
  }

  /** Lists, tasks and the running process. */
  ghost predicate Looks(s: State, current: Pid, ready: seq<Pid>, waiters: seq<Pid>, zombies: seq<Pid>) {
    s.current == current && s.ready == ready && s.waiters == waiters && s.zombies == zombies
  }

  /** All processes but those asleep in waitpid and the zombies are at ease. */
  ghost predicate Easy(s: State) {
    forall p :: p in s.procs && p !in s.waiters ==> AtEase(s.procs[p])
  }

  lemma Boot() returns (s: State)
    ensures Reachable(s) && Line(s, 1) && Looks(s, 0, [], [], []) && Easy(s)
  {
    s := State([0], map[0 := Proc(RESERVED * PAGES_PER_BLOCK, RUNNING, 0, 0, 0, None, 0, Free, None, None, {})],
               [], [], [], [], 0, 1, seq(PAGE_BLOCK_COUNT, i => if i <= RESERVED then FULL else 0));
    assert Init(s);
    var tr, es: seq<Event> := [s], [];
    assert Run(tr, es) && tr[|es|] == s;
    assert Member(s, 0);
  }

  /** The whole of a fork. */
  function Forked(s: State): State
    requires s.current in s.procs && FirstFree(s.pages, 0).Some?
  {
    var b := FirstFree(s.pages, 0).value;
    var c := s.nextPid;
    var child := NewProc(b, s.current).(state := READY, owner := None, ppid := s.current);
    s.(procs := s.procs[s.current := Cur(s).(task := Free, ret := c)][c := child],
       processList := s.processList + [c], nextPid := c + 1, ready := s.ready + [c], pages := s.pages[b := FULL])
  }

  lemma ForkReaches(s: State)
    requires Reachable(s) && s.current in s.procs && AtEase(Cur(s)) && s.current < s.nextPid
             && FirstFree(s.pages, 0).Some?
    ensures Reachable(Forked(s))
  {
    StepReaches(s, ForkBegin(true));
    var s1 := Step(s, ForkBegin(true));
    StepReaches(s1, ForkCreate);
    var s2 := Step(s1, ForkCreate);
    StepReaches(s2, ForkSetParent);
    var s3 := Step(s2, ForkSetParent);
    StepReaches(s3, ForkDone);
    assert Step(s3, ForkDone) == Forked(s);
  }

  /** The last process of a line forks. */
  lemma Forks(s: State, n: nat) returns (t: State)
    requires Reachable(s) && Line(s, n) && Easy(s) && 0 < n < 8 && s.current == n - 1 && s.current !in s.waiters
    ensures Reachable(t) && Line(t, n + 1) && Easy(t)
    ensures Looks(t, s.current, s.ready + [n], s.waiters, s.zombies)
    ensures forall p :: p in s.procs && p in s.waiters ==> p in t.procs && t.procs[p] == s.procs[p]
  {
    assert Member(s, s.current);
    assert s.pages[RESERVED + n] == 0;
    ForkReaches(s);
    t := Forked(s);
    forall k: nat | k < n + 1 ensures Member(t, k) {
      if k < n {
        assert Member(s, k);
      }
    }
  }

  /** A timer tick passes the processor on. */
  lemma Ticks(s: State, n: nat) returns (t: State)
    requires Reachable(s) && Line(s, n) && Easy(s) && s.current in s.procs && s.current !in s.waiters
    ensures Reachable(t) && Line(t, n) && Easy(t)
    ensures var q := s.ready + [s.current];
            Looks(t, Pick(q).0, Pick(q).1, s.waiters, s.zombies)
    ensures forall p :: p in s.procs && p in s.waiters ==> p in t.procs && t.procs[p].waitPid == s.procs[p].waitPid
  {
    StepReaches(s, Tick);
    t := Step(s, Tick);
    forall k: nat | k < n ensures Member(t, k) {
      assert Member(s, k);
    }
  }

  /** PID 0 forks 1, which forks 2. */
  lemma Grandchild() returns (s: State)
    ensures Reachable(s) && Line(s, 3) && Easy(s) && Looks(s, 1, [0, 2], [], [])
  {
    s := Boot();
    s := Forks(s, 1);
    assert Member(s, 0);
    s := Ticks(s, 2);
    assert Member(s, 1);
    s := Forks(s, 2);
  }

  // ---- PID 1 dies first ----

  /** PID 1 can exit while it has a child, and the child's parent is then dead. */
  lemma InitCanDieFirst()
    ensures exists s :: Reachable(s) && !ParentsLive(s) && HasOrphans(s) && !Lives(s, 1)
  {
    var s := Grandchild();
    assert Member(s, 0) && Member(s, 1) && Member(s, 2);
    StepReaches(s, Exit(0));
    var t := Step(s, Exit(0));
    assert t.procs[2].ppid == 1 && t.procs[1].state == ZOMBIE;
    ReachableInv(t);
    ParentsLiveWhile(t);
  }

  // ---- PID 1 sleeps beside a zombie ----

  /** PID 1 waits for any child. */
  lemma InitWaits(s: State, n: nat) returns (t: State)
    requires Reachable(s) && Line(s, n) && Easy(s) && n > 2 && s.current == 1
    requires s.waiters == [] && s.zombies == [] && s.ready != []
    ensures Reachable(t) && Line(t, n) && Easy(t) && 1 in t.procs && t.procs[1].waitPid == -1
    ensures Looks(t, Pick(s.ready).0, Pick(s.ready).1, [1], [])
  {
    assert Member(s, 1) && Member(s, 2);
    assert IsChild(s, 2, 1, -1);
    assert 2 in s.processList by {
      ReachableInv(s);
      assert ListOk(s, Created) && Belongs(s, Created, 2);
    }
    StepReaches(s, Waitpid(-1, 0));
    t := Step(s, Waitpid(-1, 0));
    forall k: nat | k < n ensures Member(t, k) {
      assert Member(s, k);
    }
  }

  /** The last process of a line dies while only PID 1 waits. */
  lemma LastDies(s: State, n: nat) returns (t: State)
    requires Reachable(s) && Line(s, n) && Easy(s) && n > 3 && s.current == n - 1
    requires s.waiters == [1] && s.zombies == [] && s.ready != [] && 1 in s.procs
    ensures Reachable(t) && Line(t, n) && Easy(t) && 1 in t.procs && t.procs[1].waitPid == s.procs[1].waitPid
    ensures Looks(t, Pick(s.ready).0, Pick(s.ready).1, [1], [n - 1])
  {
    assert Member(s, n - 1) && Member(s, 1);
    forall p | p in s.procs ensures s.procs[p].ppid != n - 1 {
      assert Member(s, p);
    }
    assert FindWaiter(Die(s, 0), [1], s.current) == None;
    StepReaches(s, Exit(0));
    t := Step(s, Exit(0));
    assert t == Schedule(Bury(Die(s, 0)));
    LineStays(s, n);
  }

  /** The death of the last process leaves the line as it was. */
  lemma LineStays(s: State, n: nat)
    requires Line(s, n) && Easy(s) && s.current in s.procs && s.current == n - 1 && CanSchedule(Bury(Die(s, 0)))
    requires forall p :: p in s.procs ==> s.procs[p].ppid != n - 1
    ensures Line(Schedule(Bury(Die(s, 0))), n) && Easy(Schedule(Bury(Die(s, 0))))
  {
    forall k: nat | k < n ensures Member(Schedule(Bury(Die(s, 0))), k) {
      assert Member(s, k);
    }
  }

  /** PID 1 sleeps for any child; 4 dies unclaimed under 3, a grandchild of PID 1's child 2. */
  lemma ZombieUnderThree() returns (s: State)
    ensures Reachable(s) && Line(s, 5) && Easy(s) && Looks(s, 3, [2, 0], [1], [4])
    ensures 1 in s.procs && s.procs[1].waitPid == -1
  {
    s := Grandchild();
    assert Member(s, 1);
    s := Ticks(s, 3);
    assert Member(s, 2);
    s := Forks(s, 3);
    assert Member(s, 2);
    s := Ticks(s, 4);
    s := InitWaits(s, 4);
    s := DescendantDies(s);
  }

  /** From there: 3 forks 4, the processor goes round to 4, and 4 dies. */
  lemma DescendantDies(s: State) returns (t: State)
    requires Reachable(s) && Line(s, 4) && Easy(s) && Looks(s, 3, [2, 0], [1], [])
    requires 1 in s.procs && s.procs[1].waitPid == -1
    ensures Reachable(t) && Line(t, 5) && Easy(t) && Looks(t, 3, [2, 0], [1], [4])
    ensures 1 in t.procs && t.procs[1].waitPid == -1
  {
    t := DescendantRuns(s);
    assert Member(t, 1);
    t := LastDies(t, 5);
  }

  lemma DescendantRuns(s: State) returns (t: State)
    requires Reachable(s) && Line(s, 4) && Easy(s) && Looks(s, 3, [2, 0], [1], [])
    requires 1 in s.procs && s.procs[1].waitPid == -1
    ensures Reachable(t) && Line(t, 5) && Easy(t) && Looks(t, 4, [3, 2, 0], [1], [])
    ensures 1 in t.procs && t.procs[1].waitPid == -1
  {
    t := DescendantForks(s);
    assert Member(t, 2);
    t := Ticks(t, 5);
  }

  lemma DescendantForks(s: State) returns (t: State)
    requires Reachable(s) && Line(s, 4) && Easy(s) && Looks(s, 3, [2, 0], [1], [])
    requires 1 in s.procs && s.procs[1].waitPid == -1
    ensures Reachable(t) && Line(t, 5) && Easy(t) && Looks(t, 2, [0, 4, 3], [1], [])
    ensures 1 in t.procs && t.procs[1].waitPid == -1
  {
    assert Member(s, 3);
    t := Forks(s, 4);
    assert Member(t, 3);
    t := Ticks(t, 5);
  }

  /** The exit of 3 makes PID 1 overlook 4: the case of OverlooksExactly occurs. */
  lemma InitCanOverlook()
    ensures exists s :: Reachable(s) && Enabled(s, Exit(0)) && LeavesOrphan(s, Exit(0), 4)
    ensures exists t :: Reachable(t) && Overlooks(t, 1, 4)
  {
    var s := ZombieUnderThree();
    assert Member(s, 3) && Member(s, 4);
    assert LeavesOrphan(s, Exit(0), 4);
    StepReaches(s, Exit(0));
    OverlooksExactly(s, Exit(0), 1, 4);
    assert Overlooks(Step(s, Exit(0)), 1, 4);
  }
}
