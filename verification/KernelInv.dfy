/** What holds between any two steps of the kernel: where processes are, what their fields say, the
    tree, the waits, the page blocks and the locks; and what a step must leave alone for each of
    these to go on holding. */
module KernelInv {
  import opened Lists
  import opened PageMap
  import opened Kernel

  /** The process a task is building, or holds as its zombie. */
  function Grip(r: Proc): Option<Pid> {
    match r.task
    case ForkCreated(c) => Some(c)
    case ForkParented(c) => Some(c)
    case Reaping(z) => Some(z)
    case Waiting => r.waitProcess
    case _ => None
  }

  /** The kernel's linked lists. */
  datatype ListKind = Created | ReadyQueue | Zombies | Waiters | BlockedOn(l: nat)

  function ListOf(s: State, k: ListKind): seq<Pid> {
    match k
    case Created => s.processList
    case ReadyQueue => s.ready
    case Zombies => s.zombies
    case Waiters => s.waiters
    case BlockedOn(l) => if l < |s.locks| then s.locks[l].blocked else []
  }

  /** The fields of a process say that it belongs on a list. */
  predicate Belongs(s: State, k: ListKind, p: Pid) {
    p in s.procs &&
    var r := s.procs[p];
    match k
    case Created => true
    case ReadyQueue => r.state == READY
    case Zombies => r.state == ZOMBIE && r.owner == None
    case Waiters => r.state == BLOCKED && r.lock == None
    case BlockedOn(l) => l < |s.locks| && r.state == BLOCKED && r.lock == Some(l)
  }

  /** A list holds exactly the processes that belong on it, each once. */
  ghost predicate ListOk(s: State, k: ListKind) {
    NoDup(ListOf(s, k)) && forall p :: p in ListOf(s, k) <==> Belongs(s, k, p)
  }

  ghost predicate Places(s: State) {
    forall k {:trigger ListOk(s, k)} :: ListOk(s, k)
  }

  /** The fields of one process agree with each other and with the process it grips or is gripped by. */
  ghost predicate ProcOk(s: State, p: Pid)
    requires p in s.procs
  {
    var r := s.procs[p];
    && p < s.nextPid
    && (r.lock.Some? ==> r.lock.value < |s.locks| && r.task != Waiting)
    && (r.task == Waiting ==> if r.state == BLOCKED then r.waitProcess == None
                              else r.state == RUNNING && r.waitProcess.Some?)
    && (r.state == BLOCKED ==> r.lock.Some? || r.task == Waiting)
    && (r.state == EMPTY || r.state == ZOMBIE ==> AtEase(r))
    && (r.owner.Some? ==> r.state == EMPTY || r.state == ZOMBIE)
    && (r.state == EMPTY ==> r.owner.Some?)
    && (r.owner.Some? ==> r.owner.value in s.procs && Grip(s.procs[r.owner.value]) == Some(p))
    && (Grip(r).Some? ==>
          var c := Grip(r).value;
          && c in s.procs
          && s.procs[c].owner == Some(p)
          && (match r.task
              case ForkCreated(_) => p < c && s.procs[c].state == EMPTY && s.procs[c].ppid == 0
              case ForkParented(_) => p < c && s.procs[c].state == EMPTY && s.procs[c].ppid == p
              case Waiting => s.procs[c].state == ZOMBIE && s.procs[c].ppid == p && Matches(r.waitPid, c)
              case _ => s.procs[c].state == ZOMBIE && s.procs[c].ppid == p))
  }

  ghost predicate ProcsOk(s: State) {
    forall p {:trigger ProcOk(s, p)} :: p in s.procs ==> ProcOk(s, p)
  }

  /** PID 0 exists and is always running or ready. */
  ghost predicate IdleOk(s: State) {
    && 0 in s.procs
    && (s.procs[0].state == READY || s.procs[0].state == RUNNING)
    && s.procs[0].lock == None
    && s.procs[0].task != Waiting
  }

  /** Created, queued at least once, and not exited. */
  ghost predicate Lives(s: State, p: Pid) {
    p in s.procs && s.procs[p].state != ZOMBIE && s.procs[p].state != EMPTY
  }

  /** Orphans belong to PID 1; every other process has a live parent. */
  ghost predicate ParentLives(s: State, p: Pid)
    requires p in s.procs
  {
    s.procs[p].ppid == 1 || Lives(s, s.procs[p].ppid)
  }

  ghost predicate TreeOk(s: State) {
    && (forall p :: p in s.procs && p > 0 ==> s.procs[p].ppid < p)
    && (0 in s.procs ==> s.procs[0].ppid == 0)
    && (forall p {:trigger ParentLives(s, p)} :: p in s.procs ==> ParentLives(s, p))
  }

  /** A child that has not exited and would end the wait. */
  ghost predicate Awaited(s: State, w: Pid, c: Pid) {
    && Lives(s, c)
    && w in s.procs
    && s.procs[c].ppid == w
    && Matches(s.procs[w].waitPid, c)
  }

  ghost predicate WaitsOk(s: State) {
    forall w :: w in s.waiters ==> exists c :: Awaited(s, w, c)
  }

  /** Process p accounts for page block b: as its own memory, or as the memory of a process it is creating. */
  ghost predicate Claims(s: State, p: Pid, b: nat) {
    p in s.procs && (s.procs[p].cbr == b * PAGES_PER_BLOCK || s.procs[p].task == ForkAllocated(b))
  }

  /** Blocks 0 to 7 hold no RAM for processes and are never released. */
  const RESERVED: nat := 8

  ghost predicate PagesOk(s: State) {
    && |s.pages| == PAGE_BLOCK_COUNT
    && (forall b :: 0 <= b < |s.pages| ==> s.pages[b] == 0 || s.pages[b] == FULL)
    && (forall b :: 0 <= b < |s.pages| ==> (s.pages[b] == FULL <==> b < RESERVED || exists p :: Claims(s, p, b)))
    && (forall p :: p in s.procs ==> Block(s, p) < PAGE_BLOCK_COUNT && RESERVED <= Block(s, p)
                                     && s.procs[p].cbr == Block(s, p) * PAGES_PER_BLOCK)
    && (forall p :: p in s.procs && s.procs[p].task.ForkAllocated? ==>
          RESERVED <= s.procs[p].task.block < PAGE_BLOCK_COUNT && s.procs[p].task.block != Block(s, p))
    && (forall p, q, b :: Claims(s, p, b) && Claims(s, q, b) ==> p == q)
  }

  ghost function Block(s: State, p: Pid): nat
    requires p in s.procs
  {
    s.procs[p].cbr / PAGES_PER_BLOCK
  }

  /** Processes inside the retry loop of lock l, asleep or not. */
  ghost function Pending(s: State, l: nat): set<Pid> {
    set p | p in s.procs && s.procs[p].lock == Some(l)
  }

  /** Woken, and still to test the lock again. */
  ghost predicate Retrying(s: State, l: nat, p: Pid) {
    p in s.procs && s.procs[p].lock == Some(l) && s.procs[p].state != BLOCKED
  }

  ghost predicate MutexOk(s: State) {
    && (forall l, p :: p in s.procs && l in s.procs[p].held ==> MutexAt(s, l) && s.locks[l].locked)
    && (forall l, p, q :: p in s.procs && q in s.procs && l in s.procs[p].held && l in s.procs[q].held ==> p == q)
    && (forall l: nat :: MutexAt(s, l) && !s.locks[l].locked && s.locks[l].blocked != [] ==>
        exists p :: Retrying(s, l, p))
  }

  ghost predicate SemCounts(s: State, l: nat)
    requires SemAt(s, l)
  {
    var k := s.locks[l];
    && k.count == k.initial - k.permits - |Pending(s, l)|
    && 0 <= k.permits <= k.initial
  }

  ghost predicate SemOk(s: State) {
    forall l: nat {:trigger SemCounts(s, l)} :: SemAt(s, l) ==> SemCounts(s, l)
  }

  /** Everything that does not say who is running. */
  ghost predicate Core(s: State) {
    && Places(s) && ProcsOk(s) && IdleOk(s) && TreeOk(s) && WaitsOk(s) && PagesOk(s) && MutexOk(s) && SemOk(s)
  }

  ghost predicate OneRunning(s: State) {
    s.current in s.procs && forall p :: p in s.procs ==> (s.procs[p].state == RUNNING <==> p == s.current)
  }

  /** The invariant at every step boundary. */
  ghost predicate Inv(s: State) {
    Core(s) && OneRunning(s)
  }

  /** The caller has given up the processor and the scheduler has not chosen yet. */
  ghost predicate Off(s: State) {
    Core(s) && forall p :: p in s.procs ==> s.procs[p].state != RUNNING
  }

  // ---- scheduler ----

  lemma PickIsFromQueue(q: seq<Pid>)
    requires q != [] && NoDup(q)
    ensures var (n, rest) := Pick(q);
            && n in q && NoDup(rest) && n !in rest
            && (forall p :: p in rest <==> p in q && p != n)
  {
    var (n, rest) := Pick(q);
    if q[0] == 0 && |q| > 1 {
      assert rest == q[2..] + [0];
      assert q == [0, n] + q[2..];
    } else {
      assert q == [n] + rest;
    }
  }

  /** A list that no step touches, with the same members. */
  lemma SameList(s: State, t: State, k: ListKind)
    requires ListOk(s, k) && ListOf(t, k) == ListOf(s, k)
    requires forall p :: Belongs(t, k, p) <==> Belongs(s, k, p)
    ensures ListOk(t, k)
  {}

  lemma PushList(s: State, t: State, k: ListKind, x: Pid)
    requires ListOk(s, k) && ListOf(t, k) == ListOf(s, k) + [x] && !Belongs(s, k, x)
    requires forall p :: Belongs(t, k, p) <==> Belongs(s, k, p) || p == x
    ensures ListOk(t, k)
  {}

  lemma RemoveList(s: State, t: State, k: ListKind, x: Pid)
    requires ListOk(s, k) && ListOf(t, k) == Remove(ListOf(s, k), x)
    requires forall p :: Belongs(t, k, p) <==> Belongs(s, k, p) && p != x
    ensures ListOk(t, k)
  {
    RemoveNoDup(ListOf(s, k), x);
  }

  lemma PopList(s: State, t: State, k: ListKind)
    requires ListOk(s, k) && ListOf(s, k) != [] && ListOf(t, k) == ListOf(s, k)[1..]
    requires forall p :: Belongs(t, k, p) <==> Belongs(s, k, p) && p != ListOf(s, k)[0]
    ensures ListOk(t, k)
  {
    var q := ListOf(s, k);
    assert q == [q[0]] + q[1..];
  }

  /** No list changes, nor any field that decides who belongs on one. */
  lemma SamePlaces(s: State, t: State)
    requires Places(s) && t.procs.Keys == s.procs.Keys
    requires forall k :: ListOf(t, k) == ListOf(s, k)
    requires |t.locks| == |s.locks|
    requires forall p :: p in s.procs ==> t.procs[p].state == s.procs[p].state && t.procs[p].lock == s.procs[p].lock
                                          && t.procs[p].owner == s.procs[p].owner
    ensures Places(t)
  {
    forall k ensures ListOk(t, k) {
      assert ListOk(s, k);
      SameList(s, t, k);
    }
  }

  lemma SchedulePlaces(s: State)
    requires Places(s) && CanSchedule(s)
    ensures Places(Schedule(s))
  {
    var t := Schedule(s);
    assert ListOk(s, ReadyQueue);
    PickIsFromQueue(s.ready);
    forall k ensures ListOk(t, k) {
      assert ListOk(s, k);
      if k != ReadyQueue {
        SameList(s, t, k);
      }
    }
  }

  lemma SchedulePreserves(s: State)
    requires Off(s)
    ensures CanSchedule(s)
    ensures Inv(Schedule(s))
  {
    assert ListOk(s, ReadyQueue);
    assert Belongs(s, ReadyQueue, 0);
    PickIsFromQueue(s.ready);
    var t := Schedule(s);
    SchedulePlaces(s);
    assert ProcOk(s, t.current);
    SameProcs(s, t);
    ScheduleRest(s);
  }

  lemma ScheduleRest(s: State)
    requires TreeOk(s) && WaitsOk(s) && PagesOk(s) && MutexOk(s) && SemOk(s)
    requires CanSchedule(s) && s.procs[Pick(s.ready).0].state == READY
    ensures TreeOk(Schedule(s)) && WaitsOk(Schedule(s)) && PagesOk(Schedule(s))
    ensures MutexOk(Schedule(s)) && SemOk(Schedule(s))
  {
    var t := Schedule(s);
    SameTree(s, t);
    SameWaits(s, t);
    SamePages(s, t);
    SameLocks(s, t);
  }

  /** Only processes that are ready, running or in a retry loop change, and not their part in fork or waitpid. */
  lemma SameProcs(s: State, t: State)
    requires ProcsOk(s) && t.procs.Keys == s.procs.Keys && t.nextPid == s.nextPid && |t.locks| == |s.locks|
    requires forall p :: p in s.procs ==>
               var r, r' := s.procs[p], t.procs[p];
               && r' == r.(state := r'.state, lock := r'.lock, held := r'.held, ret := r'.ret)
               && (r'.state != r.state || r'.lock != r.lock ==>
                     && Lives(s, p) && Lives(t, p) && r.task != Waiting
                     && (r'.state == BLOCKED ==> r'.lock.Some?)
                     && (r'.lock.Some? ==> r'.lock.value < |s.locks|))
    ensures ProcsOk(t)
  {
    forall p | p in t.procs ensures ProcOk(t, p) { assert ProcOk(s, p); }
  }

  lemma SameTree(s: State, t: State)
    requires TreeOk(s) && t.procs.Keys == s.procs.Keys && t.nextPid == s.nextPid
    requires forall p :: p in s.procs ==> t.procs[p].ppid == s.procs[p].ppid
    requires forall p :: p in s.procs ==> (t.procs[p].state == ZOMBIE <==> s.procs[p].state == ZOMBIE)
                                          && (t.procs[p].state == EMPTY <==> s.procs[p].state == EMPTY)
    ensures TreeOk(t)
  {
    forall p | p in t.procs ensures ParentLives(t, p) {
      assert ParentLives(s, p);
    }
  }

  lemma SameWaits(s: State, t: State)
    requires WaitsOk(s) && s.procs.Keys <= t.procs.Keys
    requires forall w :: w in t.waiters ==> w in s.waiters && w in s.procs && s.procs[w].waitPid == t.procs[w].waitPid
    requires forall c :: Lives(s, c) ==> Lives(t, c) && t.procs[c].ppid == s.procs[c].ppid
    ensures WaitsOk(t)
  {
    forall w | w in t.waiters ensures exists c :: Awaited(t, w, c) {
      var c :| Awaited(s, w, c);
      assert Awaited(t, w, c);
    }
  }

  /** Steps that leave memory and its claims alone. */
  lemma SamePages(s: State, t: State)
    requires PagesOk(s) && t.pages == s.pages && t.procs.Keys == s.procs.Keys
    requires forall p :: p in s.procs ==> t.procs[p].cbr == s.procs[p].cbr
    requires forall p :: p in s.procs ==> t.procs[p].task == s.procs[p].task
                                          || (!t.procs[p].task.ForkAllocated? && !s.procs[p].task.ForkAllocated?)
    ensures PagesOk(t)
  {
    assert forall p, b :: Claims(t, p, b) <==> Claims(s, p, b);
  }

  /** Who holds a mutex has held it before. */
  lemma HeldBefore(s: State, t: State, l: nat, p: Pid)
    requires MutexOk(s) && p in t.procs && l in t.procs[p].held
    requires if p in s.procs then t.procs[p].held == s.procs[p].held else t.procs[p].held == {}
    ensures p in s.procs && l in s.procs[p].held && MutexAt(s, l) && s.locks[l].locked
  {
    assert p in s.procs && l in s.procs[p].held ==> MutexAt(s, l) && s.locks[l].locked;
  }

  /** Steps that leave locks, and who is inside them, alone; processes come and go outside them. */
  lemma SameLocks(s: State, t: State)
    requires MutexOk(s) && SemOk(s) && t.locks == s.locks
    requires forall p :: p in s.procs && p in t.procs ==>
               t.procs[p].lock == s.procs[p].lock && t.procs[p].held == s.procs[p].held
    requires forall p :: p in s.procs && s.procs[p].lock.Some? ==>
               p in t.procs && (t.procs[p].state == BLOCKED <==> s.procs[p].state == BLOCKED)
    requires forall p :: p in t.procs && p !in s.procs ==> t.procs[p].lock == None && t.procs[p].held == {}
    ensures MutexOk(t) && SemOk(t)
  {
    forall l: nat | SemAt(t, l) ensures SemCounts(t, l) {
      assert SemCounts(s, l);
      assert Pending(t, l) == Pending(s, l);
    }
    forall l: nat, p | p in t.procs && l in t.procs[p].held ensures MutexAt(t, l) && t.locks[l].locked {
      HeldBefore(s, t, l, p);
    }
    forall l: nat, p, q | p in t.procs && q in t.procs && l in t.procs[p].held && l in t.procs[q].held ensures p == q {
      HeldBefore(s, t, l, p);
      HeldBefore(s, t, l, q);
    }
    forall l: nat | MutexAt(t, l) && !t.locks[l].locked && t.locks[l].blocked != []
      ensures exists p :: Retrying(t, l, p) {
      var p :| Retrying(s, l, p);
      assert Retrying(t, l, p);
    }
  }
}
