/** The process table, scheduler and blocking primitives as a transition system.
    One step is one critical section, cut where the code calls the scheduler. */
module Kernel {
  import opened Lists
  import opened PageMap

  type Pid = nat

  datatype ProcState = EMPTY | READY | RUNNING | BLOCKED | ZOMBIE

  /** Where a process stands in a system call that spans several steps (its kernel stack). */
  datatype Task =
    | Free                          // in user mode, or in kernel code outside these calls
    | ForkAllocated(block: nat)     // process_new holds a page block but no process yet
    | ForkCreated(child: Pid)       // child is on the process list, its ppid is still 0
    | ForkParented(child: Pid)      // ppid is set; files and memory are being copied
    | Waiting                       // asleep in sys_waitpid, or just resumed from it
    | Reaping(zombie: Pid)          // sys_waitpid found this zombie and will destroy it

  /** `lock` is the lock whose retry loop the process is in.
      `owner` and `held` are history: who is building or reaping this process, and the mutexes it locked. */
  datatype Proc = Proc(cbr: nat, state: ProcState, ppid: Pid, status: int, waitPid: int,
                       waitProcess: Option<Pid>, ret: int, task: Task, lock: Option<nat>,
                       owner: Option<Pid>, held: set<nat>)

  /** `initial` and `permits` are history: the initial count and the permits now held. */
  datatype Lock =
    | Mutex(locked: bool, blocked: seq<Pid>)
    | Semaphore(count: int, blocked: seq<Pid>, initial: int, permits: int)

  datatype State = State(processList: seq<Pid>, procs: map<Pid, Proc>, ready: seq<Pid>, zombies: seq<Pid>,
                         waiters: seq<Pid>, locks: seq<Lock>, current: Pid, nextPid: Pid, pages: seq<Word>)

  datatype Event =
    | Tick
    | ForkBegin(heap: bool)
    | ForkCreate
    | ForkSetParent
    | ForkFail
    | ForkDone
    | Waitpid(pid: int, options: int)
    | WaitResume
    | Reap
    | Exit(code: int)
    | MutexLock(l: nat)
    | MutexTryLock(l: nat)
    | MutexUnlock(l: nat)
    | SemWait(l: nat)
    | SemTryWait(l: nat)
    | SemSignal(l: nat)
    | Retry

  const WNOHANG: int := 1

  // ---- scheduler ----

  /** process_schedule's choice: the front of the queue, unless that is PID 0 and another is ready. */
  function Pick(ready: seq<Pid>): (r: (Pid, seq<Pid>))
    requires ready != []
  {
    if ready[0] == 0 && |ready| > 1 then (ready[1], ready[2..] + [0]) else (ready[0], ready[1..])
  }

  function Switch(s: State, p: Pid): State
    requires p in s.procs
  {
    s.(current := p, procs := s.procs[p := s.procs[p].(state := RUNNING)])
  }

  predicate CanSchedule(s: State) {
    s.ready != [] && Pick(s.ready).0 in s.procs
  }

  function Schedule(s: State): State
    requires CanSchedule(s)
  {
    var (next, rest) := Pick(s.ready);
    Switch(s.(ready := rest), next)
  }

  function SetCurrent(s: State, p: Proc): State {
    s.(procs := s.procs[s.current := p])
  }

  function Cur(s: State): Proc
    requires s.current in s.procs
  {
    s.procs[s.current]
  }

  /** process_tick up to its call of process_schedule. */
  function Yield(s: State): State
    requires s.current in s.procs
  {
    SetCurrent(s, Cur(s).(state := READY)).(ready := s.ready + [s.current])
  }

  // ---- fork ----

  function Allocate(s: State, heap: bool): State
    requires s.current in s.procs
  {
    match FirstFree(s.pages, 0)
    case Some(b) =>
      if heap then SetCurrent(s, Cur(s).(task := ForkAllocated(b))).(pages := s.pages[b := FULL])
      else SetCurrent(s, Cur(s).(ret := -1))
    case None => SetCurrent(s, Cur(s).(ret := -1))
  }

  function NewProc(block: nat, maker: Pid): Proc {
    Proc(block * PAGES_PER_BLOCK, EMPTY, 0, 0, 0, None, 0, Free, None, Some(maker), {})
  }

  function Create(s: State): State
    requires s.current in s.procs && Cur(s).task.ForkAllocated?
  {
    var c := s.nextPid;
    var s1 := SetCurrent(s, Cur(s).(task := ForkCreated(c)));
    s1.(procs := s1.procs[c := NewProc(Cur(s).task.block, s.current)],
        processList := s.processList + [c], nextPid := c + 1)
  }

  function SetParent(s: State): State
    requires s.current in s.procs && Cur(s).task.ForkCreated? && Cur(s).task.child in s.procs
  {
    var c := Cur(s).task.child;
    var s1 := SetCurrent(s, Cur(s).(task := ForkParented(c)));
    s1.(procs := s1.procs[c := s.procs[c].(ppid := s.current)])
  }

  /** process_destroy. */
  function Destroy(s: State, p: Pid): State
    requires p in s.procs && s.procs[p].cbr / PAGES_PER_BLOCK < |s.pages|
  {
    s.(pages := s.pages[s.procs[p].cbr / PAGES_PER_BLOCK := 0],
       processList := Remove(s.processList, p),
       procs := s.procs - {p})
  }

  function ForkFailed(s: State): State
    requires s.current in s.procs && Cur(s).task.ForkParented? && Cur(s).task.child in s.procs
    requires s.procs[Cur(s).task.child].cbr / PAGES_PER_BLOCK < |s.pages|
  {
    Destroy(SetCurrent(s, Cur(s).(task := Free, ret := -1)), Cur(s).task.child)
  }

  /** The child is queued; it will resume in the same system call and return 0. */
  function ForkComplete(s: State): State
    requires s.current in s.procs && Cur(s).task.ForkParented? && Cur(s).task.child in s.procs
  {
    var c := Cur(s).task.child;
    var s1 := SetCurrent(s, Cur(s).(task := Free, ret := c));
    s1.(procs := s1.procs[c := s.procs[c].(state := READY, owner := None, ret := 0)], ready := s.ready + [c])
  }

  // ---- waitpid ----

  predicate Matches(wanted: int, p: Pid) {
    wanted == -1 || wanted == p
  }

  predicate IsChild(s: State, p: Pid, parent: Pid, wanted: int) {
    p in s.procs && s.procs[p].ppid == parent && Matches(wanted, p)
  }

  /** The first process of a list that is a matching child. */
  function FindChild(s: State, list: seq<Pid>, parent: Pid, wanted: int): (r: Option<Pid>)
    ensures r.Some? ==> r.value in list && IsChild(s, r.value, parent, wanted)
    ensures r == None ==> forall p :: p in list ==> !IsChild(s, p, parent, wanted)
  {
    if list == [] then None
    else if IsChild(s, list[0], parent, wanted) then Some(list[0])
    else FindChild(s, list[1..], parent, wanted)
  }

  /** It is the first: nothing before it is a matching child. */
  lemma {:induction false} FindChildFirst(s: State, list: seq<Pid>, parent: Pid, wanted: int, i: nat)
    requires i < |list| && IsChild(s, list[i], parent, wanted)
    requires forall k :: 0 <= k < i ==> !IsChild(s, list[k], parent, wanted)
    ensures FindChild(s, list, parent, wanted) == Some(list[i])
  {
    if i > 0 {
      FindChildFirst(s, list[1..], parent, wanted, i - 1);
    }
  }

  function StartWait(s: State, pid: int): State
    requires s.current in s.procs
  {
    SetCurrent(s, Cur(s).(state := BLOCKED, task := Waiting, waitPid := pid, waitProcess := None))
      .(waiters := s.waiters + [s.current])
  }

  /** The first critical section of sys_waitpid, up to a call of the scheduler if it must sleep. */
  function WaitEnter(s: State, pid: int, options: int): State
    requires s.current in s.procs
  {
    if options != 0 && options != WNOHANG then SetCurrent(s, Cur(s).(ret := -1))
    else
      match FindChild(s, s.zombies, s.current, pid)
      case Some(z) =>
        var s1 := SetCurrent(s, Cur(s).(task := Reaping(z)));
        if z in s1.procs
        then s1.(procs := s1.procs[z := s1.procs[z].(owner := Some(s.current))], zombies := Remove(s.zombies, z))
        else s1
      case None =>
        if FindChild(s, s.processList, s.current, pid) == None then SetCurrent(s, Cur(s).(ret := -1))
        else if options == WNOHANG then SetCurrent(s, Cur(s).(ret := 0))
        else StartWait(s, pid)
  }

  /** True when WaitEnter puts the caller to sleep. */
  predicate WaitSleeps(s: State, pid: int, options: int) {
    && options == 0
    && FindChild(s, s.zombies, s.current, pid) == None
    && FindChild(s, s.processList, s.current, pid) != None
  }

  /** After the sleep: take wait_process as the zombie found, or return 0 if it is NULL. */
  function WaitWake(s: State): State
    requires s.current in s.procs
  {
    match Cur(s).waitProcess
    case Some(z) => SetCurrent(s, Cur(s).(task := Reaping(z)))
    case None => SetCurrent(s, Cur(s).(task := Free, ret := 0))
  }

  function ReapZombie(s: State): State
    requires s.current in s.procs && Cur(s).task.Reaping? && Cur(s).task.zombie in s.procs
    requires s.procs[Cur(s).task.zombie].cbr / PAGES_PER_BLOCK < |s.pages|
  {
    var z := Cur(s).task.zombie;
    Destroy(SetCurrent(s, Cur(s).(task := Free, ret := z)), z)
  }

  // ---- exit ----

  /** Every child of `parent` takes PPID 1. */
  function Reparent(procs: map<Pid, Proc>, parent: Pid): map<Pid, Proc> {
    map p | p in procs :: if procs[p].ppid == parent then procs[p].(ppid := 1) else procs[p]
  }

  /** The first sleeping waiter that is the parent of `child` and waits for it. */
  function FindWaiter(s: State, list: seq<Pid>, child: Pid): (r: Option<Pid>)
    requires child in s.procs
    ensures r.Some? ==> r.value in list && r.value in s.procs && r.value == s.procs[child].ppid
                        && Matches(s.procs[r.value].waitPid, child)
    ensures r == None ==> forall w :: w in list && w in s.procs && w == s.procs[child].ppid ==>
                                        !Matches(s.procs[w].waitPid, child)
  {
    if list == [] then None
    else if list[0] in s.procs && list[0] == s.procs[child].ppid && Matches(s.procs[list[0]].waitPid, child)
    then Some(list[0])
    else FindWaiter(s, list[1..], child)
  }

  /** The process becomes a zombie and its children move to PID 1. */
  function Die(s: State, code: int): State
    requires s.current in s.procs
  {
    var s1 := SetCurrent(s, Cur(s).(state := ZOMBIE, status := code % 256));
    s1.(procs := Reparent(s1.procs, s.current))
  }

  /** The zombie is given to a sleeping parent, which runs at once. */
  function HandOver(s: State, w: Pid): State
    requires s.current in s.procs && w in s.procs
  {
    var s1 := SetCurrent(s, Cur(s).(owner := Some(w)));
    Switch(s1.(procs := s1.procs[w := s1.procs[w].(waitProcess := Some(s.current))],
               waiters := Remove(s.waiters, w)), w)
  }

  function Bury(s: State): State {
    s.(zombies := s.zombies + [s.current])
  }

  // ---- locks ----

  predicate MutexAt(s: State, l: nat) {
    l < |s.locks| && s.locks[l].Mutex?
  }

  predicate SemAt(s: State, l: nat) {
    l < |s.locks| && s.locks[l].Semaphore?
  }

  function SetLock(s: State, l: nat, k: Lock): State
    requires l < |s.locks|
  {
    s.(locks := s.locks[l := k])
  }

  /** The loop guards of mutex_lock and semaphore_wait. */
  predicate MustSleep(k: Lock) {
    match k
    case Mutex(locked, _) => locked
    case Semaphore(count, _, _, _) => count < 0
  }

  /** One turn of the retry loop that sleeps, up to its call of the scheduler. */
  function Sleep(s: State, l: nat): State
    requires s.current in s.procs && l < |s.locks|
  {
    SetLock(SetCurrent(s, Cur(s).(state := BLOCKED, lock := Some(l))), l,
            s.locks[l].(blocked := s.locks[l].blocked + [s.current]))
  }

  /** Leaving the retry loop. */
  function Acquire(s: State, l: nat): State
    requires s.current in s.procs && l < |s.locks|
  {
    match s.locks[l]
    case Mutex(_, _) =>
      SetLock(SetCurrent(s, Cur(s).(lock := None, held := Cur(s).held + {l})), l, s.locks[l].(locked := true))
    case Semaphore(_, _, _, permits) =>
      SetLock(SetCurrent(s, Cur(s).(lock := None)), l, s.locks[l].(permits := permits + 1))
  }

  function Decrement(s: State, l: nat): State
    requires SemAt(s, l)
  {
    SetLock(s, l, s.locks[l].(count := s.locks[l].count - 1))
  }

  /** The front sleeper, if any, becomes ready. */
  function WakeFront(s: State, l: nat): State
    requires l < |s.locks|
  {
    var q := s.locks[l].blocked;
    if q != [] && q[0] in s.procs then
      SetLock(s, l, s.locks[l].(blocked := q[1..]))
        .(procs := s.procs[q[0] := s.procs[q[0]].(state := READY)], ready := s.ready + [q[0]])
    else s
  }

  function Unlock(s: State, l: nat): State
    requires MutexAt(s, l) && s.current in s.procs
  {
    WakeFront(SetLock(SetCurrent(s, Cur(s).(held := Cur(s).held - {l})), l, s.locks[l].(locked := false)), l)
  }

  function Signal(s: State, l: nat): State
    requires SemAt(s, l)
  {
    WakeFront(SetLock(s, l, s.locks[l].(count := s.locks[l].count + 1, permits := s.locks[l].permits - 1)), l)
  }

  // ---- the whole system ----

  /** A turn of a retry loop: the process goes on, or sleeps and another is scheduled. */
  predicate CanTry(s: State, l: nat) {
    && l < |s.locks|
    && s.current in s.procs
    && (MustSleep(s.locks[l]) ==> CanSchedule(Sleep(s, l)))
  }

  function Try(s: State, l: nat): State
    requires CanTry(s, l)
  {
    if MustSleep(s.locks[l]) then Schedule(Sleep(s, l)) else Acquire(s, l)
  }

  /** Interrupts are enabled, so the timer can fire. */
  predicate Interruptible(p: Proc) {
    p.lock == None && p.task != Waiting
  }

  predicate AtEase(p: Proc) {
    p.lock == None && p.task == Free
  }

  /** A call on a mutex or semaphore, or a turn of its loop. */
  predicate OnLock(e: Event) {
    e.MutexLock? || e.MutexTryLock? || e.MutexUnlock? || e.SemWait? || e.SemTryWait? || e.SemSignal? || e.Retry?
  }

  /** When a step can start: what its caller has done before, and what PID 0 does not do:
      exit, sleep in waitpid, or take a lock that is not free (src/main.c:92-96). */
  predicate Enabled(s: State, e: Event) {
    s.current in s.procs &&
    match e
    case Tick => Interruptible(Cur(s))
    case ForkBegin(_) => AtEase(Cur(s))
    case ForkCreate => Cur(s).lock == None && Cur(s).task.ForkAllocated?
    case ForkSetParent => Cur(s).lock == None && Cur(s).task.ForkCreated?
    case ForkFail => Cur(s).lock == None && Cur(s).task.ForkParented?
    case ForkDone => Cur(s).lock == None && Cur(s).task.ForkParented?
    case Waitpid(_, options) => AtEase(Cur(s)) && (s.current == 0 ==> options == WNOHANG)
    case WaitResume => Cur(s).task == Waiting
    case Reap => Cur(s).lock == None && Cur(s).task.Reaping?
    case Exit(_) => AtEase(Cur(s)) && s.current != 0
    case MutexLock(l) => MutexAt(s, l) && Interruptible(Cur(s)) && (s.current == 0 ==> !s.locks[l].locked)
    case MutexTryLock(l) => MutexAt(s, l) && Interruptible(Cur(s))
    case MutexUnlock(l) => MutexAt(s, l) && Interruptible(Cur(s)) && l in Cur(s).held
    case SemWait(l) => SemAt(s, l) && Interruptible(Cur(s)) && (s.current == 0 ==> s.locks[l].count > 0)
    case SemTryWait(l) => SemAt(s, l) && Interruptible(Cur(s))
    case SemSignal(l) => SemAt(s, l) && Interruptible(Cur(s)) && s.locks[l].permits > 0
    case Retry => Cur(s).lock.Some?
  }

  /** What a step reads is there: no empty-queue pop, no missing process. Proved for every reachable state. */
  predicate Safe(s: State, e: Event)
    requires Enabled(s, e)
  {
    match e
    case Tick => CanSchedule(Yield(s))
    case ForkSetParent => Cur(s).task.child in s.procs
    case ForkFail => Cur(s).task.child in s.procs && s.procs[Cur(s).task.child].cbr / PAGES_PER_BLOCK < |s.pages|
    case ForkDone => Cur(s).task.child in s.procs
    case Waitpid(pid, options) => WaitSleeps(s, pid, options) ==> CanSchedule(WaitEnter(s, pid, options))
    case Reap => Cur(s).task.zombie in s.procs && s.procs[Cur(s).task.zombie].cbr / PAGES_PER_BLOCK < |s.pages|
    case Exit(code) =>
      var d := Die(s, code);
      d.current in d.procs && (FindWaiter(d, d.waiters, d.current) == None ==> CanSchedule(Bury(d)))
    case MutexLock(l) => CanTry(s, l)
    case SemWait(l) => CanTry(Decrement(s, l), l)
    case Retry => CanTry(s, Cur(s).lock.value)
    case _ => true
  }

  function Step(s: State, e: Event): State
    requires Enabled(s, e) && Safe(s, e)
  {
    match e
    case Tick => Schedule(Yield(s))
    case ForkBegin(heap) => Allocate(s, heap)
    case ForkCreate => Create(s)
    case ForkSetParent => SetParent(s)
    case ForkFail => ForkFailed(s)
    case ForkDone => ForkComplete(s)
    case Waitpid(pid, options) =>
      var s1 := WaitEnter(s, pid, options);
      if WaitSleeps(s, pid, options) then Schedule(s1) else s1
    case WaitResume => WaitWake(s)
    case Reap => ReapZombie(s)
    case Exit(code) =>
      var d := Die(s, code);
      (match FindWaiter(d, d.waiters, d.current)
       case Some(w) => HandOver(d, w)
       case None => Schedule(Bury(d)))
    case MutexLock(l) => Try(s, l)
    case MutexTryLock(l) =>
      if s.locks[l].locked then SetCurrent(s, Cur(s).(ret := 0)) else Acquire(SetCurrent(s, Cur(s).(ret := 1)), l)
    case MutexUnlock(l) => Unlock(s, l)
    case SemWait(l) => Try(Decrement(s, l), l)
    case SemTryWait(l) =>
      if s.locks[l].count <= 0 then SetCurrent(s, Cur(s).(ret := 0))
      else Acquire(Decrement(SetCurrent(s, Cur(s).(ret := 1)), l), l)
    case SemSignal(l) => Signal(s, l)
    case Retry => Try(s, Cur(s).lock.value)
  }
}
