/** Bounded waiting in the ready queue. */
module KernelFairness {
  import opened Lists
  import opened Kernel
  import opened KernelInv
  import opened KernelRuns

  /** The step calls process_schedule. */
  predicate Schedules(s: State, e: Event)
    requires Enabled(s, e)
  {
    match e
    case Tick => true
    case Waitpid(pid, options) => WaitSleeps(s, pid, options)
    case Exit(code) => var d := Die(s, code); FindWaiter(d, d.waiters, d.current) == None
    case MutexLock(l) => s.locks[l].locked
    case SemWait(l) => s.locks[l].count <= 0
    case Retry => Cur(s).lock.value < |s.locks| && MustSleep(s.locks[Cur(s).lock.value])
    case _ => false
  }

  /** The ready queue that process_schedule finds: a timer tick first queues the running process. */
  function QueueSeen(s: State, e: Event): seq<Pid> {
    if e == Tick then s.ready + [s.current] else s.ready
  }

  lemma SchedulingStep(s: State, e: Event)
    requires Enabled(s, e) && Safe(s, e) && Schedules(s, e)
    ensures var q := QueueSeen(s, e);
            var t := Step(s, e);
            q != [] && t.current == Pick(q).0 && t.ready == Pick(q).1
  {}

  lemma OtherStep(s: State, e: Event)
    requires Enabled(s, e) && Safe(s, e) && !Schedules(s, e)
    ensures s.ready <= Step(s, e).ready
  {}

  /** PID 0 gets the processor only when nobody else is ready. */
  lemma IdleRunsLast(s: State, e: Event)
    requires Reachable(s) && Enabled(s, e) && Safe(s, e) && Schedules(s, e)
    ensures Step(s, e).current == 0 <==> QueueSeen(s, e) == [0]
  {
    ReachableInv(s);
    SchedulingStep(s, e);
    assert ListOk(s, ReadyQueue);
    var q := QueueSeen(s, e);
    assert !Belongs(s, ReadyQueue, s.current);
    assert NoDup(q);
  }

  /** One call of the scheduler brings a waiting process at least one place forward, or dispatches it. */
  lemma PickAdvances(q: seq<Pid>, p: Pid, k: nat)
    requires k < |q| && q[k] == p && p != 0
    ensures var (n, rest) := Pick(q);
            n == p || exists j: nat :: j < k && j < |rest| && rest[j] == p
  {
    var (n, rest) := Pick(q);
    if n != p {
      if q[0] == 0 && |q| > 1 {
        assert k >= 2 && rest[k - 2] == p;
      } else {
        assert k >= 1 && rest[k - 1] == p;
      }
    }
  }

  ghost function Calls(tr: seq<State>, es: seq<Event>, i: nat, j: nat): nat
    requires Run(tr, es) && i <= j <= |es|
  {
    if i == j then 0
    else
      assert Next(tr[j - 1], es[j - 1], tr[j]);
      Calls(tr, es, i, j - 1) + (if Schedules(tr[j - 1], es[j - 1]) then 1 else 0)
  }

  ghost predicate Dispatched(tr: seq<State>, i: nat, j: nat, p: Pid) {
    exists m :: i < m <= j && m < |tr| && tr[m].current == p
  }

  lemma StepAdvances(s: State, e: Event, t: State, p: Pid, m: nat)
    requires Next(s, e, t) && m < |s.ready| && s.ready[m] == p && p != 0
    ensures t.current == p
            || exists k: nat :: k + (if Schedules(s, e) then 1 else 0) <= m && k < |t.ready| && t.ready[k] == p
  {
    if Schedules(s, e) {
      SchedulingStep(s, e);
      PickAdvances(QueueSeen(s, e), p, m);
    } else {
      OtherStep(s, e);
      assert t.ready[m] == p;
    }
  }

  lemma {:induction false} WaitsOrRuns(tr: seq<State>, es: seq<Event>, i: nat, j: nat, p: Pid, k: nat)
    requires Run(tr, es) && i <= j <= |es| && p != 0
    requires k < |tr[i].ready| && tr[i].ready[k] == p
    ensures Dispatched(tr, i, j, p)
            || exists m: nat :: m + Calls(tr, es, i, j) <= k && m < |tr[j].ready| && tr[j].ready[m] == p
  {
    if i < j {
      WaitsOrRuns(tr, es, i, j - 1, p, k);
      assert Next(tr[j - 1], es[j - 1], tr[j]);
      if Dispatched(tr, i, j - 1, p) {
        var m :| i < m <= j - 1 && m < |tr| && tr[m].current == p;
        assert Dispatched(tr, i, j, p);
      } else {
        var m: nat :| m + Calls(tr, es, i, j - 1) <= k && m < |tr[j - 1].ready| && tr[j - 1].ready[m] == p;
        StepAdvances(tr[j - 1], es[j - 1], tr[j], p, m);
        if tr[j].current == p {
          assert Dispatched(tr, i, j, p);
        }
      }
    } else {
      assert k + Calls(tr, es, i, j) <= k;
    }
  }

  /** A process other than PID 0 at index k of the ready queue runs within k+1 calls of the scheduler,
      whatever else becomes ready meanwhile. */
  lemma BoundedWaiting(tr: seq<State>, es: seq<Event>, i: nat, j: nat, p: Pid, k: nat)
    requires Run(tr, es) && i <= j <= |es| && p != 0
    requires k < |tr[i].ready| && tr[i].ready[k] == p
    requires Calls(tr, es, i, j) >= k + 1
    ensures Dispatched(tr, i, j, p)
  {
    WaitsOrRuns(tr, es, i, j, p, k);
  }
}
