/** The process tree, memory ownership and the end of a process, over whole runs. */
module KernelSafety {
  import opened Lists
  import opened PageMap
  import opened Kernel
  import opened KernelInv
  import opened KernelRuns

  // ---- process tree ----

  /** n steps up the chain of parents. */
  ghost function Ancestor(s: State, p: Pid, n: nat): Option<Pid>
    decreases n
  {
    if n == 0 then (if p in s.procs then Some(p) else None)
    else if p in s.procs then Ancestor(s, s.procs[p].ppid, n - 1)
    else None
  }

  lemma {:induction false} AncestorDescends(s: State, p: Pid, n: nat)
    requires TreeOk(s) && p > 0 && n > 0
    ensures Ancestor(s, p, n) != Some(p)
    ensures Ancestor(s, p, n).Some? ==> Ancestor(s, p, n).value < p
  {
    if p in s.procs {
      var q := s.procs[p].ppid;
      if n > 1 {
        if q > 0 {
          AncestorDescends(s, q, n - 1);
        } else {
          ZeroIsTop(s, n - 1);
        }
      }
    }
  }

  lemma {:induction false} ZeroIsTop(s: State, n: nat)
    requires TreeOk(s)
    ensures Ancestor(s, 0, n).Some? ==> Ancestor(s, 0, n).value == 0
  {
    if n > 0 {
      ZeroIsTop(s, n - 1);
    }
  }

  /** Some process is still a child of PID 1. */
  ghost predicate HasOrphans(s: State) {
    exists p :: p in s.procs && s.procs[p].ppid == 1
  }

  ghost predicate HasLiveParent(s: State, p: Pid) {
    p in s.procs ==> Lives(s, s.procs[p].ppid)
  }

  ghost predicate ParentsLive(s: State) {
    forall p {:trigger HasLiveParent(s, p)} :: HasLiveParent(s, p)
  }

  /** Every process has a live parent exactly as long as PID 1 lives or has no children. */
  lemma ParentsLiveWhile(s: State)
    requires TreeOk(s)
    ensures ParentsLive(s) <==> Lives(s, 1) || !HasOrphans(s)
  {
    forall p | Lives(s, 1) || !HasOrphans(s) ensures HasLiveParent(s, p) {
      assert p in s.procs ==> ParentLives(s, p);
    }
    if HasOrphans(s) {
      var p :| p in s.procs && s.procs[p].ppid == 1;
      assert HasLiveParent(s, p) ==> Lives(s, 1);
    }
  }

  ghost predicate DescendsFromZero(s: State, p: Pid) {
    exists n: nat :: n <= p && Ancestor(s, p, n) == Some(0)
  }

  lemma {:induction false} ChainReachesZero(s: State, p: Pid)
    requires TreeOk(s) && ParentsLive(s) && p in s.procs
    ensures DescendsFromZero(s, p)
    decreases p
  {
    if p == 0 {
      assert Ancestor(s, p, 0) == Some(0);
    } else {
      var q := s.procs[p].ppid;
      assert HasLiveParent(s, p);
      ChainReachesZero(s, q);
      var n: nat :| n <= q && Ancestor(s, q, n) == Some(0);
      assert Ancestor(s, p, n + 1) == Some(0);
    }
  }

  /** Parents come before children, so no process is its own ancestor; every process has a live parent,
      and descends from PID 0, exactly as long as PID 1 lives or has no children. */
  lemma ProcessTree(s: State)
    requires Reachable(s)
    ensures forall p :: p in s.procs && p > 0 ==> s.procs[p].ppid < p
    ensures forall p, n: nat :: p > 0 && n > 0 ==> Ancestor(s, p, n) != Some(p)
    ensures ParentsLive(s) <==> Lives(s, 1) || !HasOrphans(s)
    ensures ParentsLive(s) ==> forall p :: p in s.procs ==> DescendsFromZero(s, p)
  {
    assert TreeOk(s) by { ReachableInv(s); }
    ParentsLiveWhile(s);
    forall p: Pid, n: nat | p > 0 && n > 0 ensures Ancestor(s, p, n) != Some(p) {
      AncestorDescends(s, p, n);
    }
    if ParentsLive(s) {
      forall p | p in s.procs ensures DescendsFromZero(s, p) {
        ChainReachesZero(s, p);
      }
    }
  }

  // ---- memory ----

  ghost predicate Owned(s: State, b: nat) {
    exists p :: Claims(s, p, b)
  }

  /** Page blocks that processes account for. */
  ghost function OwnedBlocks(s: State): set<nat> {
    set b: nat | b < PAGE_BLOCK_COUNT && Owned(s, b)
  }

  lemma {:induction false} IntervalSize(lo: nat, hi: nat, blocks: set<nat>)
    requires lo <= hi && forall b :: b in blocks ==> lo <= b < hi
    ensures |blocks| <= hi - lo
    decreases hi - lo
  {
    if lo == hi {
      assert blocks == {};
    } else {
      IntervalSize(lo + 1, hi, blocks - {lo});
    }
  }

  lemma {:induction false} ImageSize(s: State, pids: set<Pid>, blocks: set<nat>)
    requires PagesOk(s) && pids <= s.procs.Keys
    requires forall p :: p in pids ==> Block(s, p) in blocks
    ensures |pids| <= |blocks|
    decreases pids
  {
    if pids != {} {
      var p :| p in pids;
      var b := Block(s, p);
      forall q | q in pids - {p} ensures Block(s, q) in blocks - {b} {
        assert Claims(s, p, b) && (Block(s, q) == b ==> Claims(s, q, b));
      }
      ImageSize(s, pids - {p}, blocks - {b});
    }
  }

  /** The used blocks are the reserved ones and the blocks of processes, each of one process only;
      so at most eight processes exist at once. */
  lemma MemoryIsConserved(s: State)
    requires Reachable(s)
    ensures |s.pages| == 16
    ensures forall b: nat :: b < |s.pages| ==> s.pages[b] == if b < 8 || b in OwnedBlocks(s) then 0xFFFF else 0
    ensures forall b: nat :: b in OwnedBlocks(s) ==> 8 <= b < 16
    ensures forall p, q, b :: Claims(s, p, b) && Claims(s, q, b) ==> p == q
    ensures forall p :: p in s.procs ==> Block(s, p) in OwnedBlocks(s)
    ensures |s.procs.Keys| <= 8
  {
    assert PagesOk(s) by { ReachableInv(s); }
    var owned := OwnedBlocks(s);
    forall b: nat | b in owned ensures RESERVED <= b {
      var p :| Claims(s, p, b);
    }
    forall p | p in s.procs ensures Block(s, p) in owned {
      assert Claims(s, p, Block(s, p));
      assert Owned(s, Block(s, p));
    }
    forall b: nat | b < |s.pages| ensures s.pages[b] == if b < RESERVED || b in owned then FULL else 0 {
      assert b in owned <==> Owned(s, b);
    }
    ImageSize(s, s.procs.Keys, owned);
    IntervalSize(RESERVED, PAGE_BLOCK_COUNT, owned);
  }

  predicate Unreserved(b: nat) {
    RESERVED <= b < PAGE_BLOCK_COUNT
  }

  /** fork takes the lowest block that no process accounts for, and fails exactly when there is none
      or the heap is exhausted. */
  lemma ForkTakesUnownedBlock(s: State, heap: bool)
    requires Reachable(s) && Enabled(s, ForkBegin(heap))
    ensures var t := Step(s, ForkBegin(heap));
            if heap && exists b: nat :: Unreserved(b) && b !in OwnedBlocks(s) then
              && t.procs[s.current].task.ForkAllocated?
              && Unreserved(t.procs[s.current].task.block)
              && t.procs[s.current].task.block !in OwnedBlocks(s)
              && forall b: nat :: Unreserved(b) && b !in OwnedBlocks(s) ==> t.procs[s.current].task.block <= b
            else t == SetCurrent(s, Cur(s).(ret := -1))
  {
    MemoryIsConserved(s);
    assert forall b: nat :: b < |s.pages| && s.pages[b] == 0 <==> Unreserved(b) && b !in OwnedBlocks(s);
  }

  // ---- the end of a process ----

  /** The process a step destroys. */
  function Destroyed(s: State, e: Event): Option<Pid>
    requires Enabled(s, e)
  {
    match e
    case ForkFail => Some(Cur(s).task.child)
    case Reap => Some(Cur(s).task.zombie)
    case _ => None
  }

  ghost predicate Gone(s: State, p: Pid) {
    p < s.nextPid && p !in s.procs
  }

  lemma DestroyRemoves(s: State, e: Event)
    requires Inv(s) && Enabled(s, e) && Safe(s, e) && Destroyed(s, e).Some?
    ensures var p := Destroyed(s, e).value;
            && p in s.procs && p != s.current && Gone(Step(s, e), p)
            && (s.procs[p].state == ZOMBIE || (e.ForkFail? && s.procs[p].state == EMPTY))
  {
    assert ProcOk(s, s.current);
    assert ProcOk(s, Destroyed(s, e).value);
  }

  lemma GoneStaysLocks(s: State, e: Event, p: Pid)
    requires Gone(s, p) && Enabled(s, e) && Safe(s, e)
    requires OnLock(e)
    ensures Gone(Step(s, e), p)
  {}

  lemma GoneStays(s: State, e: Event, p: Pid)
    requires Gone(s, p) && Enabled(s, e) && Safe(s, e)
    ensures Gone(Step(s, e), p)
  {
    if OnLock(e) {
      GoneStaysLocks(s, e, p);
    }
  }

  lemma {:induction false} GoneForever(tr: seq<State>, es: seq<Event>, i: nat, j: nat, p: Pid)
    requires Run(tr, es) && i <= j <= |es| && Gone(tr[i], p)
    ensures Gone(tr[j], p)
  {
    if i < j {
      GoneForever(tr, es, i, j - 1, p);
      assert Next(tr[j - 1], es[j - 1], tr[j]);
      GoneStays(tr[j - 1], es[j - 1], p);
    }
  }

  /** Over any run a process is destroyed at most once, and only as a zombie or as the child of a failed fork. */
  lemma DestroyedOnce(tr: seq<State>, es: seq<Event>, i: nat, j: nat)
    requires Run(tr, es) && i < j < |es|
    requires Enabled(tr[i], es[i]) && Enabled(tr[j], es[j])
    requires Destroyed(tr[i], es[i]).Some? && Destroyed(tr[j], es[j]).Some?
    ensures var p := Destroyed(tr[i], es[i]).value;
            && p in tr[i].procs
            && (tr[i].procs[p].state == ZOMBIE || (es[i].ForkFail? && tr[i].procs[p].state == EMPTY))
            && Destroyed(tr[j], es[j]).value != p
  {
    RunInv(tr, es, i);
    RunInv(tr, es, j);
    assert Next(tr[i], es[i], tr[i + 1]) && Next(tr[j], es[j], tr[j + 1]);
    DestroyRemoves(tr[i], es[i]);
    DestroyRemoves(tr[j], es[j]);
    GoneForever(tr, es, i + 1, j, Destroyed(tr[i], es[i]).value);
  }
}
