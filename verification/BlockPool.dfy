/** The pool of 512-byte buffers under every interleaving. */
module BlockPool {
  import opened Lists
  import opened Kernel

  type Request = nat

  datatype Phase =
    | Pending               // in semaphore_wait's loop
    | Scanning(i: nat)      // holds a permit, about to try mutex i
    | Owns(i: nat)          // holds buffer i
    | Releasing             // has unlocked its mutex, about to signal

  datatype Pool = Pool(available: Lock, free: seq<Lock>, phases: map<Request, Phase>)

  datatype PoolEvent =
    | Alloc(r: Request)     // block_512_alloc: semaphore_wait up to its first test
    | Again(r: Request)     // a woken waiter tests again
    | TryAlloc(r: Request)  // block_512_tryalloc: semaphore_trywait
    | Scan(r: Request)      // one mutex_trylock of the scan
    | Unlock(r: Request)    // block_512_free: mutex_unlock
    | Signal(r: Request)    // block_512_free: semaphore_signal

  predicate WellFormed(p: Pool) {
    p.available.Semaphore? && forall i :: 0 <= i < |p.free| ==> p.free[i].Mutex?
  }

  function Size(p: Pool): nat {
    |p.free|
  }

  predicate CanStep(p: Pool, e: PoolEvent) {
    && WellFormed(p)
    && match e
       case Alloc(r) => r !in p.phases
       case Again(r) => r in p.phases && p.phases[r] == Pending && r !in p.available.blocked
       case TryAlloc(r) => r !in p.phases
       case Scan(r) => r in p.phases && p.phases[r].Scanning? && p.phases[r].i < Size(p)
       case Unlock(r) => r in p.phases && p.phases[r].Owns? && p.phases[r].i < Size(p)
       case Signal(r) => r in p.phases && p.phases[r] == Releasing
  }

  /** The test of semaphore_wait's loop. */
  function Test(p: Pool, r: Request): Pool
    requires WellFormed(p)
  {
    if MustSleep(p.available) then
      p.(available := p.available.(blocked := p.available.blocked + [r]), phases := p.phases[r := Pending])
    else
      p.(available := p.available.(permits := p.available.permits + 1), phases := p.phases[r := Scanning(0)])
  }

  function Take(p: Pool): Pool
    requires WellFormed(p)
  {
    p.(available := p.available.(count := p.available.count - 1))
  }

  function PoolStep(p: Pool, e: PoolEvent): Pool
    requires CanStep(p, e)
  {
    match e
    case Alloc(r) => Test(Take(p), r)
    case Again(r) => Test(p, r)
    case TryAlloc(r) => if p.available.count <= 0 then p else Test(Take(p), r)
    case Scan(r) =>
      var i := p.phases[r].i;
      if p.free[i].locked then p.(phases := p.phases[r := Scanning(i + 1)])
      else p.(free := p.free[i := p.free[i].(locked := true)], phases := p.phases[r := Owns(i)])
    case Unlock(r) =>
      var i := p.phases[r].i;
      p.(free := p.free[i := p.free[i].(locked := false)], phases := p.phases[r := Releasing])
    case Signal(r) =>
      var k := p.available;
      p.(available := k.(count := k.count + 1, permits := k.permits - 1,
                         blocked := if k.blocked == [] then [] else k.blocked[1..]),
         phases := p.phases - {r})
  }

  // ---- the invariant ----

  ghost function Holders(p: Pool): set<Request> {
    set r | r in p.phases && p.phases[r] != Pending
  }

  /** Owns or is scanning an index at or above i. */
  predicate AtOrAbove(f: Phase, i: nat) {
    match f
    case Scanning(j) => j >= i
    case Owns(j) => j >= i
    case _ => false
  }

  ghost function Beyond(p: Pool, i: nat): set<Request> {
    set r | r in p.phases && AtOrAbove(p.phases[r], i)
  }

  /** The counting invariant: holders at or above index i fit in the buffers from i on. */
  ghost predicate Fits(p: Pool, i: nat) {
    |Beyond(p, i)| <= Size(p) - i
  }

  predicate Owner(p: Pool, r: Request, i: nat) {
    r in p.phases && p.phases[r] == Owns(i)
  }

  /** A mutex is locked exactly when one request owns its buffer. */
  ghost predicate OneOwner(p: Pool, i: nat)
    requires WellFormed(p) && i < Size(p)
  {
    && (p.free[i].locked <==> exists r :: Owner(p, r, i))
    && (forall r, q :: Owner(p, r, i) && Owner(p, q, i) ==> r == q)
  }

  ghost predicate PoolInv(p: Pool) {
    && WellFormed(p)
    && p.available.count == Size(p) - |p.phases.Keys|
    && p.available.permits == |Holders(p)| <= Size(p)
    && NoDup(p.available.blocked)
    && (forall r :: r in p.available.blocked ==> r in p.phases && p.phases[r] == Pending)
    && (forall r :: r in p.phases && p.phases[r].Owns? ==> p.phases[r].i < Size(p))
    && (forall i: nat {:trigger Fits(p, i)} :: i <= Size(p) ==> Fits(p, i))
    && (forall i: nat {:trigger OneOwner(p, i)} :: i < Size(p) ==> OneOwner(p, i))
  }

  ghost predicate PoolInit(p: Pool) {
    && p.available == Semaphore(Size(p), [], Size(p), 0)
    && (forall i :: 0 <= i < |p.free| ==> p.free[i] == Mutex(false, []))
    && p.phases == map[]
  }

  lemma PoolInitInv(p: Pool)
    requires PoolInit(p)
    ensures PoolInv(p)
  {
    assert Holders(p) == {};
    forall i: nat | i <= Size(p) ensures Fits(p, i) {
      assert Beyond(p, i) == {};
    }
  }

  lemma SubsetSize<T>(a: set<T>, b: set<T>)
    requires a <= b
    ensures |a| <= |b|
  {
    if a != {} {
      var x :| x in a;
      SubsetSize(a - {x}, b - {x});
    }
  }

  lemma SameOwner(p: Pool, t: Pool, i: nat)
    requires WellFormed(p) && WellFormed(t) && Size(t) == Size(p) && i < Size(p)
    requires OneOwner(p, i) && t.free[i] == p.free[i]
    requires forall r :: Owner(t, r, i) <==> Owner(p, r, i)
    ensures OneOwner(t, i)
  {
    if p.free[i].locked {
      var r :| Owner(p, r, i);
      assert Owner(t, r, i);
    }
  }

  /** Everybody outstanding, r included, is counted, and r is not asleep. */
  ghost predicate AboutToTest(p: Pool, r: Request) {
    && WellFormed(p)
    && p.available.count == Size(p) - |p.phases.Keys + {r}|
    && p.available.permits == |Holders(p)| <= Size(p)
    && NoDup(p.available.blocked) && r !in p.available.blocked
    && (forall q :: q in p.available.blocked ==> q in p.phases && p.phases[q] == Pending)
    && (forall q :: q in p.phases && p.phases[q].Owns? ==> p.phases[q].i < Size(p))
    && (r in p.phases ==> p.phases[r] == Pending)
    && (forall i: nat {:trigger Fits(p, i)} :: i <= Size(p) ==> Fits(p, i))
    && (forall i: nat {:trigger OneOwner(p, i)} :: i < Size(p) ==> OneOwner(p, i))
  }

  lemma TestFits(p: Pool, r: Request, i: nat)
    requires WellFormed(p) && i <= Size(p) && Fits(p, i)
    requires p.available.count == Size(p) - |p.phases.Keys + {r}| && (r in p.phases ==> p.phases[r] == Pending)
    ensures Fits(Test(p, r), i)
  {
    var t := Test(p, r);
    if MustSleep(p.available) || i > 0 {
      assert Beyond(t, i) == Beyond(p, i);
    } else {
      assert t.phases.Keys == p.phases.Keys + {r};
      SubsetSize(Beyond(t, 0), t.phases.Keys);
    }
  }

  lemma TestCounts(p: Pool, r: Request)
    requires WellFormed(p) && p.available.count == Size(p) - |p.phases.Keys + {r}|
    requires p.available.permits == |Holders(p)| <= Size(p) && (r in p.phases ==> p.phases[r] == Pending)
    ensures var t := Test(p, r);
            t.available.count == Size(t) - |t.phases.Keys| && t.available.permits == |Holders(t)| <= Size(t)
  {
    var t := Test(p, r);
    assert t.phases.Keys == p.phases.Keys + {r};
    TestHolders(p, r);
    if !MustSleep(p.available) {
      SubsetSize(Holders(t), t.phases.Keys);
    }
  }

  lemma TestHolders(p: Pool, r: Request)
    requires WellFormed(p) && (r in p.phases ==> p.phases[r] == Pending)
    ensures r !in Holders(p)
    ensures Holders(Test(p, r)) == if MustSleep(p.available) then Holders(p) else Holders(p) + {r}
  {}

  lemma TestAsleep(p: Pool, r: Request)
    requires WellFormed(p) && NoDup(p.available.blocked) && r !in p.available.blocked
    requires forall q :: q in p.available.blocked ==> q in p.phases && p.phases[q] == Pending
    ensures var t := Test(p, r);
            NoDup(t.available.blocked) && forall q :: q in t.available.blocked ==>
                q in t.phases && t.phases[q] == Pending
  {}

  /** Getting a permit: everybody outstanding fits, so one more may scan from 0. */
  lemma TestPreserves(p: Pool, r: Request)
    requires AboutToTest(p, r)
    ensures PoolInv(Test(p, r))
  {
    var t := Test(p, r);
    TestCounts(p, r);
    TestAsleep(p, r);
    forall i: nat | i < Size(t) ensures OneOwner(t, i) {
      assert OneOwner(p, i);
      SameOwner(p, t, i);
    }
    forall i: nat | i <= Size(t) ensures Fits(t, i) {
      assert Fits(p, i);
      TestFits(p, r, i);
    }
  }

  /** A scan moves past a locked buffer: its owner leaves room above for the scanner. */
  lemma ScanPastFits(p: Pool, r: Request, j: nat)
    requires PoolInv(p) && CanStep(p, Scan(r)) && p.free[p.phases[r].i].locked && j <= Size(p)
    ensures Fits(PoolStep(p, Scan(r)), j)
  {
    var i := p.phases[r].i;
    var t := PoolStep(p, Scan(r));
    assert Fits(p, j);
    if j == i + 1 {
      assert OneOwner(p, i) && Fits(p, i);
      var o :| Owner(p, o, i);
      SubsetSize(Beyond(t, j), Beyond(p, i) - {o});
    } else {
      assert Beyond(t, j) == Beyond(p, j);
    }
  }

  lemma ScanPreserves(p: Pool, r: Request)
    requires PoolInv(p) && CanStep(p, Scan(r))
    ensures PoolInv(PoolStep(p, Scan(r)))
  {
    var i := p.phases[r].i;
    var t := PoolStep(p, Scan(r));
    assert t.phases.Keys == p.phases.Keys && Holders(t) == Holders(p);
    forall j: nat | j <= Size(t) ensures Fits(t, j) {
      if p.free[i].locked {
        ScanPastFits(p, r, j);
      } else {
        assert Fits(p, j);
        assert Beyond(t, j) == Beyond(p, j);
      }
    }
    forall j: nat | j < Size(t) ensures OneOwner(t, j) {
      assert OneOwner(p, j);
      if j == i && !p.free[i].locked {
        assert Owner(t, r, i);
        forall q | Owner(t, q, i) ensures q == r {
          assert !Owner(p, q, i);
        }
      } else {
        SameOwner(p, t, j);
      }
    }
  }

  lemma UnlockPreserves(p: Pool, r: Request)
    requires PoolInv(p) && CanStep(p, Unlock(r))
    ensures PoolInv(PoolStep(p, Unlock(r)))
  {
    var i := p.phases[r].i;
    var t := PoolStep(p, Unlock(r));
    assert t.phases.Keys == p.phases.Keys && Holders(t) == Holders(p);
    forall j: nat | j <= Size(t) ensures Fits(t, j) {
      assert Fits(p, j);
      SubsetSize(Beyond(t, j), Beyond(p, j));
    }
    assert Owner(p, r, i);
    forall j: nat | j < Size(t) ensures OneOwner(t, j) {
      assert OneOwner(p, j);
      if j != i {
        SameOwner(p, t, j);
      } else {
        assert forall q :: Owner(t, q, i) ==> Owner(p, q, i) && q != r;
      }
    }
  }

  lemma SignalPreserves(p: Pool, r: Request)
    requires PoolInv(p) && CanStep(p, Signal(r))
    ensures PoolInv(PoolStep(p, Signal(r)))
  {
    var t := PoolStep(p, Signal(r));
    assert t.phases.Keys == p.phases.Keys - {r} && Holders(t) == Holders(p) - {r};
    var q := p.available.blocked;
    assert q != [] ==> q == [q[0]] + q[1..];
    forall j: nat | j <= Size(t) ensures Fits(t, j) {
      assert Fits(p, j);
      assert Beyond(t, j) == Beyond(p, j);
    }
    forall j: nat | j < Size(t) ensures OneOwner(t, j) {
      assert OneOwner(p, j);
      SameOwner(p, t, j);
    }
  }

  lemma TakePreserves(p: Pool, r: Request)
    requires PoolInv(p) && r !in p.phases
    ensures PoolInv(Test(Take(p), r))
  {
    var u := Take(p);
    assert Holders(u) == Holders(p);
    forall i: nat | i <= Size(u) ensures Fits(u, i) {
      assert Fits(p, i);
      assert Beyond(u, i) == Beyond(p, i);
    }
    forall i: nat | i < Size(u) ensures OneOwner(u, i) {
      assert OneOwner(p, i);
      SameOwner(p, u, i);
    }
    TestPreserves(u, r);
  }

  lemma PoolStepPreserves(p: Pool, e: PoolEvent)
    requires PoolInv(p) && CanStep(p, e)
    ensures PoolInv(PoolStep(p, e))
  {
    match e
    case Alloc(r) => TakePreserves(p, r);
    case Again(r) =>
      assert p.phases.Keys + {r} == p.phases.Keys;
      TestPreserves(p, r);
    case TryAlloc(r) => if p.available.count > 0 { TakePreserves(p, r); }
    case Scan(r) => ScanPreserves(p, r);
    case Unlock(r) => UnlockPreserves(p, r);
    case Signal(r) => SignalPreserves(p, r);
  }

  // ---- runs ----

  ghost predicate PoolRun(tr: seq<Pool>, es: seq<PoolEvent>) {
    && |tr| == |es| + 1
    && PoolInit(tr[0])
    && forall i :: 0 <= i < |es| ==> CanStep(tr[i], es[i]) && tr[i + 1] == PoolStep(tr[i], es[i])
  }

  lemma {:induction false} PoolRunInv(tr: seq<Pool>, es: seq<PoolEvent>, i: nat)
    requires PoolRun(tr, es) && i <= |es|
    ensures PoolInv(tr[i])
  {
    if i == 0 {
      PoolInitInv(tr[0]);
    } else {
      PoolRunInv(tr, es, i - 1);
      PoolStepPreserves(tr[i - 1], es[i - 1]);
    }
  }

  /** No scan ever runs past the last buffer, so the panic calls are unreachable,
      and no buffer ever has two owners. */
  lemma NeverPanics(tr: seq<Pool>, es: seq<PoolEvent>, i: nat, r: Request)
    requires PoolRun(tr, es) && i <= |es| && r in tr[i].phases
    ensures tr[i].phases[r].Scanning? ==> tr[i].phases[r].i < Size(tr[i]) && CanStep(tr[i], Scan(r))
    ensures forall q :: q in tr[i].phases && tr[i].phases[q].Owns? && tr[i].phases[q] == tr[i].phases[r] ==> q == r
  {
    PoolRunInv(tr, es, i);
    var p := tr[i];
    assert Fits(p, Size(p));
    assert Beyond(p, Size(p)) == {};
    assert p.phases[r].Scanning? && p.phases[r].i >= Size(p) ==> r in Beyond(p, Size(p));
    if p.phases[r].Owns? {
      var i := p.phases[r].i;
      assert OneOwner(p, i);
      forall q | q in p.phases && p.phases[q] == Owns(i) ensures q == r {
        assert Owner(p, q, i) && Owner(p, r, i);
      }
    }
  }

  // ---- who gets through ----

  /** A request that tests the semaphore gets through exactly when all outstanding requests, it included, fit
      in the pool. */
  lemma TestPasses(p: Pool, r: Request)
    requires PoolInv(p)
    ensures r !in p.phases ==> (PoolStep(p, Alloc(r)).phases[r] == Scanning(0) <==> |p.phases.Keys| + 1 <= Size(p))
    ensures CanStep(p, Again(r)) ==> (PoolStep(p, Again(r)).phases[r] == Scanning(0) <==> |p.phases.Keys| <= Size(p))
    ensures r !in p.phases ==> (r in PoolStep(p, TryAlloc(r)).phases <==> |p.phases.Keys| + 1 <= Size(p))
  {}

  /** Every buffer is free and every outstanding request is asleep, more of them than buffers. */
  ghost predicate AllAsleep(p: Pool) {
    && PoolInv(p)
    && |p.phases.Keys| > Size(p)
    && forall r :: r in p.phases ==> r in p.available.blocked
  }

  /** From there the pool never serves anybody again. */
  lemma AllAsleepForever(p: Pool, e: PoolEvent)
    requires AllAsleep(p) && CanStep(p, e)
    ensures AllAsleep(PoolStep(p, e))
    ensures forall r :: r in p.phases ==> r in PoolStep(p, e).phases
  {
    PoolStepPreserves(p, e);
    match e
    case Alloc(r) => assert PoolStep(p, e).phases.Keys == p.phases.Keys + {r};
    case _ =>
  }

  /** The states of the run below, in order. */
  function StrandingStates(): seq<Pool> {
    [ Pool(Semaphore(1, [], 1, 0), [Mutex(false, [])], map[]),
      Pool(Semaphore(0, [], 1, 1), [Mutex(false, [])], map[0 := Scanning(0)]),
      Pool(Semaphore(0, [], 1, 1), [Mutex(true, [])], map[0 := Owns(0)]),
      Pool(Semaphore(-1, [1], 1, 1), [Mutex(true, [])], map[0 := Owns(0), 1 := Pending]),
      Pool(Semaphore(-1, [1], 1, 1), [Mutex(false, [])], map[0 := Releasing, 1 := Pending]),
      Pool(Semaphore(0, [], 1, 0), [Mutex(false, [])], map[1 := Pending]),
      Pool(Semaphore(-1, [2], 1, 0), [Mutex(false, [])], map[1 := Pending, 2 := Pending]),
      Pool(Semaphore(-1, [2, 1], 1, 0), [Mutex(false, [])], map[1 := Pending, 2 := Pending]) ]
  }

  function StrandingEvents(): seq<PoolEvent> {
    [Alloc(0), Scan(0), Alloc(1), Unlock(0), Signal(0), Alloc(2), Again(1)]
  }

  ghost predicate StrandingAt(i: nat)
    requires i < 7
  {
    CanStep(StrandingStates()[i], StrandingEvents()[i])
    && StrandingStates()[i + 1] == PoolStep(StrandingStates()[i], StrandingEvents()[i])
  }

  lemma StrandingStart()
    ensures StrandingAt(0) && StrandingAt(1) && StrandingAt(2) && StrandingAt(3)
  {
    assert [] + [1] == [1];
  }

  lemma StrandingEnd()
    ensures StrandingAt(4) && StrandingAt(5) && StrandingAt(6)
  {
    assert [] + [2] == [2] && [2] + [1] == [2, 1] && [1][1..] == [];
    assert map[0 := Releasing, 1 := Pending] - {0} == map[1 := Pending];
  }

  lemma StrandingRun()
    ensures PoolRun(StrandingStates(), StrandingEvents())
  {
    var tr, es := StrandingStates(), StrandingEvents();
    StrandingStart();
    StrandingEnd();
    forall i | 0 <= i < |es| ensures CanStep(tr[i], es[i]) && tr[i + 1] == PoolStep(tr[i], es[i]) {
      assert StrandingAt(i);
    }
  }

  /** It happens: with one buffer, a request that arrives between a signal and the woken waiter's test
      leaves both asleep beside a free buffer. */
  lemma OneBufferCanStrand()
    ensures exists tr: seq<Pool>, es: seq<PoolEvent> ::
              PoolRun(tr, es) && Size(tr[0]) == 1 && AllAsleep(tr[|es|]) && |tr[|es|].phases.Keys| == 2
  {
    var tr, es := StrandingStates(), StrandingEvents();
    StrandingRun();
    PoolRunInv(tr, es, 7);
    var p := tr[7];
    assert p.phases.Keys == {1, 2};
    assert p.available.blocked[0] == 2 && p.available.blocked[1] == 1;
  }
}
