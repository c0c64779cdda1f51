/** A pool of any size can stop serving: a run that reaches AllAsleep. */
module PoolStranding {
  import opened Kernel
  import opened BlockPool

  ghost predicate PoolReachable(p: Pool) {
    exists tr, es :: PoolRun(tr, es) && tr[|es|] == p
  }

  lemma PoolReaches(p: Pool, e: PoolEvent)
    requires PoolReachable(p) && CanStep(p, e)
    ensures PoolReachable(PoolStep(p, e)) && PoolInv(p)
  {
    var tr, es :| PoolRun(tr, es) && tr[|es|] == p;
    PoolRunInv(tr, es, |es|);
    OneMoreStep(tr, es, PoolStep(p, e), e);
  }

  lemma OneMoreStep(tr: seq<Pool>, es: seq<PoolEvent>, t: Pool, e: PoolEvent)
    requires PoolRun(tr, es) && CanStep(tr[|es|], e) && t == PoolStep(tr[|es|], e)
    ensures PoolReachable(t)
  {
    var tr', es' := tr + [t], es + [e];
    forall i | 0 <= i < |es'| ensures CanStep(tr'[i], es'[i]) && tr'[i + 1] == PoolStep(tr'[i], es'[i]) {
      if i < |es| {
        assert tr'[i] == tr[i] && es'[i] == es[i] && tr'[i + 1] == tr[i + 1];
      }
    }
    assert PoolRun(tr', es') && tr'[|es'|] == t;
  }

  // ---- requests 0 to n-1 take the buffers ----

  ghost predicate Taken(p: Pool, n: nat, k: nat) {
    && PoolReachable(p) && WellFormed(p) && Size(p) == n
    && p.available.count == n - k && p.available.blocked == []
    && (forall r: Request :: r in p.phases <==> r < k)
    && (forall r :: r in p.phases ==> p.phases[r] == Owns(r))
    && (forall i :: 0 <= i < n ==> (p.free[i].locked <==> i < k))
  }

  /** The next request scans past the buffers taken. */
  ghost predicate ScansAt(p: Pool, n: nat, k: nat, j: nat) {
    && PoolReachable(p) && WellFormed(p) && Size(p) == n && j <= k < n
    && p.available.count == n - k - 1 && p.available.blocked == []
    && (forall r: Request :: r in p.phases <==> r <= k)
    && (forall r :: r in p.phases && r < k ==> p.phases[r] == Owns(r)) && p.phases[k] == Scanning(j)
    && (forall i :: 0 <= i < n ==> (p.free[i].locked <==> i < k))
  }

  lemma {:induction false} Scans(p: Pool, n: nat, k: nat, j: nat) returns (t: Pool)
    requires ScansAt(p, n, k, j)
    ensures Taken(t, n, k + 1)
    decreases k - j
  {
    PoolReaches(p, Scan(k));
    t := PoolStep(p, Scan(k));
    if j < k {
      t := Scans(t, n, k, j + 1);
    }
  }

  lemma TakesOne(p: Pool, n: nat, k: nat) returns (t: Pool)
    requires Taken(p, n, k) && k < n
    ensures Taken(t, n, k + 1)
  {
    PoolReaches(p, Alloc(k));
    t := Scans(PoolStep(p, Alloc(k)), n, k, 0);
  }

  lemma {:induction false} TakesAll(n: nat, k: nat) returns (p: Pool)
    requires k <= n
    ensures Taken(p, n, k)
  {
    if k == 0 {
      p := Pool(Semaphore(n, [], n, 0), seq(n, i => Mutex(false, [])), map[]);
      var tr, es: seq<PoolEvent> := [p], [];
      assert PoolRun(tr, es) && tr[|es|] == p;
    } else {
      p := TakesAll(n, k - 1);
      p := TakesOne(p, n, k - 1);
    }
  }

  // ---- each release wakes one sleeper, and a newcomer puts it back to sleep ----

  /** Owners 0 to k-1, and sleepers n to 2n-k. */
  ghost predicate Draining(p: Pool, n: nat, k: nat) {
    && PoolReachable(p) && WellFormed(p) && Size(p) == n && k <= n && p.available.count == -1
    && (forall r: Request :: r in p.phases <==> r < k || n <= r <= 2 * n - k)
    && (forall r :: r in p.phases && r < k ==> p.phases[r] == Owns(r))
    && (forall r :: r in p.phases && n <= r ==> p.phases[r] == Pending && r in p.available.blocked)
  }

  /** The first waiter finds no permit. */
  lemma FirstSleeps(p: Pool, n: nat) returns (t: Pool)
    requires Taken(p, n, n)
    ensures Draining(t, n, n)
  {
    PoolReaches(p, Alloc(n));
    t := PoolStep(p, Alloc(n));
  }

  /** Owner k-1 has released; f, woken, has not tested yet. */
  ghost predicate Woken(p: Pool, n: nat, k: nat, f: Request) {
    && PoolReachable(p) && WellFormed(p) && Size(p) == n && 0 < k <= n && p.available.count == 0
    && (forall r: Request :: r in p.phases <==> r < k - 1 || n <= r <= 2 * n - k)
    && (forall r :: r in p.phases && r < k - 1 ==> p.phases[r] == Owns(r))
    && (forall r :: r in p.phases && n <= r ==> p.phases[r] == Pending && (r == f || r in p.available.blocked))
    && f in p.phases && n <= f && f !in p.available.blocked
  }

  /** Owner k-1 has unlocked its buffer's mutex. */
  ghost predicate Unlocked(p: Pool, n: nat, k: nat) {
    && PoolReachable(p) && WellFormed(p) && Size(p) == n && 0 < k <= n && p.available.count == -1
    && (forall r: Request :: r in p.phases <==> r < k || n <= r <= 2 * n - k)
    && (forall r :: r in p.phases && r < k - 1 ==> p.phases[r] == Owns(r)) && p.phases[k - 1] == Releasing
    && (forall r :: r in p.phases && n <= r ==> p.phases[r] == Pending && r in p.available.blocked)
  }

  lemma Unlocks(p: Pool, n: nat, k: nat) returns (t: Pool)
    requires Draining(p, n, k) && k > 0
    ensures Unlocked(t, n, k)
  {
    PoolReaches(p, Unlock(k - 1));
    t := PoolStep(p, Unlock(k - 1));
  }

  lemma Signals(p: Pool, n: nat, k: nat) returns (t: Pool, f: Request)
    requires Unlocked(p, n, k)
    ensures Woken(t, n, k, f)
  {
    PoolReaches(p, Signal(k - 1));
    assert n in p.phases && n in p.available.blocked;
    f := p.available.blocked[0];
    t := PoolStep(p, Signal(k - 1));
    assert f in p.available.blocked && p.phases[f] == Pending;
  }

  lemma BackToSleep(p: Pool, n: nat, k: nat, f: Request) returns (t: Pool)
    requires Woken(p, n, k, f)
    ensures Draining(t, n, k - 1)
  {
    var newcomer := 2 * n - k + 1;
    PoolReaches(p, Alloc(newcomer));
    var u := PoolStep(p, Alloc(newcomer));
    PoolReaches(u, Again(f));
    t := PoolStep(u, Again(f));
  }

  lemma {:induction false} Drains(p: Pool, n: nat, k: nat) returns (t: Pool)
    requires Draining(p, n, k)
    ensures Draining(t, n, 0)
    decreases k
  {
    t := p;
    if k > 0 {
      var f;
      t := Unlocks(p, n, k);
      t, f := Signals(t, n, k);
      t := BackToSleep(t, n, k, f);
      t := Drains(t, n, k - 1);
    }
  }

  /** Whatever its size, a pool can reach a state in which every buffer is free and every
      outstanding request asleep; AllAsleepForever says that it stays there. */
  lemma EveryPoolCanStrand(n: nat)
    requires n > 0
    ensures exists tr: seq<Pool>, es: seq<PoolEvent> :: PoolRun(tr, es) && Size(tr[0]) == n && AllAsleep(tr[|es|])
  {
    var p := TakesAll(n, n);
    p := FirstSleeps(p, n);
    p := Drains(p, n, n);
    var tr, es :| PoolRun(tr, es) && tr[|es|] == p;
    PoolRunInv(tr, es, |es|);
    SizeKept(tr, es, |es|);
  }

  lemma {:induction false} SizeKept(tr: seq<Pool>, es: seq<PoolEvent>, i: nat)
    requires PoolRun(tr, es) && i <= |es|
    ensures Size(tr[i]) == Size(tr[0])
  {
    if i > 0 {
      SizeKept(tr, es, i - 1);
    }
  }
}
