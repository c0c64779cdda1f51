/** What each step of block_512_alloc, block_512_tryalloc and block_512_free does to the pool. */
module PoolEffects {
  import opened BlockPool

  /** The semaphore has n permits to give, `given` given and the requests q asleep on it. */
  ghost predicate Available(p: Pool, t: Pool, n: int, given: int, q: seq<Request>) {
    && p.available.Semaphore? && t.available.Semaphore? && t.available.initial == p.available.initial
    && t.available.count == n && t.available.permits == given && t.available.blocked == q
  }

  /** r is in phase f, and everybody else where it was. */
  ghost predicate Moves(p: Pool, t: Pool, r: Request, f: Phase) {
    t.phases == p.phases[r := f]
  }

  /** Only mutex i has changed, and to this. */
  ghost predicate Sets(p: Pool, t: Pool, i: nat, locked: bool) {
    && i < |p.free| == |t.free| && p.free[i].Mutex? && t.free[i].Mutex?
    && t.free[i].locked == locked && t.free[i].blocked == p.free[i].blocked
    && forall k :: 0 <= k < |p.free| && k != i ==> t.free[k] == p.free[k]
  }

  /** block_512_alloc takes one off the count, and scans from the first buffer unless that left it negative. */
  lemma AllocDoes(p: Pool, r: Request)
    requires CanStep(p, Alloc(r))
    ensures var t, k := PoolStep(p, Alloc(r)), p.available;
            && t.free == p.free
            && (if k.count > 0 then
                  Moves(p, t, r, Scanning(0)) && Available(p, t, k.count - 1, k.permits + 1, k.blocked)
                else Moves(p, t, r, Pending) && Available(p, t, k.count - 1, k.permits, k.blocked + [r]))
  {}

  /** A woken request takes nothing off any more. */
  lemma AgainDoes(p: Pool, r: Request)
    requires CanStep(p, Again(r))
    ensures var t, k := PoolStep(p, Again(r)), p.available;
            && t.free == p.free
            && (if k.count >= 0 then Moves(p, t, r, Scanning(0)) && Available(p, t, k.count, k.permits + 1, k.blocked)
                else t.phases == p.phases && Available(p, t, k.count, k.permits, k.blocked + [r]))
  {
    assert p.phases[r := Pending] == p.phases;
  }

  /** block_512_tryalloc gives up at once where block_512_alloc would sleep. */
  lemma TryAllocDoes(p: Pool, r: Request)
    requires CanStep(p, TryAlloc(r))
    ensures var t, k := PoolStep(p, TryAlloc(r)), p.available;
            if k.count > 0 then
              && t.free == p.free && Moves(p, t, r, Scanning(0))
              && Available(p, t, k.count - 1, k.permits + 1, k.blocked)
            else t == p
  {}

  /** A turn of the scan takes a free buffer and passes over a locked one. */
  lemma ScanDoes(p: Pool, r: Request)
    requires CanStep(p, Scan(r))
    ensures var t, i := PoolStep(p, Scan(r)), p.phases[r].i;
            && t.available == p.available
            && (if p.free[i].locked then t.free == p.free && Moves(p, t, r, Scanning(i + 1))
                else Sets(p, t, i, true) && Moves(p, t, r, Owns(i)))
  {}

  /** block_512_free unlocks its own buffer's mutex, */
  lemma UnlockDoes(p: Pool, r: Request)
    requires CanStep(p, Unlock(r))
    ensures var t := PoolStep(p, Unlock(r));
            t.available == p.available && Sets(p, t, p.phases[r].i, false) && Moves(p, t, r, Releasing)
  {}

  /** and gives its permit back, which wakes the longest sleeper. */
  lemma SignalDoes(p: Pool, r: Request)
    requires PoolInv(p) && CanStep(p, Signal(r))
    ensures var t, k := PoolStep(p, Signal(r)), p.available;
            && t.free == p.free && r !in t.phases && (forall q :: q in p.phases && q != r ==> q in t.phases)
            && (forall q :: q in t.phases ==> q in p.phases && t.phases[q] == p.phases[q])
            && Available(p, t, k.count + 1, k.permits - 1, if k.blocked == [] then [] else k.blocked[1..])
            && (k.blocked != [] ==> k.blocked[0] != r && CanStep(t, Again(k.blocked[0])))
  {
    var q := p.available.blocked;
    assert q != [] ==> q == [q[0]] + q[1..];
    assert q != [] ==> q[0] in q;
  }

  /** What a request owns after its scan stays its own, locked, through every step that is not its own
      block_512_free. */
  lemma OwnsUntilFreed(p: Pool, e: PoolEvent, r: Request)
    requires PoolInv(p) && CanStep(p, e) && r in p.phases && p.phases[r].Owns? && e != Unlock(r)
    ensures var t, i := PoolStep(p, e), p.phases[r].i;
            && r in t.phases && t.phases[r] == Owns(i) && i < Size(t) && t.free[i].locked
  {
    PoolStepPreserves(p, e);
    var t := PoolStep(p, e);
    assert r in t.phases && t.phases[r] == p.phases[r];
    assert OneOwner(t, p.phases[r].i) && Owner(t, r, p.phases[r].i);
  }
}
