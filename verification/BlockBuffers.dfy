/** block_buf.c on its own variables: the semaphore, the array of mutexes, and who is where. */
module BlockBuffers {
  import opened Kernel
  import opened BlockPool

  class Buffers {
    var available: Lock
    const free512: array<Lock>
    ghost var phases: map<Request, Phase>

    ghost function View(): Pool
      reads this, free512
    {
      Pool(available, free512[..], phases)
    }

    /** block_buf_init. */
    constructor (count: nat)
      ensures PoolInit(View()) && PoolInv(View()) && Size(View()) == count && fresh(free512)
    {
      available := Semaphore(count, [], count, 0);
      free512 := new Lock[count](i => Mutex(false, []));
      phases := map[];
      new;
      PoolInitInv(View());
    }

    /** The loop test of semaphore_wait: true if the request goes on to scan. */
    method Tests(r: Request) returns (through: bool)
      requires available.Semaphore? && WellFormed(View())
      modifies this
      ensures View() == Test(old(View()), r) && through == !MustSleep(old(available))
    {
      if available.count < 0 {
        available := Semaphore(available.count, available.blocked + [r], available.initial, available.permits);
        phases := phases[r := Pending];
        return false;
      }
      available := available.(permits := available.permits + 1);
      phases := phases[r := Scanning(0)];
      return true;
    }

    /** The start of block_512_alloc. */
    method AllocStarts(r: Request) returns (through: bool)
      requires PoolInv(View()) && CanStep(View(), Alloc(r))
      modifies this
      ensures View() == PoolStep(old(View()), Alloc(r)) && PoolInv(View())
      ensures r in phases && (through <==> phases[r] == Scanning(0))
    {
      PoolStepPreserves(View(), Alloc(r));
      available := available.(count := available.count - 1);
      through := Tests(r);
    }

    method WokenTests(r: Request) returns (through: bool)
      requires PoolInv(View()) && CanStep(View(), Again(r))
      modifies this
      ensures View() == PoolStep(old(View()), Again(r)) && PoolInv(View())
      ensures r in phases && (through <==> phases[r] == Scanning(0))
    {
      PoolStepPreserves(View(), Again(r));
      through := Tests(r);
    }

    /** semaphore_trywait at the start of block_512_tryalloc. */
    method TryallocStarts(r: Request) returns (through: bool)
      requires PoolInv(View()) && CanStep(View(), TryAlloc(r))
      modifies this
      ensures View() == PoolStep(old(View()), TryAlloc(r)) && PoolInv(View())
      ensures through == (old(available.count) > 0)
    {
      PoolStepPreserves(View(), TryAlloc(r));
      if available.count <= 0 {
        return false;
      }
      available := available.(count := available.count - 1);
      through := Tests(r);
    }

    /** One mutex_trylock of the scan. */
    method TryLockNext(ghost r: Request, i: nat) returns (locked: bool)
      requires PoolInv(View()) && CanStep(View(), Scan(r)) && phases[r].i == i
      modifies this, free512
      ensures View() == PoolStep(old(View()), Scan(r)) && PoolInv(View())
      ensures locked == !old(free512[i].locked)
    {
      PoolStepPreserves(View(), Scan(r));
      if free512[i].locked {
        phases := phases[r := Scanning(i + 1)];
        return false;
      }
      free512[i] := free512[i].(locked := true);
      phases := phases[r := Owns(i)];
      return true;
    }

    /** The scan when nothing interferes: it ends at the first free buffer and never reaches the panic. */
    method ScanAll(ghost r: Request) returns (found: nat)
      requires PoolInv(View()) && r in phases && phases[r] == Scanning(0)
      modifies this, free512
      ensures PoolInv(View()) && found < free512.Length
      ensures !old(free512[..])[found].locked && forall k :: 0 <= k < found ==> old(free512[..])[k].locked
      ensures free512[..] == old(free512[..])[found := old(free512[..])[found].(locked := true)]
      ensures phases == old(phases)[r := Owns(found)] && available == old(available)
    {
      var i := 0;
      while i < free512.Length
        invariant 0 <= i <= free512.Length
        invariant PoolInv(View()) && phases == old(phases)[r := Scanning(i)]
        invariant free512[..] == old(free512[..]) && available == old(available)
        invariant forall k :: 0 <= k < i ==> free512[k].locked
      {
        var locked := TryLockNext(r, i);
        if locked {
          return i;
        }
        i := i + 1;
      }
      ScannerIsBelowTop(View(), r);
      assert false;
    }

    /** block_512_free's mutex_unlock of the buffer's own index. */
    method Unlocks(ghost r: Request, i: nat)
      requires PoolInv(View()) && CanStep(View(), Unlock(r)) && phases[r] == Owns(i)
      modifies this, free512
      ensures View() == PoolStep(old(View()), Unlock(r)) && PoolInv(View())
    {
      PoolStepPreserves(View(), Unlock(r));
      free512[i] := free512[i].(locked := false);
      phases := phases[r := Releasing];
    }

    /** block_512_free's semaphore_signal. */
    method Signals(ghost r: Request)
      requires PoolInv(View()) && CanStep(View(), Signal(r))
      modifies this
      ensures View() == PoolStep(old(View()), Signal(r)) && PoolInv(View())
    {
      PoolStepPreserves(View(), Signal(r));
      available := available.(count := available.count + 1, permits := available.permits - 1);
      if available.blocked != [] {
        available := Semaphore(available.count, available.blocked[1..], available.initial, available.permits);
      }
      phases := phases - {r};
    }
  }

  lemma ScannerIsBelowTop(p: Pool, r: Request)
    requires PoolInv(p) && r in p.phases && p.phases[r].Scanning?
    ensures p.phases[r].i < Size(p)
  {
    assert Fits(p, Size(p));
    assert Beyond(p, Size(p)) == {};
    assert p.phases[r].i >= Size(p) ==> r in Beyond(p, Size(p));
  }
}
