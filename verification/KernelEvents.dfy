/** Every event keeps the invariant. */
module KernelEvents {
  import opened Kernel
  import opened KernelInv
  import opened KernelSteps
  import opened KernelLocks

  /** No step of the kernel breaks the invariant, and none reads what is not there. */
  lemma StepPreserves(s: State, e: Event)
    requires Inv(s) && Enabled(s, e)
    ensures Safe(s, e) && Inv(Step(s, e))
  {
    match e
    case Tick =>
      YieldPreserves(s);
      SchedulePreserves(Yield(s));
    case ForkBegin(heap) => AllocatePreserves(s, heap);
    case ForkCreate => CreatePreserves(s);
    case ForkSetParent => ForkStepPreserves(s, e);
    case ForkFail => ForkStepPreserves(s, e);
    case ForkDone => ForkStepPreserves(s, e);
    case Waitpid(pid, options) => WaitpidPreserves(s, pid, options);
    case WaitResume => WakePreserves(s);
    case Reap => ForkStepPreserves(s, e);
    case Exit(code) => ExitPreserves(s, code);
    case MutexLock(l) =>
      MutexTurn(s, l);
      TryPreserves(s, l);
    case MutexTryLock(l) => TryLockPreserves(s, l);
    case MutexUnlock(l) => UnlockPreserves(s, l);
    case SemWait(l) =>
      DecrementTurn(s, l);
      TryPreserves(Decrement(s, l), l);
    case SemTryWait(l) => TryWaitPreserves(s, l);
    case SemSignal(l) => SignalPreserves(s, l);
    case Retry =>
      RetryTurn(s);
      TryPreserves(s, Cur(s).lock.value);
  }
}
