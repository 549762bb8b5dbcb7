/** The scheduler over its real queues follows the step machine through every run. */
module KernelRun {
  import opened ProcQueue
  import opened Sched
  import opened SchedInv
  import opened SchedReap
  import opened SchedRun
  import opened SchedTheorems
  import opened Kernel

  /** What terminating p asks for holds between two steps. */
  lemma Exits(k: Scheduler, p: int)
    requires k.Valid() && Inv(k.Abs()) && p in k.procs && k.procs[p].status != Blocked
    ensures k.procs[p].status == Dead || (if p == k.current then k.procs[p].status == Running else k.Removable(p))
  {
    OnePlace(k.Abs(), p);
  }

  /** One step. */
  method Perform(k: Scheduler, op: Op)
    requires k.Valid() && Inv(k.Abs()) && Enabled(k.Abs(), op)
    modifies k, k.qs
    ensures k.Valid() && Inv(k.Abs()) && k.Abs() == Apply(old(k.Abs()), op)
  {
    hide Placed, Rest, Queues.Valid, Advance, Tick, SleepUntil, Add, Fork, Exit, Reap, WaitBegin, WaitEnd, Block;
    hide WakeOne, WakeAll, Lock, TryLock, Unlock;
    StepKeeps(k.Abs(), op);
    Kids(k.Abs());
    match op
    case DoYield => k.ScheduleAdvance();
    case DoTick(ts, interval) => k.HandleTimer(ts, interval);
    case DoSleep(ts) => k.DoSleep(ts);
    case DoAdd(p) => k.DoAdd(p);
    case DoFork(p) => var _ := k.DoFork(p);
    case DoExit(p, code) => Exits(k, p); k.DoExit(p, code);
    case DoReap => var _ := k.DoReap();
    case DoWaitBegin(pid, options) => var _ := k.DoWaitBegin(pid, options);
    case DoWaitEnd => var _ := k.DoWaitEnd();
    case DoBlock(id) => k.DoBlock(Waiters(id));
    case DoWakeOne(id) => var _ := k.DoWakeOne(Waiters(id));
    case DoWakeAll(id) => k.DoWakeAll(Waiters(id));
    case DoCreate(id, limit) => k.sems := k.sems[id := Sem(limit, 0)];
    case DoLock(id) => k.DoLock(id);
    case DoTryLock(id) => var _ := k.DoTryLock(id);
    case DoUnlock(id) => k.DoUnlock(id);
  }

  /** A whole run from the initial state. */
  method RunAll(kernel: int, terminator: int, ops: seq<Op>) returns (k: Scheduler)
    requires kernel != 0 && terminator != 0 && kernel != terminator && RunsFrom(kernel, terminator, ops)
    ensures k.Valid() && Inv(k.Abs()) && k.Abs() == Reached(kernel, terminator, ops)
    ensures Ends(k.qs.queues, k.qs.lists)
  {
    hide Inv, Enabled, Apply, Queues.Valid;
    InitialInv(kernel, terminator);
    k := new Scheduler(kernel, terminator);
    var i := 0;
    assert ops[0..] == ops;
    while i < |ops|
      invariant 0 <= i <= |ops| && k.Valid() && Inv(k.Abs()) && fresh(k) && fresh(k.qs)
      invariant Runs(k.Abs(), ops[i..]) && After(k.Abs(), ops[i..]) == After(Initial(kernel, terminator), ops)
    {
      assert ops[i..][0] == ops[i] && ops[i..][1..] == ops[i + 1..];
      Perform(k, ops[i]);
      i := i + 1;
    }
    k.ExactEnds();
  }
}
