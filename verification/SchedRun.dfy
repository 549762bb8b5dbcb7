/** Whole runs of the scheduler: the invariant holds throughout, and nobody starves. */
module SchedRun {
  import opened ProcQueue
  import opened Sched
  import opened SchedInv
  import opened SchedSteps
  import opened SchedLife
  import opened SchedReap
  import opened SchedSem

  datatype Op =
    | DoYield | DoTick(ts: nat, interval: nat) | DoSleep(ts: nat)
    | DoAdd(p: int) | DoFork(p: int) | DoExit(p: int, code: int) | DoReap
    | DoWaitBegin(pid: int, options: int) | DoWaitEnd
    | DoBlock(id: int) | DoWakeOne(id: int) | DoWakeAll(id: int)
    | DoCreate(id: int, limit: nat) | DoLock(id: int) | DoTryLock(id: int) | DoUnlock(id: int)

  /** When a step can happen.  The timer can always fire; a process that came back from the switch
      inside waitpid goes on with waitpid; the terminator never sleeps and is never terminated; a
      blocked process is not terminated by another; only a holder unlocks. */
  ghost predicate Enabled(s: State, op: Op) {
    match op
    case DoYield => true
    case DoTick(_, _) => true
    case DoSleep(_) => s.current !in s.waits && s.current != s.reaper
    case DoAdd(p) => p !in s.procs && p != 0
    case DoFork(p) => s.current !in s.waits && p !in s.procs && p != 0
    case DoExit(p, _) => p in s.procs && s.procs[p].status != Blocked && p != s.reaper
    case DoReap => s.current == s.reaper
    case DoWaitBegin(_, _) => s.current !in s.waits && s.current != s.reaper
    case DoWaitEnd => s.current in s.waits
    case DoBlock(id) => s.current !in s.waits && s.current != s.reaper && id !in s.sems
    case DoWakeOne(id) => id !in s.sems
    case DoWakeAll(id) => id !in s.sems
    case DoCreate(id, limit) =>
      id !in s.sems && limit <= 255 && List(s.lists, Waiters(id)) == [] &&
        Asked(s.log, id) == [] == Granted(s.log, id) && Holders(s.log, id) == multiset{}
    case DoLock(id) => s.current !in s.waits && s.current != s.reaper && id in s.sems
    case DoTryLock(id) => s.current !in s.waits && id in s.sems
    case DoUnlock(id) => s.current !in s.waits && id in s.sems && s.current in Holders(s.log, id)
  }

  ghost function Apply(s: State, op: Op): State
    requires Inv(s) && Enabled(s, op)
  {
    Kids(s);
    match op
    case DoYield => Advance(s)
    case DoTick(ts, interval) => Tick(s, ts, interval)
    case DoSleep(ts) => SleepUntil(s, ts)
    case DoAdd(p) => Add(s, p)
    case DoFork(p) => Fork(s, p)
    case DoExit(p, code) => Exit(s, p, code)
    case DoReap => Reap(s)
    case DoWaitBegin(pid, options) => WaitBegin(s, pid, options).0
    case DoWaitEnd => WaitEnd(s).0
    case DoBlock(id) => Block(s, Waiters(id))
    case DoWakeOne(id) => WakeOne(s, Waiters(id))
    case DoWakeAll(id) => WakeAll(s, Waiters(id))
    case DoCreate(id, limit) => s.(sems := s.sems[id := Sem(limit, 0)])
    case DoLock(id) => Lock(s, id)
    case DoTryLock(id) => TryLock(s, id).0
    case DoUnlock(id) => Unlock(s, id)
  }

  lemma CreateKeeps(s: State, id: int, limit: nat)
    requires Inv(s) && Enabled(s, DoCreate(id, limit))
    ensures Inv(s.(sems := s.sems[id := Sem(limit, 0)]))
  {
    hide Placed, Family, Waits, Pids, Ordered;
    var sems' := s.sems[id := Sem(limit, 0)];
    forall j | j in sems' ensures SemOk(s.lists, sems'[j], s.log, j) {
      assert j != id ==> SemOk(s.lists, s.sems[j], s.log, j);
    }
  }

  /** Every step keeps the invariant. */
  lemma StepKeeps(s: State, op: Op)
    requires Inv(s) && Enabled(s, op)
    ensures Inv(Apply(s, op))
  {
    hide Inv, Advance, Tick, SleepUntil, Add, Fork, Exit, Reap, WaitBegin, WaitEnd, Block, WakeOne, WakeAll, Lock;
    hide TryLock, Unlock;
    match op
    case DoYield => YieldKeeps(s);
    case DoTick(ts, interval) => TickKeeps(s, ts, interval);
    case DoSleep(ts) => SleepKeeps(s, ts);
    case DoAdd(p) => AddKeeps(s, p);
    case DoFork(p) => ForkKeeps(s, p);
    case DoExit(p, code) => ExitKeeps(s, p, code);
    case DoReap => ReapKeeps(s);
    case DoWaitBegin(pid, options) => WaitBeginKeeps(s, pid, options);
    case DoWaitEnd => WaitEndCollects(s);
    case DoBlock(id) => BlockKeeps(s, id);
    case DoWakeOne(id) => WakeOneKeeps(s, id);
    case DoWakeAll(id) => WakeAllKeeps(s, id);
    case DoCreate(id, limit) => CreateKeeps(s, id, limit);
    case DoLock(id) => LockKeeps(s, id);
    case DoTryLock(id) => TryLockKeeps(s, id);
    case DoUnlock(id) => UnlockKeeps(s, id);
  }
}
