/** What becomes of each process, step by step and over runs: its pid, parent, exit code and deadline. */
module SchedRecord {
  import opened Seqs
  import opened ProcQueue
  import opened Sched
  import opened SchedInv
  import opened SchedSteps
  import opened SchedReap
  import opened SchedRun
  import opened SchedEffects

  ghost predicate Terminates(op: Op, p: int) {
    op.DoExit? && op.p == p
  }

  /** p sleeps after this step: it goes to sleep in it, or slept before and neither ends nor is due at a
      tick. */
  ghost predicate SleepsAfter(s: State, op: Op, p: int)
    requires p in s.procs
  {
    || (op.DoSleep? && p == s.current)
    || (s.procs[p].status == Sleeping && !Terminates(op, p) && !(op.DoTick? && s.procs[p].sleepUntil <= op.ts))
  }

  /** The record of p before and after a step: the pid stays; the parent stays until it is gone; the exit code
      is that of the proc_exit that ends p, and p is dead from then on; the deadline is that of the last
      sleep. */
  ghost predicate Lasts(s: State, op: Op, t: State, p: int)
    requires p in s.procs && p in t.procs
  {
    var a, b := s.procs[p], t.procs[p];
    && b.pid == a.pid && (b.parent == a.parent || (b.parent == 0 && a.parent !in t.procs))
    && b.exitCode == (if Terminates(op, p) && a.status != Dead then op.code else a.exitCode)
    && b.sleepUntil == (if op.DoSleep? && p == s.current then op.ts else a.sleepUntil)
    && (b.status == Dead <==> a.status == Dead || Terminates(op, p))
    && (b.status == Sleeping <==> SleepsAfter(s, op, p))
  }

  /** Who is gone was dead and has given back its pid. */
  ghost predicate Recorded(s: State, op: Op, t: State, p: int)
    requires p in s.procs
  {
    && s.log.freed <= t.log.freed
    && if p in t.procs then Lasts(s, op, t, p) else s.procs[p].status == Dead && s.procs[p].pid in t.log.freed
  }

  /** A step that neither ends anybody nor has to do with deadlines. */
  lemma Quietly(s: State, op: Op, t: State, p: int)
    requires Inv(s) && Inv(t) && p in s.procs && Alike(s.procs, t.procs) && s.log.freed <= t.log.freed
    requires List(t.lists, DyingQ) == List(s.lists, DyingQ) && List(t.lists, SleepingQ) == List(s.lists, SleepingQ)
    requires !op.DoExit? && !op.DoSleep? && !op.DoTick?
    ensures Recorded(s, op, t, p)
  {
    hide Inv;
    ByQueue(s, p);
    ByQueue(t, p);
  }

  lemma OnlyQuietly(s: State, op: Op, t: State, p: int, qs: set<Qid>)
    requires Inv(s) && Inv(t) && p in s.procs && Only(s, t, qs) && DyingQ !in qs && SleepingQ !in qs
    requires !op.DoExit? && !op.DoSleep? && !op.DoTick?
    ensures Recorded(s, op, t, p) && t.waits == s.waits
  {
    hide Inv;
    assert DyingQ !in qs + {ReadyQ} && SleepingQ !in qs + {ReadyQ};
    Quietly(s, op, t, p);
  }

  lemma SameQuietly(s: State, op: Op, p: int)
    requires Inv(s) && p in s.procs && !op.DoExit? && !op.DoSleep? && !op.DoTick?
    ensures Recorded(s, op, s, p)
  {
    hide Inv;
    AlikeSelf(s.procs);
    Quietly(s, op, s, p);
  }

  lemma ExitRecord(s: State, x: int, code: int, t: State, p: int)
    requires Inv(s) && Inv(t) && x in s.procs && p in s.procs && s.procs[x].status != Dead && Ended(s, x, code, t)
    ensures Recorded(s, DoExit(x, code), t, p) && t.waits == s.waits - {x}
  {
    hide Inv, Passes, Stays, QueuesBut, Without;
    ByQueue(s, p);
    ByQueue(t, p);
    assert p in [x] + List(s.lists, DyingQ) <==> p == x || p in List(s.lists, DyingQ);
    WithoutMembers(s, x, p);
  }

  lemma WithoutMembers(s: State, x: int, p: int)
    requires Inv(s)
    ensures var l := List(s.lists, SleepingQ); p in Without(l, x) <==> p in l && p != x
    ensures var l := List(s.lists, DyingQ); p in Without(l, x) <==> p in l && p != x
  {
    hide Without, Rest;
    WithoutOne(s.lists, SleepingQ, x, p);
    WithoutOne(s.lists, DyingQ, x, p);
  }

  lemma WithoutOne(lists: Lists, q: Qid, x: int, p: int)
    requires Separate(lists)
    ensures p in Without(List(lists, q), x) <==> p in List(lists, q) && p != x
  {
    hide Without;
    var l := List(lists, q);
    if x in l { DifferWithout(l, x); } else { WithoutNone(l, x); }
  }

  lemma TickRecord(s: State, ts: nat, interval: nat, p: int)
    requires Inv(s) && p in s.procs
    ensures Recorded(s, DoTick(ts, interval), Tick(s, ts, interval), p)
    ensures Tick(s, ts, interval).waits == s.waits
  {
    hide Inv, Tick, Due, Passes, Stays;
    var t := Tick(s, ts, interval);
    TickEffect(s, ts, interval);
    TickKeeps(s, ts, interval);
    ByQueue(s, p);
    ByQueue(t, p);
    var l := List(s.lists, SleepingQ);
    var n := Due(s.procs, l, ts);
    assert DyingQ !in {SleepingQ} + {ReadyQ};
    if p in l {
      var k :| 0 <= k < |l| && l[k] == p;
      if k < n {
        assert p !in l[n..] by { WokenGone(s, n, p, k); }
      } else {
        assert l[n..][k - n] == p;
      }
    } else {
      assert p !in l[n..];
    }
  }

  lemma WokenGone(s: State, n: nat, p: int, k: nat)
    requires Inv(s) && k < n <= |List(s.lists, SleepingQ)| && List(s.lists, SleepingQ)[k] == p
    ensures p !in List(s.lists, SleepingQ)[n..]
  {
    hide Rest;
    assert Distinct(List(s.lists, SleepingQ));
  }

  lemma SleepRecord(s: State, ts: nat, p: int)
    requires Inv(s) && p in s.procs && s.current != s.reaper
    ensures Recorded(s, DoSleep(ts), SleepUntil(s, ts), p) && SleepUntil(s, ts).waits == s.waits
  {
    hide Inv, SleepUntil, Due, Passes, Alike;
    SleepEffect(s, ts);
    SleepKeeps(s, ts);
    Between(s);
    assert DyingQ !in {SleepingQ} + {ReadyQ};
    SleeperRecord(s, ts, SleepUntil(s, ts), Due(s.procs, List(s.lists, SleepingQ), ts), p);
  }

  lemma SleeperRecord(s: State, ts: nat, t: State, n: nat, p: int)
    requires Inv(s) && Inv(t) && p in s.procs && s.current in s.procs && t.log.freed == s.log.freed
    requires Alike(s.procs[s.current := s.procs[s.current].(sleepUntil := ts)], t.procs)
    requires n <= |List(s.lists, SleepingQ)| && List(t.lists, DyingQ) == List(s.lists, DyingQ)
    requires List(t.lists, SleepingQ) == List(s.lists, SleepingQ)[..n] + [s.current] + List(s.lists, SleepingQ)[n..]
    ensures Recorded(s, DoSleep(ts), t, p)
  {
    hide Inv;
    ByQueue(s, p);
    ByQueue(t, p);
    InMiddle(List(s.lists, SleepingQ), n, s.current, p);
  }

  lemma InMiddle(l: seq<int>, n: nat, x: int, p: int)
    requires n <= |l|
    ensures p in l[..n] + [x] + l[n..] <==> p in l || p == x
  {
    assert l == l[..n] + l[n..];
  }

  lemma CollectRecord(s: State, op: Op, c: int, t: State, p: int)
    requires Inv(s) && Inv(t) && p in s.procs && c in s.procs && s.procs[c].status == Dead && TakesOff(s, c, t)
    requires !op.DoExit? && !op.DoSleep? && !op.DoTick?
    ensures Recorded(s, op, t, p)
  {
    hide Inv, Passes, Stays, Without;
    assert DyingQ !in {} && SleepingQ !in {DyingQ};
    if p == c {
      assert t.log.freed[|s.log.freed|] == s.procs[c].pid;
    } else {
      ByQueue(s, p);
      ByQueue(t, p);
      WithoutMembers(s, c, p);
    }
  }

  lemma ReapRecord(s: State, p: int)
    requires Inv(s) && p in s.procs
    ensures Recorded(s, DoReap, Reap(s), p) && Reap(s).waits == s.waits
  {
    hide Inv, Reap;
    ReapEffect(s);
    ReapKeeps(s);
    assert Survives(s, Reap(s), p) || Vanishes(s, Reap(s), p);
  }

  lemma WaitBeginRecord(s: State, pid: int, options: int, p: int)
    requires Inv(s) && p in s.procs && s.current != s.reaper && s.current !in s.waits
    ensures |s.procs[s.current].children| > 0
    ensures Recorded(s, DoWaitBegin(pid, options), WaitBegin(s, pid, options).0, p)
    ensures WaitBegin(s, pid, options).0.waits - {s.current} == s.waits
  {
    hide Inv, WaitBegin, TakesOff, Passes, Recorded;
    var op := DoWaitBegin(pid, options);
    Between(s);
    WaitBeginEffect(s, pid, options);
    WaitBeginKeeps(s, pid, options);
    var t, r := WaitBegin(s, pid, options).0, WaitBegin(s, pid, options).1;
    if t == s {
      SameQuietly(s, op, p);
    } else if r == Asleep {
      var q := QueueFor(s.current, t.waits[s.current]);
      assert DyingQ !in {q} + {ReadyQ} && SleepingQ !in {q} + {ReadyQ};
      Quietly(s, op, t, p);
    } else {
      var c :|
        c in s.procs[s.current].children && Collectable(s.procs, c, pid) && Names(s.procs, r, c) && TakesOff(s, c, t);
      CollectRecord(s, op, c, t, p);
    }
  }

  lemma WaitEndRecord(s: State, p: int)
    requires Inv(s) && p in s.procs && s.current in s.waits
    ensures |s.procs[s.current].children| > 0
    ensures Recorded(s, DoWaitEnd, WaitEnd(s).0, p) && WaitEnd(s).0.waits == s.waits - {s.current}
  {
    hide Inv, WaitEnd, TakesOff, Recorded;
    Between(s);
    WaitEndEffect(s);
    WaitEndCollects(s);
    var t, r, pid := WaitEnd(s).0, WaitEnd(s).1, Wanted(s.waits[s.current]);
    var c :|
      c in s.procs[s.current].children && Collectable(s.procs, c, pid) && Names(s.procs, r, c) && TakesOff(s, c, t);
    CollectRecord(s, DoWaitEnd, c, t, p);
  }

  lemma LockRecord(s: State, op: Op, id: int, t: State, p: int)
    requires Inv(s) && Inv(t) && p in s.procs && SemStep(s, t, id) && !op.DoExit? && !op.DoSleep? && !op.DoTick?
    ensures Recorded(s, op, t, p) && t.waits == s.waits
  {
    hide Inv;
    assert DyingQ !in {Waiters(id), ReadyQ} && SleepingQ !in {Waiters(id), ReadyQ};
    Quietly(s, op, t, p);
  }

  /** What a step may do to the calls of waitpid that sleep. */
  ghost predicate WaitsAfter(s: State, t: State) {
    forall x :: x in s.waits && x in t.waits ==> t.waits[x] == s.waits[x]
  }

  /** A step keeps the record of every process, and what the others wait for. */
  lemma StepRecord(s: State, op: Op, p: int)
    requires Inv(s) && Enabled(s, op) && p in s.procs
    ensures Recorded(s, op, Apply(s, op), p) && WaitsAfter(s, Apply(s, op))
  {
    hide Inv, Advance, Tick, SleepUntil, Add, Fork, Exit, Reap, WaitBegin, WaitEnd, Block, WakeOne, WakeAll, Lock;
    hide TryLock, Unlock, Recorded, Only, Passes, Stays, Ended, SemStep;
    var t := Apply(s, op);
    StepKeeps(s, op);
    Between(s);
    match op
    case DoYield => YieldEffect(s); if t == s { SameQuietly(s, op, p); } else { OnlyQuietly(s, op, t, p, {}); }
    case DoTick(ts, interval) => TickRecord(s, ts, interval, p);
    case DoSleep(ts) => SleepRecord(s, ts, p);
    case DoAdd(x) => AddRecord(s, x, p);
    case DoFork(x) => ForkRecord(s, x, p);
    case DoExit(x, code) =>
      ExitEffect(s, x, code);
      if s.procs[x].status == Dead { DeadRecord(s, x, code, p); } else { ExitRecord(s, x, code, t, p); }
    case DoReap => ReapRecord(s, p);
    case DoWaitBegin(pid, options) => WaitBeginRecord(s, pid, options, p);
    case DoWaitEnd => WaitEndRecord(s, p);
    case DoBlock(id) => BlockEffect(s, Waiters(id)); OnlyQuietly(s, op, t, p, {Waiters(id)});
    case DoWakeOne(id) =>
      WakeOneEffect(s, Waiters(id));
      if t == s { SameQuietly(s, op, p); } else { OnlyQuietly(s, op, t, p, {Waiters(id)}); }
    case DoWakeAll(id) => WakeAllEffect(s, Waiters(id)); OnlyQuietly(s, op, t, p, {Waiters(id)});
    case DoCreate(id, limit) => CreateRecord(s, op, t, p);
    case DoLock(id) => LockEffect(s, id); LockRecord(s, op, id, t, p);
    case DoTryLock(id) =>
      TryLockEffect(s, id);
      if t == s { SameQuietly(s, op, p); } else { LockRecord(s, op, id, t, p); }
    case DoUnlock(id) => UnlockEffect(s, id); LockRecord(s, op, id, t, p);
  }

  lemma CreateRecord(s: State, op: Op, t: State, p: int)
    requires Inv(s) && Inv(t) && p in s.procs && t == s.(sems := t.sems) && !op.DoExit? && !op.DoSleep? && !op.DoTick?
    ensures Recorded(s, op, t, p)
  {
    hide Inv;
    AlikeSelf(s.procs);
    Quietly(s, op, t, p);
  }

  lemma DeadRecord(s: State, x: int, code: int, p: int)
    requires Inv(s) && p in s.procs && x in s.procs && s.procs[x].status == Dead
    ensures Recorded(s, DoExit(x, code), s, p)
  {
  }

  lemma AddRecord(s: State, x: int, p: int)
    requires Inv(s) && p in s.procs && x !in s.procs && x != 0
    ensures Recorded(s, DoAdd(x), Add(s, x), p) && Add(s, x).waits == s.waits
  {
    hide Inv, Add;
    AddEffect(s, x);
  }

  lemma ForkRecord(s: State, x: int, p: int)
    requires Inv(s) && p in s.procs && x !in s.procs && x != 0 && s.current in s.procs
    ensures Recorded(s, DoFork(x), Fork(s, x), p) && Fork(s, x).waits == s.waits
  {
    hide Inv, Fork;
    ForkEffect(s, x);
    if Fork(s, x) == s { SameQuietly(s, DoFork(x), p); }
  }

  /** A process that was not there before is the one that was added or forked, with the next pid. */
  lemma Newcomer(s: State, op: Op, p: int)
    requires Inv(s) && Enabled(s, op) && p !in s.procs && p in Apply(s, op).procs
    ensures op == DoAdd(p) || op == DoFork(p)
    ensures var e := Apply(s, op).procs[p];
      e.pid == s.total + 1 && e.exitCode == 0 && e.parent == if op.DoFork? then s.current else 0
  {
    hide Inv, Advance, Tick, SleepUntil, Add, Fork, Exit, Reap, WaitBegin, WaitEnd, Block, WakeOne, WakeAll, Lock;
    hide TryLock, Unlock, Passes, Stays, Without, QueuesBut;
    Between(s);
    match op
    case DoYield => YieldEffect(s);
    case DoTick(ts, interval) => TickEffect(s, ts, interval);
    case DoSleep(ts) => SleepEffect(s, ts);
    case DoAdd(x) => AddEffect(s, x);
    case DoFork(x) => ForkEffect(s, x);
    case DoExit(x, code) => ExitEffect(s, x, code);
    case DoReap => ReapEffect(s);
    case DoWaitBegin(pid, options) => WaitBeginEffect(s, pid, options);
    case DoWaitEnd => WaitEndEffect(s);
    case DoBlock(id) => BlockEffect(s, Waiters(id));
    case DoWakeOne(id) => WakeOneEffect(s, Waiters(id));
    case DoWakeAll(id) => WakeAllEffect(s, Waiters(id));
    case DoCreate(_, _) =>
    case DoLock(id) => LockEffect(s, id);
    case DoTryLock(id) => TryLockEffect(s, id);
    case DoUnlock(id) => UnlockEffect(s, id);
  }
}
