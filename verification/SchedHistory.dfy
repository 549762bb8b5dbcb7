/** Parents, children and sleepers over whole runs: a forked child is found by its parent until it is
    collected, the code it ended with is the one that waitpid answers, and a sleeper is ready at the first
    tick that is due. */
module SchedHistory {
  import opened ProcQueue
  import opened Sched
  import opened SchedInv
  import opened SchedLife
  import opened SchedReap
  import opened SchedRun
  import opened SchedEffects
  import opened SchedRecord
  import opened SchedTheorems

  /** The process at p has this pid, and the parent with that one, until one of them is released. */
  ghost predicate ChildOf(t: State, p: int, pid: nat, parent: int, parentPid: nat) {
    || pid in t.log.freed || parentPid in t.log.freed
    || (p in t.procs && t.procs[p].pid == pid && t.procs[p].parent == parent && parent in t.procs &&
        t.procs[parent].pid == parentPid)
  }

  /** The process at p has this pid and is dead with this code, until it is released. */
  ghost predicate DiedWith(t: State, p: int, pid: nat, code: int) {
    || pid in t.log.freed
    || (p in t.procs && t.procs[p].pid == pid && t.procs[p].status == Dead && t.procs[p].exitCode == code)
  }

  lemma StepFreed(s: State, op: Op, pid: nat)
    requires Inv(s) && Enabled(s, op) && pid in s.log.freed
    ensures pid in Apply(s, op).log.freed
  {
    hide Placed, Rest, Apply, Lasts;
    StepRecord(s, op, s.current);
    var k :| 0 <= k < |s.log.freed| && s.log.freed[k] == pid;
    assert Apply(s, op).log.freed[k] == pid;
  }

  lemma ChildStep(s: State, op: Op, p: int, pid: nat, parent: int, parentPid: nat)
    requires Inv(s) && Enabled(s, op) && ChildOf(s, p, pid, parent, parentPid)
    ensures ChildOf(Apply(s, op), p, pid, parent, parentPid)
  {
    hide Inv, Apply;
    if pid in s.log.freed {
      StepFreed(s, op, pid);
    } else if parentPid in s.log.freed {
      StepFreed(s, op, parentPid);
    } else {
      StepRecord(s, op, p);
      StepRecord(s, op, parent);
    }
  }

  lemma {:induction false} StaysChild(s: State, ops: seq<Op>, p: int, pid: nat, parent: int, parentPid: nat)
    requires Inv(s) && Runs(s, ops) && ChildOf(s, p, pid, parent, parentPid)
    ensures ChildOf(After(s, ops), p, pid, parent, parentPid)
    decreases |ops|
  {
    hide Inv, Apply, Enabled;
    if ops != [] {
      StepKeeps(s, ops[0]);
      ChildStep(s, ops[0], p, pid, parent, parentPid);
      StaysChild(Apply(s, ops[0]), ops[1..], p, pid, parent, parentPid);
    }
  }

  lemma {:induction false} StaysDead(s: State, ops: seq<Op>, p: int, pid: nat, code: int)
    requires Inv(s) && Runs(s, ops) && DiedWith(s, p, pid, code)
    ensures DiedWith(After(s, ops), p, pid, code)
    decreases |ops|
  {
    hide Inv, Apply, Enabled;
    if ops != [] {
      StepKeeps(s, ops[0]);
      if pid in s.log.freed { StepFreed(s, ops[0], pid); } else { StepRecord(s, ops[0], p); }
      StaysDead(Apply(s, ops[0]), ops[1..], p, pid, code);
    }
  }

  /** The first step and then the others lead from s to t. */
  ghost predicate Leads(s: State, op: Op, ops: seq<Op>, t: State) {
    Inv(s) && Enabled(s, op) && (StepKeeps(s, op); Runs(Apply(s, op), ops) && After(Apply(s, op), ops) == t)
  }

  lemma LeadsInv(s: State, op: Op, ops: seq<Op>, t: State)
    requires Leads(s, op, ops, t)
    ensures Inv(s) && Enabled(s, op) && Inv(Apply(s, op)) && Inv(t)
  {
    hide Inv, Enabled, Apply;
    StepKeeps(s, op);
    RunInv(Apply(s, op), ops);
  }

  /** What the current process gets from waitpid: at once, or at the end of the call that it is inside. */
  ghost predicate Gets(t: State, r: Reply)
    requires Inv(t)
  {
    Kids(t);
    || (t.current in t.waits && r == WaitEnd(t).1)
    || (t.current !in t.waits && t.current != t.reaper && exists pid, options :: r == WaitBegin(t, pid, options).1)
  }

  /** Nobody else has the pid of a process, and it was not given back. */
  lemma OnePid(t: State, p: int, c: int)
    requires Inv(t) && c in t.procs
    ensures t.procs[c].pid !in t.log.freed
    ensures p in t.procs && t.procs[p].pid == t.procs[c].pid ==> p == c
  {
    hide Placed, Family, Waits, Sems, Ordered;
  }

  /** A reply with a pid names a process with that pid and its exit code. */
  lemma GetsNamed(t: State, r: Reply) returns (c: int)
    requires Inv(t) && Gets(t, r) && r.Collected?
    ensures c in t.procs && Names(t.procs, r, c)
  {
    hide Placed, Rest, WaitBegin, WaitEnd, TakesOff, SleepsFor;
    if t.current in t.waits {
      WaitEndEffect(t);
      c :| c in t.procs[t.current].children && Collectable(t.procs, c, Wanted(t.waits[t.current])) &&
        Names(t.procs, r, c) && TakesOff(t, c, WaitEnd(t).0);
    } else {
      Kids(t);
      var pid, options :| r == WaitBegin(t, pid, options).1;
      WaitBeginEffect(t, pid, options);
      c :| c in t.procs[t.current].children && Collectable(t.procs, c, pid) && Names(t.procs, r, c) &&
        TakesOff(t, c, WaitBegin(t, pid, options).0);
    }
  }

  /** Whoever gets the pid of a process from waitpid, after any steps, gets with it the code of the
      proc_exit that ended the process. */
  lemma ExitCodeArrives(s: State, p: int, code: int, ops: seq<Op>, t: State, r: Reply)
    requires Leads(s, DoExit(p, code), ops, t) && s.procs[p].status != Dead && Inv(t) && Gets(t, r)
    ensures r.Collected? && r.pid == s.procs[p].pid ==> r.word == code % 256 * 256
  {
    hide Placed, Rest, Runs, After, Gets, Exit;
    LeadsInv(s, DoExit(p, code), ops, t);
    EndsWith(s, p, code);
    StaysDead(Apply(s, DoExit(p, code)), ops, p, s.procs[p].pid, code);
    if r.Collected? && r.pid == s.procs[p].pid {
      var c := GetsNamed(t, r);
      OnePid(t, p, c);
    }
  }

  lemma EndsWith(s: State, p: int, code: int)
    requires Inv(s) && Enabled(s, DoExit(p, code)) && s.procs[p].status != Dead
    ensures DiedWith(Apply(s, DoExit(p, code)), p, s.procs[p].pid, code)
  {
    hide Placed, Rest, Exit;
    StepRecord(s, DoExit(p, code), p);
  }

  /** What the parent of a child gets that it asks for by pid. */
  lemma ParentGets(t: State, c: int, options: int)
    requires Inv(t) && t.current !in t.waits && t.current != t.reaper && (options == 0 || options == 1)
    requires c in t.procs && t.procs[c].parent == t.current && t.procs[c].pid > 0
    ensures |t.procs[t.current].children| > 0
    ensures WaitBegin(t, t.procs[c].pid, options).1 ==
      if t.procs[c].status == Dead then Collected(t.procs[c].pid, t.procs[c].exitCode % 256 * 256)
      else if options == 1 then NothingYet else Asleep
  {
    hide Placed, Rest, WaitBegin, TakesOff, SleepsFor;
    var pid := t.procs[c].pid;
    NoNull(t);
    Symmetric(t, t.current, c);
    WaitBeginEffect(t, pid, options);
    assert c in t.procs[t.current].children && Matches(t.procs, c, pid);
    forall x | x in t.procs[t.current].children && Matches(t.procs, x, pid) ensures x == c { OnePid(t, x, c); }
    if t.procs[c].status == Dead { assert Collectable(t.procs, c, pid); }
  }

  /** The process that forked is still the current one, and its child has not been released. */
  ghost predicate Asking(s: State, t: State) {
    && s.current in s.procs && t.current == s.current && t.current in t.procs
    && t.procs[t.current].pid == s.procs[s.current].pid && t.current !in t.waits && t.current != t.reaper
    && s.total + 1 !in t.log.freed
  }

  /** A child that fork made is found by its parent, by the pid that fork gave it, until it is released:
      waitpid says that it is alive, or sleeps for it, or collects it. */
  lemma ForkedFound(s: State, c: int, ops: seq<Op>, t: State, options: int)
    requires Leads(s, DoFork(c), ops, t) && HasSlot(s.procs[s.current].children)
    requires Asking(s, t) && (options == 0 || options == 1)
    ensures |t.procs[t.current].children| > 0 && c in t.procs && t.procs[c].pid == s.total + 1
    ensures WaitBegin(t, s.total + 1, options).1 ==
      if t.procs[c].status == Dead then Collected(s.total + 1, t.procs[c].exitCode % 256 * 256)
      else if options == 1 then NothingYet else Asleep
  {
    hide Placed, Rest, Runs, After, Fork, WaitBegin;
    LeadsInv(s, DoFork(c), ops, t);
    ForkEffect(s, c);
    StaysChild(Apply(s, DoFork(c)), ops, c, s.total + 1, s.current, s.procs[s.current].pid);
    OnePid(t, t.current, t.current);
    ParentGets(t, c, options);
  }

  /** From fork to waitpid: a child is forked, anything happens, it ends with a code, anything happens, and its
      parent asks for it and gets that code. */
  lemma ForkExitWait(s: State, c: int, ops: seq<Op>, u: State, code: int, ops': seq<Op>, t: State, options: int)
    requires Leads(s, DoFork(c), ops, u) && HasSlot(s.procs[s.current].children)
    requires Leads(u, DoExit(c, code), ops', t) && u.procs[c].status != Dead && u.procs[c].pid == s.total + 1
    requires Asking(s, t) && (options == 0 || options == 1)
    ensures |t.procs[t.current].children| > 0
    ensures WaitBegin(t, s.total + 1, options).1 == Collected(s.total + 1, code % 256 * 256)
  {
    hide Placed, Rest, Runs, After, Fork, Exit, WaitBegin;
    LeadsInv(s, DoFork(c), ops, u);
    LeadsInv(u, DoExit(c, code), ops', t);
    ForkEffect(s, c);
    var parentPid := s.procs[s.current].pid;
    StaysChild(Apply(s, DoFork(c)), ops, c, s.total + 1, s.current, parentPid);
    var u1 := Apply(u, DoExit(c, code));
    ChildStep(u, DoExit(c, code), c, s.total + 1, s.current, parentPid);
    EndsWith(u, c, code);
    StaysChild(u1, ops', c, s.total + 1, s.current, parentPid);
    StaysDead(u1, ops', c, s.total + 1, code);
    OnePid(t, t.current, t.current);
    ParentGets(t, c, options);
  }

  // Sleepers.

  ghost predicate AsleepUntil(s: State, p: int, d: nat) {
    p in s.procs && s.procs[p].status == Sleeping && s.procs[p].sleepUntil == d
  }

  /** Neither a tick at or after d nor the end of p. */
  ghost predicate Undisturbed(op: Op, p: int, d: nat) {
    !(op.DoTick? && op.ts >= d) && !Terminates(op, p)
  }

  lemma SleepStarts(s: State, ts: nat)
    requires Inv(s) && Enabled(s, DoSleep(ts))
    ensures AsleepUntil(Apply(s, DoSleep(ts)), s.current, ts)
  {
    hide Placed, Rest, SleepUntil;
    StepRecord(s, DoSleep(ts), s.current);
  }

  /** A sleeper sleeps on through every step that is not a due tick or its end. */
  lemma {:induction false} SleepsOn(s: State, ops: seq<Op>, p: int, d: nat)
    requires Inv(s) && Runs(s, ops) && AsleepUntil(s, p, d)
    requires forall k :: 0 <= k < |ops| ==> Undisturbed(ops[k], p, d)
    ensures AsleepUntil(After(s, ops), p, d)
    decreases |ops|
  {
    hide Inv, Apply, Enabled;
    if ops != [] {
      StepKeeps(s, ops[0]);
      assert Undisturbed(ops[0], p, d);
      StepRecord(s, ops[0], p);
      ByQueue(s, p);
      SleepsOn(Apply(s, ops[0]), ops[1..], p, d);
    }
  }

  /** A due tick makes a sleeper ready, or runs it at once. */
  lemma DueWakes(s: State, p: int, d: nat, ts: nat, interval: nat)
    requires Inv(s) && AsleepUntil(s, p, d) && ts >= d
    ensures var t := Tick(s, ts, interval); p == t.current || p in List(t.lists, ReadyQ)
  {
    hide Inv, Tick, Due;
    ByQueue(s, p);
    TickEffect(s, ts, interval);
    var l, r := List(s.lists, SleepingQ), List(s.lists, ReadyQ);
    var k :| 0 <= k < |l| && l[k] == p;
    var n := Due(s.procs, l, ts);
    assert (r + l[..n])[|r| + k] == p;
    assert (r + l[..n] + [s.current])[|r| + k] == p;
  }

  /** A process that goes to sleep until ts sleeps through everything but its end until the first tick at or
      after ts, and that tick makes it ready or runs it. */
  lemma SleepOnTime(s: State, ts: nat, ops: seq<Op>, t: State, ts': nat, interval: nat)
    requires Leads(s, DoSleep(ts), ops, t) && forall k :: 0 <= k < |ops| ==> Undisturbed(ops[k], s.current, ts)
    ensures Inv(t) && AsleepUntil(t, s.current, ts)
    ensures var u := Tick(t, ts', interval);
      if ts' >= ts then s.current == u.current || s.current in List(u.lists, ReadyQ)
      else AsleepUntil(u, s.current, ts)
  {
    hide Inv, Apply, Runs, After, Tick;
    LeadsInv(s, DoSleep(ts), ops, t);
    SleepStarts(s, ts);
    SleepsOn(Apply(s, DoSleep(ts)), ops, s.current, ts);
    if ts' >= ts { DueWakes(t, s.current, ts, ts', interval); } else { TickRecord(t, ts', interval, s.current); }
  }
}
