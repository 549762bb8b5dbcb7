/** waitpid as its caller sees it, from the call to the answer, whatever happens in between. */
module SchedWait {
  import opened Seqs
  import opened ProcQueue
  import opened Sched
  import opened SchedInv
  import opened SchedReap
  import opened SchedRun
  import opened SchedTheorems
  import opened SchedEffects
  import opened SchedRecord

  ghost predicate BadCall(pid: int, options: int) {
    (options != 0 && options != 1) || pid == 0 || pid < -1
  }

  /** What waitpid answers at once, and what it remembers when it goes to sleep. */
  ghost predicate Replies(s: State, pid: int, options: int, t: State, r: Reply)
    requires s.current in s.procs
  {
    var children := s.procs[s.current].children;
    if BadCall(pid, options) then r == Invalid && t == s
    else if forall c :: c in children ==> !Matches(s.procs, c, pid) then r == NoChild && t == s
    else if exists c :: c in children && Collectable(s.procs, c, pid) then Answers(s, r, pid)
    else if options == 1 then r == NothingYet && t == s
    else r == Asleep && s.current in t.waits && Wanted(t.waits[s.current]) == pid
  }

  lemma WaitBeginReplies(s: State, pid: int, options: int)
    requires Inv(s) && s.current != s.reaper && s.current !in s.waits
    ensures |s.procs[s.current].children| > 0
    ensures Replies(s, pid, options, WaitBegin(s, pid, options).0, WaitBegin(s, pid, options).1)
  {
    hide Placed, Rest, WaitBegin, SleepsFor, TakesOff;
    WaitBeginEffect(s, pid, options);
    var r, t := WaitBegin(s, pid, options).1, WaitBegin(s, pid, options).0;
    var children := s.procs[s.current].children;
    if TakesChild(s, pid, r, t) {
      var c :| c in children && Collectable(s.procs, c, pid) && Names(s.procs, r, c) && TakesOff(s, c, t);
      InSlot(s, c);
    }
    if r == Asleep { SleepsWaits(s, pid, t); }
  }

  lemma SleepsWaits(s: State, pid: int, t: State)
    requires s.current in s.procs && SleepsFor(s, pid, t)
    ensures s.current in t.waits && Wanted(t.waits[s.current]) == pid
  {
  }

  lemma InSlot(s: State, c: int)
    requires Inv(s) && c in s.procs[s.current].children && c != 0
    ensures exists k :: 1 <= k < |s.procs[s.current].children| && s.procs[s.current].children[k] == c
  {
    hide Placed, Waits, Pids, Sems, Ordered;
    assert ChildrenOk(s.procs, s.current);
    var k :| 0 <= k < |s.procs[s.current].children| && s.procs[s.current].children[k] == c;
  }

  /** A step leaves alone what the others wait for; only the process itself, or its end, ends a wait. */
  lemma StepWaits(s: State, op: Op, x: int)
    requires Inv(s) && Enabled(s, op) && x in s.waits && x in Apply(s, op).waits
    ensures Apply(s, op).waits[x] == s.waits[x]
  {
    hide Placed, Rest, Apply, Recorded;
    StepRecord(s, op, s.current);
  }

  /** x stays inside the same call of waitpid through all these steps. */
  ghost predicate Inside(s: State, ops: seq<Op>, x: int)
    requires Inv(s) && Runs(s, ops)
    decreases |ops|
  {
    x in s.waits && (ops == [] || (StepKeeps(s, ops[0]); Inside(Apply(s, ops[0]), ops[1..], x)))
  }

  lemma {:induction false} InsideSame(s: State, ops: seq<Op>, x: int)
    requires Inv(s) && Runs(s, ops) && Inside(s, ops, x)
    ensures x in s.waits && x in After(s, ops).waits && After(s, ops).waits[x] == s.waits[x]
    decreases |ops|
  {
    hide Inv, Enabled, Apply;
    if ops != [] {
      StepKeeps(s, ops[0]);
      InsideSame(Apply(s, ops[0]), ops[1..], x);
      StepWaits(s, ops[0], x);
    }
  }

  /** A call of waitpid that goes to sleep, any steps of any processes, and the return of that call:
      the answer is a dead child with the pid asked for. */
  lemma WaitpidReturns(s: State, pid: int, options: int, s1: State, ops: seq<Op>, t: State)
    requires Inv(s) && Enabled(s, DoWaitBegin(pid, options)) && s1 == Apply(s, DoWaitBegin(pid, options)) && Inv(s1)
    requires |s.procs[s.current].children| > 0 && WaitBegin(s, pid, options).1 == Asleep
    requires Runs(s1, ops) && Inside(s1, ops, s.current) && t == After(s1, ops) && t.current == s.current
    ensures Inv(t) && t.current in t.waits && |t.procs[t.current].children| > 0
    ensures Answers(t, WaitEnd(t).1, pid)
  {
    hide Placed, Rest, WaitBegin, WaitEnd, Runs, After, Inside, Replies, Answers;
    RunInv(s1, ops);
    InsideSame(s1, ops, s.current);
    AsleepWanted(s, pid, options);
    Kids(t);
    WaitEndCollects(t);
  }

  lemma AsleepWanted(s: State, pid: int, options: int)
    requires Inv(s) && s.current != s.reaper && s.current !in s.waits && |s.procs[s.current].children| > 0
    requires WaitBegin(s, pid, options).1 == Asleep
    ensures s.current in WaitBegin(s, pid, options).0.waits
    ensures Wanted(WaitBegin(s, pid, options).0.waits[s.current]) == pid
  {
    hide Placed, Rest, WaitBegin;
    WaitBeginReplies(s, pid, options);
  }
}
