/** What holds of every run of the scheduler, from the moment it is initialised. */
module SchedTheorems {
  import opened Seqs
  import opened ProcQueue
  import opened Sched
  import opened SchedInv
  import opened SchedSteps
  import opened SchedLife
  import opened SchedReap
  import opened SchedSem
  import opened SchedRun
  import opened SchedFair
  import opened SchedEffects
  import opened SchedRecord

  lemma InitialInv(kernel: int, reaper: int)
    requires kernel != 0 && reaper != 0 && kernel != reaper
    ensures Inv(Initial(kernel, reaper))
  {
    var s := Initial(kernel, reaper);
    assert forall q, p :: In(s.lists, q, p) ==> q == ReadyQ && p == reaper;
    assert In(s.lists, ReadyQ, reaper);
  }

  /** The steps can happen one after the other. */
  ghost predicate Runs(s: State, ops: seq<Op>)
    requires Inv(s)
    decreases |ops|
  {
    ops == [] || (Enabled(s, ops[0]) && (StepKeeps(s, ops[0]); Runs(Apply(s, ops[0]), ops[1..])))
  }

  ghost function After(s: State, ops: seq<Op>): State
    requires Inv(s) && Runs(s, ops)
    decreases |ops|
  {
    if ops == [] then s else StepKeeps(s, ops[0]); After(Apply(s, ops[0]), ops[1..])
  }

  /** The steps can happen from initialisation on. */
  ghost predicate RunsFrom(kernel: int, reaper: int, ops: seq<Op>)
    requires kernel != 0 && reaper != 0 && kernel != reaper
  {
    InitialInv(kernel, reaper);
    Runs(Initial(kernel, reaper), ops)
  }

  ghost function Reached(kernel: int, reaper: int, ops: seq<Op>): State
    requires kernel != 0 && reaper != 0 && kernel != reaper && RunsFrom(kernel, reaper, ops)
  {
    InitialInv(kernel, reaper);
    After(Initial(kernel, reaper), ops)
  }

  /** The invariant holds after every run. */
  lemma {:induction false} RunInv(s: State, ops: seq<Op>)
    requires Inv(s) && Runs(s, ops)
    ensures Inv(After(s, ops))
    decreases |ops|
  {
    hide Inv, Apply, Enabled;
    if ops != [] {
      StepKeeps(s, ops[0]);
      RunInv(Apply(s, ops[0]), ops[1..]);
    }
  }

  lemma {:induction false} RunFair(s: State, ops: seq<Op>)
    requires Inv(s) && Runs(s, ops)
    ensures Fair(ViewOf(s), ViewOf(After(s, ops)))
    decreases |ops|
  {
    hide Inv, Apply, Enabled, Fair;
    if ops == [] {
      FairSame(s, s);
    } else {
      StepKeeps(s, ops[0]);
      var s1 := Apply(s, ops[0]);
      StepFair(s, ops[0]);
      RunFair(s1, ops[1..]);
      FairThen(s, s1, After(s1, ops[1..]));
    }
  }

  /** From position k of the ready queue a process is switched to within k + 1 switches, whatever the
      others do, unless it is terminated. */
  lemma RunsWithin(s: State, ops: seq<Op>, k: nat)
    requires Inv(s) && Runs(s, ops) && k < |List(s.lists, ReadyQ)|
    requires |After(s, ops).log.ran| >= |s.log.ran| + k + 1
    ensures var p, t := List(s.lists, ReadyQ)[k], After(s, ops);
      || (exists i :: |s.log.ran| <= i <= |s.log.ran| + k && t.log.ran[i] == p)
      || (exists i :: |s.log.ended| <= i < |t.log.ended| && t.log.ended[i] == p)
  {
    hide Inv, Runs, After;
    RunFair(s, ops);
    assert Served(ViewOf(s), ViewOf(After(s, ops)), k);
  }

  /** A tick takes exactly the due sleepers off the queue, in order of their deadlines. */
  lemma TickExact(s: State, ts: nat)
    requires Inv(s)
    ensures var l := List(s.lists, SleepingQ); var n := Due(s.procs, l, ts);
      && (forall p :: p in l[..n] ==> p in s.procs && s.procs[p].sleepUntil <= ts)
      && (forall p :: p in l[n..] ==> p in s.procs && s.procs[p].sleepUntil > ts)
      && Ordered(s.procs, l[..n])
  {
    var l := List(s.lists, SleepingQ);
    Sleepers(s);
    DueIsPrefix(s.procs, l, ts);
  }

  /** Parents and children name each other, and nobody who was released. */
  lemma Symmetric(s: State, p: int, c: int)
    requires Inv(s) && p in s.procs && p != 0 && c != 0
    ensures c in s.procs[p].children <==> c in s.procs && s.procs[c].parent == p
    ensures s.procs[p].parent != 0 ==> s.procs[p].parent in s.procs
  {
    assert ChildrenOk(s.procs, p) && ParentOk(s.procs, p);
    assert c in s.procs ==> ParentOk(s.procs, c);
  }

  /** A process is released only by its own end and only once; its pid is never used again. */
  lemma FreedOnce(kernel: int, reaper: int, ops: seq<Op>)
    requires kernel != 0 && reaper != 0 && kernel != reaper && RunsFrom(kernel, reaper, ops)
    ensures var t := Reached(kernel, reaper, ops);
      && (forall i, j :: 0 <= i < j < |t.log.freed| ==> t.log.freed[i] != t.log.freed[j])
      && (forall p :: p in t.procs ==> t.procs[p].pid !in t.log.freed)
  {
    hide Runs, After, Initial;
    InitialInv(kernel, reaper);
    RunInv(Initial(kernel, reaper), ops);
  }

  /** Dead and yet in another queue or running. */
  ghost predicate Astray(s: State, p: int) {
    p in s.procs && In(s.lists, DyingQ, p) &&
      (s.procs[p].status == Running || exists q :: q != DyingQ && In(s.lists, q, p))
  }

  lemma AstrayWake(s: State, q: Qid, n: nat, p: int)
    requires Astray(s, p) && q != DyingQ && q != ReadyQ && n <= |List(s.lists, q)|
    ensures Astray(WakeMany(s, q, n), p)
  {
    var l, r, t := List(s.lists, q), List(s.lists, ReadyQ), WakeMany(s, q, n);
    if n > 0 {
      assert List(t.lists, q) == l[n..] && List(t.lists, ReadyQ) == r + l[..n] && l == l[..n] + l[n..];
      assert forall q' :: q' != q && q' != ReadyQ ==> List(t.lists, q') == List(s.lists, q');
      if p in l[..n] {
        assert In(t.lists, ReadyQ, p);
      } else if q' :| q' != DyingQ && In(s.lists, q', p) {
        assert In(t.lists, q', p);
      }
    }
  }

  lemma InTail(l: seq<int>, p: int)
    requires l != [] && p in l && l[0] != p
    ensures p in l[1..]
  {
    assert l == [l[0]] + l[1..];
  }

  /** What a switch does to the queues and to p. */
  lemma SwitchEffect(s: State, r1: seq<int>, p: int)
    requires List(s.lists, ReadyQ) != [] && p in s.procs
    requires r1 == if StatusOf(s.procs, s.current) == Running then List(s.lists, ReadyQ) + [s.current]
      else List(s.lists, ReadyQ)
    ensures List(Switch(s).lists, ReadyQ) == r1[1..] && forall q :: q != ReadyQ ==>
      List(Switch(s).lists, q) == List(s.lists, q)
    ensures p in Switch(s).procs && (p == r1[0] ==> Switch(s).procs[p].status == Running)
    ensures s.procs[p].status == Running && Switch(s).procs[p].status != Running ==> p in r1
  {
    assert r1[0] == List(s.lists, ReadyQ)[0];
  }

  lemma AstraySwitch(s: State, p: int)
    requires Astray(s, p)
    ensures Astray(Switch(s), p)
  {
    hide Switch;
    var r, t := List(s.lists, ReadyQ), Switch(s);
    if r == [] {
      assert t == s by { SwitchNone(s); }
    } else {
      var r1 := if StatusOf(s.procs, s.current) == Running then r + [s.current] else r;
      SwitchEffect(s, r1, p);
      assert In(t.lists, DyingQ, p);
      if r1[0] != p && p in r1 {
        InTail(r1, p);
        assert In(t.lists, ReadyQ, p);
      } else if q :| q != DyingQ && q != ReadyQ && In(s.lists, q, p) {
        assert In(t.lists, q, p);
      }
    }
  }

  lemma SwitchNone(s: State)
    requires List(s.lists, ReadyQ) == []
    ensures Switch(s) == s
  {
  }

  lemma AstrayWakeAll(s: State, q: Qid, p: int)
    requires Astray(s, p) && q != DyingQ && q != ReadyQ
    ensures Astray(WakeAll(s, q), p)
  {
    hide Switch, WakeMany;
    var s1 := WakeMany(Postpone(s), q, |List(s.lists, q)|);
    assert Astray(Postpone(s), p);
    AstrayWake(Postpone(s), q, |List(s.lists, q)|, p);
    AstrayResume(s1, p);
  }

  lemma AstrayResume(s: State, p: int)
    requires Astray(s, p)
    ensures Astray(Resume(s), p)
  {
    hide Switch;
    var s1 := if s.locks > 0 then s.(locks := s.locks - 1) else s;
    assert Astray(s1, p) && Astray(s1.(flag := false), p);
    AstraySwitch(s1.(flag := false), p);
  }

  /** Terminating a blocked process leaves it in its wait queue, so the invariant survives an exit
      if and only if the process was not blocked. */
  lemma ExitExact(s: State, p: int, code: int)
    requires Inv(s) && p in s.procs && p != s.reaper
    ensures Inv(Exit(s, p, code)) <==> s.procs[p].status != Blocked
  {
    hide Rest, WakeAll, Resume, Placed;
    if s.procs[p].status != Blocked {
      ExitKeeps(s, p, code);
    } else {
      OnePlace(s, p);
      var q :| In(s.lists, q, p) && Suits(q, Blocked);
      var s2 := Die(Postpone(s), p, code);
      assert In(s2.lists, q, p) && In(s2.lists, DyingQ, p);
      assert Astray(s2, p);
      AstrayNotify(s2, p);
      AstrayResume(Notify(s2, p), p);
      AstrayOut(Exit(s, p, code), p);
    }
  }

  /** The kernel process blocks on a queue, and the terminator terminates it. */
  lemma BlockedExit()
    ensures var s := Block(Initial(1, 2), Waiters(7));
      Inv(s) && 1 in s.procs && s.current == 2 && s.procs[1].status == Blocked && !Inv(Exit(s, 1, 0))
  {
    hide Exit, Inv;
    InitialInv(1, 2);
    BlockKeeps(Initial(1, 2), 7);
    ExitExact(Block(Initial(1, 2), Waiters(7)), 1, 0);
  }

  /** The kernel process unlocks a semaphore that nobody holds. */
  lemma StrangerUnlock()
    ensures var s := Initial(1, 2).(sems := map[7 := Sem(1, 0)]);
      Inv(s) && !Inv(Unlock(s, 7))
  {
    hide Unlock, Inv;
    InitialInv(1, 2);
    CreateKeeps(Initial(1, 2), 7, 1);
    assert Initial(1, 2).sems[7 := Sem(1, 0)] == map[7 := Sem(1, 0)];
    UnlockExact(Initial(1, 2).(sems := map[7 := Sem(1, 0)]), 7);
  }

  lemma AstrayNotify(s: State, p: int)
    requires Astray(s, p)
    ensures Astray(Notify(s, p), p)
  {
    hide WakeAll;
    AstrayWakeAll(s, ExitWaiters(p), p);
    AstrayWakeAll(WakeAll(s, ExitWaiters(p)), ChildWaiters(s.procs[p].parent), p);
  }

  lemma AstrayOut(s: State, p: int)
    requires Astray(s, p)
    ensures !Placed(s.procs, s.lists, s.current)
  {
  }

  /** In every run the holders of a semaphore are counted and bounded, waiters exist only when it is
      full, and it is granted in the order in which it was asked for. */
  lemma SemaphoreRuns(s: State, ops: seq<Op>, id: int)
    requires Inv(s) && Runs(s, ops) && id in After(s, ops).sems
    ensures var t := After(s, ops);
      && |Holders(t.log, id)| == t.sems[id].locks <= t.sems[id].limit
      && (List(t.lists, Waiters(id)) != [] ==> t.sems[id].locks == t.sems[id].limit)
      && Granted(t.log, id) <= Asked(t.log, id) &&
        Asked(t.log, id)[|Granted(t.log, id)|..] == List(t.lists, Waiters(id))
  {
    hide Runs, After;
    RunInv(s, ops);
    var t := After(s, ops);
    assert SemOk(t.lists, t.sems[id], t.log, id);
  }

  /** A process leaves only when it is dead, and is then in no queue. */
  lemma ReleasedDead(s: State, op: Op, p: int)
    requires Inv(s) && Enabled(s, op) && p in s.procs && p !in Apply(s, op).procs
    ensures s.procs[p].status == Dead && Free(Apply(s, op).lists, p)
  {
    hide Placed, Rest, Apply, Free;
    StepKeeps(s, op);
    Apart(Apply(s, op).procs, Apply(s, op).lists, Apply(s, op).current, p) by {
      NewComer(Apply(s, op).procs, Apply(s, op).lists, Apply(s, op).current, p);
    }
    StepRecord(s, op, p);
  }
}
