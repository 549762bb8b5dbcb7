/** The scheduler over its real queues: every method does to the linked queues and process
    records what the step of the same name in `Sched` does to sequences.
  */
module Kernel {
  import opened Seqs
  import opened ProcQueue
  import opened Sched
  import opened SchedInv
  import opened SchedSteps
  import opened SchedLife
  import opened SchedReap
  import opened SchedEffects

  class Scheduler {
    const qs: Queues
    const reaper: int
    var procs: map<int, Proc>
    var current: int
    var total: nat
    var locks: nat
    var flag: bool
    var quantum: nat
    var waits: map<int, Wait>
    var sems: map<int, Sem>
    ghost var log: Log

    ghost function Abs(): State
      reads this, qs
    {
      State(procs, qs.lists, current, total, reaper, locks, flag, quantum, waits, sems, log)
    }

    /** The queues hold live processes; a current process that is running is in none. */
    ghost predicate Linked()
      reads this, qs
    {
      && qs.Valid() && qs.next.Keys == procs.Keys && 0 !in procs && current in procs
      && (procs[current].status == Running ==> Free(qs.lists, current))
    }

    /** And no queue is being drained, so that every head and tail is exact. */
    ghost predicate Valid()
      reads this, qs
    {
      Linked() && qs.draining == {}
    }

    lemma ExactEnds()
      requires Valid()
      ensures Ends(qs.queues, qs.lists)
    {
      EndsExact(qs.next, qs.queues, qs.lists);
    }

    /** sched_initialize. */
    constructor (kernel: int, terminator: int)
      requires kernel != 0 && terminator != 0 && kernel != terminator
      ensures Valid() && Abs() == Initial(kernel, terminator) && fresh(qs)
    {
      qs := new Queues();
      reaper := terminator;
      procs := map[kernel := Proc(0, Running, 0, 0, NoChildren(), 0),
        terminator := Proc(2, Uninitialized, 0, 0, NoChildren(), 0)];
      current, total, locks, flag, quantum, waits, sems := kernel, 2, 0, false, 0, map[], map[];
      log := Log([], [], [], map[], map[], map[]);
      new;
      qs.Adopt(kernel);
      qs.Adopt(terminator);
      qs.PushTail(ReadyQ, terminator);
      assert List(map[], ReadyQ) + [terminator] == [terminator];
      assert qs.lists == map[ReadyQ := [terminator]];
    }

    lemma Known(q: Qid)
      requires Linked()
      ensures forall p :: p in List(qs.lists, q) ==> p in procs && p != 0
      ensures QueueOf(qs.queues, q).head == At(List(qs.lists, q), 0)
      ensures (QueueOf(qs.queues, q).head == 0 <==> List(qs.lists, q) == [])
    {
      qs.Look(q, 0);
      assert forall p :: p in List(qs.lists, q) ==> p in qs.next.Keys;
    }

    method PostponeSwitch()
      requires Valid()
      modifies this`locks
      ensures Valid() && Abs() == Postpone(old(Abs()))
    {
      locks := locks + 1;
    }

    /** A current process that is still running goes to the back of the ready queue. */
    method Preempt()
      requires Valid() && procs[current].status == Running
      modifies this`procs, qs
      ensures Valid() && procs == old(Mark(procs, current, Runnable))
      ensures qs.lists == old(qs.lists)[ReadyQ := List(old(qs.lists), ReadyQ) + [current]]
    {
      hide Queues.Valid, Free;
      procs := procs[current := procs[current].(status := Runnable)];
      qs.PushTail(ReadyQ, current);
    }

    method DispatchFirst()
      requires Valid() && List(qs.lists, ReadyQ) != []
      modifies this, qs
      ensures Valid() && Abs() == Dispatch(old(Abs()))
    {
      hide Queues.Valid, Free;
      Known(ReadyQ);
      quantum := QUANTUM;
      var n := qs.PopHead(ReadyQ);
      procs := procs[n := procs[n].(status := Running)];
      current := n;
      log := log.(ran := log.ran + [n]);
    }

    /** The part of schedule_advance after the lock test, for a non-empty ready queue. */
    method SwitchNow()
      requires Valid()
      modifies this, qs
      ensures Valid() && Abs() == Switch(old(Abs()))
    {
      hide Queues.Valid, Free, Dispatch;
      Known(ReadyQ);
      if QueueOf(qs.queues, ReadyQ).head != 0 {
        if procs[current].status == Running { Preempt(); }
        DispatchFirst();
      }
    }

    /** schedule_advance. */
    method ScheduleAdvance()
      requires Valid()
      modifies this, qs
      ensures Valid() && Abs() == Advance(old(Abs()))
    {
      if locks > 0 {
        flag := true;
      } else {
        SwitchNow();
      }
    }

    /** sched_resume. */
    method ResumeSwitch()
      requires Valid()
      modifies this, qs
      ensures Valid() && Abs() == Resume(old(Abs()))
    {
      hide Switch;
      if locks > 0 { locks := locks - 1; }
      if locks == 0 && flag {
        flag := false;
        SwitchNow();
      }
    }

    /** wake_proc. */
    method WakeProc(p: int)
      requires Linked() && p in procs && Free(qs.lists, p)
      modifies this`procs, qs`next, qs`queues, qs`lists
      ensures Linked() && procs == old(Mark(procs, p, Runnable))
      ensures qs.lists == old(qs.lists)[ReadyQ := List(old(qs.lists), ReadyQ) + [p]]
    {
      hide Queues.Valid, Free;
      procs := procs[p := procs[p].(status := Runnable)];
      qs.PushTail(ReadyQ, p);
      StillFree(old(qs.lists), qs.lists, ReadyQ, p, current);
    }

    /** wait_queue_wake_one. */
    method DoWakeOne(q: Qid) returns (p: int)
      requires Valid() && IsWaitQueue(q)
      modifies this, qs
      ensures Valid() && Abs() == WakeOne(old(Abs()), q) && p == At(List(old(qs.lists), q), 0)
    {
      hide Queues.Valid, Free, Resume;
      PostponeSwitch();
      ghost var s1 := Abs();
      Known(q);
      p := qs.PopHead(q);
      if p != 0 {
        OutFree1(s1.lists, qs.lists, q, current);
        WakeProc(p);
        OneWoken(s1, q, p, Abs());
      }
      ResumeSwitch();
    }

    /** The body of the loop of wait_queue_wake_all. */
    method WakeNext(q: Qid)
      requires Linked() && IsWaitQueue(q) && List(qs.lists, q) != []
      modifies this`procs, qs
      ensures Linked() && qs.draining == old(qs.draining) + {q}
      ensures Abs() == old(WakeMany(Abs(), q, 1)) && |List(qs.lists, q)| == |List(old(qs.lists), q)| - 1
    {
      hide Queues.Valid, Free, WakeMany;
      ghost var s := Abs();
      Known(q);
      var p := qs.DropHead(q);
      OutFree1(s.lists, qs.lists, q, current);
      WakeProc(p);
      OneWoken(s, q, p, Abs());
    }

    /** wait_queue_wake_all. */
    method DoWakeAll(q: Qid)
      requires Valid() && IsWaitQueue(q)
      modifies this, qs
      ensures Valid() && Abs() == WakeAll(old(Abs()), q)
    {
      hide Queues.Valid, Free, Resume, WakeMany;
      PostponeSwitch();
      ghost var s1, n, i := Abs(), |List(qs.lists, q)|, 0;
      WakeNone(s1, q);
      Known(q);
      while QueueOf(qs.queues, q).head != 0
        invariant Linked() && qs.draining <= {q}
        invariant i <= n && Abs() == WakeMany(s1, q, i) && |List(qs.lists, q)| == n - i
        invariant QueueOf(qs.queues, q).head == 0 <==> List(qs.lists, q) == []
        decreases n - i
      {
        WakeSplit(s1, q, i);
        WakeNext(q);
        Known(q);
        i := i + 1;
      }
      qs.ClearTail(q);
      ResumeSwitch();
    }

    /** mp_block_proc after enqueue_current of wait_queue.c. */
    method BlockCurrent(q: Qid)
      requires Valid() && IsWaitQueue(q) && procs[current].status == Running
      modifies this, qs
      ensures Valid() && Abs() == BlockOn(old(Abs()), q)
    {
      hide Queues.Valid, Free, Advance;
      qs.PushTail(q, current);
      procs := procs[current := procs[current].(status := Blocked)];
      ScheduleAdvance();
    }

    /** wait_queue_sleep. */
    method DoBlock(q: Qid)
      requires Valid() && IsWaitQueue(q) && procs[current].status == Running
      modifies this, qs
      ensures Valid() && Abs() == Block(old(Abs()), q)
    {
      hide Queues.Valid, Free, BlockOn, Resume;
      PostponeSwitch();
      BlockCurrent(q);
      ResumeSwitch();
    }

    /** The due sleepers, by walking the queue. */
    method LastDue(ts: nat) returns (last: int, ghost n: nat)
      requires Valid()
      ensures n == Due(procs, List(qs.lists, SleepingQ), ts) && last == At(List(qs.lists, SleepingQ), n - 1)
      ensures (last == 0 <==> n == 0)
    {
      var ps := procs;
      last, n := qs.FindLastPrefix(SleepingQ, p => p in ps && ps[p].sleepUntil <= ts);
      LongestDue(procs, List(qs.lists, SleepingQ), ts, n);
    }

    /** The queue part of sleep_proc_until. */
    method InsertSleeper(ts: nat)
      requires Valid() && procs[current].status != Running && Free(qs.lists, current)
      modifies qs
      ensures Valid() && qs.next.Keys == old(qs.next.Keys)
      ensures var l := List(old(qs.lists), SleepingQ); var n := Due(procs, l, ts);
        qs.lists == old(qs.lists)[SleepingQ := l[..n] + [current] + l[n..]]
    {
      hide Queues.Valid, Due, Free;
      Known(SleepingQ);
      ghost var l := List(qs.lists, SleepingQ);
      var last;
      ghost var n;
      if QueueOf(qs.queues, SleepingQ).head == 0 {
        DueNone(procs, l, ts);
        assert [current] + l == l[..0] + [current] + l[0..];
        qs.PushHead(SleepingQ, current);
        return;
      }
      last, n := LastDue(ts);
      if last == 0 {
        assert [current] + l == l[..0] + [current] + l[0..];
        qs.PushHead(SleepingQ, current);
      } else {
        qs.InsertAfter(SleepingQ, last, current, n - 1);
      }
    }

    /** sleep_proc_until for the current process. */
    method DoSleep(ts: nat)
      requires Valid() && procs[current].status == Running
      modifies this, qs
      ensures Valid() && Abs() == SleepUntil(old(Abs()), ts)
    {
      hide Queues.Valid, Due, Free, Advance, Resume;
      ghost var procs0, l := procs, List(qs.lists, SleepingQ);
      PostponeSwitch();
      procs := procs[current := procs[current].(status := Sleeping, sleepUntil := ts)];
      NotIn(qs.lists, SleepingQ, current);
      DueElsewhere(procs0, procs, l, ts, current);
      InsertSleeper(ts);
      ScheduleAdvance();
      ResumeSwitch();
    }

    /** wake_procs_before_timestamp. */
    method WakeBefore(ts: nat)
      requires Valid()
      modifies this`procs, qs
      ensures Valid() && qs.next.Keys == old(qs.next.Keys)
      ensures Abs() == old(WakeMany(Abs(), SleepingQ, Due(procs, List(qs.lists, SleepingQ), ts)))
    {
      hide Queues.Valid, Due, Free;
      ghost var s, l := Abs(), List(qs.lists, SleepingQ);
      var last;
      ghost var n;
      last, n := LastDue(ts);
      if last == 0 { return; }
      MarkWoken(last, n);
      qs.SplicePrefixTail(ReadyQ, SleepingQ, last, n);
      SplicedFree(s.lists, qs.lists, n, current);
      MarkedCurrent(s, n, procs);
    }

    /** The loop of wake_procs_before_timestamp over the due sleepers. */
    method MarkWoken(last: int, ghost n: nat)
      requires Valid() && 0 < n <= |List(qs.lists, SleepingQ)| && last == List(qs.lists, SleepingQ)[n - 1]
      modifies this`procs
      ensures procs == old(MarkAll(procs, List(qs.lists, SleepingQ)[..n], Runnable))
    {
      hide MarkAll, Free;
      ghost var l, procs0 := List(qs.lists, SleepingQ), procs;
      ghost var i := 0;
      Known(SleepingQ);
      qs.Look(SleepingQ, 0);
      MarkNone(procs0);
      var curr := QueueOf(qs.queues, SleepingQ).head;
      while curr != 0
        invariant 0 <= i < n && curr == l[i] && curr != 0 && procs == MarkAll(procs0, l[..i], Runnable)
        invariant procs.Keys == procs0.Keys
        decreases n - i
      {
        qs.Look(SleepingQ, i);
        procs := procs[curr := procs[curr].(status := Runnable)];
        MarkMore(procs0, l, i);
        if curr == last {
          SameIndex(l, i, n - 1);
          return;
        }
        curr := qs.next[curr];
        i := i + 1;
        qs.Look(SleepingQ, i);
      }
    }

    /** handle_timer. */
    method HandleTimer(ts: nat, interval: nat)
      requires Valid()
      modifies this, qs
      ensures Valid() && Abs() == Tick(old(Abs()), ts, interval)
    {
      hide Queues.Valid, Due, Free, Advance, Resume, WakeMany;
      PostponeSwitch();
      WakeBefore(ts);
      if quantum != 0 {
        if quantum <= interval {
          ScheduleAdvance();
        } else {
          quantum := quantum - interval;
        }
      }
      ResumeSwitch();
    }

    /** proc_new_kernel or proc_new_user, then sched_add_proc. */
    method DoAdd(p: int)
      requires Valid() && p !in procs && p != 0
      modifies this, qs
      ensures Valid() && Abs() == Add(old(Abs()), p)
    {
      hide Queues.Valid, Free, Resume;
      procs := procs[p := Proc(total + 1, Uninitialized, 0, 0, NoChildren(), 0)];
      total := total + 1;
      qs.Adopt(p);
      PostponeSwitch();
      ghost var lists0 := qs.lists;
      qs.PushTail(ReadyQ, p);
      StillFree(lists0, qs.lists, ReadyQ, p, current);
      ResumeSwitch();
    }

    /** proc_child_find_null. */
    method FindNullSlot(children: seq<int>) returns (slot: nat)
      requires |children| > 0
      ensures slot == SlotOf(children, 0)
    {
      slot := 1;
      while slot < |children|
        invariant 1 <= slot <= |children| && SlotFrom(children, 0, slot) == SlotFrom(children, 0, 1)
      {
        if children[slot] == 0 { return; }
        slot := slot + 1;
      }
    }

    /** fork_proc for the current process, once memory for the new process c was found. */
    method DoFork(c: int) returns (pid: int)
      requires Valid() && c !in procs && c != 0 && |procs[current].children| > 0
      modifies this, qs
      ensures Valid() && Abs() == Fork(old(Abs()), c)
      ensures var children := old(procs)[current].children;
        pid == if SlotOf(children, 0) < |children| then old(total) + 1 else -11
      ensures old(Inv(Abs())) ==> Forked(old(Abs()), c, Abs())
    {
      hide Queues.Valid, Free, Inv, Forked, NoChildren, SlotOf;
      ghost var s := Abs();
      if Inv(s) { ForkEffect(s, c); }
      var slot := FindNullSlot(procs[current].children);
      if slot >= |procs[current].children| { return -11; }
      procs := procs[current := procs[current].(children := procs[current].children[slot := c])];
      EnterReady(c, Proc(total + 1, Runnable, 0, current, NoChildren(), 0));
      pid := procs[c].pid;
      assert procs == Fork(s, c).procs;
    }

    /** A new process, ready behind the others. */
    method EnterReady(p: int, e: Proc)
      requires Valid() && p !in procs && p != 0
      modifies this`procs, this`total, qs
      ensures Valid() && procs == old(procs)[p := e] && total == old(total) + 1
      ensures qs.lists == old(qs.lists)[ReadyQ := List(old(qs.lists), ReadyQ) + [p]]
    {
      hide Queues.Valid, Free;
      procs := procs[p := e];
      total := total + 1;
      qs.Adopt(p);
      ghost var lists0 := qs.lists;
      qs.PushTail(ReadyQ, p);
      StillFree(lists0, qs.lists, ReadyQ, p, current);
    }

    /** p is in the queue that mp_remove_proc looks in. */
    ghost predicate Removable(p: int)
      requires p in procs
      reads this, qs
    {
      match procs[p].status
      case Runnable => In(qs.lists, ReadyQ, p)
      case Uninitialized => In(qs.lists, ReadyQ, p)
      case Sleeping => In(qs.lists, SleepingQ, p)
      case _ => false
    }

    /** mp_remove_proc; a process that is running, blocked or dead stays where it is. */
    method RemoveProc(p: int)
      requires Valid() && p in procs
      modifies qs
      ensures Valid() && (old(Removable(p)) ==> Free(qs.lists, p))
      ensures var l := Leave(old(Abs()), p).lists; forall q :: List(qs.lists, q) == List(l, q)
      ensures old(Removable(p)) ==> qs.lists == Leave(old(Abs()), p).lists
    {
      hide Rep, Holds, Free, Without;
      if procs[p].status !in {Runnable, Uninitialized, Sleeping} { return; }
      var q := if procs[p].status == Sleeping then SleepingQ else ReadyQ;
      ghost var lists0 := qs.lists;
      qs.Look(q, 0);
      var found := qs.Remove(q, p);
      if found {
        WithoutFree(lists0, qs.lists, q, p, current);
      } else {
        WithoutNone(List(lists0, q), p);
      }
    }

    method BuryFree(p: int, code: int)
      requires Valid() && p in procs && Free(qs.lists, p)
      modifies this, qs
      ensures Valid()
      ensures Abs() == old(Put(Abs(), DyingQ, [p] + List(qs.lists, DyingQ))
        .(procs := procs[p := procs[p].(exitCode := code, status := Dead)], waits := waits - {p},
          log := log.(ended := log.ended + [p])))
    {
      hide Queues.Valid, Free;
      ghost var lists1 := qs.lists;
      qs.PushHead(DyingQ, p);
      PushedFree(lists1, qs.lists, p, current);
      procs := procs[p := procs[p].(exitCode := code, status := Dead)];
      waits := waits - {p};
      log := log.(ended := log.ended + [p]);
    }

    method BuryNow(p: int, code: int)
      requires Valid() && p in procs && (if p == current then procs[p].status == Running else Removable(p))
      modifies this, qs
      ensures Valid() && Abs() == Bury(old(Abs()), p, code)
    {
      hide Queues.Valid, Free, Leave;
      LeaveSame(Abs(), p);
      if p != current { RemoveProc(p); }
      BuryFree(p, code);
    }

    /** The part of proc_exit up to the notification. */
    method DieNow(p: int, code: int)
      requires Valid() && p in procs && (if p == current then procs[p].status == Running else Removable(p))
      modifies this, qs
      ensures Valid() && Abs() == Die(old(Abs()), p, code)
    {
      hide Queues.Valid, Free, Advance, Bury;
      BuryNow(p, code);
      ScheduleAdvance();
    }

    /** proc_exit. */
    method DoExit(p: int, code: int)
      requires Valid() && p in procs
      requires (procs[p].status == Dead || (if p == current then procs[p].status == Running else Removable(p)))
      modifies this, qs
      ensures Valid() && Abs() == Exit(old(Abs()), p, code)
      ensures old(Inv(Abs()) && p != reaper && procs[p].status !in {Dead, Blocked}) ==>
        Ended(old(Abs()), p, code, Abs())
    {
      hide Queues.Valid, Free, Die, WakeAll, Resume, Inv, Ended;
      ghost var s := Abs();
      if Inv(s) && p != reaper && s.procs[p].status != Blocked { ExitEffect(s, p, code); }
      PostponeSwitch();
      if procs[p].status == Dead {
        ResumeSwitch();
        return;
      }
      ghost var s1 := Abs();
      DieNow(p, code);
      DieSame(s1, p, code);
      if procs[p].parent != 0 {
        var parent := procs[p].parent;
        DoWakeAll(ExitWaiters(p));
        DoWakeAll(ChildWaiters(parent));
      }
      ResumeSwitch();
    }

    /** The first loop of proc_free: the parent forgets p. */
    method ClearParentSlot(p: int)
      requires Valid() && p in procs && p != current
      requires procs[p].parent != 0 ==> procs[p].parent in procs && procs[p].parent != p
      modifies this`procs
      ensures Valid() && procs == old(Disown(procs, p))
    {
      var parent := procs[p].parent;
      if parent != 0 {
        var children := procs[parent].children;
        var slot := 1;
        while slot < |children|
          invariant 1 <= slot && (slot <= |children| ==> SlotFrom(children, p, slot) == SlotOf(children, p))
          invariant procs == old(procs) && (|children| < slot ==> |children| == 0)
        {
          if children[slot] == p {
            procs := procs[parent := procs[parent].(children := children[slot := 0])];
            break;
          }
          slot := slot + 1;
        }
      }
    }

    /** The second loop of proc_free: the children of p become orphans. */
    method OrphanChildren(p: int)
      requires Valid() && p in procs && ChildrenOk(procs, p)
      modifies this`procs
      ensures Valid() && procs == old(Orphan(procs, procs[p].children))
    {
      hide Orphan;
      ghost var procs0 := procs;
      var children := procs[p].children;
      OrphanFirst(procs0, children);
      var slot := 1;
      while slot < |children|
        invariant 1 <= slot <= |children| && procs == Orphan(procs0, children[..slot]) && Valid()
        invariant procs.Keys == procs0.Keys
      {
        OrphanMore(procs0, children, slot);
        if children[slot] != 0 {
          assert children[slot] in children && children[slot] in procs0;
          procs := procs[children[slot] := procs[children[slot]].(parent := 0)];
        }
        slot := slot + 1;
      }
      assert children[..slot] == children;
    }

    /** The two loops of proc_free. */
    method LeaveFamily(p: int)
      requires Valid() && p in procs && p != current && Family(procs)
      modifies this`procs
      ensures Valid() && procs == old(Orphan(Disown(procs, p), procs[p].children)) && procs.Keys == old(procs.Keys)
      ensures p in procs && procs[p].pid == old(procs[p].pid)
    {
      hide Queues.Valid, Free, Orphan, Disown;
      ghost var procs0 := procs;
      assert ChildrenOk(procs, p) && ParentOk(procs, p);
      ParentApart(procs, p);
      ClearParentSlot(p);
      DisownKept(procs0, p);
      OrphanKeys(procs, procs[p].children);
      OrphanChildren(p);
    }

    /** proc_free. */
    method DoFree(p: int)
      requires Valid() && p in procs && p != current && Free(qs.lists, p) && Family(procs)
      modifies this, qs
      ensures Valid() && Abs() == FreeProc(old(Abs()), p)
    {
      hide Queues.Valid, Free, Orphan, Disown, Family;
      LeaveFamily(p);
      log := log.(freed := log.freed + [procs[p].pid]);
      procs := procs - {p};
      qs.Release(p);
    }

    /** One pass of the terminator; tells whether it released anything. */
    method DoReap() returns (freed: bool)
      requires Valid() && Inv(Abs())
      modifies this, qs
      ensures Valid() && Abs() == Reap(old(Abs())) && Inv(Abs())
      ensures freed <==> |log.freed| > |old(log.freed)|
    {
      hide Queues.Valid, Placed, Rest, Sift, Requeue, Resume;
      PostponeSwitch();
      SameMid(old(Abs()), Abs());
      ghost var s1 := Abs();
      SiftKeeps(s1);
      RequeueKeeps(Sift(s1));
      freed := SiftAll();
      RequeueAll();
      ResumeKeeps(Abs());
      ResumeFreed(Abs());
      ResumeSwitch();
    }

    /** The first loop of the terminator. */
    method SiftAll() returns (freed: bool)
      requires Valid() && Mid(Abs()) && procs[current].status == Running
      modifies this, qs
      ensures Valid() && Mid(Abs()) && Abs() == Sift(old(Abs())) && |log.freed| >= |old(log.freed)|
      ensures freed <==> |log.freed| > |old(log.freed)|
    {
      hide Queues.Valid, Placed, Rest, Free, FreeProc;
      freed := false;
      while true
        invariant Valid() && Mid(Abs()) && procs[current].status == Running && Sift(Abs()) == Sift(old(Abs()))
        invariant |log.freed| >= |old(log.freed)| && (freed <==> |log.freed| > |old(log.freed)|)
        decreases |List(qs.lists, DyingQ)|
      {
        var more, gone := SiftOne();
        if !more { break; }
        freed := freed || gone;
      }
    }

    /** One turn of that loop. */
    method SiftOne() returns (more: bool, gone: bool)
      requires Valid() && Mid(Abs()) && procs[current].status == Running
      modifies this, qs
      ensures Valid() && Mid(Abs()) && procs[current].status == Running && Sift(Abs()) == Sift(old(Abs()))
      ensures more ==> |List(qs.lists, DyingQ)| < |List(old(qs.lists), DyingQ)|
      ensures |log.freed| == |old(log.freed)| + if gone then 1 else 0
      ensures !more ==> List(qs.lists, DyingQ) == [] && Abs() == old(Abs())
    {
      hide Queues.Valid, Placed, PlacedBut, Rest, Free, Orphan, Disown;
      ghost var s := Abs();
      Known(DyingQ);
      var p := qs.PopHead(DyingQ);
      if p == 0 { return false, false; }
      ghost var s1 := Abs();
      Popped(s.procs, s.lists, s.current, DyingQ);
      OutFree1(s.lists, qs.lists, DyingQ, current);
      if procs[p].parent != 0 {
        ghost var l := List(qs.lists, LocalQ);
        AsideKeeps(s, Put(s1, LocalQ, [p] + l), DyingQ, LocalQ, [p] + l);
        qs.PushHead(LocalQ, p);
        AsideFree(s1.lists, qs.lists, p, current);
        return true, false;
      }
      QuietLists(s, s1);
      FreeKeeps(s1, p, FreeProc(s1, p));
      Families(s1);
      DoFree(p);
      return true, true;
    }

    /** The second loop of the terminator. */
    method RequeueAll()
      requires Valid() && Mid(Abs())
      modifies qs
      ensures Valid() && Abs() == Requeue(old(Abs()))
    {
      hide Queues.Valid, Placed, Rest, Free;
      Known(LocalQ);
      while QueueOf(qs.queues, LocalQ).head != 0
        invariant Valid() && Requeue(Abs()) == Requeue(old(Abs()))
        invariant QueueOf(qs.queues, LocalQ).head == 0 <==> List(qs.lists, LocalQ) == []
        decreases |List(qs.lists, LocalQ)|
      {
        ghost var lists0 := qs.lists;
        Known(LocalQ);
        var p := qs.PopHead(LocalQ);
        OutFree1(lists0, qs.lists, LocalQ, current);
        ghost var lists1 := qs.lists;
        qs.PushTail(DyingQ, p);
        StillFree(lists1, qs.lists, DyingQ, p, current);
        StaysHome(lists0, LocalQ, p, current);
        Known(LocalQ);
      }
    }

    /** No child before this slot matches. */
    ghost predicate SameMatch(procs: map<int, Proc>, children: seq<int>, pid: int, slot: nat) {
      1 <= slot <= |children| && FirstMatch(procs, children, pid, slot) == FirstMatch(procs, children, pid, 1)
    }

    /** wait_child_find for the current process. */
    method FindChildSlot(pid: int) returns (slot: nat)
      requires Valid() && ChildrenOk(procs, current)
      ensures slot == FindChild(procs, procs[current].children, pid)
    {
      var children := procs[current].children;
      var first := |children|;
      slot := 1;
      while slot < |children|
        invariant 1 <= slot <= |children|
        invariant FirstDead(procs, children, pid, slot) == FirstDead(procs, children, pid, 1)
        invariant if first < |children| then first == FirstMatch(procs, children, pid, 1)
                  else first == |children| && SameMatch(procs, children, pid, slot)
      {
        var c := children[slot];
        if c != 0 {
          assert c in children;
          if pid == -1 || procs[c].pid == pid {
            if procs[c].status == Dead { return; }
            if first == |children| { first := slot; }
          }
        }
        slot := slot + 1;
      }
      slot := first;
    }

    /** process_wait_collect for a dead child. */
    method CollectNow(c: int, slot: nat) returns (reply: Reply)
      requires Valid() && MayCollect(Abs(), c, slot)
      modifies this, qs
      ensures Valid() && Abs() == Collect(old(Abs()), c, slot).0 && reply == Collect(old(Abs()), c, slot).1
    {
      hide Queues.Valid, Placed, PlacedBut, Rest, Free, Orphan, Disown, Without;
      ghost var s := Abs();
      DeadChild(s, c, slot);
      reply := Collected(procs[c].pid, procs[c].exitCode % 256 * 256);
      procs := procs[current := procs[current].(children := procs[current].children[slot := 0])];
      procs := procs[c := procs[c].(parent := 0)];
      TakeDead(c, s);
      DetachRest(s, c, slot, Abs());
      Families(Abs());
      DoFree(c);
    }

    /** mp_ready_to_die_remove. */
    method TakeDead(c: int, ghost s: State)
      requires Valid() && c in procs && s.lists == qs.lists && s.procs.Keys == procs.Keys && c in s.procs
      requires current == s.current
      requires Placed(s.procs, s.lists, s.current) && s.procs[c].status == Dead && List(s.lists, LocalQ) == []
      modifies qs
      ensures Valid() && Free(qs.lists, c)
      ensures qs.lists == old(qs.lists)[DyingQ := Without(List(old(qs.lists), DyingQ), c)]
    {
      hide Rep, Holds, Free, Without;
      ghost var lists0 := qs.lists;
      DeadIsDying(s, c);
      qs.Look(DyingQ, 0);
      var found := qs.Remove(DyingQ, c);
      WithoutFree(lists0, qs.lists, DyingQ, c, current);
    }

    /** waitpid_proc up to the point where it sleeps or returns. */
    method DoWaitBegin(pid: int, options: int) returns (reply: Reply)
      requires Valid() && Inv(Abs()) && current != reaper && current !in waits
      modifies this, qs
      ensures old(ChildrenOk(procs, current) && |procs[current].children| > 0)
      ensures Valid() && Abs() == WaitBegin(old(Abs()), pid, options).0
      ensures reply == WaitBegin(old(Abs()), pid, options).1
    {
      hide Queues.Valid, Placed, PlacedBut, Rest, Free, Collect, BlockOn, Resume, FindChild, ChildrenOk;
      ghost var s := Abs();
      Kids(s);
      Sizes(procs, current);
      if (options != 0 && options != 1) || pid == 0 || pid < -1 { return Invalid; }
      PostponeSwitch();
      SameMid(s, Abs());
      var slot := FindChildSlot(pid);
      FoundAlive(procs, procs[current].children, pid);
      if slot >= |procs[current].children| {
        ResumeSwitch();
        return NoChild;
      }
      var c := procs[current].children[slot];
      if procs[c].status == Dead {
        reply := CollectNow(c, slot);
        ResumeSwitch();
        return;
      }
      if options == 1 {
        ResumeSwitch();
        return NothingYet;
      }
      WaitFor(pid, c, slot);
      ResumeSwitch();
      return Asleep;
    }

    /** wait_queue_sleep_postponed, up to the switch. */
    method WaitFor(pid: int, c: int, slot: nat)
      requires Valid() && procs[current].status == Running
      modifies this, qs
      ensures Valid()
      ensures pid == -1 ==>
        Abs() == BlockOn(old(Abs()).(waits := old(waits)[old(current) := AnyChild]), ChildWaiters(old(current)))
      ensures pid != -1 ==>
        Abs() == BlockOn(old(Abs()).(waits := old(waits)[old(current) := Child(c, slot, pid)]), ExitWaiters(c))
    {
      hide Queues.Valid, Free, BlockOn;
      if pid == -1 {
        waits := waits[current := AnyChild];
        BlockCurrent(ChildWaiters(current));
      } else {
        waits := waits[current := Child(c, slot, pid)];
        BlockCurrent(ExitWaiters(c));
      }
    }

    /** The rest of waitpid_proc, after it was woken. */
    method DoWaitEnd() returns (reply: Reply)
      requires Valid() && Inv(Abs()) && current in waits
      modifies this, qs
      ensures old(ChildrenOk(procs, current) && |procs[current].children| > 0)
      ensures Valid() && Abs() == WaitEnd(old(Abs())).0 && reply == WaitEnd(old(Abs())).1
    {
      hide Queues.Valid, Placed, PlacedBut, Rest, Free, Collect, Resume, FindChild, ChildrenOk;
      ghost var s := Abs();
      Kids(s);
      Sizes(procs, current);
      WaitedFor(s);
      FoundAlive(procs, procs[current].children, -1);
      PostponeSwitch();
      var w := waits[current];
      waits := waits - {current};
      ForgetWait(s, Abs());
      var c, slot;
      if w == AnyChild {
        slot := FindChildSlot(-1);
        if slot >= |procs[current].children| {
          ResumeSwitch();
          return NoChild;
        }
        c := procs[current].children[slot];
      } else {
        c, slot := w.child, w.slot;
      }
      if procs[c].status != Dead {
        ResumeSwitch();
        return NoChild;
      }
      reply := CollectNow(c, slot);
      ResumeSwitch();
    }

    /** semaphore_lock. */
    method DoLock(id: int)
      requires Valid() && id in sems && procs[current].status == Running
      modifies this, qs
      ensures Valid() && Abs() == Lock(old(Abs()), id)
    {
      hide Queues.Valid, Free, Resume, Block, Grant, Ask;
      PostponeSwitch();
      log := Ask(log, id, current);
      if sems[id].locks < sems[id].limit {
        sems := sems[id := sems[id].(locks := sems[id].locks + 1)];
        log := Grant(log, id, current);
      } else {
        DoBlock(Waiters(id));
      }
      ResumeSwitch();
    }

    /** semaphore_try_lock. */
    method DoTryLock(id: int) returns (ok: bool)
      requires Valid() && id in sems && procs[current].status == Running
      modifies this, qs
      ensures Valid() && Abs() == TryLock(old(Abs()), id).0 && ok == TryLock(old(Abs()), id).1
    {
      hide Queues.Valid, Free, Resume, Lock;
      PostponeSwitch();
      if sems[id].locks < sems[id].limit {
        DoLock(id);
        ResumeSwitch();
        return true;
      }
      ResumeSwitch();
      return false;
    }

    /** semaphore_unlock. */
    method DoUnlock(id: int)
      requires Valid() && id in sems
      modifies this, qs
      ensures Valid() && Abs() == Unlock(old(Abs()), id)
    {
      hide Queues.Valid, Free, Resume, WakeOne, Grant, GiveUp;
      PostponeSwitch();
      log := GiveUp(log, id, current);
      Known(Waiters(id));
      if QueueOf(qs.queues, Waiters(id)).head != 0 {
        log := Grant(log, id, List(qs.lists, Waiters(id))[0]);
        var _ := DoWakeOne(Waiters(id));
      } else {
        sems := sems[id := sems[id].(locks := (sems[id].locks + 255) % 256)];
      }
      ResumeSwitch();
    }
  }

  lemma WakeNone(s: State, q: Qid)
    ensures WakeMany(s, q, 0) == s
  {
  }

  lemma StillFree(lists: Lists, lists': Lists, q: Qid, p: int, x: int)
    requires lists' == lists[q := List(lists, q) + [p]]
    ensures Free(lists, x) && x != p ==> Free(lists', x)
  {
    if Free(lists, x) && x != p {
      forall q' ensures !In(lists', q', x) { assert !In(lists, q', x); }
    }
  }

  lemma OutFree1(lists: Lists, lists': Lists, q: Qid, x: int)
    requires List(lists, q) != [] && lists' == lists[q := List(lists, q)[1..]]
    ensures Free(lists, x) ==> Free(lists', x)
  {
    if Free(lists, x) {
      forall q' ensures !In(lists', q', x) { assert !In(lists, q', x); }
    }
  }

  lemma OneWoken(s: State, q: Qid, p: int, s': State)
    requires q != ReadyQ && List(s.lists, q) != [] && p == List(s.lists, q)[0]
    requires s' == s.(procs := Mark(s.procs, p, Runnable), lists := s'.lists)
    requires s'.lists == s.lists[q := List(s.lists, q)[1..]][ReadyQ := List(s.lists, ReadyQ) + [p]]
    ensures s' == WakeMany(s, q, 1)
  {
    assert List(s.lists, q)[..1] == [p];
    assert Mark(s.procs, p, Runnable) == MarkAll(s.procs, [p], Runnable);
  }

  lemma NotIn(lists: Lists, q: Qid, p: int)
    requires Free(lists, p)
    ensures p !in List(lists, q)
  {
    assert !In(lists, q, p);
  }

  lemma {:induction false} LongestDue(procs: map<int, Proc>, l: seq<int>, ts: nat, n: nat)
    requires n <= |l| && forall k :: 0 <= k < n ==> l[k] in procs && procs[l[k]].sleepUntil <= ts
    requires n < |l| ==> !(l[n] in procs && procs[l[n]].sleepUntil <= ts)
    ensures n == Due(procs, l, ts)
    decreases n
  {
    if n > 0 { LongestDue(procs, l[1..], ts, n - 1); }
  }

  lemma DueNone(procs: map<int, Proc>, l: seq<int>, ts: nat)
    requires l == []
    ensures Due(procs, l, ts) == 0
  {
  }

  lemma {:induction false} DueElsewhere(procs: map<int, Proc>, procs': map<int, Proc>, l: seq<int>, ts: nat, p: int)
    requires p in procs && p in procs' && procs' == procs[p := procs'[p]] && p !in l
    ensures Due(procs', l, ts) == Due(procs, l, ts)
    decreases |l|
  {
    if l != [] {
      assert l[0] != p;
      DueElsewhere(procs, procs', l[1..], ts, p);
    }
  }

  lemma SplicedFree(lists: Lists, lists': Lists, n: nat, x: int)
    requires n <= |List(lists, SleepingQ)|
    requires lists' ==
      lists[SleepingQ := List(lists, SleepingQ)[n..]][ReadyQ := List(lists, ReadyQ) + List(lists, SleepingQ)[..n]]
    ensures Free(lists, x) ==> Free(lists', x)
  {
    if Free(lists, x) {
      forall q ensures !In(lists', q, x) {
        assert !In(lists, q, x) && !In(lists, SleepingQ, x) && !In(lists, ReadyQ, x);
      }
    }
  }

  lemma MarkedCurrent(s: State, n: nat, procs': map<int, Proc>)
    requires n <= |List(s.lists, SleepingQ)| && procs' == MarkAll(s.procs, List(s.lists, SleepingQ)[..n], Runnable)
    requires s.current in s.procs
    ensures s.current in procs' && (procs'[s.current].status == Running ==> s.procs[s.current].status == Running)
  {
  }

  lemma MarkNone(procs: map<int, Proc>)
    ensures MarkAll(procs, [], Runnable) == procs
  {
  }

  lemma MarkMore(procs: map<int, Proc>, l: seq<int>, i: nat)
    requires i < |l| && l[i] in procs
    ensures l[i] in MarkAll(procs, l[..i], Runnable)
    ensures MarkAll(procs, l[..i], Runnable)[l[i] := procs[l[i]].(status := Runnable)] ==
      MarkAll(procs, l[..i + 1], Runnable)
    ensures MarkAll(procs, l[..i], Runnable)[l[i]].(status := Runnable) == procs[l[i]].(status := Runnable)
    ensures MarkAll(procs, l[..i + 1], Runnable).Keys == procs.Keys
  {
    assert l[..i + 1] == l[..i] + [l[i]];
  }

  lemma SameIndex(l: seq<int>, i: nat, j: nat)
    requires Distinct(l) && i < |l| && j < |l| && l[i] == l[j]
    ensures i == j
  {
  }

  lemma WithoutFree(lists: Lists, lists': Lists, q: Qid, p: int, x: int)
    requires Separate(lists) && p in List(lists, q) && lists' == lists[q := Without(List(lists, q), p)]
    ensures Free(lists, x) ==> Free(lists', x)
  {
    ListDistinct(lists, q, p);
    DifferWithout(List(lists, q), p);
    if Free(lists, x) {
      forall q' ensures !In(lists', q', x) { assert !In(lists, q', x) && !In(lists, q, x); }
    }
  }

  lemma PushedFree(lists: Lists, lists': Lists, p: int, x: int)
    requires lists' == lists[DyingQ := [p] + List(lists, DyingQ)]
    ensures Free(lists, x) && x != p ==> Free(lists', x)
  {
    if Free(lists, x) && x != p {
      forall q' ensures !In(lists', q', x) { assert !In(lists, q', x); }
    }
  }

  lemma LeaveSame(s: State, p: int)
    ensures Leave(s, p) == s.(lists := Leave(s, p).lists)
  {
    hide Without;
  }

  lemma DieSame(s: State, p: int, code: int)
    requires p in s.procs && s.locks > 0
    ensures p in Die(s, p, code).procs && Die(s, p, code).procs[p].parent == s.procs[p].parent
  {
  }

  lemma ParentApart(procs: map<int, Proc>, p: int)
    requires Family(procs) && p in procs
    ensures procs[p].parent != 0 ==> procs[p].parent in procs && procs[p].parent != p
  {
    assert ParentOk(procs, p);
    if procs[p].parent in procs { assert ChildrenOk(procs, procs[p].parent); }
  }

  lemma DisownKept(procs: map<int, Proc>, p: int)
    requires Family(procs) && p in procs && 0 !in procs
    ensures var procs' := Disown(procs, p);
      procs'.Keys == procs.Keys && procs'[p] == procs[p] && ChildrenOk(procs', p)
    ensures forall x :: x in procs ==> Disown(procs, p)[x].status == procs[x].status
  {
    ParentApart(procs, p);
    assert ChildrenOk(procs, p);
  }

  lemma OrphanFirst(procs: map<int, Proc>, children: seq<int>)
    requires |children| > 0 && children[0] == 0
    ensures Orphan(procs, children[..1]) == procs
  {
  }

  lemma OrphanMore(procs: map<int, Proc>, children: seq<int>, i: nat)
    requires i < |children|
    ensures children[i] == 0 ==> Orphan(procs, children[..i + 1]) == Orphan(procs, children[..i])
    ensures children[i] in procs ==> children[i] in Orphan(procs, children[..i])
    ensures children[i] != 0 && children[i] in procs ==>
      Orphan(procs, children[..i + 1]) ==
        Orphan(procs, children[..i])[children[i] := Orphan(procs, children[..i])[children[i]].(parent := 0)]
    ensures Orphan(procs, children[..i]).Keys == procs.Keys
    ensures forall x :: x in procs ==> Orphan(procs, children[..i])[x].status == procs[x].status
  {
    assert children[..i + 1] == children[..i] + [children[i]];
  }

  lemma OrphanKeys(procs: map<int, Proc>, children: seq<int>)
    ensures Orphan(procs, children).Keys == procs.Keys
    ensures forall x :: x in procs ==>
      Orphan(procs, children)[x].status == procs[x].status && Orphan(procs, children)[x].pid == procs[x].pid
  {
  }

  lemma Families(s: State)
    requires Rest(s)
    ensures Family(s.procs)
  {
  }

  lemma AsideFree(lists: Lists, lists': Lists, p: int, x: int)
    requires lists' == lists[LocalQ := [p] + List(lists, LocalQ)]
    ensures Free(lists, x) && x != p ==> Free(lists', x)
  {
    if Free(lists, x) && x != p {
      forall q' ensures !In(lists', q', x) { assert !In(lists, q', x); }
    }
  }

  lemma StaysHome(lists: Lists, q: Qid, p: int, x: int)
    requires p in List(lists, q)
    ensures Free(lists, x) ==> x != p
  {
    assert In(lists, q, p);
  }

  lemma ResumeFreed(s: State)
    ensures Resume(s).log.freed == s.log.freed
  {
  }

  lemma WaitedFor(s: State)
    requires Inv(s) && s.current in s.waits
    ensures s.waits[s.current].Child? ==> var c, slot := s.waits[s.current].child, s.waits[s.current].slot;
      c != 0 && c in s.procs && slot < |s.procs[s.current].children| && s.procs[s.current].children[slot] == c
  {
    assert WaitOk(s.procs, s.lists, s.waits, s.current);
  }

  lemma DeadIsDying(s: State, c: int)
    requires Placed(s.procs, s.lists, s.current) && c in s.procs && s.procs[c].status == Dead
    requires List(s.lists, LocalQ) == []
    ensures c in List(s.lists, DyingQ) && c != 0
  {
    assert Settled(s.procs, s.lists, s.current, c);
    var q :| In(s.lists, q, c);
    assert Member(s.procs, q, c);
  }
}
