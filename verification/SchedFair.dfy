/** No process in the ready queue starves: from position k it runs within k + 1 switches. */
module SchedFair {
  import opened Seqs
  import opened ProcQueue
  import opened Sched
  import opened SchedInv
  import opened SchedReap
  import opened SchedRun

  /** What fairness speaks of: the ready queue, who was switched to so far, and who was terminated. */
  datatype View = View(ready: seq<int>, ran: seq<int>, ended: seq<int>)

  function ViewOf(s: State): View {
    View(List(s.lists, ReadyQ), s.log.ran, s.log.ended)
  }

  /** The process at position k has moved up by at least the number of switches, or was switched to
      within the first k + 1 of them, or was terminated. */
  ghost predicate Served(v: View, v': View, k: nat)
    requires k < |v.ready|
  {
    || (exists j :: 0 <= j < |v'.ready| && v'.ready[j] == v.ready[k] && j + |v'.ran| - |v.ran| <= k)
    || (exists i :: |v.ran| <= i < |v'.ran| && v'.ran[i] == v.ready[k] && i <= |v.ran| + k)
    || (exists i :: |v.ended| <= i < |v'.ended| && v'.ended[i] == v.ready[k])
  }

  ghost predicate Fair(v: View, v': View) {
    v.ran <= v'.ran && v.ended <= v'.ended && forall k :: 0 <= k < |v.ready| ==> Served(v, v', k)
  }

  lemma FairTrans(a: View, b: View, c: View)
    requires Fair(a, b) && Fair(b, c)
    ensures Fair(a, c)
  {
    forall k | 0 <= k < |a.ready| ensures Served(a, c, k) {
      assert Served(a, b, k);
      if j :| 0 <= j < |b.ready| && b.ready[j] == a.ready[k] && j + |b.ran| - |a.ran| <= k {
        assert Served(b, c, j);
      } else if i :| |a.ran| <= i < |b.ran| && b.ran[i] == a.ready[k] && i <= |a.ran| + k {
        assert c.ran[i] == b.ran[i];
      } else {
        var i :| |a.ended| <= i < |b.ended| && b.ended[i] == a.ready[k];
        assert c.ended[i] == b.ended[i];
      }
    }
  }

  /** Processes join the back of the queue. */
  lemma FairTail(v: View, v': View, more: seq<int>)
    requires v' == v.(ready := v.ready + more)
    ensures Fair(v, v')
  {
    forall k | 0 <= k < |v.ready| ensures Served(v, v', k) { assert v'.ready[k] == v.ready[k]; }
  }

  /** The first process is switched to. */
  lemma FairPop(v: View, v': View)
    requires v.ready != [] && v' == v.(ready := v.ready[1..], ran := v.ran + [v.ready[0]])
    ensures Fair(v, v')
  {
    forall k | 0 <= k < |v.ready| ensures Served(v, v', k) {
      if k == 0 { assert v'.ran[|v.ran|] == v.ready[0]; } else { assert v'.ready[k - 1] == v.ready[k]; }
    }
  }

  lemma {:induction false} WithoutKeeps(s: seq<int>, p: int, k: nat) returns (j: nat)
    requires k < |s| && s[k] != p
    ensures j <= k && j < |Without(s, p)| && Without(s, p)[j] == s[k]
  {
    if s[0] == p {
      j := k - 1;
    } else if k == 0 {
      j := 0;
    } else {
      j := WithoutKeeps(s[1..], p, k - 1);
      j := j + 1;
    }
  }

  /** A process is terminated, wherever it is. */
  lemma FairDrop(v: View, v': View, p: int)
    requires v'.ready == v.ready || v'.ready == Without(v.ready, p)
    requires v'.ran == v.ran && v'.ended == v.ended + [p]
    ensures Fair(v, v')
  {
    forall k | 0 <= k < |v.ready| ensures Served(v, v', k) {
      if v.ready[k] == p { assert v'.ended[|v.ended|] == p; }
      else if v'.ready == v.ready { assert v'.ready[k] == v.ready[k]; }
      else { var j := WithoutKeeps(v.ready, p, k); }
    }
  }

  lemma FairSame(s: State, s': State)
    requires ViewOf(s') == ViewOf(s)
    ensures Fair(ViewOf(s), ViewOf(s'))
  {
    FairTail(ViewOf(s), ViewOf(s'), []);
  }

  lemma FairThen(a: State, b: State, c: State)
    requires Fair(ViewOf(a), ViewOf(b)) && Fair(ViewOf(b), ViewOf(c))
    ensures Fair(ViewOf(a), ViewOf(c))
  {
    FairTrans(ViewOf(a), ViewOf(b), ViewOf(c));
  }

  lemma FairDispatch(s: State)
    requires List(s.lists, ReadyQ) != []
    ensures Fair(ViewOf(s), ViewOf(Dispatch(s)))
  {
    FairPop(ViewOf(s), ViewOf(Dispatch(s)));
  }

  lemma FairSwitch(s: State)
    ensures Fair(ViewOf(s), ViewOf(Switch(s)))
  {
    hide Fair;
    if List(s.lists, ReadyQ) == [] {
      FairSame(s, Switch(s));
    } else if StatusOf(s.procs, s.current) == Running {
      var s1 := Put(s, ReadyQ, List(s.lists, ReadyQ) + [s.current]).(procs := Mark(s.procs, s.current, Runnable));
      FairTail(ViewOf(s), ViewOf(s1), [s.current]);
      FairDispatch(s1);
      FairThen(s, s1, Dispatch(s1));
    } else {
      FairDispatch(s);
    }
  }

  lemma FairAdvance(s: State)
    ensures Fair(ViewOf(s), ViewOf(Advance(s)))
  {
    hide Fair, Switch;
    if s.locks > 0 { FairSame(s, s.(flag := true)); } else { FairSwitch(s); }
  }

  lemma FairResume(s: State)
    ensures Fair(ViewOf(s), ViewOf(Resume(s)))
  {
    hide Fair, Switch;
    var s1 := if s.locks > 0 then s.(locks := s.locks - 1) else s;
    if s1.locks == 0 && s1.flag {
      FairSwitch(s1.(flag := false));
    } else {
      FairSame(s, s1);
    }
  }

  lemma FairWake(s: State, q: Qid, n: nat)
    requires q != ReadyQ && n <= |List(s.lists, q)|
    ensures Fair(ViewOf(s), ViewOf(WakeMany(s, q, n)))
  {
    FairTail(ViewOf(s), ViewOf(WakeMany(s, q, n)), List(s.lists, q)[..n]);
  }

  lemma FairWakeAll(s: State, q: Qid)
    requires q != ReadyQ
    ensures Fair(ViewOf(s), ViewOf(WakeAll(s, q)))
  {
    hide Fair, WakeMany, Resume;
    var s1 := WakeMany(Postpone(s), q, |List(s.lists, q)|);
    FairWake(Postpone(s), q, |List(s.lists, q)|);
    FairResume(s1);
    FairThen(s, s1, Resume(s1));
  }

  lemma FairWakeOne(s: State, q: Qid)
    requires q != ReadyQ
    ensures Fair(ViewOf(s), ViewOf(WakeOne(s, q)))
  {
    hide Fair, WakeMany, Resume;
    var n := if List(s.lists, q) == [] then 0 else 1;
    var s1 := WakeMany(Postpone(s), q, n);
    FairWake(Postpone(s), q, n);
    FairResume(s1);
    FairThen(s, s1, Resume(s1));
  }

  lemma FairBlockOn(s: State, q: Qid)
    requires q != ReadyQ
    ensures Fair(ViewOf(s), ViewOf(BlockOn(s, q)))
  {
    hide Fair, Advance;
    var s1 := Put(s, q, List(s.lists, q) + [s.current]).(procs := Mark(s.procs, s.current, Blocked));
    FairAdvance(s1);
  }

  lemma FairBlock(s: State, q: Qid)
    requires q != ReadyQ
    ensures Fair(ViewOf(s), ViewOf(Block(s, q)))
  {
    hide Fair, BlockOn, Resume;
    var s1 := BlockOn(Postpone(s), q);
    FairBlockOn(Postpone(s), q);
    FairResume(s1);
    FairThen(s, s1, Resume(s1));
  }

  lemma FairSleep(s: State, ts: nat)
    requires s.current in s.procs
    ensures Fair(ViewOf(s), ViewOf(SleepUntil(s, ts)))
  {
    hide Fair, Advance, Resume;
    var l := List(s.lists, SleepingQ);
    var n := Due(s.procs, l, ts);
    var s1 := Put(Postpone(s), SleepingQ, l[..n] + [s.current] + l[n..])
      .(procs := s.procs[s.current := s.procs[s.current].(status := Sleeping, sleepUntil := ts)]);
    FairAdvance(s1);
    FairResume(Advance(s1));
    FairThen(s, Advance(s1), Resume(Advance(s1)));
  }

  lemma FairTick(s: State, ts: nat, interval: nat)
    ensures Fair(ViewOf(s), ViewOf(Tick(s, ts, interval)))
  {
    hide Fair, Advance, Resume, WakeMany;
    var n := Due(s.procs, List(s.lists, SleepingQ), ts);
    var s1 := WakeMany(Postpone(s), SleepingQ, n);
    FairWake(Postpone(s), SleepingQ, n);
    var s2 := Charge(s1, interval);
    if s1.quantum != 0 && s1.quantum <= interval { FairAdvance(s1); } else { FairSame(s1, s2); }
    FairResume(s2);
    FairThen(s, s1, s2);
    FairThen(s, s2, Resume(s2));
  }

  lemma FairAdd(s: State, p: int)
    ensures Fair(ViewOf(s), ViewOf(Add(s, p)))
  {
    hide Fair, Resume;
    var s1 := Put(Postpone(s), ReadyQ, List(s.lists, ReadyQ) + [p])
      .(procs := s.procs[p := Proc(s.total + 1, Uninitialized, 0, 0, NoChildren(), 0)], total := s.total + 1);
    FairTail(ViewOf(s), ViewOf(s1), [p]);
    FairResume(s1);
    FairThen(s, s1, Resume(s1));
  }

  lemma FairFork(s: State, c: int)
    requires s.current in s.procs
    ensures Fair(ViewOf(s), ViewOf(Fork(s, c)))
  {
    hide Fair;
    if SlotOf(s.procs[s.current].children, 0) >= |s.procs[s.current].children| { FairSame(s, s); }
    else { FairTail(ViewOf(s), ViewOf(Fork(s, c)), [c]); }
  }

  lemma FairDie(s: State, p: int, code: int)
    requires p in s.procs
    ensures Fair(ViewOf(s), ViewOf(Die(s, p, code)))
  {
    hide Fair, Advance, Without;
    var s1 := if p != s.current then Leave(s, p) else s;
    var s2 := Put(s1, DyingQ, [p] + List(s1.lists, DyingQ))
      .(procs := s.procs[p := s.procs[p].(exitCode := code, status := Dead)],
        waits := s.waits - {p}, log := s.log.(ended := s.log.ended + [p]));
    FairDrop(ViewOf(s), ViewOf(s2), p);
    FairAdvance(s2);
    FairThen(s, s2, Advance(s2));
  }

  lemma FairNotify(s: State, p: int)
    requires p in s.procs
    ensures Fair(ViewOf(s), ViewOf(Notify(s, p)))
  {
    hide Fair, WakeAll;
    if s.procs[p].parent == 0 { FairSame(s, s); }
    else {
      var s1 := WakeAll(s, ExitWaiters(p));
      FairWakeAll(s, ExitWaiters(p));
      FairWakeAll(s1, ChildWaiters(s.procs[p].parent));
      FairThen(s, s1, Notify(s, p));
    }
  }

  lemma FairExit(s: State, p: int, code: int)
    requires p in s.procs && p in Die(Postpone(s), p, code).procs
    ensures Fair(ViewOf(s), ViewOf(Exit(s, p, code)))
  {
    hide Fair, Die, Notify, Resume;
    var s1 := Postpone(s);
    if s.procs[p].status == Dead {
      FairResume(s1);
    } else {
      var s2 := Die(s1, p, code);
      FairDie(s1, p, code);
      FairNotify(s2, p);
      FairThen(s, s2, Notify(s2, p));
      FairResume(Notify(s2, p));
      FairThen(s, Notify(s2, p), Resume(Notify(s2, p)));
    }
  }

  lemma {:induction false} SiftView(s: State)
    ensures ViewOf(Sift(s)) == ViewOf(s)
    decreases |List(s.lists, DyingQ)|
  {
    var l := List(s.lists, DyingQ);
    if l != [] {
      var s1 := Put(s, DyingQ, l[1..]);
      if l[0] !in s.procs { SiftView(s1); }
      else if s.procs[l[0]].parent != 0 { SiftView(Put(s1, LocalQ, [l[0]] + List(s.lists, LocalQ))); }
      else { SiftView(FreeProc(s1, l[0])); }
    }
  }

  lemma {:induction false} RequeueView(s: State)
    ensures ViewOf(Requeue(s)) == ViewOf(s)
    decreases |List(s.lists, LocalQ)|
  {
    var l := List(s.lists, LocalQ);
    if l != [] { RequeueView(Put(Put(s, LocalQ, l[1..]), DyingQ, List(s.lists, DyingQ) + [l[0]])); }
  }

  lemma FairReap(s: State)
    ensures Fair(ViewOf(s), ViewOf(Reap(s)))
  {
    hide Fair, Sift, Requeue, Resume;
    SiftView(Postpone(s));
    RequeueView(Sift(Postpone(s)));
    FairResume(Requeue(Sift(Postpone(s))));
  }

  lemma FairWaitBegin(s: State, pid: int, options: int)
    requires s.current in s.procs && |s.procs[s.current].children| > 0
    ensures Fair(ViewOf(s), ViewOf(WaitBegin(s, pid, options).0))
  {
    hide Fair, BlockOn, Resume, FindChild, FreeProc, Without;
    var children := s.procs[s.current].children;
    var s1 := Postpone(s);
    FairSame(s, s);
    FairResume(s1);
    var slot := FindChild(s.procs, children, pid);
    if slot < |children| {
      var c := children[slot];
      if c in s.procs && s.procs[c].status == Dead {
        CollectView(s1, c, slot);
        FairResume(Collect(s1, c, slot).0);
      } else {
        var w := if pid == -1 then AnyChild else Child(c, slot, pid);
        var q := if pid == -1 then ChildWaiters(s.current) else ExitWaiters(c);
        var s2 := s1.(waits := s.waits[s.current := w]);
        FairBlockOn(s2, q);
        FairResume(BlockOn(s2, q));
        FairThen(s, BlockOn(s2, q), Resume(BlockOn(s2, q)));
      }
    }
  }

  lemma CollectView(s: State, c: int, slot: nat)
    requires c in s.procs && s.current in s.procs && slot < |s.procs[s.current].children|
    ensures ViewOf(Collect(s, c, slot).0) == ViewOf(s)
  {
  }

  lemma FairWaitEnd(s: State)
    requires s.current in s.procs && |s.procs[s.current].children| > 0 && s.current in s.waits
    ensures Fair(ViewOf(s), ViewOf(WaitEnd(s).0))
  {
    hide Fair, Resume, FindChild, FreeProc, Without;
    var children := s.procs[s.current].children;
    var s1 := Postpone(s).(waits := s.waits - {s.current});
    FairResume(s1);
    var slot := match s.waits[s.current] case AnyChild => FindChild(s.procs, children, -1) case Child(_, k, _) => k;
    var c := match s.waits[s.current] case AnyChild => At(children, slot) case Child(c, _, _) => c;
    if slot < |children| && c in s.procs {
      CollectView(s1, c, slot);
      FairResume(Collect(s1, c, slot).0);
    }
  }

  lemma FairLock(s: State, id: int)
    requires id in s.sems
    ensures Fair(ViewOf(s), ViewOf(Lock(s, id)))
  {
    hide Fair, Resume, Block;
    var sem, s1 := s.sems[id], Postpone(s).(log := Ask(s.log, id, s.current));
    if sem.locks < sem.limit {
      FairResume(s1.(sems := s.sems[id := sem.(locks := sem.locks + 1)], log := Grant(s1.log, id, s.current)));
    } else {
      FairBlock(s1, Waiters(id));
      FairResume(Block(s1, Waiters(id)));
      FairThen(s, Block(s1, Waiters(id)), Resume(Block(s1, Waiters(id))));
    }
  }

  lemma FairTryLock(s: State, id: int)
    requires id in s.sems
    ensures Fair(ViewOf(s), ViewOf(TryLock(s, id).0))
  {
    hide Fair, Resume, Lock;
    FairResume(Postpone(s));
    FairLock(Postpone(s), id);
    FairResume(Lock(Postpone(s), id));
    FairThen(s, Lock(Postpone(s), id), Resume(Lock(Postpone(s), id)));
  }

  lemma FairUnlock(s: State, id: int)
    requires id in s.sems
    ensures Fair(ViewOf(s), ViewOf(Unlock(s, id)))
  {
    hide Fair, Resume, WakeOne;
    var sem, s1, l := s.sems[id], Postpone(s).(log := GiveUp(s.log, id, s.current)), List(s.lists, Waiters(id));
    if l != [] {
      var s2 := s1.(log := Grant(s1.log, id, l[0]));
      FairWakeOne(s2, Waiters(id));
      FairResume(WakeOne(s2, Waiters(id)));
      FairThen(s, WakeOne(s2, Waiters(id)), Resume(WakeOne(s2, Waiters(id))));
    } else {
      FairResume(s1.(sems := s.sems[id := sem.(locks := (sem.locks + 255) % 256)]));
    }
  }

  /** Every step is fair. */
  lemma StepFair(s: State, op: Op)
    requires Inv(s) && Enabled(s, op)
    ensures Fair(ViewOf(s), ViewOf(Apply(s, op)))
  {
    hide Placed, Rest, Fair, Advance, Tick, SleepUntil, Add, Fork, Exit, Reap, WaitBegin, WaitEnd, Block, WakeOne;
    hide WakeAll, Lock, TryLock, Unlock, Die;
    Kids(s);
    match op
    case DoYield => FairAdvance(s);
    case DoTick(ts, interval) => FairTick(s, ts, interval);
    case DoSleep(ts) => FairSleep(s, ts);
    case DoAdd(p) => FairAdd(s, p);
    case DoFork(p) => FairFork(s, p);
    case DoExit(p, code) => DieKnown(s, p, code); FairExit(s, p, code);
    case DoReap => FairReap(s);
    case DoWaitBegin(pid, options) => FairWaitBegin(s, pid, options);
    case DoWaitEnd => FairWaitEnd(s);
    case DoBlock(id) => FairBlock(s, Waiters(id));
    case DoWakeOne(id) => FairWakeOne(s, Waiters(id));
    case DoWakeAll(id) => FairWakeAll(s, Waiters(id));
    case DoCreate(id, limit) => FairSame(s, Apply(s, op));
    case DoLock(id) => FairLock(s, id);
    case DoTryLock(id) => FairTryLock(s, id);
    case DoUnlock(id) => FairUnlock(s, id);
  }

  lemma DieKnown(s: State, p: int, code: int)
    requires p in s.procs
    ensures p in Die(Postpone(s), p, code).procs
  {
  }
}
