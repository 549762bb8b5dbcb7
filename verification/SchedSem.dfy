/** Counting semaphores: direct hand-over to the first waiter. */
module SchedSem {
  import opened ProcQueue
  import opened Sched
  import opened SchedInv
  import opened SchedSteps
  import opened SchedLife

  /** A step on one semaphore: nothing that the rest of the invariant speaks of changes. */
  ghost predicate OneSem(s: State, s': State, id: int) {
    && (forall q :: q != ReadyQ && q != Waiters(id) ==> List(s'.lists, q) == List(s.lists, q))
    && s'.waits == s.waits && s'.total == s.total && s'.reaper == s.reaper
    && s'.log.freed == s.log.freed && id in s.sems && id in s'.sems && s'.sems == s.sems[id := s'.sems[id]]
    && (forall j :: j != id ==> SameRecord(s.log, s'.log, j))
  }

  ghost predicate SameRecord(log: Log, log': Log, j: int) {
    Asked(log', j) == Asked(log, j) && Granted(log', j) == Granted(log, j) && Holders(log', j) == Holders(log, j)
  }

  lemma OneSemRest(s: State, s': State, id: int)
    requires Rest(s) && OneSem(s, s', id) && Kin(s.procs, s'.procs) && SemOk(s'.lists, s'.sems[id], s'.log, id)
    requires Ordered(s'.procs, List(s.lists, SleepingQ)) && Alive(s'.procs, s'.reaper)
    ensures Rest(s')
  {
    hide Ordered, Alive, ChildrenOk, ParentOk, WaitOk, WaiterOk, SemOk, SameRecord, Kin, Pids;
    KinFamily(s.procs, s'.procs, s.total, s.log.freed);
    WaitsKept(s.procs, s'.procs, s.lists, s'.lists, s.waits);
    forall j | j in s'.sems ensures SemOk(s'.lists, s'.sems[j], s'.log, j) {
      if j != id { OtherSem(s.lists, s'.lists, s.sems[j], s.log, s'.log, j); }
    }
  }

  lemma KinFamily(procs: map<int, Proc>, procs': map<int, Proc>, total: nat, freed: seq<nat>)
    requires Kin(procs, procs') && Family(procs) && Pids(procs, total, freed)
    ensures Family(procs') && Pids(procs', total, freed)
  {
    FamilyKept(procs, procs');
    PidsKept(procs, procs', total, freed);
  }

  lemma OtherSem(lists: Lists, lists': Lists, sem: Sem, log: Log, log': Log, j: int)
    requires SemOk(lists, sem, log, j) && List(lists', Waiters(j)) == List(lists, Waiters(j))
    requires SameRecord(log, log', j)
    ensures SemOk(lists', sem, log', j)
  {
  }

  lemma TakenOk(s: State, id: int)
    requires Sems(s.lists, s.sems, s.log) && id in s.sems && s.sems[id].locks < s.sems[id].limit
    ensures SemOk(s.lists, s.sems[id].(locks := s.sems[id].locks + 1),
      Grant(Ask(s.log, id, s.current), id, s.current), id)
  {
    assert SemOk(s.lists, s.sems[id], s.log, id);
  }

  /** semaphore_lock of a free semaphore, inside any section. */
  function Taken(s: State, id: int): State
    requires id in s.sems
  {
    s.(sems := s.sems[id := s.sems[id].(locks := s.sems[id].locks + 1)],
      log := Grant(Ask(s.log, id, s.current), id, s.current))
  }

  lemma TakenKeeps(s: State, id: int)
    requires Mid(s) && id in s.sems && s.sems[id].locks < s.sems[id].limit
    ensures Mid(Taken(s, id))
  {
    hide Placed, Family, Waits, Pids, Ordered, SemOk;
    TakenOk(s, id);
    var s' := Taken(s, id);
    forall j | j in s'.sems ensures SemOk(s'.lists, s'.sems[j], s'.log, j) {
      if j != id {
        assert SemOk(s.lists, s.sems[j], s.log, j);
        OtherSem(s.lists, s.lists, s.sems[j], s.log, s'.log, j);
      }
    }
  }

  /** semaphore_lock: taken at once when free, otherwise the caller joins the back of the queue. */
  lemma LockForm(s: State, id: int)
    requires s.locks == 0 && !s.flag && id in s.sems
    ensures s.sems[id].locks < s.sems[id].limit ==> Lock(s, id) == Taken(s, id)
    ensures s.sems[id].locks >= s.sems[id].limit ==>
      Lock(s, id) == Resume(BlockOn(Postpone(s).(log := Ask(s.log, id, s.current)), Waiters(id)))
  {
  }

  lemma LockKeeps(s: State, id: int)
    requires Inv(s) && id in s.sems && s.current != s.reaper
    ensures Inv(Lock(s, id))
  {
    hide Placed, Rest, Differ, Lock, Taken, Ordered, SemOk;
    LockForm(s, id);
    if s.sems[id].locks < s.sems[id].limit {
      TakenKeeps(s, id);
      TakenSame(s, id);
    } else {
      var s1 := Postpone(s);
      SameMid(s, s1);
      var q, l, e := Waiters(id), List(s.lists, Waiters(id)) + [s.current], s.procs[s.current].(status := Blocked);
      CurrentFree(s, q);
      DifferTail(List(s.lists, q), s.current);
      var s2 := BlockOn(s1.(log := Ask(s.log, id, s.current)), q);
      ParkPlaced(s1, Put(s1, q, l).(procs := s.procs[s.current := e], flag := true), q, l, e);
      FullRest(s, id, s2, l, e);
      ResumeKeeps(s2);
    }
  }

  lemma FullRest(s: State, id: int, s2: State, l: seq<int>, e: Proc)
    requires Mid(s) && s.current != s.reaper && id in s.sems && s.sems[id].locks >= s.sems[id].limit
    requires l == List(s.lists, Waiters(id)) + [s.current] && e == s.procs[s.current].(status := Blocked)
    requires s.procs[s.current].status != Dead
    requires s2 == Put(s, Waiters(id), l).(procs := s.procs[s.current := e], log := Ask(s.log, id, s.current),
      locks := s2.locks, flag := s2.flag)
    ensures Rest(s2)
  {
    hide Placed, Rest, Ordered, SemOk;
    FullOk(s, id, s2, l);
    OrderMark(s, e);
    assert Alive(s2.procs, s.reaper) by { Aliveness(s); }
    OneSemRest(s, s2, id);
  }

  lemma TakenSame(s: State, id: int)
    requires id in s.sems
    ensures var s' := Taken(s, id);
      s'.procs == s.procs && s'.current == s.current && s'.locks == s.locks && s'.flag == s.flag && s'.lists == s.lists
  {
  }

  lemma Aliveness(s: State)
    requires Rest(s)
    ensures Alive(s.procs, s.reaper)
  {
  }

  lemma FullOk(s: State, id: int, s2: State, l: seq<int>)
    requires Rest(s) && id in s.sems && s.sems[id].locks >= s.sems[id].limit
    requires l == List(s.lists, Waiters(id)) + [s.current]
    requires s2.lists == s.lists[Waiters(id) := l] && s2.sems == s.sems && s2.log == Ask(s.log, id, s.current)
    ensures SemOk(s2.lists, s2.sems[id], s2.log, id)
  {
    hide Family, Waits, Pids, Ordered;
    assert SemOk(s.lists, s.sems[id], s.log, id);
  }

  /** semaphore_try_lock takes a free semaphore and otherwise changes nothing. */
  lemma TryLockForm(s: State, id: int)
    requires s.locks == 0 && !s.flag && id in s.sems
    ensures TryLock(s, id) == if s.sems[id].locks < s.sems[id].limit then (Taken(s, id), true) else (s, false)
  {
  }

  lemma TryLockKeeps(s: State, id: int)
    requires Inv(s) && id in s.sems
    ensures Inv(TryLock(s, id).0)
  {
    hide Placed, Rest, TryLock, Taken;
    TryLockForm(s, id);
    if s.sems[id].locks < s.sems[id].limit {
      TakenKeeps(s, id);
      TakenSame(s, id);
    }
  }

  /** semaphore_unlock hands the semaphore to the first waiter, if there is one. */
  lemma UnlockForm(s: State, id: int)
    requires s.locks == 0 && !s.flag && id in s.sems
    ensures var l, log1 := List(s.lists, Waiters(id)), GiveUp(s.log, id, s.current);
      Unlock(s, id) ==
        if l != [] then Resume(WakeMany(Postpone(s).(log := Grant(log1, id, l[0])), Waiters(id), 1))
        else s.(sems := s.sems[id := s.sems[id].(locks := (s.sems[id].locks + 255) % 256)], log := log1)
  {
  }

  lemma UnlockKeeps(s: State, id: int)
    requires Inv(s) && id in s.sems && s.current in Holders(s.log, id)
    ensures Inv(Unlock(s, id))
  {
    hide Placed, Rest, Unlock, SemOk;
    UnlockForm(s, id);
    var l, log1 := List(s.lists, Waiters(id)), GiveUp(s.log, id, s.current);
    if l != [] {
      var s1 := Postpone(s).(log := Grant(log1, id, l[0]));
      var s2 := WakeMany(s1, Waiters(id), 1);
      WakePlaced(s1, Waiters(id), 1, s2);
      StillRunning(s1, Waiters(id), 1, s2);
      WokenKin(s1, Waiters(id), 1, s2);
      HandedRest(s, s1, s2, id, l);
      ResumeKeeps(s2);
    } else {
      GivenUpRest(s, id, Unlock(s, id));
    }
  }

  lemma ResumeSems(s: State, id: int)
    ensures Resume(s).sems == s.sems && Holders(Resume(s).log, id) == Holders(s.log, id)
  {
  }

  /** Unlocking keeps the count of holders if and only if the caller is one of them. */
  lemma UnlockExact(s: State, id: int)
    requires Inv(s) && id in s.sems
    ensures Inv(Unlock(s, id)) <==> s.current in Holders(s.log, id)
  {
    hide Placed, Unlock, Resume, Family, Waits, Pids, Ordered, Alive;
    if s.current in Holders(s.log, id) {
      UnlockKeeps(s, id);
    } else {
      UnlockForm(s, id);
      var l, log1 := List(s.lists, Waiters(id)), GiveUp(s.log, id, s.current);
      assert SemOk(s.lists, s.sems[id], s.log, id) && Holders(log1, id) == Holders(s.log, id);
      if l != [] {
        ResumeSems(WakeMany(Postpone(s).(log := Grant(log1, id, l[0])), Waiters(id), 1), id);
        assert |Holders(Grant(log1, id, l[0]), id)| == |Holders(s.log, id)| + 1;
      }
      MiscountedSem(Unlock(s, id), id);
    }
  }

  lemma MiscountedSem(s: State, id: int)
    requires id in s.sems && |Holders(s.log, id)| != s.sems[id].locks
    ensures !Inv(s)
  {
    hide Placed, Family, Waits, Pids, Ordered, Alive;
  }

  lemma HandedRest(s: State, s1: State, s2: State, id: int, l: seq<int>)
    requires Rest(s) && id in s.sems && s.current in Holders(s.log, id) && l == List(s.lists, Waiters(id)) && l != []
    requires s1 == Postpone(s).(log := Grant(GiveUp(s.log, id, s.current), id, l[0]))
    requires s2 == WakeMany(s1, Waiters(id), 1)
    requires s2.procs.Keys == s.procs.Keys && forall p :: p in s.procs ==> Awakes(s.procs, s2.procs, p)
    ensures Rest(s2)
  {
    hide Family, Waits, Pids, Ordered, MarkAll, SemOk, OneSem, Kin, Sems;
    assert SemOk(s.lists, s.sems[id], s.log, id) by { SemAt(s, id); }
    HandedOne(s, s1, s2, id, l);
    HandedOk(s.lists, s2.lists, s.sems[id], s.log, s2.log, id, s.current);
    OrderKept(s.procs, s2.procs, List(s.lists, SleepingQ));
    assert Awakes(s.procs, s2.procs, s.reaper);
    AwakesKin(s.procs, s2.procs);
    OneSemRest(s, s2, id);
  }

  lemma SemAt(s: State, id: int)
    requires Sems(s.lists, s.sems, s.log) && id in s.sems
    ensures SemOk(s.lists, s.sems[id], s.log, id)
  {
  }

  lemma HandedOne(s: State, s1: State, s2: State, id: int, l: seq<int>)
    requires id in s.sems && l == List(s.lists, Waiters(id)) && l != []
    requires s1 == Postpone(s).(log := Grant(GiveUp(s.log, id, s.current), id, l[0]))
    requires s2 == WakeMany(s1, Waiters(id), 1)
    ensures OneSem(s, s2, id)
  {
    hide MarkAll;
  }

  lemma HandedOk(lists: Lists, lists': Lists, sem: Sem, log: Log, log': Log, id: int, p: int)
    requires SemOk(lists, sem, log, id) && p in Holders(log, id) && List(lists, Waiters(id)) != []
    requires List(lists', Waiters(id)) == List(lists, Waiters(id))[1..]
    requires log' == Grant(GiveUp(log, id, p), id, List(lists, Waiters(id))[0])
    ensures SemOk(lists', sem, log', id)
  {
    var l := List(lists, Waiters(id));
    assert l == [l[0]] + l[1..];
    assert Granted(log, id) + ([l[0]] + l[1..]) == Granted(log, id) + [l[0]] + l[1..];
  }

  lemma AwakesKin(procs: map<int, Proc>, procs': map<int, Proc>)
    requires procs.Keys == procs'.Keys && forall p :: p in procs ==> Awakes(procs, procs', p)
    ensures Kin(procs, procs')
  {
    forall p | p in procs
      ensures SameKin(procs[p], procs'[p]) && (procs'[p].status == Dead <==> procs[p].status == Dead)
    {
      assert Awakes(procs, procs', p);
    }
  }

  lemma GivenUpRest(s: State, id: int, s': State)
    requires Mid(s) && id in s.sems && s.current in Holders(s.log, id) && List(s.lists, Waiters(id)) == []
    requires s' == s.(sems := s.sems[id := s.sems[id].(locks := (s.sems[id].locks + 255) % 256)],
      log := GiveUp(s.log, id, s.current))
    ensures Mid(s')
  {
    hide Placed, Family, Waits, Pids, Ordered, SemOk;
    GivenUpOk(s.lists, s.sems[id], s.log, id, s.current);
    forall j | j in s'.sems ensures SemOk(s'.lists, s'.sems[j], s'.log, j) {
      if j != id { OtherSem(s.lists, s'.lists, s.sems[j], s.log, s'.log, j); }
    }
  }

  lemma GivenUpOk(lists: Lists, sem: Sem, log: Log, id: int, p: int)
    requires SemOk(lists, sem, log, id) && p in Holders(log, id) && List(lists, Waiters(id)) == []
    ensures SemOk(lists, sem.(locks := (sem.locks + 255) % 256), GiveUp(log, id, p), id)
  {
    assert |Holders(log, id)| > 0;
  }
}
