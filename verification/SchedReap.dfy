/** Dead processes are collected by their parents or released by the terminator. */
module SchedReap {
  import opened Seqs
  import opened ProcQueue
  import opened Sched
  import opened SchedInv
  import opened SchedSteps
  import opened SchedLife

  /** A process whose parent is gone has nobody waiting for it, nor does a dead process wait. */
  lemma NoWaiters(s: State, p: int)
    requires Rest(s) && 0 !in s.procs && p in s.procs && s.procs[p].status == Dead && s.procs[p].parent == 0
    ensures p !in s.waits && forall x :: !In(s.lists, ChildWaiters(p), x) && !In(s.lists, ExitWaiters(p), x)
  {
    assert p in s.waits ==> WaitOk(s.procs, s.lists, s.waits, p);
    forall q, x | In(s.lists, q, x) ensures q != ChildWaiters(p) && q != ExitWaiters(p) {
      assert WaiterOk(s.waits, q, x);
      if x in s.waits {
        assert WaitOk(s.procs, s.lists, s.waits, x);
        assert ChildrenOk(s.procs, x);
      }
    }
  }

  /** Those who wait keep their children. */
  lemma FreeWaits(s: State, p: int, procs': map<int, Proc>)
    requires Rest(s) && 0 !in s.procs && p in s.procs && s.procs[p].status == Dead && s.procs[p].parent == 0
    requires procs' == Orphan(s.procs, s.procs[p].children) - {p}
    ensures Waits(procs', s.lists, s.waits)
  {
    hide Ordered, Pids, Sems, Alive;
    forall x | x in s.waits ensures x in s.procs && KidsSame(s.procs, procs', x) {
      assert WaitOk(s.procs, s.lists, s.waits, x) && ChildrenOk(s.procs, x);
    }
    forall q: Qid, x | (q.ChildWaiters? || q.ExitWaiters?) && In(s.lists, q, x) ensures x in s.waits {
      assert WaiterOk(s.waits, q, x);
    }
    WaitsFrame(s.procs, procs', s.lists, s.lists, s.waits, s.waits);
  }

  /** Releasing a dead process without a parent that was taken out of its queue. */
  lemma FreeKeeps(s: State, p: int, s': State)
    requires s.current in s.procs && PlacedBut(s.procs, s.lists, s.current, p) && Rest(s) && p in s.procs
    requires p != s.current
    requires s.procs[p].status == Dead && s.procs[p].parent == 0 && s' == FreeProc(s, p)
    ensures Mid(s') && s'.procs[s.current].status == s.procs[s.current].status
  {
    hide PlacedBut, Placed, Family, Waits, Ordered, Pids, Sems;
    assert 0 !in s.procs && p != 0 by { NotNull(s, p); }
    var procs1 := Orphan(s.procs, s.procs[p].children);
    SameStatuses(s.procs, procs1, s.lists, s.current, p);
    LetGo(procs1, s.lists, s.current, p);
    FamilyFree(s.procs, p, s'.procs);
    PidsFree(s.procs, s.total, s.log.freed, p, s'.procs);
    SameOrder(s.procs, s'.procs, List(s.lists, SleepingQ));
    FreeWaits(s, p, s'.procs);
    SameSems(s, s');
  }

  lemma NotNull(s: State, p: int)
    requires PlacedBut(s.procs, s.lists, s.current, p) && p in s.procs
    ensures 0 !in s.procs && p != 0
  {
  }

  /** Only the queues of the dead change. */
  lemma QuietLists(s: State, s': State)
    requires Rest(s) && s' == s.(lists := s'.lists)
    requires forall q :: q != DyingQ && q != LocalQ ==> List(s'.lists, q) == List(s.lists, q)
    ensures Rest(s')
  {
    hide Family, Waits, Pids, Sems, Ordered, Alive;
    assert Quiet(s, s');
    RestKept(s, s');
  }

  /** The first process in the dying queue is set aside. */
  lemma AsideKeeps(s: State, s': State, from: Qid, to: Qid, l: seq<int>)
    requires Mid(s) && List(s.lists, from) != []
    requires ((from == DyingQ && to == LocalQ) || (from == LocalQ && to == DyingQ))
    requires l == [List(s.lists, from)[0]] + List(s.lists, to) || l == List(s.lists, to) + [List(s.lists, from)[0]]
    requires s' == Put(Put(s, from, List(s.lists, from)[1..]), to, l)
    ensures Mid(s')
  {
    hide PlacedBut, Placed, Rest, Differ;
    var p := List(s.lists, from)[0];
    Popped(s.procs, s.lists, s.current, from);
    var lists1 := s.lists[from := List(s.lists, from)[1..]];
    assert List(lists1, to) == List(s.lists, to);
    Apart(s.procs, lists1, s.current, p);
    ListDistinct(lists1, to, p);
    DifferTail(List(lists1, to), p);
    assert p in l;
    PutIn(s.procs, s.procs, lists1, s.current, to, p, l);
    QuietLists(s, s');
  }

  lemma Apart(procs: map<int, Proc>, lists: Lists, current: int, p: int)
    requires PlacedBut(procs, lists, current, p)
    ensures Separate(lists) && Free(lists, p)
  {
  }

  /** A pass of the terminator up to the end of its first loop. */
  lemma {:induction false} SiftKeeps(s: State)
    requires Mid(s) && s.procs[s.current].status == Running
    ensures var s' := Sift(s);
      Mid(s') && s'.current == s.current && s'.procs[s.current].status == Running && s'.locks == s.locks &&
        s'.flag == s.flag
    decreases |List(s.lists, DyingQ)|
  {
    hide PlacedBut, Placed, Rest, Orphan, Disown;
    var l := List(s.lists, DyingQ);
    if l != [] {
      var p, s1 := l[0], Put(s, DyingQ, l[1..]);
      Popped(s.procs, s.lists, s.current, DyingQ);
      if s.procs[p].parent != 0 {
        var s2 := Put(s1, LocalQ, [p] + List(s.lists, LocalQ));
        AsideKeeps(s, s2, DyingQ, LocalQ, [p] + List(s.lists, LocalQ));
        SiftKeeps(s2);
      } else {
        QuietLists(s, s1);
        FreeKeeps(s1, p, FreeProc(s1, p));
        SiftKeeps(FreeProc(s1, p));
      }
    }
  }

  lemma {:induction false} RequeueKeeps(s: State)
    requires Mid(s)
    ensures var s' := Requeue(s);
      Mid(s') && s' == s.(lists := s'.lists) && List(s'.lists, LocalQ) == []
    decreases |List(s.lists, LocalQ)|
  {
    hide PlacedBut, Placed, Rest;
    var l := List(s.lists, LocalQ);
    if l != [] {
      var s1 := Put(Put(s, LocalQ, l[1..]), DyingQ, List(s.lists, DyingQ) + [l[0]]);
      AsideKeeps(s, s1, LocalQ, DyingQ, List(s.lists, DyingQ) + [l[0]]);
      RequeueKeeps(s1);
    }
  }

  lemma ReapKeeps(s: State)
    requires Inv(s)
    ensures Inv(Reap(s))
  {
    hide Placed, Rest, Sift, Requeue;
    var s1 := Postpone(s);
    SameMid(s, s1);
    SiftKeeps(s1);
    RequeueKeeps(Sift(s1));
    ResumeKeeps(Requeue(Sift(s1)));
  }

  // waitpid.

  /** The current process has a dead child in this slot. */
  ghost predicate MayCollect(s: State, c: int, slot: nat)
  {
    && Mid(s) && s.procs[s.current].status == Running && s.current !in s.waits && List(s.lists, LocalQ) == []
    && c != 0 && c in s.procs && s.procs[c].status == Dead && slot < |s.procs[s.current].children| &&
      s.procs[s.current].children[slot] == c
  }

  function Detach(procs: map<int, Proc>, me: int, c: int, slot: nat): map<int, Proc>
    requires me in procs && c in procs && me != c && slot < |procs[me].children|
  {
    procs[me := procs[me].(children := procs[me].children[slot := 0])][c := procs[c].(parent := 0)]
  }

  lemma DeadChild(s: State, c: int, slot: nat)
    requires MayCollect(s, c, slot)
    ensures c != s.current && ChildrenOk(s.procs, s.current) && 0 !in s.procs
    ensures PlacedBut(s.procs, s.lists[DyingQ := Without(List(s.lists, DyingQ), c)], s.current, c)
  {
    hide Differ, Waits, Pids, Sems, Ordered;
    assert ChildrenOk(s.procs, s.current) && Settled(s.procs, s.lists, s.current, c);
    var q :| In(s.lists, q, c);
    assert Member(s.procs, q, c);
    ListDistinct(s.lists, q, c);
    DifferWithout(List(s.lists, q), c);
    TakeOut(s.procs, s.lists, s.current, q, c, Without(List(s.lists, q), c));
  }

  lemma DetachRest(s: State, c: int, slot: nat, s1: State)
    requires MayCollect(s, c, slot) && c != s.current && ChildrenOk(s.procs, s.current) && 0 !in s.procs
    requires s1 == Put(s, DyingQ, Without(List(s.lists, DyingQ), c)).(procs := Detach(s.procs, s.current, c, slot))
    ensures Rest(s1)
  {
    hide Placed, Family, Waits, Pids, Sems, Ordered;
    FamilyDetach(s.procs, s.current, c, slot, s1.procs);
    PidsKept(s.procs, s1.procs, s.total, s.log.freed);
    SameOrder(s.procs, s1.procs, List(s.lists, SleepingQ));
    SameSems(s, s1);
    DetachWaits(s, c, slot, s1);
  }

  lemma DetachWaits(s: State, c: int, slot: nat, s1: State)
    requires Rest(s) && s.current in s.procs && c in s.procs && c != s.current && s.current !in s.waits
    requires slot < |s.procs[s.current].children|
    requires s.procs[c].status == Dead && 0 !in s.procs
    requires s1 == Put(s, DyingQ, Without(List(s.lists, DyingQ), c)).(procs := Detach(s.procs, s.current, c, slot))
    ensures Waits(s1.procs, s1.lists, s.waits)
  {
    hide Pids, Sems, Ordered, Alive, Without;
    forall x | x in s.waits ensures x in s.procs && KidsSame(s.procs, s1.procs, x) {
      assert WaitOk(s.procs, s.lists, s.waits, x) && ChildrenOk(s.procs, x);
    }
    forall q: Qid, x | (q.ChildWaiters? || q.ExitWaiters?) && In(s.lists, q, x) ensures x in s.waits {
      assert WaiterOk(s.waits, q, x);
    }
    WaitsFrame(s.procs, s1.procs, s.lists, s1.lists, s.waits, s.waits);
  }

  lemma CollectKeeps(s: State, c: int, slot: nat)
    requires MayCollect(s, c, slot)
    ensures var s' := Collect(s, c, slot).0;
      Mid(s') && s'.current == s.current && s'.procs[s.current].status == Running && s'.locks == s.locks &&
        s'.flag == s.flag && List(s'.lists, LocalQ) == []
    ensures c !in Collect(s, c, slot).0.procs
  {
    hide Placed, PlacedBut, Rest, Orphan, ChildrenOk;
    DeadChild(s, c, slot);
    var procs2 := Detach(s.procs, s.current, c, slot);
    var s1 := Put(s, DyingQ, Without(List(s.lists, DyingQ), c)).(procs := procs2);
    DetachRest(s, c, slot, s1);
    SameStatuses(s.procs, procs2, s1.lists, s.current, c);
    FreeKeeps(s1, c, FreeProc(s1, c));
  }

  lemma CollectResume(s: State, c: int, slot: nat)
    requires MayCollect(s, c, slot) && s.locks == 1
    ensures Inv(Resume(Collect(s, c, slot).0))
  {
    hide Placed, Rest, Collect;
    CollectKeeps(s, c, slot);
    ResumeKeeps(Collect(s, c, slot).0);
  }

  /** wait_child_find prefers a dead child; if it finds a live one, no matching child is dead. */
  lemma FoundAlive(procs: map<int, Proc>, children: seq<int>, pid: int)
    requires |children| > 0 && children[0] == 0
    ensures var k := FindChild(procs, children, pid);
      k < |children| ==>
        && Matches(procs, children[k], pid)
        && (procs[children[k]].status != Dead ==> forall c :: c in children ==> !Collectable(procs, c, pid))
    ensures FindChild(procs, children, pid) == |children| <==> forall c :: c in children ==> !Matches(procs, c, pid)
  {
    var k := FindChild(procs, children, pid);
    if k < |children| && procs[children[k]].status != Dead {
      assert FirstDead(procs, children, pid, 1) == |children|;
    }
    assert forall c :: c in children && c != 0 ==> exists j :: 1 <= j < |children| && children[j] == c;
    if k < |children| { assert children[k] in children; }
  }

  /** The queue that a process waits in, and when it may start to. */
  function QueueFor(p: int, w: Wait): Qid {
    match w
    case AnyChild => ChildWaiters(p)
    case Child(c, _, _) => ExitWaiters(c)
  }

  ghost predicate MaySleep(s: State, w: Wait)
    requires s.current in s.procs
  {
    var children := s.procs[s.current].children;
    match w
    case AnyChild => !HasDead(s.procs, s.current)
    case Child(c, slot, pid) =>
      && c != 0 && c in s.procs && 1 <= slot < |children| && children[slot] == c
      && s.procs[c].pid == pid && s.procs[c].status != Dead
  }

  /** Going to sleep for a child. */
  lemma SleepForChild(s: State, w: Wait, s2: State)
    requires Section(s) && s.procs[s.current].status == Running && s.current != s.reaper && s.current !in s.waits
    requires s.current in s.procs && MaySleep(s, w)
    requires s2 == BlockOn(s.(waits := s.waits[s.current := w]), QueueFor(s.current, w))
    ensures Inv(Resume(s2))
  {
    hide Placed, Rest, Differ, Ordered;
    var q := QueueFor(s.current, w);
    var l, e := List(s.lists, q) + [s.current], s.procs[s.current].(status := Blocked);
    CurrentFree(s, q);
    DifferTail(List(s.lists, q), s.current);
    ParkPlaced(s, Put(s, q, l).(procs := s.procs[s.current := e], flag := true), q, l, e);
    SleepRest(s, w, q, e, s2);
    ResumeKeeps(s2);
  }

  lemma SleepRest(s: State, w: Wait, q: Qid, e: Proc, s2: State)
    requires Mid(s) && s.procs[s.current].status == Running && s.current != s.reaper && s.current !in s.waits
    requires q == QueueFor(s.current, w)
    requires s.current in s.procs && MaySleep(s, w)
    requires e == s.procs[s.current].(status := Blocked)
    requires s2 == Put(s, q, List(s.lists, q) + [s.current]).(procs := s.procs[s.current := e], flag := true,
      waits := s.waits[s.current := w])
    ensures Rest(s2)
  {
    hide Placed, Family, Waits, Pids, Sems, Ordered;
    FamilyKept(s.procs, s2.procs);
    PidsKept(s.procs, s2.procs, s.total, s.log.freed);
    OrderMark(s, e);
    SameSems(s, s2);
    SleepWaits(s, w, q, e, s2);
  }

  lemma SleepWaits(s: State, w: Wait, q: Qid, e: Proc, s2: State)
    requires Waits(s.procs, s.lists, s.waits) && s.current in s.procs && s.procs[s.current].status == Running
    requires s.current !in s.waits
    requires q == QueueFor(s.current, w)
    requires s.current in s.procs && MaySleep(s, w)
    requires e == s.procs[s.current].(status := Blocked)
    requires s2.procs == s.procs[s.current := e] && s2.lists == s.lists[q := List(s.lists, q) + [s.current]]
    requires s2.waits == s.waits[s.current := w]
    ensures Waits(s2.procs, s2.lists, s2.waits)
  {
    var me := s.current;
    assert Kin(s.procs, s2.procs);
    forall x | x in s2.waits ensures WaitOk(s2.procs, s2.lists, s2.waits, x) {
      if x != me {
        assert WaitOk(s.procs, s.lists, s.waits, x);
        HasDeadKept(s.procs, s2.procs, x);
      } else {
        HasDeadKept(s.procs, s2.procs, me);
      }
    }
    forall q', x | In(s2.lists, q', x) ensures WaiterOk(s2.waits, q', x) {
      if x != me || q' != q { assert In(s.lists, q', x) && WaiterOk(s.waits, q', x); }
    }
  }

  lemma WaitBeginKeeps(s: State, pid: int, options: int)
    requires Inv(s) && s.current != s.reaper && s.current !in s.waits
    ensures ChildrenOk(s.procs, s.current)
    ensures Inv(WaitBegin(s, pid, options).0)
  {
    hide Placed, PlacedBut, Rest, Collect, BlockOn, FindChild;
    assert ChildrenOk(s.procs, s.current) by { Kids(s); }
    var s1 := Postpone(s);
    SameMid(s, s1);
    var children := s.procs[s.current].children;
    FoundAlive(s.procs, children, pid);
    var slot := FindChild(s.procs, children, pid);
    if ((options == 0 || options == 1) && pid != 0 && pid >= -1) && slot < |children| {
      var c := children[slot];
      assert c in children;
      if s.procs[c].status == Dead {
        CollectResume(s1, c, slot);
      } else if options == 0 {
        if pid == -1 {
          SleepForChild(s1, AnyChild, BlockOn(s1.(waits := s.waits[s.current := AnyChild]), ChildWaiters(s.current)));
        } else {
          SleepForChild(s1, Child(c, slot, pid),
            BlockOn(s1.(waits := s.waits[s.current := Child(c, slot, pid)]), ExitWaiters(c)));
        }
      }
    }
  }

  lemma Kids(s: State)
    requires Mid(s)
    ensures ChildrenOk(s.procs, s.current)
  {
  }

  /** The pid that waitpid was called with. */
  function Wanted(w: Wait): int {
    match w
    case AnyChild => -1
    case Child(_, _, pid) => pid
  }

  /** The reply names a dead child of the current process that matches the pid, with its exit code. */
  ghost predicate Answers(s: State, r: Reply, pid: int)
    requires s.current in s.procs
  {
    var children := s.procs[s.current].children;
    exists k :: 1 <= k < |children| && Collectable(s.procs, children[k], pid) && Names(s.procs, r, children[k])
  }

  ghost predicate Names(procs: map<int, Proc>, r: Reply, c: int)
    requires c in procs
  {
    r == Collected(procs[c].pid, procs[c].exitCode % 256 * 256)
  }

  /** A waitpid that slept always finds its dead child: it returns the pid of a dead child that it was
      called for, never ECHILD. */
  lemma WaitEndCollects(s: State)
    requires Inv(s) && s.current in s.waits
    ensures ChildrenOk(s.procs, s.current)
    ensures Answers(s, WaitEnd(s).1, Wanted(s.waits[s.current]))
    ensures Inv(WaitEnd(s).0)
  {
    hide Placed, PlacedBut, Rest, Resume;
    assert ChildrenOk(s.procs, s.current) by { Kids(s); }
    var s1 := Postpone(s).(waits := s.waits - {s.current});
    var children := s.procs[s.current].children;
    var slot := match s.waits[s.current] case AnyChild => FindChild(s.procs, children, -1) case Child(_, k, _) => k;
    Woken(s);
    FoundAlive(s.procs, children, -1);
    var c := match s.waits[s.current] case AnyChild => At(children, slot) case Child(c, _, _) => c;
    ForgetWait(s, s1);
    assert MayCollect(s1, c, slot);
    CollectResume(s1, c, slot);
    assert children[slot] == c && Collectable(s.procs, children[slot], Wanted(s.waits[s.current]));
    assert Names(s.procs, WaitEnd(s).1, children[slot]);
  }

  /** A process inside waitpid that runs again has something to collect. */
  lemma Woken(s: State)
    requires Inv(s) && s.current in s.waits
    ensures WaitOk(s.procs, s.lists, s.waits, s.current)
    ensures s.waits[s.current] == AnyChild ==> HasDead(s.procs, s.current)
    ensures s.waits[s.current].Child? ==> s.procs[s.waits[s.current].child].status == Dead
  {
    assert Settled(s.procs, s.lists, s.current, s.current);
  }

  lemma ForgetWait(s: State, s1: State)
    requires Inv(s) && s.current in s.waits && s1 == Postpone(s).(waits := s.waits - {s.current})
    ensures Mid(s1)
  {
    hide Family, Pids, Sems, Ordered, Members;
    assert Settled(s.procs, s.lists, s.current, s.current);
    forall x | x in s1.waits ensures WaitOk(s.procs, s.lists, s1.waits, x) {
      assert WaitOk(s.procs, s.lists, s.waits, x);
    }
    forall q, x | In(s.lists, q, x) ensures WaiterOk(s1.waits, q, x) {
      assert WaiterOk(s.waits, q, x) && x != s.current;
    }
  }
}
