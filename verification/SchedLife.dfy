/** Processes are created, terminated, collected and released. */
module SchedLife {
  import opened Seqs
  import opened ProcQueue
  import opened Sched
  import opened SchedInv
  import opened SchedSteps

  // Families.

  lemma FamilyAdd(procs: map<int, Proc>, p: int, e: Proc)
    requires Family(procs) && p !in procs && p != 0 && e.children == NoChildren() && e.parent == 0
    ensures Family(procs[p := e])
  {
    var procs' := procs[p := e];
    forall x | x in procs' ensures ChildrenOk(procs', x) && ParentOk(procs', x) {
      assert x != p ==> ChildrenOk(procs, x) && ParentOk(procs, x);
    }
  }

  lemma FamilyFork(procs: map<int, Proc>, me: int, c: int, slot: nat, e: Proc, procs': map<int, Proc>)
    requires Family(procs) && 0 !in procs && me in procs && c !in procs && c != 0 && 1 <= slot < MAX_CHILDREN
    requires ChildrenOk(procs, me) && procs[me].children[slot] == 0 && e.children == NoChildren() && e.parent == me
    requires procs' == procs[c := e][me := procs[me].(children := procs[me].children[slot := c])]
    ensures Family(procs')
  {
    forall x | x in procs' ensures ChildrenOk(procs', x) && ParentOk(procs', x) {
      assert x != c ==> ChildrenOk(procs, x) && ParentOk(procs, x);
      if x == me { Grown(procs[me].children, slot, c); }
      if x == c { assert procs'[me].children[slot] == c; }
      else if procs[x].parent == me { Kept(procs[me].children, slot, c, x); }
    }
  }

  lemma Grown(children: seq<int>, slot: nat, c: int)
    requires slot < |children|
    ensures forall x :: x in children[slot := c] ==> x == c || x in children
    ensures children[slot := c][slot] == c
  {
  }

  lemma Kept(children: seq<int>, slot: nat, c: int, x: int)
    requires slot < |children| && children[slot] != x && x in children
    ensures x in children[slot := c]
  {
    var k :| 0 <= k < |children| && children[k] == x;
    assert children[slot := c][k] == x;
  }

  /** A parent and a child forget each other. */
  lemma FamilyDetach(procs: map<int, Proc>, me: int, c: int, slot: nat, procs': map<int, Proc>)
    requires Family(procs) && 0 !in procs && me in procs && c in procs && c != 0 && slot < MAX_CHILDREN
    requires ChildrenOk(procs, me) && procs[me].children[slot] == c && c != me
    requires procs' == procs[me := procs[me].(children := procs[me].children[slot := 0])][c := procs[c].(parent := 0)]
    ensures Family(procs')
  {
    forall x | x in procs' ensures ChildrenOk(procs', x) && ParentOk(procs', x) {
      assert ChildrenOk(procs, x) && ParentOk(procs, x) && ChildrenOk(procs, me);
      if x == me { Shrunk(procs[me].children, slot); }
      if x != c && procs[x].parent == me { Kept(procs[me].children, slot, 0, x); }
    }
  }

  lemma Shrunk(children: seq<int>, slot: nat)
    requires slot < |children| && children[slot] != 0
    requires forall i, j :: 0 <= i < j < |children| && children[i] != 0 ==> children[i] != children[j]
    ensures children[slot] !in children[slot := 0]
    ensures forall x :: x in children[slot := 0] ==> x == 0 || x in children
    ensures slot != 0 ==> children[slot := 0][0] == children[0]
  {
  }

  /** A process without a parent goes, and its children become orphans. */
  lemma FamilyFree(procs: map<int, Proc>, p: int, procs': map<int, Proc>)
    requires Family(procs) && 0 !in procs && p in procs && procs[p].parent == 0
    requires procs' == Orphan(procs, procs[p].children) - {p}
    ensures Family(procs')
  {
    forall x | x in procs' ensures ChildrenOk(procs', x) && ParentOk(procs', x) {
      assert ChildrenOk(procs, x) && ParentOk(procs, x) && ChildrenOk(procs, p);
    }
  }

  // Pids.

  lemma PidsAdd(procs: map<int, Proc>, total: nat, freed: seq<nat>, p: int, e: Proc)
    requires Pids(procs, total, freed) && p !in procs && e.pid == total + 1
    ensures Pids(procs[p := e], total + 1, freed)
  {
  }

  lemma PidsKept(procs: map<int, Proc>, procs': map<int, Proc>, total: nat, freed: seq<nat>)
    requires Pids(procs, total, freed) && procs.Keys == procs'.Keys && forall p :: p in procs ==>
      procs'[p].pid == procs[p].pid
    ensures Pids(procs', total, freed)
  {
  }

  lemma PidsFree(procs: map<int, Proc>, total: nat, freed: seq<nat>, p: int, procs': map<int, Proc>)
    requires Pids(procs, total, freed) && p in procs && procs'.Keys == procs.Keys - {p}
    requires forall x :: x in procs' ==> procs'[x].pid == procs[x].pid
    ensures Pids(procs', total, freed + [procs[p].pid])
  {
  }

  // Waiting processes.

  /** x and its children are as before. */
  ghost predicate KidsSame(procs: map<int, Proc>, procs': map<int, Proc>, x: int)
    requires x in procs
  {
    && x in procs' && procs'[x].status != Dead && procs'[x].children == procs[x].children
    && forall c :: c != 0 && c in procs[x].children ==>
         c in procs && c in procs' && procs'[c].pid == procs[c].pid &&
           (procs'[c].status == Dead <==> procs[c].status == Dead)
  }

  lemma WaitsFrame(procs: map<int, Proc>, procs': map<int, Proc>, lists: Lists,
                   lists': Lists, waits: map<int, Wait>, waits': map<int, Wait>)
    requires Waits(procs, lists, waits) && SameWaiters(lists, lists')
    requires forall x :: x in waits' ==>
      x in waits && waits'[x] == waits[x] && (x in procs ==> KidsSame(procs, procs', x))
    requires forall q: Qid, x :: (q.ChildWaiters? || q.ExitWaiters?) && In(lists, q, x) ==> x in waits'
    ensures Waits(procs', lists', waits')
  {
    forall x | x in waits' ensures WaitOk(procs', lists', waits', x) {
      assert WaitOk(procs, lists, waits, x) && KidsSame(procs, procs', x);
      assert List(lists', ChildWaiters(x)) == List(lists, ChildWaiters(x));
      if waits[x].Child? {
        assert List(lists', ExitWaiters(waits[x].child)) == List(lists, ExitWaiters(waits[x].child));
      }
      SameDead(procs, procs', x);
    }
    forall q, x | In(lists', q, x) ensures WaiterOk(waits', q, x) {
      if q.ChildWaiters? || q.ExitWaiters? { assert In(lists, q, x) && WaiterOk(waits, q, x); }
    }
  }

  lemma SameDead(procs: map<int, Proc>, procs': map<int, Proc>, x: int)
    requires x in procs && KidsSame(procs, procs', x)
    ensures HasDead(procs', x) <==> HasDead(procs, x)
  {
    forall c | c in procs[x].children ensures Collectable(procs', c, -1) <==> Collectable(procs, c, -1) {}
  }

  // Creation.

  lemma AddKeeps(s: State, p: int)
    requires Inv(s) && p !in s.procs && p != 0
    ensures Inv(Add(s, p))
  {
    hide Placed, PlacedBut, Family, Pids, Waits, Ordered, NoChildren;
    var s1 := Postpone(s);
    SameMid(s, s1);
    var e := Proc(s.total + 1, Uninitialized, 0, 0, NoChildren(), 0);
    var s2 := Put(s1, ReadyQ, List(s.lists, ReadyQ) + [p]).(procs := s.procs[p := e], total := s.total + 1);
    NewComer(s.procs, s.lists, s.current, p);
    PushedBack(s.procs, s2.procs, s.lists, s.current, ReadyQ, p);
    FamilyAdd(s.procs, p, e);
    PidsAdd(s.procs, s.total, s.log.freed, p, e);
    NewWaits(s, s2.procs, s2.lists);
    NewOrder(s, p, e);
    ResumeKeeps(s2);
  }

  /** Newcomers matter to no one who waits. */
  lemma NewWaits(s: State, procs': map<int, Proc>, lists': Lists)
    requires Mid(s) && forall p :: p in s.procs ==>
      p in procs' && procs'[p] == s.procs[p].(children := procs'[p].children)
    requires forall p :: p in s.waits && p in s.procs ==> procs'[p].children == s.procs[p].children
    requires forall q :: q != ReadyQ ==> List(lists', q) == List(s.lists, q)
    ensures Waits(procs', lists', s.waits)
  {
    forall x | x in s.waits ensures x in s.procs && KidsSame(s.procs, procs', x) {
      assert WaitOk(s.procs, s.lists, s.waits, x);
      assert ChildrenOk(s.procs, x);
    }
    forall q: Qid, x | (q.ChildWaiters? || q.ExitWaiters?) && In(s.lists, q, x) ensures x in s.waits {
      assert WaiterOk(s.waits, q, x);
    }
    WaitsFrame(s.procs, procs', s.lists, lists', s.waits, s.waits);
  }

  lemma NewOrder(s: State, p: int, e: Proc)
    requires Mid(s) && p !in s.procs
    ensures Ordered(s.procs[p := e], List(s.lists, SleepingQ))
  {
    Sleepers(s);
  }

  lemma ForkKeeps(s: State, c: int)
    requires Inv(s) && c !in s.procs && c != 0 && s.current !in s.waits
    ensures Inv(Fork(s, c))
  {
    hide Placed, PlacedBut, Pids, Waits, Ordered, NoChildren, Sems, ChildrenOk, ParentOk;
    var me := s.procs[s.current];
    assert ChildrenOk(s.procs, s.current);
    Sizes(s.procs, s.current);
    var slot := SlotOf(me.children, 0);
    if slot < |me.children| {
      var s' := Fork(s, c);
      var e := Proc(s.total + 1, Runnable, 0, s.current, NoChildren(), 0);
      NewComer(s.procs, s.lists, s.current, c);
      PushedBack(s.procs, s.procs[c := e], s.lists, s.current, ReadyQ, c);
      SameStatuses(s.procs[c := e], s'.procs, s'.lists, s.current, 0);
      assert 0 !in s.procs by { NoNull(s); }
      FamilyFork(s.procs, s.current, c, slot, e, s'.procs);
      PidsAdd(s.procs, s.total, s.log.freed, c, e);
      PidsKept(s.procs[c := e], s'.procs, s'.total, s.log.freed);
      NewWaits(s, s'.procs, s'.lists);
      NewOrder(s, c, e);
      SameOrder(s.procs[c := e], s'.procs, List(s.lists, SleepingQ));
      SameSems(s, s');
    }
  }

  lemma NoNull(s: State)
    requires Mid(s)
    ensures 0 !in s.procs
  {
  }

  lemma Sizes(procs: map<int, Proc>, p: int)
    requires p in procs && ChildrenOk(procs, p)
    ensures |procs[p].children| == MAX_CHILDREN && procs[p].children[0] == 0
  {
  }

  lemma SameOrder(procs: map<int, Proc>, procs': map<int, Proc>, l: seq<int>)
    requires Ordered(procs, l) && procs'.Keys <= procs.Keys
    requires forall p :: p in procs' ==> procs'[p].sleepUntil == procs[p].sleepUntil
    ensures Ordered(procs', l)
  {
    forall i, j | 0 <= i < j < |l| && l[i] in procs' && l[j] in procs'
      ensures procs'[l[i]].sleepUntil <= procs'[l[j]].sleepUntil
    {
      var a, b := l[i], l[j];
      assert a in procs' && b in procs';
    }
  }

  lemma SameSems(s: State, s': State)
    requires Sems(s.lists, s.sems, s.log) && s'.sems == s.sems
    requires s'.log.(ran := s.log.ran, ended := s.log.ended, freed := s.log.freed) == s.log
    requires forall id :: id in s.sems ==> List(s'.lists, Waiters(id)) == List(s.lists, Waiters(id))
    ensures Sems(s'.lists, s'.sems, s'.log)
  {
    forall id | id in s'.sems ensures SemOk(s'.lists, s'.sems[id], s'.log, id) {
      assert SemOk(s.lists, s.sems[id], s.log, id);
    }
  }

  // Termination.

  /** Inside a section wait_queue_wake_all does not switch. */
  lemma NestedWakeAll(s: State, q: Qid)
    requires s.locks > 0
    ensures WakeAll(s, q) == WakeMany(s, q, |List(s.lists, q)|)
  {
  }

  lemma DiePlaced(s: State, p: int, code: int, s': State)
    requires Mid(s) && s.locks > 0 && p in s.procs && s.procs[p].status !in {Dead, Blocked}
    requires p == s.current ==> s.procs[p].status == Running
    requires s' == Die(s, p, code)
    ensures Placed(s'.procs, s'.lists, s'.current)
  {
    hide Placed, PlacedBut, Rest, Differ, Suits, Without;
    var e := s.procs[p].(exitCode := code, status := Dead);
    if p == s.current {
      RunningOut(s.procs, s.lists, s.current);
      Doomed(s.procs, s.lists, s.current, p, e);
    } else {
      var q := Queued(s, p);
      var lists1 := s.lists[q := Without(List(s.lists, q), p)];
      Doomed(s.procs, lists1, s.current, p, e);
    }
  }

  /** The queue of a process that is neither running, blocked nor dead, and its removal from it. */
  lemma Queued(s: State, p: int) returns (q: Qid)
    requires Mid(s) && p in s.procs && s.procs[p].status !in {Dead, Blocked} && p != s.current
    ensures Leave(s, p) == Put(s, q, Without(List(s.lists, q), p)) && (q == ReadyQ || q == SleepingQ)
    ensures In(s.lists, q, p)
    ensures PlacedBut(s.procs, s.lists[q := Without(List(s.lists, q), p)], s.current, p)
  {
    assert Settled(s.procs, s.lists, s.current, p);
    q :| In(s.lists, q, p);
    assert Member(s.procs, q, p);
    ListDistinct(s.lists, q, p);
    DifferWithout(List(s.lists, q), p);
    TakeOut(s.procs, s.lists, s.current, q, p, Without(List(s.lists, q), p));
  }

  lemma Doomed(procs: map<int, Proc>, lists: Lists, current: int, p: int, e: Proc)
    requires PlacedBut(procs, lists, current, p) && p in procs && e.status == Dead
    ensures Placed(procs[p := e], lists[DyingQ := [p] + List(lists, DyingQ)], current)
  {
    ListDistinct(lists, DyingQ, p);
    DifferTail(List(lists, DyingQ), p);
    PutIn(procs, procs[p := e], lists, current, DyingQ, p, [p] + List(lists, DyingQ));
  }

  /** The wait queues of a process after p was terminated: those who waited for p are gone. */
  ghost predicate Released(lists: Lists, lists': Lists, p: int, parent: int) {
    forall q: Qid :: q.ChildWaiters? || q.ExitWaiters? ==>
      List(lists', q) ==
        if parent != 0 && (q == ExitWaiters(p) || q == ChildWaiters(parent)) then [] else List(lists, q)
  }

  /** No wake-up is lost when p is terminated. */
  lemma ExitWaits(procs: map<int, Proc>, procs': map<int, Proc>, lists: Lists,
                  lists': Lists, waits: map<int, Wait>, p: int)
    requires Waits(procs, lists, waits) && Family(procs) && 0 !in procs && p in procs && procs[p].status != Dead
    requires procs.Keys == procs'.Keys && forall x :: x in procs ==> SameKin(procs[x], procs'[x])
    requires forall x :: x in procs && x != p ==> (procs'[x].status == Dead <==> procs[x].status == Dead)
    requires procs'[p].status == Dead && Released(lists, lists', p, procs[p].parent)
    requires forall q: Qid :: (q.ChildWaiters? || q.ExitWaiters?) ==> !In(lists, q, p)
    ensures Waits(procs', lists', waits - {p})
  {
    hide Released, WaiterOk;
    var waits' := waits - {p};
    forall x | x in waits' ensures WaitOk(procs', lists', waits', x) {
      ExitWait(procs, procs', lists, lists', waits, p, x);
    }
    forall q, x | In(lists', q, x) ensures WaiterOk(waits', q, x) {
      ExitWaiter(lists, lists', waits, p, procs[p].parent, q, x);
    }
  }

  lemma ExitWait(procs: map<int, Proc>, procs': map<int, Proc>, lists: Lists,
                 lists': Lists, waits: map<int, Wait>, p: int, x: int)
    requires Waits(procs, lists, waits) && Family(procs) && 0 !in procs && p in procs && x in waits && x != p
    requires procs.Keys == procs'.Keys && forall y :: y in procs ==> SameKin(procs[y], procs'[y])
    requires forall y :: y in procs && y != p ==> (procs'[y].status == Dead <==> procs[y].status == Dead)
    requires procs'[p].status == Dead && Released(lists, lists', p, procs[p].parent)
    ensures WaitOk(procs', lists', waits - {p}, x)
  {
    assert WaitOk(procs, lists, waits, x) && ChildrenOk(procs, x) && ParentOk(procs, p);
    assert List(lists', ChildWaiters(x)) == if procs[p].parent == x then [] else List(lists, ChildWaiters(x));
    if waits[x] == AnyChild {
      if procs[p].parent == x {
        assert Collectable(procs', p, -1) && p in procs'[x].children;
      } else {
        SameDead(procs, procs', x);
      }
    } else {
      var c := waits[x].child;
      assert c in procs[x].children;
      assert List(lists', ExitWaiters(c)) == if c == p then [] else List(lists, ExitWaiters(c));
    }
  }

  lemma ExitWaiter(lists: Lists, lists': Lists, waits: map<int, Wait>, p: int, parent: int, q: Qid, x: int)
    requires In(lists', q, x) && Released(lists, lists', p, parent)
    requires In(lists, q, x) ==> WaiterOk(waits, q, x)
    requires (q.ChildWaiters? || q.ExitWaiters?) ==> !In(lists, q, p)
    ensures WaiterOk(waits - {p}, q, x)
  {
  }

  /** Everybody in q wakes up. */
  lemma WakeEverybody(s: State, q: Qid, s': State)
    requires Placed(s.procs, s.lists, s.current) && s.locks > 0 && IsWaitQueue(q) && s' == WakeAll(s, q)
    ensures Placed(s'.procs, s'.lists, s.current) && s'.procs.Keys == s.procs.Keys
    ensures forall x :: x in s.procs ==> Awakes(s.procs, s'.procs, x)
    ensures List(s'.lists, q) == [] && forall q' :: q' != q && q' != ReadyQ ==> List(s'.lists, q') == List(s.lists, q')
    ensures s' == s.(procs := s'.procs, lists := s'.lists)
  {
    hide Placed, Awakes, Resume;
    NestedWakeAll(s, q);
    WakePlaced(s, q, |List(s.lists, q)|, s');
    WokenKin(s, q, |List(s.lists, q)|, s');
  }

  lemma NotifyKeeps(s: State, p: int, s': State)
    requires Placed(s.procs, s.lists, s.current) && s.locks > 0 && p in s.procs && s' == Notify(s, p)
    ensures Placed(s'.procs, s'.lists, s.current) && s'.procs.Keys == s.procs.Keys
    ensures forall x :: x in s.procs ==> Awakes(s.procs, s'.procs, x)
    ensures Released(s.lists, s'.lists, p, s.procs[p].parent)
    ensures forall q :: q != ReadyQ && !q.ChildWaiters? && !q.ExitWaiters? ==> List(s'.lists, q) == List(s.lists, q)
    ensures s' == s.(procs := s'.procs, lists := s'.lists)
  {
    hide Placed, WakeAll;
    var parent := s.procs[p].parent;
    if parent != 0 {
      var s1 := WakeAll(s, ExitWaiters(p));
      WakeEverybody(s, ExitWaiters(p), s1);
      WakeEverybody(s1, ChildWaiters(parent), s');
      forall x | x in s.procs ensures Awakes(s.procs, s'.procs, x) {
        assert Awakes(s.procs, s1.procs, x) && Awakes(s1.procs, s'.procs, x);
      }
    }
  }

  lemma OrderWithout(procs: map<int, Proc>, l: seq<int>, p: int)
    requires Ordered(procs, l) && Distinct(l) && p in l
    ensures Ordered(procs, Without(l, p))
  {
    hide Without;
    var k :| 0 <= k < |l| && l[k] == p;
    WithoutAt(l, k);
    OrderRemove(procs, l, k, RemoveAt(l, k));
  }

  lemma OrderRemove(procs: map<int, Proc>, l: seq<int>, k: nat, r: seq<int>)
    requires Ordered(procs, l) && k < |l| && r == RemoveAt(l, k)
    ensures Ordered(procs, r)
  {
    assert forall i {:trigger r[i]} :: 0 <= i < |r| ==> r[i] == if i < k then l[i] else l[i + 1];
    forall i, j | 0 <= i < j < |r| && r[i] in procs && r[j] in procs
      ensures procs[r[i]].sleepUntil <= procs[r[j]].sleepUntil
    {
      var i', j' := if i < k then i else i + 1, if j < k then j else j + 1;
      assert r[i] == l[i'] && r[j] == l[j'];
    }
  }

  /** What Die does to the queues that matter to the rest of the invariant. */
  lemma DieLists(s: State, p: int, code: int, s': State)
    requires Mid(s) && s.locks > 0 && p in s.procs && s.procs[p].status !in {Dead, Blocked} && s' == Die(s, p, code)
    requires p == s.current ==> s.procs[p].status == Running
    ensures forall q :: q !in {ReadyQ, SleepingQ, DyingQ} ==>
      List(s'.lists, q) == List(s.lists, q) && (IsWaitQueue(q) ==> !In(s.lists, q, p))
    ensures Ordered(s.procs, List(s'.lists, SleepingQ))
    ensures s' == s.(procs := s.procs[p := s.procs[p].(exitCode := code, status := Dead)], lists := s'.lists,
      flag := true,
                     waits := s.waits - {p}, log := s.log.(ended := s.log.ended + [p]))
  {
    hide Placed, Rest, Ordered, Differ, Suits, Without;
    Sleepers(s);
    NotWaiting(s, p);
    if p != s.current {
      var q := Queued(s, p);
      if q == SleepingQ {
        ListDistinct(s.lists, q, p) by { Spread(s); }
        OrderWithout(s.procs, List(s.lists, SleepingQ), p);
      }
    }
  }

  lemma Spread(s: State)
    requires Mid(s)
    ensures Separate(s.lists)
  {
  }

  lemma NotWaiting(s: State, p: int)
    requires Mid(s) && p in s.procs && s.procs[p].status != Blocked
    ensures forall q :: IsWaitQueue(q) ==> !In(s.lists, q, p)
  {
    forall q | IsWaitQueue(q) ensures !In(s.lists, q, p) {
      assert In(s.lists, q, p) ==> Member(s.procs, q, p);
    }
  }

  lemma ExitRest(s: State, s2: State, s3: State, p: int, code: int)
    requires Mid(s) && s.locks > 0 && p in s.procs && s.procs[p].status !in {Dead, Blocked} && s2 == Die(s, p, code)
    requires p == s.current ==> s.procs[p].status == Running
    requires p != s.reaper && Placed(s2.procs, s2.lists, s2.current) && s3 == Notify(s2, p)
    ensures Rest(s3)
  {
    hide Placed, Family, Waits, Pids, Sems, Ordered, Notify, Released, Die;
    DieLists(s, p, code, s2);
    NotifyKeeps(s2, p, s3);
    forall x | x in s.procs ensures SameKin(s.procs[x], s3.procs[x]) && s3.procs[x].sleepUntil == s.procs[x].sleepUntil
      && (x != p ==> (s3.procs[x].status == Dead <==> s.procs[x].status == Dead)) {
      assert Awakes(s2.procs, s3.procs, x);
    }
    assert Awakes(s2.procs, s3.procs, p) && Awakes(s2.procs, s3.procs, s.reaper);
    FamilyKept(s.procs, s3.procs);
    PidsKept(s.procs, s3.procs, s.total, s.log.freed);
    SameOrder(s.procs, s3.procs, List(s3.lists, SleepingQ));
    SameSems(s, s3);
    SameReleased(s.lists, s2.lists, s3.lists, p, s.procs[p].parent);
    NoNull(s);
    ExitWaits(s.procs, s3.procs, s.lists, s3.lists, s.waits, p);
  }

  lemma SameReleased(lists: Lists, lists2: Lists, lists3: Lists, p: int, parent: int)
    requires Released(lists2, lists3, p, parent)
    requires forall q :: q !in {ReadyQ, SleepingQ, DyingQ} ==> List(lists2, q) == List(lists, q)
    ensures Released(lists, lists3, p, parent)
  {
    forall q: Qid | q.ChildWaiters? || q.ExitWaiters?
      ensures List(lists3, q) ==
        if parent != 0 && (q == ExitWaiters(p) || q == ChildWaiters(parent)) then [] else List(lists, q)
    {
      assert List(lists2, q) == List(lists, q);
    }
  }

  lemma ExitKeeps(s: State, p: int, code: int)
    requires Inv(s) && p in s.procs && s.procs[p].status != Blocked && p != s.reaper
    ensures Inv(Exit(s, p, code))
  {
    hide Placed, Rest, Notify, Die, Released;
    if s.procs[p].status != Dead {
      var s1 := Postpone(s);
      SameMid(s, s1);
      RunningIsCurrent(s, p);
      var s2 := Die(s1, p, code);
      DiePlaced(s1, p, code, s2);
      DieLists(s1, p, code, s2);
      var s3 := Notify(s2, p);
      NotifyKeeps(s2, p, s3);
      ExitRest(s1, s2, s3, p, code);
      ResumeKeeps(s3);
    }
  }

  lemma RunningIsCurrent(s: State, p: int)
    requires Inv(s) && p in s.procs
    ensures p == s.current <==> s.procs[p].status == Running
  {
    assert Settled(s.procs, s.lists, s.current, p) && Settled(s.procs, s.lists, s.current, s.current);
  }
}
