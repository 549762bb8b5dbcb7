/** What every step of the scheduler keeps, and how the pieces of a step keep it. */
module SchedInv {
  import opened Seqs
  import opened ProcQueue
  import opened Sched

  ghost predicate Home(lists: Lists, p: int) {
    exists q :: In(lists, q, p)
  }

  /** A queue holds live processes of the status it stands for. */
  ghost predicate Member(procs: map<int, Proc>, q: Qid, p: int) {
    p in procs && Suits(q, procs[p].status)
  }

  ghost predicate Members(procs: map<int, Proc>, lists: Lists) {
    forall q, p :: In(lists, q, p) ==> Member(procs, q, p)
  }

  /** A process is in a queue, unless it is the running one. */
  ghost predicate Settled(procs: map<int, Proc>, lists: Lists, current: int, p: int)
    requires p in procs
  {
    if procs[p].status == Running then p == current && Free(lists, p) else Home(lists, p)
  }

  /** Every process but x is in exactly the place its status names, and x is in no queue. */
  ghost predicate PlacedBut(procs: map<int, Proc>, lists: Lists, current: int, x: int) {
    && 0 !in procs && Separate(lists) && Members(procs, lists) && Free(lists, x)
    && forall p :: p in procs && p != x ==> Settled(procs, lists, current, p)
  }

  ghost predicate Placed(procs: map<int, Proc>, lists: Lists, current: int) {
    && 0 !in procs && Separate(lists) && Members(procs, lists)
    && forall p :: p in procs ==> Settled(procs, lists, current, p)
  }

  // Placement: a process is taken out of its queue, put into another, dispatched, created, released.

  /** q' has lost or gained only x. */
  ghost predicate Differ(s: seq<int>, s': seq<int>, x: int) {
    Distinct(s') && forall p :: p != x ==> (p in s <==> p in s')
  }

  lemma DifferLists(lists: Lists, q: Qid, l: seq<int>, x: int, q': Qid, p: int)
    requires Differ(List(lists, q), l, x)
    ensures p != x || q' != q ==> (In(lists[q := l], q', p) <==> In(lists, q', p))
    ensures In(lists[q := l], q, x) <==> x in l
  {
  }

  lemma DifferHomes(lists: Lists, q: Qid, l: seq<int>, x: int, p: int)
    requires Differ(List(lists, q), l, x) && p != x
    ensures Home(lists[q := l], p) <==> Home(lists, p)
    ensures Free(lists[q := l], p) <==> Free(lists, p)
  {
    var lists' := lists[q := l];
    forall q' ensures In(lists', q', p) <==> In(lists, q', p) { DifferLists(lists, q, l, x, q', p); }
  }

  lemma DifferSeparate(lists: Lists, q: Qid, l: seq<int>, x: int, lists': Lists)
    requires Separate(lists) && Differ(List(lists, q), l, x) && (x !in l || Free(lists, x)) && lists' == lists[q := l]
    ensures Separate(lists')
  {
    forall q' ensures Distinct(List(lists', q')) { assert q' != q ==> Distinct(List(lists, q')); }
    forall q1, q2, p | In(lists', q1, p) && In(lists', q2, p) ensures q1 == q2 {
      DifferLists(lists, q, l, x, q1, p);
      DifferLists(lists, q, l, x, q2, p);
      assert q1 != q ==> In(lists, q1, p);
      assert q2 != q ==> In(lists, q2, p);
    }
  }

  lemma TakeOut(procs: map<int, Proc>, lists: Lists, current: int, q: Qid, x: int, l: seq<int>)
    requires Placed(procs, lists, current) && In(lists, q, x) && Differ(List(lists, q), l, x) && x !in l
    ensures PlacedBut(procs, lists[q := l], current, x) && x in procs
  {
    hide Separate, Differ, Home, In, Free;
    var lists' := lists[q := l];
    assert Member(procs, q, x);
    DifferSeparate(lists, q, l, x, lists');
    forall q', p | In(lists', q', p) ensures Member(procs, q', p) {
      DifferLists(lists, q, l, x, q', p);
      OutIn(lists, q, l, x, q', p);
    }
    forall p | p in procs && p != x ensures Settled(procs, lists', current, p) {
      assert Settled(procs, lists, current, p);
      DifferHomes(lists, q, l, x, p);
    }
    OutFree(lists, q, l, x);
  }

  lemma OutIn(lists: Lists, q: Qid, l: seq<int>, x: int, q': Qid, p: int)
    requires Separate(lists) && In(lists, q, x) && Differ(List(lists, q), l, x) && x !in l && In(lists[q := l], q', p)
    ensures In(lists, q', p) && p != x
  {
  }

  lemma OutFree(lists: Lists, q: Qid, l: seq<int>, x: int)
    requires Separate(lists) && In(lists, q, x) && x !in l
    ensures Free(lists[q := l], x)
  {
    var lists' := lists[q := l];
    forall q' ensures !In(lists', q', x) { assert q' != q ==> !In(lists, q', x); }
  }

  lemma PutIn(procs: map<int, Proc>, procs': map<int, Proc>, lists: Lists, current: int, q: Qid, x: int, l: seq<int>)
    requires PlacedBut(procs, lists, current, x) && Differ(List(lists, q), l, x) && x in l && x != 0
    requires x in procs' && procs' == procs[x := procs'[x]] && Suits(q, procs'[x].status)
    ensures Placed(procs', lists[q := l], current)
  {
    hide Separate, Differ, In, Free;
    var lists' := lists[q := l];
    DifferSeparate(lists, q, l, x, lists');
    DifferLists(lists, q, l, x, q, x);
    forall q', p | In(lists', q', p) ensures Member(procs', q', p) {
      DifferLists(lists, q, l, x, q', p);
      FreeOf(lists, x, q');
      assert p != x ==> Member(procs, q', p);
    }
    forall p | p in procs' ensures Settled(procs', lists', current, p) {
      if p != x {
        assert Settled(procs, lists, current, p);
        DifferHomes(lists, q, l, x, p);
      }
    }
  }

  lemma FreeOf(lists: Lists, x: int, q: Qid)
    requires Free(lists, x)
    ensures !In(lists, q, x)
  {
  }

  /** x is switched to; whoever was current is no longer running. */
  lemma Start(procs: map<int, Proc>, lists: Lists, current: int, x: int)
    requires PlacedBut(procs, lists, current, x) && x in procs
    requires current in procs && current != x ==> procs[current].status != Running
    ensures Placed(Mark(procs, x, Running), lists, x)
  {
    hide Separate, In;
    var procs' := Mark(procs, x, Running);
    forall q, p | In(lists, q, p) ensures Member(procs', q, p) {
      FreeOf(lists, x, q);
      assert Member(procs, q, p);
    }
    forall p | p in procs' ensures Settled(procs', lists, x, p) {
      if p != x { assert Settled(procs, lists, current, p); }
    }
  }

  lemma LetGo(procs: map<int, Proc>, lists: Lists, current: int, x: int)
    requires PlacedBut(procs, lists, current, x)
    ensures Placed(procs - {x}, lists, current)
  {
    hide Separate, In;
    var procs' := procs - {x};
    forall q, p | In(lists, q, p) ensures Member(procs', q, p) {
      FreeOf(lists, x, q);
      assert Member(procs, q, p);
    }
    forall p | p in procs' ensures Settled(procs', lists, current, p) { assert Settled(procs, lists, current, p); }
  }

  lemma NewComer(procs: map<int, Proc>, lists: Lists, current: int, x: int)
    requires Placed(procs, lists, current) && x !in procs
    ensures PlacedBut(procs, lists, current, x)
  {
    forall q ensures !In(lists, q, x) { assert In(lists, q, x) ==> Member(procs, q, x); }
  }

  lemma RunningOut(procs: map<int, Proc>, lists: Lists, current: int)
    requires Placed(procs, lists, current) && current in procs && procs[current].status == Running
    ensures PlacedBut(procs, lists, current, current)
  {
    assert Settled(procs, lists, current, current);
  }

  /** Only the statuses matter. */
  lemma SameStatuses(procs: map<int, Proc>, procs': map<int, Proc>, lists: Lists, current: int, x: int)
    requires procs.Keys == procs'.Keys && forall p :: p in procs ==> procs'[p].status == procs[p].status
    ensures Placed(procs, lists, current) ==> Placed(procs', lists, current)
    ensures PlacedBut(procs, lists, current, x) ==> PlacedBut(procs', lists, current, x)
  {
    hide Separate, In;
    if Placed(procs, lists, current) || PlacedBut(procs, lists, current, x) {
      forall q, p | In(lists, q, p) ensures Member(procs', q, p) { assert Member(procs, q, p); }
      forall p | p in procs' && Settled(procs, lists, current, p) ensures Settled(procs', lists, current, p) {
        assert p in procs && Settled(procs, lists, current, p);
      }
    }
  }

  // How the queues change.

  lemma DifferTail(s: seq<int>, x: int)
    requires Distinct(s) && x !in s
    ensures Differ(s, s + [x], x) && Differ(s, [x] + s, x)
  {
  }

  lemma DifferHead(s: seq<int>)
    requires Distinct(s) && s != []
    ensures Differ(s, s[1..], s[0]) && s[0] !in s[1..]
  {
    assert s == [s[0]] + s[1..];
  }

  lemma DifferMiddle(s: seq<int>, n: nat, x: int)
    requires Distinct(s) && x !in s && n <= |s|
    ensures Differ(s, s[..n] + [x] + s[n..], x)
  {
    assert s == s[..n] + s[n..];
  }

  lemma DifferWithout(s: seq<int>, x: int)
    requires Distinct(s) && x in s
    ensures Differ(s, Without(s, x), x) && x !in Without(s, x)
  {
    var k :| 0 <= k < |s| && s[k] == x;
    WithoutAt(s, k);
    RemoveMembers(s, k);
  }

  lemma ListDistinct(lists: Lists, q: Qid, x: int)
    requires Separate(lists)
    ensures Distinct(List(lists, q)) && (Free(lists, x) ==> x !in List(lists, q))
  {
    assert Free(lists, x) ==> !In(lists, q, x);
  }

  // Families, sleepers, waiters, pids and semaphores.

  /** The children named by p have p as their parent, each once. */
  ghost predicate ChildrenOk(procs: map<int, Proc>, p: int)
    requires p in procs
  {
    && |procs[p].children| == MAX_CHILDREN && procs[p].children[0] == 0
    && (forall c :: c != 0 && c in procs[p].children ==> c != p && c in procs && procs[c].parent == p)
    && (forall i, j :: 0 <= i < j < MAX_CHILDREN && procs[p].children[i] != 0 ==>
      procs[p].children[i] != procs[p].children[j])
  }

  /** The parent of p names p as a child. */
  ghost predicate ParentOk(procs: map<int, Proc>, p: int)
    requires p in procs
  {
    procs[p].parent != 0 ==> procs[p].parent in procs && p in procs[procs[p].parent].children
  }

  ghost predicate Family(procs: map<int, Proc>) {
    forall p :: p in procs ==> ChildrenOk(procs, p) && ParentOk(procs, p)
  }

  /** Sleepers are ordered by deadline. */
  ghost predicate Ordered(procs: map<int, Proc>, l: seq<int>) {
    forall i, j :: 0 <= i < j < |l| && l[i] in procs && l[j] in procs ==>
      procs[l[i]].sleepUntil <= procs[l[j]].sleepUntil
  }

  ghost predicate HasDead(procs: map<int, Proc>, x: int)
    requires x in procs
  {
    exists c :: c in procs[x].children && Collectable(procs, c, -1)
  }

  /** A process inside waitpid is asleep exactly as long as there is nothing to collect. */
  ghost predicate WaitOk(procs: map<int, Proc>, lists: Lists, waits: map<int, Wait>, x: int)
    requires x in waits
  {
    && x in procs && procs[x].status != Dead
    && match waits[x]
       case AnyChild => In(lists, ChildWaiters(x), x) <==> !HasDead(procs, x)
       case Child(c, slot, pid) =>
         && c != 0 && c in procs && 1 <= slot < |procs[x].children| && procs[x].children[slot] == c &&
           procs[c].pid == pid
         && (In(lists, ExitWaiters(c), x) <==> procs[c].status != Dead)
  }

  /** Only a process inside waitpid sits in the wait queues of a process, and in the right one. */
  ghost predicate WaiterOk(waits: map<int, Wait>, q: Qid, x: int) {
    && (q.ChildWaiters? ==> q.proc == x && x in waits && waits[x] == AnyChild)
    && (q.ExitWaiters? ==> x in waits && waits[x].Child? && waits[x].child == q.proc)
  }

  ghost predicate Waits(procs: map<int, Proc>, lists: Lists, waits: map<int, Wait>) {
    && (forall x :: x in waits ==> WaitOk(procs, lists, waits, x))
    && (forall q, x :: In(lists, q, x) ==> WaiterOk(waits, q, x))
  }

  /** The terminator is always ready or running. */
  ghost predicate Alive(procs: map<int, Proc>, reaper: int) {
    reaper in procs && procs[reaper].status in {Uninitialized, Runnable, Running}
  }

  /** A pid is given once, and released at most once and only by a process that is gone. */
  ghost predicate Pids(procs: map<int, Proc>, total: nat, freed: seq<nat>) {
    && (forall p :: p in procs ==> procs[p].pid <= total && procs[p].pid !in freed)
    && (forall p, q :: p in procs && q in procs && p != q ==> procs[p].pid != procs[q].pid)
    && (forall n :: n in freed ==> n <= total)
    && (forall i, j :: 0 <= i < j < |freed| ==> freed[i] != freed[j])
  }

  /** Holders are counted, waiters exist only when it is full, and are served in the order in which they asked. */
  ghost predicate SemOk(lists: Lists, sem: Sem, log: Log, id: int) {
    && |Holders(log, id)| == sem.locks <= sem.limit <= 255
    && (List(lists, Waiters(id)) != [] ==> sem.locks == sem.limit)
    && Asked(log, id) == Granted(log, id) + List(lists, Waiters(id))
  }

  ghost predicate Sems(lists: Lists, sems: map<int, Sem>, log: Log) {
    forall id :: id in sems ==> SemOk(lists, sems[id], log, id)
  }

  /** All but the placement. */
  ghost predicate Rest(s: State) {
    && Family(s.procs) && Ordered(s.procs, List(s.lists, SleepingQ)) && Waits(s.procs, s.lists, s.waits)
    && Alive(s.procs, s.reaper) && Pids(s.procs, s.total, s.log.freed) && Sems(s.lists, s.sems, s.log)
  }

  /** What holds inside a section. */
  ghost predicate Mid(s: State) {
    s.current in s.procs && Placed(s.procs, s.lists, s.current) && Rest(s)
  }

  /** What holds between two steps. */
  ghost predicate Inv(s: State) {
    Mid(s) && s.procs[s.current].status == Running && s.locks == 0 && !s.flag && List(s.lists, LocalQ) == []
  }

  /** Between two steps the current process is the running one and every other process is in
      exactly one queue, the one its status names. */
  lemma OnePlace(s: State, p: int)
    requires Inv(s) && p in s.procs
    ensures p == s.current <==> s.procs[p].status == Running
    ensures p == s.current ==> Free(s.lists, p)
    ensures p != s.current ==>
      exists q :: In(s.lists, q, p) && Suits(q, s.procs[p].status) && forall q' :: In(s.lists, q', p) ==> q' == q
  {
    assert Settled(s.procs, s.lists, s.current, p) && Settled(s.procs, s.lists, s.current, s.current);
    if p != s.current {
      var q :| In(s.lists, q, p);
      assert Member(s.procs, q, p);
    }
  }

  // Frames.

  ghost predicate SameKin(a: Proc, b: Proc) {
    a.pid == b.pid && a.parent == b.parent && a.children == b.children
  }

  /** Families and pids stay, and nobody dies or comes back. */
  ghost predicate Kin(procs: map<int, Proc>, procs': map<int, Proc>) {
    && procs.Keys == procs'.Keys
    && forall p :: p in procs ==>
      SameKin(procs[p], procs'[p]) && (procs'[p].status == Dead <==> procs[p].status == Dead)
  }

  lemma FamilyKept(procs: map<int, Proc>, procs': map<int, Proc>)
    requires Family(procs) && procs.Keys == procs'.Keys && forall p :: p in procs ==> SameKin(procs[p], procs'[p])
    ensures Family(procs')
  {
    forall p | p in procs' ensures ChildrenOk(procs', p) && ParentOk(procs', p) {
      assert ChildrenOk(procs, p) && ParentOk(procs, p);
    }
  }

  ghost predicate SameWaiters(lists: Lists, lists': Lists) {
    forall q: Qid :: q.ChildWaiters? || q.ExitWaiters? ==> List(lists', q) == List(lists, q)
  }

  lemma WaitsKept(procs: map<int, Proc>, procs': map<int, Proc>, lists: Lists, lists': Lists, waits: map<int, Wait>)
    requires Waits(procs, lists, waits) && Kin(procs, procs') && SameWaiters(lists, lists')
    ensures Waits(procs', lists', waits)
  {
    forall x | x in waits ensures WaitOk(procs', lists', waits, x) {
      assert WaitOk(procs, lists, waits, x);
      assert List(lists', ChildWaiters(x)) == List(lists, ChildWaiters(x));
      if waits[x].Child? {
        assert List(lists', ExitWaiters(waits[x].child)) == List(lists, ExitWaiters(waits[x].child));
      }
      HasDeadKept(procs, procs', x);
    }
    forall q, x | In(lists', q, x) ensures WaiterOk(waits, q, x) {
      if q.ChildWaiters? || q.ExitWaiters? { assert In(lists, q, x); }
    }
  }

  lemma HasDeadKept(procs: map<int, Proc>, procs': map<int, Proc>, x: int)
    requires Kin(procs, procs') && x in procs
    ensures HasDead(procs', x) <==> HasDead(procs, x)
  {
    forall c ensures Collectable(procs', c, -1) <==> Collectable(procs, c, -1) {}
  }

  /** A change of statuses, deadlines and queues that neither waitpid nor a semaphore looks at. */
  ghost predicate Quiet(s: State, s': State) {
    && Kin(s.procs, s'.procs) && SameWaiters(s.lists, s'.lists)
    && (forall id :: id in s.sems ==> List(s'.lists, Waiters(id)) == List(s.lists, Waiters(id)))
    && Ordered(s'.procs, List(s'.lists, SleepingQ)) && Alive(s'.procs, s'.reaper)
    && s'.waits == s.waits && s'.sems == s.sems && s'.total == s.total
    && s'.log.(ran := s.log.ran, ended := s.log.ended) == s.log
  }

  lemma RestKept(s: State, s': State)
    requires Rest(s) && Quiet(s, s')
    ensures Rest(s')
  {
    hide Ordered, Alive, ChildrenOk, ParentOk, WaitOk, WaiterOk, SameWaiters;
    FamilyKept(s.procs, s'.procs);
    WaitsKept(s.procs, s'.procs, s.lists, s'.lists, s.waits);
    forall id | id in s'.sems ensures SemOk(s'.lists, s'.sems[id], s'.log, id) {
      assert SemOk(s.lists, s.sems[id], s.log, id);
    }
  }
}
