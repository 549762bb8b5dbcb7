/** Every step of the scheduler keeps its invariant. */
module SchedSteps {
  import opened Seqs
  import opened ProcQueue
  import opened Sched
  import opened SchedInv

  // Switching.

  lemma ReadyOrRunning(s: State)
    requires Mid(s)
    ensures List(s.lists, ReadyQ) == [] ==> s.procs[s.current].status == Running
  {
    assert Settled(s.procs, s.lists, s.current, s.reaper);
    if s.procs[s.reaper].status != Running {
      var q :| In(s.lists, q, s.reaper);
      assert Member(s.procs, q, s.reaper);
    }
  }

  lemma PreemptKeeps(s: State, s': State)
    requires Mid(s) && s.procs[s.current].status == Running
    requires s' == Put(s, ReadyQ, List(s.lists, ReadyQ) + [s.current]).(procs := Mark(s.procs, s.current, Runnable))
    ensures Mid(s') && s'.procs[s'.current].status == Runnable
  {
    hide Placed, Rest, PlacedBut, Differ, Ordered;
    RunningOut(s.procs, s.lists, s.current);
    PushedBack(s.procs, s'.procs, s.lists, s.current, ReadyQ, s.current);
    QuietStep(s, s');
    RestKept(s, s');
  }

  /** Joining the back of a queue. */
  lemma PushedBack(procs: map<int, Proc>, procs': map<int, Proc>, lists: Lists, current: int, q: Qid, x: int)
    requires PlacedBut(procs, lists, current, x) && x != 0
    requires x in procs' && procs' == procs[x := procs'[x]] && Suits(q, procs'[x].status)
    ensures Placed(procs', lists[q := List(lists, q) + [x]], current)
  {
    ListDistinct(lists, q, x);
    DifferTail(List(lists, q), x);
    PutIn(procs, procs', lists, current, q, x, List(lists, q) + [x]);
  }

  /** p keeps its status or becomes ready or running. */
  ghost predicate Awakes(procs: map<int, Proc>, procs': map<int, Proc>, p: int)
    requires p in procs && p in procs'
  {
    && procs'[p] == procs[p].(status := procs'[p].status)
    && (procs'[p].status == procs[p].status || (procs[p].status != Dead && procs'[p].status in {Runnable, Running}))
  }

  /** Only the ready queue and statuses change. */
  lemma QuietStep(s: State, s': State)
    requires Rest(s) && s.procs.Keys == s'.procs.Keys
    requires forall p :: p in s.procs ==> Awakes(s.procs, s'.procs, p)
    requires forall q :: q != ReadyQ ==> List(s'.lists, q) == List(s.lists, q)
    requires s'.waits == s.waits && s'.sems == s.sems && s'.total == s.total && s'.reaper == s.reaper
    requires s'.log.(ran := s.log.ran, ended := s.log.ended) == s.log
    ensures Quiet(s, s')
  {
    hide Family, Waits, Pids, Sems;
    OrderKept(s.procs, s'.procs, List(s.lists, SleepingQ));
    assert Awakes(s.procs, s'.procs, s.reaper);
  }

  lemma OrderKept(procs: map<int, Proc>, procs': map<int, Proc>, l: seq<int>)
    requires Ordered(procs, l) && procs.Keys == procs'.Keys && forall p :: p in procs ==> Awakes(procs, procs', p)
    ensures Ordered(procs', l)
  {
    forall i, j | 0 <= i < j < |l| && l[i] in procs' && l[j] in procs'
      ensures procs'[l[i]].sleepUntil <= procs'[l[j]].sleepUntil
    {
      assert Awakes(procs, procs', l[i]) && Awakes(procs, procs', l[j]);
    }
  }

  lemma DispatchKeeps(s: State, s': State)
    requires Mid(s) && s.procs[s.current].status != Running && List(s.lists, ReadyQ) != [] && s' == Dispatch(s)
    ensures Mid(s') && s'.procs[s'.current].status == Running
  {
    hide Placed, Rest, PlacedBut, Differ, Ordered;
    var l := List(s.lists, ReadyQ);
    Popped(s.procs, s.lists, s.current, ReadyQ);
    Start(s.procs, s.lists[ReadyQ := l[1..]], s.current, l[0]);
    QuietStep(s, s');
    RestKept(s, s');
  }

  /** Leaving the front of a queue. */
  lemma Popped(procs: map<int, Proc>, lists: Lists, current: int, q: Qid)
    requires Placed(procs, lists, current) && List(lists, q) != []
    ensures var x := List(lists, q)[0];
      PlacedBut(procs, lists[q := List(lists, q)[1..]], current, x) && x in procs && x != 0 && Suits(q, procs[x].status)
  {
    var x := List(lists, q)[0];
    ListDistinct(lists, q, x);
    DifferHead(List(lists, q));
    assert In(lists, q, x) && Member(procs, q, x);
    TakeOut(procs, lists, current, q, x, List(lists, q)[1..]);
  }

  lemma SwitchKeeps(s: State)
    requires Mid(s)
    ensures Mid(Switch(s)) && Switch(s).procs[Switch(s).current].status == Running
    ensures Switch(s).locks == s.locks && Switch(s).flag == s.flag
    ensures List(Switch(s).lists, LocalQ) == List(s.lists, LocalQ)
  {
    hide Placed, Rest;
    ReadyOrRunning(s);
    if List(s.lists, ReadyQ) != [] {
      if s.procs[s.current].status == Running {
        var s1 := Put(s, ReadyQ, List(s.lists, ReadyQ) + [s.current]).(procs := Mark(s.procs, s.current, Runnable));
        PreemptKeeps(s, s1);
        DispatchKeeps(s1, Dispatch(s1));
      } else {
        DispatchKeeps(s, Dispatch(s));
      }
    }
  }

  /** Inside an outermost section that is about to end. */
  ghost predicate Section(s: State) {
    Mid(s) && s.locks == 1 && (s.flag || s.procs[s.current].status == Running) && List(s.lists, LocalQ) == []
  }

  lemma ResumeKeeps(s: State)
    requires Section(s)
    ensures Inv(Resume(s))
  {
    hide Placed, Rest;
    var s1 := s.(locks := 0, flag := false);
    SameMid(s, s1);
    SwitchKeeps(s1);
  }

  lemma SameMid(s: State, s': State)
    requires s' == s.(locks := s'.locks, flag := s'.flag, quantum := s'.quantum)
    ensures Mid(s') <==> Mid(s)
  {
  }

  // Waking.

  lemma MarkAllThen(procs: map<int, Proc>, ps: seq<int>, p: int)
    ensures MarkAll(MarkAll(procs, ps, Runnable), [p], Runnable) == MarkAll(procs, ps + [p], Runnable)
  {
  }

  lemma WakeSplit(s: State, q: Qid, n: nat)
    requires q != ReadyQ && n < |List(s.lists, q)|
    ensures |List(WakeMany(s, q, n).lists, q)| == |List(s.lists, q)| - n
    ensures WakeMany(s, q, n + 1) == WakeMany(WakeMany(s, q, n), q, 1)
  {
    hide MarkAll;
    var l, r := List(s.lists, q), List(s.lists, ReadyQ);
    var s1 := WakeMany(s, q, n);
    assert List(s1.lists, q) == l[n..] && l[n..][1..] == l[n + 1..] && l[n..][..1] == [l[n]];
    assert r + l[..n + 1] == r + l[..n] + [l[n]];
    assert l[..n + 1] == l[..n] + [l[n]];
    if n > 0 {
      MarkAllThen(s.procs, l[..n], l[n]);
      assert s.lists[q := l[n..]][ReadyQ := r + l[..n]][q := l[n + 1..]][ReadyQ := r + l[..n] + [l[n]]]
          == s.lists[q := l[n + 1..]][ReadyQ := r + l[..n + 1]];
    }
  }

  lemma {:induction false} WakePlaced(s: State, q: Qid, n: nat, s': State)
    requires q != ReadyQ && n <= |List(s.lists, q)| && Placed(s.procs, s.lists, s.current) && s' == WakeMany(s, q, n)
    ensures Placed(s'.procs, s'.lists, s.current)
    decreases n
  {
    hide Placed;
    if n > 0 {
      var s1 := WakeMany(s, q, n - 1);
      WakePlaced(s, q, n - 1, s1);
      WakeSplit(s, q, n - 1);
      WakeOnePlaced(s1, q, s');
    }
  }

  lemma WakeOnePlaced(s: State, q: Qid, s': State)
    requires q != ReadyQ && List(s.lists, q) != [] && Placed(s.procs, s.lists, s.current) && s' == WakeMany(s, q, 1)
    ensures Placed(s'.procs, s'.lists, s.current)
  {
    hide Placed, PlacedBut;
    var l := List(s.lists, q);
    var x := l[0];
    Popped(s.procs, s.lists, s.current, q);
    var lists1 := s.lists[q := l[1..]];
    assert l[..1] == [x] && List(lists1, ReadyQ) == List(s.lists, ReadyQ);
    assert s'.procs == s.procs[x := s.procs[x].(status := Runnable)];
    PushedBack(s.procs, s'.procs, lists1, s.current, ReadyQ, x);
  }

  lemma WokenKin(s: State, q: Qid, n: nat, s': State)
    requires n <= |List(s.lists, q)| && Placed(s.procs, s.lists, s.current) && !q.DyingQ? && !q.LocalQ?
    requires s' == WakeMany(s, q, n)
    ensures s'.procs.Keys == s.procs.Keys && forall p :: p in s.procs ==> Awakes(s.procs, s'.procs, p)
  {
    forall p | p in s.procs ensures Awakes(s.procs, s'.procs, p) {
      if p in List(s.lists, q)[..n] { assert In(s.lists, q, p) && Member(s.procs, q, p); }
    }
  }

  /** Waking sleepers, or waiters on a queue that no semaphore owns. */
  lemma WakeKeeps(s: State, q: Qid, n: nat, s': State)
    requires Mid(s) && n <= |List(s.lists, q)| && s' == WakeMany(s, q, n)
    requires q == SleepingQ || (q.Waiters? && q.id !in s.sems)
    ensures Mid(s')
  {
    hide Placed, Rest, Ordered, Kin, SameWaiters;
    if n > 0 {
      WakePlaced(s, q, n, s');
      WokenKin(s, q, n, s');
      WakeQuiet(s, q, n, s');
      RestKept(s, s');
    }
  }

  lemma WakeQuiet(s: State, q: Qid, n: nat, s': State)
    requires Rest(s) && 0 < n <= |List(s.lists, q)| && s' == WakeMany(s, q, n)
    requires q == SleepingQ || (q.Waiters? && q.id !in s.sems)
    requires s'.procs.Keys == s.procs.Keys && forall p :: p in s.procs ==> Awakes(s.procs, s'.procs, p)
    ensures Quiet(s, s')
  {
    hide Family, Waits, Pids, Sems, MarkAll, Ordered;
    var l := List(s.lists, SleepingQ);
    OrderKept(s.procs, s'.procs, l);
    if q == SleepingQ { OrderDrop(s'.procs, l, n); }
    assert Awakes(s.procs, s'.procs, s.reaper);
    forall p | p in s.procs
      ensures SameKin(s.procs[p], s'.procs[p]) && (s'.procs[p].status == Dead <==> s.procs[p].status == Dead)
    {
      assert Awakes(s.procs, s'.procs, p);
    }
  }

  lemma OrderDrop(procs: map<int, Proc>, l: seq<int>, n: nat)
    requires Ordered(procs, l) && n <= |l|
    ensures Ordered(procs, l[n..])
  {
  }

  lemma WakeOneKeeps(s: State, id: int)
    requires Inv(s) && id !in s.sems
    ensures Inv(WakeOne(s, Waiters(id)))
  {
    hide Placed, Rest;
    var s1 := Postpone(s);
    SameMid(s, s1);
    var n := if List(s.lists, Waiters(id)) == [] then 0 else 1;
    WakeKeeps(s1, Waiters(id), n, WakeMany(s1, Waiters(id), n));
    StillRunning(s1, Waiters(id), n, WakeMany(s1, Waiters(id), n));
    ResumeKeeps(WakeMany(s1, Waiters(id), n));
  }

  lemma WakeAllKeeps(s: State, id: int)
    requires Inv(s) && id !in s.sems
    ensures Inv(WakeAll(s, Waiters(id)))
  {
    hide Placed, Rest;
    var s1 := Postpone(s);
    SameMid(s, s1);
    var n := |List(s.lists, Waiters(id))|;
    WakeKeeps(s1, Waiters(id), n, WakeMany(s1, Waiters(id), n));
    StillRunning(s1, Waiters(id), n, WakeMany(s1, Waiters(id), n));
    ResumeKeeps(WakeMany(s1, Waiters(id), n));
  }

  // The timer.

  /** Those due are exactly a prefix of the sleepers. */
  lemma {:induction false} DueIsPrefix(procs: map<int, Proc>, l: seq<int>, ts: nat)
    requires Ordered(procs, l) && forall k :: 0 <= k < |l| ==> l[k] in procs
    ensures forall k :: 0 <= k < |l| ==> (procs[l[k]].sleepUntil <= ts <==> k < Due(procs, l, ts))
  {
    if l != [] {
      if procs[l[0]].sleepUntil <= ts {
        DueIsPrefix(procs, l[1..], ts);
        forall k | 0 <= k < |l| ensures procs[l[k]].sleepUntil <= ts <==> k < Due(procs, l, ts) {
          if k > 0 { assert l[k] == l[1..][k - 1]; }
        }
      } else {
        forall k | 0 <= k < |l| ensures procs[l[k]].sleepUntil > ts {
          if k > 0 { assert procs[l[0]].sleepUntil <= procs[l[k]].sleepUntil; }
        }
      }
    }
  }

  lemma ChargeKeeps(s: State, interval: nat)
    requires Section(s)
    ensures Section(Charge(s, interval))
  {
    hide Placed, Rest;
    SameMid(s, Charge(s, interval));
  }

  lemma TickKeeps(s: State, ts: nat, interval: nat)
    requires Inv(s)
    ensures Inv(Tick(s, ts, interval))
  {
    hide Placed, Rest;
    var s1 := Postpone(s);
    SameMid(s, s1);
    var n := Due(s.procs, List(s.lists, SleepingQ), ts);
    var s2 := WakeMany(s1, SleepingQ, n);
    WakeKeeps(s1, SleepingQ, n, s2);
    StillRunning(s1, SleepingQ, n, s2);
    ChargeKeeps(s2, interval);
    ResumeKeeps(Charge(s2, interval));
  }

  lemma StillRunning(s: State, q: Qid, n: nat, s': State)
    requires Placed(s.procs, s.lists, s.current) && s.current in s.procs && s.procs[s.current].status == Running
    requires n <= |List(s.lists, q)| && s' == WakeMany(s, q, n)
    ensures s.current in s'.procs && s'.procs[s.current].status == Running
  {
    assert In(s.lists, q, s.current) ==> Member(s.procs, q, s.current);
  }

  // The current process goes to sleep.

  /** The current process leaves the processor for queue q, with entry e. */
  ghost predicate Parks(s: State, s': State, q: Qid, l: seq<int>, e: Proc) {
    && s.current in s.procs && s.procs[s.current].status == Running && s.current != s.reaper
    && SameKin(s.procs[s.current], e) && Suits(q, e.status) && e.status != Dead
    && Differ(List(s.lists, q), l, s.current) && s.current in l
    && s' == Put(s, q, l).(procs := s.procs[s.current := e], flag := true)
  }

  lemma ParkPlaced(s: State, s': State, q: Qid, l: seq<int>, e: Proc)
    requires Placed(s.procs, s.lists, s.current) && Parks(s, s', q, l, e)
    ensures Placed(s'.procs, s'.lists, s'.current)
  {
    RunningOut(s.procs, s.lists, s.current);
    PutIn(s.procs, s'.procs, s.lists, s.current, q, s.current, l);
  }

  lemma ParkKeeps(s: State, s': State, q: Qid, l: seq<int>, e: Proc)
    requires Section(s) && Parks(s, s', q, l, e) && (q == SleepingQ || (q.Waiters? && q.id !in s.sems))
    requires Ordered(s'.procs, List(s'.lists, SleepingQ))
    ensures Inv(Resume(s'))
  {
    hide Placed, Rest, Ordered, Differ;
    ParkPlaced(s, s', q, l, e);
    ParkQuiet(s, s', q, l, e);
    RestKept(s, s');
    ResumeKeeps(s');
  }

  lemma ParkQuiet(s: State, s': State, q: Qid, l: seq<int>, e: Proc)
    requires Rest(s) && Parks(s, s', q, l, e) && (q == SleepingQ || (q.Waiters? && q.id !in s.sems))
    requires Ordered(s'.procs, List(s'.lists, SleepingQ))
    ensures Quiet(s, s')
  {
    hide Family, Waits, Pids, Sems, Ordered, Differ;
  }

  lemma BlockKeeps(s: State, id: int)
    requires Inv(s) && id !in s.sems && s.current != s.reaper
    ensures Inv(Block(s, Waiters(id)))
  {
    hide Placed, Rest, Differ;
    var s1 := Postpone(s);
    SameMid(s, s1);
    var q, l, e := Waiters(id), List(s.lists, Waiters(id)) + [s.current], s.procs[s.current].(status := Blocked);
    CurrentFree(s, q);
    DifferTail(List(s.lists, q), s.current);
    OrderMark(s, e);
    ParkKeeps(s1, BlockOn(s1, q), q, l, e);
  }

  lemma CurrentFree(s: State, q: Qid)
    requires Mid(s) && s.procs[s.current].status == Running
    ensures Distinct(List(s.lists, q)) && s.current !in List(s.lists, q)
  {
    assert Settled(s.procs, s.lists, s.current, s.current);
    ListDistinct(s.lists, q, s.current);
  }

  lemma OrderMark(s: State, e: Proc)
    requires Rest(s) && s.current in s.procs && e.sleepUntil == s.procs[s.current].sleepUntil
    ensures Ordered(s.procs[s.current := e], List(s.lists, SleepingQ))
  {
    hide Family, Waits, Pids, Sems;
  }

  /** The new sleeper goes after every sleeper with the same or an earlier deadline. */
  lemma SleepOrder(procs: map<int, Proc>, l: seq<int>, p: int, e: Proc, n: nat)
    requires Ordered(procs, l) && (forall k :: 0 <= k < |l| ==> l[k] in procs) && p !in l
    requires n == Due(procs, l, e.sleepUntil)
    ensures Ordered(procs[p := e], l[..n] + [p] + l[n..])
  {
    DueIsPrefix(procs, l, e.sleepUntil);
    var r, procs' := l[..n] + [p] + l[n..], procs[p := e];
    forall i, j | 0 <= i < j < |r| && r[i] in procs' && r[j] in procs'
      ensures procs'[r[i]].sleepUntil <= procs'[r[j]].sleepUntil
    {
      var i', j' := if i < n then i else i - 1, if j < n then j else j - 1;
      assert i != n ==> r[i] == l[i'];
      assert j != n ==> r[j] == l[j'];
    }
  }

  lemma Sleepers(s: State)
    requires Mid(s)
    ensures forall k :: 0 <= k < |List(s.lists, SleepingQ)| ==> List(s.lists, SleepingQ)[k] in s.procs
    ensures Ordered(s.procs, List(s.lists, SleepingQ))
  {
    var l := List(s.lists, SleepingQ);
    forall k | 0 <= k < |l| ensures l[k] in s.procs {
      assert In(s.lists, SleepingQ, l[k]) && Member(s.procs, SleepingQ, l[k]);
    }
  }

  lemma SleepKeeps(s: State, ts: nat)
    requires Inv(s) && s.current != s.reaper
    ensures Inv(SleepUntil(s, ts))
  {
    hide Placed, Rest, Differ, Due;
    var s1 := Postpone(s);
    SameMid(s, s1);
    var l, e := List(s.lists, SleepingQ), s.procs[s.current].(status := Sleeping, sleepUntil := ts);
    var n := Due(s.procs, l, ts);
    Sleepers(s);
    CurrentFree(s, SleepingQ);
    DifferMiddle(l, n, s.current);
    SleepOrder(s.procs, l, s.current, e, n);
    var l' := l[..n] + [s.current] + l[n..];
    ParkKeeps(s1, Put(s1, SleepingQ, l').(procs := s.procs[s.current := e], flag := true), SleepingQ, l', e);
  }

  lemma YieldKeeps(s: State)
    requires Inv(s)
    ensures Inv(Advance(s))
  {
    hide Placed, Rest;
    SwitchKeeps(s);
  }
}
